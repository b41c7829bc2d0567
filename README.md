# NeoSpam webhook sender: a Dafny model of its logic

NeoSpam is a small SwiftUI app. It posts a text message to a list of Discord webhook URLs that the user manages. This project models the parts of it that are logic rather than layout:

- **The webhook list.** A typed URL is appended to the saved list only if it passes a fixed pattern and is not already there. Entries are removed by offset. There are two settings sheets. `SettingsView` in SettingsView.swift gives coloured feedback. An older struct, also named `SettingsView`, is declared inside ContentView.swift and only has a red error line; it is modelled as `EmbeddedSettingsView`.
- **The URL check.** `isValidWebhookURL` tests the whole string against `^https://discord.com/api/webhooks/\d+/[A-Za-z0-9_-]+$`. The `.` in `discord.com` is not escaped. MATCHES runs without the dot-all flag, so it matches any one character except an ICU line terminator (U+000A to U+000D, U+0085, U+2028, U+2029). The model keeps that behaviour.
- **Selection and sending.** Tapping a link toggles it in the selection. Send parses the repeat count with `Int(_:)`. If the count is positive, the app calls `sendToWebhook` once per selected webhook per repetition, always with the text field's contents.
- **Per-request outcomes.** A completed data task is classified as a transport error, an HTTP status outside 200...299, or success. `ContentView` writes the outcome to its status line. `WebhookManager.sendToWebhook` reports it through its `updateStatus` and `completion` callbacks.

Files:

| file | module | models |
|---|---|---|
| common.dfy | `Common` | `Option`, colour tags |
| decimal.dfy | `Decimal` | Swift `Int(_:)` parsing and `Int` interpolation, 64-bit range |
| webhook_pattern.dfy | `WebhookPattern` | the URL pattern as a hand-written matcher, plus a reference definition of the pattern's language |
| webhook_list.dfy | `WebhookList` | append-if-new and remove-at-offsets on the saved list, as values |
| webhook_manager.dfy | `WebhookManager` | `WebhookManager.sendToWebhook` as a function returning the request and the callbacks it makes |
| settings_view.dfy | `SettingsView` | the settings sheet class of SettingsView.swift |
| content_view.dfy | `ContentView` | the main screen class and the embedded settings sheet of ContentView.swift |

The Swift views' `@State` variables are class fields. The methods that change them carry `modifies` clauses and state the whole new state. What those methods compute is defined by functions (`Added`, `RemovedAt`, `Toggled`, `FanOut`, `FanOutRequests`), and the lemmas state the properties of those functions.

Abstract inputs:

- `isUrl: string -> bool` stands for whether `URL(string:)` accepts a string.
- `order` is the order in which the Swift `Set` of selected webhooks is iterated. It lists every selected webhook exactly once.
- `TaskResult` is what `URLSession` hands a data task's completion handler: an optional error (its `localizedDescription`) and an optional response (`HTTPURLResponse` with a status code, or some other kind).
- `storedWebhooks` fields stand for the "savedWebhooks" user default. They are written exactly where the source writes it.
- `ContentView.inFlight` lists the data tasks that have started but whose completion handler has not run. `RequestCompleted(k, result)` runs any one of those handlers. Handlers may run in any order, but only between user actions. The last status write decides the status line, whether it comes from a handler or from a later send's "error: invalid URL".
- The ghost field `ContentView.calls` records every `sendToWebhook` call.

## Model

| member | source | states |
|---|---|---|
| WebhookPattern.ValidIffMatchesPattern | SettingsView.swift:61-64 | the check accepts a string iff the whole string is "https://discord", any one character, "com/api/webhooks/", one or more digits, "/", then one or more of [A-Za-z0-9_-]; the embedded sheet's copy at ContentView.swift:238-241 is the same check |
| WebhookPattern.Split | SettingsView.swift:61-64 | every accepted string is exactly the concatenation of the pattern's pieces, with a wildcard that is not a line terminator, a digit id and a token recovered from it |
| WebhookPattern.SplitComplete | SettingsView.swift:61-64 | every string the pattern spells out, with a wildcard that is not a line terminator, is accepted, and the matcher recovers its wildcard character, id and token |
| WebhookPattern.WildcardAcceptsLookalikeHost | SettingsView.swift:62 | because the '.' is unescaped, "https://discord" + any character other than a line terminator + "com/api/webhooks/123/abc" is accepted |
| WebhookPattern.LineTerminatorWildcardRejected | SettingsView.swift:62-63 | a line terminator in the place of the '.' fails the check, whatever follows it |
| WebhookList.Added | SettingsView.swift:44-47 | adding keeps the old list as a prefix; it grows by exactly one iff the URL passes the check and is not yet listed, and is otherwise unchanged; the URL ends up present iff it was present or passes the check; no other entry's membership changes |
| WebhookList.AddedKeepsWellFormed | SettingsView.swift:44-47 | a duplicate-free list of valid URLs stays duplicate-free and all-valid after an add |
| WebhookList.AddedIdempotent | SettingsView.swift:44-47 | adding the same URL twice gives the same list as adding it once |
| WebhookList.RemovedAt | SettingsView.swift:67 | removal never lengthens the list, and every entry left was in the list before |
| WebhookList.KeptIndices | SettingsView.swift:67 | the indices kept by a removal are strictly increasing, and an index is kept iff it is in range and not among the offsets |
| WebhookList.RemovedAtKeepsOrder | SettingsView.swift:67 | removal keeps exactly the entries at the kept indices, in their original order; the embedded sheet's removal at ContentView.swift:244 is the same operation |
| WebhookList.RemovedAtLength | SettingsView.swift:67 | with in-range offsets, the list shrinks by exactly the number of offsets |
| WebhookList.RemovedAtKeepsWellFormed | SettingsView.swift:67 | removal keeps a duplicate-free, all-valid list duplicate-free and all-valid |
| SettingsView.SettingsView.constructor | SettingsView.swift:4-6 | the sheet starts with the bound URL and list and an empty, clear message |
| SettingsView.SettingsView.ValidateAndSaveWebhook | SettingsView.swift:43-59 | valid and new: appended at the end, saved, field cleared, ("Webhook added successfully!", green); valid but known: list, field and saved copy unchanged, ("Webhook is already in the list.", orange); invalid: list, field and saved copy unchanged, red "Invalid Discord Webhook URL..." message; a well-formed list stays well-formed |
| SettingsView.SettingsView.RemoveWebhook | SettingsView.swift:66-71 | the entries at the offsets are removed, the order of the rest is kept, the list is saved, and the message is ("Webhook removed successfully!", green) |
| WebhookManager.SendToWebhook | WebhookManager.swift:8-34 | a request is issued iff the URL parses, and the last callback is completion(true) iff the URL parses and the message was delivered, completion(false) otherwise |
| WebhookManager.FailureStatusIffNotDelivered | WebhookManager.swift:22-33 | the handler reports a failure exactly when the reference says the message was not delivered: an error, or an HTTP response outside 200...299; a missing or non-HTTP response with no error is success; every failure text starts with "error: " |
| WebhookManager.TransportErrorReported | WebhookManager.swift:23-25 | a transport error gives updateStatus("error: <description>", red) and then completion(false), whatever response came with it |
| WebhookManager.ServerErrorReported | WebhookManager.swift:26-28 | an HTTP status outside 200...299 gives updateStatus("error: server <code>", red) and then completion(false) |
| WebhookManager.InvalidUrlIssuesNothing | WebhookManager.swift:9-13 | a string URL(string:) rejects gives updateStatus("error: invalid URL", red), then completion(false), and no request |
| WebhookManager.RequestShape | WebhookManager.swift:15-20 | a request is issued iff the URL parses; it is a POST to the webhook with Content-Type application/json and a body whose only key "content" holds the message |
| WebhookManager.CompletesExactlyOnce | WebhookManager.swift:9-33 | every path calls completion exactly once, as its last callback |
| WebhookManager.SucceedsIffDelivered | WebhookManager.swift:29-32 | completion(true) is called iff the URL parses and the message was delivered, and then it is the only callback; on failure there is exactly one red updateStatus before completion(false) |
| Decimal.NatToString | ContentView.swift:156 | the decimal numeral of a status code is non-empty, all digits, and has no leading zero |
| Decimal.ParseInt | ContentView.swift:119 | Int(_:) yields only values within the 64-bit range, and only for text starting with a digit or a sign |
| Decimal.ParseIntOfDigits | ContentView.swift:119 | one or more ASCII digits parse to their value, leading zeros included, when it fits in 64 bits, and to nil otherwise |
| Decimal.ParseIntOfSignedDigits | ContentView.swift:119 | "+" or "-" followed by one or more ASCII digits parses to the signed value when it fits in 64 bits (down to Int.min after "-"), and to nil otherwise |
| Decimal.ParseIntAcceptsSignedDigits | ContentView.swift:119 | every accepted text is an optional sign followed only by ASCII digits, and its value is those digits read in base 10, negated after "-" |
| Decimal.ParseIntExamples | ContentView.swift:119 | "+3" and "03" give 3 and "-12" gives -12; "3a", "+" and "" give nil |
| Decimal.NatToStringValue | ContentView.swift:156 | reading the numeral of n back gives n |
| Decimal.ParseIntRoundTrip | ContentView.swift:119 | every 64-bit Int survives string interpolation followed by Int(_:) |
| ContentView.Toggled | ContentView.swift:46-51 | tapping flips the tapped webhook's membership and leaves every other webhook's membership unchanged |
| ContentView.ToggleTwice | ContentView.swift:46-51 | tapping the same link twice restores the selection |
| ContentView.RepeatCount | ContentView.swift:119 | the guard passes iff Int(sendCount) parses to a positive value; the count is then that parsed value, at most Int.max |
| ContentView.RepeatCountOfNumeral | ContentView.swift:119 | the numeral of every count from 1 to Int.max passes the guard with its own value |
| ContentView.Round | ContentView.swift:128-130 | one pass of the inner loop makes exactly as many calls as the order lists webhooks |
| ContentView.RoundLength | ContentView.swift:128-130 | one pass of the inner loop makes exactly one call per listed webhook, in list order, each with the text input |
| ContentView.RoundEach | ContentView.swift:128-130 | one pass of the inner loop over a repeat-free order calls each listed webhook exactly once |
| ContentView.EnumeratesSize | ContentView.swift:128 | an order that lists every selected webhook exactly once is exactly as long as the selection is large |
| ContentView.FanOutLength | ContentView.swift:127-131 | the nested loops make exactly count × (number of selected webhooks) calls |
| ContentView.FanOutCalls | ContentView.swift:127-131 | every call goes to a selected webhook and carries the text input |
| ContentView.FanOutEach | ContentView.swift:127-131 | the contract of FanOut: each selected webhook is called exactly count times, and no other webhook is called |
| ContentView.IssuedWhenAllParse | ContentView.swift:135-149 | when every webhook parses, one request is issued per call, in call order |
| ContentView.RoundRequestsAreIssued | ContentView.swift:128-130 | one pass of the inner loop issues the requests its calls call for, in order |
| ContentView.FanOutRequestsAreIssued | ContentView.swift:127-131 | the nested loops issue exactly one request per call whose webhook parses, in call order |
| ContentView.FanOutRequestCount | ContentView.swift:127-131 | when every selected webhook parses, exactly count × (number of selected webhooks) data tasks are started |
| ContentView.StatusAfter | ContentView.swift:150-162 | the status a handler leaves is green or red, and green iff the message was delivered |
| ContentView.StatusAfterAgreesWithManager | ContentView.swift:150-162 | the handler's status text is "sent" iff the message was delivered, and on failure the red text is the one WebhookManager reports |
| ContentView.ContentView.constructor | ContentView.swift:4-13 | initial state: empty text, URL and list read from the user defaults (empty when absent), empty selection, count "1", red "inactive" status |
| ContentView.ContentView.TapLink | ContentView.swift:46-51 | the selection becomes Toggled(old selection, webhook), and nothing else changes |
| ContentView.ContentView.SendToWebhook | ContentView.swift:134-149 | one call is recorded; an unparsable URL sets the status to red "error: invalid URL" and starts nothing; a parsable one starts one data task with the POST request and leaves the status alone |
| ContentView.ContentView.SendTextToWebhooks | ContentView.swift:118-132 | an invalid count sets only the feedback message; a valid count n makes exactly the calls FanOut(n, order, text) and starts the matching requests; the status ends red "error: invalid URL" iff some selected webhook does not parse, otherwise yellow "sending...", which includes an empty selection or empty text; the number of calls is n × (number of selected webhooks) |
| ContentView.ContentView.SendRounds | ContentView.swift:127-131 | the outer loop makes exactly the calls FanOut(count, order, text) and starts the matching requests; the status turns red iff count is positive and some webhook of the order does not parse, and is untouched otherwise |
| ContentView.ContentView.SendRound | ContentView.swift:128-130 | the inner loop calls sendToWebhook once per webhook of the order, starts a data task for each one that parses, and turns the status red iff one does not parse |
| ContentView.ContentView.TapSend | ContentView.swift:80-83 | the Send button marks the form submitted; an invalid count changes only the feedback message; a valid count n leaves the feedback message alone, makes the calls FanOut(n, order, text), starts the matching requests, and ends the status red "error: invalid URL" iff some selected webhook does not parse, otherwise yellow "sending..." |
| ContentView.ContentView.RequestCompleted | ContentView.swift:149-163 | a pending data task's handler removes it from the pending list and overwrites the status with its outcome; the status is green iff the message was delivered |
| ContentView.EmbeddedSettingsView.constructor | ContentView.swift:182-184 | the sheet starts with the bound URL and list and an empty error message |
| ContentView.EmbeddedSettingsView.ValidateAndSaveWebhook | ContentView.swift:225-236 | valid and new: appended at the end, saved, field and error cleared; valid but known: nothing changes; invalid: only the error message changes; a well-formed list stays well-formed |
| ContentView.EmbeddedSettingsView.RemoveWebhook | ContentView.swift:243-246 | the entries at the offsets are removed, the order of the rest is kept, the list is saved, and nothing else changes |

## Left out

- View bodies, layout, `CustomTextField`, the previews and CreditsView.swift: presentation only. Colours are kept as tags.
- `hideMessageAfterDelay` (SettingsView.swift:73-77): a timer that clears the message one second later.
- `checkNetworkConnectivity` (WebhookManager.swift:36-44): it uses the platform's path monitor on a dispatch queue. Nothing in the shown code calls it.
- `URL(string:)`, `URLSession`, `dataTask` and `JSONSerialization` are platform calls. URL parsing is the abstract `isUrl` parameter. The response is the abstract `TaskResult`. The JSON body is modelled as the object it serializes, a map with the single key "content", and not as bytes.
- The concurrency of data-task handlers. `URLSession.shared` runs them on its own queue, so in the source a handler can overwrite the status while the send loops are still running. Here they run one at a time through `RequestCompleted`, in any order but only between user actions. So `SendTextToWebhooks`' promise about the status at the end of the loops holds in the model's sequencing only. The status line is decided by the last write, a handler's outcome or a later send's "error: invalid URL"; the model does not capture a handler landing in the middle of a send.
- The `print` calls, which only log.
- The bindings between the settings sheets and `ContentView`. The sheets' `webhookURL` and `savedWebhooks` are their own fields here, so the aliasing of `@Binding` is not captured.
- SettingsView.SettingsView.RemoveWebhook: `remove(atOffsets:)` traps on an offset outside the list. The model makes in-range offsets a precondition instead of modelling the trap. The same holds for ContentView.EmbeddedSettingsView.RemoveWebhook.
- WebhookList.Added: Swift's `String ==` (behind `contains` and `Set` membership) compares by Unicode canonical equivalence, while the model compares sequences of `char`. Canonically equal URLs that differ only in the wildcard position, such as `https://discord\u{00C5}com/api/webhooks/1/a` and `https://discord\u{212B}com/api/webhooks/1/a`, are therefore distinct here. `SettingsView.SettingsView.ValidateAndSaveWebhook` and `ContentView.EmbeddedSettingsView.ValidateAndSaveWebhook` append the second one with the green message where the app reports it as a duplicate in orange, and `ContentView.Toggled` does not deselect one when its twin is tapped.
- WebhookPattern.ValidIffMatchesPattern: `\d` is modelled as the ASCII digits, while ICU's `\d` also accepts other Unicode decimal digits. Strings are sequences of `char`, not Swift grapheme clusters or NSString UTF-16 units.
- ContentView.ContentView.SendTextToWebhooks: the outer loop over the repetitions is its own method, `SendRounds`, and the inner loop over the selection is another, `SendRound`. The source writes both loops in one function.
- `isSubmitted` and `feedbackMessage` are never displayed in the shown code. They are modelled only as the fields the source assigns.
