/**
 * The main screen of ContentView.swift: tapping a listed webhook selects or
 * deselects it, and Send posts the text to every selected webhook as many
 * times as the repeat-count field says. Each post is a data task whose
 * completion handler overwrites the status line. The file also declares an
 * older settings sheet, modelled here as `EmbeddedSettingsView`.
 *
 * `URL(string:)` is the abstract `isUrl`; the order in which a Swift `Set`
 * is iterated is the abstract `order`, an enumeration of the selection.
 */
module ContentView {
  import opened Common
  import Decimal
  import WebhookPattern
  import WebhookList
  import WebhookManager
  import SettingsView

  const INVALID_COUNT_TEXT: string := "Please enter a valid number of times to send."
  const SENDING_STATUS: string := "sending..."
  const SENT_STATUS: string := "sent"

  /** One invocation of the private `sendToWebhook(webhook:message:)`. */
  datatype Call = Call(webhook: string, message: string)

  /** The selection after tapping `webhook`: removed if it was selected, inserted otherwise. */
  function Toggled(selected: set<string>, webhook: string): (r: set<string>)
    ensures webhook in r <==> webhook !in selected
    ensures forall w :: w != webhook ==> (w in r <==> w in selected)
  {
    if webhook in selected then selected - {webhook} else selected + {webhook}
  }

  /** Tapping the same link twice restores the selection. */
  lemma ToggleTwice(selected: set<string>, webhook: string)
    ensures Toggled(Toggled(selected, webhook), webhook) == selected
  {
  }

  /** The guard `Int(sendCount)` with `count > 0`: the repeat count, or None when the guard fails. */
  function RepeatCount(sendCount: string): (r: Option<nat>)
    ensures r.Some? ==> 0 < r.value <= Decimal.INT_MAX
    ensures r.Some? <==> Decimal.ParseInt(sendCount).Some? && Decimal.ParseInt(sendCount).value > 0
    ensures r.Some? ==> r.value == Decimal.ParseInt(sendCount).value
  {
    match Decimal.ParseInt(sendCount)
    case Some(n) => if n > 0 then Some(n) else None
    case None => None
  }

  /** The numeral of every count from 1 up to `Int.max` passes the guard with its own value. */
  lemma RepeatCountOfNumeral(n: nat)
    requires 0 < n <= Decimal.INT_MAX
    ensures RepeatCount(Decimal.NatToString(n)) == Some(n)
  {
    Decimal.ParseIntRoundTrip(n);
  }

  /** `order` lists the members of `selected`, each once. */
  predicate Enumerates(order: seq<string>, selected: set<string>)
  {
    (forall i, j :: 0 <= i < j < |order| ==> order[i] != order[j]) &&
    (forall w :: w in selected ==> w in order) &&
    (forall k :: 0 <= k < |order| ==> order[k] in selected)
  }

  /** The calls of one pass of the inner loop over `order`. */
  function Round(order: seq<string>, message: string): (r: seq<Call>)
    ensures |r| == |order|
  {
    if order == [] then []
    else Round(order[..|order| - 1], message) + [Call(order[|order| - 1], message)]
  }

  /** The calls of the nested loops: `count` rounds over `order`, all carrying `message`. */
  function FanOut(count: nat, order: seq<string>, message: string): seq<Call>
  {
    if count == 0 then [] else FanOut(count - 1, order, message) + Round(order, message)
  }

  /** The data-task requests issued for `calls`: one per call whose webhook parses as a URL. */
  function Issued(calls: seq<Call>, isUrl: string -> bool): seq<WebhookManager.Request>
  {
    if calls == [] then []
    else
      var last := calls[|calls| - 1];
      Issued(calls[..|calls| - 1], isUrl) +
      (if isUrl(last.webhook) then [WebhookManager.MakeRequest(last.webhook, last.message)] else [])
  }

  /** The requests one pass of the inner loop issues: one per webhook of `order` that parses. */
  function RoundRequests(order: seq<string>, message: string, isUrl: string -> bool): seq<WebhookManager.Request>
  {
    if order == [] then []
    else
      var last := order[|order| - 1];
      RoundRequests(order[..|order| - 1], message, isUrl) +
      (if isUrl(last) then [WebhookManager.MakeRequest(last, message)] else [])
  }

  /** The requests the nested loops issue: `count` passes over `order`. */
  function FanOutRequests(count: nat, order: seq<string>, message: string, isUrl: string -> bool): seq<WebhookManager.Request>
  {
    if count == 0 then [] else FanOutRequests(count - 1, order, message, isUrl) + RoundRequests(order, message, isUrl)
  }

  /** Some webhook among the first `j` of `order` fails to parse as a URL. */
  predicate HasUnparsable(order: seq<string>, j: nat, isUrl: string -> bool)
  {
    exists k :: 0 <= k < j && k < |order| && !isUrl(order[k])
  }

  /** The status line a completed data task leaves behind. */
  function StatusAfter(t: WebhookManager.TaskResult): (r: (string, Color))
    ensures r.1 == Green || r.1 == Red
    ensures r.1 == Green <==> WebhookManager.Delivered(t)
  {
    match WebhookManager.FailureStatus(t)
    case Some(text) => (text, Red)
    case None => (SENT_STATUS, Green)
  }

  lemma {:induction false} RoundLength(order: seq<string>, message: string)
    ensures |Round(order, message)| == |order|
    ensures forall k :: 0 <= k < |order| ==> Round(order, message)[k] == Call(order[k], message)
  {
    if order != [] {
      RoundLength(order[..|order| - 1], message);
    }
  }

  /** In one round over a list without repeats, each listed webhook is called once. */
  lemma {:induction false} RoundEach(order: seq<string>, message: string, webhook: string)
    requires forall i, j :: 0 <= i < j < |order| ==> order[i] != order[j]
    ensures multiset(Round(order, message))[Call(webhook, message)] == if webhook in order then 1 else 0
  {
    if order != [] {
      var prefix := order[..|order| - 1];
      var last := order[|order| - 1];
      RoundEach(prefix, message, webhook);
      assert order == prefix + [last];
      assert Round(order, message) == Round(prefix, message) + [Call(last, message)];
      assert multiset(Round(order, message)) == multiset(Round(prefix, message)) + multiset{Call(last, message)};
      if webhook == last {
        assert webhook !in prefix by {
          forall i | 0 <= i < |prefix| ensures prefix[i] != webhook {
            assert prefix[i] == order[i];
          }
        }
      } else {
        assert webhook in order <==> webhook in prefix;
      }
    }
  }

  /** An enumeration of the selection is exactly as long as the selection is large. */
  lemma {:induction false} EnumeratesSize(order: seq<string>, selected: set<string>)
    requires Enumerates(order, selected)
    ensures |order| == |selected|
  {
    if order != [] {
      var last := order[|order| - 1];
      var prefix := order[..|order| - 1];
      forall w | w in selected - {last} ensures w in prefix {
        var k :| 0 <= k < |order| && order[k] == w;
        assert k != |order| - 1;
        assert prefix[k] == w;
      }
      forall k | 0 <= k < |prefix| ensures prefix[k] in selected - {last} {
        assert order[k] != order[|order| - 1];
      }
      EnumeratesSize(prefix, selected - {last});
    } else {
      assert forall w :: w in selected ==> w in order;
      assert selected == {};
    }
  }

  /** The nested loops make `count` times as many calls as there are selected webhooks. */
  lemma {:induction false} FanOutLength(count: nat, order: seq<string>, selected: set<string>, message: string)
    requires Enumerates(order, selected)
    ensures |FanOut(count, order, message)| == count * |selected|
  {
    if count > 0 {
      FanOutLength(count - 1, order, selected, message);
      EnumeratesSize(order, selected);
    }
  }

  /** Every call goes to a webhook of `order` and carries `message`. */
  lemma {:induction false} FanOutCalls(count: nat, order: seq<string>, message: string)
    ensures forall c :: c in FanOut(count, order, message) ==> c.webhook in order && c.message == message
  {
    if count > 0 {
      FanOutCalls(count - 1, order, message);
      RoundLength(order, message);
    }
  }

  /** Each webhook of a list without repeats is called exactly `count` times, every other never. */
  lemma {:induction false} FanOutEach(count: nat, order: seq<string>, message: string, webhook: string)
    requires forall i, j :: 0 <= i < j < |order| ==> order[i] != order[j]
    ensures multiset(FanOut(count, order, message))[Call(webhook, message)] == if webhook in order then count else 0
  {
    if count > 0 {
      FanOutEach(count - 1, order, message, webhook);
      RoundEach(order, message, webhook);
    }
  }

  /** When every webhook parses, one request is issued per call, in call order. */
  lemma {:induction false} IssuedWhenAllParse(calls: seq<Call>, isUrl: string -> bool)
    requires forall k :: 0 <= k < |calls| ==> isUrl(calls[k].webhook)
    ensures |Issued(calls, isUrl)| == |calls|
    ensures forall k :: 0 <= k < |calls| ==>
      Issued(calls, isUrl)[k] == WebhookManager.MakeRequest(calls[k].webhook, calls[k].message)
  {
    if calls != [] {
      IssuedWhenAllParse(calls[..|calls| - 1], isUrl);
    }
  }

  lemma {:induction false} IssuedAppend(a: seq<Call>, b: seq<Call>, isUrl: string -> bool)
    ensures Issued(a + b, isUrl) == Issued(a, isUrl) + Issued(b, isUrl)
  {
    if b == [] {
      assert a + b == a;
    } else {
      var init := b[..|b| - 1];
      IssuedAppend(a, init, isUrl);
      assert (a + b)[..|a + b| - 1] == a + init;
    }
  }

  /** One pass of the inner loop issues the requests its calls call for. */
  lemma {:induction false} RoundRequestsAreIssued(order: seq<string>, message: string, isUrl: string -> bool)
    ensures RoundRequests(order, message, isUrl) == Issued(Round(order, message), isUrl)
  {
    if order != [] {
      RoundRequestsAreIssued(order[..|order| - 1], message, isUrl);
      IssuedStep(Round(order[..|order| - 1], message), Call(order[|order| - 1], message), isUrl);
    }
  }

  /** The nested loops issue exactly the requests their calls call for, in call order. */
  lemma {:induction false} FanOutRequestsAreIssued(count: nat, order: seq<string>, message: string, isUrl: string -> bool)
    ensures FanOutRequests(count, order, message, isUrl) == Issued(FanOut(count, order, message), isUrl)
  {
    if count > 0 {
      FanOutRequestsAreIssued(count - 1, order, message, isUrl);
      RoundRequestsAreIssued(order, message, isUrl);
      IssuedAppend(FanOut(count - 1, order, message), Round(order, message), isUrl);
    }
  }

  /**
   * When every selected webhook parses, the nested loops start exactly
   * `count` times as many data tasks as there are selected webhooks.
   */
  lemma FanOutRequestCount(count: nat, order: seq<string>, selected: set<string>, message: string, isUrl: string -> bool)
    requires Enumerates(order, selected)
    requires forall w :: w in selected ==> isUrl(w)
    ensures |FanOutRequests(count, order, message, isUrl)| == count * |selected|
  {
    var calls := FanOut(count, order, message);
    FanOutRequestsAreIssued(count, order, message, isUrl);
    FanOutCalls(count, order, message);
    FanOutLength(count, order, selected, message);
    forall k | 0 <= k < |calls| ensures isUrl(calls[k].webhook) {
      assert calls[k] in calls;
      var w := calls[k].webhook;
      var i :| 0 <= i < |order| && order[i] == w;
    }
    IssuedWhenAllParse(calls, isUrl);
  }

  /**
   * The status the data-task handler leaves is green exactly when the message
   * was delivered, red otherwise, and agrees with what WebhookManager reports.
   */
  lemma StatusAfterAgreesWithManager(webhook: string, message: string, t: WebhookManager.TaskResult)
    ensures StatusAfter(t).0 == SENT_STATUS <==> WebhookManager.Delivered(t)
    ensures !WebhookManager.Delivered(t) ==>
      WebhookManager.SendToWebhook(webhook, message, true, t).callbacks
        == [WebhookManager.UpdateStatus(StatusAfter(t).0, Red), WebhookManager.Completion(false)]
  {
  }

  /** The status the send loop leaves: red once an unparsable webhook was met, yellow otherwise. */
  function SendingStatus(metUnparsable: bool): (string, Color)
  {
    if metUnparsable then (WebhookManager.INVALID_URL_STATUS, Red) else (SENDING_STATUS, Yellow)
  }

  lemma IssuedStep(calls: seq<Call>, c: Call, isUrl: string -> bool)
    ensures Issued(calls + [c], isUrl)
         == Issued(calls, isUrl) + (if isUrl(c.webhook) then [WebhookManager.MakeRequest(c.webhook, c.message)] else [])
  {
  }

  lemma HasUnparsableStep(order: seq<string>, j: nat, isUrl: string -> bool)
    requires j < |order|
    ensures HasUnparsable(order, j + 1, isUrl) <==> HasUnparsable(order, j, isUrl) || !isUrl(order[j])
  {
  }

  /** Some selected webhook fails to parse as a URL. */
  predicate SelectionHasUnparsable(selected: set<string>, isUrl: string -> bool)
  {
    exists w :: w in selected && !isUrl(w)
  }

  /** Over an enumeration of the selection, an unparsable entry is an unparsable selected webhook. */
  lemma UnparsableInSelection(order: seq<string>, selected: set<string>, isUrl: string -> bool)
    requires Enumerates(order, selected)
    ensures HasUnparsable(order, |order|, isUrl) <==> SelectionHasUnparsable(selected, isUrl)
  {
  }

  class ContentView {
    var textInput: string
    var webhookURL: string
    var feedbackMessage: string
    var savedWebhooks: seq<string>
    var selectedWebhooks: set<string>
    var isSubmitted: bool
    var sendCount: string
    var status: string
    var statusColor: Color
    /** Data tasks resumed whose completion handler has not yet run. */
    var inFlight: seq<WebhookManager.Request>
    /** Every `sendToWebhook` call made so far, in order. */
    ghost var calls: seq<Call>

    /** Initial state; the two user defaults are read as given (nil when absent). */
    constructor (storedURL: Option<string>, storedWebhooks: Option<seq<string>>)
      ensures textInput == "" && feedbackMessage == "" && !isSubmitted
      ensures webhookURL == (if storedURL.Some? then storedURL.value else "")
      ensures savedWebhooks == (if storedWebhooks.Some? then storedWebhooks.value else [])
      ensures selectedWebhooks == {} && sendCount == "1"
      ensures status == "inactive" && statusColor == Red
      ensures inFlight == [] && calls == []
    {
      textInput := "";
      webhookURL := if storedURL.Some? then storedURL.value else "";
      feedbackMessage := "";
      savedWebhooks := if storedWebhooks.Some? then storedWebhooks.value else [];
      selectedWebhooks := {};
      isSubmitted := false;
      sendCount := "1";
      status := "inactive";
      statusColor := Red;
      inFlight := [];
      calls := [];
    }

    /** Tapping a link flips that webhook's membership in the selection and nothing else. */
    method TapLink(webhook: string)
      modifies this`selectedWebhooks
      ensures selectedWebhooks == Toggled(old(selectedWebhooks), webhook)
    {
      if webhook in selectedWebhooks {
        selectedWebhooks := selectedWebhooks - {webhook};
      } else {
        selectedWebhooks := selectedWebhooks + {webhook};
      }
    }

    /**
     * One post: a webhook string `URL(string:)` rejects turns the status into
     * a red "error: invalid URL" and issues nothing; any other starts a data task.
     */
    method SendToWebhook(webhook: string, message: string, isUrl: string -> bool)
      modifies this`status, this`statusColor, this`inFlight, this`calls
      ensures calls == old(calls) + [Call(webhook, message)]
      ensures isUrl(webhook) ==>
        inFlight == old(inFlight) + [WebhookManager.MakeRequest(webhook, message)] &&
        status == old(status) && statusColor == old(statusColor)
      ensures !isUrl(webhook) ==>
        inFlight == old(inFlight) && status == WebhookManager.INVALID_URL_STATUS && statusColor == Red
    {
      calls := calls + [Call(webhook, message)];
      if !isUrl(webhook) {
        status := WebhookManager.INVALID_URL_STATUS;
        statusColor := Red;
        return;
      }
      inFlight := inFlight + [WebhookManager.MakeRequest(webhook, message)];
    }

    /**
     * Send: when the repeat count fails the guard, only the feedback message
     * changes. Otherwise the status turns to a yellow "sending..." (empty text
     * and an empty selection included) and the nested loops call
     * `sendToWebhook` `count` times for every selected webhook with the text;
     * the status ends red exactly when some selected webhook does not parse.
     */
    method SendTextToWebhooks(order: seq<string>, isUrl: string -> bool)
      requires Enumerates(order, selectedWebhooks)
      modifies this`feedbackMessage, this`status, this`statusColor, this`inFlight, this`calls
      ensures RepeatCount(sendCount).None? ==>
        feedbackMessage == INVALID_COUNT_TEXT && status == old(status) && statusColor == old(statusColor) &&
        inFlight == old(inFlight) && calls == old(calls)
      ensures RepeatCount(sendCount).Some? ==>
        var n := RepeatCount(sendCount).value;
        feedbackMessage == old(feedbackMessage) &&
        calls == old(calls) + FanOut(n, order, textInput) &&
        inFlight == old(inFlight) + FanOutRequests(n, order, textInput, isUrl) &&
        (status, statusColor) == SendingStatus(SelectionHasUnparsable(selectedWebhooks, isUrl))
      ensures RepeatCount(sendCount).Some? ==>
        |calls| == |old(calls)| + RepeatCount(sendCount).value * |selectedWebhooks|
    {
      var count := RepeatCount(sendCount);
      if count.None? {
        feedbackMessage := INVALID_COUNT_TEXT;
        return;
      }
      var n := count.value;
      status := SENDING_STATUS;
      statusColor := Yellow;
      SendRounds(n, order, textInput, isUrl);
      UnparsableInSelection(order, selectedWebhooks, isUrl);
      FanOutLength(n, order, selectedWebhooks, textInput);
    }

    /**
     * The outer loop of `sendTextToWebhooks`: `count` passes of the inner loop
     * over `order`. The status turns red when some webhook of `order` does not
     * parse and `count` is positive, and is left alone otherwise.
     */
    method SendRounds(count: nat, order: seq<string>, message: string, isUrl: string -> bool)
      modifies this`status, this`statusColor, this`inFlight, this`calls
      ensures calls == old(calls) + FanOut(count, order, message)
      ensures inFlight == old(inFlight) + FanOutRequests(count, order, message, isUrl)
      ensures 0 < count && HasUnparsable(order, |order|, isUrl) ==>
        status == WebhookManager.INVALID_URL_STATUS && statusColor == Red
      ensures !(0 < count && HasUnparsable(order, |order|, isUrl)) ==>
        status == old(status) && statusColor == old(statusColor)
    {
      ghost var unparsable := HasUnparsable(order, |order|, isUrl);
      for i := 0 to count
        invariant calls == old(calls) + FanOut(i, order, message)
        invariant inFlight == old(inFlight) + FanOutRequests(i, order, message, isUrl)
        invariant 0 < i && unparsable ==> status == WebhookManager.INVALID_URL_STATUS && statusColor == Red
        invariant !(0 < i && unparsable) ==> status == old(status) && statusColor == old(statusColor)
      {
        SendRound(order, message, isUrl);
        assert FanOut(i + 1, order, message) == FanOut(i, order, message) + Round(order, message);
        assert FanOutRequests(i + 1, order, message, isUrl)
            == FanOutRequests(i, order, message, isUrl) + RoundRequests(order, message, isUrl);
      }
    }

    /**
     * The inner loop of `sendTextToWebhooks`: one `sendToWebhook` call per
     * webhook of `order`, in that order. The status turns red when some
     * webhook of `order` does not parse and is left alone otherwise.
     */
    method SendRound(order: seq<string>, message: string, isUrl: string -> bool)
      modifies this`status, this`statusColor, this`inFlight, this`calls
      ensures calls == old(calls) + Round(order, message)
      ensures inFlight == old(inFlight) + RoundRequests(order, message, isUrl)
      ensures HasUnparsable(order, |order|, isUrl) ==>
        status == WebhookManager.INVALID_URL_STATUS && statusColor == Red
      ensures !HasUnparsable(order, |order|, isUrl) ==>
        status == old(status) && statusColor == old(statusColor)
    {
      assert order[..0] == [];
      for j := 0 to |order|
        invariant calls == old(calls) + Round(order[..j], message)
        invariant inFlight == old(inFlight) + RoundRequests(order[..j], message, isUrl)
        invariant HasUnparsable(order, j, isUrl) ==>
          status == WebhookManager.INVALID_URL_STATUS && statusColor == Red
        invariant !HasUnparsable(order, j, isUrl) ==>
          status == old(status) && statusColor == old(statusColor)
      {
        assert order[..j + 1][..j] == order[..j];
        HasUnparsableStep(order, j, isUrl);
        SendToWebhook(order[j], message, isUrl);
      }
      assert order[..|order|] == order;
    }

    /** The Send button: runs the send and marks the form submitted. */
    method TapSend(order: seq<string>, isUrl: string -> bool)
      requires Enumerates(order, selectedWebhooks)
      modifies this`feedbackMessage, this`status, this`statusColor, this`inFlight, this`calls, this`isSubmitted
      ensures isSubmitted
      ensures RepeatCount(sendCount).None? ==>
        feedbackMessage == INVALID_COUNT_TEXT && status == old(status) && statusColor == old(statusColor) &&
        inFlight == old(inFlight) && calls == old(calls)
      ensures RepeatCount(sendCount).Some? ==>
        var n := RepeatCount(sendCount).value;
        feedbackMessage == old(feedbackMessage) &&
        calls == old(calls) + FanOut(n, order, textInput) &&
        inFlight == old(inFlight) + FanOutRequests(n, order, textInput, isUrl) &&
        (status, statusColor) == SendingStatus(SelectionHasUnparsable(selectedWebhooks, isUrl))
    {
      SendTextToWebhooks(order, isUrl);
      isSubmitted := true;
    }

    /**
     * The completion handler of the `k`-th pending data task runs: that task
     * leaves the pending list and its outcome overwrites the status line.
     * Handlers run in any order; the last one to run decides the status.
     */
    method RequestCompleted(k: nat, result: WebhookManager.TaskResult)
      requires k < |inFlight|
      modifies this`inFlight, this`status, this`statusColor
      ensures inFlight == old(inFlight[..k] + inFlight[k + 1..])
      ensures (status, statusColor) == StatusAfter(result)
      ensures statusColor == Green <==> WebhookManager.Delivered(result)
    {
      inFlight := inFlight[..k] + inFlight[k + 1..];
      var (text, color) := StatusAfter(result);
      status := text;
      statusColor := color;
    }
  }

  /**
   * The older settings sheet declared inside ContentView.swift. It differs from
   * SettingsView.swift only in its feedback: one red `errorMessage`, cleared on
   * a successful add and left alone when the URL is already saved.
   */
  class EmbeddedSettingsView {
    var webhookURL: string
    var savedWebhooks: seq<string>
    var errorMessage: string
    /** The list as last written to the "savedWebhooks" user default. */
    var storedWebhooks: seq<string>

    constructor (webhookURL: string, savedWebhooks: seq<string>, storedWebhooks: seq<string>)
      ensures this.webhookURL == webhookURL && this.savedWebhooks == savedWebhooks
      ensures this.storedWebhooks == storedWebhooks && errorMessage == ""
    {
      this.webhookURL := webhookURL;
      this.savedWebhooks := savedWebhooks;
      this.storedWebhooks := storedWebhooks;
      errorMessage := "";
    }

    /**
     * A URL that passes the check and is new is appended, saved and cleared
     * from the field, and the error is cleared; a known one changes nothing;
     * one that fails the check changes only the error message.
     */
    method ValidateAndSaveWebhook()
      modifies this
      ensures savedWebhooks == WebhookList.Added(old(savedWebhooks), old(webhookURL))
      ensures WebhookList.WellFormed(old(savedWebhooks)) ==> WebhookList.WellFormed(savedWebhooks)
      ensures WebhookPattern.IsValidWebhookURL(old(webhookURL)) && old(webhookURL) !in old(savedWebhooks) ==>
        savedWebhooks == old(savedWebhooks) + [old(webhookURL)] && storedWebhooks == savedWebhooks &&
        webhookURL == "" && errorMessage == ""
      ensures WebhookPattern.IsValidWebhookURL(old(webhookURL)) && old(webhookURL) in old(savedWebhooks) ==>
        savedWebhooks == old(savedWebhooks) && storedWebhooks == old(storedWebhooks) &&
        webhookURL == old(webhookURL) && errorMessage == old(errorMessage)
      ensures !WebhookPattern.IsValidWebhookURL(old(webhookURL)) ==>
        savedWebhooks == old(savedWebhooks) && storedWebhooks == old(storedWebhooks) &&
        webhookURL == old(webhookURL) && errorMessage == SettingsView.INVALID_TEXT
    {
      if WebhookList.WellFormed(savedWebhooks) {
        WebhookList.AddedKeepsWellFormed(savedWebhooks, webhookURL);
      }
      if WebhookPattern.IsValidWebhookURL(webhookURL) {
        if webhookURL !in savedWebhooks {
          savedWebhooks := savedWebhooks + [webhookURL];
          storedWebhooks := savedWebhooks;
          webhookURL := "";
          errorMessage := "";
        }
      } else {
        errorMessage := SettingsView.INVALID_TEXT;
      }
    }

    /** Drops the entries at `offsets`, keeping the order of the rest, and saves the list. */
    method RemoveWebhook(offsets: set<int>)
      requires forall o :: o in offsets ==> 0 <= o < |savedWebhooks|
      modifies this
      ensures savedWebhooks == WebhookList.RemovedAt(old(savedWebhooks), offsets)
      ensures |savedWebhooks| == |old(savedWebhooks)| - |offsets|
      ensures WebhookList.WellFormed(old(savedWebhooks)) ==> WebhookList.WellFormed(savedWebhooks)
      ensures storedWebhooks == savedWebhooks
      ensures webhookURL == old(webhookURL) && errorMessage == old(errorMessage)
    {
      WebhookList.RemovedAtLength(savedWebhooks, offsets);
      if WebhookList.WellFormed(savedWebhooks) {
        WebhookList.RemovedAtKeepsWellFormed(savedWebhooks, offsets);
      }
      savedWebhooks := WebhookList.RemovedAt(savedWebhooks, offsets);
      storedWebhooks := savedWebhooks;
    }
  }
}
