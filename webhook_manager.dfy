/**
 * `WebhookManager.sendToWebhook`: build one POST request for a webhook and,
 * once the data task finishes, report through the two callbacks it is given.
 * The network is abstract: whether `URL(string:)` accepts the webhook string is
 * a parameter, and so is what the data task hands its completion handler.
 * The result is the request issued (if any) and the callbacks made, in order.
 */
module WebhookManager {
  import opened Common
  import Decimal

  /** The `URLResponse` a data task delivers: an `HTTPURLResponse` or some other kind. */
  datatype UrlResponse = HttpResponse(statusCode: int) | OtherResponse

  /**
   * What the completion handler of a data task receives (the data is never
   * read): an error, given by its `localizedDescription`, and a response.
   */
  datatype TaskResult = TaskResult(error: Option<string>, response: Option<UrlResponse>)

  /** The `URLRequest`: target, method, header fields and the JSON object in the body. */
  datatype Request = Request(url: string, httpMethod: string, headers: map<string, string>, body: map<string, string>)

  /** One call of a callback: `updateStatus(text, color)` or `completion(success)`. */
  datatype Callback = UpdateStatus(text: string, color: Color) | Completion(success: bool)

  /** Everything one `sendToWebhook` call does that is observable. */
  datatype Dispatch = Dispatch(request: Option<Request>, callbacks: seq<Callback>)

  const INVALID_URL_STATUS: string := "error: invalid URL"

  /** A POST with a JSON content type whose body is the object {"content": message}. */
  function MakeRequest(url: string, message: string): Request
  {
    Request(url, "POST", map["Content-Type" := "application/json"], map["content" := message])
  }

  /** `(200...299).contains(code)`. */
  predicate IsSuccessCode(code: int) { 200 <= code <= 299 }

  /**
   * Reference definition of a delivered message: no transport error, and no
   * HTTP response whose status code is outside 200...299. A missing response
   * or a response of another kind counts as delivered.
   */
  predicate Delivered(t: TaskResult)
  {
    t.error.None? &&
    !(t.response.Some? && t.response.value.HttpResponse? && !IsSuccessCode(t.response.value.statusCode))
  }

  /**
   * The completion handler's branches: an error gives "error: <description>",
   * an HTTP response outside 200...299 gives "error: server <code>", anything
   * else is success (None).
   */
  function FailureStatus(t: TaskResult): Option<string>
  {
    match t.error
    case Some(description) => Some("error: " + description)
    case None =>
      match t.response
      case Some(HttpResponse(code)) =>
        if IsSuccessCode(code) then None else Some("error: server " + Decimal.IntToString(code))
      case _ => None
  }

  /** `sendToWebhook(webhook:message:updateStatus:completion:)`. */
  function SendToWebhook(webhook: string, message: string, urlParses: bool, result: TaskResult): (d: Dispatch)
    ensures d.request.Some? <==> urlParses
    ensures |d.callbacks| >= 1 && d.callbacks[|d.callbacks| - 1] == Completion(urlParses && Delivered(result))
  {
    if !urlParses then
      Dispatch(None, [UpdateStatus(INVALID_URL_STATUS, Red), Completion(false)])
    else
      var request := MakeRequest(webhook, message);
      match FailureStatus(result)
      case Some(text) => Dispatch(Some(request), [UpdateStatus(text, Red), Completion(false)])
      case None => Dispatch(Some(request), [Completion(true)])
  }

  /** How many `completion` calls a callback sequence holds. */
  function CompletionCount(callbacks: seq<Callback>): nat
  {
    if callbacks == [] then 0
    else CompletionCount(callbacks[..|callbacks| - 1]) + (if callbacks[|callbacks| - 1].Completion? then 1 else 0)
  }

  /** The handler reports failure exactly when the reference says the message was not delivered. */
  lemma FailureStatusIffNotDelivered(t: TaskResult)
    ensures FailureStatus(t).None? <==> Delivered(t)
    ensures FailureStatus(t).Some? ==> |FailureStatus(t).value| >= 7 && FailureStatus(t).value[..7] == "error: "
  {
  }

  /** A transport error is reported with its description, whatever response came with it. */
  lemma TransportErrorReported(webhook: string, message: string, description: string, response: Option<UrlResponse>)
    ensures SendToWebhook(webhook, message, true, TaskResult(Some(description), response)).callbacks
         == [UpdateStatus("error: " + description, Red), Completion(false)]
  {
  }

  /** An HTTP status outside 200...299 is reported with its decimal code. */
  lemma ServerErrorReported(webhook: string, message: string, code: int)
    requires !IsSuccessCode(code)
    ensures SendToWebhook(webhook, message, true, TaskResult(None, Some(HttpResponse(code)))).callbacks
         == [UpdateStatus("error: server " + Decimal.IntToString(code), Red), Completion(false)]
  {
  }

  /** A string `URL(string:)` rejects gives the invalid-URL status, a failed completion and no request. */
  lemma InvalidUrlIssuesNothing(webhook: string, message: string, result: TaskResult)
    ensures SendToWebhook(webhook, message, false, result)
         == Dispatch(None, [UpdateStatus(INVALID_URL_STATUS, Red), Completion(false)])
  {
  }

  /**
   * A request is issued exactly when the URL parses; it is a POST to the
   * webhook with a JSON content type and a body holding the single key
   * "content" bound to the message.
   */
  lemma RequestShape(webhook: string, message: string, urlParses: bool, result: TaskResult)
    ensures var d := SendToWebhook(webhook, message, urlParses, result);
      (d.request.Some? <==> urlParses) &&
      (d.request.Some? ==>
        d.request.value.url == webhook && d.request.value.httpMethod == "POST" &&
        d.request.value.headers == map["Content-Type" := "application/json"] &&
        d.request.value.body.Keys == {"content"} && d.request.value.body["content"] == message)
  {
  }

  /** Every path calls `completion` exactly once, and as the last callback. */
  lemma CompletesExactlyOnce(webhook: string, message: string, urlParses: bool, result: TaskResult)
    ensures var cbs := SendToWebhook(webhook, message, urlParses, result).callbacks;
      |cbs| >= 1 && cbs[|cbs| - 1].Completion? && CompletionCount(cbs) == 1
  {
    var cbs := SendToWebhook(webhook, message, urlParses, result).callbacks;
    if |cbs| == 2 {
      assert cbs[..1][..0] == [];
      assert CompletionCount(cbs[..1]) == 0;
    } else {
      assert cbs[..0] == [];
    }
  }

  /**
   * `completion(true)` is called exactly when the URL parses and the message
   * was delivered; `updateStatus` is called, in red, exactly on failure.
   */
  lemma SucceedsIffDelivered(webhook: string, message: string, urlParses: bool, result: TaskResult)
    ensures var cbs := SendToWebhook(webhook, message, urlParses, result).callbacks;
      |cbs| >= 1 &&
      (cbs[|cbs| - 1] == Completion(true) <==> urlParses && Delivered(result)) &&
      (cbs[|cbs| - 1] == Completion(true) ==> cbs == [Completion(true)]) &&
      (cbs[|cbs| - 1] == Completion(false) ==> |cbs| == 2 && cbs[0].UpdateStatus? && cbs[0].color == Red)
  {
  }
}
