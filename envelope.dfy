/**
 * The JSON-RPC 2.0 envelope: request ids, requests, notifications, batches,
 * responses and error objects, with the error codes the server uses.
 * The `jsonrpc` member has the single value `"2.0"`, so it is checked on
 * input and written on output rather than stored.
 */
module Envelope {
  import opened Wrappers
  import opened Text
  import opened Json
  import Initialisation
  import opened Diagnostics
  import opened Methods

  // ----- Request ids -----

  /** A request id: a string, a `u32`, or `null`. */
  datatype RequestId = String(s: string) | Number(n: u32) | Null

  /** The untagged decoding: a JSON string, an integer in `u32` range, or `null`. */
  function DecodeRequestId(j: Json): (r: Option<RequestId>)
    ensures r.Some? <==> j.JString? || (j.JNumber? && 0 <= j.n < 0x1_0000_0000) || j.JNull?
    ensures j.JString? ==> r == Some(String(j.s))
    ensures j.JNull? ==> r == Some(Null)
  {
    match j
    case JString(s) => Some(String(s))
    case JNumber(n) => if 0 <= n < 0x1_0000_0000 then Some(Number(n as u32)) else None
    case JNull => Some(Null)
    case _ => None
  }

  function RequestIdToJson(id: RequestId): (j: Json)
    ensures DecodeRequestId(j) == Some(id)
  {
    match id
    case String(s) => JString(s)
    case Number(n) => JNumber(n)
    case Null => JNull
  }

  // ----- Error codes -----

  datatype ErrorCode = ParseError | InvalidRequest | Internal | ServerNotInitialised | ServerAlreadyInitialised

  /** The number an error code is sent as. */
  function Code(c: ErrorCode): (v: i32)
    ensures CodeMeaning(v) == Some(c)
  {
    match c
    case ParseError => -32700
    case InvalidRequest => -32600
    case Internal => -32603
    case ServerNotInitialised => -32002
    case ServerAlreadyInitialised => -32003
  }

  /** The error code a number stands for, if any. */
  function CodeMeaning(v: int): (c: Option<ErrorCode>)
    ensures c.Some? <==> v in {-32700, -32600, -32603, -32002, -32003}
  {
    if v == -32700 then Some(ParseError)
    else if v == -32600 then Some(InvalidRequest)
    else if v == -32603 then Some(Internal)
    else if v == -32002 then Some(ServerNotInitialised)
    else if v == -32003 then Some(ServerAlreadyInitialised)
    else None
  }

  /** Different error codes are sent as different numbers. */
  lemma CodesDistinct(a: ErrorCode, b: ErrorCode)
    ensures Code(a) == Code(b) <==> a == b
  {
    assert CodeMeaning(Code(a)) == Some(a) && CodeMeaning(Code(b)) == Some(b);
  }

  /** The error object of an error response. */
  datatype ErrorObject = ErrorObject(code: i32, message: string, data: Option<Json>)

  /** The error object for `code` with no data, as the handler and reader build them. */
  function NewError(code: ErrorCode, message: string): (e: ErrorObject)
    ensures CodeMeaning(e.code) == Some(code) && e.message == message && e.data.None?
  {
    ErrorObject(Code(code), message, None)
  }

  // ----- Responses -----

  datatype ResponseResult =
    | InitialiseResult(init: Initialisation.InitialiseResult)
    | NullResult
    | PullDiagnosticsResult(report: Report)
    | ValueResult(value: Json)

  datatype Response =
    | SuccessResponse(result: ResponseResult, id: RequestId)
    | ErrorResponse(error: ErrorObject, id: RequestId)
    | Batch(responses: seq<Response>)

  function ResultToJson(r: ResponseResult): Json {
    match r
    case InitialiseResult(init) => Initialisation.ResultToJson(init)
    case NullResult => JNull
    case PullDiagnosticsResult(report) => ReportToJson(report)
    case ValueResult(v) => v
  }

  /** An error object; absent data is written as `null`. */
  function ErrorToJson(e: ErrorObject): (j: Json)
    ensures Get(j, "code") == Some(JNumber(e.code))
    ensures Get(j, "message") == Some(JString(e.message))
    ensures Get(j, "data") == Some(if e.data.Some? then e.data.value else JNull)
  {
    JObject(map["code" := JNumber(e.code), "message" := JString(e.message), "data" := OrNull(e.data, AnyJson)])
  }

  /**
   * The untagged serialisation: a success carries `result`, an error
   * carries `error`, both carry `"jsonrpc": "2.0"` and the id, and a batch
   * is the array of its responses in order.
   */
  function ResponseToJson(r: Response): (j: Json)
    ensures !r.Batch? ==> Get(j, "jsonrpc") == Some(JString("2.0"))
    ensures !r.Batch? ==> Get(j, "id").Some? && DecodeRequestId(Get(j, "id").value) == Some(r.id)
    ensures r.SuccessResponse? ==> Get(j, "result") == Some(ResultToJson(r.result)) && Get(j, "error").None?
    ensures r.ErrorResponse? ==> Get(j, "error") == Some(ErrorToJson(r.error)) && Get(j, "result").None?
    ensures r.Batch? ==> j.JArray? && |j.items| == |r.responses|
    ensures r.Batch? ==> forall i | 0 <= i < |r.responses| :: j.items[i] == ResponseToJson(r.responses[i])
  {
    match r
    case SuccessResponse(result, id) =>
      JObject(map["jsonrpc" := JString("2.0"), "result" := ResultToJson(result), "id" := RequestIdToJson(id)])
    case ErrorResponse(error, id) =>
      JObject(map["jsonrpc" := JString("2.0"), "error" := ErrorToJson(error), "id" := RequestIdToJson(id)])
    case Batch(rs) =>
      JArray(seq(|rs|, i requires 0 <= i < |rs| => ResponseToJson(rs[i])))
  }

  // ----- Messages -----

  datatype Request = Request(requestMethod: RequestMethod, id: RequestId)

  datatype Notification = Notification(notificationMethod: NotificationMethod)

  datatype Message =
    | RequestMessage(request: Request)
    | BatchRequest(requests: seq<Request>)
    | NotificationMessage(notification: Notification)
    | ResponseMessage(response: Response)

  /** `jsonrpc` is present and is the string `"2.0"`. */
  predicate HasVersion(j: Json) {
    Get(j, "jsonrpc") == Some(JString("2.0"))
  }

  /** A request: the version, a decodable `id`, and a request method. */
  function DecodeRequest(j: Json): (r: Option<Request>)
    ensures r.Some? <==> HasVersion(j) && Required(j, "id", DecodeRequestId).Some? && DecodeRequestMethod(j).Some?
    ensures r.Some? ==> r.value.id == Required(j, "id", DecodeRequestId).value
  {
    if HasVersion(j) then
      match (Required(j, "id", DecodeRequestId), DecodeRequestMethod(j))
      case (Some(id), Some(m)) => Some(Request(m, id))
      case _ => None
    else None
  }

  /** A notification: the version and a notification method; `id` is not looked at. */
  function DecodeNotification(j: Json): (r: Option<Notification>)
    ensures r.Some? <==> HasVersion(j) && DecodeNotificationMethod(j).Some?
  {
    if HasVersion(j) then
      match DecodeNotificationMethod(j)
      case Some(m) => Some(Notification(m))
      case None => None
    else None
  }

  /**
   * The untagged `Message`: the first of request, array of requests and
   * notification that fits. Responses are never read from the client.
   */
  function DecodeMessage(j: Json): (r: Option<Message>)
    ensures r.Some? ==> !r.value.ResponseMessage?
    ensures r.Some? && !r.value.BatchRequest? ==> HasVersion(j)
    ensures r.Some? && r.value.RequestMessage? ==> Get(j, "id").Some?
    ensures j.JObject? && "id" !in j.members ==> r.None? || r.value.NotificationMessage?
    ensures r.Some? && r.value.BatchRequest? ==>
      j.JArray? && |r.value.requests| == |j.items|
      && forall i | 0 <= i < |j.items| :: DecodeRequest(j.items[i]) == Some(r.value.requests[i])
    ensures DecodeRequest(j).Some? ==> r == Some(RequestMessage(DecodeRequest(j).value))
    ensures j.JArray? && DecodeAll(j.items, DecodeRequest).Some? ==>
      r == Some(BatchRequest(DecodeAll(j.items, DecodeRequest).value))
    ensures DecodeRequest(j).None? && !j.JArray? && DecodeNotification(j).Some? ==>
      r == Some(NotificationMessage(DecodeNotification(j).value))
    ensures (&& DecodeRequest(j).None?
             && (!j.JArray? || DecodeAll(j.items, DecodeRequest).None?)
             && DecodeNotification(j).None?) ==> r.None?
  {
    match DecodeRequest(j)
    case Some(q) => Some(RequestMessage(q))
    case None =>
      var batch := if j.JArray? then DecodeAll(j.items, DecodeRequest) else None;
      if batch.Some? then Some(BatchRequest(batch.value))
      else
        match DecodeNotification(j)
        case Some(n) => Some(NotificationMessage(n))
        case None => None
  }

  /** The empty object is not a message. */
  lemma EmptyObjectIsNoMessage()
    ensures DecodeMessage(JObject(map[])) == None
  {
  }

  // ----- Messages as a client writes them -----

  /** The one payload that cannot be written so that it reads back: `null` options. */
  predicate Writable(q: Request) {
    q.requestMethod.Initialise? ==> q.requestMethod.initParams.initialisationOptions != Some(JNull)
  }

  function RequestToJson(q: Request): Json
    requires Writable(q)
  {
    JObject(map["jsonrpc" := JString("2.0"), "id" := RequestIdToJson(q.id)] + RequestMethodMembers(q.requestMethod))
  }

  function NotificationToJson(n: Notification): Json
    requires !n.notificationMethod.PublishDiagnostics?
  {
    JObject(map["jsonrpc" := JString("2.0")] + NotificationMethodMembers(n.notificationMethod))
  }

  lemma {:induction false} RequestRoundTrip(q: Request)
    requires Writable(q)
    ensures DecodeRequest(RequestToJson(q)) == Some(q)
  {
    var extra := map["jsonrpc" := JString("2.0"), "id" := RequestIdToJson(q.id)];
    RequestMethodRoundTrip(q.requestMethod, extra);
    assert Get(RequestToJson(q), "id") == Some(RequestIdToJson(q.id));
  }

  /** A written request reads back as that request. */
  lemma {:induction false} RequestMessageRoundTrip(q: Request)
    requires Writable(q)
    ensures DecodeMessage(RequestToJson(q)) == Some(RequestMessage(q))
  {
    RequestRoundTrip(q);
  }

  /** A written notification has no `id`, so it reads back as that notification. */
  lemma {:induction false} NotificationMessageRoundTrip(n: Notification)
    requires !n.notificationMethod.PublishDiagnostics?
    ensures DecodeMessage(NotificationToJson(n)) == Some(NotificationMessage(n))
  {
    var extra := map["jsonrpc" := JString("2.0")];
    NotificationMethodRoundTrip(n.notificationMethod, extra);
    assert "id" !in NotificationToJson(n).members;
  }

  /** An array of written requests reads back as a batch of them, in order. */
  lemma {:induction false} BatchRoundTrip(qs: seq<Request>)
    requires forall i | 0 <= i < |qs| :: Writable(qs[i])
    ensures DecodeMessage(JArray(seq(|qs|, i requires 0 <= i < |qs| => RequestToJson(qs[i]))))
         == Some(BatchRequest(qs))
  {
    var items := seq(|qs|, i requires 0 <= i < |qs| => RequestToJson(qs[i]));
    forall i | 0 <= i < |qs| ensures DecodeRequest(items[i]) == Some(qs[i]) {
      RequestRoundTrip(qs[i]);
    }
    var batch := DecodeAll(items, DecodeRequest);
    assert batch.value == qs;
  }
}
