/**
 * The message handler: the server's lifecycle state (uninitialised,
 * initialised with the client's parameters, shut down) and the reply to
 * each inbound message in each state.
 *
 * The reply to a request, a batch and a notification is specified by the
 * pure functions `RequestStep`, `BatchStep` and `NotificationReaction`; the
 * `MessageHandler` class updates its `state` field in place and its methods
 * are proved to agree with those functions. The linter is a function from a
 * document URI to its diagnostics or an error.
 */
module Handler {
  import opened Wrappers
  import opened Text
  import opened Json
  import Initialisation
  import opened Diagnostics
  import opened Methods
  import opened Envelope
  import opened Lint

  /** The lifecycle state of the server. */
  datatype State =
    | Uninitialised
    | Initialised(params: Initialisation.Params)
    | Shutdown

  /**
   * The lifecycle only moves forward: from `s` the server can reach `s'`
   * when nothing changed, when it started uninitialised, or when it ends
   * shut down. In particular the initialisation parameters, once set, are
   * never replaced.
   */
  predicate Reaches(s: State, s': State) {
    s' == s || s.Uninitialised? || s'.Shutdown?
  }

  /** Linting a document: its diagnostics, or why none could be produced. */
  type Linter = string -> Result<seq<Diagnostic>, LintError>

  /**
   * What handling one message leads to: a message to send back, nothing, or
   * the end of the process with an exit status.
   */
  datatype Reaction =
    | Send(message: Message)
    | Quiet
    | Terminate(status: int)

  // ----- Error replies -----

  /** `r` is an error response with the given code and message and no data. */
  predicate IsError(r: Response, code: ErrorCode, message: string) {
    r.ErrorResponse? && CodeMeaning(r.error.code) == Some(code) && r.error.message == message
    && r.error.data.None?
  }

  /** The reply to any request other than `initialize` before initialisation. */
  function UninitialisedRequest(id: RequestId): (r: Response)
    ensures IsError(r, ServerNotInitialised, "Server not initialised") && r.id == id
  {
    ErrorResponse(NewError(ServerNotInitialised, "Server not initialised"), id)
  }

  /** The reply to a second `initialize`. */
  function AlreadyInitialised(id: RequestId): (r: Response)
    ensures IsError(r, ServerAlreadyInitialised, "Server already initialised") && r.id == id
  {
    ErrorResponse(NewError(ServerAlreadyInitialised, "Server already initialised"), id)
  }

  /** The reply to any request after `shutdown`. */
  function RequestPostShutdown(id: RequestId): (r: Response)
    ensures IsError(r, InvalidRequest, "Server has been shutdown") && r.id == id
  {
    ErrorResponse(NewError(InvalidRequest, "Server has been shutdown"), id)
  }

  // ----- Diagnostics -----

  /**
   * The reply to `textDocument/diagnostic`: a full report with result id
   * `"result"` holding the linter's diagnostics, or an internal error when
   * linting fails.
   */
  function DiagnosticsReply(linter: Linter, id: RequestId, params: PullParams): (r: Response)
    ensures !r.Batch? && r.id == id
    ensures r.SuccessResponse? <==> linter(params.uri).Ok?
    ensures r.SuccessResponse? ==>
      r.result.PullDiagnosticsResult? && WellKinded(r.result.report) && r.result.report.FullReport?
      && r.result.report.resultId == "result" && r.result.report.items == linter(params.uri).value
    ensures r.ErrorResponse? ==> IsError(r, Internal, "Failed to generate diagnostics")
  {
    match linter(params.uri)
    case Ok(ds) => SuccessResponse(PullDiagnosticsResult(MakeFull("result", ds)), id)
    case Err(_) => ErrorResponse(NewError(Internal, "Failed to generate diagnostics"), id)
  }

  /**
   * The `textDocument/publishDiagnostics` notification for a document, or
   * nothing when linting fails.
   */
  function PublishNotification(linter: Linter, uri: string, version: Option<usize>): (r: Option<Notification>)
    ensures r.Some? <==> linter(uri).Ok?
    ensures r.Some? ==>
      r.value.notificationMethod.PublishDiagnostics?
      && r.value.notificationMethod.publishParams.uri == uri
      && r.value.notificationMethod.publishParams.version == version
      && r.value.notificationMethod.publishParams.diagnostics == linter(uri).value
  {
    match linter(uri)
    case Ok(ds) => Some(Notification(PublishDiagnostics(PublishParams(uri, version, ds))))
    case Err(_) => None
  }

  // ----- The reply to each message -----

  /**
   * The new state and the response for one request. Only `initialize` before
   * initialisation and `shutdown` after it change the state; every response
   * answers the request's id.
   */
  function RequestStep(state: State, linter: Linter, q: Request): (r: (State, Response))
    ensures !r.1.Batch? && r.1.id == q.id
    ensures Reaches(state, r.0)
    ensures r.0 != state ==>
      (state.Uninitialised? && q.requestMethod.Initialise? && r.0 == State.Initialised(q.requestMethod.initParams))
      || (state.Initialised? && q.requestMethod.Shutdown? && r.0.Shutdown?)
    ensures r.1.SuccessResponse? <==>
      (state.Uninitialised? && q.requestMethod.Initialise?)
      || (state.Initialised? && (q.requestMethod.Shutdown?
                                 || (q.requestMethod.PullDiagnostics? && linter(q.requestMethod.pullParams.uri).Ok?)))
    ensures state.Uninitialised? && q.requestMethod.Initialise? ==>
      r.1.result == InitialiseResult(Initialisation.DefaultResult())
    ensures state.Initialised? && q.requestMethod.Shutdown? ==> r.1.result.NullResult?
    ensures state.Initialised? && q.requestMethod.PullDiagnostics? ==>
      r == (state, DiagnosticsReply(linter, q.id, q.requestMethod.pullParams))
    ensures state.Uninitialised? && !q.requestMethod.Initialise? ==>
      IsError(r.1, ServerNotInitialised, "Server not initialised")
    ensures state.Initialised? && q.requestMethod.Initialise? ==>
      IsError(r.1, ServerAlreadyInitialised, "Server already initialised")
    ensures state.Shutdown? ==> IsError(r.1, InvalidRequest, "Server has been shutdown")
  {
    match state
    case Uninitialised =>
      (match q.requestMethod
       case Initialise(p) => (State.Initialised(p), SuccessResponse(InitialiseResult(Initialisation.DefaultResult()), q.id))
       case _ => (state, UninitialisedRequest(q.id)))
    case Shutdown => (state, RequestPostShutdown(q.id))
    case Initialised(_) =>
      (match q.requestMethod
       case Shutdown => (State.Shutdown, SuccessResponse(NullResult, q.id))
       case PullDiagnostics(p) => (state, DiagnosticsReply(linter, q.id, p))
       case Initialise(_) => (state, AlreadyInitialised(q.id)))
  }

  /**
   * A batch is handled request by request, in order, each seeing the state
   * the previous ones left; there is one response per request, answering its
   * id.
   */
  function BatchStep(state: State, linter: Linter, qs: seq<Request>): (r: (State, seq<Response>))
    ensures |r.1| == |qs|
    ensures forall i | 0 <= i < |qs| :: !r.1[i].Batch? && r.1[i].id == qs[i].id
    ensures Reaches(state, r.0)
    decreases |qs|
  {
    if qs == [] then (state, [])
    else
      var (s, rs) := BatchStep(state, linter, qs[..|qs| - 1]);
      var (s', x) := RequestStep(s, linter, qs[|qs| - 1]);
      (s', rs + [x])
  }

  /**
   * The reaction to a notification, which never changes the state. `exit`
   * ends the process with status 0 unless the server is initialised; once
   * initialised, opening or saving a document publishes its diagnostics
   * (with the opened version, or without one on save) when linting succeeds.
   */
  function NotificationReaction(state: State, linter: Linter, n: Notification): (r: Reaction)
    ensures r.Terminate? <==> n.notificationMethod.Exit? && !state.Initialised?
    ensures r.Terminate? ==> r.status == 0
    ensures r.Send? <==>
      state.Initialised?
      && ((n.notificationMethod.DidOpen? && linter(n.notificationMethod.openParams.uri).Ok?)
          || (n.notificationMethod.DidSave? && linter(n.notificationMethod.saveParams.uri).Ok?))
    ensures r.Send? && n.notificationMethod.DidOpen? ==>
      r.message == NotificationMessage(Notification(PublishDiagnostics(PublishParams(
        n.notificationMethod.openParams.uri, Some(n.notificationMethod.openParams.version),
        linter(n.notificationMethod.openParams.uri).value))))
    ensures r.Send? && n.notificationMethod.DidSave? ==>
      r.message == NotificationMessage(Notification(PublishDiagnostics(PublishParams(
        n.notificationMethod.saveParams.uri, None, linter(n.notificationMethod.saveParams.uri).value))))
  {
    match state
    case Initialised(_) =>
      (match n.notificationMethod
       case DidOpen(p) =>
         (match PublishNotification(linter, p.uri, Some(p.version))
          case Some(m) => Send(NotificationMessage(m))
          case None => Quiet)
       case DidSave(p) =>
         (match PublishNotification(linter, p.uri, None)
          case Some(m) => Send(NotificationMessage(m))
          case None => Quiet)
       case _ => Quiet)
    case _ => if n.notificationMethod.Exit? then Terminate(0) else Quiet
  }

  /**
   * The new state and the reaction for one inbound message: requests and
   * batches are answered with a response, notifications may send a
   * notification or end the process, and responses are ignored.
   */
  function Step(state: State, linter: Linter, m: Message): (r: (State, Reaction))
    ensures m.NotificationMessage? || m.ResponseMessage? ==> r.0 == state
    ensures m.ResponseMessage? ==> r.1.Quiet?
    ensures m.RequestMessage? || m.BatchRequest? <==> r.1.Send? && r.1.message.ResponseMessage?
    ensures m.RequestMessage? ==> !r.1.message.response.Batch? && r.1.message.response.id == m.request.id
    ensures m.BatchRequest? ==>
      r.1.message.response.Batch? && |r.1.message.response.responses| == |m.requests|
    ensures Reaches(state, r.0)
  {
    match m
    case RequestMessage(q) =>
      var (s, x) := RequestStep(state, linter, q);
      (s, Send(ResponseMessage(x)))
    case BatchRequest(qs) =>
      var (s, xs) := BatchStep(state, linter, qs);
      (s, Send(ResponseMessage(Batch(xs))))
    case NotificationMessage(n) => (state, NotificationReaction(state, linter, n))
    case ResponseMessage(_) => (state, Quiet)
  }

  /**
   * Messages handled one after another; handling stops at the message that
   * ends the process: only the last reaction can end it, and when there are
   * fewer reactions than messages, the last one did.
   */
  function Run(state: State, linter: Linter, ms: seq<Message>): (r: (State, seq<Reaction>))
    ensures |r.1| <= |ms|
    ensures forall i | 0 <= i < |r.1| - 1 :: !r.1[i].Terminate?
    ensures |r.1| == |ms| || (|r.1| > 0 && r.1[|r.1| - 1].Terminate?)
    ensures Reaches(state, r.0)
    decreases |ms|
  {
    if ms == [] then (state, [])
    else
      var (s, x) := Step(state, linter, ms[0]);
      if x.Terminate? then (s, [x])
      else
        var (s', xs) := Run(s, linter, ms[1..]);
        (s', [x] + xs)
  }

  // ----- Properties over several messages -----

  /** Response `i` of a batch is request `i`'s reply in the state the earlier requests left. */
  lemma {:induction false} BatchElement(state: State, linter: Linter, qs: seq<Request>, i: int)
    requires 0 <= i < |qs|
    ensures BatchStep(state, linter, qs).1[i] == RequestStep(BatchStep(state, linter, qs[..i]).0, linter, qs[i]).1
    decreases |qs|
  {
    if i < |qs| - 1 {
      var init := qs[..|qs| - 1];
      assert init[..i] == qs[..i];
      BatchElement(state, linter, init, i);
    } else {
      assert qs[..i] == qs[..|qs| - 1];
    }
  }

  /**
   * Reaction `i` of a run is the reaction to message `i` in the state the
   * earlier messages left.
   */
  lemma {:induction false} RunElement(state: State, linter: Linter, ms: seq<Message>, i: int)
    requires 0 <= i < |Run(state, linter, ms).1|
    ensures Run(state, linter, ms).1[i] == Step(Run(state, linter, ms[..i]).0, linter, ms[i]).1
    decreases |ms|
  {
    var (s, x) := Step(state, linter, ms[0]);
    if i > 0 {
      assert !x.Terminate?;
      RunElement(s, linter, ms[1..], i - 1);
      assert ms[..i][0] == ms[0] && ms[..i][1..] == ms[1..][..i - 1];
    }
  }

  /**
   * Before initialisation, a batch without `initialize` leaves the server
   * uninitialised and every one of its requests is refused as not initialised.
   */
  lemma {:induction false} BatchBeforeInitialise(linter: Linter, qs: seq<Request>)
    requires forall i | 0 <= i < |qs| :: !qs[i].requestMethod.Initialise?
    ensures BatchStep(State.Uninitialised, linter, qs).0 == State.Uninitialised
    ensures forall i | 0 <= i < |qs| ::
      IsError(BatchStep(State.Uninitialised, linter, qs).1[i], ServerNotInitialised, "Server not initialised")
    decreases |qs|
  {
    if qs != [] {
      BatchBeforeInitialise(linter, qs[..|qs| - 1]);
    }
  }

  /**
   * A complete session: `initialize` is answered with the server's
   * capabilities, `shutdown` with `null`, a request after it is refused as
   * invalid, and `exit` then ends the process with status 0.
   */
  lemma Session(linter: Linter, p: Initialisation.Params, a: RequestId, b: RequestId, c: RequestId, q: RequestMethod)
    ensures Run(State.Uninitialised, linter,
                [RequestMessage(Request(Initialise(p), a)), RequestMessage(Request(RequestMethod.Shutdown, b)),
                 RequestMessage(Request(q, c)), NotificationMessage(Notification(Exit))]).1
            == [Send(ResponseMessage(SuccessResponse(InitialiseResult(Initialisation.DefaultResult()), a))),
                Send(ResponseMessage(SuccessResponse(NullResult, b))),
                Send(ResponseMessage(RequestPostShutdown(c))),
                Terminate(0)]
  {
    var ms := [RequestMessage(Request(Initialise(p), a)), RequestMessage(Request(RequestMethod.Shutdown, b)),
               RequestMessage(Request(q, c)), NotificationMessage(Notification(Exit))];
    assert ms[1..][1..][1..][1..] == [];
    var exit := Run(State.Shutdown, linter, ms[1..][1..][1..]);
    assert exit.1 == [Terminate(0)];
    var third := Run(State.Shutdown, linter, ms[1..][1..]);
    assert third.1 == [Send(ResponseMessage(RequestPostShutdown(c)))] + exit.1;
    var second := Run(State.Initialised(p), linter, ms[1..]);
    assert second.1 == [Send(ResponseMessage(SuccessResponse(NullResult, b)))] + third.1;
  }

  // ----- The handler object -----

  /** `MessageHandler`: the client's process id, the linter and the lifecycle state. */
  class MessageHandler {
    const clientProcessId: Option<string>
    const linter: Linter
    var state: State

    /**
     * A fresh handler is uninitialised and lints with cfn-lint, run through
     * `execute` and read back with `utf8` and `parseJson`.
     */
    constructor(clientProcessId: Option<string>, execute: string -> Option<Output>,
                utf8: seq<byte> -> Option<string>, parseJson: string -> Option<Json>)
      ensures this.clientProcessId == clientProcessId
      ensures state == State.Uninitialised
      ensures forall uri :: linter(uri) == CfnLintRun(uri, execute, utf8, parseJson)
    {
      this.clientProcessId := clientProcessId;
      linter := uri => CfnLintRun(uri, execute, utf8, parseJson);
      state := State.Uninitialised;
    }

    method Handle(message: Message) returns (r: Reaction)
      modifies this
      ensures (state, r) == Step(old(state), linter, message)
    {
      match message
      case RequestMessage(q) =>
        var x := HandleRequest(q);
        r := Send(ResponseMessage(x));
      case BatchRequest(qs) =>
        var x := HandleRequestBatch(qs);
        r := Send(ResponseMessage(x));
      case NotificationMessage(n) =>
        r := HandleNotification(n);
      case ResponseMessage(_) =>
        r := Quiet;
    }

    method HandleRequestBatch(requests: seq<Request>) returns (r: Response)
      modifies this
      ensures state == BatchStep(old(state), linter, requests).0
      ensures r == Batch(BatchStep(old(state), linter, requests).1)
    {
      var responses := [];
      var i := 0;
      while i < |requests|
        invariant 0 <= i <= |requests|
        invariant (state, responses) == BatchStep(old(state), linter, requests[..i])
      {
        assert requests[..i + 1][..i] == requests[..i];
        var x := HandleRequest(requests[i]);
        responses := responses + [x];
        i := i + 1;
      }
      assert requests[..i] == requests;
      r := Batch(responses);
    }

    method HandleRequest(request: Request) returns (r: Response)
      modifies this
      ensures (state, r) == RequestStep(old(state), linter, request)
    {
      match state {
        case Uninitialised =>
          match request.requestMethod {
            case Initialise(p) => r := Initialise(request.id, p);
            case _ => r := UninitialisedRequest(request.id);
          }
        case Shutdown =>
          r := RequestPostShutdown(request.id);
        case Initialised(_) =>
          match request.requestMethod {
            case Shutdown => r := Shutdown(request.id);
            case PullDiagnostics(p) => r := DiagnosticsReply(linter, request.id, p);
            case Initialise(_) => r := AlreadyInitialised(request.id);
          }
      }
    }

    method HandleNotification(notification: Notification) returns (r: Reaction)
      ensures r == NotificationReaction(state, linter, notification)
    {
      match state {
        case Initialised(_) =>
          match notification.notificationMethod {
            case DidOpen(p) =>
              var n := PublishNotification(linter, p.uri, Some(p.version));
              r := if n.Some? then Send(NotificationMessage(n.value)) else Quiet;
            case DidSave(p) =>
              var n := PublishNotification(linter, p.uri, None);
              r := if n.Some? then Send(NotificationMessage(n.value)) else Quiet;
            case _ =>
              r := Quiet;
          }
        case _ =>
          r := if notification.notificationMethod.Exit? then Terminate(0) else Quiet;
      }
    }

    method Initialise(id: RequestId, params: Initialisation.Params) returns (r: Response)
      modifies this
      ensures state == State.Initialised(params)
      ensures r == SuccessResponse(InitialiseResult(Initialisation.DefaultResult()), id)
    {
      state := State.Initialised(params);
      r := SuccessResponse(InitialiseResult(Initialisation.DefaultResult()), id);
    }

    method Shutdown(id: RequestId) returns (r: Response)
      modifies this
      ensures state == State.Shutdown
      ensures r == SuccessResponse(NullResult, id)
    {
      state := State.Shutdown;
      r := SuccessResponse(NullResult, id);
    }
  }
}
