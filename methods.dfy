/**
 * The method-tag enums: a request or notification names its variant in the
 * `method` member and carries the variant's payload in `params` (serde's
 * adjacent tagging), and the parameter carriers of the document
 * notifications.
 */
module Methods {
  import opened Wrappers
  import opened Text
  import opened Json
  import Initialisation
  import opened Diagnostics

  /** `did_open::Params`: the opened document, `textDocument`. */
  datatype DidOpenParams = DidOpenParams(uri: string, languageId: string, version: usize, text: string)

  /** `did_change::Params`: the changed document's identifier and version. */
  datatype DidChangeParams = DidChangeParams(uri: string, version: usize)

  /** `did_save::Params`: the saved document's identifier. */
  datatype DidSaveParams = DidSaveParams(uri: string)

  datatype RequestMethod =
    | Initialise(initParams: Initialisation.Params)
    | Shutdown
    | PullDiagnostics(pullParams: PullParams)

  datatype NotificationMethod =
    | Exit
    | Initialised
    | DidOpen(openParams: DidOpenParams)
    | DidSave(saveParams: DidSaveParams)
    | DidChange(changeParams: DidChangeParams)
    | PublishDiagnostics(publishParams: PublishParams)

  /** The `method` string of each request variant, matched exactly. */
  function RequestTag(m: RequestMethod): string {
    match m
    case Initialise(_) => "initialize"
    case Shutdown => "shutdown"
    case PullDiagnostics(_) => "textDocument/diagnostic"
  }

  /** The `method` string of each notification variant, matched exactly. */
  function NotificationTag(m: NotificationMethod): string {
    match m
    case Exit => "exit"
    case Initialised => "initialized"
    case DidOpen(_) => "textDocument/didOpen"
    case DidSave(_) => "textDocument/didSave"
    case DidChange(_) => "textDocument/didChange"
    case PublishDiagnostics(_) => "textDocument/publishDiagnostics"
  }

  /** A unit variant takes no payload: `params` is missing or `null`. */
  predicate NoParams(j: Json) {
    Get(j, "params").None? || Get(j, "params") == Some(JNull)
  }

  // ----- Parameter carriers -----

  /** `TextDocumentItem`: `uri`, `languageId`, `version` and `text`, all required. */
  function DecodeDidOpenDocument(j: Json): (r: Option<DidOpenParams>)
    ensures r.Some? <==>
      Decodes(j, "uri", DecodeString) && Decodes(j, "languageId", DecodeString)
      && Decodes(j, "version", DecodeUsize) && Decodes(j, "text", DecodeString)
    ensures r.Some? ==>
      Member(j, "uri", DecodeString, r.value.uri) && Member(j, "languageId", DecodeString, r.value.languageId)
      && Member(j, "version", DecodeUsize, r.value.version) && Member(j, "text", DecodeString, r.value.text)
  {
    match (Required(j, "uri", DecodeString), Required(j, "languageId", DecodeString),
           Required(j, "version", DecodeUsize), Required(j, "text", DecodeString))
    case (Some(uri), Some(languageId), Some(version), Some(text)) => Some(DidOpenParams(uri, languageId, version, text))
    case _ => None
  }

  /** `did_open::Params`: the document item under `textDocument`. */
  function DecodeDidOpen(j: Json): (r: Option<DidOpenParams>)
    ensures r.Some? <==> Decodes(j, "textDocument", DecodeDidOpenDocument)
    ensures r.Some? ==> Get(j, "textDocument").Some? && Member(Get(j, "textDocument").value, "uri", DecodeString, r.value.uri)
    ensures r.Some? ==> Member(Get(j, "textDocument").value, "version", DecodeUsize, r.value.version)
  {
    Required(j, "textDocument", DecodeDidOpenDocument)
  }

  /** `VersionedTextDocumentIdentifier`: `uri` and `version`, both required. */
  function DecodeDidChangeDocument(j: Json): (r: Option<DidChangeParams>)
    ensures r.Some? <==> Decodes(j, "uri", DecodeString) && Decodes(j, "version", DecodeUsize)
    ensures r.Some? ==> Member(j, "uri", DecodeString, r.value.uri) && Member(j, "version", DecodeUsize, r.value.version)
  {
    match (Required(j, "uri", DecodeString), Required(j, "version", DecodeUsize))
    case (Some(uri), Some(version)) => Some(DidChangeParams(uri, version))
    case _ => None
  }

  /** `did_change::Params`: the versioned document under `textDocument`. */
  function DecodeDidChange(j: Json): (r: Option<DidChangeParams>)
    ensures r.Some? <==> Decodes(j, "textDocument", DecodeDidChangeDocument)
    ensures r.Some? ==> Get(j, "textDocument").Some? && Member(Get(j, "textDocument").value, "uri", DecodeString, r.value.uri)
    ensures r.Some? ==> Member(Get(j, "textDocument").value, "version", DecodeUsize, r.value.version)
  {
    Required(j, "textDocument", DecodeDidChangeDocument)
  }

  /** `TextDocumentIdentifier`: a required `uri`. */
  function DecodeDidSaveDocument(j: Json): (r: Option<DidSaveParams>)
    ensures r.Some? <==> Decodes(j, "uri", DecodeString)
    ensures r.Some? ==> Member(j, "uri", DecodeString, r.value.uri)
  {
    match Required(j, "uri", DecodeString)
    case Some(uri) => Some(DidSaveParams(uri))
    case None => None
  }

  /** `did_save::Params`: the document identifier under `textDocument`. */
  function DecodeDidSave(j: Json): (r: Option<DidSaveParams>)
    ensures r.Some? <==> Decodes(j, "textDocument", DecodeDidSaveDocument)
    ensures r.Some? ==> Get(j, "textDocument").Some? && Member(Get(j, "textDocument").value, "uri", DecodeString, r.value.uri)
  {
    Required(j, "textDocument", DecodeDidSaveDocument)
  }

  // ----- Decoding the tags -----

  /**
   * `RequestMethod`: the object's `method` selects the variant and `params`
   * holds its payload. Any other `method`, or a value that is not an object,
   * does not decode.
   */
  function DecodeRequestMethod(j: Json): (r: Option<RequestMethod>)
    ensures r.Some? ==> j.JObject? && Get(j, "method") == Some(JString(RequestTag(r.value)))
    ensures r.Some? && r.value.Shutdown? ==> NoParams(j)
    ensures Get(j, "method") == Some(JString("initialize")) ==>
      (r.Some? <==> Decodes(j, "params", Initialisation.DecodeParams))
      && (r.Some? ==> r.value.Initialise? && Member(j, "params", Initialisation.DecodeParams, r.value.initParams))
    ensures Get(j, "method") == Some(JString("shutdown")) ==> (r.Some? <==> NoParams(j)) && (r.Some? ==> r.value.Shutdown?)
    ensures Get(j, "method") == Some(JString("textDocument/diagnostic")) ==>
      (r.Some? <==> Decodes(j, "params", DecodePullParams))
      && (r.Some? ==> r.value.PullDiagnostics? && Member(j, "params", DecodePullParams, r.value.pullParams))
  {
    match Get(j, "method")
    case Some(JString(tag)) =>
      if tag == "initialize" then
        match Required(j, "params", Initialisation.DecodeParams)
        case Some(p) => Some(Initialise(p))
        case None => None
      else if tag == "shutdown" then
        if NoParams(j) then Some(Shutdown) else None
      else if tag == "textDocument/diagnostic" then
        match Required(j, "params", DecodePullParams)
        case Some(p) => Some(PullDiagnostics(p))
        case None => None
      else None
    case _ => None
  }

  /**
   * `NotificationMethod`, decoded the same way. `publishDiagnostics` only
   * ever goes from server to client, so it is not accepted.
   */
  function DecodeNotificationMethod(j: Json): (r: Option<NotificationMethod>)
    ensures r.Some? ==> j.JObject? && Get(j, "method") == Some(JString(NotificationTag(r.value)))
    ensures r.Some? ==> !r.value.PublishDiagnostics?
    ensures r.Some? && (r.value.Exit? || r.value.Initialised?) ==> NoParams(j)
    ensures Get(j, "method") == Some(JString("exit")) ==> (r.Some? <==> NoParams(j)) && (r.Some? ==> r.value.Exit?)
    ensures Get(j, "method") == Some(JString("initialized")) ==>
      (r.Some? <==> NoParams(j)) && (r.Some? ==> r.value.Initialised?)
    ensures Get(j, "method") == Some(JString("textDocument/didOpen")) ==>
      (r.Some? <==> Decodes(j, "params", DecodeDidOpen))
      && (r.Some? ==> r.value.DidOpen? && Member(j, "params", DecodeDidOpen, r.value.openParams))
    ensures Get(j, "method") == Some(JString("textDocument/didSave")) ==>
      (r.Some? <==> Decodes(j, "params", DecodeDidSave))
      && (r.Some? ==> r.value.DidSave? && Member(j, "params", DecodeDidSave, r.value.saveParams))
    ensures Get(j, "method") == Some(JString("textDocument/didChange")) ==>
      (r.Some? <==> Decodes(j, "params", DecodeDidChange))
      && (r.Some? ==> r.value.DidChange? && Member(j, "params", DecodeDidChange, r.value.changeParams))
  {
    match Get(j, "method")
    case Some(JString(tag)) =>
      if tag == "exit" then
        if NoParams(j) then Some(Exit) else None
      else if tag == "initialized" then
        if NoParams(j) then Some(Initialised) else None
      else if tag == "textDocument/didOpen" then
        match Required(j, "params", DecodeDidOpen)
        case Some(p) => Some(DidOpen(p))
        case None => None
      else if tag == "textDocument/didSave" then
        match Required(j, "params", DecodeDidSave)
        case Some(p) => Some(DidSave(p))
        case None => None
      else if tag == "textDocument/didChange" then
        match Required(j, "params", DecodeDidChange)
        case Some(p) => Some(DidChange(p))
        case None => None
      else None
    case _ => None
  }

  /** The `method` and `params` members of a request, as a client writes them. */
  function RequestMethodMembers(m: RequestMethod): map<string, Json>
    requires m.Initialise? ==> m.initParams.initialisationOptions != Some(JNull)
  {
    match m
    case Initialise(p) => map["method" := JString(RequestTag(m)), "params" := Initialisation.ParamsToJson(p)]
    case Shutdown => map["method" := JString(RequestTag(m))]
    case PullDiagnostics(p) => map["method" := JString(RequestTag(m)), "params" := PullParamsToJson(p)]
  }

  /**
   * Every request method, written with its tag and payload, decodes back to
   * itself: the three tags are distinct and each payload round-trips.
   */
  lemma RequestMethodRoundTrip(m: RequestMethod, extra: map<string, Json>)
    requires m.Initialise? ==> m.initParams.initialisationOptions != Some(JNull)
    requires "method" !in extra && "params" !in extra
    ensures DecodeRequestMethod(JObject(extra + RequestMethodMembers(m))) == Some(m)
  {
    var j := JObject(extra + RequestMethodMembers(m));
    assert Get(j, "method") == Some(JString(RequestTag(m)));
  }

  function DidOpenToJson(p: DidOpenParams): Json {
    JObject(map["textDocument" := JObject(map[
      "uri" := JString(p.uri), "languageId" := JString(p.languageId),
      "version" := JNumber(p.version), "text" := JString(p.text)])])
  }

  function DidChangeToJson(p: DidChangeParams): Json {
    JObject(map["textDocument" := JObject(map["uri" := JString(p.uri), "version" := JNumber(p.version)])])
  }

  function DidSaveToJson(p: DidSaveParams): Json {
    JObject(map["textDocument" := JObject(map["uri" := JString(p.uri)])])
  }

  /** A client-to-server notification written with its tag and payload. */
  function NotificationMethodMembers(m: NotificationMethod): map<string, Json>
    requires !m.PublishDiagnostics?
  {
    match m
    case Exit => map["method" := JString(NotificationTag(m))]
    case Initialised => map["method" := JString(NotificationTag(m))]
    case DidOpen(p) => map["method" := JString(NotificationTag(m)), "params" := DidOpenToJson(p)]
    case DidSave(p) => map["method" := JString(NotificationTag(m)), "params" := DidSaveToJson(p)]
    case DidChange(p) => map["method" := JString(NotificationTag(m)), "params" := DidChangeToJson(p)]
  }

  /** Every client-to-server notification method decodes back to itself. */
  lemma NotificationMethodRoundTrip(m: NotificationMethod, extra: map<string, Json>)
    requires !m.PublishDiagnostics?
    requires "method" !in extra && "params" !in extra
    ensures DecodeNotificationMethod(JObject(extra + NotificationMethodMembers(m))) == Some(m)
  {
    var j := JObject(extra + NotificationMethodMembers(m));
    assert Get(j, "method") == Some(JString(NotificationTag(m)));
    match m
    case Exit => assert NoParams(j);
    case Initialised => assert NoParams(j);
    case DidOpen(p) => assert Get(j, "params") == Some(DidOpenToJson(p));
    case DidSave(p) => assert Get(j, "params") == Some(DidSaveToJson(p));
    case DidChange(p) => assert Get(j, "params") == Some(DidChangeToJson(p));
  }

  /** A tag names a request or a notification, never both. */
  lemma TagsDisjoint(r: RequestMethod, n: NotificationMethod)
    ensures RequestTag(r) != NotificationTag(n)
  {
  }
}
