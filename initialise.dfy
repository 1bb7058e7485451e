/**
 * The `initialize` request: the client's parameters as the server decodes
 * them, the fixed result the server answers with, and the error payload
 * that request defines.
 */
module Initialisation {
  import opened Wrappers
  import opened Text
  import opened Json

  /** The crate's package name and version, fixed when the server is built. */
  const PackageName: string
  const PackageVersion: string

  // ----- Parameters -----

  datatype ClientInfo = ClientInfo(name: string, version: Option<string>)

  datatype DiagnosticClientCapabilities =
    DiagnosticClientCapabilities(dynamicRegistration: Option<bool>, relatedDocumentSupport: Option<bool>)

  datatype TextDocumentClientCapabilities =
    TextDocumentClientCapabilities(diagnostic: Option<DiagnosticClientCapabilities>)

  /** The only position encoding the server knows, written `utf-16`. */
  datatype PositionEncoding = Utf16

  datatype GeneralClientCapabilities =
    GeneralClientCapabilities(positionEncodings: Option<seq<PositionEncoding>>)

  datatype ClientCapabilities =
    ClientCapabilities(textDocument: Option<TextDocumentClientCapabilities>, general: Option<GeneralClientCapabilities>)

  datatype TraceValue = Off | Messages | Verbose

  datatype WorkspaceFolder = WorkspaceFolder(uri: string, name: string)

  datatype Params = Params(
    processId: Option<i32>,
    clientInfo: Option<ClientInfo>,
    locale: Option<string>,
    initialisationOptions: Option<Json>,
    capabilities: ClientCapabilities,
    trace: TraceValue,
    workspaceFolders: Option<seq<WorkspaceFolder>>)

  // ----- Decoding the parameters -----

  /** `ClientInfo`: a required string `name` and an optional string `version`. */
  function DecodeClientInfo(j: Json): (r: Option<ClientInfo>)
    ensures r.Some? <==> Decodes(j, "name", DecodeString) && (Absent(j, "version") || Decodes(j, "version", DecodeString))
    ensures r.Some? ==>
      Member(j, "name", DecodeString, r.value.name) && OptionalMember(j, "version", DecodeString, r.value.version)
  {
    match (Required(j, "name", DecodeString), Optional(j, "version", DecodeString))
    case (Some(name), Some(version)) => Some(ClientInfo(name, version))
    case _ => None
  }

  /** `DiagnosticClientCapabilities`: an object with two optional flags. */
  function DecodeDiagnosticCapabilities(j: Json): (r: Option<DiagnosticClientCapabilities>)
    ensures r.Some? <==>
      j.JObject?
      && (Absent(j, "dynamicRegistration") || Decodes(j, "dynamicRegistration", DecodeBool))
      && (Absent(j, "relatedDocumentSupport") || Decodes(j, "relatedDocumentSupport", DecodeBool))
    ensures r.Some? ==>
      OptionalMember(j, "dynamicRegistration", DecodeBool, r.value.dynamicRegistration)
      && OptionalMember(j, "relatedDocumentSupport", DecodeBool, r.value.relatedDocumentSupport)
  {
    match (Optional(j, "dynamicRegistration", DecodeBool), Optional(j, "relatedDocumentSupport", DecodeBool))
    case (Some(dynamic), Some(related)) =>
      if j.JObject? then Some(DiagnosticClientCapabilities(dynamic, related)) else None
    case _ => None
  }

  /** `TextDocumentClientCapabilities`: an object with an optional `diagnostic` member. */
  function DecodeTextDocumentCapabilities(j: Json): (r: Option<TextDocumentClientCapabilities>)
    ensures r.Some? <==>
      j.JObject? && (Absent(j, "diagnostic") || Decodes(j, "diagnostic", DecodeDiagnosticCapabilities))
    ensures r.Some? ==> OptionalMember(j, "diagnostic", DecodeDiagnosticCapabilities, r.value.diagnostic)
  {
    match Optional(j, "diagnostic", DecodeDiagnosticCapabilities)
    case Some(diagnostic) => if j.JObject? then Some(TextDocumentClientCapabilities(diagnostic)) else None
    case None => None
  }

  function DecodePositionEncoding(j: Json): (r: Option<PositionEncoding>)
    ensures r.Some? <==> j == JString("utf-16")
  {
    if j == JString("utf-16") then Some(Utf16) else None
  }

  /** A list of position encodings: an array whose every element decodes, order kept. */
  function DecodePositionEncodings(j: Json): (r: Option<seq<PositionEncoding>>)
    ensures r.Some? <==> j.JArray? && forall i | 0 <= i < |j.items| :: DecodePositionEncoding(j.items[i]).Some?
    ensures r.Some? ==> |r.value| == |j.items|
  {
    if j.JArray? then DecodeAll(j.items, DecodePositionEncoding) else None
  }

  /** `GeneralClientCapabilities`: an object with optional `positionEncodings`. */
  function DecodeGeneralCapabilities(j: Json): (r: Option<GeneralClientCapabilities>)
    ensures r.Some? <==>
      j.JObject? && (Absent(j, "positionEncodings") || Decodes(j, "positionEncodings", DecodePositionEncodings))
    ensures r.Some? ==> OptionalMember(j, "positionEncodings", DecodePositionEncodings, r.value.positionEncodings)
  {
    match Optional(j, "positionEncodings", DecodePositionEncodings)
    case Some(encodings) => if j.JObject? then Some(GeneralClientCapabilities(encodings)) else None
    case None => None
  }

  /** `ClientCapabilities`: an object with optional `textDocument` and `general` members. */
  function DecodeClientCapabilities(j: Json): (r: Option<ClientCapabilities>)
    ensures r.Some? <==>
      j.JObject?
      && (Absent(j, "textDocument") || Decodes(j, "textDocument", DecodeTextDocumentCapabilities))
      && (Absent(j, "general") || Decodes(j, "general", DecodeGeneralCapabilities))
    ensures r.Some? ==>
      OptionalMember(j, "textDocument", DecodeTextDocumentCapabilities, r.value.textDocument)
      && OptionalMember(j, "general", DecodeGeneralCapabilities, r.value.general)
  {
    match (Optional(j, "textDocument", DecodeTextDocumentCapabilities),
           Optional(j, "general", DecodeGeneralCapabilities))
    case (Some(textDocument), Some(general)) =>
      if j.JObject? then Some(ClientCapabilities(textDocument, general)) else None
    case _ => None
  }

  /** A trace value, by its lower-case name. */
  function DecodeTrace(j: Json): (r: Option<TraceValue>)
    ensures r.Some? ==> j == JString(TraceName(r.value))
  {
    if j == JString("off") then Some(Off)
    else if j == JString("messages") then Some(Messages)
    else if j == JString("verbose") then Some(Verbose)
    else None
  }

  function TraceName(t: TraceValue): string {
    match t
    case Off => "off"
    case Messages => "messages"
    case Verbose => "verbose"
  }

  /**
   * `trace` has a default: a missing member reads as `off`. The default only
   * fills a missing member, so `null` is refused like any other non-name.
   */
  function DecodeTraceField(j: Json): (r: Option<TraceValue>)
    ensures Get(j, "trace").None? ==> r == Some(Off)
    ensures Get(j, "trace").Some? && r.Some? ==> Get(j, "trace") == Some(JString(TraceName(r.value)))
    ensures Get(j, "trace") == Some(JNull) ==> r.None?
  {
    match Get(j, "trace")
    case None => Some(Off)
    case Some(v) => DecodeTrace(v)
  }

  /** `WorkspaceFolder`: required string `uri` and `name`. */
  function DecodeWorkspaceFolder(j: Json): (r: Option<WorkspaceFolder>)
    ensures r.Some? <==> Decodes(j, "uri", DecodeString) && Decodes(j, "name", DecodeString)
    ensures r.Some? ==> Member(j, "uri", DecodeString, r.value.uri) && Member(j, "name", DecodeString, r.value.name)
  {
    match (Required(j, "uri", DecodeString), Required(j, "name", DecodeString))
    case (Some(uri), Some(name)) => Some(WorkspaceFolder(uri, name))
    case _ => None
  }

  /** A list of workspace folders: an array whose every element decodes, order kept. */
  function DecodeWorkspaceFolders(j: Json): (r: Option<seq<WorkspaceFolder>>)
    ensures r.Some? <==> j.JArray? && forall i | 0 <= i < |j.items| :: DecodeWorkspaceFolder(j.items[i]).Some?
    ensures r.Some? ==> |r.value| == |j.items|
    ensures r.Some? ==> forall i | 0 <= i < |j.items| :: DecodeWorkspaceFolder(j.items[i]) == Some(r.value[i])
  {
    if j.JArray? then DecodeAll(j.items, DecodeWorkspaceFolder) else None
  }

  /**
   * `initialise::Params`: `capabilities` is required, `trace` defaults to
   * `off`, and every other field is optional (missing or `null`).
   */
  function DecodeParams(j: Json): (r: Option<Params>)
    ensures r.Some? <==>
      && (Absent(j, "processId") || Decodes(j, "processId", DecodeI32))
      && (Absent(j, "clientInfo") || Decodes(j, "clientInfo", DecodeClientInfo))
      && (Absent(j, "locale") || Decodes(j, "locale", DecodeString))
      && Decodes(j, "capabilities", DecodeClientCapabilities)
      && DecodeTraceField(j).Some?
      && (Absent(j, "workspaceFolders") || Decodes(j, "workspaceFolders", DecodeWorkspaceFolders))
    ensures r.Some? ==>
      && OptionalMember(j, "processId", DecodeI32, r.value.processId)
      && OptionalMember(j, "clientInfo", DecodeClientInfo, r.value.clientInfo)
      && OptionalMember(j, "locale", DecodeString, r.value.locale)
      && OptionalMember(j, "initializationOptions", DecodeAny, r.value.initialisationOptions)
      && Member(j, "capabilities", DecodeClientCapabilities, r.value.capabilities)
      && r.value.trace == DecodeTraceField(j).value
      && OptionalMember(j, "workspaceFolders", DecodeWorkspaceFolders, r.value.workspaceFolders)
    ensures r.Some? ==> j.JObject? && "capabilities" in j.members
    ensures r.Some? && "trace" !in j.members ==> r.value.trace == Off
    ensures r.Some? && (Get(j, "processId").None? || Get(j, "processId") == Some(JNull)) ==> r.value.processId.None?
  {
    match (Optional(j, "processId", DecodeI32), Optional(j, "clientInfo", DecodeClientInfo),
           Optional(j, "locale", DecodeString), Optional(j, "initializationOptions", DecodeAny),
           Required(j, "capabilities", DecodeClientCapabilities), DecodeTraceField(j),
           Optional(j, "workspaceFolders", DecodeWorkspaceFolders))
    case (Some(processId), Some(clientInfo), Some(locale), Some(options), Some(capabilities), Some(trace), Some(folders)) =>
      Some(Params(processId, clientInfo, locale, options, capabilities, trace, folders))
    case _ => None
  }

  // ----- The parameters as a client writes them -----

  function StringJson(s: string): Json {
    JString(s)
  }

  function BoolJson(b: bool): Json {
    JBool(b)
  }

  function ClientInfoToJson(c: ClientInfo): (j: Json)
    ensures DecodeClientInfo(j) == Some(c) && j != JNull
  {
    var j := JObject(map["name" := JString(c.name), "version" := OrNull(c.version, StringJson)]);
    OptionalOrNull(j, "version", c.version, StringJson, DecodeString);
    j
  }

  function DiagnosticCapabilitiesToJson(d: DiagnosticClientCapabilities): (j: Json)
    ensures DecodeDiagnosticCapabilities(j) == Some(d) && j != JNull
  {
    var j := JObject(map[
      "dynamicRegistration" := OrNull(d.dynamicRegistration, BoolJson),
      "relatedDocumentSupport" := OrNull(d.relatedDocumentSupport, BoolJson)]);
    OptionalOrNull(j, "dynamicRegistration", d.dynamicRegistration, BoolJson, DecodeBool);
    OptionalOrNull(j, "relatedDocumentSupport", d.relatedDocumentSupport, BoolJson, DecodeBool);
    j
  }

  function TextDocumentCapabilitiesToJson(t: TextDocumentClientCapabilities): (j: Json)
    ensures DecodeTextDocumentCapabilities(j) == Some(t) && j != JNull
  {
    var j := JObject(map["diagnostic" := OrNull(t.diagnostic, DiagnosticCapabilitiesToJson)]);
    OptionalOrNull(j, "diagnostic", t.diagnostic, DiagnosticCapabilitiesToJson, DecodeDiagnosticCapabilities);
    j
  }

  function PositionEncodingToJson(e: PositionEncoding): (j: Json)
    ensures DecodePositionEncoding(j) == Some(e)
  {
    match e
    case Utf16 => JString("utf-16")
  }

  function PositionEncodingsToJson(es: seq<PositionEncoding>): (j: Json)
    ensures DecodePositionEncodings(j) == Some(es) && j != JNull
  {
    DecodeAllEncodeAll(es, PositionEncodingToJson, DecodePositionEncoding);
    JArray(EncodeAll(es, PositionEncodingToJson))
  }

  function GeneralCapabilitiesToJson(g: GeneralClientCapabilities): (j: Json)
    ensures DecodeGeneralCapabilities(j) == Some(g) && j != JNull
  {
    var j := JObject(map["positionEncodings" := OrNull(g.positionEncodings, PositionEncodingsToJson)]);
    OptionalOrNull(j, "positionEncodings", g.positionEncodings, PositionEncodingsToJson, DecodePositionEncodings);
    j
  }

  function ClientCapabilitiesToJson(c: ClientCapabilities): (j: Json)
    ensures DecodeClientCapabilities(j) == Some(c) && j != JNull
  {
    var j := JObject(map[
      "textDocument" := OrNull(c.textDocument, TextDocumentCapabilitiesToJson),
      "general" := OrNull(c.general, GeneralCapabilitiesToJson)]);
    OptionalOrNull(j, "textDocument", c.textDocument, TextDocumentCapabilitiesToJson, DecodeTextDocumentCapabilities);
    OptionalOrNull(j, "general", c.general, GeneralCapabilitiesToJson, DecodeGeneralCapabilities);
    j
  }

  function WorkspaceFolderToJson(w: WorkspaceFolder): (j: Json)
    ensures DecodeWorkspaceFolder(j) == Some(w)
  {
    JObject(map["uri" := JString(w.uri), "name" := JString(w.name)])
  }

  function WorkspaceFoldersToJson(ws: seq<WorkspaceFolder>): (j: Json)
    ensures DecodeWorkspaceFolders(j) == Some(ws) && j != JNull
  {
    DecodeAllEncodeAll(ws, WorkspaceFolderToJson, DecodeWorkspaceFolder);
    JArray(EncodeAll(ws, WorkspaceFolderToJson))
  }

  function I32Json(n: i32): Json {
    JNumber(n)
  }

  /** Parameters decode field by field: each field's own decoding fixes the result. */
  lemma DecodeParamsFields(j: Json, p: Params)
    requires Optional(j, "processId", DecodeI32) == Some(p.processId)
    requires Optional(j, "clientInfo", DecodeClientInfo) == Some(p.clientInfo)
    requires Optional(j, "locale", DecodeString) == Some(p.locale)
    requires Optional(j, "initializationOptions", DecodeAny) == Some(p.initialisationOptions)
    requires Required(j, "capabilities", DecodeClientCapabilities) == Some(p.capabilities)
    requires DecodeTraceField(j) == Some(p.trace)
    requires Optional(j, "workspaceFolders", DecodeWorkspaceFolders) == Some(p.workspaceFolders)
    ensures DecodeParams(j) == Some(p)
  {
  }

  /** The members of written-out parameters, one per field, absent options as `null`. */
  function ParamsMembers(p: Params): (m: map<string, Json>)
    ensures "processId" in m && m["processId"] == OrNull(p.processId, I32Json)
    ensures "clientInfo" in m && m["clientInfo"] == OrNull(p.clientInfo, ClientInfoToJson)
    ensures "locale" in m && m["locale"] == OrNull(p.locale, StringJson)
    ensures "initializationOptions" in m && m["initializationOptions"] == OrNull(p.initialisationOptions, AnyJson)
    ensures "capabilities" in m && m["capabilities"] == ClientCapabilitiesToJson(p.capabilities)
    ensures "trace" in m && m["trace"] == JString(TraceName(p.trace))
    ensures "workspaceFolders" in m && m["workspaceFolders"] == OrNull(p.workspaceFolders, WorkspaceFoldersToJson)
  {
    map[
      "processId" := OrNull(p.processId, I32Json),
      "clientInfo" := OrNull(p.clientInfo, ClientInfoToJson),
      "locale" := OrNull(p.locale, StringJson),
      "initializationOptions" := OrNull(p.initialisationOptions, AnyJson),
      "capabilities" := ClientCapabilitiesToJson(p.capabilities),
      "trace" := JString(TraceName(p.trace)),
      "workspaceFolders" := OrNull(p.workspaceFolders, WorkspaceFoldersToJson)]
  }

  /** The client's own fields of written-out parameters read back unchanged. */
  lemma ClientFieldsReadBack(p: Params)
    ensures var j := JObject(ParamsMembers(p));
      && Optional(j, "processId", DecodeI32) == Some(p.processId)
      && Optional(j, "clientInfo", DecodeClientInfo) == Some(p.clientInfo)
      && Optional(j, "locale", DecodeString) == Some(p.locale)
  {
    var j := JObject(ParamsMembers(p));
    OptionalOrNull(j, "processId", p.processId, I32Json, DecodeI32);
    OptionalOrNull(j, "clientInfo", p.clientInfo, ClientInfoToJson, DecodeClientInfo);
    OptionalOrNull(j, "locale", p.locale, StringJson, DecodeString);
  }

  /** The session's fields of written-out parameters read back unchanged. */
  lemma SessionFieldsReadBack(p: Params)
    requires p.initialisationOptions != Some(JNull)
    ensures var j := JObject(ParamsMembers(p));
      && Optional(j, "initializationOptions", DecodeAny) == Some(p.initialisationOptions)
      && Required(j, "capabilities", DecodeClientCapabilities) == Some(p.capabilities)
      && DecodeTraceField(j) == Some(p.trace)
      && Optional(j, "workspaceFolders", DecodeWorkspaceFolders) == Some(p.workspaceFolders)
  {
    var j := JObject(ParamsMembers(p));
    OptionalOrNull(j, "initializationOptions", p.initialisationOptions, AnyJson, DecodeAny);
    OptionalOrNull(j, "workspaceFolders", p.workspaceFolders, WorkspaceFoldersToJson, DecodeWorkspaceFolders);
  }

  /**
   * Parameters written out member by member. They read back unchanged,
   * except that initialisation options that are themselves `null` read
   * back as absent (serde does not tell the two apart).
   */
  function ParamsToJson(p: Params): (j: Json)
    requires p.initialisationOptions != Some(JNull)
    ensures DecodeParams(j) == Some(p)
  {
    var j := JObject(ParamsMembers(p));
    ClientFieldsReadBack(p);
    SessionFieldsReadBack(p);
    DecodeParamsFields(j, p);
    j
  }

  // ----- The result -----

  /** `TextDocumentSyncKind`, serialised by its variant name. */
  datatype SyncKind = SyncNone | SyncIncremental | SyncFull

  datatype TextDocumentSync = TextDocumentSync(openClose: bool, change: SyncKind)

  datatype DiagnosticOptions =
    DiagnosticOptions(identifier: string, interFileDependencies: bool, workspaceDiagnostics: bool)

  datatype ServerCapabilities = ServerCapabilities(
    positionEncoding: PositionEncoding,
    textDocumentSync: TextDocumentSync,
    diagnosticProvider: DiagnosticOptions)

  datatype ServerInfo = ServerInfo(name: string, version: string)

  datatype InitialiseResult = InitialiseResult(capabilities: ServerCapabilities, serverInfo: ServerInfo)

  /** `initialise::Result::default()`, assembled from the nested defaults. */
  function DefaultResult(): (r: InitialiseResult)
    ensures r.capabilities.positionEncoding == Utf16
    ensures r.capabilities.textDocumentSync == TextDocumentSync(true, SyncFull)
    ensures r.capabilities.diagnosticProvider == DiagnosticOptions(PackageName, false, false)
    ensures r.serverInfo == ServerInfo(PackageName, PackageVersion)
  {
    InitialiseResult(
      ServerCapabilities(Utf16, TextDocumentSync(true, SyncFull), DiagnosticOptions(PackageName, false, false)),
      ServerInfo(PackageName, PackageVersion))
  }

  function SyncKindName(k: SyncKind): (name: string)
    ensures k.SyncNone? <==> name == "None"
    ensures k.SyncIncremental? <==> name == "Incremental"
    ensures k.SyncFull? <==> name == "Full"
  {
    match k
    case SyncNone => "None"
    case SyncIncremental => "Incremental"
    case SyncFull => "Full"
  }

  /**
   * `initialise::Result` on the wire: `capabilities` and `serverInfo`, each
   * field under its camelCase name and the sync kind under its variant name.
   */
  function ResultToJson(r: InitialiseResult): (j: Json)
    ensures Path(j, ["capabilities", "positionEncoding"]) == Some(PositionEncodingToJson(r.capabilities.positionEncoding))
    ensures Path(j, ["capabilities", "textDocumentSync", "openClose"]) == Some(JBool(r.capabilities.textDocumentSync.openClose))
    ensures Path(j, ["capabilities", "textDocumentSync", "change"])
            == Some(JString(SyncKindName(r.capabilities.textDocumentSync.change)))
    ensures Path(j, ["capabilities", "diagnosticProvider", "identifier"])
            == Some(JString(r.capabilities.diagnosticProvider.identifier))
    ensures Path(j, ["capabilities", "diagnosticProvider", "interFileDependencies"])
            == Some(JBool(r.capabilities.diagnosticProvider.interFileDependencies))
    ensures Path(j, ["capabilities", "diagnosticProvider", "workspaceDiagnostics"])
            == Some(JBool(r.capabilities.diagnosticProvider.workspaceDiagnostics))
    ensures Path(j, ["serverInfo", "name"]) == Some(JString(r.serverInfo.name))
    ensures Path(j, ["serverInfo", "version"]) == Some(JString(r.serverInfo.version))
    ensures j.JObject? && j.members.Keys == {"capabilities", "serverInfo"}
    ensures var capabilities := j.members["capabilities"];
      && capabilities.JObject?
      && capabilities.members.Keys == {"positionEncoding", "textDocumentSync", "diagnosticProvider"}
      && capabilities.members["textDocumentSync"].JObject?
      && capabilities.members["textDocumentSync"].members.Keys == {"openClose", "change"}
      && capabilities.members["diagnosticProvider"].JObject?
      && capabilities.members["diagnosticProvider"].members.Keys
         == {"identifier", "interFileDependencies", "workspaceDiagnostics"}
    ensures j.members["serverInfo"].JObject? && j.members["serverInfo"].members.Keys == {"name", "version"}
  {
    var sync := r.capabilities.textDocumentSync;
    var options := r.capabilities.diagnosticProvider;
    var syncJson := JObject(map["openClose" := JBool(sync.openClose), "change" := JString(SyncKindName(sync.change))]);
    var optionsJson := JObject(map[
      "identifier" := JString(options.identifier),
      "interFileDependencies" := JBool(options.interFileDependencies),
      "workspaceDiagnostics" := JBool(options.workspaceDiagnostics)]);
    var capabilities := JObject(map[
      "positionEncoding" := PositionEncodingToJson(r.capabilities.positionEncoding),
      "textDocumentSync" := syncJson,
      "diagnosticProvider" := optionsJson]);
    var info := JObject(map["name" := JString(r.serverInfo.name), "version" := JString(r.serverInfo.version)]);
    var j := JObject(map["capabilities" := capabilities, "serverInfo" := info]);
    PathTwo(j, "capabilities", "positionEncoding");
    PathThree(j, "capabilities", "textDocumentSync", "openClose");
    PathTwo(capabilities, "textDocumentSync", "openClose");
    PathThree(j, "capabilities", "textDocumentSync", "change");
    PathTwo(capabilities, "textDocumentSync", "change");
    PathThree(j, "capabilities", "diagnosticProvider", "identifier");
    PathTwo(capabilities, "diagnosticProvider", "identifier");
    PathThree(j, "capabilities", "diagnosticProvider", "interFileDependencies");
    PathTwo(capabilities, "diagnosticProvider", "interFileDependencies");
    PathThree(j, "capabilities", "diagnosticProvider", "workspaceDiagnostics");
    PathTwo(capabilities, "diagnosticProvider", "workspaceDiagnostics");
    PathTwo(j, "serverInfo", "name");
    PathTwo(j, "serverInfo", "version");
    j
  }

  /** A path of two keys: member `b` of member `a`. */
  lemma PathTwo(j: Json, a: string, b: string)
    ensures Path(j, [a, b]) == if Get(j, a).Some? then Get(Get(j, a).value, b) else None
  {
    assert [a, b][1..] == [b];
    if Get(j, a).Some? {
      var v := Get(j, a).value;
      assert [b][1..] == [];
      assert Path(v, [b]) == Get(v, b);
    }
  }

  /** A path of three keys: the path of the last two inside member `a`. */
  lemma PathThree(j: Json, a: string, b: string, c: string)
    ensures Path(j, [a, b, c]) == if Get(j, a).Some? then Path(Get(j, a).value, [b, c]) else None
  {
    assert [a, b, c][1..] == [b, c];
  }

  /** The member reached by following `keys` through nested objects. */
  function Path(j: Json, keys: seq<string>): Option<Json> {
    if keys == [] then Some(j)
    else
      match Get(j, keys[0])
      case Some(v) => Path(v, keys[1..])
      case None => None
  }

  /**
   * On the wire, the default result advertises UTF-16 positions, full-text
   * synchronisation named `"Full"` (a string, not the protocol's number),
   * pull diagnostics under the package name with no inter-file or workspace
   * diagnostics, and the package's name and version.
   */
  lemma DefaultResultJson()
    ensures Path(ResultToJson(DefaultResult()), ["capabilities", "positionEncoding"]) == Some(JString("utf-16"))
    ensures Path(ResultToJson(DefaultResult()), ["capabilities", "textDocumentSync", "openClose"]) == Some(JBool(true))
    ensures Path(ResultToJson(DefaultResult()), ["capabilities", "textDocumentSync", "change"]) == Some(JString("Full"))
    ensures Path(ResultToJson(DefaultResult()), ["capabilities", "diagnosticProvider", "identifier"]) == Some(JString(PackageName))
    ensures Path(ResultToJson(DefaultResult()), ["capabilities", "diagnosticProvider", "interFileDependencies"]) == Some(JBool(false))
    ensures Path(ResultToJson(DefaultResult()), ["capabilities", "diagnosticProvider", "workspaceDiagnostics"]) == Some(JBool(false))
    ensures Path(ResultToJson(DefaultResult()), ["serverInfo", "name"]) == Some(JString(PackageName))
    ensures Path(ResultToJson(DefaultResult()), ["serverInfo", "version"]) == Some(JString(PackageVersion))
  {
  }

  // ----- The error payload -----

  datatype InitialiseError = InitialiseError(retry: bool)

  /** `Error::default()`: do not retry. */
  function DefaultError(): (e: InitialiseError)
    ensures !e.retry
  {
    InitialiseError(false)
  }

  /** `Error::to_value`: an object whose only member is `retry`. */
  function ErrorToValue(e: InitialiseError): (j: Json)
    ensures j.JObject? && j.members.Keys == {"retry"}
    ensures Get(j, "retry") == Some(JBool(e.retry))
  {
    JObject(map["retry" := JBool(e.retry)])
  }
}
