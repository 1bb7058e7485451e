/**
 * The LSP diagnostic types the server produces: positions and ranges,
 * severities and tags with their numeric wire encodings, the Full/Unchanged
 * document diagnostic report, and the parameters of the pull
 * (`textDocument/diagnostic`) request and of the outbound
 * `textDocument/publishDiagnostics` notification.
 */
module Diagnostics {
  import opened Wrappers
  import opened Text
  import opened Json

  /** A 0-based line and a 0-based character offset. */
  datatype Position = Position(line: usize, character: usize)

  datatype Range = Range(start: Position, end: Position)

  datatype Severity = Error | Warning | Information | Hint

  datatype Tag = Unnecessary | Deprecated

  datatype CodeDescription = CodeDescription(href: string)

  datatype Location = Location(uri: string, range: Range)

  datatype RelatedInformation = RelatedInformation(location: Location, message: string)

  datatype Diagnostic = Diagnostic(
    range: Range,
    severity: Severity,
    code: string,
    codeDescription: Option<CodeDescription>,
    source: Option<string>,
    message: string,
    tags: seq<Tag>,
    relatedInformation: seq<RelatedInformation>,
    data: Option<Json>)

  datatype ReportKind = Full | Unchanged

  /**
   * A document diagnostic report. Each variant also stores its kind, as the
   * source does, so that the kind is serialised beside the other fields.
   */
  datatype Report =
    | FullReport(kind: ReportKind, resultId: string, items: seq<Diagnostic>)
    | UnchangedReport(kind: ReportKind, resultId: string)

  /** Parameters of `textDocument/diagnostic`; `uri` is `textDocument.uri`. */
  datatype PullParams = PullParams(uri: string, identifier: Option<string>, previousResultId: Option<string>)

  /** Parameters of the outbound `textDocument/publishDiagnostics` notification. */
  datatype PublishParams = PublishParams(uri: string, version: Option<usize>, diagnostics: seq<Diagnostic>)

  // ----- Wire encodings of severities, tags and report kinds -----

  /** `Severity::value`, the number a severity is serialised as. */
  function SeverityValue(s: Severity): (v: byte)
    ensures 1 <= v <= 4
    ensures SeverityFromValue(v) == Some(s)
  {
    match s
    case Error => 1
    case Warning => 2
    case Information => 3
    case Hint => 4
  }

  /** The severity a number stands for in the protocol (1 to 4). */
  function SeverityFromValue(v: int): (s: Option<Severity>)
    ensures s.Some? <==> 1 <= v <= 4
  {
    if v == 1 then Some(Error)
    else if v == 2 then Some(Warning)
    else if v == 3 then Some(Information)
    else if v == 4 then Some(Hint)
    else None
  }

  /** Different severities are written as different numbers. */
  lemma SeverityValueInjective(a: Severity, b: Severity)
    ensures SeverityValue(a) == SeverityValue(b) <==> a == b
  {
  }

  /** `Tag::value`, the number a tag is serialised as. */
  function TagValue(t: Tag): (v: byte)
    ensures 1 <= v <= 2
    ensures TagFromValue(v) == Some(t)
  {
    match t
    case Unnecessary => 1
    case Deprecated => 2
  }

  /** The tag a number stands for in the protocol (1 or 2). */
  function TagFromValue(v: int): (t: Option<Tag>)
    ensures t.Some? <==> 1 <= v <= 2
  {
    if v == 1 then Some(Unnecessary) else if v == 2 then Some(Deprecated) else None
  }

  /** A report kind is serialised by its lower-case variant name. */
  function KindName(k: ReportKind): (name: string)
    ensures KindFromName(name) == Some(k)
  {
    match k
    case Full => "full"
    case Unchanged => "unchanged"
  }

  function KindFromName(name: string): (k: Option<ReportKind>)
    ensures k.Some? <==> name == "full" || name == "unchanged"
  {
    if name == "full" then Some(Full) else if name == "unchanged" then Some(Unchanged) else None
  }

  // ----- Reports -----

  /** The stored kind agrees with the variant. */
  predicate WellKinded(r: Report) {
    match r
    case FullReport(kind, _, _) => kind == Full
    case UnchangedReport(kind, _) => kind == Unchanged
  }

  /** `Result::full`: a full report of `items`, in the given order. */
  function MakeFull(resultId: string, items: seq<Diagnostic>): (r: Report)
    ensures WellKinded(r) && r.FullReport?
    ensures r.resultId == resultId && r.items == items
  {
    FullReport(Full, resultId, items)
  }

  /** `Result::unchanged`: a report that tells the client to keep its items. */
  function MakeUnchanged(resultId: string): (r: Report)
    ensures WellKinded(r) && r.UnchangedReport?
    ensures r.resultId == resultId
  {
    UnchangedReport(Unchanged, resultId)
  }

  // ----- Serialisation (the derived `Serialize` implementations) -----

  function PositionToJson(p: Position): Json {
    JObject(map["line" := JNumber(p.line), "character" := JNumber(p.character)])
  }

  function RangeToJson(r: Range): Json {
    JObject(map["start" := PositionToJson(r.start), "end" := PositionToJson(r.end)])
  }

  function LocationToJson(l: Location): Json {
    JObject(map["uri" := JString(l.uri), "range" := RangeToJson(l.range)])
  }

  function RelatedInformationToJson(ri: RelatedInformation): Json {
    JObject(map["location" := LocationToJson(ri.location), "message" := JString(ri.message)])
  }

  function TagToJson(t: Tag): Json {
    JNumber(TagValue(t))
  }

  function CodeDescriptionToJson(c: CodeDescription): Json {
    JObject(map["href" := JString(c.href)])
  }

  function StringToJson(s: string): Json {
    JString(s)
  }

  /** A diagnostic, with its members named in camelCase. */
  function DiagnosticToJson(d: Diagnostic): (j: Json)
    ensures Get(j, "severity") == Some(JNumber(SeverityValue(d.severity)))
    ensures Get(j, "tags") == Some(JArray(EncodeAll(d.tags, TagToJson)))
    ensures Get(j, "data") == Some(if d.data.Some? then d.data.value else JNull)
  {
    JObject(map[
      "range" := RangeToJson(d.range),
      "severity" := JNumber(SeverityValue(d.severity)),
      "code" := JString(d.code),
      "codeDescription" := OrNull(d.codeDescription, CodeDescriptionToJson),
      "source" := OrNull(d.source, StringToJson),
      "message" := JString(d.message),
      "tags" := JArray(EncodeAll(d.tags, TagToJson)),
      "relatedInformation" := JArray(EncodeAll(d.relatedInformation, RelatedInformationToJson)),
      "data" := OrNull(d.data, AnyJson)])
  }

  /**
   * A report. The enum is untagged, so only the stored kind tells the two
   * variants apart; the result id goes under the field's own name,
   * `result_id`, because the fields carry no rename.
   */
  function ReportToJson(r: Report): (j: Json)
    ensures WellKinded(r) ==>
      Get(j, "kind") == Some(JString(if r.FullReport? then "full" else "unchanged"))
    ensures Get(j, "result_id") == Some(JString(r.resultId))
    ensures Get(j, "items").Some? <==> r.FullReport?
  {
    match r
    case FullReport(kind, resultId, items) =>
      JObject(map[
        "kind" := JString(KindName(kind)),
        "result_id" := JString(resultId),
        "items" := JArray(EncodeAll(items, DiagnosticToJson))])
    case UnchangedReport(kind, resultId) =>
      JObject(map["kind" := JString(KindName(kind)), "result_id" := JString(resultId)])
  }

  // ----- Decoding the pull request's parameters -----

  /** `TextDocumentIdentifier`: an object with a string `uri`. */
  function DecodeDocumentUri(j: Json): (r: Option<string>)
    ensures r.Some? <==> Decodes(j, "uri", DecodeString)
    ensures r.Some? ==> Member(j, "uri", DecodeString, r.value)
  {
    Required(j, "uri", DecodeString)
  }

  /**
   * `diagnostic::pull::Params`: `textDocument` is required, `identifier` and
   * `previousResultId` are optional strings.
   */
  function DecodePullParams(j: Json): (r: Option<PullParams>)
    ensures r.Some? <==>
      && Decodes(j, "textDocument", DecodeDocumentUri)
      && (Absent(j, "identifier") || Decodes(j, "identifier", DecodeString))
      && (Absent(j, "previousResultId") || Decodes(j, "previousResultId", DecodeString))
    ensures r.Some? ==>
      && Member(j, "textDocument", DecodeDocumentUri, r.value.uri)
      && OptionalMember(j, "identifier", DecodeString, r.value.identifier)
      && OptionalMember(j, "previousResultId", DecodeString, r.value.previousResultId)
    ensures r.Some? ==> Get(j, "textDocument").Some? && DecodeDocumentUri(Get(j, "textDocument").value) == Some(r.value.uri)
  {
    match (Required(j, "textDocument", DecodeDocumentUri), Optional(j, "identifier", DecodeString),
           Optional(j, "previousResultId", DecodeString))
    case (Some(uri), Some(identifier), Some(previous)) => Some(PullParams(uri, identifier, previous))
    case _ => None
  }

  /** The pull parameters written out as the client sends them. */
  function PullParamsToJson(p: PullParams): (j: Json)
    ensures DecodePullParams(j) == Some(p)
  {
    var j := JObject(map[
      "textDocument" := JObject(map["uri" := JString(p.uri)]),
      "identifier" := OrNull(p.identifier, StringToJson),
      "previousResultId" := OrNull(p.previousResultId, StringToJson)]);
    OptionalOrNull(j, "identifier", p.identifier, StringToJson, DecodeString);
    OptionalOrNull(j, "previousResultId", p.previousResultId, StringToJson, DecodeString);
    j
  }
}
