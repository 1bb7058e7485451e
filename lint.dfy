/**
 * Running cfn-lint on a template and turning its JSON report into LSP
 * diagnostics. The subprocess itself, the UTF-8 check and the JSON text
 * parser are parameters: the model starts from the process's exit status
 * and standard output.
 */
module Lint {
  import opened Wrappers
  import opened Text
  import opened Json
  import opened Diagnostics

  /** The linter's executable name, also the `source` of every diagnostic. */
  const CfnLint: string := "cfn-lint"

  // ----- File paths -----

  /**
   * `extract_file_path`: every `file://` is removed, then the text after the
   * last `:` is kept (the whole text when there is no `:`).
   */
  function ExtractFilePath(uri: string): (path: string)
    ensures ':' !in path
    ensures var text := Replace(uri, "file://", "");
      && |path| <= |text| && path == text[|text| - |path|..]
      && (|path| < |text| ==> text[|text| - |path| - 1] == ':')
  {
    LastPiece(Replace(uri, "file://", ""), ':')
  }

  /** A URI without a colon is already a path and is kept as it is. */
  lemma ExtractFilePathNoColon(uri: string)
    requires ':' !in uri
    ensures ExtractFilePath(uri) == uri
  {
    NotOccursWithout("file://", uri, 4);
    ReplaceAbsent(uri, "file://", "");
    SplitNoSeparator(uri, ':');
  }

  /** A `file://` URI whose path has no colon gives that path. */
  lemma ExtractFilePathOfFileUri(path: string)
    requires ':' !in path
    ensures ExtractFilePath("file://" + path) == path
  {
    ReplaceAtHead("file://", path, "");
    NotOccursWithout("file://", path, 4);
    ReplaceAbsent(path, "file://", "");
    assert "" + path == path;
    SplitNoSeparator(path, ':');
  }

  // ----- cfn-lint's report -----

  datatype Level = LevelError | LevelWarning | LevelInformation

  /** A 1-based line and column, as cfn-lint reports them. */
  datatype LintPosition = LintPosition(lineNumber: usize, columnNumber: usize)

  datatype LintLocation = LintLocation(start: LintPosition, end: LintPosition)

  datatype Rule = Rule(id: string, source: string)

  datatype LintDiagnostic = LintDiagnostic(id: string, level: Level, location: LintLocation, message: string, rule: Rule)

  // ----- Conversions -----

  /** Each level becomes the severity of the same name; `Hint` is never produced. */
  function SeverityOf(l: Level): (s: Severity)
    ensures !s.Hint?
    ensures SeverityValue(s) == match l case LevelError => 1 case LevelWarning => 2 case LevelInformation => 3
  {
    match l
    case LevelError => Error
    case LevelWarning => Warning
    case LevelInformation => Information
  }

  /** Different levels give different severities. */
  lemma SeverityOfInjective(a: Level, b: Level)
    ensures SeverityOf(a) == SeverityOf(b) <==> a == b
  {
  }

  /** `usize` subtraction of one, wrapping at zero as a release build does. */
  function Decrement(n: usize): (m: usize)
    ensures n >= 1 ==> m + 1 == n
    ensures n == 0 ==> m == USIZE_LIMIT - 1
  {
    if n == 0 then USIZE_LIMIT - 1 else n - 1
  }

  /** A 1-based position becomes 0-based by subtracting one from each coordinate. */
  function ConvertPosition(p: LintPosition): (q: Position)
    ensures p.lineNumber >= 1 ==> q.line + 1 == p.lineNumber
    ensures p.columnNumber >= 1 ==> q.character + 1 == p.columnNumber
  {
    Position(Decrement(p.lineNumber), Decrement(p.columnNumber))
  }

  /** The 1-based position a 0-based one came from. */
  function LintPositionOf(q: Position): LintPosition
    requires q.line + 1 < USIZE_LIMIT && q.character + 1 < USIZE_LIMIT
  {
    LintPosition(q.line + 1, q.character + 1)
  }

  /** Converting is undone by adding one back, for every position cfn-lint can report. */
  lemma ConvertPositionRoundTrip(p: LintPosition)
    requires p.lineNumber >= 1 && p.columnNumber >= 1
    ensures LintPositionOf(ConvertPosition(p)) == p
  {
  }

  /** A location becomes a range, each end converted on its own. */
  function RangeOf(l: LintLocation): (r: Range)
    ensures r.start == ConvertPosition(l.start) && r.end == ConvertPosition(l.end)
  {
    Range(ConvertPosition(l.start), ConvertPosition(l.end))
  }

  /**
   * A cfn-lint record becomes a diagnostic: the rule's id is the code, the
   * rule's `Source` is the code description's link, the `source` is
   * `cfn-lint`, and there are no tags, related information or data.
   */
  function ToDiagnostic(d: LintDiagnostic): (r: Diagnostic)
    ensures r.range == RangeOf(d.location) && r.severity == SeverityOf(d.level)
    ensures r.code == d.rule.id && r.codeDescription == Some(CodeDescription(d.rule.source))
    ensures r.source == Some(CfnLint) && r.message == d.message
    ensures r.tags == [] && r.relatedInformation == [] && r.data.None?
  {
    Diagnostic(RangeOf(d.location), SeverityOf(d.level), d.rule.id, Some(CodeDescription(d.rule.source)),
               Some(CfnLint), d.message, [], [], None)
  }

  /** Sent to the client, a converted record names cfn-lint as its source and the rule as its code. */
  lemma ToDiagnosticJson(d: LintDiagnostic)
    ensures Get(DiagnosticToJson(ToDiagnostic(d)), "source") == Some(JString("cfn-lint"))
    ensures Get(DiagnosticToJson(ToDiagnostic(d)), "code") == Some(JString(d.rule.id))
    ensures Get(DiagnosticToJson(ToDiagnostic(d)), "codeDescription") == Some(JObject(map["href" := JString(d.rule.source)]))
    ensures Get(DiagnosticToJson(ToDiagnostic(d)), "tags") == Some(JArray([]))
    ensures Get(DiagnosticToJson(ToDiagnostic(d)), "data") == Some(JNull)
  {
  }

  /** Every record converted, in order. */
  function ToDiagnostics(ds: seq<LintDiagnostic>): (r: seq<Diagnostic>)
    ensures |r| == |ds|
    ensures forall i | 0 <= i < |ds| :: r[i] == ToDiagnostic(ds[i])
  {
    seq(|ds|, i requires 0 <= i < |ds| => ToDiagnostic(ds[i]))
  }

  // ----- Decoding the report (member names in PascalCase) -----

  /** `DiagnosticLevel`: one of three capitalised names. */
  function DecodeLevel(j: Json): (r: Option<Level>)
    ensures r == Some(LevelError) <==> j == JString("Error")
    ensures r == Some(LevelWarning) <==> j == JString("Warning")
    ensures r == Some(LevelInformation) <==> j == JString("Information")
    ensures r.Some? <==> j in {JString("Error"), JString("Warning"), JString("Information")}
  {
    if j == JString("Error") then Some(LevelError)
    else if j == JString("Warning") then Some(LevelWarning)
    else if j == JString("Information") then Some(LevelInformation)
    else None
  }

  /** A position: `LineNumber` and `ColumnNumber`, both `usize`. */
  function DecodeLintPosition(j: Json): (r: Option<LintPosition>)
    ensures r.Some? <==> Decodes(j, "LineNumber", DecodeUsize) && Decodes(j, "ColumnNumber", DecodeUsize)
    ensures r.Some? ==>
      Member(j, "LineNumber", DecodeUsize, r.value.lineNumber) && Member(j, "ColumnNumber", DecodeUsize, r.value.columnNumber)
  {
    match (Required(j, "LineNumber", DecodeUsize), Required(j, "ColumnNumber", DecodeUsize))
    case (Some(line), Some(column)) => Some(LintPosition(line, column))
    case _ => None
  }

  /** A location: positions `Start` and `End`. */
  function DecodeLintLocation(j: Json): (r: Option<LintLocation>)
    ensures r.Some? <==> Decodes(j, "Start", DecodeLintPosition) && Decodes(j, "End", DecodeLintPosition)
    ensures r.Some? ==>
      Member(j, "Start", DecodeLintPosition, r.value.start) && Member(j, "End", DecodeLintPosition, r.value.end)
  {
    match (Required(j, "Start", DecodeLintPosition), Required(j, "End", DecodeLintPosition))
    case (Some(start), Some(end)) => Some(LintLocation(start, end))
    case _ => None
  }

  /** A rule: strings `Id` and `Source`. */
  function DecodeRule(j: Json): (r: Option<Rule>)
    ensures r.Some? <==> Decodes(j, "Id", DecodeString) && Decodes(j, "Source", DecodeString)
    ensures r.Some? ==> Member(j, "Id", DecodeString, r.value.id) && Member(j, "Source", DecodeString, r.value.source)
  {
    match (Required(j, "Id", DecodeString), Required(j, "Source", DecodeString))
    case (Some(id), Some(source)) => Some(Rule(id, source))
    case _ => None
  }

  /** A record: `Id`, `Level`, `Location`, `Message` and `Rule`, all required. */
  function DecodeLintDiagnostic(j: Json): (r: Option<LintDiagnostic>)
    ensures r.Some? <==>
      Decodes(j, "Id", DecodeString) && Decodes(j, "Level", DecodeLevel) && Decodes(j, "Location", DecodeLintLocation)
      && Decodes(j, "Message", DecodeString) && Decodes(j, "Rule", DecodeRule)
    ensures r.Some? ==>
      Member(j, "Id", DecodeString, r.value.id) && Member(j, "Level", DecodeLevel, r.value.level)
      && Member(j, "Location", DecodeLintLocation, r.value.location) && Member(j, "Message", DecodeString, r.value.message)
      && Member(j, "Rule", DecodeRule, r.value.rule)
  {
    match (Required(j, "Id", DecodeString), Required(j, "Level", DecodeLevel), Required(j, "Location", DecodeLintLocation),
           Required(j, "Message", DecodeString), Required(j, "Rule", DecodeRule))
    case (Some(id), Some(level), Some(location), Some(message), Some(rule)) =>
      Some(LintDiagnostic(id, level, location, message, rule))
    case _ => None
  }

  /** The report: an array of records, every one of which must decode. */
  function DecodeReport(j: Json): (r: Option<seq<LintDiagnostic>>)
    ensures r.Some? <==> j.JArray? && forall i | 0 <= i < |j.items| :: DecodeLintDiagnostic(j.items[i]).Some?
    ensures r.Some? ==> |r.value| == |j.items|
    ensures r.Some? ==> forall i | 0 <= i < |j.items| :: DecodeLintDiagnostic(j.items[i]) == Some(r.value[i])
  {
    if j.JArray? then DecodeAll(j.items, DecodeLintDiagnostic) else None
  }

  // ----- Running the linter -----

  /** Why linting failed; `lint` keeps a message for each. */
  datatype LintError = SpawnFailed | NotUtf8 | UnexpectedStructure

  /** What the finished subprocess gives back. */
  datatype Output = Output(success: bool, stdout: seq<byte>)

  /**
   * `CfnLinter::lint`. `execute` runs cfn-lint on a path (`None` when it
   * cannot be started), `utf8` decodes bytes as UTF-8 and `parseJson` reads
   * JSON text. A successful exit means no findings; otherwise the output
   * must be UTF-8 JSON holding an array of records, which are converted in
   * order.
   */
  function CfnLintRun(uri: string, execute: string -> Option<Output>, utf8: seq<byte> -> Option<string>,
                      parseJson: string -> Option<Json>): (r: Result<seq<Diagnostic>, LintError>)
    ensures execute(ExtractFilePath(uri)).None? <==> r == Err(SpawnFailed)
    ensures execute(ExtractFilePath(uri)).Some? && execute(ExtractFilePath(uri)).value.success ==> r == Ok([])
    ensures r == Err(NotUtf8) <==>
      var o := execute(ExtractFilePath(uri));
      o.Some? && !o.value.success && utf8(o.value.stdout).None?
    ensures r == Err(UnexpectedStructure) <==>
      var o := execute(ExtractFilePath(uri));
      o.Some? && !o.value.success && utf8(o.value.stdout).Some?
      && (parseJson(utf8(o.value.stdout).value).None? || DecodeReport(parseJson(utf8(o.value.stdout).value).value).None?)
    ensures
      var o := execute(ExtractFilePath(uri));
      o.Some? && !o.value.success && utf8(o.value.stdout).Some? && parseJson(utf8(o.value.stdout).value).Some?
      && DecodeReport(parseJson(utf8(o.value.stdout).value).value).Some? ==>
      r == Ok(ToDiagnostics(DecodeReport(parseJson(utf8(o.value.stdout).value).value).value))
    ensures r.Ok? && !execute(ExtractFilePath(uri)).value.success ==>
      var text := utf8(execute(ExtractFilePath(uri)).value.stdout);
      text.Some? && parseJson(text.value).Some? && DecodeReport(parseJson(text.value).value).Some?
      && r.value == ToDiagnostics(DecodeReport(parseJson(text.value).value).value)
  {
    match execute(ExtractFilePath(uri))
    case None => Err(SpawnFailed)
    case Some(output) =>
      if output.success then Ok([])
      else
        match utf8(output.stdout)
        case None => Err(NotUtf8)
        case Some(text) =>
          match parseJson(text)
          case None => Err(UnexpectedStructure)
          case Some(j) =>
            match DecodeReport(j)
            case None => Err(UnexpectedStructure)
            case Some(records) => Ok(ToDiagnostics(records))
  }
}
