# cfn-lsp core, modelled in Dafny

cfn-lsp is a Language Server Protocol server for AWS CloudFormation
templates. It reads JSON-RPC 2.0 messages from the client, framed by a
`Content-Length` header block. It answers each one according to its
lifecycle state (uninitialised, initialised, shut down). It produces
diagnostics by running the external `cfn-lint` tool on the document, and it
frames each response the same way on the way out.

The model has one Dafny module per part of the core:

- `Reader` (`reader.dfy`): the header grammar of `parse::headers` as
  byte-level parser functions, proved to accept exactly the three header
  blocks the grammar allows (`HeadersExactly`). The read loop is the class
  `Reader.Input`: a cursor over the input, with methods `ReadLine`,
  `ReadHeaderBlock`, `ReadBody` and `Read`. Each method is proved against
  the framing function `FrameAt` and the whole read `ReadFrom`. A failed
  read's error response is `ErrorToResponse`.
- `Writer` (`writer.dfy`): the class `Writer.Writer`, whose output stream
  is a `seq` field and whose four writes may each fail. It is proved
  against `Emitted` and `WriteResult`. The read-back lemmas end in
  `WriteThenRead`: wherever a written frame stands in the input, `read`
  yields its body and stops just after it.
- `Handler` (`handler.dfy`): the class `Handler.MessageHandler`, whose
  `state` field is updated in place. Its methods are proved equal to the
  specification functions `RequestStep`, `BatchStep` (a batch is a left fold over
  the state), `NotificationReaction` and `Step`.
- `Envelope`, `Methods`, `Initialisation` and `Diagnostics`: the message
  types of `src/model.rs` and `src/model/method*`. Each decoder is paired
  with an encoder and round-trip lemmas.
- `Lint` (`lint.dfy`): `CfnLinter::lint`. The subprocess, UTF-8 decoding
  and JSON parsing are function parameters.
- `Text`, `Json` and `Wrappers`: Rust standard-library behaviour the core
  relies on (`{}` formatting, `str::parse`, `str::replace`, `str::split`),
  an abstract JSON value with RFC 6901 pointers, and `Option`/`Result`.

JSON text itself is not modelled. Parsing a body and serialising a response
are function parameters (`parse`, `encode`) from bytes to a JSON value and
back.

`src/handler.rs` and `src/reader.rs` use the `ErrorCode` enum (with
`ParseError` and `ServerAlreadyInitialised`), the `ErrorResponse` and
`SuccessResponse` responses, `ResponseResult`, and the notifications
`didOpen`, `didSave`, `didChange` and `publishDiagnostics`. `src/model.rs`
and `src/model/method.rs` at lines 117-131 and 18-26 declare an
`ErrorType` enum and only the `exit` and `initialized` notifications. The
model follows the `ErrorCode` API that `src/handler.rs` and `src/reader.rs`
use, and:

- gives the document notifications their LSP method names
  (`textDocument/didOpen`, `textDocument/didSave`, `textDocument/didChange`);
- gives `ServerAlreadyInitialised` the code -32003.

cfn-lsp departs from the standards it follows in four ways, and the model
keeps each:

- LSP lets a pull-diagnostics reply be an unchanged report; cfn-lsp always
  sends a full report with result id `"result"`;
- LSP has the server exit, with status 1, on an `exit` not preceded by
  `shutdown`; cfn-lsp ignores `exit` while initialised and exits with
  status 0 before initialisation;
- JSON-RPC 2.0 calls an empty batch an invalid request; cfn-lsp accepts `[]`
  as an empty batch;
- JSON-RPC 2.0 asks for the request's id in the error response whenever it
  can be detected; cfn-lsp always answers an invalid request with id `null`.

The last point holds because the id is looked up with the pointer `"id"`,
which lacks the leading `/` (`Reader.RequestIdOfIsNull`).

## Model

| member | source | states |
|---|---|---|
| Text.Ascii | src/writer.rs:8 | a protocol literal is written one byte per character, same length |
| Text.Decimal | src/writer.rs:69-71 | `{}` formatting of a length: non-empty decimal digits, no leading zero, whose value is the number |
| Text.ParseUsize | src/reader.rs:128-131 | on text with no sign, `str::parse::<usize>` accepts exactly a non-empty digit run whose value fits 64 bits, and yields that value |
| Text.DecimalParses | src/writer.rs:69-71 | parsing the formatted length gives the length back |
| Text.ReplaceAtHead | src/method/diagnostic.rs:58 | `replace` rewrites an occurrence at the start and goes on after it |
| Text.ReplaceAbsent | src/method/diagnostic.rs:58 | `replace` leaves text without the pattern unchanged |
| Text.Replace | src/method/diagnostic.rs:58 | `replace` introduces no character absent from input and replacement |
| Text.Split | src/method/diagnostic.rs:59 | `split(":")` gives at least one piece, none containing `:`, and joining them gives the text back |
| Text.SplitNoSeparator | src/method/diagnostic.rs:59 | text without the separator is one piece |
| Text.SplitAfterPiece | src/method/diagnostic.rs:59 | a separator-free first piece is split off whole |
| Text.SplitJoin | src/method/diagnostic.rs:59 | splitting undoes joining separator-free pieces |
| Text.JoinLast | src/method/diagnostic.rs:59 | joining ends with the separator and the last piece |
| Text.LastPiece | src/method/diagnostic.rs:59 | `split(":").last()` is the longest separator-free suffix: all of the text or what follows a separator |
| Json.DecodeAll | src/model/method/initialise.rs:17 | a `Vec` decodes iff every element does; the elements keep their order |
| Json.EncodeAll | src/model/method/initialise.rs:17 | the elements encoded one by one, in order |
| Json.DecodeAllEncodeAll | src/model/method/initialise.rs:17 | decoding undoes encoding for a whole sequence when it does for each element |
| Json.Required | src/model/method/initialise.rs:13 | a required field decodes iff the member is present and decodes |
| Json.Optional | src/model/method/initialise.rs:7 | an `Option` field that is missing or `null` is `None` |
| Json.OptionalOrNull | src/model/method/initialise.rs:7 | an optional field written with `null` for `None` reads back as itself |
| Json.Pointer | src/reader.rs:93-96 | the empty pointer selects the whole value; a non-empty pointer not starting with `/` selects nothing |
| Json.PointerToMember | src/reader.rs:93-96 | `/key` selects exactly the member `key` |
| Diagnostics.SeverityValue | src/model/method/diagnostic.rs:110-128 | severities are sent as 1 to 4 and each number reads back as its severity |
| Diagnostics.SeverityFromValue | src/model/method/diagnostic.rs:102-119 | exactly 1 to 4 name a severity |
| Diagnostics.SeverityValueInjective | src/model/method/diagnostic.rs:110-119 | different severities are sent as different numbers |
| Diagnostics.TagValue | src/model/method/diagnostic.rs:147-163 | tags are sent as 1 or 2 and read back |
| Diagnostics.TagFromValue | src/model/method/diagnostic.rs:141-154 | exactly 1 and 2 name a tag |
| Diagnostics.KindName | src/model/method/diagnostic/pull.rs:58-64 | a report kind is sent by its lower-case name, which reads back as the kind |
| Diagnostics.KindFromName | src/model/method/diagnostic/pull.rs:58-64 | exactly `full` and `unchanged` name a kind |
| Diagnostics.MakeFull | src/model/method/diagnostic/pull.rs:42-48 | a full report, kind `full`, with the given result id and items in order |
| Diagnostics.MakeUnchanged | src/model/method/diagnostic/pull.rs:50-55 | an unchanged report, kind `unchanged`, with the given result id |
| Diagnostics.DiagnosticToJson | src/model/method/diagnostic.rs:64-76 | a diagnostic's severity, tags and data as written on the wire |
| Diagnostics.ReportToJson | src/model/method/diagnostic/pull.rs:26-39 | the untagged report: kind, `result_id`, and `items` present exactly for a full report |
| Diagnostics.DecodeDocumentUri | src/model/method/diagnostic/pull.rs:21-25 | decodes iff `uri` is a string; the uri is that member |
| Diagnostics.DecodePullParams | src/model/method/diagnostic/pull.rs:5-19 | decodes iff `textDocument` decodes and `identifier` and `previousResultId` are each absent, `null` or a string; the fields are those members, a missing one `None` |
| Diagnostics.PullParamsToJson | src/model/method/diagnostic/pull.rs:5-25 | written pull parameters decode back to themselves |
| Initialisation.DecodeTrace | src/model/method/initialise.rs:56-63 | a trace value is one of its three lower-case names |
| Initialisation.DecodeClientInfo | src/model/method/initialise.rs:20-25 | decodes iff `name` is a string and `version` is absent, `null` or a string; the fields are those members |
| Initialisation.DecodeDiagnosticCapabilities | src/model/method/initialise.rs:41-47 | decodes iff the value is an object whose `dynamicRegistration` and `relatedDocumentSupport` are each absent, `null` or a boolean; the fields are those members |
| Initialisation.DecodeTextDocumentCapabilities | src/model/method/initialise.rs:35-39 | decodes iff the value is an object whose `diagnostic` is absent, `null` or diagnostic capabilities |
| Initialisation.DecodePositionEncoding | src/model/method/initialise.rs:93-98 | exactly the string `utf-16` is a position encoding |
| Initialisation.DecodePositionEncodings | src/model/method/initialise.rs:49-54 | decodes iff the value is an array of position encodings; one per element |
| Initialisation.DecodeGeneralCapabilities | src/model/method/initialise.rs:49-54 | decodes iff the value is an object whose `positionEncodings` is absent, `null` or a list of encodings |
| Initialisation.DecodeClientCapabilities | src/model/method/initialise.rs:27-33 | decodes iff the value is an object whose `textDocument` and `general` are each absent, `null` or decode; the fields are those members |
| Initialisation.DecodeTraceField | src/model/method/initialise.rs:14-15 | a missing `trace` is `off`, a present one must be a trace name, and `null` is refused |
| Initialisation.DecodeWorkspaceFolder | src/model/method/initialise.rs:71-76 | decodes iff `uri` and `name` are strings; the fields are those members |
| Initialisation.DecodeWorkspaceFolders | src/model/method/initialise.rs:16-17 | decodes iff the value is an array of workspace folders; element `i` is folder `i` |
| Initialisation.DecodeParams | src/model/method/initialise.rs:3-18 | decodes iff `capabilities` decodes, `trace` is missing or a trace name, and each optional field is absent, `null` or decodes; every field is its member, a missing `trace` is `off` |
| Initialisation.ClientInfoToJson | src/model/method/initialise.rs:20-25 | client info round-trips |
| Initialisation.DiagnosticCapabilitiesToJson | src/model/method/initialise.rs:41-47 | diagnostic capabilities round-trip |
| Initialisation.TextDocumentCapabilitiesToJson | src/model/method/initialise.rs:35-39 | text document capabilities round-trip |
| Initialisation.PositionEncodingToJson | src/model/method/initialise.rs:93-98 | `utf-16` round-trips |
| Initialisation.PositionEncodingsToJson | src/model/method/initialise.rs:49-54 | a list of position encodings round-trips |
| Initialisation.GeneralCapabilitiesToJson | src/model/method/initialise.rs:49-54 | general capabilities round-trip |
| Initialisation.ClientCapabilitiesToJson | src/model/method/initialise.rs:27-33 | client capabilities round-trip |
| Initialisation.WorkspaceFolderToJson | src/model/method/initialise.rs:71-76 | a workspace folder round-trips |
| Initialisation.WorkspaceFoldersToJson | src/model/method/initialise.rs:16-17 | a list of workspace folders round-trips |
| Initialisation.DecodeParamsFields | src/model/method/initialise.rs:3-18 | the parameters are decoded field by field, each by its own decoder |
| Initialisation.ParamsMembers | src/model/method/initialise.rs:3-18 | each field is written under its renamed key, absent options as `null` |
| Initialisation.ParamsToJson | src/model/method/initialise.rs:3-18 | written initialisation parameters decode back to themselves |
| Initialisation.DefaultResult | src/model/method/initialise.rs:78-168 | the default result: UTF-16, open/close with full sync, pull diagnostics under the package name, the package name and version |
| Initialisation.DefaultResultJson | src/model/method/initialise.rs:78-168 | the same default result as it appears on the wire, member by member |
| Initialisation.ResultToJson | src/model/method/initialise.rs:78-159 | the result on the wire: the position encoding, `openClose` and the sync kind's variant name, the diagnostic options under their camelCase names, and the server name and version; each object has exactly the members of its struct |
| Initialisation.SyncKindName | src/model/method/initialise.rs:121-128 | each sync kind is written as its own variant name, `None`, `Incremental` or `Full` |
| Initialisation.DefaultError | src/model/method/initialise.rs:170-173 | the default error does not ask for a retry |
| Initialisation.ErrorToValue | src/model/method/initialise.rs:175-180 | the error value is an object with the single member `retry` |
| Methods.DecodeDidOpenDocument | src/model/method/did_open.rs:16-24 | decodes iff `uri`, `languageId`, `version` and `text` all decode; the fields are those members |
| Methods.DecodeDidOpen | src/model/method/did_open.rs:3-8 | decodes iff `textDocument` is a document item; the uri and version are its members |
| Methods.DecodeDidChangeDocument | src/model/method/did_change.rs:16-21 | decodes iff `uri` and `version` decode; the fields are those members |
| Methods.DecodeDidChange | src/model/method/did_change.rs:3-8 | decodes iff `textDocument` is a versioned identifier; the uri and version are its members |
| Methods.DecodeDidSaveDocument | src/model/method/did_save.rs:16-20 | decodes iff `uri` is a string; it is the uri |
| Methods.DecodeDidSave | src/model/method/did_save.rs:3-8 | decodes iff `textDocument` is a document identifier; the uri is its member |
| Methods.DecodeRequestMethod | src/model/method.rs:6-16 | a request method is selected by its exact `method` tag; for each tag it decodes iff its `params` decode (for `shutdown`: are absent or `null`), and carries those params |
| Methods.DecodeNotificationMethod | src/model/method.rs:18-26 | a notification method is selected by its tag; `publishDiagnostics` is never accepted; for each other tag it decodes iff its `params` decode (unit variants: are absent or `null`), and carries those params |
| Methods.RequestMethodRoundTrip | src/model/method.rs:6-16 | every request method written with its tag and params decodes back to itself |
| Methods.NotificationMethodRoundTrip | src/model/method.rs:18-26 | every inbound notification method decodes back to itself |
| Methods.TagsDisjoint | src/model/method.rs:6-26 | no tag names both a request and a notification |
| Envelope.DecodeRequestId | src/model.rs:15-22 | an id is a string, a `u32` number or `null`, and nothing else |
| Envelope.RequestIdToJson | src/model.rs:15-22 | every id round-trips |
| Envelope.Code | src/model.rs:117-131 | each error code is sent as a number that reads back as that code |
| Envelope.CodeMeaning | src/model.rs:117-131 | exactly -32700, -32600, -32603, -32002 and -32003 name codes |
| Envelope.CodesDistinct | src/model.rs:117-131 | different codes are sent as different numbers |
| Envelope.NewError | src/model.rs:107-115 | an error object carries its code and message and no data |
| Envelope.ErrorToJson | src/model.rs:100-105 | the error object's code, message and data (`null` when absent) on the wire |
| Envelope.ResponseToJson | src/model.rs:66-98 | success and error responses carry `jsonrpc` 2.0 and their id, and exactly one of `result` and `error`; a batch is the array of its responses in order |
| Envelope.DecodeRequest | src/model.rs:33-50 | a request decodes iff it has version 2.0, a valid `id` and a request method; the id is kept |
| Envelope.DecodeNotification | src/model.rs:52-64 | a notification decodes iff it has version 2.0 and a notification method |
| Envelope.DecodeMessage | src/model.rs:24-31 | the untagged message, variants tried in order: a value that decodes as a request is that request; else an array whose items all decode as requests is that batch; else a non-array that decodes as a notification is that notification; else nothing. A request needs an `id`; responses are never read |
| Envelope.EmptyObjectIsNoMessage | src/model.rs:162-166 | `{}` is not a message |
| Envelope.RequestRoundTrip | src/model.rs:33-50 | a written request decodes back to itself |
| Envelope.RequestMessageRoundTrip | src/model.rs:24-50 | a written request is read as that request message |
| Envelope.NotificationMessageRoundTrip | src/model.rs:24-64 | a written notification is read as that notification message |
| Envelope.BatchRoundTrip | src/model.rs:24-31 | an array of written requests is read as the batch of those requests, in order |
| Lint.ExtractFilePath | src/method/diagnostic.rs:57-61 | the path is the last `:`-free piece after removing every `file://` |
| Lint.ExtractFilePathNoColon | src/method/diagnostic.rs:57-61 | a URI without `:` is kept as it is |
| Lint.ExtractFilePathOfFileUri | src/method/diagnostic.rs:57-61 | `file://` followed by a colon-free path gives that path |
| Lint.SeverityOf | src/method/diagnostic.rs:84-92 | error, warning and information map to severities 1, 2 and 3; never a hint |
| Lint.SeverityOfInjective | src/method/diagnostic.rs:84-92 | different levels give different severities |
| Lint.Decrement | src/method/diagnostic.rs:117-121 | `usize` minus one, wrapping to 2^64-1 at zero |
| Lint.ConvertPosition | src/method/diagnostic.rs:117-121 | 1-based line and column become 0-based |
| Lint.ConvertPositionRoundTrip | src/method/diagnostic.rs:117-121 | adding one back gives the reported position |
| Lint.RangeOf | src/method/diagnostic.rs:101-108 | each end of the location is converted on its own |
| Lint.ToDiagnostic | src/method/diagnostic.rs:130-143 | rule id as code, rule source as link, `cfn-lint` as source, the message, no tags, related information or data |
| Lint.ToDiagnosticJson | src/method/diagnostic.rs:130-143 | the converted diagnostic on the wire names cfn-lint and the rule |
| Lint.ToDiagnostics | src/method/diagnostic.rs:43 | every record converted, in order |
| Lint.DecodeLevel | src/method/diagnostic.rs:77-82 | exactly `Error`, `Warning` and `Information` name levels, each its own |
| Lint.DecodeLintPosition | src/method/diagnostic.rs:110-115 | decodes iff `LineNumber` and `ColumnNumber` are `usize`; the fields are those members |
| Lint.DecodeLintLocation | src/method/diagnostic.rs:94-99 | decodes iff `Start` and `End` are positions; the fields are those members |
| Lint.DecodeRule | src/method/diagnostic.rs:123-128 | decodes iff `Id` and `Source` are strings; the fields are those members |
| Lint.DecodeLintDiagnostic | src/method/diagnostic.rs:67-75 | decodes iff `Id`, `Level`, `Location`, `Message` and `Rule` all decode; the fields are those members |
| Lint.DecodeReport | src/method/diagnostic.rs:39-42 | the report decodes iff it is an array whose every record decodes; order kept |
| Lint.CfnLintRun | src/method/diagnostic.rs:27-46 | exactly a spawn failure is `SpawnFailed`; a successful exit gives no diagnostics; otherwise exactly non-UTF-8 output is `NotUtf8`, exactly output that is not JSON records is `UnexpectedStructure`, and JSON records give `Ok` with the records converted in order |
| Reader.Tag | src/reader.rs:129 | `tag` succeeds iff the input starts with the tag, and yields what follows it |
| Reader.TagSplits | src/reader.rs:129 | the input is the tag followed by what `tag` yields |
| Reader.TagOf | src/reader.rs:129 | the tag followed by anything yields that rest |
| Reader.DigitRun | src/reader.rs:129 | the leading digits, followed by a non-digit or the end |
| Reader.DigitRunOf | src/reader.rs:129 | digits followed by a non-digit are exactly the run |
| Reader.Digit1 | src/reader.rs:129 | `digit1` succeeds iff the input starts with a digit; it takes the whole digit run |
| Reader.Digit1Splits | src/reader.rs:129 | the input is the digits followed by the rest |
| Reader.Digit1Of | src/reader.rs:129 | digits followed by a non-digit are taken whole |
| Reader.FindByte | src/reader.rs:135 | the first index of a byte, or none when absent |
| Reader.FindByteOf | src/reader.rs:135 | the first occurrence is the one found |
| Reader.FindCrlf | src/reader.rs:134 | the first CR LF, or none when absent |
| Reader.FindCrlfOf | src/reader.rs:134 | the first CR LF is the one found |
| Reader.TakeUntilSemicolon | src/reader.rs:135 | `take_until1(";")` takes a non-empty text without `;` |
| Reader.TakeUntilSemicolonSplits | src/reader.rs:135 | the input is the text taken followed by the rest |
| Reader.TakeUntilSemicolonOf | src/reader.rs:135 | a `;`-free text followed by `;` is taken whole |
| Reader.TakeUntilCrlf | src/reader.rs:134 | `take_until1("\r\n")` takes a non-empty text without CR LF |
| Reader.TakeUntilCrlfSplits | src/reader.rs:134 | the input is the text taken followed by a rest starting with CR LF |
| Reader.TakeUntilCrlfOf | src/reader.rs:134 | a CR LF-free text followed by CR LF is taken whole |
| Reader.ContentLengthHeader | src/reader.rs:128-131 | the header parser consumes input |
| Reader.ContentLengthHeaderShape | src/reader.rs:128-131 | what it accepts is a `Content-Length` line whose digits parse to the value, then the rest |
| Reader.ContentLengthHeaderAccepts | src/reader.rs:128-131 | every `Content-Length` line with a valid length is read back as its value |
| Reader.ContentTypeHeader | src/reader.rs:133-139 | the content type read has a non-empty `;`-free type and a non-empty charset |
| Reader.ContentTypeHeaderShape | src/reader.rs:133-139 | what it accepts is the `Content-Type` line for the content type it yields, then the rest |
| Reader.ContentTypeHeaderAccepts | src/reader.rs:133-139 | every valid `Content-Type` line is read back as its content type |
| Reader.Finish | src/reader.rs:115-118 | the headers are accepted iff exactly CR LF remains, with the parsed length and content type; else `MalformedHeaders` |
| Reader.DefaultContentType | src/reader.rs:120 | the default content type is one a `Content-Type` header could carry |
| Reader.ParseHeaders | src/reader.rs:114-126 | every failure is `MalformedHeaders` |
| Reader.ContentLengthRejectsContentType | src/reader.rs:128-131 | a `Content-Type` line is not a `Content-Length` line |
| Reader.ContentTypeRejectsBlankLine | src/reader.rs:133-139 | the blank line is not a `Content-Type` line |
| Reader.HeadersLengthOnly | src/reader.rs:114-126 | a length line alone gives the default content type |
| Reader.HeadersLengthThenType | src/reader.rs:114-126 | length then type is accepted |
| Reader.HeadersTypeThenLength | src/reader.rs:114-126 | type then length is accepted (`permutation`) |
| Reader.HeadersComplete | src/reader.rs:114-126 | every header block of the grammar is parsed as what it announces |
| Reader.SoundLengthOnly | src/reader.rs:114-126 | a parse of the length line alone is a header block |
| Reader.SoundLengthThenType | src/reader.rs:114-126 | a parse of length then type is a header block |
| Reader.SoundTypeThenLength | src/reader.rs:114-126 | a parse of type then length is a header block |
| Reader.HeadersSound | src/reader.rs:114-126 | whatever is parsed is a header block announcing the parsed headers |
| Reader.HeadersExactly | src/reader.rs:114-126 | `parse::headers` yields `h` iff the input is one of the three header blocks announcing `h` |
| Reader.BlankLineAtBuffer | src/reader.rs:61 | the end-of-headers test on the buffer is the test on the input prefix |
| Reader.HeaderEndFrom | src/reader.rs:57-64 | the search finds a prefix ending with an empty line |
| Reader.HeaderEndFromIsFirst | src/reader.rs:57-64 | it finds the first such prefix, and none only when there is none |
| Reader.HeaderEndSkips | src/reader.rs:57-64 | positions that end no block do not change the search |
| Reader.HeaderEnd | src/reader.rs:57-64 | the header block found ends with an empty line and no earlier prefix does; none is found only when no prefix ends with one |
| Reader.HeaderEndAt | src/reader.rs:57-64 | the header block ends at the first empty line |
| Reader.LineEnd | src/reader.rs:58-60 | `read_line` reads up to and including the next line feed, or to the end |
| Reader.InsideLine | src/reader.rs:57-64 | no header block ends strictly inside a line |
| Reader.RequestIdOf | src/reader.rs:87-98 | an id other than `null` is what the pointer `"id"` selects, decoded |
| Reader.RequestIdOfIsNull | src/reader.rs:87-98 | the id recovered for an invalid request is always `null` |
| Reader.DecodeBody | src/reader.rs:76-98 | a body is a message iff it parses and decodes; else a parse error iff it is not JSON, else an invalid request; both with id `null` |
| Reader.FrameAt | src/reader.rs:52-74 | the input ends before an empty line iff there is no header end; parse failures are `MalformedHeaders` |
| Reader.AfterHeaders | src/reader.rs:66-74 | the body is exactly the `Content-Length` bytes after the header block, and it is read whenever the input holds them; else a read failure |
| Reader.Classify | src/reader.rs:76-84 | an unterminated input is the endless read; a broken frame is its error |
| Reader.ReadFrom | src/reader.rs:52-85 | `read` loops forever iff no empty line follows; it never reports an invalid content type |
| Reader.Input.constructor | src/reader.rs:52-55 | the cursor starts at the beginning of the input |
| Reader.Input.ReadLine | src/reader.rs:58-60 | reads the next line, line feed included |
| Reader.Input.ReadExact | src/reader.rs:72-74 | reads exactly `n` bytes, or fails at the end of input |
| Reader.Input.ReadHeaderBlock | src/reader.rs:56-64 | the loop reads up to the first empty line, or to the end |
| Reader.Input.ReadBody | src/reader.rs:66-74 | reads the body its headers announce |
| Reader.Input.ReadFrame | src/reader.rs:56-74 | equals `FrameAt` on the input and the cursor |
| Reader.Input.Read | src/reader.rs:52-85 | equals `ReadFrom` on the input and the cursor |
| Reader.ErrorToResponse | src/reader.rs:21-50 | header and content-type errors answer id `null` with InvalidRequest, "Malformed headers" and "Invalid content type '…'"; invalid requests answer their id and code, "Invalid JSON" or "Invalid request"; internal errors and other codes have no response |
| Reader.ReadFailuresAnswered | src/reader.rs:21-85 | every failed read other than an input failure has an error response, with id `null` |
| Writer.ContentTypeTextIsDefault | src/writer.rs:8 | the fixed text names the default content type and charset |
| Writer.ContentTypeHeaderIsDefault | src/writer.rs:8 | the fixed header line is the reader's line for the default content type |
| Writer.ContentTypeTextNoBreak | src/writer.rs:8 | the fixed text has no line feed |
| Writer.ContentLengthHeader | src/writer.rs:69-71 | the length line is the reader's `Content-Length` line for the formatted length |
| Writer.Frame | src/writer.rs:37-45 | the frame ends with the body, after a non-empty header block |
| Writer.FirstFailure | src/writer.rs:47-67 | the writes before the first failing one all succeed |
| Writer.EmittedSteps | src/writer.rs:40-67 | length line, content-type line, blank line, body, in that order: each write adds its own bytes; the first three make the header block |
| Writer.StepBytes | src/writer.rs:40-67 | the four writes put out the reader's `Content-Length` line for the body length, its `Content-Type` line for the default type, an empty line and the body |
| Writer.StepFailure | src/writer.rs:41-64 | a failing write's message starts `Failed to write ` and ends ` to stdout` |
| Writer.StepFailureDistinct | src/writer.rs:41-64 | each of the four writes fails with a message of its own |
| Writer.HeaderBlock | src/writer.rs:47-67 | the header block is 77 bytes plus the digits of the body length |
| Writer.StepsComplete | src/writer.rs:37-67 | every write is one of the four |
| Writer.Emitted | src/writer.rs:37-67 | what the first writes put out is a start of the frame, never other bytes; all four put out the frame |
| Writer.FrameResult | src/writer.rs:37-67 | `write` succeeds iff no write fails |
| Writer.WriteResult | src/writer.rs:37-45 | an unserialisable response writes nothing and fails; success writes the whole frame of the serialised text |
| Writer.Writer.constructor | src/writer.rs:33-35 | nothing written yet |
| Writer.Writer.Put | src/writer.rs:41-43 | a write appends its bytes unless it fails |
| Writer.Writer.Write | src/writer.rs:37-45 | appends what `WriteResult` says and returns its result |
| Writer.Writer.WriteFrame | src/writer.rs:40-67 | appends the writes up to the first failure and returns that failure |
| Writer.BlankLineOnlyAtEnd | src/writer.rs:47-67 | the written header block's only empty line is at its end |
| Writer.HeaderBlockParses | src/writer.rs:47-67 | the written header block parses as the body length and default content type |
| Writer.HeaderBlockEnds | src/writer.rs:47-67 | the reader stops reading headers exactly at the end of the written block |
| Writer.FrameSplits | src/writer.rs:37-45 | the input holds a frame iff it holds its header block and then its body |
| Writer.BlockPrefix | src/reader.rs:57-64 | the buffered part of a header block is its start |
| Writer.BlockEnds | src/reader.rs:57-64 | a block whose first empty line is its end is where reading headers stops |
| Writer.BlockEndsInPlace | src/reader.rs:57-64 | where headers end does not depend on where the block stands in the input |
| Writer.FrameOfBlock | src/reader.rs:52-74 | a parsed block followed by the announced bytes frames exactly those bytes |
| Writer.FrameAtBlock | src/reader.rs:66-74 | once the block end is known, framing continues with the body |
| Writer.BodyAfterHeaders | src/reader.rs:70-74 | headers announcing the following body frame that body |
| Writer.HeaderEndInPlace | src/writer.rs:47-67 | a written frame in the input: headers are read up to its body |
| Writer.HeadersInPlace | src/writer.rs:47-67 | a written frame in the input: its header block parses as announcing the body |
| Writer.FrameInPlace | src/writer.rs:37-67 | a written frame in the input: block end, parsed headers and body together |
| Writer.FrameReadsBack | src/writer.rs:37-67 | the reader frames a written frame as exactly its body, wherever it stands |
| Writer.WriteThenRead | src/writer.rs:37-45 | `read` on a written frame yields its body decoded and stops just after it |
| Handler.UninitialisedRequest | src/handler.rs:162-169 | error ServerNotInitialised, "Server not initialised", for the request's id |
| Handler.AlreadyInitialised | src/handler.rs:171-178 | error ServerAlreadyInitialised, "Server already initialised", for the request's id |
| Handler.RequestPostShutdown | src/handler.rs:180-183 | error InvalidRequest, "Server has been shutdown", for the request's id |
| Handler.DiagnosticsReply | src/handler.rs:117-138 | success iff linting succeeds: a full report, result id `"result"`, the linter's diagnostics; else internal error "Failed to generate diagnostics" |
| Handler.PublishNotification | src/handler.rs:140-154 | a publishDiagnostics notification iff linting succeeds, with the URI, version and diagnostics |
| Handler.RequestStep | src/handler.rs:56-71 | the response answers the request's id. Only initialise-when-uninitialised and shutdown-when-initialised change the state. Success iff one of those or a lint that succeeds. A pull-diagnostics request when initialised is the diagnostics reply, state unchanged. The error for each other case. The state only moves forward |
| Handler.BatchStep | src/handler.rs:47-54 | one response per request, in order, each answering its request's id; the state only moves forward |
| Handler.NotificationReaction | src/handler.rs:73-96 | `exit` ends the process with status 0 iff not initialised. When initialised, didOpen and didSave publish diagnostics iff linting succeeds, with the opened version or none. Nothing else happens |
| Handler.Step | src/handler.rs:36-45 | requests and batches, and only they, get a response; notifications and responses leave the state unchanged; responses are ignored |
| Handler.Run | src/handler.rs:36-45 | only the last reaction can end the process, and there are fewer reactions than messages only when it does; the lifecycle only moves forward |
| Handler.RunElement | src/handler.rs:36-45 | reaction `i` of a run is `Step`'s reaction to message `i` in the state the earlier messages left |
| Handler.BatchElement | src/handler.rs:47-54 | response `i` of a batch is request `i`'s reply in the state the earlier requests left |
| Handler.BatchBeforeInitialise | src/handler.rs:47-61 | before initialisation a batch without `initialize` is refused request by request, and leaves the server uninitialised |
| Handler.Session | src/handler.rs:56-82 | initialise, shutdown, another request, exit: capabilities, `null`, InvalidRequest, process exit with status 0 |
| Handler.MessageHandler.constructor | src/handler.rs:28-34 | a new handler is uninitialised and lints with cfn-lint |
| Handler.MessageHandler.Handle | src/handler.rs:36-45 | new state and reaction equal `Step` |
| Handler.MessageHandler.HandleRequestBatch | src/handler.rs:47-54 | new state and batch response equal `BatchStep` |
| Handler.MessageHandler.HandleRequest | src/handler.rs:56-71 | new state and response equal `RequestStep` |
| Handler.MessageHandler.HandleNotification | src/handler.rs:73-96 | the reaction equals `NotificationReaction`; the state is unchanged |
| Handler.MessageHandler.Initialise | src/handler.rs:98-108 | state becomes initialised with the client's parameters; the default result for the request's id |
| Handler.MessageHandler.Shutdown | src/handler.rs:110-115 | state becomes shut down; a `null` result for the request's id |

The remaining lemmas and helper functions carry no row. Each is one step of
a proof above, split out so that the proof stays small: `Json.Get`,
`Text.AsciiConcat`, `Text.AsciiMember`, `Text.NotOccursWithout`,
`Reader.Regroup`, `Reader.Assoc`, `Writer.ContentTypeTextSplit1`-`4`,
`Writer.NoBreak`, `Initialisation.ClientFieldsReadBack`,
`Initialisation.SessionFieldsReadBack`, `Initialisation.PathTwo` and
`Initialisation.PathThree`.

## Left out

- I/O. `read_line`, `read_exact` and `stdout.write` work on an input sequence and an output sequence. A read error from the stream is `Internal` in the model but does not arise from sequences. Partial writes are not modelled: a write puts out all of its bytes or none.
- UTF-8. The header block is parsed as bytes; the check that it is valid UTF-8 is not modelled.
- JSON text. Parsing and serialising are function parameters, so serde's grammar, the order of members and duplicate keys are not modelled. Floating-point numbers are not modelled: the JSON value holds integers only.
- Error messages. The I/O error's text that `WriteError`'s message ends with is left out, and `LintError`'s messages are replaced by an error kind.
- Process exit. `std::process::exit(0)` becomes the `Terminate(0)` reaction, and `Run` stops there.
- Logging. The `tracing` logs are not modelled.
- The `cfn-lint` subprocess is the `execute` parameter, and `Lint.CfnLintRun` is a function. A linter that gives different answers on different calls (for example after a file changes) is outside the model.
- Reader.ReadFrom: an input that ends before an empty line is the outcome `Spins`, because `read` then calls `read_line` forever at end of input.
- Reader.ErrorToResponse: gives no response where `From<ReadError> for Response` reaches `todo!()` (internal errors, and invalid requests with other codes); the panic itself is not modelled.
- Reader.DefaultContentType: `ContentType::default()` is not part of this model. The default is taken as the LSP base protocol's, `application/vscode-jsonrpc` with charset `utf-8`, which is also the content type `src/writer.rs:8` writes.
- Envelope.DecodeMessage: responses are never decoded, because the `Response` type is only serialised. The empty array decodes as an empty batch.
- Methods.DecodeNotificationMethod: `textDocument/didClose` is not decoded, because cfn-lsp has no `didClose` variant.
- Methods.DecodeRequestMethod: unit variants accept an absent or `null` `params`. Other forms serde might accept are not modelled.
- Lint.Decrement: wraps to 2^64-1 at zero, as a release build does; a debug build has overflow checks on and panics there instead.
- Initialisation.DecodeParams: serde's derived `Deserialize` also reads a struct from a JSON array of its fields in declaration order. This decoder, and every other struct decoder in `Initialisation`, `Methods`, `Diagnostics` and `Lint`, reads objects only.
- Lint.ConvertPosition: cfn-lint reports `usize` positions and the diagnostic `Position` holds `u32`; the model keeps `usize` and does not truncate to 32 bits.
- The server loop, channels, command-line parsing and `main` are outside this model.
