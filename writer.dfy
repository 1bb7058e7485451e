/**
 * Writing one response to the client: a `Content-Length` header, the fixed
 * `Content-Type` header, an empty line, then the JSON text of the response.
 * The output stream is a byte sequence the writer appends to; the JSON
 * text serialiser and the failure of each write are parameters.
 */
module Writer {
  import opened Wrappers
  import opened Text
  import opened Json
  import opened Envelope
  import Reader

  /** The `Content-Type` header line every response carries. */
  function ContentTypeHeader(): seq<byte> {
    Ascii(ContentTypeText) + Reader.CRLF
  }

  const ContentTypeText: string := "Content-Type: application/vscode-jsonrpc; charset=utf-8"

  /** The fixed text taken apart at the reader's token boundaries, one literal at a time. */
  lemma ContentTypeTextSplit4()
    ensures Ascii(ContentTypeText) == Ascii("Content-Type: application/vscode-jsonrpc; charset=") + Ascii("utf-8")
  {
    AsciiConcat("Content-Type: application/vscode-jsonrpc; charset=", "utf-8");
  }

  lemma ContentTypeTextSplit3()
    ensures Ascii("Content-Type: application/vscode-jsonrpc; charset=") == Ascii("Content-Type: application/vscode-jsonrpc; ") + Ascii("charset=")
  {
    AsciiConcat("Content-Type: application/vscode-jsonrpc; ", "charset=");
  }

  lemma ContentTypeTextSplit2()
    ensures Ascii("Content-Type: application/vscode-jsonrpc; ") == Ascii("Content-Type: application/vscode-jsonrpc") + Ascii("; ")
  {
    AsciiConcat("Content-Type: application/vscode-jsonrpc", "; ");
  }

  lemma ContentTypeTextSplit1()
    ensures Ascii("Content-Type: application/vscode-jsonrpc") == Ascii("Content-Type: ") + Ascii("application/vscode-jsonrpc")
  {
    AsciiConcat("Content-Type: ", "application/vscode-jsonrpc");
    assert "Content-Type: " + "application/vscode-jsonrpc" == "Content-Type: application/vscode-jsonrpc";
  }

  /** The text of the fixed header line is the reader's line for the default content type, less CR LF. */
  lemma ContentTypeTextIsDefault()
    ensures var d := Reader.DefaultContentType();
      Ascii(ContentTypeText) == Reader.ContentTypeTag() + d.mediaType + Reader.Separator() + Reader.CharsetTag() + d.charset
  {
    ContentTypeTextSplit1();
    ContentTypeTextSplit2();
    ContentTypeTextSplit3();
    ContentTypeTextSplit4();
  }

  /** The fixed header line is the reader's `Content-Type` line for the default content type. */
  lemma ContentTypeHeaderIsDefault()
    ensures ContentTypeHeader() == Reader.ContentTypeLine(Reader.DefaultContentType())
  {
    ContentTypeTextIsDefault();
  }

  /** A literal without a line feed has no LF byte. */
  lemma NoBreak(s: string)
    requires '\n' !in s
    ensures LF !in Ascii(s)
  {
    AsciiMember(s, '\n');
  }

  /** No line feed occurs in the text of the fixed header line. */
  lemma ContentTypeTextNoBreak()
    ensures LF !in Ascii(ContentTypeText)
  {
    ContentTypeTextIsDefault();
    NoBreak("Content-Type: ");
    NoBreak("application/vscode-jsonrpc");
    NoBreak("; ");
    NoBreak("charset=");
    NoBreak("utf-8");
  }

  /** `content_length`: the `Content-Length` header line for a body of `n` bytes. */
  function ContentLengthHeader(n: nat): (line: seq<byte>)
    ensures line == Reader.ContentLengthLine(Decimal(n))
  {
    Ascii("Content-Length: ") + Decimal(n) + Ascii("\r\n")
  }

  /** The four writes `write` makes, in order. */
  datatype WriteStep = LengthStep | TypeStep | EndStep | BodyStep

  datatype WriteError = WriteError(message: string)

  /**
   * The bytes one write puts out for a body: the reader's `Content-Length`
   * line, its `Content-Type` line for the default type, the empty line, and
   * the body.
   */
  function StepBytes(step: WriteStep, body: seq<byte>): (b: seq<byte>)
    ensures step.LengthStep? ==> b == Reader.ContentLengthLine(Decimal(|body|))
    ensures step.TypeStep? ==> b == Reader.ContentTypeLine(Reader.DefaultContentType())
    ensures step.EndStep? ==> b == Reader.CRLF
    ensures step.BodyStep? ==> b == body
  {
    ContentTypeHeaderIsDefault();
    match step
    case LengthStep => ContentLengthHeader(|body|)
    case TypeStep => ContentTypeHeader()
    case EndStep => Ascii("\r\n")
    case BodyStep => body
  }

  /**
   * The message of the error a failing write gives, without the I/O error's
   * own text that follows it.
   */
  function StepFailure(step: WriteStep): (m: string)
    ensures "Failed to write " <= m
    ensures |m| >= 26 && m[|m| - 10..] == " to stdout"
  {
    var what := match step
      case LengthStep => "Content-Length header"
      case TypeStep => "Content-Type header"
      case EndStep => "end of headers block"
      case BodyStep => "response";
    "Failed to write " + what + " to stdout"
  }

  const Steps: seq<WriteStep> := [LengthStep, TypeStep, EndStep, BodyStep]

  /** The framed message for a body: header block, then the body. */
  function Frame(body: seq<byte>): (f: seq<byte>)
    ensures |f| > |body| && f[|f| - |body|..] == body
  {
    HeaderBlock(|body|) + body
  }

  /**
   * The header block written before a body of `n` bytes: what the three
   * writes of `write_headers` put out, one after the other.
   */
  function HeaderBlock(n: nat): (h: seq<byte>)
    ensures |h| == |Decimal(n)| + 77
  {
    ContentLengthHeader(n) + ContentTypeHeader() + Ascii("\r\n")
  }

  /** Each write fails with a message of its own. */
  lemma StepFailureDistinct(s: WriteStep, t: WriteStep)
    ensures StepFailure(s) == StepFailure(t) ==> s == t
  {
    if StepFailure(s) == StepFailure(t) {
      assert |StepFailure(s)| == |StepFailure(t)|;
    }
  }

  /** How many of the four writes happen before the first one in `failing`. */
  function FirstFailure(failing: set<WriteStep>): (k: nat)
    ensures k <= |Steps|
    ensures forall i | 0 <= i < k :: Steps[i] !in failing
    ensures k < |Steps| ==> Steps[k] in failing
  {
    if LengthStep in failing then 0
    else if TypeStep in failing then 1
    else if EndStep in failing then 2
    else if BodyStep in failing then 3
    else 4
  }

  /**
   * The bytes the first `k` writes put out: always a start of the frame,
   * and the whole frame once all four writes are done.
   */
  function Emitted(k: nat, body: seq<byte>): (out: seq<byte>)
    requires k <= |Steps|
    ensures out <= Frame(body)
    ensures k == |Steps| ==> out == Frame(body)
  {
    var length := ContentLengthHeader(|body|);
    var both := length + ContentTypeHeader();
    assert both <= HeaderBlock(|body|) <= Frame(body);
    if k == 0 then []
    else if k == 1 then
      assert length <= both;
      length
    else if k == 2 then both
    else if k == 3 then HeaderBlock(|body|)
    else Frame(body)
  }

  /** The writes one by one. */
  lemma EmittedSteps(body: seq<byte>)
    ensures Emitted(1, body) == ContentLengthHeader(|body|)
    ensures Emitted(2, body) == Emitted(1, body) + ContentTypeHeader()
    ensures Emitted(3, body) == Emitted(2, body) + Ascii("\r\n")
    ensures Emitted(4, body) == Emitted(3, body) + body
    ensures forall k | 0 <= k < |Steps| :: Emitted(k + 1, body) == Emitted(k, body) + StepBytes(Steps[k], body)
    ensures Emitted(3, body) == HeaderBlock(|body|)
  {
  }

  /** Every write is one of the four. */
  lemma StepsComplete()
    ensures forall step :: step in Steps
  {
    forall step
      ensures step in Steps
    {
      match step
      case LengthStep => assert Steps[0] == step;
      case TypeStep => assert Steps[1] == step;
      case EndStep => assert Steps[2] == step;
      case BodyStep => assert Steps[3] == step;
    }
  }

  /** What `write` returns after the writes: the first failure, or success. */
  function FrameResult(failing: set<WriteStep>): (r: Result<(), WriteError>)
    ensures r.Ok? <==> failing == {}
  {
    var k := FirstFailure(failing);
    if k == |Steps| then
      StepsComplete();
      assert forall step | step in failing :: step in Steps;
      Ok(())
    else Err(WriteError(StepFailure(Steps[k])))
  }

  /**
   * `write` for `response`: the bytes put out on the stream and the result.
   * A response the serialiser cannot write puts out nothing.
   */
  function WriteResult(response: Response, encode: Json -> Option<seq<byte>>, failing: set<WriteStep>): (r: (seq<byte>, Result<(), WriteError>))
    ensures encode(ResponseToJson(response)).None? ==> r.0 == [] && r.1.Err?
    ensures r.1.Ok? <==> encode(ResponseToJson(response)).Some? && failing == {}
    ensures r.1.Ok? ==> r.0 == Frame(encode(ResponseToJson(response)).value)
    ensures encode(ResponseToJson(response)).Some? ==> r.0 <= Frame(encode(ResponseToJson(response)).value)
  {
    match encode(ResponseToJson(response))
    case None => ([], Err(WriteError("Failed to serialize response")))
    case Some(body) =>
      (Emitted(FirstFailure(failing), body), FrameResult(failing))
  }

  /** The server's output: everything written so far. */
  class Writer {
    var out: seq<byte>

    constructor()
      ensures out == []
    {
      out := [];
    }

    /** One `stdout.write`; a failing write puts out nothing. */
    method Put(bytes: seq<byte>, fails: bool) returns (ok: bool)
      modifies this
      ensures ok == !fails
      ensures out == if fails then old(out) else old(out) + bytes
    {
      if fails {
        return false;
      }
      out := out + bytes;
      return true;
    }

    /**
     * `write`: serialise the response, then write the frame around the
     * serialised text.
     */
    method Write(response: Response, encode: Json -> Option<seq<byte>>, failing: set<WriteStep>)
      returns (r: Result<(), WriteError>)
      modifies this
      ensures out == old(out) + WriteResult(response, encode, failing).0
      ensures r == WriteResult(response, encode, failing).1
    {
      var json := encode(ResponseToJson(response));
      if json.None? {
        return Err(WriteError("Failed to serialize response"));
      }
      r := WriteFrame(json.value, failing);
    }

    /**
     * `write_headers` and the body write: the `Content-Length` header, the
     * `Content-Type` header, the empty line and the body, stopping at the
     * first write that fails.
     */
    method WriteFrame(body: seq<byte>, failing: set<WriteStep>) returns (r: Result<(), WriteError>)
      modifies this
      ensures out == old(out) + Emitted(FirstFailure(failing), body)
      ensures r == FrameResult(failing)
    {
      EmittedSteps(body);
      var start := out;
      var ok := Put(ContentLengthHeader(|body|), LengthStep in failing);
      if !ok {
        return Err(WriteError(StepFailure(LengthStep)));
      }
      ok := Put(ContentTypeHeader(), TypeStep in failing);
      if !ok {
        return Err(WriteError(StepFailure(TypeStep)));
      }
      Reader.Assoc(start, Emitted(1, body), ContentTypeHeader());
      ok := Put(Ascii("\r\n"), EndStep in failing);
      if !ok {
        return Err(WriteError(StepFailure(EndStep)));
      }
      Reader.Assoc(start, Emitted(2, body), Ascii("\r\n"));
      ok := Put(body, BodyStep in failing);
      if !ok {
        return Err(WriteError(StepFailure(BodyStep)));
      }
      Reader.Assoc(start, Emitted(3, body), body);
      r := Ok(());
    }
  }

  // ----- What the reader makes of a written frame -----

  /**
   * In two lines without line breaks, the second non-empty, followed by an
   * empty line, the only prefix that ends with an empty line is the whole.
   */
  lemma BlankLineOnlyAtEnd(c1: seq<byte>, c2: seq<byte>)
    requires |c2| > 0 && c2[0] != CR && LF !in c1 && LF !in c2
    ensures Reader.EndsWithBlankLine(c1 + Reader.CRLF + c2 + Reader.CRLF + Reader.CRLF)
    ensures forall m | 0 <= m < |c1 + Reader.CRLF + c2 + Reader.CRLF + Reader.CRLF| ::
      !Reader.EndsWithBlankLine((c1 + Reader.CRLF + c2 + Reader.CRLF + Reader.CRLF)[..m])
  {
    var h := c1 + Reader.CRLF + c2 + Reader.CRLF + Reader.CRLF;
    var a := |c1|;
    var b := a + 2 + |c2|;
    assert h[|h| - 4..] == [CR, LF, CR, LF];
    forall m | 0 <= m < |h|
      ensures !Reader.EndsWithBlankLine(h[..m])
    {
      if m >= 4 {
        var j := m - 3;
        if j < a {
          assert h[j] == c1[j];
        } else if j == a {
          assert h[j] == CR;
        } else if j == a + 1 {
          assert h[j + 1] == c2[0];
        } else if j < b {
          assert h[j] == c2[j - a - 2];
        } else {
          assert h[j] == CR;
        }
        assert h[..m][m - 4..][1] == h[j] && h[..m][m - 4..][2] == h[j + 1];
      }
    }
  }

  /** The header block written for a body of `n` bytes parses as announcing `n` bytes of the default content type. */
  lemma HeaderBlockParses(n: nat)
    requires n < USIZE_LIMIT
    ensures Reader.ParseHeaders(HeaderBlock(n)) == Ok(Reader.Headers(n, Reader.DefaultContentType()))
  {
    var ds := Decimal(n);
    ContentTypeHeaderIsDefault();
    assert Ascii("\r\n") == Reader.CRLF;
    Reader.HeadersLengthThenType(ds, Reader.DefaultContentType());
  }

  /** The reader stops reading the written header block at its end, and not before. */
  lemma HeaderBlockEnds(n: nat)
    ensures Reader.HeaderEnd(HeaderBlock(n), 0) == Some(|HeaderBlock(n)|)
  {
    var h := HeaderBlock(n);
    var ds := Decimal(n);
    var c1 := Reader.ContentLengthTag() + ds;
    var c2 := Ascii(ContentTypeText);
    ContentTypeTextNoBreak();
    NoBreak("Content-Length: ");
    assert LF !in ds by {
      forall i | 0 <= i < |ds|
        ensures ds[i] != LF
      {
        assert IsDigit(ds[i]);
      }
    }
    ContentTypeTextIsDefault();
    assert Reader.ContentTypeTag()[0] == 'C' as int;
    BlankLineOnlyAtEnd(c1, c2);
    Reader.Assoc(c1 + Reader.CRLF, c2, Reader.CRLF);
    assert Ascii("\r\n") == Reader.CRLF;
    assert h == c1 + Reader.CRLF + c2 + Reader.CRLF + Reader.CRLF;
    BlockEnds(h, 0, h);
  }

  /** The input holds, from `start`, the header block for `body` and then `body` itself. */
  predicate HeaderBlockThenBody(data: seq<byte>, start: nat, body: seq<byte>) {
    && start + |HeaderBlock(|body|)| + |body| <= |data|
    && data[start..start + |HeaderBlock(|body|)|] == HeaderBlock(|body|)
    && data[start + |HeaderBlock(|body|)|..start + |HeaderBlock(|body|)| + |body|] == body
  }

  /** The input holds a frame from `start` exactly when it holds the frame's header block and then its body. */
  lemma FrameSplits(data: seq<byte>, start: nat, body: seq<byte>)
    ensures (start + |Frame(body)| <= |data| && data[start..start + |Frame(body)|] == Frame(body))
        <==> HeaderBlockThenBody(data, start, body)
  {
    var h := HeaderBlock(|body|);
    var f := Frame(body);
    if start + |f| <= |data| {
      var e := start + |f|;
      assert data[start..start + |h|] == data[start..e][..|h|];
      assert data[start + |h|..e] == data[start..e][|h|..];
      if HeaderBlockThenBody(data, start, body) {
        assert data[start..e] == data[start..start + |h|] + data[start + |h|..e];
      }
    }
  }

  /** What the reader has buffered of a header block is the start of the block. */
  lemma BlockPrefix(data: seq<byte>, start: nat, h: seq<byte>, k: nat)
    requires start <= k <= start + |h| <= |data|
    requires data[start..start + |h|] == h
    ensures data[start..k] == h[..k - start]
  {
    assert data[start..k] == data[start..start + |h|][..k - start];
  }

  /** A block that ends with its first empty line is where the reader stops reading headers. */
  lemma BlockEnds(data: seq<byte>, start: nat, h: seq<byte>)
    requires start + |h| <= |data|
    requires data[start..start + |h|] == h
    requires Reader.EndsWithBlankLine(h)
    requires forall m | 0 <= m < |h| :: !Reader.EndsWithBlankLine(h[..m])
    ensures Reader.HeaderEnd(data, start) == Some(start + |h|)
  {
    var e := start + |h|;
    forall k | start <= k < e
      ensures !Reader.BlankLineAt(data, start, k)
    {
      BlockPrefix(data, start, h, k);
      Reader.BlankLineAtBuffer(data, start, k);
    }
    Reader.BlankLineAtBuffer(data, start, e);
    Reader.HeaderEndAt(data, start, e);
  }

  /** A header block the reader reads to its end on its own, it reads to its end wherever it stands. */
  lemma BlockEndsInPlace(data: seq<byte>, start: nat, h: seq<byte>)
    requires start + |h| <= |data|
    requires data[start..start + |h|] == h
    requires Reader.HeaderEnd(h, 0) == Some(|h|)
    ensures Reader.HeaderEnd(data, start) == Some(start + |h|)
  {
    Reader.HeaderEndFromIsFirst(h, 0, 0);
    forall k | start <= k <= start + |h|
      ensures Reader.BlankLineAt(data, start, k) <==> Reader.BlankLineAt(h, 0, k - start)
    {
      if k >= start + 4 {
        assert data[k - 4] == h[k - start - 4] && data[k - 3] == h[k - start - 3];
        assert data[k - 2] == h[k - start - 2] && data[k - 1] == h[k - start - 1];
      }
    }
    Reader.HeaderEndAt(data, start, start + |h|);
  }

  /**
   * The input holds, from `start`, a header block ending at `p` that parses
   * as `headers`, followed by the `body` those headers announce.
   */
  predicate BlockThenBody(data: seq<byte>, start: nat, p: nat, headers: Reader.Headers, body: seq<byte>) {
    && start <= p <= |data|
    && p + |body| <= |data|
    && data[p..p + |body|] == body
    && headers.contentLength == |body|
    && Reader.HeaderEnd(data, start) == Some(p)
    && Reader.ParseHeaders(data[start..p]) == Ok(headers)
  }

  /**
   * A header block ending at `p` that parses, followed by as many bytes as
   * it announces, frames exactly those bytes.
   */
  lemma FrameOfBlock(data: seq<byte>, start: nat, p: nat, headers: Reader.Headers, body: seq<byte>, end: nat)
    requires BlockThenBody(data, start, p, headers, body) && end == p + |body|
    ensures Reader.FrameAt(data, start) == (Reader.Body(body), end)
  {
    FrameAtBlock(data, start, p, headers);
    BodyAfterHeaders(data, p, headers, body, end);
  }

  /** `FrameAt` once the end of the header block is known. */
  lemma FrameAtBlock(data: seq<byte>, start: nat, p: nat, headers: Reader.Headers)
    requires start <= p <= |data|
    requires Reader.HeaderEnd(data, start) == Some(p)
    requires Reader.ParseHeaders(data[start..p]) == Ok(headers)
    ensures Reader.FrameAt(data, start) == Reader.AfterHeaders(data, p, Ok(headers))
  {
  }

  /** Parsed headers announcing the `body` that follows them frame that body. */
  lemma BodyAfterHeaders(data: seq<byte>, p: nat, headers: Reader.Headers, body: seq<byte>, end: nat)
    requires p + |body| <= |data| && data[p..p + |body|] == body && end == p + |body|
    requires headers.contentLength == |body|
    ensures Reader.AfterHeaders(data, p, Ok(headers)) == (Reader.Body(body), end)
  {
  }

  /** Where a frame stands in the input, the reader stops reading headers where its body begins. */
  lemma HeaderEndInPlace(data: seq<byte>, start: nat, body: seq<byte>)
    requires HeaderBlockThenBody(data, start, body)
    ensures Reader.HeaderEnd(data, start) == Some(start + |HeaderBlock(|body|)|)
  {
    HeaderBlockEnds(|body|);
    BlockEndsInPlace(data, start, HeaderBlock(|body|));
  }

  /** Where a frame stands in the input, its header block parses as announcing its body. */
  lemma HeadersInPlace(data: seq<byte>, start: nat, body: seq<byte>)
    requires |body| < USIZE_LIMIT
    requires HeaderBlockThenBody(data, start, body)
    ensures Reader.ParseHeaders(data[start..start + |HeaderBlock(|body|)|]) == Ok(Reader.Headers(|body|, Reader.DefaultContentType()))
  {
    HeaderBlockParses(|body|);
  }

  /** Where a frame stands in the input: where its header block ends, what it parses as, and its body. */
  lemma FrameInPlace(data: seq<byte>, start: nat, body: seq<byte>)
    requires |body| < USIZE_LIMIT
    requires HeaderBlockThenBody(data, start, body)
    ensures BlockThenBody(data, start, start + |HeaderBlock(|body|)|, Reader.Headers(|body|, Reader.DefaultContentType()), body)
    ensures start + |Frame(body)| == start + |HeaderBlock(|body|)| + |body|
  {
    HeaderEndInPlace(data, start, body);
    HeadersInPlace(data, start, body);
  }

  /** The reader frames a written frame as exactly its body, wherever it stands in the input. */
  lemma FrameReadsBack(data: seq<byte>, start: nat, body: seq<byte>)
    requires |body| < USIZE_LIMIT
    requires HeaderBlockThenBody(data, start, body)
    ensures Reader.FrameAt(data, start) == (Reader.Body(body), start + |Frame(body)|)
  {
    FrameInPlace(data, start, body);
    var p := start + |HeaderBlock(|body|)|;
    FrameOfBlock(data, start, p, Reader.Headers(|body|, Reader.DefaultContentType()), body, p + |body|);
  }

  /**
   * Whatever `write` puts out in full, `read` gives back: the body of the
   * frame, decoded, and the position just after the frame.
   */
  lemma WriteThenRead(data: seq<byte>, start: nat, body: seq<byte>, parse: seq<byte> -> Option<Json>)
    requires |body| < USIZE_LIMIT
    requires HeaderBlockThenBody(data, start, body)
    ensures Reader.ReadFrom(data, start, parse) == (Reader.DecodeBody(body, parse), start + |Frame(body)|)
  {
    FrameReadsBack(data, start, body);
  }
}
