/**
 * Reading one message from the client: the header block of the Language
 * Server Protocol 3.17 base protocol (a mandatory `Content-Length` header,
 * an optional `Content-Type` header in either order, then an empty line),
 * the body of exactly `Content-Length` bytes, and the classification of a
 * body that is not a message. The input is a byte stream read through a
 * cursor; the JSON text parser is a parameter.
 */
module Reader {
  import opened Wrappers
  import opened Text
  import opened Json
  import opened Envelope

  // ----- Header grammar -----

  const CRLF: seq<byte> := [CR, LF]
  const SEMICOLON: byte := 59

  function ContentLengthTag(): seq<byte> { Ascii("Content-Length: ") }
  function ContentTypeTag(): seq<byte> { Ascii("Content-Type: ") }
  function Separator(): seq<byte> { Ascii("; ") }
  function CharsetTag(): seq<byte> { Ascii("charset=") }

  datatype ContentType = ContentType(mediaType: seq<byte>, charset: seq<byte>)

  datatype Headers = Headers(contentLength: usize, contentType: ContentType)

  /** Why reading a message failed. */
  datatype ReadError =
    | MalformedHeaders
    | InvalidContentType(contentType: string)
    | InvalidRequest(id: RequestId, errorCode: ErrorCode)
    | Internal(reason: string)

  /**
   * The content type assumed when the header is missing; it is one a
   * `Content-Type` header could also carry.
   */
  function DefaultContentType(): (ct: ContentType)
    ensures ValidContentType(ct)
  {
    AsciiMember("application/vscode-jsonrpc", ';');
    AsciiMember("utf-8", '\r');
    ContentType(Ascii("application/vscode-jsonrpc"), Ascii("utf-8"))
  }

  predicate StartsWith(s: seq<byte>, prefix: seq<byte>) {
    |prefix| <= |s| && s[..|prefix|] == prefix
  }

  /** No CR LF pair inside `s`. */
  predicate NoCrlf(s: seq<byte>) {
    forall i | 0 <= i < |s| - 1 :: !(s[i] == CR && s[i + 1] == LF)
  }

  /** The `Content-Length` line with digit text `ds`. */
  function ContentLengthLine(ds: seq<byte>): seq<byte> {
    ContentLengthTag() + ds + CRLF
  }

  /** Digit text that `str::parse::<usize>` accepts (leading zeros included). */
  predicate ValidLength(ds: seq<byte>) {
    |ds| > 0 && AllDigits(ds) && DigitsValue(ds) < USIZE_LIMIT
  }

  /** The `Content-Type` line for `ct`. */
  function ContentTypeLine(ct: ContentType): seq<byte> {
    ContentTypeTag() + ct.mediaType + Separator() + CharsetTag() + ct.charset + CRLF
  }

  /**
   * A content type the header can carry: a non-empty type without `;` and a
   * non-empty charset without a line break.
   */
  predicate ValidContentType(ct: ContentType) {
    |ct.mediaType| > 0 && SEMICOLON !in ct.mediaType && |ct.charset| > 0 && NoCrlf(ct.charset)
  }

  // ----- nom's parsers, on bytes -----

  /** `tag`: `s` starts with `t`; yields what follows it. */
  function Tag(s: seq<byte>, t: seq<byte>): (r: Option<seq<byte>>)
    ensures r.Some? <==> StartsWith(s, t)
    ensures r.Some? ==> |r.value| == |s| - |t|
  {
    if StartsWith(s, t) then Some(s[|t|..]) else None
  }

  /** What `tag` accepts is the tag followed by what it yields. */
  lemma TagSplits(s: seq<byte>, t: seq<byte>)
    requires Tag(s, t).Some?
    ensures s == t + Tag(s, t).value
  {
    assert s == s[..|t|] + s[|t|..];
  }

  lemma TagOf(t: seq<byte>, rest: seq<byte>)
    ensures Tag(t + rest, t) == Some(rest)
  {
    assert (t + rest)[..|t|] == t && (t + rest)[|t|..] == rest;
  }

  /** The length of the run of digits that `s` starts with. */
  function DigitRun(s: seq<byte>): (n: nat)
    ensures n <= |s| && AllDigits(s[..n])
    ensures n < |s| ==> !IsDigit(s[n])
  {
    if s == [] || !IsDigit(s[0]) then 0
    else
      var n := 1 + DigitRun(s[1..]);
      assert forall i | 1 <= i < n :: s[..n][i] == s[1..][..n - 1][i - 1];
      n
  }

  /** A run of digits followed by a non-digit is exactly the digit run. */
  lemma {:induction false} DigitRunOf(s: seq<byte>, n: nat)
    requires n < |s| && !IsDigit(s[n]) && forall i | 0 <= i < n :: IsDigit(s[i])
    ensures DigitRun(s) == n
    decreases n
  {
    if n > 0 {
      DigitRunOf(s[1..], n - 1);
    }
  }

  /** `digit1`: the non-empty run of digits at the start, and what follows. */
  function Digit1(s: seq<byte>): (r: Option<(seq<byte>, seq<byte>)>)
    ensures r.Some? <==> |s| > 0 && IsDigit(s[0])
    ensures r.Some? ==> |r.value.0| > 0 && AllDigits(r.value.0) && |r.value.0| + |r.value.1| == |s|
    ensures r.Some? ==> r.value.1 == [] || !IsDigit(r.value.1[0])
  {
    var n := DigitRun(s);
    if n == 0 then None else Some((s[..n], s[n..]))
  }

  /** What `digit1` accepts is the digits followed by what it yields. */
  lemma Digit1Splits(s: seq<byte>)
    requires Digit1(s).Some?
    ensures s == Digit1(s).value.0 + Digit1(s).value.1
  {
    var n := DigitRun(s);
    assert s == s[..n] + s[n..];
  }

  lemma Digit1Of(ds: seq<byte>, rest: seq<byte>)
    requires |ds| > 0 && AllDigits(ds) && |rest| > 0 && !IsDigit(rest[0])
    ensures Digit1(ds + rest) == Some((ds, rest))
  {
    var s := ds + rest;
    DigitRunOf(s, |ds|);
    assert s[..|ds|] == ds && s[|ds|..] == rest;
  }

  /** The first index of `b` in `s`. */
  function FindByte(s: seq<byte>, b: byte): (r: Option<nat>)
    ensures r.Some? ==> r.value < |s| && s[r.value] == b && b !in s[..r.value]
    ensures r.None? ==> b !in s
  {
    if s == [] then None
    else if s[0] == b then Some(0)
    else
      match FindByte(s[1..], b)
      case Some(i) =>
        assert s[..i + 1] == [s[0]] + s[1..][..i];
        Some(i + 1)
      case None =>
        assert s == [s[0]] + s[1..];
        None
  }

  lemma {:induction false} FindByteOf(s: seq<byte>, b: byte, i: nat)
    requires i < |s| && s[i] == b && b !in s[..i]
    ensures FindByte(s, b) == Some(i)
    decreases i
  {
    if i > 0 {
      assert s[0] == s[..i][0];
      assert s[1..][..i - 1] == s[1..i];
      assert forall k | 0 <= k < i - 1 :: s[1..i][k] == s[..i][k + 1];
      FindByteOf(s[1..], b, i - 1);
    }
  }

  /** The first index at which CR LF starts in `s`. */
  function FindCrlf(s: seq<byte>): (r: Option<nat>)
    ensures r.Some? ==> r.value + 1 < |s| && s[r.value] == CR && s[r.value + 1] == LF && NoCrlf(s[..r.value + 1])
    ensures r.None? ==> NoCrlf(s)
  {
    if |s| < 2 then None
    else if s[0] == CR && s[1] == LF then Some(0)
    else
      match FindCrlf(s[1..])
      case Some(i) =>
        assert forall k {:trigger s[..i + 2][k]} | 1 <= k <= i + 1 :: s[..i + 2][k] == s[1..][..i + 1][k - 1];
        Some(i + 1)
      case None =>
        assert forall k | 1 <= k < |s| :: s[k] == s[1..][k - 1];
        None
  }

  lemma {:induction false} FindCrlfOf(s: seq<byte>, i: nat)
    requires i + 1 < |s| && s[i] == CR && s[i + 1] == LF && NoCrlf(s[..i])
    ensures FindCrlf(s) == Some(i)
    decreases i
  {
    if i > 0 {
      if i > 1 {
        assert s[0] == s[..i][0] && s[1] == s[..i][1];
      }
      assert forall k | 0 <= k < i - 1 :: s[1..i][k] == s[..i][k + 1];
      assert s[1..][..i - 1] == s[1..i];
      FindCrlfOf(s[1..], i - 1);
    }
  }

  /** `take_until1(";")`: the non-empty text before the first `;`, and the rest from it. */
  function TakeUntilSemicolon(s: seq<byte>): (r: Option<(seq<byte>, seq<byte>)>)
    ensures r.Some? ==> |r.value.0| > 0 && SEMICOLON !in r.value.0
  {
    match FindByte(s, SEMICOLON)
    case None => None
    case Some(i) => if i == 0 then None else Some((s[..i], s[i..]))
  }

  /** What `take_until1(";")` accepts is the text it takes followed by the rest. */
  lemma TakeUntilSemicolonSplits(s: seq<byte>)
    requires TakeUntilSemicolon(s).Some?
    ensures s == TakeUntilSemicolon(s).value.0 + TakeUntilSemicolon(s).value.1
  {
    var i := FindByte(s, SEMICOLON).value;
    assert s == s[..i] + s[i..];
  }

  lemma TakeUntilSemicolonOf(t: seq<byte>, rest: seq<byte>)
    requires |t| > 0 && SEMICOLON !in t && |rest| > 0 && rest[0] == SEMICOLON
    ensures TakeUntilSemicolon(t + rest) == Some((t, rest))
  {
    var s := t + rest;
    assert s[..|t|] == t && s[|t|..] == rest;
    FindByteOf(s, SEMICOLON, |t|);
  }

  /** `take_until1("\r\n")`: the non-empty text before the first CR LF, and the rest from it. */
  function TakeUntilCrlf(s: seq<byte>): (r: Option<(seq<byte>, seq<byte>)>)
    ensures r.Some? ==> |r.value.0| > 0 && NoCrlf(r.value.0)
  {
    match FindCrlf(s)
    case None => None
    case Some(i) =>
      if i == 0 then None
      else
        assert forall k | 0 <= k < i :: s[..i][k] == s[..i + 1][k];
        Some((s[..i], s[i..]))
  }

  /** What `take_until1("\r\n")` accepts is the text it takes followed by the rest, which starts with CR LF. */
  lemma TakeUntilCrlfSplits(s: seq<byte>)
    requires TakeUntilCrlf(s).Some?
    ensures s == TakeUntilCrlf(s).value.0 + TakeUntilCrlf(s).value.1
    ensures StartsWith(TakeUntilCrlf(s).value.1, CRLF)
  {
    var i := FindCrlf(s).value;
    assert s == s[..i] + s[i..];
    assert s[i..][..2] == CRLF;
  }

  lemma TakeUntilCrlfOf(t: seq<byte>, rest: seq<byte>)
    requires |t| > 0 && NoCrlf(t)
    ensures TakeUntilCrlf(t + CRLF + rest) == Some((t, CRLF + rest))
  {
    var s := t + CRLF + rest;
    assert s[..|t|] == t && s[|t|..] == CRLF + rest;
    FindCrlfOf(s, |t|);
  }

  /** Concatenation regrouped to the right, as the parsers take it apart. */
  lemma Regroup(a: seq<byte>, b: seq<byte>, c: seq<byte>, d: seq<byte>, e: seq<byte>, f: seq<byte>, g: seq<byte>)
    ensures a + b + c + d + e + f + g == a + (b + (c + (d + (e + (f + g)))))
  {
  }

  /** Concatenation regrouped to the left. */
  lemma Assoc(a: seq<byte>, b: seq<byte>, c: seq<byte>)
    ensures a + (b + c) == a + b + c
  {
  }

  // ----- The two header parsers -----

  /**
   * `content_length_header`: `Content-Length: `, a run of digits, CR LF. It
   * yields the number and the rest of the input.
   */
  function ContentLengthHeader(s: seq<byte>): (r: Option<(usize, seq<byte>)>)
    ensures r.Some? ==> |r.value.1| < |s|
  {
    match Tag(s, ContentLengthTag())
    case None => None
    case Some(a) =>
      match Digit1(a)
      case None => None
      case Some((ds, b)) =>
        match Tag(b, CRLF)
        case None => None
        case Some(rest) =>
          match ParseUsize(ds)
          case None => None
          case Some(v) => Some((v, rest))
  }

  /** What `content_length_header` accepts is a `Content-Length` line with its value, followed by the rest. */
  lemma ContentLengthHeaderShape(s: seq<byte>)
    requires ContentLengthHeader(s).Some?
    ensures exists ds ::
        && ValidLength(ds)
        && ContentLengthHeader(s).value.0 == DigitsValue(ds)
        && s == ContentLengthLine(ds) + ContentLengthHeader(s).value.1
  {
    var a := Tag(s, ContentLengthTag()).value;
    TagSplits(s, ContentLengthTag());
    var (ds, b) := Digit1(a).value;
    Digit1Splits(a);
    var rest := Tag(b, CRLF).value;
    TagSplits(b, CRLF);
    assert s == ContentLengthLine(ds) + rest;
  }

  /**
   * `content_type_header`: `Content-Type: `, the type up to the first `;`,
   * `; charset=`, the charset up to the first CR LF, CR LF.
   */
  function ContentTypeHeader(s: seq<byte>): (r: Option<(ContentType, seq<byte>)>)
    ensures r.Some? ==> ValidContentType(r.value.0)
  {
    match Tag(s, ContentTypeTag())
    case None => None
    case Some(a) =>
      match TakeUntilSemicolon(a)
      case None => None
      case Some((mediaType, b)) =>
        match Tag(b, Separator())
        case None => None
        case Some(c) =>
          match Tag(c, CharsetTag())
          case None => None
          case Some(d) =>
            match TakeUntilCrlf(d)
            case None => None
            case Some((charset, e)) =>
              match Tag(e, CRLF)
              case None => None
              case Some(rest) => Some((ContentType(mediaType, charset), rest))
  }

  /** What `content_type_header` accepts is a `Content-Type` line for its content type, followed by the rest. */
  lemma ContentTypeHeaderShape(s: seq<byte>)
    requires ContentTypeHeader(s).Some?
    ensures s == ContentTypeLine(ContentTypeHeader(s).value.0) + ContentTypeHeader(s).value.1
  {
    var a := Tag(s, ContentTypeTag()).value;
    TagSplits(s, ContentTypeTag());
    var (mediaType, b) := TakeUntilSemicolon(a).value;
    TakeUntilSemicolonSplits(a);
    var c := Tag(b, Separator()).value;
    TagSplits(b, Separator());
    var d := Tag(c, CharsetTag()).value;
    TagSplits(c, CharsetTag());
    var (charset, e) := TakeUntilCrlf(d).value;
    TakeUntilCrlfSplits(d);
    var rest := Tag(e, CRLF).value;
    TagSplits(e, CRLF);
    Regroup(ContentTypeTag(), mediaType, Separator(), CharsetTag(), charset, CRLF, rest);
  }

  /** A `Content-Length` line is read back as its value, leaving the rest as it was. */
  lemma ContentLengthHeaderAccepts(ds: seq<byte>, rest: seq<byte>)
    requires ValidLength(ds)
    ensures ContentLengthHeader(ContentLengthLine(ds) + rest) == Some((DigitsValue(ds), rest))
  {
    var s := ContentLengthLine(ds) + rest;
    assert s == ContentLengthTag() + (ds + (CRLF + rest));
    TagOf(ContentLengthTag(), ds + (CRLF + rest));
    Digit1Of(ds, CRLF + rest);
    TagOf(CRLF, rest);
  }

  /** A `Content-Type` line is read back as its content type, leaving the rest as it was. */
  lemma ContentTypeHeaderAccepts(ct: ContentType, rest: seq<byte>)
    requires ValidContentType(ct)
    ensures ContentTypeHeader(ContentTypeLine(ct) + rest) == Some((ct, rest))
  {
    var e := CRLF + rest;
    var d := ct.charset + e;
    var c := CharsetTag() + d;
    var b := Separator() + c;
    var a := ct.mediaType + b;
    Regroup(ContentTypeTag(), ct.mediaType, Separator(), CharsetTag(), ct.charset, CRLF, rest);
    TagOf(ContentTypeTag(), a);
    assert b[0] == SEMICOLON;
    TakeUntilSemicolonOf(ct.mediaType, b);
    TagOf(Separator(), c);
    TagOf(CharsetTag(), d);
    assert d == ct.charset + CRLF + rest;
    TakeUntilCrlfOf(ct.charset, rest);
    TagOf(CRLF, rest);
  }

  // ----- The header block -----

  /**
   * `all_consuming(terminated(..., crlf))`: after the headers only the CR LF
   * of the empty line may remain.
   */
  function Finish(length: usize, ct: ContentType, rest: seq<byte>): (r: Result<Headers, ReadError>)
    ensures r.Ok? <==> rest == CRLF
    ensures r.Ok? ==> r.value.contentLength == length && r.value.contentType == ct
    ensures r.Err? ==> r.error == MalformedHeaders
  {
    if rest == CRLF then Ok(Headers(length, ct)) else Err(MalformedHeaders)
  }

  /**
   * `parse::headers`: the `Content-Length` header and an optional
   * `Content-Type` header in either order, then CR LF, with nothing after.
   * A missing `Content-Type` gives the default content type.
   */
  function ParseHeaders(s: seq<byte>): (r: Result<Headers, ReadError>)
    ensures r.Err? ==> r.error == MalformedHeaders
  {
    match ContentLengthHeader(s)
    case Some((length, rest)) =>
      (match ContentTypeHeader(rest)
       case Some((ct, rest')) => Finish(length, ct, rest')
       case None => Finish(length, DefaultContentType(), rest))
    case None =>
      match ContentTypeHeader(s)
      case Some((ct, rest)) =>
        (match ContentLengthHeader(rest)
         case Some((length, rest')) => Finish(length, ct, rest')
         case None => Err(MalformedHeaders))
      case None => Err(MalformedHeaders)
  }

  /** The three header blocks the grammar allows, with digit text `ds`. */
  predicate BlockShape(s: seq<byte>, ds: seq<byte>, ct: ContentType) {
    || (s == ContentLengthLine(ds) + CRLF && ct == DefaultContentType())
    || (ValidContentType(ct) && s == ContentLengthLine(ds) + ContentTypeLine(ct) + CRLF)
    || (ValidContentType(ct) && s == ContentTypeLine(ct) + ContentLengthLine(ds) + CRLF)
  }

  /** `s` is a header block announcing `h`. */
  ghost predicate IsHeaderBlock(s: seq<byte>, h: Headers) {
    exists ds :: ValidLength(ds) && DigitsValue(ds) == h.contentLength && BlockShape(s, ds, h.contentType)
  }

  /** The `Content-Length` parser does not accept a `Content-Type` line ("L" against "T"). */
  lemma ContentLengthRejectsContentType(ct: ContentType, rest: seq<byte>)
    ensures ContentLengthHeader(ContentTypeLine(ct) + rest) == None
  {
    var s := ContentTypeLine(ct) + rest;
    assert s[8] == ContentTypeTag()[8] == 'T' as int;
    assert ContentLengthTag()[8] == 'L' as int;
    assert s[..16][8] != ContentLengthTag()[8];
  }

  /** No header parser accepts the bare CR LF that ends the block. */
  lemma ContentTypeRejectsBlankLine()
    ensures ContentTypeHeader(CRLF) == None
  {
  }

  lemma HeadersLengthOnly(ds: seq<byte>)
    requires ValidLength(ds)
    ensures ParseHeaders(ContentLengthLine(ds) + CRLF) == Ok(Headers(DigitsValue(ds), DefaultContentType()))
  {
    ContentLengthHeaderAccepts(ds, CRLF);
    ContentTypeRejectsBlankLine();
  }

  lemma HeadersLengthThenType(ds: seq<byte>, ct: ContentType)
    requires ValidLength(ds) && ValidContentType(ct)
    ensures ParseHeaders(ContentLengthLine(ds) + ContentTypeLine(ct) + CRLF) == Ok(Headers(DigitsValue(ds), ct))
  {
    Assoc(ContentLengthLine(ds), ContentTypeLine(ct), CRLF);
    ContentLengthHeaderAccepts(ds, ContentTypeLine(ct) + CRLF);
    ContentTypeHeaderAccepts(ct, CRLF);
  }

  lemma HeadersTypeThenLength(ct: ContentType, ds: seq<byte>)
    requires ValidLength(ds) && ValidContentType(ct)
    ensures ParseHeaders(ContentTypeLine(ct) + ContentLengthLine(ds) + CRLF) == Ok(Headers(DigitsValue(ds), ct))
  {
    Assoc(ContentTypeLine(ct), ContentLengthLine(ds), CRLF);
    ContentLengthRejectsContentType(ct, ContentLengthLine(ds) + CRLF);
    ContentTypeHeaderAccepts(ct, ContentLengthLine(ds) + CRLF);
    ContentLengthHeaderAccepts(ds, CRLF);
  }

  /** Every header block announcing `h` is parsed as `h`. */
  lemma HeadersComplete(s: seq<byte>, h: Headers)
    requires IsHeaderBlock(s, h)
    ensures ParseHeaders(s) == Ok(h)
  {
    var ds :| ValidLength(ds) && DigitsValue(ds) == h.contentLength && BlockShape(s, ds, h.contentType);
    var ct := h.contentType;
    if s == ContentLengthLine(ds) + CRLF && ct == DefaultContentType() {
      HeadersLengthOnly(ds);
    } else if ValidContentType(ct) && s == ContentLengthLine(ds) + ContentTypeLine(ct) + CRLF {
      HeadersLengthThenType(ds, ct);
    } else {
      HeadersTypeThenLength(ct, ds);
    }
  }

  lemma SoundLengthOnly(s: seq<byte>, length: usize, rest: seq<byte>)
    requires ContentLengthHeader(s) == Some((length, rest)) && rest == CRLF
    ensures IsHeaderBlock(s, Headers(length, DefaultContentType()))
  {
    ContentLengthHeaderShape(s);
    var ds :| ValidLength(ds) && length == DigitsValue(ds) && s == ContentLengthLine(ds) + rest;
    assert BlockShape(s, ds, DefaultContentType());
  }

  lemma SoundLengthThenType(s: seq<byte>, length: usize, rest: seq<byte>, ct: ContentType, rest': seq<byte>)
    requires ContentLengthHeader(s) == Some((length, rest))
    requires ContentTypeHeader(rest) == Some((ct, rest')) && rest' == CRLF
    ensures IsHeaderBlock(s, Headers(length, ct))
  {
    ContentLengthHeaderShape(s);
    ContentTypeHeaderShape(rest);
    var ds :| ValidLength(ds) && length == DigitsValue(ds) && s == ContentLengthLine(ds) + rest;
    Assoc(ContentLengthLine(ds), ContentTypeLine(ct), CRLF);
    assert BlockShape(s, ds, ct);
  }

  lemma SoundTypeThenLength(s: seq<byte>, ct: ContentType, rest: seq<byte>, length: usize, rest': seq<byte>)
    requires ContentTypeHeader(s) == Some((ct, rest))
    requires ContentLengthHeader(rest) == Some((length, rest')) && rest' == CRLF
    ensures IsHeaderBlock(s, Headers(length, ct))
  {
    ContentTypeHeaderShape(s);
    ContentLengthHeaderShape(rest);
    var ds :| ValidLength(ds) && length == DigitsValue(ds) && rest == ContentLengthLine(ds) + rest';
    Assoc(ContentTypeLine(ct), ContentLengthLine(ds), CRLF);
    assert BlockShape(s, ds, ct);
  }

  /** Whatever is parsed is a header block announcing the parsed headers. */
  lemma HeadersSound(s: seq<byte>)
    requires ParseHeaders(s).Ok?
    ensures IsHeaderBlock(s, ParseHeaders(s).value)
  {
    match ContentLengthHeader(s) {
      case Some((length, rest)) =>
        match ContentTypeHeader(rest) {
          case Some((ct, rest')) => SoundLengthThenType(s, length, rest, ct, rest');
          case None => SoundLengthOnly(s, length, rest);
        }
      case None =>
        var (ct, rest) := ContentTypeHeader(s).value;
        var (length, rest') := ContentLengthHeader(rest).value;
        SoundTypeThenLength(s, ct, rest, length, rest');
    }
  }

  /**
   * The header grammar exactly: `parse::headers` accepts `s` with headers
   * `h` if and only if `s` is one of the three header blocks announcing
   * `h`, and everything else is `MalformedHeaders`.
   */
  lemma HeadersExactly(s: seq<byte>, h: Headers)
    ensures ParseHeaders(s) == Ok(h) <==> IsHeaderBlock(s, h)
  {
    if ParseHeaders(s) == Ok(h) {
      HeadersSound(s);
    }
    if IsHeaderBlock(s, h) {
      HeadersComplete(s, h);
    }
  }

  // ----- Framing -----

  /** The header block read so far ends with an empty line. */
  predicate EndsWithBlankLine(b: seq<byte>) {
    |b| >= 4 && b[|b| - 4] == CR && b[|b| - 3] == LF && b[|b| - 2] == CR && b[|b| - 1] == LF
  }

  /** The bytes of `data` from `start` up to `k` end with an empty line. */
  predicate BlankLineAt(data: seq<byte>, start: nat, k: nat) {
    start + 4 <= k <= |data| && data[k - 4] == CR && data[k - 3] == LF && data[k - 2] == CR && data[k - 1] == LF
  }

  /** The same, read off the buffer the bytes are appended to. */
  lemma BlankLineAtBuffer(data: seq<byte>, start: nat, k: nat)
    requires start <= k <= |data|
    ensures BlankLineAt(data, start, k) <==> EndsWithBlankLine(data[start..k])
  {
    var b := data[start..k];
    if |b| >= 4 {
      assert b[|b| - 4] == data[k - 4] && b[|b| - 3] == data[k - 3];
      assert b[|b| - 2] == data[k - 2] && b[|b| - 1] == data[k - 1];
    }
  }

  /**
   * The first end `e >= q` of a prefix `data[start..e]` that ends with an
   * empty line, searching forward from `q`.
   */
  function HeaderEndFrom(data: seq<byte>, start: nat, q: nat): (r: Option<nat>)
    requires start <= q <= |data|
    ensures r.Some? ==> q <= r.value <= |data| && BlankLineAt(data, start, r.value)
    decreases |data| - q
  {
    if BlankLineAt(data, start, q) then Some(q)
    else if q == |data| then None
    else HeaderEndFrom(data, start, q + 1)
  }

  /**
   * The search finds the first end of an empty line from `q` on, and finds
   * none only when there is none.
   */
  lemma {:induction false} HeaderEndFromIsFirst(data: seq<byte>, start: nat, q: nat)
    requires start <= q <= |data|
    ensures HeaderEndFrom(data, start, q).Some? ==>
      forall k | q <= k < HeaderEndFrom(data, start, q).value :: !BlankLineAt(data, start, k)
    ensures HeaderEndFrom(data, start, q).None? ==>
      forall k | q <= k <= |data| :: !BlankLineAt(data, start, k)
    decreases |data| - q
  {
    if !BlankLineAt(data, start, q) && q < |data| {
      HeaderEndFromIsFirst(data, start, q + 1);
    }
  }

  /** Where the header block starting at `start` ends: the first empty line. */
  function HeaderEnd(data: seq<byte>, start: nat): (r: Option<nat>)
    requires start <= |data|
    ensures r.Some? ==> r.value <= |data| && BlankLineAt(data, start, r.value)
    ensures r.Some? ==> forall k | start <= k < r.value :: !BlankLineAt(data, start, k)
    ensures r.None? ==> forall k | start <= k <= |data| :: !BlankLineAt(data, start, k)
  {
    HeaderEndFromIsFirst(data, start, start);
    HeaderEndFrom(data, start, start)
  }

  /** Searching across positions that end no header block changes nothing. */
  lemma {:induction false} HeaderEndSkips(data: seq<byte>, start: nat, q: nat, e: nat)
    requires start <= q <= e <= |data|
    requires forall k | q <= k < e :: !BlankLineAt(data, start, k)
    ensures HeaderEndFrom(data, start, q) == HeaderEndFrom(data, start, e)
    decreases e - q
  {
    if q < e {
      HeaderEndSkips(data, start, q + 1, e);
    }
  }

  /** The header block ends at the first end of an empty line. */
  lemma HeaderEndAt(data: seq<byte>, start: nat, e: nat)
    requires start <= e <= |data|
    requires BlankLineAt(data, start, e)
    requires forall k | start <= k < e :: !BlankLineAt(data, start, k)
    ensures HeaderEnd(data, start) == Some(e)
  {
    HeaderEndSkips(data, start, start, e);
  }

  /**
   * `read_line`: where the line starting at `from` ends, just after its
   * line feed, or at the end of the input.
   */
  function LineEnd(data: seq<byte>, from: nat): (e: nat)
    requires from <= |data|
    ensures from <= e <= |data|
    ensures from < |data| ==> from < e
    ensures forall k | from <= k < e - 1 :: data[k] != LF
    ensures from < e < |data| ==> data[e - 1] == LF
    decreases |data| - from
  {
    if from == |data| then from
    else if data[from] == LF then from + 1
    else LineEnd(data, from + 1)
  }

  /**
   * No header block ends strictly inside a line: every prefix ending there
   * ends with a byte other than a line feed.
   */
  lemma InsideLine(data: seq<byte>, start: nat, from: nat)
    requires start <= from <= |data|
    ensures forall k | from < k < LineEnd(data, from) :: !BlankLineAt(data, start, k)
  {
  }

  /** What one call of `read` yields. */
  datatype Outcome =
    | Received(message: Message)
    | Failed(error: ReadError)
    /** The input ended before an empty line: `read` calls `read_line` forever. */
    | Spins

  /**
   * `request_id`: the id of a body that is not a valid request, looked up
   * with the pointer `"id"`. That is not a JSON pointer (it lacks the leading
   * `/`); an id other than `null` would have to be what it selects.
   */
  function RequestIdOf(v: Json): (r: RequestId)
    ensures r != Null ==> Pointer(v, "id").Some? && DecodeRequestId(Pointer(v, "id").value) == Some(r)
  {
    match Pointer(v, "id")
    case Some(id) => DecodeRequestId(id).GetOr(Null)
    case None => Null
  }

  /** Hence the id echoed for an invalid request is always `null`. */
  lemma RequestIdOfIsNull(v: Json)
    ensures RequestIdOf(v) == Null
  {
  }

  /**
   * A body: a message when it parses as JSON and decodes as a message; a
   * parse error when it is not JSON; an invalid request otherwise.
   */
  function DecodeBody(body: seq<byte>, parse: seq<byte> -> Option<Json>): (o: Outcome)
    ensures !o.Spins?
    ensures o.Received? <==> parse(body).Some? && DecodeMessage(parse(body).value).Some?
    ensures o.Received? ==> Some(o.message) == DecodeMessage(parse(body).value)
    ensures o.Failed? ==> o.error.InvalidRequest? && o.error.id == Null
    ensures o.Failed? ==> (o.error.errorCode == ErrorCode.ParseError <==> parse(body).None?)
    ensures o.Failed? ==> (o.error.errorCode == ErrorCode.InvalidRequest <==> parse(body).Some?)
  {
    match parse(body)
    case None => Failed(ReadError.InvalidRequest(Null, ErrorCode.ParseError))
    case Some(v) =>
      match DecodeMessage(v)
      case Some(m) => Received(m)
      case None =>
        RequestIdOfIsNull(v);
        Failed(ReadError.InvalidRequest(RequestIdOf(v), ErrorCode.InvalidRequest))
  }

  const ReadFailure: string := "Failed to read from input"

  /** The bytes of one message as the framing delimits them. */
  datatype Frame =
    | Body(bytes: seq<byte>)
    | Broken(error: ReadError)
    /** The input ended before an empty line. */
    | Unterminated

  /**
   * The framing of `read` on the input `data` from position `start`, and
   * the position after it: the header block runs up to the first empty
   * line, the body is the next `Content-Length` bytes.
   */
  function FrameAt(data: seq<byte>, start: nat): (r: (Frame, nat))
    requires start <= |data|
    ensures start <= r.1 <= |data|
    ensures r.0.Unterminated? <==> HeaderEnd(data, start).None?
    ensures r.0.Unterminated? ==> r.1 == |data|
    ensures r.0.Broken? ==> r.0.error == MalformedHeaders || r.0.error.Internal?
  {
    match HeaderEnd(data, start)
    case None => (Unterminated, |data|)
    case Some(p) => AfterHeaders(data, p, ParseHeaders(data[start..p]))
  }

  /**
   * After a header block ending at `p`: the parse error, or the body of
   * `Content-Length` bytes when the input holds that many.
   */
  function AfterHeaders(data: seq<byte>, p: nat, headers: Result<Headers, ReadError>): (r: (Frame, nat))
    requires p <= |data|
    ensures p <= r.1 <= |data|
    ensures r.0.Broken? ==> r.0.error.Internal? || headers == Err(r.0.error)
    ensures r.0.Body? ==> headers.Ok? && r.1 == p + headers.value.contentLength
    ensures r.0.Body? ==> r.0.bytes == data[p..r.1]
    ensures headers.Ok? && p + headers.value.contentLength <= |data| ==>
      r.0 == Body(data[p..p + headers.value.contentLength])
    ensures !r.0.Unterminated?
  {
    match headers
    case Err(e) => (Broken(e), p)
    case Ok(h) =>
      if p + h.contentLength <= |data| then
        (Body(data[p..p + h.contentLength]), p + h.contentLength)
      else
        (Broken(ReadError.Internal(ReadFailure)), |data|)
  }

  /** What a frame yields: its body decoded, or the framing's failure. */
  function Classify(frame: Frame, parse: seq<byte> -> Option<Json>): (o: Outcome)
    ensures o.Spins? <==> frame.Unterminated?
    ensures frame.Broken? ==> o == Failed(frame.error)
  {
    match frame
    case Body(bytes) => DecodeBody(bytes, parse)
    case Broken(e) => Failed(e)
    case Unterminated => Spins
  }

  /** `read` on the input `data` from position `start`: the outcome and the position after it. */
  function ReadFrom(data: seq<byte>, start: nat, parse: seq<byte> -> Option<Json>): (r: (Outcome, nat))
    requires start <= |data|
    ensures start <= r.1 <= |data|
    ensures r.0.Spins? <==> HeaderEnd(data, start).None?
    ensures r.0.Failed? ==> !r.0.error.InvalidContentType?
  {
    var (frame, next) := FrameAt(data, start);
    (Classify(frame, parse), next)
  }

  /** The client's input: a byte stream consumed through a cursor. */
  class Input {
    const data: seq<byte>
    var cursor: nat

    ghost predicate Valid()
      reads this
    {
      cursor <= |data|
    }

    constructor(data: seq<byte>)
      ensures this.data == data && cursor == 0 && Valid()
    {
      this.data := data;
      cursor := 0;
    }

    /** `read_line`: the next line, line feed included; empty at the end. */
    method ReadLine() returns (line: seq<byte>)
      requires Valid()
      modifies this
      ensures Valid() && cursor == LineEnd(data, old(cursor))
      ensures line == data[old(cursor)..cursor]
    {
      var e := LineEnd(data, cursor);
      line := data[cursor..e];
      cursor := e;
    }

    /** `read_exact`: the next `n` bytes, or an error at the end of input. */
    method ReadExact(n: nat) returns (bytes: Option<seq<byte>>)
      requires Valid()
      modifies this
      ensures Valid()
      ensures old(cursor) + n <= |data| ==> bytes == Some(data[old(cursor)..old(cursor) + n]) && cursor == old(cursor) + n
      ensures old(cursor) + n > |data| ==> bytes.None? && cursor == |data|
    {
      if cursor + n <= |data| {
        bytes := Some(data[cursor..cursor + n]);
        cursor := cursor + n;
      } else {
        bytes := None;
        cursor := |data|;
      }
    }

    /**
     * The framing part of `read`: lines are appended to a buffer until it
     * ends with an empty line, the buffer is parsed as headers, and the
     * body of exactly `Content-Length` bytes is read.
     */
    method ReadFrame() returns (frame: Frame)
      requires Valid()
      modifies this
      ensures Valid()
      ensures (frame, cursor) == FrameAt(data, old(cursor))
    {
      var buffer := ReadHeaderBlock();
      if buffer.None? {
        return Unterminated;
      }
      var headers := ParseHeaders(buffer.value);
      frame := ReadBody(headers);
    }

    /** The rest of `read` after the header block: the body its headers announce. */
    method ReadBody(headers: Result<Headers, ReadError>) returns (frame: Frame)
      requires Valid()
      modifies this
      ensures Valid()
      ensures (frame, cursor) == AfterHeaders(data, old(cursor), headers)
    {
      if headers.Err? {
        return Broken(headers.error);
      }
      var body := ReadExact(headers.value.contentLength);
      if body.None? {
        return Broken(ReadError.Internal(ReadFailure));
      }
      frame := Body(body.value);
    }

    /**
     * The loop of `read`: lines are appended to a buffer until it ends
     * with an empty line; the input may end first.
     */
    method ReadHeaderBlock() returns (block: Option<seq<byte>>)
      requires Valid()
      modifies this
      ensures Valid()
      ensures block.None? <==> HeaderEnd(data, old(cursor)).None?
      ensures block.None? ==> cursor == |data|
      ensures block.Some? ==> Some(cursor) == HeaderEnd(data, old(cursor)) && block.value == data[old(cursor)..cursor]
    {
      var start := cursor;
      var buffer: seq<byte> := [];
      while true
        invariant Valid() && start <= cursor
        invariant buffer == data[start..cursor]
        invariant !EndsWithBlankLine(buffer)
        invariant HeaderEnd(data, start) == HeaderEndFrom(data, start, cursor)
        decreases |data| - cursor
      {
        if cursor == |data| {
          assert HeaderEndFrom(data, start, cursor) == None;
          return None;
        }
        var from := cursor;
        InsideLine(data, start, from);
        var line := ReadLine();
        assert data[start..cursor] == data[start..from] + data[from..cursor];
        buffer := buffer + line;
        HeaderEndSkips(data, start, from, cursor);
        BlankLineAtBuffer(data, start, cursor);
        if EndsWithBlankLine(buffer) {
          assert HeaderEndFrom(data, start, cursor) == Some(cursor);
          return Some(buffer);
        }
      }
    }

    /**
     * `read`: the next frame, and its body decoded as a message or
     * classified as an invalid request.
     */
    method Read(parse: seq<byte> -> Option<Json>) returns (outcome: Outcome)
      requires Valid()
      modifies this
      ensures Valid()
      ensures (outcome, cursor) == ReadFrom(data, old(cursor), parse)
    {
      var frame := ReadFrame();
      match frame {
        case Body(bytes) => outcome := DecodeBody(bytes, parse);
        case Broken(e) => outcome := Failed(e);
        case Unterminated => outcome := Spins;
      }
    }
  }

  // ----- Errors as responses -----

  /**
   * `From<ReadError> for Response`: the error response sent back for a
   * failed read. Internal failures and invalid requests with other codes
   * have none (`from` stops there with `todo!`).
   */
  function ErrorToResponse(e: ReadError): (r: Option<Response>)
    ensures r.Some? <==> !e.Internal? && (e.InvalidRequest? ==> e.errorCode in {ErrorCode.ParseError, ErrorCode.InvalidRequest})
    ensures r.Some? ==> r.value.ErrorResponse? && r.value.error.data.None?
    ensures r.Some? && !e.InvalidRequest? ==> r.value.id == Null && CodeMeaning(r.value.error.code) == Some(ErrorCode.InvalidRequest)
    ensures r.Some? && e.InvalidRequest? ==> r.value.id == e.id && CodeMeaning(r.value.error.code) == Some(e.errorCode)
    ensures r.Some? && e.MalformedHeaders? ==> r.value.error.message == "Malformed headers"
    ensures r.Some? && e.InvalidContentType? ==>
      r.value.error.message == "Invalid content type '" + e.contentType + "'"
    ensures r.Some? && e.InvalidRequest? && e.errorCode == ErrorCode.ParseError ==> r.value.error.message == "Invalid JSON"
    ensures r.Some? && e.InvalidRequest? && e.errorCode == ErrorCode.InvalidRequest ==>
      r.value.error.message == "Invalid request"
  {
    match e
    case MalformedHeaders =>
      Some(ErrorResponse(NewError(ErrorCode.InvalidRequest, "Malformed headers"), Null))
    case InvalidContentType(contentType) =>
      Some(ErrorResponse(NewError(ErrorCode.InvalidRequest, "Invalid content type '" + contentType + "'"), Null))
    case InvalidRequest(id, code) =>
      if code == ErrorCode.ParseError then
        Some(ErrorResponse(NewError(code, "Invalid JSON"), id))
      else if code == ErrorCode.InvalidRequest then
        Some(ErrorResponse(NewError(code, "Invalid request"), id))
      else None
    case Internal(_) => None
  }

  /**
   * Every failed read other than a failure of the input itself has an
   * error response, and that response carries the id `null`.
   */
  lemma ReadFailuresAnswered(data: seq<byte>, start: nat, parse: seq<byte> -> Option<Json>)
    requires start <= |data|
    requires ReadFrom(data, start, parse).0.Failed?
    requires !ReadFrom(data, start, parse).0.error.Internal?
    ensures ErrorToResponse(ReadFrom(data, start, parse).0.error).Some?
    ensures ErrorToResponse(ReadFrom(data, start, parse).0.error).value.id == Null
  {
    var e := ReadFrom(data, start, parse).0.error;
    match HeaderEnd(data, start)
    case Some(p) =>
      match ParseHeaders(data[start..p])
      case Err(_) =>
        assert e == MalformedHeaders;
      case Ok(_) =>
        assert e.InvalidRequest? && e.id == Null;
  }
}
