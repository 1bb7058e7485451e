/**
 * Bytes, machine-width integers and the few string operations of Rust's
 * standard library that the server relies on: `str::replace`, `str::split`,
 * decimal formatting and parsing of unsigned integers.
 */
module Text {
  import opened Wrappers

  type byte = b: int | 0 <= b < 0x100

  /** 2^64: the first value that does not fit a `usize` on a 64-bit target. */
  const USIZE_LIMIT: nat := 0x1_0000_0000_0000_0000

  type usize = n: nat | n < USIZE_LIMIT
  type u32 = n: nat | n < 0x1_0000_0000
  type i32 = n: int | -0x8000_0000 <= n < 0x8000_0000

  const CR: byte := 13
  const LF: byte := 10

  /** The byte an ASCII character is written as (0 for anything else). */
  function AsciiByte(c: char): byte {
    if c as int < 128 then c as int else 0
  }

  /**
   * The bytes of a protocol literal. Every literal the server writes or
   * matches is plain ASCII, so each character is one byte.
   */
  function Ascii(s: string): (r: seq<byte>)
    ensures |r| == |s|
    ensures forall i | 0 <= i < |s| :: r[i] == AsciiByte(s[i])
  {
    seq(|s|, i requires 0 <= i < |s| => AsciiByte(s[i]))
  }

  lemma AsciiConcat(a: string, b: string)
    ensures Ascii(a + b) == Ascii(a) + Ascii(b)
  {
  }

  /**
   * An ASCII character other than NUL occurs among the bytes of `s` exactly
   * when it occurs in `s`; this is how facts about literals carry over.
   */
  lemma AsciiMember(s: string, c: char)
    requires 0 < c as int < 128
    ensures (c as int in Ascii(s)) <==> c in s
  {
    if c in s {
      var i :| 0 <= i < |s| && s[i] == c;
      assert Ascii(s)[i] == c as int;
    }
    if c as int in Ascii(s) {
      var i :| 0 <= i < |Ascii(s)| && Ascii(s)[i] == c as int;
      assert s[i] == c;
    }
  }

  predicate IsDigit(b: byte) {
    '0' as int <= b <= '9' as int
  }

  predicate AllDigits(ds: seq<byte>) {
    forall i | 0 <= i < |ds| :: IsDigit(ds[i])
  }

  /** The number a run of decimal digits stands for, most significant first. */
  function DigitsValue(ds: seq<byte>): nat
    requires AllDigits(ds)
  {
    if ds == [] then 0 else DigitsValue(ds[..|ds| - 1]) * 10 + (ds[|ds| - 1] - '0' as int)
  }

  /**
   * Rust's `{}` formatting of an unsigned integer: its decimal digits, with
   * no leading zero.
   */
  function Decimal(n: nat): (ds: seq<byte>)
    ensures |ds| > 0 && AllDigits(ds)
    ensures DigitsValue(ds) == n
    ensures |ds| > 1 ==> ds[0] != '0' as int
  {
    if n < 10 then [n + '0' as int]
    else
      var prefix := Decimal(n / 10);
      var ds := prefix + [n % 10 + '0' as int];
      assert ds[..|ds| - 1] == prefix;
      ds
  }

  /**
   * `str::parse::<usize>` on text that carries no sign: a non-empty run of
   * decimal digits whose value fits 64 bits.
   */
  function ParseUsize(ds: seq<byte>): (r: Option<usize>)
    ensures r.Some? <==> |ds| > 0 && AllDigits(ds) && DigitsValue(ds) < USIZE_LIMIT
    ensures r.Some? ==> r.value == DigitsValue(ds)
  {
    if |ds| > 0 && AllDigits(ds) && DigitsValue(ds) < USIZE_LIMIT then Some(DigitsValue(ds)) else None
  }

  /** Formatting then parsing a `usize` gives it back. */
  lemma {:induction false} DecimalParses(n: usize)
    ensures ParseUsize(Decimal(n)) == Some(n)
  {
  }

  /** `pat` occurs in `s` starting at index `i`. */
  predicate OccursAt(pat: string, s: string, i: nat) {
    i + |pat| <= |s| && s[i..i + |pat|] == pat
  }

  /** `pat` occurs somewhere in `s`. */
  ghost predicate Occurs(pat: string, s: string) {
    exists i: nat :: OccursAt(pat, s, i)
  }

  /** A pattern with a character that is missing from `s` does not occur in it. */
  lemma NotOccursWithout(pat: string, s: string, k: nat)
    requires k < |pat| && pat[k] !in s
    ensures !Occurs(pat, s)
  {
    forall i: nat ensures !OccursAt(pat, s, i) {
      if i + |pat| <= |s| {
        assert s[i..i + |pat|][k] == s[i + k];
      }
    }
  }

  /**
   * Rust's `str::replace`: every non-overlapping occurrence of `from`,
   * searched for from left to right, becomes `to`. No character appears
   * that is in neither the input nor the replacement.
   */
  function Replace(s: string, from: string, to: string): (r: string)
    requires from != []
    ensures forall c | c in r :: c in s || c in to
    decreases |s|
  {
    if |s| < |from| then s
    else if s[..|from|] == from then to + Replace(s[|from|..], from, to)
    else [s[0]] + Replace(s[1..], from, to)
  }

  /** An occurrence at the start is replaced, and the search goes on after it. */
  lemma ReplaceAtHead(from: string, t: string, to: string)
    requires from != []
    ensures Replace(from + t, from, to) == to + Replace(t, from, to)
  {
    assert (from + t)[..|from|] == from && (from + t)[|from|..] == t;
  }

  /** Where `from` does not occur, `Replace` changes nothing. */
  lemma {:induction false} ReplaceAbsent(s: string, from: string, to: string)
    requires from != [] && !Occurs(from, s)
    ensures Replace(s, from, to) == s
    decreases |s|
  {
    if |s| >= |from| {
      assert !OccursAt(from, s, 0);
      if Occurs(from, s[1..]) {
        var i: nat :| OccursAt(from, s[1..], i);
        assert OccursAt(from, s, i + 1) by {
          assert s[i + 1..i + 1 + |from|] == s[1..][i..i + |from|];
        }
        assert false;
      }
      ReplaceAbsent(s[1..], from, to);
    }
  }

  /** The inverse of `Split`: the pieces with `sep` between each two. */
  function Join(parts: seq<string>, sep: char): string
    requires |parts| > 0
  {
    if |parts| == 1 then parts[0] else parts[0] + [sep] + Join(parts[1..], sep)
  }

  /**
   * Rust's `str::split` on one character: the pieces between the
   * separators. There is always at least one piece, no piece contains the
   * separator, and joining the pieces gives back the text.
   */
  function Split(s: string, sep: char): (parts: seq<string>)
    ensures |parts| > 0
    ensures forall i | 0 <= i < |parts| :: sep !in parts[i]
    ensures Join(parts, sep) == s
    decreases |s|
  {
    if s == [] then [""]
    else
      var rest := Split(s[1..], sep);
      if s[0] == sep then
        var parts := [""] + rest;
        assert parts[1..] == rest;
        parts
      else
        var parts := [[s[0]] + rest[0]] + rest[1..];
        assert |rest| > 1 ==> parts[1..] == rest[1..] && Join(rest, sep) == rest[0] + [sep] + Join(rest[1..], sep);
        parts
  }

  /** Text without the separator splits into itself alone. */
  lemma {:induction false} SplitNoSeparator(s: string, sep: char)
    requires sep !in s
    ensures Split(s, sep) == [s]
    decreases |s|
  {
    if s != [] {
      SplitNoSeparator(s[1..], sep);
      assert [s[0]] + s[1..] == s;
    }
  }

  /** A separator-free first piece is split off whole. */
  lemma {:induction false} SplitAfterPiece(p: string, sep: char, t: string)
    requires sep !in p
    ensures Split(p + [sep] + t, sep) == [p] + Split(t, sep)
    decreases |p|
  {
    if p == [] {
      assert p + [sep] + t == [sep] + t;
      assert ([sep] + t)[1..] == t;
    } else {
      SplitAfterPiece(p[1..], sep, t);
      assert (p + [sep] + t)[1..] == p[1..] + [sep] + t;
      assert [p[0]] + p[1..] == p;
    }
  }

  /** Splitting undoes joining pieces that do not contain the separator. */
  lemma {:induction false} SplitJoin(parts: seq<string>, sep: char)
    requires |parts| > 0
    requires forall i | 0 <= i < |parts| :: sep !in parts[i]
    ensures Split(Join(parts, sep), sep) == parts
    decreases |parts|
  {
    if |parts| == 1 {
      SplitNoSeparator(parts[0], sep);
    } else {
      SplitJoin(parts[1..], sep);
      SplitAfterPiece(parts[0], sep, Join(parts[1..], sep));
      assert [parts[0]] + parts[1..] == parts;
    }
  }

  /** Joining splits off the last piece after the last separator. */
  lemma {:induction false} JoinLast(parts: seq<string>, sep: char)
    requires |parts| > 1
    ensures Join(parts, sep) == Join(parts[..|parts| - 1], sep) + [sep] + parts[|parts| - 1]
    decreases |parts|
  {
    if |parts| > 2 {
      JoinLast(parts[1..], sep);
      assert parts[1..][..|parts| - 2] == parts[..|parts| - 1][1..];
    }
  }

  /**
   * The last piece of `Split(s, sep)`: Rust's `split(sep).last().unwrap()`.
   * It is the longest suffix of `s` without the separator: it is either all
   * of `s` or follows a separator.
   */
  function LastPiece(s: string, sep: char): (r: string)
    ensures sep !in r
    ensures |r| <= |s| && r == s[|s| - |r|..]
    ensures |r| < |s| ==> s[|s| - |r| - 1] == sep
  {
    var parts := Split(s, sep);
    if |parts| > 1 then
      JoinLast(parts, sep);
      parts[|parts| - 1]
    else
      parts[0]
  }
}
