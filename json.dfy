/**
 * An abstract JSON value, standing for `serde_json::Value`, with the
 * field-level decoding rules that serde's derived deserialisers follow and
 * `Value::pointer`. The JSON text grammar itself is not part of this model:
 * where the server turns bytes into a value or back, the conversion is a
 * parameter.
 */
module Json {
  import opened Wrappers
  import opened Text

  /** A JSON value. Integers only: floating-point numbers are not modelled. */
  datatype Json =
    | JNull
    | JBool(b: bool)
    | JNumber(n: int)
    | JString(s: string)
    | JArray(items: seq<Json>)
    | JObject(members: map<string, Json>)

  /** The member `key` of an object; nothing for a missing key or a non-object. */
  function Get(j: Json, key: string): (r: Option<Json>)
    ensures r.Some? <==> j.JObject? && key in j.members
  {
    if j.JObject? && key in j.members then Some(j.members[key]) else None
  }

  function DecodeString(j: Json): Option<string> {
    if j.JString? then Some(j.s) else None
  }

  function DecodeBool(j: Json): Option<bool> {
    if j.JBool? then Some(j.b) else None
  }

  /** A `usize`: a JSON integer in [0, 2^64). */
  function DecodeUsize(j: Json): Option<usize> {
    if j.JNumber? && 0 <= j.n < USIZE_LIMIT then Some(j.n as usize) else None
  }

  /** An `i32`: a JSON integer in [-2^31, 2^31). */
  function DecodeI32(j: Json): Option<i32> {
    if j.JNumber? && -0x8000_0000 <= j.n < 0x8000_0000 then Some(j.n as i32) else None
  }

  /**
   * A `Vec<T>` from a JSON array's elements: every element must decode, and
   * the decoded elements keep their order.
   */
  function DecodeAll<T>(items: seq<Json>, decode: Json -> Option<T>): (r: Option<seq<T>>)
    ensures r.Some? <==> forall i | 0 <= i < |items| :: decode(items[i]).Some?
    ensures r.Some? ==> |r.value| == |items|
    ensures r.Some? ==> forall i | 0 <= i < |items| :: decode(items[i]) == Some(r.value[i])
  {
    if items == [] then Some([])
    else
      match (decode(items[0]), DecodeAll(items[1..], decode))
      case (Some(x), Some(xs)) =>
        var r := [x] + xs;
        assert forall i | 1 <= i < |items| :: items[i] == items[1..][i - 1] && r[i] == xs[i - 1];
        Some(r)
      case (None, _) => None
      case (_, None) =>
        var i :| 0 <= i < |items[1..]| && decode(items[1..][i]).None?;
        assert decode(items[i + 1]).None?;
        None
  }

  /** The elements of a sequence, each encoded. */
  function EncodeAll<T>(xs: seq<T>, encode: T -> Json): (items: seq<Json>)
    ensures |items| == |xs|
    ensures forall i | 0 <= i < |xs| :: items[i] == encode(xs[i])
  {
    seq(|xs|, i requires 0 <= i < |xs| => encode(xs[i]))
  }

  /** Decoding undoes encoding element by element, so it undoes it for a whole sequence. */
  lemma DecodeAllEncodeAll<T>(xs: seq<T>, encode: T -> Json, decode: Json -> Option<T>)
    requires forall x :: decode(encode(x)) == Some(x)
    ensures DecodeAll(EncodeAll(xs, encode), decode) == Some(xs)
  {
    var items := EncodeAll(xs, encode);
    assert forall i | 0 <= i < |items| :: decode(items[i]) == Some(xs[i]);
    var r := DecodeAll(items, decode);
    assert r.value == xs;
  }

  /**
   * A required struct field: present and decodable. (serde ignores members
   * that name no field, so other members do not matter.)
   */
  /** The member `key` is present and decodes. */
  predicate Decodes<T>(j: Json, key: string, decode: Json -> Option<T>) {
    Get(j, key).Some? && decode(Get(j, key).value).Some?
  }

  /** The member `key` is present and decodes as `x`. */
  predicate Member<T(==)>(j: Json, key: string, decode: Json -> Option<T>, x: T) {
    Get(j, key).Some? && decode(Get(j, key).value) == Some(x)
  }

  /** The member `key` is missing or `null`. */
  predicate Absent(j: Json, key: string) {
    Get(j, key).None? || Get(j, key) == Some(JNull)
  }

  /** An optional member: `None` when it is missing or `null`, otherwise what it decodes as. */
  predicate OptionalMember<T(==)>(j: Json, key: string, decode: Json -> Option<T>, x: Option<T>) {
    if Absent(j, key) then x.None? else x.Some? && Member(j, key, decode, x.value)
  }

  function Required<T(==)>(j: Json, key: string, decode: Json -> Option<T>): (r: Option<T>)
    ensures r.Some? <==> Decodes(j, key, decode)
    ensures r.Some? ==> Member(j, key, decode, r.value)
  {
    match Get(j, key)
    case Some(v) => decode(v)
    case None => None
  }

  /**
   * An `Option<T>` struct field: a missing member or `null` gives `None`;
   * anything else must decode. The outer `None` is a decoding failure.
   */
  function Optional<T(==)>(j: Json, key: string, decode: Json -> Option<T>): (r: Option<Option<T>>)
    ensures Absent(j, key) ==> r == Some(None)
    ensures r.Some? <==> Absent(j, key) || Decodes(j, key, decode)
    ensures r.Some? ==> OptionalMember(j, key, decode, r.value)
  {
    match Get(j, key)
    case None => Some(None)
    case Some(JNull) => Some(None)
    case Some(v) =>
      match decode(v)
      case Some(x) => Some(Some(x))
      case None => None
  }

  /** A `serde_json::Value` field is written as the value itself. */
  function AnyJson(j: Json): Json {
    j
  }

  /** A `serde_json::Value` field accepts any JSON value as itself. */
  function DecodeAny(j: Json): Option<Json> {
    Some(j)
  }

  /** An `Option` written as a value: `None` becomes `null`. */
  function OrNull<T>(x: Option<T>, encode: T -> Json): Json {
    if x.Some? then encode(x.value) else JNull
  }

  /**
   * An optional field written by `OrNull` reads back as itself, unless its
   * value encodes as `null`, which reads back as absent.
   */
  lemma OptionalOrNull<T>(j: Json, key: string, x: Option<T>, encode: T -> Json, decode: Json -> Option<T>)
    requires Get(j, key) == Some(OrNull(x, encode))
    requires x.Some? ==> decode(encode(x.value)) == Some(x.value) && encode(x.value) != JNull
    ensures Optional(j, key, decode) == Some(x)
  {
  }

  /**
   * `serde_json::Value::pointer`, which follows section 3 of RFC 6901: the
   * empty pointer is the whole value; any other pointer must start with `/`,
   * and each `/`-separated reference token, with `~1` read as `/` and then
   * `~0` as `~`, selects an object member or an array element.
   */
  function Pointer(v: Json, pointer: string): (r: Option<Json>)
    ensures pointer == [] ==> r == Some(v)
    ensures pointer != [] && pointer[0] != '/' ==> r.None?
  {
    if pointer == [] then Some(v)
    else if pointer[0] != '/' then None
    else
      var tokens := Split(pointer, '/');
      Walk(v, tokens[1..])
  }

  /** The reference token `token` with its escapes undone. */
  function Unescape(token: string): string {
    Replace(Replace(token, "~1", "/"), "~0", "~")
  }

  /** Follows already-split reference tokens from `v`. */
  function Walk(v: Json, tokens: seq<string>): Option<Json>
    decreases |tokens|
  {
    if tokens == [] then Some(v)
    else
      var token := Unescape(tokens[0]);
      match v
      case JObject(m) =>
        if token in m then Walk(m[token], tokens[1..]) else None
      case JArray(items) =>
        (match ArrayIndex(token)
         case Some(i) => if i < |items| then Walk(items[i], tokens[1..]) else None
         case None => None)
      case _ => None
  }

  /**
   * serde_json's `parse_index`: a reference token names an array element
   * when it is a decimal number without sign and without leading zero.
   */
  function ArrayIndex(token: string): Option<usize> {
    if |token| > 0 && (token[0] == '+' || (token[0] == '0' && |token| != 1)) then None
    else ParseUsize(Ascii(token))
  }

  /**
   * `/key`, for a key without `/` or `~`, selects exactly the member `key`
   * of an object (and nothing in a value that is neither object nor array).
   */
  lemma {:induction false} PointerToMember(v: Json, key: string)
    requires !v.JArray?
    requires '/' !in key && '~' !in key
    ensures Pointer(v, "/" + key) == Get(v, key)
  {
    var pointer := "/" + key;
    assert pointer == [] + ['/'] + key;
    SplitAfterPiece([], '/', key);
    SplitNoSeparator(key, '/');
    var tokens := Split(pointer, '/');
    assert tokens[1..] == [key];
    NotOccursWithout("~1", key, 0);
    ReplaceAbsent(key, "~1", "/");
    NotOccursWithout("~0", key, 0);
    ReplaceAbsent(key, "~0", "~");
    assert Unescape(key) == key;
    assert Walk(v, [key]) == Get(v, key);
  }
}
