// JSON documents as the configuration code reads and builds them through
// ArduinoJson: values, and the lookups and defaulting conversions the
// firmware uses (`doc["k"]`, `containsKey`, `v | default`, `as<int>()`, `as<uint8_t>()`).
// Text serialisation and parsing are library internals and are not modelled.

module Json {
  import opened Common

  datatype Json =
    | JNull
    | JBool(b: bool)
    | JInt(i: int)
    | JStr(s: string)
    | JArr(items: seq<Json>)
    | JObj(fields: map<string, Json>)

  const INT_MIN: int := -0x8000_0000
  const INT_MAX: int := 0x7FFF_FFFF

  /** `j[key]`: null unless `j` is an object holding `key`. */
  function Get(j: Json, key: string): Json
  {
    if j.JObj? && key in j.fields then j.fields[key] else JNull
  }

  /** `containsKey` */
  predicate Has(j: Json, key: string)
  {
    j.JObj? && key in j.fields
  }

  /** `v | d` for an `int` default: the value if it is an integer that fits an `int`. */
  function IntOr(v: Json, d: int): int
  {
    if v.JInt? && INT_MIN <= v.i <= INT_MAX then v.i else d
  }

  predicate AllDigits(s: string)
  {
    forall i :: 0 <= i < |s| ==> IsDigit(s[i])
  }

  /**
   * The integer a string spells when all of it is a run of decimal digits,
   * optionally after one '-' or '+' sign (ArduinoJson's number parsing of a
   * string, for integer text); None for any other text.
   */
  function IntegerText(s: string): Option<int>
  {
    if |s| > 0 && (s[0] == '-' || s[0] == '+') then
      var d := s[1..];
      if |d| > 0 && AllDigits(d) then
        var v: int := DigitsValue(d);
        var n: int := if s[0] == '-' then 0 - v else v;
        Some(n)
      else None
    else if |s| > 0 && AllDigits(s) then Some(DigitsValue(s))
    else None
  }

  /**
   * `int x = v` (ArduinoJson 6's `as<int>()`): an integer that fits an
   * `int` as itself, a boolean as 0 or 1, a string spelling an integer that
   * fits an `int` as that integer, and anything else as 0.
   */
  function AsInt(v: Json): (r: int)
    ensures INT_MIN <= r <= INT_MAX
    ensures v.JInt? ==> r == IntOr(v, 0)
    ensures v.JBool? ==> r == (if v.b then 1 else 0)
    ensures (v.JNull? || v.JArr? || v.JObj?) ==> r == 0
  {
    match v
    case JInt(i) => if INT_MIN <= i <= INT_MAX then i else 0
    case JBool(b) => if b then 1 else 0
    case JStr(s) =>
      var n := IntegerText(s);
      if n.Some? && INT_MIN <= n.value <= INT_MAX then n.value else 0
    case _ => 0
  }

  /** A string holding the decimal text of an `int` converts to that `int`. */
  lemma AsIntReadsText(x: int)
    requires INT_MIN <= x <= INT_MAX
    ensures AsInt(JStr(IntToString(x))) == x
  {
    var s := IntToString(x);
    if x < 0 {
      assert s[1..] == NatToString(-x);
      NatToStringRoundTrip(-x);
    } else {
      assert IsDigit(s[0]);
      NatToStringRoundTrip(x);
    }
  }

  /** `v | d` for a `bool` default. */
  function BoolOr(v: Json, d: bool): bool
  {
    if v.JBool? then v.b else d
  }

  /** `const char* p = v`: a string, or NULL for anything else. */
  function StrOrNull(v: Json): Option<string>
  {
    if v.JStr? then Some(v.s) else None
  }

  /** Iterating `JsonArray a = v`: no elements unless `v` is an array. */
  function Items(v: Json): seq<Json>
  {
    if v.JArr? then v.items else []
  }

  /**
   * `uint8_t x = v` (`as<uint8_t>()`): the same conversion as `AsInt`, with
   * a result outside 0..255 read as 0.
   */
  function ByteOf(v: Json): (r: byte)
    ensures v.JInt? ==> r == (if 0 <= v.i < 0x100 then v.i else 0)
    ensures v.JBool? ==> r == (if v.b then 1 else 0)
    ensures (v.JNull? || v.JArr? || v.JObj?) ==> r == 0
  {
    var n := AsInt(v);
    if 0 <= n < 0x100 then n else 0
  }

  /** A string holding the decimal text of a byte converts to that byte. */
  lemma ByteOfReadsText(b: byte)
    ensures ByteOf(JStr(NatToString(b))) == b
  {
    AsIntReadsText(b);
  }
}
