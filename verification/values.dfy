/**
 * JavaScript values as the project map's scripts see them: the primitive
 * values stored in feature properties, `String(v)`, `Number(v)`,
 * truthiness, `==  null`, `??` and `String.prototype.trim`.
 *
 * Numbers are integers here; fractional, exponent and hexadecimal numerals
 * are outside the model (see README).
 */
module Values {

  datatype Option<T> = None | Some(value: T)

  /** A primitive JavaScript value as found in a feature's properties. */
  datatype Value = Undefined | Null | Bool(b: bool) | Num(n: int) | Str(s: string)

  /** The result of `Number(v)`: a finite integer or NaN. */
  datatype JsNum = Finite(i: int) | NaN

  /** A feature's `properties` object; an absent key reads as `undefined`. */
  type Props = map<string, Value>

  /** GeoJSON coordinates, copied through as they come. */
  type Coords = seq<seq<seq<real>>>

  /** A GeoJSON geometry. */
  datatype Geometry =
    | Point(position: seq<real>)
    | MultiLineString(lines: Coords)
    | Polygon(rings: Coords)
    | OtherGeometry(kind: string)

  /** A GeoJSON-like feature: `{ properties, geometry }`. */
  datatype Feature = Feature(properties: Props, geometry: Option<Geometry>)

  function Get(p: Props, key: string): (v: Value)
    ensures key !in p ==> v == Undefined
    ensures key in p ==> v == p[key]
  {
    if key in p then p[key] else Undefined
  }

  /** `feature.properties.OBJECTID` */
  function ObjectIdOf(f: Feature): Value {
    Get(f.properties, "OBJECTID")
  }

  /** `v == null` (loose equality with null). */
  predicate IsNullish(v: Value) {
    v.Undefined? || v.Null?
  }

  /** `!!v` */
  predicate Truthy(v: Value) {
    match v
    case Undefined => false
    case Null => false
    case Bool(b) => b
    case Num(n) => n != 0
    case Str(s) => s != ""
  }

  /** `a || b` */
  function Or(a: Value, b: Value): (r: Value)
    ensures Truthy(a) ==> r == a
    ensures !Truthy(a) ==> r == b
  {
    if Truthy(a) then a else b
  }

  /** `a ?? b` */
  function Coalesce(a: Value, b: Value): (r: Value)
    ensures IsNullish(a) ==> r == b
    ensures !IsNullish(a) ==> r == a
  {
    if IsNullish(a) then b else a
  }

  // ---------------------------------------------------------------
  // Decimal numerals
  // ---------------------------------------------------------------

  predicate IsDigit(c: char) {
    '0' <= c <= '9'
  }

  /** One or more decimal digits and nothing else: the `\d+` of a regex. */
  predicate IsDigits(s: string) {
    |s| > 0 && forall i :: 0 <= i < |s| ==> IsDigit(s[i])
  }

  function DigitChar(d: nat): (c: char)
    requires d < 10
    ensures IsDigit(c) && c as int - '0' as int == d
  {
    ['0', '1', '2', '3', '4', '5', '6', '7', '8', '9'][d]
  }

  function DigitValue(c: char): (d: nat)
    requires IsDigit(c)
    ensures d < 10
  {
    c as int - '0' as int
  }

  /** The shortest decimal numeral of `n`, as `String(n)` writes it. */
  function NatToDecimal(n: nat): (s: string)
    ensures IsDigits(s)
    decreases n
  {
    if n < 10 then [DigitChar(n)] else NatToDecimal(n / 10) + [DigitChar(n % 10)]
  }

  /** `String(n)` for an integer-valued number. */
  function IntToDecimal(n: int): (s: string)
    ensures n >= 0 ==> IsDigits(s)
    ensures n < 0 ==> |s| > 1 && s[0] == '-' && IsDigits(s[1..])
  {
    if n < 0 then "-" + NatToDecimal(-n) else NatToDecimal(n)
  }

  /** The value of a run of decimal digits (leading zeros allowed). */
  function DigitsValue(s: string): nat
    requires IsDigits(s)
    decreases |s|
  {
    if |s| == 1 then DigitValue(s[0])
    else DigitsValue(s[..|s| - 1]) * 10 + DigitValue(s[|s| - 1])
  }

  lemma {:induction false} DigitsValueOfDecimal(n: nat)
    ensures DigitsValue(NatToDecimal(n)) == n
    decreases n
  {
    if n >= 10 {
      var s := NatToDecimal(n);
      assert s[..|s| - 1] == NatToDecimal(n / 10);
      DigitsValueOfDecimal(n / 10);
    }
  }

  /** `String(v)` */
  function ToStr(v: Value): string {
    match v
    case Undefined => "undefined"
    case Null => "null"
    case Bool(b) => if b then "true" else "false"
    case Num(n) => IntToDecimal(n)
    case Str(s) => s
  }

  /** `String(v ?? '')`: nullish values become the empty string. */
  function ToStrOrEmpty(v: Value): (s: string)
    ensures IsNullish(v) ==> s == ""
    ensures !IsNullish(v) ==> s == ToStr(v)
  {
    ToStr(Coalesce(v, Str("")))
  }

  // ---------------------------------------------------------------
  // String.prototype.trim
  // ---------------------------------------------------------------

  /** The WhiteSpace and LineTerminator code points that `trim` removes. */
  predicate IsJsWhitespace(c: char) {
    var k := c as int;
    k == 0x09 || k == 0x0A || k == 0x0B || k == 0x0C || k == 0x0D || k == 0x20
    || k == 0xA0 || k == 0x1680 || (0x2000 <= k <= 0x200A)
    || k == 0x2028 || k == 0x2029 || k == 0x202F || k == 0x205F
    || k == 0x3000 || k == 0xFEFF
  }

  function TrimStart(s: string): string {
    if s != [] && IsJsWhitespace(s[0]) then TrimStart(s[1..]) else s
  }

  function TrimEnd(s: string): string {
    if s != [] && IsJsWhitespace(s[|s| - 1]) then TrimEnd(s[..|s| - 1]) else s
  }

  /** `s.trim()` */
  function Trim(s: string): string {
    TrimEnd(TrimStart(s))
  }

  /** `String(v).trim() === ''` */
  predicate IsBlank(v: Value) {
    Trim(ToStr(v)) == ""
  }

  lemma TrimNoWhitespace(s: string)
    requires forall i :: 0 <= i < |s| ==> !IsJsWhitespace(s[i])
    ensures Trim(s) == s
  {
  }

  // ---------------------------------------------------------------
  // Number(v)
  // ---------------------------------------------------------------

  /**
   * `Number(s)` for a string: surrounding whitespace is ignored, the empty
   * string is 0, an optionally signed run of decimal digits is its value,
   * anything else is NaN.
   */
  function StringToNumber(s: string): JsNum {
    var t := Trim(s);
    if t == "" then Finite(0)
    else if IsDigits(t) then Finite(DigitsValue(t))
    else if (t[0] == '+' || t[0] == '-') && IsDigits(t[1..]) then
      var m := DigitsValue(t[1..]);
      Finite(if t[0] == '-' then 0 - m else m)
    else NaN
  }

  /** `Number(v)` */
  function ToNumber(v: Value): JsNum {
    match v
    case Undefined => NaN
    case Null => Finite(0)
    case Bool(b) => Finite(if b then 1 else 0)
    case Num(n) => Finite(n)
    case Str(s) => StringToNumber(s)
  }

  /** Reading back a written integer gives the integer. */
  lemma NumberOfString(n: int)
    ensures StringToNumber(IntToDecimal(n)) == Finite(n)
  {
    var s := IntToDecimal(n);
    if n < 0 {
      var d := NatToDecimal(-n);
      assert s == "-" + d && s[1..] == d;
      SignedNumeralTrim(d);
      assert !IsDigits(s) by { assert !IsDigit(s[0]); }
      DigitsValueOfDecimal(-n);
    } else {
      TrimNoWhitespace(s);
      DigitsValueOfDecimal(n);
    }
  }

  lemma SignedNumeralTrim(d: string)
    requires IsDigits(d)
    ensures Trim("-" + d) == "-" + d
  {
    var s := "-" + d;
    forall i | 0 <= i < |s| ensures !IsJsWhitespace(s[i]) {
      if i > 0 { assert s[i] == d[i - 1]; }
    }
    TrimNoWhitespace(s);
  }

  /** `Number(String(v))` round trip on integer values. */
  lemma NumberOfToStr(n: int)
    ensures ToNumber(Str(ToStr(Num(n)))) == ToNumber(Num(n))
  {
    NumberOfString(n);
  }

  // ---------------------------------------------------------------
  // String helpers
  // ---------------------------------------------------------------

  predicate StartsWith(s: string, prefix: string) {
    |prefix| <= |s| && s[..|prefix|] == prefix
  }

  /** ASCII lower-casing, the part of `toLowerCase` the model keeps. */
  function LowerChar(c: char): (r: char)
    ensures 'A' <= c <= 'Z' ==> r as int == c as int + 32
    ensures !('A' <= c <= 'Z') ==> r == c
  {
    if 'A' <= c <= 'Z' then (c as int + 32) as char else c
  }

  function ToLower(s: string): (r: string)
    ensures |r| == |s|
    ensures forall i :: 0 <= i < |s| ==> r[i] == LowerChar(s[i])
  {
    if s == [] then [] else [LowerChar(s[0])] + ToLower(s[1..])
  }

  /** The number of occurrences of `c` in `s`. */
  function Count(s: string, c: char): nat {
    if s == [] then 0 else (if s[0] == c then 1 else 0) + Count(s[1..], c)
  }
}
