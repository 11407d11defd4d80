/** The JavaScript values that reach the service in a JSON body or a query
    string, with the three coercions the handlers apply to them: truthiness
    (`if (x)`, `!x`), `String(x)` and `parseInt`. */
module Js {
  import opened Common
  import opened Text

  /** A JavaScript value. Numbers are integers; arrays and other objects are
      one case. */
  datatype JsValue =
    | JsUndefined
    | JsNull
    | JsBool(b: bool)
    | JsNumber(n: int)
    | JsString(s: string)
    | JsObject

  /** The value counts as true in a condition. */
  predicate Truthy(v: JsValue) {
    match v
    case JsUndefined => false
    case JsNull => false
    case JsBool(b) => b
    case JsNumber(n) => n != 0
    case JsString(s) => s != []
    case JsObject => true
  }

  /** The decimal digits of `n`, most significant first. */
  function NatDecimal(n: nat): (r: string)
    ensures r != [] && forall i :: 0 <= i < |r| ==> IsDigit(r[i])
    decreases n
  {
    (if n < 10 then [] else NatDecimal(n / 10)) + [('0' as int + n % 10) as char]
  }

  /** `String(v)`. */
  function ToJsString(v: JsValue): string {
    match v
    case JsUndefined => "undefined"
    case JsNull => "null"
    case JsBool(b) => if b then "true" else "false"
    case JsNumber(n) => if n < 0 then "-" + NatDecimal(-n) else NatDecimal(n)
    case JsString(s) => s
    case JsObject => "[object Object]"
  }

  predicate IsHexDigit(c: char) {
    IsDigit(c) || 'a' <= c <= 'f' || 'A' <= c <= 'F'
  }

  /** The longest prefix of `s` made of hexadecimal digits. */
  function LeadingHexDigits(s: string): (r: string)
    ensures |r| <= |s|
  {
    if s != [] && IsHexDigit(s[0]) then [s[0]] + LeadingHexDigits(s[1..]) else []
  }

  function HexDigitValue(c: char): nat {
    if IsDigit(c) then c as int - '0' as int
    else if 'a' <= c <= 'f' then c as int - 'a' as int + 10
    else if 'A' <= c <= 'F' then c as int - 'A' as int + 10
    else 0
  }

  function HexValue(hs: string): nat {
    if hs == [] then 0 else HexValue(hs[..|hs| - 1]) * 16 + HexDigitValue(hs[|hs| - 1])
  }

  /** The digits `parseInt` reads once whitespace and sign are skipped. */
  function ParseMagnitude(u: string, hexPrefix: bool): Option<nat> {
    if hexPrefix && |u| >= 2 && u[0] == '0' && (u[1] == 'x' || u[1] == 'X') then
      var hs := LeadingHexDigits(u[2..]);
      if hs == [] then None else Some(HexValue(hs))
    else
      var ds := LeadingDigits(u);
      if ds == [] then None else Some(DecimalValue(ds))
  }

  /** `parseInt(text, 10)` when `hexPrefix` is false, `parseInt(text)` when it
      is true (a `0x` or `0X` prefix then selects base sixteen). Leading
      whitespace and one sign are skipped, then the longest run of digits is
      read and the rest ignored; `None` stands for NaN. */
  function ParseIntText(text: string, hexPrefix: bool): Option<int> {
    var t := TrimStart(text);
    var negative := t != [] && t[0] == '-';
    var u := if t != [] && (t[0] == '-' || t[0] == '+') then t[1..] else t;
    var magnitude := ParseMagnitude(u, hexPrefix);
    if magnitude.None? then None
    else if negative then Some(-(magnitude.value as int))
    else Some(magnitude.value)
  }

  /** `parseInt(v, 10)` or `parseInt(v)`: the value is first converted with `String`. */
  function ParseInt(v: JsValue, hexPrefix: bool): Option<int> {
    ParseIntText(ToJsString(v), hexPrefix)
  }

  lemma {:induction false} DecimalValueOfNatDecimal(n: nat)
    ensures DecimalValue(NatDecimal(n)) == n
    decreases n
  {
    var d := NatDecimal(n);
    if n >= 10 {
      DecimalValueOfNatDecimal(n / 10);
      assert d[..|d| - 1] == NatDecimal(n / 10);
    } else {
      assert d[..|d| - 1] == [];
    }
  }

  lemma {:induction false} LeadingDigitsOfDigits(s: string)
    requires forall i :: 0 <= i < |s| ==> IsDigit(s[i])
    ensures LeadingDigits(s) == s
  {
    if s != [] {
      LeadingDigitsOfDigits(s[1..]);
      assert s == [s[0]] + s[1..];
    }
  }

  lemma ParseMagnitudeOfDigits(d: string, hexPrefix: bool)
    requires d != [] && forall i :: 0 <= i < |d| ==> IsDigit(d[i])
    ensures ParseMagnitude(d, hexPrefix) == Some(DecimalValue(d))
  {
    assert |d| >= 2 ==> IsDigit(d[1]);
    LeadingDigitsOfDigits(d);
  }

  /** Once whitespace and sign are out of the way, `parseInt` reads the magnitude. */
  lemma ParseIntTextSign(text: string, hexPrefix: bool)
    requires text != [] && !IsWhitespace(text[0])
    ensures var u := if text[0] == '-' || text[0] == '+' then text[1..] else text;
            var m := ParseMagnitude(u, hexPrefix);
            ParseIntText(text, hexPrefix)
            == if m.None? then None else if text[0] == '-' then Some(-(m.value as int)) else Some(m.value)
  {
  }

  /** A sign (or none) followed by text whose magnitude is `v` parses to `v` or `-v`. */
  lemma ParseIntTextOfMagnitude(d: string, negative: bool, hexPrefix: bool, v: nat)
    requires d != [] && IsDigit(d[0])
    requires ParseMagnitude(d, hexPrefix) == Some(v)
    ensures ParseIntText((if negative then "-" else "") + d, hexPrefix)
         == Some(if negative then -(v as int) else v as int)
  {
    var text := (if negative then "-" else "") + d;
    assert text[0] == (if negative then '-' else d[0]);
    assert negative ==> text[1..] == d;
    ParseIntTextSign(text, hexPrefix);
  }

  /** `parseInt(String(n))` gives `n` back, with or without the radix. */
  lemma ParseIntOfNumber(n: int, hexPrefix: bool)
    ensures ParseInt(JsNumber(n), hexPrefix) == Some(n)
  {
    var m: nat := if n < 0 then -n else n;
    var d := NatDecimal(m);
    DecimalValueOfNatDecimal(m);
    ParseMagnitudeOfDigits(d, hexPrefix);
    ParseIntTextOfMagnitude(d, n < 0, hexPrefix, m);
    NumberAsText(n);
  }

  /** `String(n)`: a minus sign for a negative number, then the digits of
      its magnitude. */
  lemma NumberAsText(n: int)
    ensures ToJsString(JsNumber(n)) == (if n < 0 then "-" else "") + NatDecimal(if n < 0 then -n else n)
  {
    if n >= 0 {
      assert "" + NatDecimal(n) == NatDecimal(n);
    }
  }
}
