/**
 Just enough of JavaScript's values to reproduce the results the helpers are
 expected to compute: integers, NaN, strings and `undefined`, with the `+`
 operator and the number-to-string conversion it uses.
 */
module JsValues {

  datatype Value = Num(n: int) | NaN | Str(s: string) | Undefined

  predicate IsDigit(c: char) {
    '0' <= c <= '9'
  }

  predicate AllDigits(s: string) {
    forall i :: 0 <= i < |s| ==> IsDigit(s[i])
  }

  function DigitChar(d: nat): (c: char)
    requires d < 10
    ensures IsDigit(c) && c as int - '0' as int == d
  {
    ('0' as int + d) as char
  }

  /** The shortest decimal numeral of `n`. */
  function NatToDecimal(n: nat): (r: string)
    ensures |r| > 0 && AllDigits(r)
    ensures |r| > 1 ==> r[0] != '0'
    decreases n
  {
    if n < 10 then [DigitChar(n)] else NatToDecimal(n / 10) + [DigitChar(n % 10)]
  }

  /** The value of a decimal numeral. */
  function DecimalValue(s: string): nat
    requires AllDigits(s)
    decreases |s|
  {
    if s == [] then 0
    else DecimalValue(s[..|s| - 1]) * 10 + (s[|s| - 1] as int - '0' as int)
  }

  /** Reading back the numeral gives the number: distinct numbers print differently. */
  lemma {:induction false} DecimalRoundTrip(n: nat)
    ensures DecimalValue(NatToDecimal(n)) == n
    decreases n
  {
    if n >= 10 {
      var r := NatToDecimal(n);
      assert r[..|r| - 1] == NatToDecimal(n / 10);
      DecimalRoundTrip(n / 10);
    }
  }

  /** JavaScript's `String(n)` for an integer. */
  function IntToDecimal(i: int): string {
    if i < 0 then "-" + NatToDecimal(-i) else NatToDecimal(i)
  }

  /** A numeral as `String(n)` writes an integer: digits, optionally after a minus sign. */
  predicate IsNumeral(s: string) {
    AllDigits(s) || (|s| > 0 && s[0] == '-' && AllDigits(s[1..]))
  }

  /** The integer a numeral denotes. */
  function NumeralValue(s: string): int
    requires IsNumeral(s)
  {
    if |s| > 0 && s[0] == '-' then -(DecimalValue(s[1..]) as int) else DecimalValue(s)
  }

  /** Reading back what `String(i)` writes gives `i`, negative integers included. */
  lemma IntDecimalRoundTrip(i: int)
    ensures IsNumeral(IntToDecimal(i)) && NumeralValue(IntToDecimal(i)) == i
  {
    if i < 0 {
      var d := NatToDecimal(-i);
      assert ("-" + d)[1..] == d;
      DecimalRoundTrip(-i);
    } else {
      DecimalRoundTrip(i);
    }
  }

  /** JavaScript's string conversion of a value. */
  function ToJsString(v: Value): string {
    match v
    case Num(n) => IntToDecimal(n)
    case NaN => "NaN"
    case Str(s) => s
    case Undefined => "undefined"
  }

  /** JavaScript's `a + b`: concatenation as soon as one side is a string,
      otherwise numeric addition, where `undefined` becomes NaN. */
  function Plus(a: Value, b: Value): (r: Value)
    ensures a.Str? || b.Str? ==> r == Str(ToJsString(a) + ToJsString(b))
    ensures a.Num? && b.Num? ==> r == Num(a.n + b.n)
    ensures !a.Str? && !b.Str? && !(a.Num? && b.Num?) ==> r == NaN
  {
    if a.Str? || b.Str? then Str(ToJsString(a) + ToJsString(b))
    else if a.Num? && b.Num? then Num(a.n + b.n)
    else NaN
  }
}
