/**
 * The parts of the JavaScript runtime the calculator relies on: numbers with
 * NaN and the infinities, their arithmetic, `String(n)` and `parseFloat`.
 *
 * Finite numbers are exact reals, so binary rounding is not modelled. What the
 * model cannot compute (the Math library, `toPrecision`, the decimal rendering
 * of non-integers, `parseFloat` of strings that are not plain decimal
 * literals) is supplied by a `Platform` value passed to every operation.
 */
module JsRuntime {

  /** A JavaScript number. Signed zero is not distinguished. */
  datatype Num = Finite(r: real) | NaN | Infinity(negative: bool)

  /** Everything the calculator takes from the host without seeing its code. */
  datatype Platform = Platform(
    sin: Num -> Num, cos: Num -> Num, tan: Num -> Num,
    asin: Num -> Num, acos: Num -> Num, atan: Num -> Num,
    sqrt: Num -> Num, cbrt: Num -> Num, exp: Num -> Num,
    pow: (Num, Num) -> Num,
    pi: real,                  // Math.PI
    e: real,                   // Math.E
    round10: real -> real,     // Number(x.toPrecision(10))
    show: real -> string,      // Number::toString where it is not a plain integer
    parseOther: string -> Num  // parseFloat of a string that is not a plain literal
  )

  // ---------------------------------------------------------------------------
  // Arithmetic with NaN and the infinities (IEEE 754 special cases)

  function Neg(a: Num): Num {
    match a
    case Finite(x) => Finite(-x)
    case NaN => NaN
    case Infinity(n) => Infinity(!n)
  }

  function Add(a: Num, b: Num): Num {
    if a.NaN? || b.NaN? then NaN
    else if a.Infinity? && b.Infinity? then (if a.negative == b.negative then a else NaN)
    else if a.Infinity? then a
    else if b.Infinity? then b
    else Finite(a.r + b.r)
  }

  function Sub(a: Num, b: Num): Num {
    Add(a, Neg(b))
  }

  function Mul(a: Num, b: Num): Num {
    if a.NaN? || b.NaN? then NaN
    else if a.Finite? && b.Finite? then Finite(a.r * b.r)
    else if a.Infinity? && b.Infinity? then Infinity(a.negative != b.negative)
    else if a.Infinity? then (if b.r == 0.0 then NaN else Infinity(a.negative != (b.r < 0.0)))
    else if a.r == 0.0 then NaN else Infinity(b.negative != (a.r < 0.0))
  }

  function Div(a: Num, b: Num): Num {
    if a.NaN? || b.NaN? then NaN
    else if a.Finite? && b.Finite? then
      (if b.r != 0.0 then Finite(a.r / b.r) else if a.r == 0.0 then NaN else Infinity(a.r < 0.0))
    else if a.Infinity? && b.Infinity? then NaN
    else if a.Infinity? then Infinity(a.negative != (b.r < 0.0))
    else Finite(0.0)
  }

  function Abs(a: Num): Num {
    match a
    case Finite(x) => Finite(if x < 0.0 then -x else x)
    case NaN => NaN
    case Infinity(_) => Infinity(false)
  }

  /** `a < k`; every comparison with NaN is false. */
  predicate LessThan(a: Num, k: real) {
    match a
    case Finite(x) => x < k
    case NaN => false
    case Infinity(n) => n
  }

  /** `a > k`; every comparison with NaN is false. */
  predicate GreaterThan(a: Num, k: real) {
    match a
    case Finite(x) => x > k
    case NaN => false
    case Infinity(n) => !n
  }

  // ---------------------------------------------------------------------------
  // Decimal digits

  predicate IsDigit(c: char) {
    '0' <= c <= '9'
  }

  predicate AllDigits(s: string) {
    forall i :: 0 <= i < |s| ==> IsDigit(s[i])
  }

  function DigitValue(c: char): nat
    requires IsDigit(c)
  {
    c as int - '0' as int
  }

  function DigitChar(d: nat): (c: char)
    requires d < 10
    ensures IsDigit(c) && DigitValue(c) == d
  {
    ('0' as int + d) as char
  }

  /** The decimal numeral of `n`, without leading zeros. */
  function NatToDigits(n: nat): (s: string)
    ensures |s| > 0 && AllDigits(s)
    ensures |s| > 1 ==> s[0] != '0'
    decreases n
  {
    if n < 10 then [DigitChar(n)] else NatToDigits(n / 10) + [DigitChar(n % 10)]
  }

  /** Number::toString of an integer below 10^21 in magnitude. */
  function IntToString(i: int): string {
    if i < 0 then "-" + NatToDigits(-i) else NatToDigits(i)
  }

  predicate IsInteger(r: real) {
    r.Floor as real == r
  }

  /** 10^21: from here on Number::toString switches to exponent notation. */
  const TenTo21: real := 1000000000000000000000.0

  /** Number::toString of a finite number. */
  function NumberToString(p: Platform, r: real): string {
    if IsInteger(r) && -TenTo21 < r < TenTo21 then IntToString(r.Floor) else p.show(r)
  }

  /** `String(n)`, which is what a template literal `${n}` inserts. */
  function ToString(p: Platform, n: Num): string {
    match n
    case NaN => "NaN"
    case Infinity(negative) => if negative then "-Infinity" else "Infinity"
    case Finite(r) => NumberToString(p, r)
  }

  // ---------------------------------------------------------------------------
  // Plain decimal literals and parseFloat

  /** `s` without one leading minus sign. */
  function Unsigned(s: string): string {
    if |s| > 0 && s[0] == '-' then s[1..] else s
  }

  /** The index of the first '.', or |b| when there is none. */
  function DotIndex(b: string): (k: nat)
    ensures k <= |b|
    ensures forall i :: 0 <= i < k ==> b[i] != '.'
    ensures k < |b| ==> b[k] == '.'
  {
    if b == [] || b[0] == '.' then 0 else 1 + DotIndex(b[1..])
  }

  /** An optional '-', one or more digits, then optionally '.' and digits. */
  predicate IsPlainLiteral(s: string) {
    var b := Unsigned(s);
    var k := DotIndex(b);
    0 < k && AllDigits(b[..k]) && (k < |b| ==> AllDigits(b[k + 1..]))
  }

  /** The value of a digit string read as a whole number. */
  function DigitsValue(ds: string): nat
    requires AllDigits(ds)
  {
    if ds == [] then 0 else DigitsValue(ds[..|ds| - 1]) * 10 + DigitValue(ds[|ds| - 1])
  }

  /** The value of a digit string read after a decimal point. */
  function FractionValue(ds: string): real
    requires AllDigits(ds)
  {
    if ds == [] then 0.0 else (DigitValue(ds[0]) as real + FractionValue(ds[1..])) / 10.0
  }

  function LiteralValue(s: string): real
    requires IsPlainLiteral(s)
  {
    var b := Unsigned(s);
    var k := DotIndex(b);
    var magnitude := DigitsValue(b[..k]) as real + (if k < |b| then FractionValue(b[k + 1..]) else 0.0);
    if |s| > 0 && s[0] == '-' then -magnitude else magnitude
  }

  /**
   * `parseFloat(s)`: exact on plain decimal literals, NaN on the word "Error"
   * (it has no numeric prefix), and the host's answer for anything else.
   */
  function ParseFloat(p: Platform, s: string): Num {
    if IsPlainLiteral(s) then Finite(LiteralValue(s))
    else if s == "Error" then NaN
    else p.parseOther(s)
  }

  // ---------------------------------------------------------------------------
  // parseFloat undoes Number::toString on integers

  lemma {:induction false} DigitsValueOfNatToDigits(n: nat)
    ensures DigitsValue(NatToDigits(n)) == n
    decreases n
  {
    var s := NatToDigits(n);
    if n >= 10 {
      var front := NatToDigits(n / 10);
      assert s[..|s| - 1] == front;
      DigitsValueOfNatToDigits(n / 10);
    }
  }

  lemma NoDotIndex(b: string)
    requires AllDigits(b)
    ensures DotIndex(b) == |b|
  {
  }

  lemma {:induction false} IntToStringRoundTrip(p: Platform, i: int)
    ensures IsPlainLiteral(IntToString(i))
    ensures LiteralValue(IntToString(i)) == i as real
    ensures ParseFloat(p, IntToString(i)) == Finite(i as real)
  {
    var s := IntToString(i);
    var m: nat := if i < 0 then -i else i;
    var ds := NatToDigits(m);
    assert Unsigned(s) == ds by {
      if i >= 0 { assert IsDigit(ds[0]); }
    }
    NoDotIndex(ds);
    assert ds[..|ds|] == ds;
    DigitsValueOfNatToDigits(m);
  }

  lemma NumberToStringRoundTrip(p: Platform, r: real)
    requires IsInteger(r) && -TenTo21 < r < TenTo21
    ensures IsPlainLiteral(NumberToString(p, r))
    ensures ParseFloat(p, NumberToString(p, r)) == Finite(r)
  {
    IntToStringRoundTrip(p, r.Floor);
  }
}
