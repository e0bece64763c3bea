/**
 * JavaScript numbers. A finite number is an exact rational (`real`); the
 * special values NaN and ±Infinity follow IEEE 754. Rounding to binary
 * doubles is not modelled.
 */
module JsNumber {
  import opened Wrappers
  import opened JsString

  datatype Num = Finite(r: real) | NaN | Infinity(negative: bool)

  /** `Number.isFinite(n)`. */
  predicate IsFinite(n: Num) {
    n.Finite?
  }

  function FromInt(i: int): Num {
    Finite(i as real)
  }

  /** `a + b` on numbers. */
  function Add(a: Num, b: Num): Num {
    match (a, b)
    case (NaN, _) => NaN
    case (_, NaN) => NaN
    case (Infinity(x), Infinity(y)) => if x == y then a else NaN
    case (Infinity(_), _) => a
    case (_, Infinity(_)) => b
    case (Finite(x), Finite(y)) => Finite(x + y)
  }

  function Neg(a: Num): Num {
    match a
    case Finite(x) => Finite(-x)
    case Infinity(s) => Infinity(!s)
    case NaN => NaN
  }

  /** `a - b` on numbers. */
  function Sub(a: Num, b: Num): Num {
    Add(a, Neg(b))
  }

  /** `a * b` on numbers. */
  function Mul(a: Num, b: Num): Num {
    match (a, b)
    case (NaN, _) => NaN
    case (_, NaN) => NaN
    case (Finite(x), Finite(y)) => Finite(x * y)
    case (Infinity(s), Finite(y)) => if y == 0.0 then NaN else Infinity(s != (y < 0.0))
    case (Finite(x), Infinity(s)) => if x == 0.0 then NaN else Infinity(s != (x < 0.0))
    case (Infinity(s), Infinity(t)) => Infinity(s != t)
  }

  /** `a / b` on numbers (the sign of zero is not modelled). */
  function Div(a: Num, b: Num): Num {
    match (a, b)
    case (NaN, _) => NaN
    case (_, NaN) => NaN
    case (Finite(x), Finite(y)) =>
      if y != 0.0 then Finite(x / y)
      else if x == 0.0 then NaN
      else Infinity(x < 0.0)
    case (Finite(_), Infinity(_)) => Finite(0.0)
    case (Infinity(s), Finite(y)) => Infinity(s != (y < 0.0))
    case (Infinity(_), Infinity(_)) => NaN
  }

  /** `a < b`: false whenever either side is NaN. */
  predicate Less(a: Num, b: Num) {
    match (a, b)
    case (NaN, _) => false
    case (_, NaN) => false
    case (Finite(x), Finite(y)) => x < y
    case (Infinity(s), Infinity(t)) => s && !t
    case (Infinity(s), Finite(_)) => s
    case (Finite(_), Infinity(t)) => !t
  }

  /** `n > 0`. */
  predicate Positive(n: Num) {
    Less(Finite(0.0), n)
  }

  /** `Math.max(a, b)`: NaN when either argument is NaN. */
  function Max(a: Num, b: Num): Num {
    if a.NaN? || b.NaN? then NaN else if Less(a, b) then b else a
  }

  /** `Math.min(a, b)`: NaN when either argument is NaN. */
  function Min(a: Num, b: Num): Num {
    if a.NaN? || b.NaN? then NaN else if Less(b, a) then b else a
  }

  /** `Math.floor(n)`. */
  function Floor(n: Num): Num {
    match n
    case Finite(x) => Finite(x.Floor as real)
    case _ => n
  }

  // ---------------------------------------------------------------------
  // Number(string): the StringNumericLiteral grammar of ECMAScript.
  // ---------------------------------------------------------------------

  predicate IsDecimalDigit(c: char) {
    '0' <= c <= '9'
  }

  function DigitValue(c: char): nat {
    if '0' <= c <= '9' then (c as int - '0' as int)
    else if 'a' <= c <= 'f' then (c as int - 'a' as int) + 10
    else if 'A' <= c <= 'F' then (c as int - 'A' as int) + 10
    else 99
  }

  predicate IsDigitIn(c: char, base: nat) {
    DigitValue(c) < base
  }

  predicate AllDigitsIn(s: string, base: nat) {
    forall i :: 0 <= i < |s| ==> IsDigitIn(s[i], base)
  }

  /** The value of a digit string in the given base, most significant digit first. */
  function DigitsValue(s: string, base: nat): nat {
    if |s| == 0 then 0
    else DigitsValue(s[..|s| - 1], base) * base + DigitValue(s[|s| - 1])
  }

  /** The length of the run of decimal digits at the front of `s`. */
  function LeadingDigits(s: string): (k: nat)
    ensures k <= |s|
    ensures forall i :: 0 <= i < k ==> IsDecimalDigit(s[i])
    ensures k < |s| ==> !IsDecimalDigit(s[k])
  {
    if |s| > 0 && IsDecimalDigit(s[0]) then 1 + LeadingDigits(s[1..]) else 0
  }

  function Pow10(n: nat): (p: nat)
    ensures p >= 1
  {
    if n == 0 then 1 else 10 * Pow10(n - 1)
  }

  /** `[+-]? digits` filling the whole string: the exponent of a decimal literal. */
  function ParseExponent(s: string): Option<int> {
    if |s| > 0 && (s[0] == '+' || s[0] == '-') then
      var d := s[1..];
      if |d| > 0 && LeadingDigits(d) == |d| then
        Some(if s[0] == '-' then -(DigitsValue(d, 10) as int) else DigitsValue(d, 10) as int)
      else None
    else if |s| > 0 && LeadingDigits(s) == |s| then Some(DigitsValue(s, 10) as int)
    else None
  }

  function Scale(m: real, e: int): real {
    if e >= 0 then m * Pow10(e) as real else m / Pow10(-e) as real
  }

  /**
   * An unsigned decimal literal without "Infinity": `digits [. digits] [e exp]`
   * or `. digits [e exp]`, with at least one digit in the mantissa.
   */
  function ParseUnsignedDecimal(u: string): Option<real> {
    var i := LeadingDigits(u);
    var intPart := u[..i];
    var afterInt := u[i..];
    var hasDot := |afterInt| > 0 && afterInt[0] == '.';
    var fracLen := if hasDot then LeadingDigits(afterInt[1..]) else 0;
    var fracPart := if hasDot then afterInt[1..1 + fracLen] else "";
    var afterFrac := if hasDot then afterInt[1 + fracLen..] else afterInt;
    if |intPart| + |fracPart| == 0 then None
    else
      var mantissa := DigitsValue(intPart, 10) as real
                      + DigitsValue(fracPart, 10) as real / Pow10(|fracPart|) as real;
      if afterFrac == "" then Some(mantissa)
      else if afterFrac[0] == 'e' || afterFrac[0] == 'E' then
        match ParseExponent(afterFrac[1..])
        case Some(e) => Some(Scale(mantissa, e))
        case None => None
      else None
  }

  function ParseUnsigned(u: string): Num {
    if u == "Infinity" then Infinity(false)
    else match ParseUnsignedDecimal(u)
      case Some(x) => Finite(x)
      case None => NaN
  }

  /** `0x`, `0o` and `0b` literals (no sign allowed). */
  function ParseNonDecimal(t: string): Option<nat> {
    if |t| > 2 && t[0] == '0' then
      var base := if t[1] == 'x' || t[1] == 'X' then 16
                  else if t[1] == 'o' || t[1] == 'O' then 8
                  else if t[1] == 'b' || t[1] == 'B' then 2
                  else 0;
      if base != 0 && AllDigitsIn(t[2..], base) then Some(DigitsValue(t[2..], base)) else None
    else None
  }

  /**
   * `Number(s)` for a string: surrounding whitespace is ignored, the empty
   * string is 0, and anything that is not a numeric literal is NaN.
   */
  function StringToNumber(s: string): Num {
    var t := Trim(s);
    if t == "" then Finite(0.0)
    else match ParseNonDecimal(t)
      case Some(v) => Finite(v as real)
      case None =>
        if t[0] == '+' then ParseUnsigned(t[1..])
        else if t[0] == '-' then Neg(ParseUnsigned(t[1..]))
        else ParseUnsigned(t)
  }

  // ---------------------------------------------------------------------
  // String(number).
  // ---------------------------------------------------------------------

  function DigitChar(d: nat): char
    requires d < 10
  {
    "0123456789"[d]
  }

  /** The decimal digits of a natural number, without leading zeros. */
  function NatToString(n: nat): (s: string)
    ensures |s| >= 1
    ensures forall i :: 0 <= i < |s| ==> IsDecimalDigit(s[i])
  {
    if n < 10 then [DigitChar(n)] else NatToString(n / 10) + [DigitChar(n % 10)]
  }

  /** Up to `fuel` fractional digits of `f`, stopping as soon as the expansion terminates. */
  function FractionDigits(f: real, fuel: nat): string
    requires 0.0 <= f < 1.0
    decreases fuel
  {
    if f == 0.0 || fuel == 0 then ""
    else
      var d := (f * 10.0).Floor;
      [DigitChar(d)] + FractionDigits(f * 10.0 - d as real, fuel - 1)
  }

  const MaxFractionDigits: nat := 20

  function NonNegativeToString(x: real): string
    requires x >= 0.0
  {
    var i := x.Floor;
    var frac := FractionDigits(x - i as real, MaxFractionDigits);
    NatToString(i) + (if frac == "" then "" else "." + frac)
  }

  /** `String(n)` for a number. */
  function NumberToString(n: Num): string {
    match n
    case NaN => "NaN"
    case Infinity(neg) => if neg then "-Infinity" else "Infinity"
    case Finite(x) => if x < 0.0 then "-" + NonNegativeToString(-x) else NonNegativeToString(x)
  }

  lemma DigitCharValue(d: nat)
    requires d < 10
    ensures IsDecimalDigit(DigitChar(d)) && DigitValue(DigitChar(d)) == d
  {
  }

  /** Reading the digits of `n` back gives `n`. */
  lemma {:induction false} NatToStringValue(n: nat)
    ensures DigitsValue(NatToString(n), 10) == n
  {
    var s := NatToString(n);
    if n < 10 {
      DigitCharValue(n);
      assert s[..0] == "";
    } else {
      NatToStringValue(n / 10);
      DigitCharValue(n % 10);
      assert s[..|s| - 1] == NatToString(n / 10);
    }
  }

  /** A run of decimal digits parses as its value. */
  lemma DigitsParse(s: string)
    requires |s| >= 1 && forall i :: 0 <= i < |s| ==> IsDecimalDigit(s[i])
    ensures ParseUnsignedDecimal(s) == Some(DigitsValue(s, 10) as real)
  {
    assert LeadingDigits(s) == |s|;
    assert s[..|s|] == s;
    assert s[|s|..] == "";
    assert DigitsValue("", 10) == 0;
    assert Pow10(0) == 1;
  }

  /** No sign, no radix prefix and no surrounding space: a digit string is read as a plain decimal. */
  lemma DigitsNumber(s: string)
    requires |s| >= 1 && forall i :: 0 <= i < |s| ==> IsDecimalDigit(s[i])
    ensures StringToNumber(s) == ParseUnsigned(s)
  {
    assert !IsSpace(s[0]) && !IsSpace(s[|s| - 1]);
    TrimNoSpace(s);
    if |s| > 2 {
      assert IsDecimalDigit(s[1]);
    }
    assert ParseNonDecimal(s) == None;
  }

  /** `Number(String(n))` is `n` for a natural number `n`. */
  lemma NatRoundTrip(n: nat)
    ensures StringToNumber(NatToString(n)) == FromInt(n)
  {
    var s := NatToString(n);
    DigitsNumber(s);
    DigitsParse(s);
    NatToStringValue(n);
    assert s != "Infinity" by {
      assert IsDecimalDigit(s[0]);
    }
  }
}
