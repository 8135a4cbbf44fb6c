/** The value of a decimal numeral, as `float(text)` reads it before rounding: the whole part, plus the
    digits of the fraction over their power of ten, times the power of ten of the exponent. The memo
    cache needs it for one question only, whether a float that stands where a version is expected
    compares equal to 1. */
module Decimals {
  import opened Json

  function PowerOfTen(n: nat): real {
    if n == 0 then 1.0 else 10.0 * PowerOfTen(n - 1)
  }

  /** `m` times ten to the `e`. */
  function Scaled(m: nat, e: int): real {
    if e >= 0 then m as real * PowerOfTen(e) else Shrunk(m as real, -e)
  }

  function Shrunk(x: real, n: nat): real
    decreases n
  {
    if n == 0 then x else Shrunk(x / 10.0, n - 1)
  }

  /** The number that the exponent at the start of `s` stands for. */
  function ExponentOf(s: string): int {
    if ExpRun(s) == 0 then 0 else SignedValue(s[1..])
  }

  function SignedValue(s: string): int {
    var digits := s[SignRun(s)..];
    var n := NatValue(digits[..DigitRun(digits)]);
    if s != "" && s[0] == '-' then 0 - n else n
  }

  /** The decimal value of an unsigned number with a fraction or an exponent. */
  function DecimalValue(s: string): real {
    var i := IntRun(s);
    var rest := s[i..];
    var f := FracRun(rest);
    var digits := s[..i] + (if f == 0 then "" else rest[1..f]);
    Scaled(NatValue(digits), ExponentOf(rest[f..]) - (if f == 0 then 0 else f - 1))
  }

  /** `float(t) == 1`: the decimals that round to the double 1.0, both ties included. */
  predicate IsOne(t: Numeral) {
    && t !in FLOAT_WORDS && t[0] != '-'
    && 18014398509481983.0 / 18014398509481984.0 <= DecimalValue(t) <= 9007199254740993.0 / 9007199254740992.0
  }

  // ------------------------------------------------------------------------- what the value is

  predicate AllDigits(s: string) {
    forall i :: 0 <= i < |s| ==> IsDigit(s[i])
  }

  /** Digits without a leading zero, unless there is only one. */
  predicate IsWhole(s: string) {
    s != "" && AllDigits(s) && (s[0] == '0' ==> |s| == 1)
  }

  lemma {:induction false} ShrunkIs(x: real, n: nat)
    ensures Shrunk(x, n) * PowerOfTen(n) == x
    decreases n
  {
    if n > 0 {
      ShrunkIs(x / 10.0, n - 1);
      var y, p := Shrunk(x / 10.0, n - 1), PowerOfTen(n - 1);
      assert y * (10.0 * p) == 10.0 * (y * p);
    }
  }

  lemma WholePart(whole: string, rest: string)
    requires IsWhole(whole) && (rest == "" || !IsDigit(rest[0]))
    ensures IntRun(whole + rest) == |whole|
    ensures (whole + rest)[..|whole|] == whole && (whole + rest)[|whole|..] == rest
  {
    assert (whole + rest)[0] == whole[0];
    DigitRunIs(whole, rest);
  }

  lemma FractionPart(frac: string, rest: string)
    requires frac != "" && AllDigits(frac) && (rest == "" || !IsDigit(rest[0]))
    ensures FracRun("." + frac + rest) == 1 + |frac|
    ensures ("." + frac + rest)[1..1 + |frac|] == frac && ("." + frac + rest)[1 + |frac|..] == rest
  {
    assert ("." + frac + rest)[1..] == frac + rest;
    DigitRunIs(frac, rest);
  }

  lemma NatValueSnoc(s: string)
    requires s != "" && AllDigits(s)
    ensures AllDigits(s[..|s| - 1])
    ensures NatValue(s) == NatValue(s[..|s| - 1]) * 10 + (s[|s| - 1] as int - '0' as int)
  {
  }

  lemma Scale(x: real, t: real, y: real, d: real)
    ensures (x * t + y) * 10.0 + d == x * (10.0 * t) + (y * 10.0 + d)
  {
  }

  lemma {:induction false} NatValueConcat(a: string, b: string)
    requires AllDigits(a) && AllDigits(b)
    ensures AllDigits(a + b)
    ensures NatValue(a + b) as real == NatValue(a) as real * PowerOfTen(|b|) + NatValue(b) as real
  {
    hide NatValue;
    if b == "" {
      assert a + b == a;
      assert NatValue("") == 0 by { NoDigits(); }
    } else {
      var n := |b| - 1;
      NatValueConcat(a, b[..n]);
      assert (a + b)[..|a| + n] == a + b[..n];
      NatValueSnoc(a + b);
      NatValueSnoc(b);
      var d := b[n] as int - '0' as int;
      Scale(NatValue(a) as real, PowerOfTen(n), NatValue(b[..n]) as real, d as real);
    }
  }

  lemma NoDigits()
    ensures NatValue("") == 0
  {
  }

  lemma {:induction false} PowerAdd(a: nat, b: nat)
    ensures PowerOfTen(a + b) == PowerOfTen(a) * PowerOfTen(b)
  {
    if a > 0 {
      PowerAdd(a - 1, b);
      var x, y := PowerOfTen(a - 1), PowerOfTen(b);
      assert 10.0 * (x * y) == (10.0 * x) * y;
    }
  }

  lemma Associative(a: real, b: real, c: real)
    ensures (a * b) * c == a * (b * c)
  {
  }

  lemma ScaledUp(m: nat, e: nat, down: nat)
    ensures Scaled(m, e) * PowerOfTen(down) == m as real * PowerOfTen(e + down)
  {
    hide PowerOfTen, Shrunk;
    PowerAdd(e, down);
    Associative(m as real, PowerOfTen(e), PowerOfTen(down));
  }

  lemma ScaledDown(m: nat, e: nat, up: nat)
    requires e > 0
    ensures Scaled(m, 0 - e) * PowerOfTen(e + up) == m as real * PowerOfTen(up)
  {
    hide PowerOfTen, Shrunk;
    PowerAdd(e, up);
    ShrunkIs(m as real, e);
    Associative(Shrunk(m as real, e), PowerOfTen(e), PowerOfTen(up));
  }

  /** Scaling by a difference of exponents. */
  lemma ScaledIs(m: nat, up: nat, down: nat)
    ensures Scaled(m, up - down) * PowerOfTen(down) == m as real * PowerOfTen(up)
  {
    hide PowerOfTen, Scaled;
    if up >= down {
      ScaledUp(m, up - down, down);
      assert (up - down) + down == up;
    } else {
      ScaledDown(m, down - up, up);
      assert (down - up) + up == down && 0 - (down - up) == up - down;
    }
  }

  lemma SignIs(sign: string, digits: string)
    requires sign in {"", "+", "-"} && digits != "" && AllDigits(digits)
    ensures var s := sign + digits;
      SignRun(s) == |sign| && s[|sign|..] == digits && s != "" && (s[0] == '-' <==> sign == "-")
  {
    var s := sign + digits;
    if sign == "" {
      assert s == digits && IsDigit(s[0]);
    } else {
      assert s[0] == sign[0];
    }
  }

  lemma ExponentIs(sign: string, digits: string)
    requires sign in {"", "+", "-"} && digits != "" && AllDigits(digits)
    ensures ExponentOf("e" + sign + digits) == if sign == "-" then 0 - NatValue(digits) else NatValue(digits)
  {
    hide NatValue, SignRun, DigitRun;
    var s, t := "e" + sign + digits, sign + digits;
    assert s[1..] == t && s[1 + |sign|..] == digits;
    SignIs(sign, digits);
    DigitRunIs(digits, "");
    assert digits + "" == digits && digits[..|digits|] == digits;
  }

  lemma ValueByParts(s: string, whole: string, rest: string, frac: string, tail: string)
    requires IntRun(s) == |whole| && s[..|whole|] == whole && s[|whole|..] == rest
    requires FracRun(rest) == 1 + |frac| && rest[1..1 + |frac|] == frac && rest[1 + |frac|..] == tail && frac != ""
    ensures AllDigits(whole + frac)
    ensures DecimalValue(s) == Scaled(NatValue(whole + frac), ExponentOf(tail) - |frac|)
  {
    hide IntRun, FracRun, NatValue, ExponentOf, Scaled;
  }

  /** The text of a number with a fraction, cut into its parts; `tail` is its exponent, if any. */
  lemma DecimalParts(whole: string, frac: string, tail: string)
    requires IsWhole(whole) && frac != "" && AllDigits(frac) && (tail == "" || tail[0] == 'e')
    ensures AllDigits(whole + frac)
    ensures DecimalValue(whole + ("." + frac + tail)) == Scaled(NatValue(whole + frac), ExponentOf(tail) - |frac|)
  {
    hide IntRun, FracRun, NatValue, ExponentOf, Scaled, IsWhole, AllDigits, DecimalValue;
    var rest := "." + frac + tail;
    WholePart(whole, rest);
    FractionPart(frac, tail);
    ValueByParts(whole + rest, whole, rest, frac, tail);
  }

  /** The value of `whole.frac` is the whole part plus the fraction's digits over their power of ten. */
  lemma DecimalIs(whole: string, frac: string)
    requires IsWhole(whole) && frac != "" && AllDigits(frac)
    ensures DecimalValue(whole + ("." + frac)) * PowerOfTen(|frac|) ==
      NatValue(whole) as real * PowerOfTen(|frac|) + NatValue(frac) as real
  {
    hide DecimalValue, NatValue, PowerOfTen, Scaled;
    DecimalParts(whole, frac, "");
    assert "." + frac + "" == "." + frac;
    NatValueConcat(whole, frac);
    ScaledIs(NatValue(whole + frac), 0, |frac|);
    PowersOfTen();
  }

  /** An exponent multiplies or divides that by its power of ten. */
  lemma ExponentScales(whole: string, frac: string, sign: string, digits: string)
    requires IsWhole(whole) && frac != "" && AllDigits(frac)
    requires sign in {"", "+", "-"} && digits != "" && AllDigits(digits)
    ensures AllDigits(whole + frac)
    ensures var v := DecimalValue(whole + ("." + frac + ("e" + sign + digits)));
      if sign == "-" then v * PowerOfTen(NatValue(digits) + |frac|) == NatValue(whole + frac) as real
      else v * PowerOfTen(|frac|) == NatValue(whole + frac) as real * PowerOfTen(NatValue(digits))
  {
    hide DecimalValue, NatValue, PowerOfTen, Scaled, ExponentOf;
    var tail := "e" + sign + digits;
    DecimalParts(whole, frac, tail);
    ExponentIs(sign, digits);
    var m, n, f := NatValue(whole + frac), NatValue(digits), |frac|;
    if sign == "-" {
      ScaledIs(m, 0, n + f);
      PowersOfTen();
    } else {
      ScaledIs(m, n, f);
    }
  }

  lemma PowersOfTen()
    ensures PowerOfTen(0) == 1.0 && PowerOfTen(1) == 10.0
  {
    assert PowerOfTen(0) == 1.0;
  }

  lemma ValueOfDigit(c: char)
    requires IsDigit(c)
    ensures NatValue([c]) == c as int - '0' as int
  {
    assert [c][..0] == "" && [c][0] == c;
  }

  lemma OneDigitFraction(a: char, b: char)
    requires IsDigit(a) && IsDigit(b)
    ensures FloatRun([a, '.', b]) == 3
    ensures DecimalValue([a, '.', b]) * 10.0 == (a as int - '0' as int) as real * 10.0 + (b as int - '0' as int) as real
  {
    hide DecimalValue;
    var s := [a, '.', b];
    assert [a] + ("." + [b]) == s;
    WholePart([a], "." + [b]);
    FractionPart([b], "");
    assert "." + [b] + "" == "." + [b];
    DecimalIs([a], [b]);
    ValueOfDigit(a);
    ValueOfDigit(b);
    PowersOfTen();
  }

  function Distance(x: real, y: real): real {
    if x <= y then y - x else x - y
  }

  predicate NearestIsOne(x: real) {
    && Distance(x, 1.0) <= Distance(x, 1.0 - 1.0 / 9007199254740992.0)
    && Distance(x, 1.0) <= Distance(x, 1.0 + 1.0 / 4503599627370496.0)
  }

  /** A numeral counts as one exactly when no other double is nearer to its decimal value than 1.0 is. The
      two doubles beside it have odd last bits, so a tie goes to 1.0. */
  lemma IsOneIffNearest(t: Numeral)
    ensures IsOne(t) <==> t !in FLOAT_WORDS && t[0] != '-' && NearestIsOne(DecimalValue(t))
  {
    hide DecimalValue, FLOAT_WORDS;
  }
}
