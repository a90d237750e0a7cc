/** Currency amounts and the two-decimal quantisation used for every monetary figure
    (Decimal.quantize(Decimal("0.01"), rounding=ROUND_HALF_UP)). Amounts are exact rationals. */
module Money {

  /** True when x has at most two decimal places. */
  predicate IsCents(x: real) {
    (x * 100.0).Floor as real == x * 100.0
  }

  function Max(a: real, b: real): (m: real)
    ensures m >= a && m >= b && (m == a || m == b)
  {
    if a >= b then a else b
  }

  /** The product of an amount and a factor (a ratio, a percentage, a day count). */
  function Times(a: real, b: real): real {
    a * b
  }

  /** The fraction part / whole. */
  function Fraction(part: real, whole: real): real
    requires whole != 0.0
  {
    part / whole
  }

  /** Rounding of a non-negative amount to the nearest cent, halves going up. */
  function RoundHalfUpCents(v: real): (r: real)
    requires v >= 0.0
    ensures IsCents(r) && r >= 0.0
    ensures v - 0.005 < r <= v + 0.005
  {
    ((v * 100.0 + 0.5).Floor as real) / 100.0
  }

  /** ROUND_HALF_UP to two places: nearest cent, ties away from zero. */
  function Quant(v: real): (r: real)
    ensures IsCents(r)
    ensures v >= 0.0 ==> r >= 0.0 && v - 0.005 < r <= v + 0.005
    ensures v < 0.0 ==> r <= 0.0 && v - 0.005 <= r < v + 0.005
  {
    if v >= 0.0 then RoundHalfUpCents(v)
    else
      var up := RoundHalfUpCents(-v);
      CentsNegate(up);
      -up
  }

  lemma CentsNegate(x: real)
    requires IsCents(x)
    ensures IsCents(-x)
  {
    var k := (x * 100.0).Floor;
    assert (-x) * 100.0 == (-k) as real;
  }

  lemma CentsAdd(x: real, y: real)
    requires IsCents(x) && IsCents(y)
    ensures IsCents(x + y) && IsCents(x - y)
  {
    var a, b := (x * 100.0).Floor, (y * 100.0).Floor;
    assert x * 100.0 == a as real && y * 100.0 == b as real;
    assert (x + y) * 100.0 == x * 100.0 + y * 100.0;
    assert (x - y) * 100.0 == x * 100.0 - y * 100.0;
    assert ((a + b) as real).Floor == a + b && ((a - b) as real).Floor == a - b;
  }

  /** Two amounts in cents that are less than a cent apart are equal. */
  lemma CentsCloseAreEqual(x: real, y: real)
    requires IsCents(x) && IsCents(y)
    requires -0.01 < x - y < 0.01
    ensures x == y
  {
    var a, b := (x * 100.0).Floor, (y * 100.0).Floor;
    assert a as real == x * 100.0 && b as real == y * 100.0;
    assert -1 < a - b < 1;
  }

  /** Quant picks the one amount in cents inside its rounding window: for v >= 0 the window is
      (v - 0.005, v + 0.005], for v < 0 it is [v - 0.005, v + 0.005); so Quant agrees with any
      independent choice of the nearest cent that breaks ties away from zero. */
  lemma {:induction false} QuantUnique(v: real, c: real)
    requires IsCents(c)
    requires v >= 0.0 ==> v - 0.005 < c <= v + 0.005
    requires v < 0.0 ==> v - 0.005 <= c < v + 0.005
    ensures Quant(v) == c
  {
    CentsCloseAreEqual(Quant(v), c);
  }

  /** An amount already in cents is left as it is. */
  lemma {:induction false} QuantOfCents(x: real)
    requires IsCents(x)
    ensures Quant(x) == x
  {
    QuantUnique(x, x);
  }

  /** Quantising twice is the same as quantising once. */
  lemma {:induction false} QuantIdempotent(v: real)
    ensures Quant(Quant(v)) == Quant(v)
  {
    QuantOfCents(Quant(v));
  }

  /** An exact half cent is rounded away from zero. */
  lemma {:induction false} QuantTieAwayFromZero(v: real)
    requires IsCents(v + 0.005)
    ensures v >= 0.0 ==> Quant(v) == v + 0.005
    ensures v < 0.0 ==> Quant(v) == v - 0.005
  {
    if v >= 0.0 {
      QuantUnique(v, v + 0.005);
    } else {
      CentsAdd(v + 0.005, 0.01);
      QuantUnique(v, v - 0.005);
    }
  }

  /** Quant moves an amount by at most half a cent either way. */
  lemma QuantClose(v: real)
    ensures -0.005 <= Quant(v) - v <= 0.005
  {
  }

  /** Multiplying by a factor distributes over a sum. */
  lemma TimesAdd(a: real, b: real, c: real)
    ensures Times(a, b + c) == Times(a, b) + Times(a, c)
  {
  }

  lemma TimesNonNegative(a: real, b: real)
    requires a >= 0.0 && b >= 0.0
    ensures Times(a, b) >= 0.0
  {
  }

  /** Splitting the part of a fraction splits the fraction. */
  lemma FractionAdd(a: real, b: real, whole: real)
    requires whole != 0.0
    ensures Fraction(a + b, whole) == Fraction(a, whole) + Fraction(b, whole)
  {
  }

  /** The whole is all of itself, and a positive fraction of a positive whole is positive. */
  lemma FractionFacts(part: real, whole: real)
    requires whole > 0.0
    ensures Fraction(whole, whole) == 1.0
    ensures part >= 0.0 ==> Fraction(part, whole) >= 0.0
  {
  }

  /** The share of an amount for a part grown by r grows by the share for r. */
  lemma TimesFractionStep(a: real, part: real, r: real, whole: real)
    requires whole != 0.0
    ensures Times(a, Fraction(part + r, whole)) - Times(a, Fraction(part, whole)) == Times(a, Fraction(r, whole))
  {
    FractionAdd(part, r, whole);
    TimesAdd(a, Fraction(part, whole), Fraction(r, whole));
  }

  /** All of an amount is the amount. */
  lemma TimesWhole(a: real, whole: real)
    requires whole > 0.0
    ensures Times(a, Fraction(whole, whole)) == a
  {
    assert Fraction(whole, whole) == 1.0;
  }

  /** Rounding is symmetric about zero. */
  lemma {:induction false} QuantNegate(v: real)
    ensures Quant(-v) == -Quant(v)
  {
    CentsNegate(Quant(v));
    if v > 0.0 {
      QuantUnique(-v, -Quant(v));
    } else if v < 0.0 {
      QuantUnique(-v, -Quant(v));
    }
  }
}
