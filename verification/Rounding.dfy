/** Rounding of exact quotients to whole minor units, half upwards. */
module Rounding {

  function Max(x: int, y: int): int {
    if x >= y then x else y
  }

  function Min(x: int, y: int): int {
    if x <= y then x else y
  }

  /** `Math.round(a / b)` for a positive denominator, with the quotient read as an exact rational. */
  function RoundDiv(a: int, b: int): int
    requires b > 0
  {
    (2 * a + b) / (2 * b)
  }

  /** The rounded quotient is within half a unit of the exact one, and a tie goes up. */
  lemma RoundBounds(a: int, b: int)
    requires b > 0
    ensures 2 * (b * RoundDiv(a, b)) <= 2 * a + b < 2 * (b * RoundDiv(a, b)) + 2 * b
  {
    assert b * RoundDiv(a, b) * 2 == (2 * b) * RoundDiv(a, b);
  }

  lemma Scale(b: int, x: int, y: int)
    requires b >= 0
    ensures x <= y ==> b * x <= b * y
  {
    if x <= y {
      assert b * (y - x) >= 0;
    }
  }

  lemma Unscale(b: int, x: int, y: int)
    requires b > 0 && b * x < b * y
    ensures x < y
  {
    Scale(b, y, x);
  }

  /** Those bounds pin the result down. */
  lemma RoundUnique(a: int, b: int, r: int)
    requires b > 0
    requires 2 * (b * r) <= 2 * a + b < 2 * (b * r) + 2 * b
    ensures RoundDiv(a, b) == r
  {
    RoundBounds(a, b);
    var q := RoundDiv(a, b);
    Scale(b, r + 1, q);
    Scale(b, q + 1, r);
  }

  lemma RoundShift(a: int, b: int, k: int)
    requires b > 0
    ensures RoundDiv(a + b * k, b) == RoundDiv(a, b) + k
  {
    RoundBounds(a, b);
    var q := RoundDiv(a, b);
    assert b * (q + k) == b * q + b * k;
    RoundUnique(a + b * k, b, q + k);
  }

  lemma RoundExact(k: int, b: int)
    requires b > 0
    ensures RoundDiv(b * k, b) == k
  {
    RoundUnique(b * k, b, k);
  }

  lemma RoundMonotone(a: int, a': int, b: int)
    requires b > 0
    requires a <= a'
    ensures RoundDiv(a, b) <= RoundDiv(a', b)
  {
    RoundBounds(a, b);
    RoundBounds(a', b);
    var q, q' := RoundDiv(a, b), RoundDiv(a', b);
    Scale(b, q' + 1, q);
  }

  /** `Math.round(amount * (part / whole))`: the whole-unit portion of an amount. */
  function Portion(amount: int, part: int, whole: int): int
    requires whole > 0
  {
    RoundDiv(amount * part, whole)
  }

  lemma PortionBounds(amount: int, part: int, whole: int)
    requires whole > 0
    ensures -whole < 2 * (whole * Portion(amount, part, whole) - amount * part) <= whole
  {
    RoundBounds(amount * part, whole);
  }

  /** No part takes nothing; the whole takes everything. */
  lemma PortionEnds(amount: int, part: int, whole: int)
    requires whole > 0
    ensures part == 0 ==> Portion(amount, part, whole) == 0
    ensures part == whole ==> Portion(amount, part, whole) == amount
  {
    if part == 0 {
      RoundExact(0, whole);
    }
    if part == whole {
      RoundExact(amount, whole);
      assert amount * part == whole * amount;
    }
  }

  /**
   * As the part grows, its portion rises by at least nothing, by no more than the part while the
   * amount is within the whole, and by no less than the part once the amount reaches the whole.
   */
  lemma PortionSlope(amount: nat, part: int, part': int, whole: int)
    requires whole > 0
    requires part <= part'
    ensures Portion(amount, part, whole) <= Portion(amount, part', whole)
    ensures amount <= whole ==> Portion(amount, part', whole) - Portion(amount, part, whole) <= part' - part
    ensures amount >= whole ==> Portion(amount, part', whole) - Portion(amount, part, whole) >= part' - part
  {
    var a, a', d := amount * part, amount * part', part' - part;
    assert a' == a + amount * d;
    Scale(d, amount, whole);
    Scale(d, whole, amount);
    Scale(d, 0, amount);
    RoundMonotone(a, a', whole);
    RoundShift(a, whole, d);
    RoundMonotone(a', if amount <= whole then a + whole * d else a', whole);
    RoundMonotone(if amount >= whole then a + whole * d else a', a', whole);
  }
}
