/** Exact money in so'm or cents, and conversion at a quoted USD/UZS rate. */
module Currency {
  import opened Results
  import opened Rounding

  datatype Currency = UZS | USD

  datatype Money = Money(currency: Currency, units: int)

  const MAX_STORABLE_MONEY := 9_999_999_999

  /** One cent at a rate of one: minor units per dollar times the four decimals of a quote. */
  const RATE_SCALE := 100 * 10_000

  function MaxUnits(currency: Currency): int {
    if currency == USD then MAX_STORABLE_MONEY * 100 else MAX_STORABLE_MONEY
  }

  predicate Storable(money: Money) {
    0 <= money.units <= MaxUnits(money.currency)
  }

  /** A converted amount, no amount for want of a rate, or a thrown error. */
  datatype Conversion = Converted(money: Money) | NoQuote | InvalidMoney

  function Checked(money: Money): Conversion {
    if Storable(money) then Converted(money) else InvalidMoney
  }

  /** Integer division as the program writes it, with an integer half of the denominator. */
  function DivideRoundHalfUp(numerator: nat, denominator: nat): int
    requires denominator > 0
  {
    (numerator + denominator / 2) / denominator
  }

  /** Halving the denominator in integers first makes no difference: this is rounding half up. */
  lemma DivideRoundsHalfUp(numerator: nat, denominator: nat)
    requires denominator > 0
    ensures DivideRoundHalfUp(numerator, denominator) == RoundDiv(numerator, denominator)
  {
    var half := denominator / 2;
    var q := (numerator + half) / denominator;
    assert denominator * q <= numerator + half < denominator * q + denominator;
    RoundUnique(numerator, denominator, q);
  }

  /** The numerator and denominator that take minor units of one currency to the other at a rate. */
  function Factor(source: Currency, rate: nat): (int, int) {
    if source == USD then (rate, RATE_SCALE) else (RATE_SCALE, rate)
  }

  /** The rate is in ten-thousandths of a so'm per dollar. */
  function Convert(value: Money, target: Currency, rate: Option<nat>): Conversion {
    if !Storable(value) then InvalidMoney
    else if value.currency == target then Converted(value)
    else if rate.None? || rate.value == 0 then NoQuote
    else
      var (n, d) := Factor(value.currency, rate.value);
      Checked(Money(target, DivideRoundHalfUp(value.units * n, d)))
  }

  // ---------------------------------------------------------------- arithmetic of a round trip

  /** The upper bound in target units: the nearest amount, or one less when that converts back too high. */
  function AtMostUnits(source: nat, n: int, d: int): int
    requires n > 0 && d > 0
  {
    var nearest := Portion(source, n, d);
    if Portion(nearest, d, n) <= source then nearest else nearest - 1
  }

  lemma PortionNonNegative(units: nat, n: int, d: int)
    requires n > 0 && d > 0
    ensures Portion(units, n, d) >= 0
  {
    PortionEnds(units, 0, d);
    PortionSlope(units, 0, n, d);
  }

  lemma PortionMonotone(units: nat, units': nat, n: int, d: int)
    requires n > 0 && d > 0 && units <= units'
    ensures Portion(units, n, d) <= Portion(units', n, d)
  {
    Scale(n, units, units');
    RoundMonotone(units * n, units' * n, d);
  }

  /** One unit below the nearest amount never converts back above the source. */
  lemma OneStepDownIsEnough(source: nat, n: int, d: int)
    requires n > 0 && d > 0
    ensures Portion(Portion(source, n, d) - 1, d, n) <= source
  {
    var nearest := Portion(source, n, d);
    var back := Portion(nearest - 1, d, n);
    PortionBounds(source, n, d);
    PortionBounds(nearest - 1, d, n);
    assert (nearest - 1) * d == d * nearest - d;
    assert source * n == n * source;
    Scale(n, source + 1, back);
  }

  /**
   * The bound converts back to at most the source, and no other amount up to the nearest one that
   * does so exceeds it.
   */
  lemma AtMostIsSafe(source: nat, n: int, d: int)
    requires n > 0 && d > 0
    ensures 0 <= AtMostUnits(source, n, d) <= Portion(source, n, d)
    ensures Portion(AtMostUnits(source, n, d), d, n) <= source
    ensures forall u :: AtMostUnits(source, n, d) < u <= Portion(source, n, d) ==> Portion(u, d, n) > source
  {
    var nearest := Portion(source, n, d);
    PortionNonNegative(source, n, d);
    OneStepDownIsEnough(source, n, d);
    if nearest == 0 {
      assert nearest * d == 0;
      RoundExact(0, n);
    }
  }

  lemma AtMostMonotone(source: nat, source': nat, n: int, d: int)
    requires n > 0 && d > 0 && source <= source'
    ensures AtMostUnits(source, n, d) <= AtMostUnits(source', n, d)
  {
    PortionMonotone(source, source', n, d);
  }

  /** The largest amount of all that converts back to at most the source. */
  function LargestUnits(source: nat, n: int, d: int): int
    requires n > 0 && d > 0
  {
    (n * (2 * source + 1) - 1) / (2 * d)
  }

  lemma QuotientIsLargest(x: int, b: int, u: int)
    requires b > 0
    ensures u <= x / b <==> b * u <= x
  {
    assert b * (x / b) <= x < b * (x / b) + b;
    Scale(b, u, x / b);
    Scale(b, x / b + 1, u);
  }

  lemma ConvertsBackIff(source: nat, n: int, d: int, u: int)
    requires n > 0 && d > 0
    ensures Portion(u, d, n) <= source <==> u <= LargestUnits(source, n, d)
  {
    PortionBounds(u, d, n);
    RoundsTo(n, Portion(u, d, n), source, u * d);
    assert n * (2 * source + 1) == 2 * (n * source) + n;
    assert (2 * d) * u == 2 * (u * d);
    QuotientIsLargest(n * (2 * source + 1) - 1, 2 * d, u);
  }

  lemma RoundsTo(n: int, back: int, source: int, x: int)
    requires n > 0 && -n < 2 * (n * back - x) <= n
    ensures back <= source <==> 2 * x <= 2 * (n * source) + n - 1
  {
    Scale(n, back, source);
    Scale(n, source + 1, back);
  }

  ghost predicate BoundIsLargest(source: nat, n: int, d: int)
    requires n > 0 && d > 0
  {
    forall u: nat :: Portion(u, d, n) <= source ==> u <= AtMostUnits(source, n, d)
  }

  /**
   * The bound is the largest amount of all that converts back within the source exactly when that
   * largest amount does not lie beyond the nearest one.
   */
  lemma LargestIff(source: nat, n: int, d: int)
    requires n > 0 && d > 0
    ensures BoundIsLargest(source, n, d) <==> (n * (2 * source + 1) - 1) / (2 * d) <= Portion(source, n, d)
  {
    var largest := LargestUnits(source, n, d);
    AtMostIsSafe(source, n, d);
    ConvertsBackIff(source, n, d, Portion(source, n, d));
    ConvertsBackIff(source, n, d, largest);
    if largest <= Portion(source, n, d) {
      forall u: nat | Portion(u, d, n) <= source ensures u <= AtMostUnits(source, n, d) {
        ConvertsBackIff(source, n, d, u);
      }
    }
  }

  /** On which side of the nearest amount the largest lies when the units differ enough. */
  lemma LargestNearNearest(source: nat, n: int, d: int)
    requires n > 0 && d > 0
    ensures n <= d ==> LargestUnits(source, n, d) <= Portion(source, n, d)
    ensures n > 3 * d ==> LargestUnits(source, n, d) > Portion(source, n, d)
  {
    var nearest := Portion(source, n, d);
    PortionBounds(source, n, d);
    assert n * (2 * source + 1) - 1 == 2 * (source * n) + n - 1;
    assert (2 * d) * (nearest + 1) == 2 * (d * nearest) + 2 * d;
    QuotientIsLargest(n * (2 * source + 1) - 1, 2 * d, nearest + 1);
  }

  /**
   * When a target unit is worth at least a source unit, the bound is the largest amount of all that
   * converts back within the source: from so'm to dollars, at rates of 100 and more.
   */
  lemma LargestWhenTargetIsCoarser(source: nat, n: int, d: int)
    requires 0 < n <= d
    ensures BoundIsLargest(source, n, d)
  {
    LargestIff(source, n, d);
    LargestNearNearest(source, n, d);
  }

  /**
   * The comment above the source function promises the largest such amount in either direction.
   * When a target unit is worth less than a third of a source unit -- dollars to so'm, at any rate
   * above 300 -- it never is: one unit more always converts back within the source as well.
   */
  lemma NeverLargestWhenTargetIsFiner(source: nat, n: int, d: int)
    requires d > 0 && n > 3 * d
    ensures !BoundIsLargest(source, n, d)
    ensures Portion(AtMostUnits(source, n, d) + 1, d, n) <= source
  {
    LargestIff(source, n, d);
    LargestNearNearest(source, n, d);
    AtMostIsSafe(source, n, d);
    ConvertsBackIff(source, n, d, AtMostUnits(source, n, d) + 1);
  }

  /** Converting to a unit that is not coarser and back is the identity. */
  lemma FinerRoundTrip(source: nat, n: int, d: int)
    requires 0 < d <= n
    ensures Portion(Portion(source, n, d), d, n) == source
  {
    var there := Portion(source, n, d);
    PortionBounds(source, n, d);
    assert there * d == d * there;
    assert source * n == n * source;
    if n == d {
      RoundExact(source, d);
      RoundExact(there, n);
    } else {
      RoundUnique(there * d, n, source);
    }
  }

  // ---------------------------------------------------------------- the quoted bound

  /** The bound as a money value: errors of either conversion are errors of the bound. */
  function ConvertAtMost(value: Money, target: Currency, rate: Option<nat>): Conversion {
    var converted := Convert(value, target, rate);
    if !converted.Converted? || value.currency == target || converted.money.units == 0 then converted
    else
      var back := Convert(converted.money, value.currency, rate);
      if back.InvalidMoney? then InvalidMoney
      else if back.Converted? && back.money.units > value.units
      then Converted(Money(target, converted.money.units - 1))
      else converted
  }

  /** The program searches downwards from the nearest amount; the search takes at most one step. */
  method ConvertMoneyDtoAtMost(value: Money, target: Currency, rate: Option<nat>) returns (result: Conversion)
    ensures result == ConvertAtMost(value, target, rate)
  {
    result := Convert(value, target, rate);
    if !result.Converted? || value.currency == target {
      return;
    }
    var nearest := result.money.units;
    var units := nearest;
    while units > 0
      invariant 0 <= nearest - 1 <= units <= nearest || units == nearest == 0
      invariant units < nearest ==>
        ConvertAtMost(value, target, rate) == Converted(Money(target, units))
      invariant units == nearest ==> Convert(value, target, rate) == Converted(Money(target, units))
    {
      var roundTrip := Convert(Money(target, units), value.currency, rate);
      if roundTrip.InvalidMoney? {
        StepDownConvertsBack(value, target, rate);
        return InvalidMoney;
      }
      if roundTrip.NoQuote? || roundTrip.money.units <= value.units {
        break;
      }
      StepDownConvertsBack(value, target, rate);
      units := units - 1;
    }
    return Converted(Money(target, units));
  }

  lemma ConvertedUnits(value: Money, target: Currency, rate: Option<nat>)
    requires Storable(value) && value.currency != target && rate.Some? && rate.value > 0
    ensures var (n, d) := Factor(value.currency, rate.value);
      && n > 0 && d > 0
      && Factor(target, rate.value) == (d, n)
      && Convert(value, target, rate) == Checked(Money(target, Portion(value.units, n, d)))
  {
    var (n, d) := Factor(value.currency, rate.value);
    Scale(n, 0, value.units);
    DivideRoundsHalfUp(value.units * n, d);
  }

  lemma StepDownConvertsBack(value: Money, target: Currency, rate: Option<nat>)
    requires value.currency != target
    requires Convert(value, target, rate).Converted? && Convert(value, target, rate).money.units > 0
    ensures var less := Money(target, Convert(value, target, rate).money.units - 1);
      && Convert(less, value.currency, rate).Converted?
      && Convert(less, value.currency, rate).money.units <= value.units
  {
    ConvertedUnits(value, target, rate);
    var (n, d) := Factor(value.currency, rate.value);
    var less := Money(target, Portion(value.units, n, d) - 1);
    ConvertedUnits(less, value.currency, rate);
    OneStepDownIsEnough(value.units, n, d);
    PortionNonNegative(less.units, d, n);
  }

  lemma BoundUnits(value: Money, target: Currency, rate: Option<nat>)
    requires value.currency != target && ConvertAtMost(value, target, rate).Converted?
    ensures Storable(value) && rate.Some? && rate.value > 0
    ensures var (n, d) := Factor(value.currency, rate.value);
      ConvertAtMost(value, target, rate) == Converted(Money(target, AtMostUnits(value.units, n, d)))
  {
    ConvertedUnits(value, target, rate);
    var (n, d) := Factor(value.currency, rate.value);
    AtMostIsSafe(value.units, n, d);
    ConvertedUnits(Money(target, Portion(value.units, n, d)), value.currency, rate);
  }

  /** Every amount up to the bound converts back, to at most the source. */
  lemma BoundConvertsBack(value: Money, target: Currency, rate: Option<nat>, units: nat)
    requires ConvertAtMost(value, target, rate).Converted?
    requires units <= ConvertAtMost(value, target, rate).money.units
    ensures Convert(Money(target, units), value.currency, rate).Converted?
    ensures Convert(Money(target, units), value.currency, rate).money.currency == value.currency
    ensures Convert(Money(target, units), value.currency, rate).money.units <= value.units
  {
    if value.currency != target {
      BoundUnits(value, target, rate);
      ConvertedUnits(value, target, rate);
      var (n, d) := Factor(value.currency, rate.value);
      AtMostIsSafe(value.units, n, d);
      PortionMonotone(units, AtMostUnits(value.units, n, d), d, n);
      PortionNonNegative(units, d, n);
      ConvertedUnits(Money(target, units), value.currency, rate);
    }
  }

  /** Bounds grow with their source, and a source below a convertible one is convertible. */
  lemma BoundMonotone(value: Money, value': Money, target: Currency, rate: Option<nat>)
    requires value.currency == value'.currency && 0 <= value.units <= value'.units
    requires ConvertAtMost(value', target, rate).Converted?
    ensures ConvertAtMost(value, target, rate).Converted?
    ensures ConvertAtMost(value, target, rate).money.currency == target
    ensures 0 <= ConvertAtMost(value, target, rate).money.units <= ConvertAtMost(value', target, rate).money.units
  {
    if value.currency != target {
      BoundUnits(value', target, rate);
      var (n, d) := Factor(value.currency, rate.value);
      var nearest, nearest' := Portion(value.units, n, d), Portion(value'.units, n, d);
      ConvertedUnits(value, target, rate);
      ConvertedUnits(value', target, rate);
      PortionMonotone(value.units, value'.units, n, d);
      PortionNonNegative(value.units, n, d);
      PortionMonotone(nearest, nearest', d, n);
      PortionNonNegative(nearest, d, n);
      ConvertedUnits(Money(target, nearest), value.currency, rate);
      ConvertedUnits(Money(target, nearest'), value.currency, rate);
      BoundUnits(value, target, rate);
      AtMostMonotone(value.units, value'.units, n, d);
      AtMostIsSafe(value.units, n, d);
    }
  }

  /** When a cent is worth at least so many so'm, dollars convert to no fewer. */
  lemma DollarsInSom(cents: nat, rate: nat, somPerCent: nat)
    requires rate >= somPerCent * RATE_SCALE && rate > 0
    requires Convert(Money(USD, cents), UZS, Some(rate)).Converted?
    ensures Convert(Money(USD, cents), UZS, Some(rate)).money.units >= cents * somPerCent
  {
    ConvertedUnits(Money(USD, cents), UZS, Some(rate));
    Scale(cents, somPerCent * RATE_SCALE, rate);
    RoundMonotone(cents * (somPerCent * RATE_SCALE), cents * rate, RATE_SCALE);
    RoundExact(cents * somPerCent, RATE_SCALE);
    assert cents * (somPerCent * RATE_SCALE) == RATE_SCALE * (cents * somPerCent);
  }

  /**
   * At 100 so'm and more per dollar, an amount is never worth fewer so'm than it has units in the
   * currency of a contract, in whichever of the two it was entered.
   */
  lemma SomAreNeverFewer(value: Money, contract: Currency, rate: nat)
    requires rate >= RATE_SCALE
    requires Convert(value, contract, Some(rate)).Converted? && Convert(value, UZS, Some(rate)).Converted?
    ensures Convert(value, UZS, Some(rate)).money.units >= Convert(value, contract, Some(rate)).money.units
  {
    if value.currency == USD {
      DollarsInSom(value.units, rate, 1);
    } else if contract == USD {
      ConvertedUnits(value, USD, Some(rate));
      Scale(value.units, RATE_SCALE, rate);
      RoundMonotone(value.units * RATE_SCALE, value.units * rate, rate);
      RoundExact(value.units, rate);
      assert value.units * rate == rate * value.units;
    }
  }

  /** At 100 so'm and more per dollar, cents survive the way to so'm and back. */
  lemma DollarsSurviveRoundTrip(value: Money, rate: nat)
    requires value.currency == USD && rate >= RATE_SCALE
    requires Convert(value, UZS, Some(rate)).Converted?
    ensures Convert(Convert(value, UZS, Some(rate)).money, USD, Some(rate)) == Converted(value)
  {
    ConvertedUnits(value, UZS, Some(rate));
    ConvertedUnits(Money(UZS, Portion(value.units, rate, RATE_SCALE)), USD, Some(rate));
    FinerRoundTrip(value.units, rate, RATE_SCALE);
  }

  /** At those rates the dollar bound of a so'm amount is the largest that converts back within it. */
  lemma DollarBoundIsLargest(value: Money, rate: nat, cents: nat)
    requires value.currency == UZS && rate >= RATE_SCALE
    requires ConvertAtMost(value, USD, Some(rate)).Converted?
    requires Convert(Money(USD, cents), UZS, Some(rate)).Converted?
    requires Convert(Money(USD, cents), UZS, Some(rate)).money.units <= value.units
    ensures cents <= ConvertAtMost(value, USD, Some(rate)).money.units
  {
    BoundUnits(value, USD, Some(rate));
    ConvertedUnits(Money(USD, cents), UZS, Some(rate));
    LargestWhenTargetIsCoarser(value.units, RATE_SCALE, rate);
  }

  /** One cent at 12 650 so'm: the so'm bound is 127, yet 189 so'm also convert back to one cent. */
  lemma SomBoundIsNotLargest()
    ensures ConvertAtMost(Money(USD, 1), UZS, Some(126_500_000)) == Converted(Money(UZS, 127))
    ensures Convert(Money(UZS, 189), USD, Some(126_500_000)) == Converted(Money(USD, 1))
  {
  }

  // ---------------------------------------------------------------- what an amount is worth

  /** Dollars become so'm, and so'm cents, at so many ten-thousandths of a so'm per dollar, to the nearest unit. */
  lemma ConvertedIsNearest(value: Money, target: Currency, rate: nat, units: int)
    requires Storable(value) && value.currency != target && rate > 0
    requires Convert(value, target, Some(rate)) == Converted(Money(target, units))
    ensures target == UZS ==> 0 < 2 * (1_000_000 * units - value.units * rate) + 1_000_000 <= 2 * 1_000_000
    ensures target == USD ==> 0 < 2 * (rate * units - value.units * 1_000_000) + rate <= 2 * rate
  {
    ConvertedUnits(value, target, Some(rate));
    PortionBounds(value.units, rate, RATE_SCALE);
    PortionBounds(value.units, RATE_SCALE, rate);
  }

  /** The bound is the largest amount, up to the nearest one, that converts back to no more than its source. */
  lemma BoundIsLargestUpToNearest(value: Money, target: Currency, rate: Option<nat>, units: int)
    requires ConvertAtMost(value, target, rate).Converted?
    ensures Convert(value, target, rate).Converted?
    ensures var bound, nearest := ConvertAtMost(value, target, rate).money, Convert(value, target, rate).money;
      && bound.currency == target && 0 <= bound.units <= nearest.units
      && (bound.units < units <= nearest.units ==>
            Convert(Money(target, units), value.currency, rate).Converted? ==>
              Convert(Money(target, units), value.currency, rate).money.units > value.units)
  {
    if value.currency != target {
      BoundUnits(value, target, rate);
      ConvertedUnits(value, target, rate);
      var (n, d) := Factor(value.currency, rate.value);
      AtMostIsSafe(value.units, n, d);
      if AtMostUnits(value.units, n, d) < units <= Portion(value.units, n, d) {
        ConvertedUnits(Money(target, units), value.currency, rate);
      }
    }
  }
}
