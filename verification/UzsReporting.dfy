/** Mirroring a contract payment in so'm: across instalments, and across purposes within one of them. */
module UzsReporting {
  import opened Results
  import opened Rounding
  import opened Sequences
  import opened WeightedShares
  import opened ProfitAllocation
  import opened PaymentComponents

  datatype ReportingError = NotPositive

  /** A share can be split over its purposes only if it is worth something on both sides. */
  predicate Reportable(uzs: int, contractAmount: int) {
    uzs > 0 && contractAmount > 0
  }

  /** Principal and interest are rounded on their own; margin takes what is left. */
  function SplitUzs(uzs: int, contractAmount: int, components: Components): Result<Components, ReportingError> {
    if !Reportable(uzs, contractAmount) then Err(NotPositive)
    else
      var principal := Portion(uzs, components.principal, contractAmount);
      var interest := Portion(uzs, components.interest, contractAmount);
      Ok(Components(principal, uzs - principal - interest, interest))
  }

  /**
   * The so'm parts add up to the so'm amount, principal and interest lie within half a so'm of
   * their exact shares and margin within one, and a payment in so'm keeps its parts as they are.
   */
  lemma UzsSplitIsFair(uzs: int, components: Components)
    requires uzs > 0 && components.Total() > 0
    ensures SplitUzs(uzs, components.Total(), components).Ok?
    ensures var split := SplitUzs(uzs, components.Total(), components).value;
      && split.Total() == uzs
      && -components.Total()
         < 2 * (components.Total() * split.principal - uzs * components.principal) <= components.Total()
      && -components.Total()
         < 2 * (components.Total() * split.interest - uzs * components.interest) <= components.Total()
      && -components.Total() <= components.Total() * split.margin - components.margin * uzs < components.Total()
      && (uzs == components.Total() ==> split == components)
  {
    var whole := components.Total();
    PortionBounds(uzs, components.principal, whole);
    PortionBounds(uzs, components.interest, whole);
    assert uzs * components.principal == components.principal * uzs;
    assert uzs * components.interest == components.interest * uzs;
    assert SplitUzs(uzs, whole, components) == Ok(PaidAt(components, uzs));
    MarginErrorBounds(components, uzs);
    PaidAtEnds(components, uzs);
  }

  /** Weights are hundredths of a major unit, so so'm amounts are scaled and cents are not. */
  function UzsWeights(contractAmounts: seq<int>, unitsPerMajor: int): (weights: seq<int>)
    requires unitsPerMajor == 1 || unitsPerMajor == 100
    ensures |weights| == |contractAmounts|
    ensures NonNegative(weights)
  {
    seq(|contractAmounts|, i requires 0 <= i < |contractAmounts| =>
      var hundredths := contractAmounts[i] * (100 / unitsPerMajor);
      if hundredths > 0 then hundredths else 0)
  }

  function AllocateUzs(uzs: int, contractAmounts: seq<int>, unitsPerMajor: int)
    : (shares: Result<seq<int>, ReportingError>)
    requires unitsPerMajor == 1 || unitsPerMajor == 100
    ensures shares.Ok? ==> |shares.value| == |contractAmounts|
  {
    var weights := UzsWeights(contractAmounts, unitsPerMajor);
    if uzs <= 0 || Sum(weights) <= 0 then Err(NotPositive) else Ok(Shares(uzs, weights))
  }

  /** One so'm receipt over the instalments it paid: accepted as soon as one amount is positive, and nothing is lost. */
  lemma UzsIsConserved(uzs: int, contractAmounts: seq<int>, unitsPerMajor: int)
    requires unitsPerMajor == 1 || unitsPerMajor == 100
    ensures AllocateUzs(uzs, contractAmounts, unitsPerMajor).Ok?
      <==> uzs > 0 && exists i :: 0 <= i < |contractAmounts| && contractAmounts[i] > 0
    ensures AllocateUzs(uzs, contractAmounts, unitsPerMajor).Ok? ==>
      var shares := AllocateUzs(uzs, contractAmounts, unitsPerMajor).value;
      |shares| == |contractAmounts| && NonNegative(shares) && Sum(shares) == uzs
  {
    var weights := UzsWeights(contractAmounts, unitsPerMajor);
    SumNonNegative(weights);
    if i :| 0 <= i < |contractAmounts| && contractAmounts[i] > 0 {
      assert weights[i] > 0;
    } else {
      SumOfZeros(weights);
    }
    if uzs > 0 && Sum(weights) > 0 {
      SharesConserve(uzs, weights);
      forall i | 0 <= i < |weights| ensures Shares(uzs, weights)[i] >= 0 {
        ShareBounds(uzs, weights, i);
      }
    }
  }

  // ---------------------------------------------------------------- when no instalment goes without

  lemma PortionScales(amount: int, part: int, whole: int, part': int, whole': int, scale: int)
    requires whole > 0 && whole' > 0 && scale > 0 && part' == scale * part && whole' == scale * whole
    ensures Portion(amount, part', whole') == Portion(amount, part, whole)
  {
    var q := Portion(amount, part, whole);
    PortionBounds(amount, part, whole);
    ScaleBounds(scale, whole, whole * q, amount * part);
    assert amount * (scale * part) == scale * (amount * part);
    assert (scale * whole) * q == scale * (whole * q);
    RoundUnique(amount * part', whole', q);
  }

  lemma ScaleBounds(scale: int, whole: int, rounded: int, exact: int)
    requires scale > 0 && -whole < 2 * (rounded - exact) <= whole
    ensures -(scale * whole) < 2 * (scale * rounded - scale * exact) <= scale * whole
  {
    Scale(scale, 2 * (rounded - exact), whole);
    Scale(scale, 1 - whole, 2 * (rounded - exact));
    assert scale * (2 * (rounded - exact)) == 2 * (scale * rounded - scale * exact);
    assert scale * (1 - whole) == scale - scale * whole;
  }

  ghost predicate Scaled(s: seq<int>, t: seq<int>, scale: int) {
    |s| == |t| && forall i :: 0 <= i < |s| ==> t[i] == scale * s[i]
  }

  lemma {:induction false} SumScales(s: seq<int>, t: seq<int>, scale: int)
    requires Scaled(s, t, scale)
    ensures Sum(t) == scale * Sum(s)
  {
    if |s| > 0 {
      SumScales(s[..|s| - 1], t[..|t| - 1], scale);
      assert scale * (Sum(s[..|s| - 1]) + s[|s| - 1]) == scale * Sum(s[..|s| - 1]) + scale * s[|s| - 1];
    }
  }

  lemma TargetScales(total: int, s: seq<int>, t: seq<int>, scale: int, k: nat)
    requires scale > 0 && Sum(s) > 0 && Sum(t) > 0 && Scaled(s, t, scale) && k <= |s|
    ensures Target(total, t, k) == Target(total, s, k)
  {
    SumScales(s, t, scale);
    SumScales(s[..k], t[..k], scale);
    PortionScales(total, Sum(s[..k]), Sum(s), Sum(t[..k]), Sum(t), scale);
  }

  /** The scale of the weights does not matter. */
  lemma SharesScale(total: int, s: seq<int>, t: seq<int>, scale: int)
    requires scale > 0 && Sum(s) > 0 && Sum(t) > 0 && Scaled(s, t, scale)
    ensures Shares(total, t) == Shares(total, s)
  {
    forall i | 0 <= i < |s| ensures Shares(total, t)[i] == Shares(total, s)[i] {
      TargetScales(total, s, t, scale, i);
      TargetScales(total, s, t, scale, i + 1);
    }
  }

  lemma PositiveWeights(amounts: seq<int>, unitsPerMajor: int)
    requires unitsPerMajor == 1 || unitsPerMajor == 100
    requires amounts != [] && AllPositive(amounts)
    ensures Sum(amounts) > 0 && Sum(UzsWeights(amounts, unitsPerMajor)) > 0
    ensures forall uzs :: Shares(uzs, UzsWeights(amounts, unitsPerMajor)) == Shares(uzs, amounts)
  {
    var weights := UzsWeights(amounts, unitsPerMajor);
    SumNonNegative(amounts);
    SumNonNegative(weights);
    assert amounts[0] > 0 && weights[0] > 0;
    forall uzs ensures Shares(uzs, weights) == Shares(uzs, amounts) {
      SharesScale(uzs, amounts, weights, 100 / unitsPerMajor);
    }
  }

  /**
   * Every instalment gets at least a so'm for each of its units, as long as the receipt is worth at
   * least a so'm for each contract unit: with dollars, at any rate from 100 so'm on. A receipt in so'm
   * is spread exactly as the contract amounts are.
   */
  lemma EveryShareIsReported(uzs: int, amounts: seq<int>, unitsPerMajor: int)
    requires unitsPerMajor == 1 || unitsPerMajor == 100
    requires amounts != [] && AllPositive(amounts) && uzs >= Sum(amounts)
    ensures AllocateUzs(uzs, amounts, unitsPerMajor).Ok?
    ensures var shares := AllocateUzs(uzs, amounts, unitsPerMajor).value;
      && (forall i :: 0 <= i < |amounts| ==> shares[i] >= amounts[i])
      && (uzs == Sum(amounts) ==> shares == amounts)
  {
    PositiveWeights(amounts, unitsPerMajor);
    forall i | 0 <= i < |amounts|
      ensures Shares(uzs, amounts)[i] >= amounts[i]
      ensures uzs == Sum(amounts) ==> Shares(uzs, amounts)[i] <= amounts[i]
    {
      ShareBounds(uzs, amounts, i);
    }
  }

  /** With less, some instalment may go without, and the split over its purposes throws: 1 so'm over 30, 10 and 10. */
  lemma SmallReceiptLeavesNothing()
    ensures AllocateUzs(1, [30, 10, 10], 1).Ok?
    ensures exists i :: 0 <= i < 3 && AllocateUzs(1, [30, 10, 10], 1).value[i] == 0
  {
    assert UzsWeights([30, 10, 10], 1) == [3000, 1000, 1000];
    var weights := [3000, 1000, 1000];
    assert weights[..3] == weights && weights[..2] == [3000, 1000] && weights[..1] == [3000] && weights[..0] == [];
    SumPrefix(weights, 0);
    SumPrefix(weights, 1);
    SumPrefix(weights, 2);
    assert Target(1, weights, 1) == 1 && Target(1, weights, 2) == 1;
    assert AllocateUzs(1, [30, 10, 10], 1).value[1] == 0;
  }

  lemma {:induction false} ScaledPrefix(weights: seq<int>, amounts: seq<int>, scale: int, k: nat)
    requires |weights| == |amounts| && k <= |amounts|
    requires forall i :: 0 <= i < |amounts| ==> weights[i] == scale * amounts[i]
    ensures Sum(weights[..k]) == scale * Sum(amounts[..k])
  {
    if k == 0 {
      assert weights[..0] == [] && amounts[..0] == [];
    } else {
      ScaledPrefix(weights, amounts, scale, k - 1);
      SumPrefix(weights, k - 1);
      SumPrefix(amounts, k - 1);
      assert scale * (Sum(amounts[..k - 1]) + amounts[k - 1])
        == scale * Sum(amounts[..k - 1]) + scale * amounts[k - 1];
    }
  }

  lemma Unscaled(scale: int, whole: int, share: int, uzs: int, amount: int)
    requires scale > 0
    requires -(scale * whole) < 2 * (scale * whole * share - uzs * (scale * amount)) <= scale * whole
    ensures -whole < 2 * (whole * share - uzs * amount) <= whole
  {
    var gap := 2 * (whole * share - uzs * amount);
    assert 2 * (scale * whole * share - uzs * (scale * amount)) == scale * gap;
    Scale(scale, gap, -whole);
    Scale(scale, whole + 1, gap);
  }

  lemma PrefixIsProrated(
    uzs: int, amounts: seq<int>, weights: seq<int>, scale: int, shares: seq<int>, whole: int, k: nat)
    requires |weights| == |amounts| && k <= |amounts| && scale > 0 && Sum(weights) > 0
    requires forall i :: 0 <= i < |amounts| ==> weights[i] == scale * amounts[i]
    requires shares == Shares(uzs, weights) && Sum(weights) == scale * whole
    ensures -whole < 2 * (whole * Sum(shares[..k]) - uzs * Sum(amounts[..k])) <= whole
  {
    SharesConserve(uzs, weights);
    ScaledPrefix(weights, amounts, scale, k);
    Unscaled(scale, whole, Sum(shares[..k]), uzs, Sum(amounts[..k]));
  }

  lemma ScaledSharesAreProrated(
    uzs: int, amounts: seq<int>, weights: seq<int>, scale: int, shares: seq<int>, whole: int)
    requires |weights| == |amounts| && scale > 0 && Sum(weights) > 0
    requires forall i :: 0 <= i < |amounts| ==> weights[i] == scale * amounts[i]
    requires shares == Shares(uzs, weights) && Sum(weights) == scale * whole
    ensures ProratedBy(shares, amounts, uzs, whole)
  {
    forall k: nat | k <= |shares|
      ensures -whole < 2 * (whole * Sum(shares[..k]) - uzs * Sum(amounts[..k])) <= whole
    {
      PrefixIsProrated(uzs, amounts, weights, scale, shares, whole, k);
    }
  }

  lemma WeightsAreScaled(amounts: seq<int>, unitsPerMajor: int, weights: seq<int>, scale: int)
    requires unitsPerMajor == 1 || unitsPerMajor == 100
    requires NonNegative(amounts) && weights == UzsWeights(amounts, unitsPerMajor) && scale == 100 / unitsPerMajor
    ensures forall i :: 0 <= i < |amounts| ==> weights[i] == scale * amounts[i]
    ensures Sum(weights) == scale * Sum(amounts)
  {
    ScaledPrefix(weights, amounts, scale, |weights|);
    SumWhole(weights);
    SumWhole(amounts);
  }

  /** Each instalment gets so'm in proportion to what it was paid: up to any of them, within half a so'm of exact. */
  lemma UzsIsProrated(uzs: int, contractAmounts: seq<int>, unitsPerMajor: int)
    requires unitsPerMajor == 1 || unitsPerMajor == 100
    requires NonNegative(contractAmounts) && AllocateUzs(uzs, contractAmounts, unitsPerMajor).Ok?
    ensures ProratedBy(
      AllocateUzs(uzs, contractAmounts, unitsPerMajor).value, contractAmounts, uzs, Sum(contractAmounts))
  {
    var weights, scale := UzsWeights(contractAmounts, unitsPerMajor), 100 / unitsPerMajor;
    WeightsAreScaled(contractAmounts, unitsPerMajor, weights, scale);
    ScaledSharesAreProrated(uzs, contractAmounts, weights, scale, Shares(uzs, weights), Sum(contractAmounts));
  }
}
