/** Splitting a whole number of minor units across weights by rounding every prefix once. */
module WeightedShares {
  import opened Rounding
  import opened Sequences

  /** Units handed out to the first k weights together. */
  function Target(total: int, weights: seq<int>, k: nat): int
    requires Sum(weights) > 0
    requires k <= |weights|
  {
    Portion(total, Sum(weights[..k]), Sum(weights))
  }

  function Shares(total: int, weights: seq<int>): (shares: seq<int>)
    ensures |shares| == |weights|
  {
    if Sum(weights) <= 0 then
      seq(|weights|, i => 0)
    else
      seq(|weights|, i requires 0 <= i < |weights| => Target(total, weights, i + 1) - Target(total, weights, i))
  }

  lemma TargetEnds(total: int, weights: seq<int>)
    requires Sum(weights) > 0
    ensures Target(total, weights, 0) == 0
    ensures Target(total, weights, |weights|) == total
  {
    assert weights[..0] == [];
    SumWhole(weights);
    PortionEnds(total, Sum(weights[..0]), Sum(weights));
    PortionEnds(total, Sum(weights[..|weights|]), Sum(weights));
  }

  /** The running form: carry the weight seen and the units handed out; the last weight takes the rest. */
  method AllocateUnitsByWeight(total: int, weights: seq<int>) returns (shares: seq<int>)
    ensures shares == Shares(total, weights)
  {
    var totalWeight := 0;
    for i := 0 to |weights|
      invariant totalWeight == Sum(weights[..i])
    {
      SumPrefix(weights, i);
      totalWeight := totalWeight + weights[i];
    }
    SumWhole(weights);
    if totalWeight <= 0 {
      return seq(|weights|, i => 0);
    }
    shares := [];
    var cumulativeWeight, handedOut := 0, 0;
    TargetEnds(total, weights);
    for i := 0 to |weights|
      invariant cumulativeWeight == Sum(weights[..i])
      invariant handedOut == Target(total, weights, i)
      invariant shares == Shares(total, weights)[..i]
    {
      SumPrefix(weights, i);
      cumulativeWeight := cumulativeWeight + weights[i];
      var cumulativeTarget := if i == |weights| - 1 then total else Portion(total, cumulativeWeight, totalWeight);
      shares := shares + [cumulativeTarget - handedOut];
      handedOut := cumulativeTarget;
    }
  }

  /** The first k shares add up to the rounded prefix target. */
  lemma {:induction false} SharesPrefix(total: int, weights: seq<int>, k: nat)
    requires Sum(weights) > 0
    requires k <= |weights|
    ensures Sum(Shares(total, weights)[..k]) == Target(total, weights, k)
  {
    TargetEnds(total, weights);
    if k > 0 {
      SharesPrefix(total, weights, k - 1);
      SumPrefix(Shares(total, weights), k - 1);
    }
  }

  /** Nothing is lost: the shares add up to the total, and every prefix is within half a unit of its exact share. */
  lemma SharesConserve(total: int, weights: seq<int>)
    requires Sum(weights) > 0
    ensures Sum(Shares(total, weights)) == total
    ensures forall k: nat | k <= |weights| ::
      -Sum(weights)
      < 2 * (Sum(weights) * Sum(Shares(total, weights)[..k]) - total * Sum(weights[..k]))
      <= Sum(weights)
  {
    TargetEnds(total, weights);
    SharesPrefix(total, weights, |weights|);
    SumWhole(Shares(total, weights));
    forall k: nat | k <= |weights|
      ensures -Sum(weights)
        < 2 * (Sum(weights) * Sum(Shares(total, weights)[..k]) - total * Sum(weights[..k]))
        <= Sum(weights)
    {
      SharesPrefix(total, weights, k);
      PortionBounds(total, Sum(weights[..k]), Sum(weights));
    }
  }

  /** Each share lies on the same side of its weight as the total lies of the whole weight. */
  lemma ShareBounds(total: int, weights: seq<int>, i: nat)
    requires Sum(weights) > 0 && total >= 0
    requires i < |weights| && weights[i] >= 0
    ensures Shares(total, weights)[i] >= 0
    ensures total <= Sum(weights) ==> Shares(total, weights)[i] <= weights[i]
    ensures total >= Sum(weights) ==> Shares(total, weights)[i] >= weights[i]
  {
    SumPrefix(weights, i);
    PortionSlope(total, Sum(weights[..i]), Sum(weights[..i + 1]), Sum(weights));
  }
}
