/** The frozen cost / margin / interest plan of a Nasiya contract, and its recovery by payments. */
module ProfitAllocation {
  import opened Results
  import opened Sequences
  import opened WeightedShares

  /** Contract money by purpose, in minor units. Margin is signed: a sale below cost carries a loss. */
  datatype Components = Components(principal: int, margin: int, interest: int) {
    function Total(): int {
      principal + margin + interest
    }
  }

  const NOTHING := Components(0, 0, 0)

  datatype RowPlan = RowPlan(expected: int, components: Components)

  datatype ComponentPlan = ComponentPlan(costBasis: int, margin: int, downPayment: Components, schedules: seq<RowPlan>)

  datatype PlanError = InvalidTotals | DoesNotReconcile | NegativeCost | BaseDoesNotReconcile

  // ---------------------------------------------------------------- the plan

  function InterestShares(interest: int, expected: seq<int>): seq<int> {
    Shares(interest, expected)
  }

  function BaseChunks(down: int, interest: int, expected: seq<int>): (chunks: seq<int>)
    ensures |chunks| == |expected| + 1
  {
    [down] + Minus(expected, InterestShares(interest, expected))
  }

  function BuildPlan(
    total: int, down: int, interest: int, cost: int, expected: seq<int>): Result<ComponentPlan, PlanError>
  {
    if total <= 0 || down < 0 || down > total then Err(InvalidTotals)
    else if interest < 0 || Sum(expected) != total - down + interest then Err(DoesNotReconcile)
    else if cost < 0 then Err(NegativeCost)
    else
      var interests := InterestShares(interest, expected);
      var bases := Minus(expected, interests);
      if (exists i | 0 <= i < |bases| :: bases[i] < 0) || down + Sum(bases) != total then Err(BaseDoesNotReconcile)
      else
        var chunks := BaseChunks(down, interest, expected);
        var principals := Shares(cost, chunks);
        Ok(AssemblePlan(total, cost, expected, principals, Minus(chunks, principals), interests))
  }

  /** Column i + 1 of principal and margin belongs to row i; column 0 belongs to the down payment. */
  function AssemblePlan(
    total: int, cost: int, expected: seq<int>, principals: seq<int>, margins: seq<int>, interests: seq<int>)
    : ComponentPlan
    requires |principals| == |margins| == |expected| + 1 == |interests| + 1
  {
    ComponentPlan(
      cost,
      total - cost,
      Components(principals[0], margins[0], 0),
      seq(|expected|, i requires 0 <= i < |expected| =>
        RowPlan(expected[i], Components(principals[i + 1], margins[i + 1], interests[i]))))
  }

  /** What the caller must supply: an amount, a down payment within it, and a schedule that adds up. */
  predicate EntryGuards(total: int, down: int, interest: int, cost: int, expected: seq<int>) {
    && total > 0 && 0 <= down <= total
    && interest >= 0 && Sum(expected) == total - down + interest
    && cost >= 0
  }

  /** Interest never outweighs its row, so every base chunk is non-negative and they add up to the price. */
  lemma ChunksMakeUpPrice(total: int, down: int, interest: int, cost: int, expected: seq<int>)
    requires EntryGuards(total, down, interest, cost, expected)
    requires NonNegative(expected)
    ensures Sum(InterestShares(interest, expected)) == interest
    ensures NonNegative(InterestShares(interest, expected))
    ensures NonNegative(BaseChunks(down, interest, expected))
    ensures Sum(BaseChunks(down, interest, expected)) == total
  {
    var interests := InterestShares(interest, expected);
    var bases := Minus(expected, interests);
    SumNonNegative(expected);
    if Sum(expected) > 0 {
      SharesConserve(interest, expected);
      forall i | 0 <= i < |expected| ensures interests[i] >= 0 && bases[i] >= 0 {
        ShareBounds(interest, expected, i);
      }
    } else {
      SumOfZeros(interests);
    }
    SumMinus(expected, interests);
    SumCons(BaseChunks(down, interest, expected));
    assert BaseChunks(down, interest, expected)[1..] == bases;
  }

  /**
   * Rows that are not negative are planned exactly when the entry guards hold:
   * the error for a base that is negative or does not reconcile cannot occur.
   */
  lemma PlanAcceptsReconcilingInput(total: int, down: int, interest: int, cost: int, expected: seq<int>)
    requires NonNegative(expected)
    ensures BuildPlan(total, down, interest, cost, expected).Ok? <==> EntryGuards(total, down, interest, cost, expected)
    ensures BuildPlan(total, down, interest, cost, expected) != Err(BaseDoesNotReconcile)
  {
    if EntryGuards(total, down, interest, cost, expected) {
      BasesMakeUpPrice(total, down, interest, cost, expected);
    }
  }

  lemma BasesMakeUpPrice(total: int, down: int, interest: int, cost: int, expected: seq<int>)
    requires EntryGuards(total, down, interest, cost, expected)
    requires NonNegative(expected)
    ensures var bases := Minus(expected, InterestShares(interest, expected));
      down + Sum(bases) == total && forall i :: 0 <= i < |bases| ==> bases[i] >= 0
  {
    var chunks := BaseChunks(down, interest, expected);
    ChunksMakeUpPrice(total, down, interest, cost, expected);
    assert forall i :: 0 <= i < |expected| ==> Minus(expected, InterestShares(interest, expected))[i] == chunks[i + 1];
    SumMinus(expected, InterestShares(interest, expected));
  }

  function Principals(plan: ComponentPlan): seq<int> {
    [plan.downPayment.principal]
    + seq(|plan.schedules|, i requires 0 <= i < |plan.schedules| => plan.schedules[i].components.principal)
  }

  function Margins(plan: ComponentPlan): seq<int> {
    [plan.downPayment.margin]
    + seq(|plan.schedules|, i requires 0 <= i < |plan.schedules| => plan.schedules[i].components.margin)
  }

  function Interests(plan: ComponentPlan): seq<int> {
    [plan.downPayment.interest]
    + seq(|plan.schedules|, i requires 0 <= i < |plan.schedules| => plan.schedules[i].components.interest)
  }

  /** A budget that payments can recover: nothing negative except, possibly, a margin that the principal covers. */
  ghost predicate Recoverable(c: Components) {
    c.principal >= 0 && c.interest >= 0 && c.principal + c.margin >= 0
  }

  ghost predicate SignsAgree(m: int, whole: int) {
    (whole >= 0 ==> m >= 0) && (whole <= 0 ==> m <= 0)
  }

  /**
   * The plan loses nothing: principals add up to the cost basis, margins to price minus cost and
   * interests to the contract interest; each row's parts make up its instalment, the down payment
   * carries no interest, and every single margin has the sign of the whole margin.
   */
  lemma PlanReconciles(total: int, down: int, interest: int, cost: int, expected: seq<int>, plan: ComponentPlan)
    requires NonNegative(expected)
    requires BuildPlan(total, down, interest, cost, expected) == Ok(plan)
    ensures |plan.schedules| == |expected|
    ensures forall i :: 0 <= i < |expected| ==>
      plan.schedules[i].expected == expected[i] == plan.schedules[i].components.Total()
    ensures plan.downPayment.Total() == down && plan.downPayment.interest == 0
    ensures Sum(Principals(plan)) == plan.costBasis == cost
    ensures Sum(Margins(plan)) == plan.margin == total - cost
    ensures Sum(Interests(plan)) == interest
    ensures Recoverable(plan.downPayment)
    ensures forall i :: 0 <= i < |expected| ==> Recoverable(plan.schedules[i].components)
    ensures forall m :: m in Margins(plan) ==> SignsAgree(m, total - cost)
  {
    PlanAcceptsReconcilingInput(total, down, interest, cost, expected);
    ChunksMakeUpPrice(total, down, interest, cost, expected);
    var chunks := BaseChunks(down, interest, expected);
    CostSplits(total, cost, chunks);
    var principals := Shares(cost, chunks);
    AssembledColumns(total, cost, expected, principals, Minus(chunks, principals), InterestShares(interest, expected));
    SumCons(Interests(plan));
    assert Interests(plan)[1..] == InterestShares(interest, expected);
    forall i | 0 <= i < |expected|
      ensures plan.schedules[i].expected == expected[i] == plan.schedules[i].components.Total()
      ensures Recoverable(plan.schedules[i].components)
    {
      assert chunks[i + 1] == expected[i] - InterestShares(interest, expected)[i];
      assert Principals(plan)[i + 1] + Margins(plan)[i + 1] == chunks[i + 1];
    }
    assert Principals(plan)[0] + Margins(plan)[0] == chunks[0];
  }

  /** Every prefix of parts is within half a unit of its exact share of the whole; a tie is rounded up. */
  ghost predicate ProratedBy(parts: seq<int>, weights: seq<int>, total: int, whole: int) {
    && |parts| == |weights|
    && forall k: nat :: k <= |parts| ==>
         -whole < 2 * (whole * Sum(parts[..k]) - total * Sum(weights[..k])) <= whole
  }

  lemma SharesAreProrated(shares: seq<int>, weights: seq<int>, total: int, whole: int)
    requires whole > 0 && Sum(weights) == whole && shares == Shares(total, weights)
    ensures ProratedBy(shares, weights, total, whole)
  {
    SharesConserve(total, weights);
  }

  /** What each row, and before them the down payment, contributes to the price. */
  function Bases(plan: ComponentPlan): seq<int> {
    [plan.downPayment.principal + plan.downPayment.margin]
    + seq(|plan.schedules|, i requires 0 <= i < |plan.schedules| =>
        plan.schedules[i].components.principal + plan.schedules[i].components.margin)
  }

  lemma PlanColumns(total: int, down: int, interest: int, cost: int, expected: seq<int>, plan: ComponentPlan)
    requires NonNegative(expected)
    requires BuildPlan(total, down, interest, cost, expected) == Ok(plan)
    ensures Interests(plan)[1..] == InterestShares(interest, expected)
    ensures Bases(plan) == BaseChunks(down, interest, expected) && Sum(Bases(plan)) == total > 0
    ensures Principals(plan) == Shares(cost, Bases(plan))
  {
    PlanAcceptsReconcilingInput(total, down, interest, cost, expected);
    ChunksMakeUpPrice(total, down, interest, cost, expected);
    var chunks, interests := BaseChunks(down, interest, expected), InterestShares(interest, expected);
    var principals := Shares(cost, chunks);
    AssembledColumns(total, cost, expected, principals, Minus(chunks, principals), interests);
    AssembledBases(total, cost, expected, chunks, principals, interests);
    assert Interests(plan)[1..] == interests;
  }

  lemma AssembledBases(
    total: int, cost: int, expected: seq<int>, chunks: seq<int>, principals: seq<int>, interests: seq<int>)
    requires |principals| == |chunks| == |expected| + 1 == |interests| + 1
    ensures Bases(AssemblePlan(total, cost, expected, principals, Minus(chunks, principals), interests)) == chunks
  {
  }

  /**
   * Each row bears interest in proportion to its instalment, and recovers cost in proportion to what it
   * contributes to the price: up to any row, both are within half a unit of exact.
   */
  lemma PlanIsProrated(total: int, down: int, interest: int, cost: int, expected: seq<int>, plan: ComponentPlan)
    requires NonNegative(expected)
    requires BuildPlan(total, down, interest, cost, expected) == Ok(plan)
    ensures Sum(expected) > 0 ==> ProratedBy(Interests(plan)[1..], expected, interest, Sum(expected))
    ensures ProratedBy(Principals(plan), Bases(plan), cost, total)
  {
    PlanColumns(total, down, interest, cost, expected, plan);
    SharesAreProrated(Principals(plan), Bases(plan), cost, total);
    if Sum(expected) > 0 {
      SharesAreProrated(Interests(plan)[1..], expected, interest, Sum(expected));
    }
  }

  lemma AssembledColumns(
    total: int, cost: int, expected: seq<int>, principals: seq<int>, margins: seq<int>, interests: seq<int>)
    requires |principals| == |margins| == |expected| + 1 == |interests| + 1
    ensures var plan := AssemblePlan(total, cost, expected, principals, margins, interests);
      && Principals(plan) == principals
      && Margins(plan) == margins
      && Interests(plan) == [0] + interests
  {
    var plan := AssemblePlan(total, cost, expected, principals, margins, interests);
    assert Principals(plan)[1..] == principals[1..];
    assert Margins(plan)[1..] == margins[1..];
    assert Interests(plan)[1..] == interests;
  }

  lemma CostSplits(total: int, cost: int, chunks: seq<int>)
    requires total > 0 && cost >= 0
    requires NonNegative(chunks) && Sum(chunks) == total
    ensures Sum(Shares(cost, chunks)) == cost
    ensures Sum(Minus(chunks, Shares(cost, chunks))) == total - cost
    ensures NonNegative(Shares(cost, chunks))
    ensures forall m :: m in Minus(chunks, Shares(cost, chunks)) ==> SignsAgree(m, total - cost)
  {
    SharesConserve(cost, chunks);
    SumMinus(chunks, Shares(cost, chunks));
    forall i | 0 <= i < |chunks|
      ensures Shares(cost, chunks)[i] >= 0
      ensures SignsAgree(Minus(chunks, Shares(cost, chunks))[i], total - cost)
    {
      ShareBounds(cost, chunks, i);
    }
  }
}
