/** States that a sold contract can get into in which its routes refuse it for a while. */
module ContractObstacles {
  import opened Results
  import opened Rounding
  import opened Sequences
  import opened Currency
  import opened ProfitAllocation
  import opened PaymentComponents
  import opened Schedules
  import opened NasiyaLedger
  import opened ContractLifecycle
  import opened ContractInvariant
  import opened ContractPayments
  import opened ContractSettlements
  import opened ContractLifetime
  import Settlement

  // ---------------------------------------------------------------- a stale status

  lemma StaleRowStopsPayments(
    s: State, i: nat, selected: nat, amount: int, uzs: int, checkedAt: Time, now: Time)
    requires Inv(s) && i < |s.rows| && s.rows[i].status != ExpectedStatus(s.rows[i], checkedAt)
    ensures PayStep(s, selected, amount, uzs, checkedAt, now).None?
  {
    AdmitsIff(s, checkedAt);
  }

  lemma OpenRowGoesStale(id: nat, due: Time, legacy: int, expected: int, budget: Components, checkedAt: Time)
    requires expected > 0 && TashkentDay(due) < TashkentDay(checkedAt)
    ensures var row := OpenRow(id, due, legacy, expected, budget); row.status != ExpectedStatus(row, checkedAt)
  {
  }

  /** From the day after a due date until the overdue pass, a contract just sold takes no payment whatever. */
  lemma LateContractTakesNoPayment(
    currency: Currency, plan: ComponentPlan, down: int, dues: seq<Time>, legacy: seq<int>, expected: seq<int>,
    legacyInterest: int, i: nat, selected: nat, amount: int, uzs: int, checkedAt: Time, now: Time)
    requires |dues| == |legacy| == |expected| == |plan.schedules| && i < |expected|
    requires Inv(Sold(currency, plan, down, dues, legacy, expected, legacyInterest))
    requires TashkentDay(dues[i]) < TashkentDay(checkedAt)
    ensures PayStep(
      Sold(currency, plan, down, dues, legacy, expected, legacyInterest), selected, amount, uzs, checkedAt, now).None?
  {
    var sold := Sold(currency, plan, down, dues, legacy, expected, legacyInterest);
    assert sold.rows[i] == OpenRow(i, dues[i], legacy[i], expected[i], Budgets(plan)[i]);
    assert RowSound(sold.rows[i], currency);
    OpenRowGoesStale(i, dues[i], legacy[i], expected[i], Budgets(plan)[i], checkedAt);
    StaleRowStopsPayments(sold, i, selected, amount, uzs, checkedAt, now);
  }

  // ---------------------------------------------------------------- a double tie

  lemma HalfOfOddTies(part: int, half: int, whole: int)
    requires part > 0 && part % 2 == 1 && whole == 2 * half > 0
    ensures IsTie(part, half, whole)
  {
    var k := part / 2;
    assert part == 2 * k + 1;
    HalfTimesOdd(k, half, part * half);
    RoundUnique(part * half, whole, k + 1);
    TieRoundsUpByHalf(part, half, whole);
  }

  lemma HalfTimesOdd(k: int, half: int, product: int)
    requires product == (2 * k + 1) * half
    ensures 2 * half * (k + 1) == product + half
  {
  }

  lemma SumOfTwo(column: seq<int>, first: int, second: int)
    requires column == [first] + [second]
    ensures Sum(column) == first + second
  {
    SumOfOne(first);
    SumSnoc([first], second);
  }

  /** A sale at cost in one instalment with nothing down: its plan holds the cost and the interest. */
  lemma PlanAtCost(total: int, down: int, interest: int, cost: int, expected: seq<int>, plan: ComponentPlan)
    requires BuildPlan(total, down, interest, cost, expected) == Ok(plan)
    requires total == cost && down == 0 && |expected| == 1 && NonNegative(expected)
    ensures |plan.schedules| == 1 && plan.schedules[0].components == Components(cost, 0, interest)
  {
    PlanReconciles(total, down, interest, cost, expected, plan);
    PlanOfOne(cost, interest, plan);
  }

  lemma PlanOfOne(cost: int, interest: int, plan: ComponentPlan)
    requires |plan.schedules| == 1
    requires Sum(Principals(plan)) == cost && Sum(Interests(plan)) == interest
    requires forall m :: m in Margins(plan) ==> SignsAgree(m, 0)
    requires plan.downPayment.Total() == 0 && plan.downPayment.interest == 0
    ensures plan.schedules[0].components == Components(cost, 0, interest)
  {
    var first, row := plan.downPayment, plan.schedules[0].components;
    SumOfTwo(Principals(plan), first.principal, row.principal);
    SumOfTwo(Interests(plan), first.interest, row.interest);
    assert Margins(plan) == [first.margin] + [row.margin];
    assert Margins(plan)[0] in Margins(plan) && Margins(plan)[1] in Margins(plan);
  }

  lemma HalfPaidRowIsStuck(half: State, cost: int, interest: int, paid: int)
    requires cost % 2 == 1 && interest % 2 == 1 && cost > 0 && interest > 0 && cost + interest == 2 * paid
    requires |half.rows| == 1 && half.rows[0].budget == Components(cost, 0, interest)
    requires half.paid == paid == Sum(Paids(half.rows))
    ensures !NoneStuck(half.rows)
  {
    SumOfOne(half.rows[0].paid);
    assert Paids(half.rows) == [half.rows[0].paid];
    HalfOfOddTies(cost, paid, cost + interest);
    HalfOfOddTies(interest, paid, cost + interest);
    assert Stuck(half.rows[0]);
  }

  lemma OpenRowIsPending(id: nat, due: Time, legacy: int, expected: int, budget: Components, now: Time)
    requires expected > 0 && TashkentDay(now) <= TashkentDay(due)
    ensures var row := OpenRow(id, due, legacy, expected, budget); row.status == ExpectedStatus(row, now)
  {
  }

  /** One open row, budgeted for the cost and the interest, and nothing paid yet. */
  ghost predicate OpenAtCost(s: State, row: Row, cost: int, interest: int, now: Time) {
    && s.reconstruction == Settlement.ReconstructionComplete && s.rows == [row] && s.paid == 0
    && s.remaining == row.remaining == cost + interest
    && row.budget == Components(cost, 0, interest) && row.status == ExpectedStatus(row, now)
  }

  lemma RowsAtCost(
    currency: Currency, plan: ComponentPlan, down: int, dues: seq<Time>, legacy: seq<int>, expected: seq<int>,
    legacyInterest: int, cost: int, interest: int, now: Time)
    requires |dues| == |legacy| == |expected| == |plan.schedules| == 1 && expected[0] == cost + interest > 0
    requires plan.schedules[0].components == Components(cost, 0, interest)
    requires TashkentDay(now) <= TashkentDay(dues[0])
    ensures var sold := Sold(currency, plan, down, dues, legacy, expected, legacyInterest);
      sold.rows[0].id == 0 && OpenAtCost(sold, sold.rows[0], cost, interest, now)
  {
    SumOfOne(expected[0]);
    assert expected == [expected[0]];
    OpenRowIsPending(0, dues[0], legacy[0], expected[0], Budgets(plan)[0], now);
  }

  lemma OpenContractTakesHalf(sold: State, row: Row, half: int, uzs: int, now: Time)
    requires Inv(sold) && Complete(sold) && sold.rows == [row] && sold.remaining == row.remaining
    requires row.status == ExpectedStatus(row, now) && 0 < half < row.remaining && uzs >= half
    ensures PayStep(sold, row.id, half, uzs, now, now).Some?
    ensures var paid := PayStep(sold, row.id, half, uzs, now, now).value;
      && Inv(paid) && Complete(paid) && paid.paid == sold.paid + half && |paid.rows| == 1
      && paid.rows[0].budget == row.budget
  {
    assert sold.rows[0] == row;
    WorthIsReported(sold, row.id, half, uzs, now);
    PaymentAcceptedAtOnceIff(sold, row.id, half, uzs, now);
    PaymentKeepsInvariant(sold, row.id, half, uzs, now, now);
    PayingKeepsTerms(sold, row.id, half, uzs, now, now);
  }

  lemma HalfPaidAtCost(sold: State, row: Row, cost: int, interest: int, half: int, uzs: int, now: Time)
    requires Inv(sold) && OpenAtCost(sold, row, cost, interest, now) && cost + interest == 2 * half && uzs >= half
    requires cost % 2 == 1 && interest % 2 == 1 && cost > 0 && interest > 0
    ensures PayStep(sold, row.id, half, uzs, now, now).Some?
    ensures var paid := PayStep(sold, row.id, half, uzs, now, now).value;
      Inv(paid) && Complete(paid) && !NoneStuck(paid.rows)
  {
    OpenContractTakesHalf(sold, row, half, uzs, now);
    HalfPaidRowIsStuck(PayStep(sold, row.id, half, uzs, now, now).value, cost, interest, half);
  }

  lemma StuckRowStopsSettlements(s: State)
    requires Inv(s) && Complete(s) && !NoneStuck(s.rows)
    ensures forall mode, som, checkedAt, date :: SettleStep(s, mode, som, checkedAt, date).None?
  {
    forall mode, som, checkedAt, date ensures SettleStep(s, mode, som, checkedAt, date).None? {
      SettlementAcceptedIff(s, mode, som, checkedAt, date);
    }
  }

  /**
   * A sale at cost whose cost and interest are both odd, due in one instalment with nothing down: as
   * soon as half of it is paid neither kind of settlement is accepted any more.
   */
  lemma HalfPaidSaleAtCostCannotBeSettled(
    currency: Currency, total: int, down: int, interest: int, cost: int, expected: seq<int>, plan: ComponentPlan,
    dues: seq<Time>, legacy: seq<int>, legacyInterest: int, half: int, uzs: int, now: Time)
    requires BuildPlan(total, down, interest, cost, expected) == Ok(plan) && PositiveWithin(expected, currency)
    requires total == cost && down == 0 && |dues| == |legacy| == |expected| == 1 && expected[0] == cost + interest
    requires cost % 2 == 1 && interest % 2 == 1 && cost > 0 && interest > 0 && cost + interest == 2 * half
    requires TashkentDay(now) <= TashkentDay(dues[0]) && uzs >= half
    ensures |plan.schedules| == 1
    ensures var sold := Sold(currency, plan, down, dues, legacy, expected, legacyInterest);
      && PayStep(sold, 0, half, uzs, now, now).Some?
      && forall mode, som, checkedAt, date ::
           SettleStep(PayStep(sold, 0, half, uzs, now, now).value, mode, som, checkedAt, date).None?
  {
    SaleOpensInOrder(currency, total, down, interest, cost, expected, plan, dues, legacy, legacyInterest);
    PlanAtCost(total, down, interest, cost, expected, plan);
    RowsAtCost(currency, plan, down, dues, legacy, expected, legacyInterest, cost, interest, now);
    var sold := Sold(currency, plan, down, dues, legacy, expected, legacyInterest);
    HalfPaidAtCost(sold, sold.rows[0], cost, interest, half, uzs, now);
    StuckRowStopsSettlements(PayStep(sold, 0, half, uzs, now, now).value);
  }
}
