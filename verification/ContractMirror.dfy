/**
 * A waiver on a dollar contract against the so'm mirror of the sale: the mirror's interest is reckoned
 * from the converted price, the waiver is converted from the contract interest, and the two are rounded
 * apart.
 */
module ContractMirror {
  import opened Results
  import opened Rounding
  import opened Sequences
  import opened Currency
  import opened ProfitAllocation
  import opened Schedules
  import opened ContractLifecycle
  import opened ContractInvariant
  import opened ContractSettlements
  import opened ContractLifetime
  import Settlement
  import ScheduleGeneration

  // ---------------------------------------------------------------- the waiver of a fresh sale

  /** Where nothing was recovered the recovered margin lies between zero and any budget for it. */
  lemma NothingReconciles(row: Row, margin: int)
    requires row.recovered == NOTHING && row.paid == 0 && row.waived == 0
    requires row.budget.Total() == row.expected && row.budget.margin == margin
    requires row.budget.principal >= 0 && row.budget.interest >= 0
    requires Min(0, margin) <= 0 <= Max(0, margin)
    ensures Settlement.ComponentsReconcile(row)
  {
  }

  lemma NothingIsLeftOut(row: Row)
    requires row.recovered == NOTHING && row.waived == 0
    requires row.budget.Total() == row.remaining && Recoverable(row.budget)
    ensures Settlement.RemainderMatches(row) && Settlement.InterestLeft(row) == row.budget.interest
  {
  }

  /** An unpaid row asks for its cost and margin and waives all of its interest. */
  lemma FreshRowWaivesItsInterest(row: Row, remaining: int)
    requires row.recovered == NOTHING && row.paid == 0 && row.waived == 0
    requires remaining == row.remaining == row.expected
    requires row.budget.Total() == remaining && Recoverable(row.budget)
    ensures Settlement.GateOpen(row)
    ensures Settlement.QuoteRow(row, Settlement.WaiveRemainingProfit).interestWaived == row.budget.interest
  {
    NothingReconciles(row, row.budget.margin);
    NothingIsLeftOut(row);
  }

  lemma FreshWaiversAreInterests(
    plan: ComponentPlan, dues: seq<Time>, legacy: seq<int>, expected: seq<int>)
    requires |dues| == |legacy| == |expected| && BudgetsFit(Budgets(plan), expected)
    ensures var rows := OpenRows(dues, legacy, expected, Budgets(plan));
      Interests(plan)
      == [plan.downPayment.interest]
         + Settlement.Waivers(Settlement.QuoteRows(rows, Settlement.WaiveRemainingProfit))
  {
    var rows := OpenRows(dues, legacy, expected, Budgets(plan));
    forall i | 0 <= i < |rows|
      ensures Settlement.QuoteRow(rows[i], Settlement.WaiveRemainingProfit).interestWaived
        == plan.schedules[i].components.interest
    {
      assert rows[i] == OpenRow(i, dues[i], legacy[i], expected[i], Budgets(plan)[i]);
      FreshRowWaivesItsInterest(rows[i], expected[i]);
    }
  }

  /** What a waiver asks of a contract just sold is its whole interest. */
  lemma FreshWaiverIsWholeInterest(
    currency: Currency, total: int, down: int, interest: int, cost: int, expected: seq<int>, plan: ComponentPlan,
    dues: seq<Time>, legacy: seq<int>, legacyInterest: int)
    requires BuildPlan(total, down, interest, cost, expected) == Ok(plan) && PositiveWithin(expected, currency)
    requires |dues| == |legacy| == |expected|
    ensures |plan.schedules| == |expected|
    ensures var sold := Sold(currency, plan, down, dues, legacy, expected, legacyInterest);
      Sum(Settlement.Waivers(Settlement.QuoteRows(sold.rows, Settlement.WaiveRemainingProfit))) == interest
  {
    PlanReconciles(total, down, interest, cost, expected, plan);
    PlanFits(total, down, interest, cost, expected, plan);
    FreshWaiversAreInterests(plan, dues, legacy, expected);
    HeadAndRest(Interests(plan), plan.downPayment.interest,
      Settlement.Waivers(Settlement.QuoteRows(
        OpenRows(dues, legacy, expected, Budgets(plan)), Settlement.WaiveRemainingProfit)));
  }

  /** No row of a fresh sale is stuck, and interest is outstanding when there is any. */
  lemma FreshSaleIsFree(
    sold: State, plan: ComponentPlan, dues: seq<Time>, legacy: seq<int>, expected: seq<int>, interest: int)
    requires Inv(sold) && Complete(sold) && sold.remaining > 0
    requires |dues| == |legacy| == |expected| && BudgetsFit(Budgets(plan), expected)
    requires sold.rows == OpenRows(dues, legacy, expected, Budgets(plan))
    requires Sum(Settlement.Waivers(Settlement.QuoteRows(sold.rows, Settlement.WaiveRemainingProfit))) == interest
    ensures NoneStuck(sold.rows)
    ensures InterestOutstanding(sold.rows) <==> interest > 0
  {
    forall i | 0 <= i < |sold.rows| ensures Settlement.GateOpen(sold.rows[i]) {
      assert sold.rows[i] == OpenRow(i, dues[i], legacy[i], expected[i], Budgets(plan)[i]);
      FreshRowWaivesItsInterest(sold.rows[i], expected[i]);
    }
    GatesOpenIffNoneStuck(sold);
    WaiversIffInterestOutstanding(sold);
  }

  /** A waiver on a contract just sold is accepted exactly when there is interest and its so'm values can be spread. */
  lemma FreshWaiverAcceptedIff(
    currency: Currency, total: int, down: int, interest: int, cost: int, expected: seq<int>, plan: ComponentPlan,
    dues: seq<Time>, legacy: seq<int>, legacyInterest: int, som: SomValues, checkedAt: Time, date: Time)
    requires BuildPlan(total, down, interest, cost, expected) == Ok(plan) && PositiveWithin(expected, currency)
    requires |dues| == |legacy| == |expected| == |plan.schedules|
    ensures var sold := Sold(currency, plan, down, dues, legacy, expected, legacyInterest);
      SettleStep(sold, Settlement.WaiveRemainingProfit, som, checkedAt, date).Some?
      <==> RowsCurrent(sold.rows, checkedAt) && interest > 0 && IsReported(sold, Settlement.WaiveRemainingProfit, som)
  {
    var sold := Sold(currency, plan, down, dues, legacy, expected, legacyInterest);
    SaleOpensInOrder(currency, total, down, interest, cost, expected, plan, dues, legacy, legacyInterest);
    FreshWaiverIsWholeInterest(
      currency, total, down, interest, cost, expected, plan, dues, legacy, legacyInterest);
    PlanFits(total, down, interest, cost, expected, plan);
    SomethingIsOwed(expected, currency);
    FreshSaleIsFree(sold, plan, dues, legacy, expected, interest);
    SettlementAcceptedIff(sold, Settlement.WaiveRemainingProfit, som, checkedAt, date);
  }

  lemma PlanFits(total: int, down: int, interest: int, cost: int, expected: seq<int>, plan: ComponentPlan)
    requires BuildPlan(total, down, interest, cost, expected) == Ok(plan) && NonNegative(expected)
    ensures BudgetsFit(Budgets(plan), expected)
  {
    PlanReconciles(total, down, interest, cost, expected, plan);
  }

  lemma SomethingIsOwed(expected: seq<int>, currency: Currency)
    requires PositiveWithin(expected, currency)
    ensures Sum(expected) > 0
  {
    SumNonNegative(expected);
    assert expected[0] > 0;
  }

  // ---------------------------------------------------------------- the mirror

  /** Dollars become so many so'm at the rate of the sale. */
  predicate BecomesSom(cents: int, rate: nat, som: int) {
    Convert(Money(USD, cents), UZS, Some(rate)) == Converted(Money(UZS, som))
  }

  /** The so'm amounts kept beside a dollar sale: those of the converted price and the converted down payment. */
  predicate Mirrors(
    total: int, down: int, months: nat, percent: int, rate: nat, totalSom: int, downSom: int,
    mirror: ScheduleGeneration.Amounts)
  {
    && BecomesSom(total, rate, totalSom) && BecomesSom(down, rate, downSom)
    && ScheduleGeneration.CalculateNasiyaAmounts(totalSom, downSom, months, percent) == Ok(mirror)
  }

  /** Everything the booking of a settlement asks of its so'm values except the mirror of the contract. */
  predicate CanBeSpread(s: State, mode: Settlement.Mode, som: SomValues) {
    && CashIsReported(CashRows(s.rows, mode), mode, s.currency, som.cash)
    && WaiverIsReported(WaivedRows(s.rows, mode), mode, s.currency, som)
  }

  lemma ReportedIffSpreadWithinMirror(s: State, mode: Settlement.Mode, som: SomValues)
    requires som.legacyWaiver >= 0
    ensures IsReported(s, mode, som) <==> CanBeSpread(s, mode, som) && som.legacyWaiver <= s.legacyInterest
  {
  }

  lemma WaiverOfTermsAcceptedIff(
    total: int, down: int, months: nat, percent: int, cost: int, plan: ComponentPlan, dues: seq<Time>,
    legacy: seq<int>, legacyInterest: int, interest: int, som: SomValues, checkedAt: Time, date: Time)
    requires PlannedOnTerms(total, down, months, percent, cost, plan)
    requires |dues| == |legacy| == months == |plan.schedules|
    requires var amounts := ScheduleGeneration.CalculateNasiyaAmounts(total, down, months, percent).value;
      months <= amounts.final <= MaxUnits(USD) && interest == amounts.interest
    ensures var sold := SoldOnTerms(USD, total, down, months, percent, plan, dues, legacy, legacyInterest);
      SettleStep(sold, Settlement.WaiveRemainingProfit, som, checkedAt, date).Some?
      <==> RowsCurrent(sold.rows, checkedAt) && interest > 0 && IsReported(sold, Settlement.WaiveRemainingProfit, som)
  {
    var final := ScheduleGeneration.CalculateNasiyaAmounts(total, down, months, percent).value.final;
    var expected := ScheduleGeneration.EvenAmounts(final, months);
    ScheduleGeneration.EvenScheduleIsExact(final, months);
    ScheduleGeneration.EvenScheduleIsPositiveIff(final, months);
    FreshWaiverAcceptedIff(
      USD, total, down, interest, cost, expected, plan, dues, legacy, legacyInterest, som, checkedAt, date);
  }

  /**
   * A waiver closes a dollar contract just sold exactly when its rows are current, there is interest,
   * the so'm values can be spread over the rows, and the interest in so'm is within that of the mirror.
   */
  lemma FreshWaiverNeedsMirror(
    total: int, down: int, months: nat, percent: int, cost: int, plan: ComponentPlan, dues: seq<Time>,
    legacy: seq<int>, rate: nat, totalSom: int, downSom: int, mirror: ScheduleGeneration.Amounts, interest: int,
    som: SomValues, checkedAt: Time, date: Time)
    requires PlannedOnTerms(total, down, months, percent, cost, plan)
    requires |dues| == |legacy| == months == |plan.schedules|
    requires var amounts := ScheduleGeneration.CalculateNasiyaAmounts(total, down, months, percent).value;
      months <= amounts.final <= MaxUnits(USD) && interest == amounts.interest
    requires Mirrors(total, down, months, percent, rate, totalSom, downSom, mirror)
    requires BecomesSom(interest, rate, som.legacyWaiver)
    ensures var sold := SoldOnTerms(USD, total, down, months, percent, plan, dues, legacy, mirror.interest);
      SettleStep(sold, Settlement.WaiveRemainingProfit, som, checkedAt, date).Some?
      <==> && RowsCurrent(sold.rows, checkedAt) && interest > 0
           && CanBeSpread(sold, Settlement.WaiveRemainingProfit, som)
           && som.legacyWaiver <= mirror.interest
  {
    WaiverOfTermsAcceptedIff(
      total, down, months, percent, cost, plan, dues, legacy, mirror.interest, interest, som, checkedAt, date);
    ReportedIffSpreadWithinMirror(
      SoldOnTerms(USD, total, down, months, percent, plan, dues, legacy, mirror.interest),
      Settlement.WaiveRemainingProfit, som);
  }

  // ---------------------------------------------------------------- when the mirror is short

  /** At a whole number of so'm per cent every conversion is exact. */
  lemma WholeRateIsExact(cents: int, perCent: nat, som: int)
    requires perCent > 0 && BecomesSom(cents, RATE_SCALE * perCent, som)
    ensures som == cents * perCent
  {
    var n := cents * (RATE_SCALE * perCent);
    DivideRoundsHalfUp(n, RATE_SCALE);
    assert n == RATE_SCALE * (cents * perCent);
    RoundUnique(n, RATE_SCALE, cents * perCent);
  }

  /** What rounding half up reaches. */
  lemma RoundReachesIff(exact: int, d: int, x: int)
    requires d > 0
    ensures x <= RoundDiv(exact, d) <==> 2 * (d * x) <= 2 * exact + d
  {
    var q := RoundDiv(exact, d);
    RoundBounds(exact, d);
    if x <= q {
      Scale(d, x, q);
    } else {
      Scale(d, q + 1, x);
    }
  }

  /**
   * At such a rate the mirror covers the interest exactly when rounding the interest to a cent added no
   * more than half a so'm: hundredths of a cent added, times so'm per cent, at most 50.
   */
  lemma MirrorCoversInterestIff(base: int, percent: int, perCent: nat, interest: int)
    requires interest == Portion(base, percent, 100)
    ensures interest * perCent <= Portion(base * perCent, percent, 100)
      <==> (100 * interest - base * percent) * perCent <= 50
  {
    RoundReachesIff(base * perCent * percent, 100, interest * perCent);
    assert base * perCent * percent == base * percent * perCent;
    assert (100 * interest - base * percent) * perCent == 100 * (interest * perCent) - base * percent * perCent;
  }

  /** So a waiver on a fresh sale passes the mirror exactly when the interest was not rounded up by more than that. */
  lemma WholeRateWaiverPassesIff(
    total: int, down: int, months: nat, percent: int, perCent: nat, totalSom: int, downSom: int,
    amounts: ScheduleGeneration.Amounts, mirror: ScheduleGeneration.Amounts, waiver: int)
    requires ScheduleGeneration.CalculateNasiyaAmounts(total, down, months, percent) == Ok(amounts) && perCent > 0
    requires Mirrors(total, down, months, percent, RATE_SCALE * perCent, totalSom, downSom, mirror)
    requires BecomesSom(amounts.interest, RATE_SCALE * perCent, waiver)
    ensures waiver <= mirror.interest <==> (100 * amounts.interest - amounts.base * percent) * perCent <= 50
  {
    WholeRateIsExact(total, perCent, totalSom);
    WholeRateIsExact(down, perCent, downSom);
    WholeRateIsExact(amounts.interest, perCent, waiver);
    MirrorCoversInterestIff(amounts.base, percent, perCent, amounts.interest);
    assert totalSom - downSom == amounts.base * perCent;
  }

  lemma ShortMirror(amounts: ScheduleGeneration.Amounts, mirror: ScheduleGeneration.Amounts, waiver: int)
    requires ScheduleGeneration.CalculateNasiyaAmounts(1006, 0, 1, 10) == Ok(amounts)
    requires ScheduleGeneration.CalculateNasiyaAmounts(126_756, 0, 1, 10) == Ok(mirror)
    requires BecomesSom(amounts.interest, RATE_SCALE * 126, waiver)
    ensures amounts.interest == 101 && mirror.interest == 12_676 && waiver == 12_726
  {
    WholeRateIsExact(amounts.interest, 126, waiver);
  }

  /**
   * It can be: 10.06 dollars at 10 percent bear 1.01 dollars, 0.4 cents too much. At 126 so'm a cent
   * those are 12 726 so'm, where the mirror has 12 676, and no waiver closes the sale as it opens.
   */
  lemma ShortMirrorRefusesWaiver(
    cost: int, plan: ComponentPlan, dues: seq<Time>, legacy: seq<int>, mirror: ScheduleGeneration.Amounts,
    amounts: ScheduleGeneration.Amounts, som: SomValues, checkedAt: Time, date: Time)
    requires ScheduleGeneration.CalculateNasiyaAmounts(1006, 0, 1, 10) == Ok(amounts)
    requires PlannedOnTerms(1006, 0, 1, 10, cost, plan)
    requires |dues| == |legacy| == 1 == |plan.schedules|
    requires Mirrors(1006, 0, 1, 10, RATE_SCALE * 126, 126_756, 0, mirror)
    requires BecomesSom(amounts.interest, RATE_SCALE * 126, som.legacyWaiver)
    ensures SettleStep(
      SoldOnTerms(USD, 1006, 0, 1, 10, plan, dues, legacy, mirror.interest), Settlement.WaiveRemainingProfit,
      som, checkedAt, date).None?
  {
    ShortMirror(amounts, mirror, som.legacyWaiver);
    FreshWaiverNeedsMirror(1006, 0, 1, 10, cost, plan, dues, legacy, RATE_SCALE * 126, 126_756, 0, mirror,
      amounts.interest, som, checkedAt, date);
  }
}
