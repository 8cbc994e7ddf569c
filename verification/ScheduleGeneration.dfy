/** From the terms of a sale to its instalments: amounts, even schedules and imported schedules. */
module ScheduleGeneration {
  import opened Results
  import opened Rounding
  import opened Sequences
  import opened ProfitAllocation

  datatype Amounts = Amounts(total: int, down: int, base: int, interest: int, final: int, monthly: int)

  datatype TermsError =
    | BadTotal
    | NegativeDown
    | DownExceedsTotal
    | BadMonths
    | BadPercent
    | NothingFinanced
    | BadMonthly
    | MonthlyBelowBase

  const MAX_MONTHS := 24

  const MAX_INTEREST_PERCENT := 300

  function CalculateNasiyaAmounts(total: int, down: int, months: int, percent: int): Result<Amounts, TermsError> {
    if total <= 0 then Err(BadTotal)
    else if down < 0 then Err(NegativeDown)
    else if down > total then Err(DownExceedsTotal)
    else if months < 1 || months > MAX_MONTHS then Err(BadMonths)
    else if percent < 0 || percent > MAX_INTEREST_PERCENT then Err(BadPercent)
    else
      var base := total - down;
      var interest := Portion(base, percent, 100);
      var final := base + interest;
      if final <= 0 then Err(NothingFinanced)
      else Ok(Amounts(total, down, base, interest, final, RoundDiv(final, months)))
  }

  /** The reverse: the monthly payment is agreed, and the interest adapts; the percentage is for display. */
  function AmountsFromMonthly(total: int, down: int, months: int, monthly: int): Result<(Amounts, int), TermsError> {
    if total <= 0 then Err(BadTotal)
    else if down < 0 then Err(NegativeDown)
    else if down > total then Err(DownExceedsTotal)
    else if months < 1 || months > MAX_MONTHS then Err(BadMonths)
    else if monthly <= 0 then Err(BadMonthly)
    else
      var base, final := total - down, monthly * months;
      if final < base then Err(MonthlyBelowBase)
      else
        var percent := if base > 0 then Portion(100, final - base, base) else 0;
        if percent > MAX_INTEREST_PERCENT then Err(BadPercent)
        else Ok((Amounts(total, down, base, final - base, final, monthly), percent))
  }

  /**
   * Terms are accepted exactly for a price, a down payment within it, one to 24 months and up to 300
   * percent that leave a debt. The interest is that share of what is financed, to the nearest unit, and
   * the monthly payment the debt over the months, to the nearest unit.
   */
  lemma AmountsAreExact(total: int, down: int, months: int, percent: int)
    ensures CalculateNasiyaAmounts(total, down, months, percent).Ok?
      <==> total > 0 && 0 <= down < total && 1 <= months <= 24 && 0 <= percent <= 300
    ensures CalculateNasiyaAmounts(total, down, months, percent).Ok? ==>
      var amounts := CalculateNasiyaAmounts(total, down, months, percent).value;
      && amounts.total == total && amounts.down == down && amounts.base == total - down
      && -100 < 2 * (100 * amounts.interest - amounts.base * percent) <= 100
      && amounts.final == amounts.base + amounts.interest
      && -months < 2 * (months * amounts.monthly - amounts.final) <= months
  {
    if total > 0 && 0 <= down <= total && 1 <= months <= 24 && 0 <= percent <= 300 {
      var base := total - down;
      PortionBounds(base, percent, 100);
      PortionEnds(base, 0, 100);
      PortionSlope(base, 0, percent, 100);
      RoundBounds(base + Portion(base, percent, 100), months);
      if down == total {
        RoundExact(0, 100);
      }
    }
  }

  /**
   * An agreed monthly payment is paid in full every month. It is accepted exactly when it covers the
   * financed price, and its interest, to the nearest percent, is no more than 300 percent of that.
   */
  lemma MonthlyIsKept(total: int, down: int, months: int, monthly: int)
    ensures AmountsFromMonthly(total, down, months, monthly).Ok?
      <==> && total > 0 && 0 <= down <= total && 1 <= months <= 24 && monthly > 0
           && total - down <= monthly * months
           && (down < total ==> 200 * (monthly * months - (total - down)) < 601 * (total - down))
    ensures AmountsFromMonthly(total, down, months, monthly).Ok? ==>
      var amounts := AmountsFromMonthly(total, down, months, monthly).value.0;
      && amounts.total == total && amounts.down == down && amounts.base == total - down
      && amounts.monthly == monthly && amounts.final == monthly * months == amounts.base + amounts.interest
      && amounts.interest >= 0 && months > 0
      && forall i :: 0 <= i < months ==> EvenAmounts(amounts.final, months)[i] == monthly
    ensures AmountsFromMonthly(total, down, months, monthly).Ok? ==>
      var (amounts, percent) := AmountsFromMonthly(total, down, months, monthly).value;
      if amounts.base > 0 then -amounts.base < 2 * (amounts.base * percent - 100 * amounts.interest) <= amounts.base
      else percent == 0
  {
    var base, final := total - down, monthly * months;
    if base > 0 {
      PortionBounds(100, final - base, base);
      RoundUpTo(100 * (final - base), base, 300);
    }
    if months > 0 {
      WholeAverage(monthly, months);
    }
  }

  lemma RoundUpTo(exact: int, d: int, limit: int)
    requires d > 0
    ensures RoundDiv(exact, d) > limit <==> 2 * exact >= 2 * (d * limit) + d
  {
    RoundBounds(exact, d);
    var q := RoundDiv(exact, d);
    Scale(d, limit + 1, q);
    Scale(d, q, limit);
  }

  /** A number of months goes into its own multiple without remainder, and into nothing else. */
  lemma WholeQuotientIff(x: int, months: int, k: int)
    requires months > 0
    ensures x == months * k ==> x / months == k && x % months == 0
    ensures x % months == 0 && x / months == k ==> x == months * k
  {
    var q := x / months;
    assert months * q <= x < months * q + months && x == months * q + x % months;
    Scale(months, q + 1, k);
    Scale(months, k + 1, q);
  }

  lemma WholeAverage(monthly: int, months: nat)
    requires months > 0
    ensures forall i :: 0 <= i < months ==> EvenAmounts(monthly * months, months)[i] == monthly
  {
    assert monthly * months == months * monthly;
    WholeQuotientIff(monthly * months, months, monthly);
    assert monthly * months - monthly * (months - 1) == monthly;
  }

  /** Typing in the monthly payment that a percentage led to gives the same debt exactly when that is a whole split. */
  lemma MonthlyGivesBackDebtIff(total: int, down: int, months: int, percent: int)
    requires CalculateNasiyaAmounts(total, down, months, percent).Ok?
    ensures var amounts := CalculateNasiyaAmounts(total, down, months, percent).value;
      amounts.monthly * months == amounts.final <==> amounts.final % months == 0
  {
    var amounts := CalculateNasiyaAmounts(total, down, months, percent).value;
    RoundOfMultiple(amounts.final, months);
  }

  lemma RoundOfMultiple(final: int, months: int)
    requires months > 0
    ensures RoundDiv(final, months) * months == final <==> final % months == 0
  {
    var q, k := final / months, RoundDiv(final, months);
    WholeQuotientIff(final, months, q);
    WholeQuotientIff(final, months, k);
    assert k * months == months * k;
    if final % months == 0 {
      RoundExact(q, months);
    }
  }

  // ---------------------------------------------------------------- an even schedule

  /** Due `offset` months after the start date. */
  datatype Item = Item(monthNumber: nat, offset: nat, expected: int)

  function Expecteds(items: seq<Item>): seq<int> {
    seq(|items|, i requires 0 <= i < |items| => items[i].expected)
  }

  ghost predicate Numbered(items: seq<Item>, firstOffset: nat) {
    forall i :: 0 <= i < |items| ==> items[i].monthNumber == i + 1 && items[i].offset == firstOffset + i
  }

  /** Every instalment but the last is the rounded-down average. */
  function EvenAmount(total: int, months: nat, i: nat): int
    requires i < months
  {
    var even := total / months;
    if i == months - 1 then total - even * (months - 1) else even
  }

  method GeneratePaymentSchedule(months: nat, total: int) returns (items: seq<Item>)
    ensures |items| == months && Numbered(items, 1)
    ensures forall i :: 0 <= i < months ==> items[i].expected == EvenAmount(total, months, i)
  {
    items := [];
    if months == 0 {
      return;
    }
    var even := total / months;
    var remainder := total - even * months;
    assert even + remainder == total - even * (months - 1);
    for i := 1 to months + 1
      invariant |items| == i - 1 && Numbered(items, 1)
      invariant forall j :: 0 <= j < i - 1 ==> items[j].expected == EvenAmount(total, months, j)
    {
      items := items + [Item(i, i, if i == months then even + remainder else even)];
    }
  }

  function EvenAmounts(total: int, months: nat): (amounts: seq<int>)
    ensures |amounts| == months
  {
    seq(months, i requires 0 <= i < months => EvenAmount(total, months, i))
  }

  lemma {:induction false} SumOfEquals(s: seq<int>, x: int)
    requires forall i :: 0 <= i < |s| ==> s[i] == x
    ensures Sum(s) == x * |s|
  {
    if |s| > 0 {
      SumOfEquals(s[..|s| - 1], x);
      assert x * |s| == x * (|s| - 1) + x;
    }
  }

  /**
   * The instalments make up the financed amount exactly. Every one but the last is the largest amount
   * that can be asked for every month, and the last is less than a unit per month above it.
   */
  lemma EvenScheduleIsExact(total: int, months: nat)
    requires months > 0
    ensures Sum(EvenAmounts(total, months)) == total
    ensures forall i :: 0 <= i < months - 1 ==>
      months * EvenAmounts(total, months)[i] <= total < months * EvenAmounts(total, months)[i] + months
    ensures forall i :: 0 <= i < months - 1 ==>
      EvenAmounts(total, months)[i] <= EvenAmounts(total, months)[months - 1] < EvenAmounts(total, months)[i] + months
  {
    var amounts, even := EvenAmounts(total, months), total / months;
    SumOfEquals(amounts[..months - 1], even);
    LastInstalment(total, even, months);
  }

  lemma LastInstalment(total: int, even: int, months: nat)
    requires months > 0 && even == total / months
    ensures even <= total - even * (months - 1) < even + months
    ensures months * even <= total < months * even + months
  {
    assert even * (months - 1) == months * even - even;
  }

  /**
   * Every instalment is positive exactly when there is at least one unit for every month. The
   * generator does not ask for that: a smaller amount yields instalments of nothing, and it is left to
   * the database to refuse them.
   */
  lemma EvenScheduleIsPositiveIff(total: int, months: nat)
    requires months > 0
    ensures (forall i :: 0 <= i < months ==> EvenAmounts(total, months)[i] > 0)
      <==> total >= months
  {
    var even, amounts := total / months, EvenAmounts(total, months);
    LastInstalment(total, even, months);
    AverageIsPositiveIff(total, even, months);
    if months > 1 {
      assert amounts[0] == even;
    } else {
      assert amounts[0] == total - even * 0 == total;
    }
  }

  lemma AverageIsPositiveIff(total: int, even: int, months: int)
    requires months > 0 && even == total / months
    ensures even > 0 <==> total >= months
  {
    assert months * even <= total < months * even + months;
    Scale(months, 1, even);
    Scale(months, even, 0);
  }

  // ---------------------------------------------------------------- an imported schedule

  datatype ImportError = NoDebt | NoInstalment | CannotSplit | NonPositiveRow

  function CeilDiv(x: int, y: int): int
    requires y > 0
  {
    (x + y - 1) / y
  }

  /** The agreed instalment, but never so much that a later row would go without a unit. */
  function ImportAmount(left: int, monthly: int, rows: nat): int {
    if rows <= 1 then left else if monthly <= left - (rows - 1) then monthly else left - (rows - 1)
  }

  function ImportAmounts(left: int, monthly: int, rows: nat): Result<seq<int>, ImportError> {
    if rows == 0 then Ok([])
    else
      var amount := ImportAmount(left, monthly, rows);
      if amount <= 0 then Err(NonPositiveRow)
      else After([amount], ImportAmounts(left - amount, monthly, rows - 1))
  }

  function After(first: seq<int>, rest: Result<seq<int>, ImportError>): Result<seq<int>, ImportError> {
    if rest.Ok? then Ok(first + rest.value) else rest
  }

  function GenerateImport(total: int, monthly: int, override: Option<int>): Result<seq<int>, ImportError> {
    if total <= 0 then Err(NoDebt)
    else if monthly <= 0 then Err(NoInstalment)
    else
      var count := if override.Some? then override.value else CeilDiv(total, monthly);
      if count <= 0 || count > total then Err(CannotSplit) else ImportAmounts(total, monthly, count)
  }

  method GenerateImportSchedule(total: int, monthly: int, override: Option<int>)
    returns (result: Result<seq<Item>, ImportError>)
    ensures result.Ok? <==> GenerateImport(total, monthly, override).Ok?
    ensures result.Ok? ==>
      Ok(Expecteds(result.value)) == GenerateImport(total, monthly, override) && Numbered(result.value, 0)
    ensures result.Err? ==> GenerateImport(total, monthly, override) == Err(result.error)
  {
    if total <= 0 {
      return Err(NoDebt);
    }
    if monthly <= 0 {
      return Err(NoInstalment);
    }
    var count := if override.Some? then override.value else CeilDiv(total, monthly);
    if count <= 0 || count > total {
      return Err(CannotSplit);
    }
    var items: seq<Item>, handedOut := [], 0;
    AfterNothing(ImportAmounts(total, monthly, count));
    assert Expecteds(items) == [];
    for i := 1 to count + 1
      invariant |items| == i - 1 && Numbered(items, 0)
      invariant GenerateImport(total, monthly, override)
        == After(Expecteds(items), ImportAmounts(total - handedOut, monthly, count + 1 - i))
    {
      var rowsAfter := count - i;
      var most := total - handedOut - rowsAfter;
      var amount := if i == count then total - handedOut else if monthly <= most then monthly else most;
      assert amount == ImportAmount(total - handedOut, monthly, count + 1 - i);
      if amount <= 0 {
        return Err(NonPositiveRow);
      }
      ghost var before := items;
      items := items + [Item(i, i - 1, amount)];
      assert Expecteds(items) == Expecteds(before) + [amount];
      AfterAfter(Expecteds(before), amount, ImportAmounts(total - handedOut - amount, monthly, count - i));
      handedOut := handedOut + amount;
    }
    assert Expecteds(items) + [] == Expecteds(items);
    return Ok(items);
  }

  lemma AfterNothing(rest: Result<seq<int>, ImportError>)
    ensures After([], rest) == rest
  {
    if rest.Ok? {
      assert [] + rest.value == rest.value;
    }
  }

  lemma AfterAfter(first: seq<int>, amount: int, rest: Result<seq<int>, ImportError>)
    ensures After(first, After([amount], rest)) == After(first + [amount], rest)
  {
    if rest.Ok? {
      assert first + ([amount] + rest.value) == first + [amount] + rest.value;
    }
  }

  lemma OnlyRow(left: int, monthly: int)
    requires left > 0
    ensures ImportAmounts(left, monthly, 1) == Ok([left])
  {
    assert ImportAmounts(0, monthly, 0) == Ok([]);
    assert [left] + [] == [left];
  }

  lemma {:induction false} RowsAreNeverStarved(left: int, monthly: int, rows: nat)
    requires 0 < rows <= left && monthly > 0
    ensures ImportAmounts(left, monthly, rows).Ok?
    ensures var amounts := ImportAmounts(left, monthly, rows).value;
      |amounts| == rows && Sum(amounts) == left && forall i :: 0 <= i < rows ==> amounts[i] > 0
  {
    var amount := ImportAmount(left, monthly, rows);
    var amounts := ImportAmounts(left, monthly, rows);
    if rows == 1 {
      OnlyRow(left, monthly);
      SumSnoc([], left);
      assert [] + [left] == [left];
    } else {
      RowsAreNeverStarved(left - amount, monthly, rows - 1);
      SumCons(amounts.value);
      assert amounts.value[1..] == ImportAmounts(left - amount, monthly, rows - 1).value;
    }
  }

  /**
   * An imported debt is scheduled whenever there is at least one unit per row -- the error for a
   * row without a positive amount cannot occur -- and its rows are positive and add up exactly.
   */
  lemma ImportIsExact(total: int, monthly: int, override: Option<int>)
    ensures GenerateImport(total, monthly, override) != Err(NonPositiveRow)
    ensures GenerateImport(total, monthly, override).Ok? <==>
      total > 0 && monthly > 0 && (override.Some? ==> 0 < override.value <= total)
    ensures GenerateImport(total, monthly, override).Ok? ==>
      var amounts := GenerateImport(total, monthly, override).value;
      && amounts != [] && Sum(amounts) == total
      && forall i :: 0 <= i < |amounts| ==> amounts[i] > 0
  {
    if total > 0 && monthly > 0 {
      CeilFits(total, monthly);
      var count := if override.Some? then override.value else CeilDiv(total, monthly);
      if 0 < count <= total {
        RowsAreNeverStarved(total, monthly, count);
      }
    }
  }

  lemma CeilFits(x: int, y: int)
    requires x > 0 && y > 0
    ensures 0 < CeilDiv(x, y) <= x
    ensures y * (CeilDiv(x, y) - 1) < x <= y * CeilDiv(x, y)
  {
    var q := CeilDiv(x, y);
    assert y * q <= x + y - 1 < y * q + y;
    assert y * (q - 1) == y * q - y;
    Unscale(y, 0, q) by { assert y * 0 < y * q; }
    Scale(q - 1, 1, y);
    assert (q - 1) * y == y * (q - 1);
  }

  lemma FullRowFits(left: int, monthly: int, rows: nat)
    requires rows > 1 && monthly > 0 && monthly * (rows - 1) < left <= monthly * rows
    ensures ImportAmount(left, monthly, rows) == monthly
    ensures monthly * (rows - 2) < left - monthly <= monthly * (rows - 1)
  {
    assert monthly * (rows - 1) == monthly * (rows - 2) + monthly;
    assert monthly * rows == monthly * (rows - 1) + monthly;
    Scale(rows - 2, 1, monthly);
    assert (rows - 2) * 1 == rows - 2 && (rows - 2) * monthly == monthly * (rows - 2);
  }

  ghost predicate FullButLast(amounts: seq<int>, monthly: int, rows: nat) {
    && |amounts| == rows > 0
    && (forall i :: 0 <= i < rows - 1 ==> amounts[i] == monthly)
    && 0 < amounts[rows - 1] <= monthly
  }

  lemma {:induction false} FullRowsThenRest(left: int, monthly: int, rows: nat)
    requires rows > 0 && monthly > 0 && monthly * (rows - 1) < left <= monthly * rows
    ensures ImportAmounts(left, monthly, rows).Ok?
    ensures FullButLast(ImportAmounts(left, monthly, rows).value, monthly, rows)
  {
    if rows == 1 {
      OnlyRow(left, monthly);
    } else {
      FullRowFits(left, monthly, rows);
      var rest := ImportAmounts(left - monthly, monthly, rows - 1);
      FullRowsThenRest(left - monthly, monthly, rows - 1);
      assert ImportAmounts(left, monthly, rows) == After([monthly], rest);
    }
  }

  /** Full rows first; where one must stay below the agreed instalment, every later row gets a single unit. */
  ghost predicate FullThenLeast(amounts: seq<int>, monthly: int) {
    && (forall i :: 0 <= i < |amounts| - 1 ==> 0 < amounts[i] <= monthly)
    && (forall i, j :: 0 <= i < j < |amounts| && amounts[i] < monthly ==> amounts[j] == 1)
  }

  lemma {:induction false} BareMinimum(monthly: int, rows: nat)
    requires rows > 0 && monthly > 0
    ensures ImportAmounts(rows, monthly, rows).Ok?
    ensures |ImportAmounts(rows, monthly, rows).value| == rows
    ensures forall i :: 0 <= i < rows ==> ImportAmounts(rows, monthly, rows).value[i] == 1
  {
    if rows == 1 {
      OnlyRow(1, monthly);
    } else {
      BareMinimum(monthly, rows - 1);
      assert ImportAmounts(rows, monthly, rows) == After([1], ImportAmounts(rows - 1, monthly, rows - 1));
    }
  }

  lemma {:induction false} RowsAreFullThenLeast(left: int, monthly: int, rows: nat)
    requires 0 < rows <= left && monthly > 0
    ensures ImportAmounts(left, monthly, rows).Ok? && |ImportAmounts(left, monthly, rows).value| == rows
    ensures FullThenLeast(ImportAmounts(left, monthly, rows).value, monthly)
  {
    if rows == 1 {
      OnlyRow(left, monthly);
    } else {
      var amount := ImportAmount(left, monthly, rows);
      var rest := ImportAmounts(left - amount, monthly, rows - 1);
      RowsAreFullThenLeast(left - amount, monthly, rows - 1);
      assert ImportAmounts(left, monthly, rows) == After([amount], rest);
      if amount < monthly {
        BareMinimum(monthly, rows - 1);
      }
    }
  }

  /**
   * A forced length is kept to: the agreed instalment for as long as a unit is left for every later
   * row, then single units; the last row takes what remains, be it more than the agreed instalment.
   */
  lemma ImportKeepsForcedLength(total: int, monthly: int, length: int)
    requires monthly > 0 && 0 < length <= total
    ensures GenerateImport(total, monthly, Some(length)).Ok?
    ensures var amounts := GenerateImport(total, monthly, Some(length)).value;
      |amounts| == length && Sum(amounts) == total && amounts[length - 1] > 0 && FullThenLeast(amounts, monthly)
  {
    RowsAreNeverStarved(total, monthly, length);
    RowsAreFullThenLeast(total, monthly, length);
  }

  /** Without a forced length, every row but the last is the agreed instalment and the last is no more. */
  lemma ImportKeepsAgreedInstalment(total: int, monthly: int)
    requires total > 0 && monthly > 0
    ensures GenerateImport(total, monthly, None).Ok?
    ensures FullButLast(GenerateImport(total, monthly, None).value, monthly, CeilDiv(total, monthly))
  {
    CeilFits(total, monthly);
    FullRowsThenRest(total, monthly, CeilDiv(total, monthly));
  }

  // ---------------------------------------------------------------- from terms to plan

  /** Terms that are accepted always get a plan, whatever the device cost. */
  lemma AcceptedTermsHaveAPlan(total: int, down: int, months: int, percent: int, cost: int)
    requires CalculateNasiyaAmounts(total, down, months, percent).Ok?
    ensures var amounts := CalculateNasiyaAmounts(total, down, months, percent).value;
      var expected := EvenAmounts(amounts.final, months);
      && NonNegative(expected) && Sum(expected) == amounts.final == total - down + amounts.interest
      && (BuildPlan(total, down, amounts.interest, cost, expected).Ok? <==> cost >= 0)
  {
    var amounts := CalculateNasiyaAmounts(total, down, months, percent).value;
    var expected := EvenAmounts(amounts.final, months);
    EvenScheduleIsExact(amounts.final, months);
    PortionEnds(amounts.base, 0, 100);
    PortionSlope(amounts.base, 0, percent, 100);
    forall i | 0 <= i < months ensures expected[i] >= 0 {
      LastInstalment(amounts.final, amounts.final / months, months);
      DivNonNegative(amounts.final, months);
    }
    PlanAcceptsReconcilingInput(total, down, amounts.interest, cost, expected);
  }

  lemma DivNonNegative(x: nat, y: nat)
    requires y > 0
    ensures x / y >= 0
  {
  }
}
