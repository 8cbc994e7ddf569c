/** Early settlement of a Nasiya contract, with or without a waiver of the unpaid interest. */
module Settlement {
  import opened Results
  import opened Rounding
  import opened Sequences
  import opened ProfitAllocation
  import opened PaymentComponents
  import opened Schedules

  datatype Mode = FullWithProfit | WaiveRemainingProfit

  datatype Reconstruction = ReconstructionPending | ReconstructionComplete | ReconstructionPartial | Unreconstructable

  datatype SettlementError =
    | NegativeAmount
    | RowDoesNotBalance(row: nat)
    | ParentPaidDiffers
    | ParentWaivedDiffers
    | ParentRemainingDiffers
    | CashPlusWaiverDiffers

  datatype WaiverReason = NotReconstructed | ComponentsMismatch(row: nat) | RemainderMismatch(row: nat) | NothingToWaive

  datatype RowQuote = RowQuote(
    scheduleId: nat,
    remainingBefore: int,
    cash: int,
    interestWaived: int,
    status: ScheduleStatus,
    cashComponents: Option<Components>,
    paidAfter: Option<Components>)

  datatype Parent = Parent(paid: int, waived: int, remaining: int)

  datatype Quote = Quote(
    remainingBefore: int,
    cashToReceive: int,
    interestToWaive: int,
    rows: seq<RowQuote>,
    reasons: set<WaiverReason>)

  /** The thrown checks on one row, in the program's order. */
  function RowError(row: Row): Option<SettlementError> {
    if row.expected < 0 || row.paid < 0 || row.waived < 0 || row.remaining < 0 then Some(NegativeAmount)
    else if row.expected != row.paid + row.waived + row.remaining then Some(RowDoesNotBalance(row.id))
    else if row.budget.principal < 0 || row.budget.interest < 0
            || row.recovered.principal < 0 || row.recovered.interest < 0 then Some(NegativeAmount)
    else None
  }

  /** The component gate: budget and recovery add up and every recovered part is within its budget. */
  predicate ComponentsReconcile(row: Row) {
    && row.budget.Total() == row.expected
    && row.recovered.Total() == row.paid
    && row.recovered.principal <= row.budget.principal
    && Min(0, row.budget.margin) <= row.recovered.margin <= Max(0, row.budget.margin)
    && row.recovered.interest + row.waived <= row.budget.interest
  }

  function BaseCash(row: Row): int {
    Less(row.budget, row.recovered).principal + Less(row.budget, row.recovered).margin
  }

  function InterestLeft(row: Row): int {
    row.budget.interest - row.recovered.interest - row.waived
  }

  predicate RemainderMatches(row: Row) {
    BaseCash(row) >= 0 && InterestLeft(row) >= 0 && BaseCash(row) + InterestLeft(row) == row.remaining
  }

  predicate GateOpen(row: Row) {
    ComponentsReconcile(row) && RemainderMatches(row)
  }

  function RowReasons(row: Row): set<WaiverReason> {
    if !ComponentsReconcile(row) then {ComponentsMismatch(row.id)}
    else if !RemainderMatches(row) then {RemainderMismatch(row.id)}
    else {}
  }

  function QuoteRow(row: Row, mode: Mode): RowQuote {
    var left := Less(row.budget, row.recovered);
    if !GateOpen(row) then
      RowQuote(row.id, row.remaining, row.remaining, 0, if row.waived > 0 then Settled else Paid, None, None)
    else if mode == WaiveRemainingProfit then
      RowQuote(
        row.id, row.remaining, BaseCash(row), InterestLeft(row),
        if row.waived + InterestLeft(row) > 0 then Settled else Paid,
        Some(Components(left.principal, left.margin, 0)),
        Some(row.budget.(interest := row.recovered.interest)))
    else
      RowQuote(
        row.id, row.remaining, row.remaining, 0,
        if row.waived > 0 then Settled else Paid,
        Some(Components(left.principal, left.margin, InterestLeft(row))),
        Some(row.budget.(interest := row.budget.interest - row.waived)))
  }

  function QuoteRows(rows: seq<Row>, mode: Mode): (quotes: seq<RowQuote>)
    ensures |quotes| == |rows|
  {
    seq(|rows|, i requires 0 <= i < |rows| => QuoteRow(rows[i], mode))
  }

  function Cash(quotes: seq<RowQuote>): seq<int> {
    seq(|quotes|, i requires 0 <= i < |quotes| => quotes[i].cash)
  }

  function Waivers(quotes: seq<RowQuote>): seq<int> {
    seq(|quotes|, i requires 0 <= i < |quotes| => quotes[i].interestWaived)
  }

  function FirstError(rows: seq<Row>): Option<SettlementError> {
    if rows == [] then None
    else if RowError(rows[0]).Some? then RowError(rows[0])
    else FirstError(rows[1..])
  }

  function AllReasons(rows: seq<Row>): set<WaiverReason> {
    set i, r | 0 <= i < |rows| && r in RowReasons(rows[i]) :: r
  }

  /** The running totals of the pass over the rows. */
  datatype Tally = Tally(
    paid: int, waived: int, remaining: int, cash: int, waiver: int, quotes: seq<RowQuote>, reasons: set<WaiverReason>)

  function InitialReasons(reconstruction: Reconstruction): set<WaiverReason> {
    if reconstruction in {ReconstructionComplete, ReconstructionPartial} then {} else {NotReconstructed}
  }

  function TallyOf(rows: seq<Row>, mode: Mode, reconstruction: Reconstruction): Tally {
    var quotes := QuoteRows(rows, mode);
    Tally(
      Sum(Paids(rows)), Sum(Waiveds(rows)), Sum(Remainings(rows)), Sum(Cash(quotes)), Sum(Waivers(quotes)),
      quotes, InitialReasons(reconstruction) + AllReasons(rows))
  }

  function AddRow(tally: Tally, row: Row, mode: Mode): Tally {
    var quote := QuoteRow(row, mode);
    Tally(
      tally.paid + row.paid,
      tally.waived + row.waived,
      tally.remaining + row.remaining,
      tally.cash + quote.cash,
      tally.waiver + quote.interestWaived,
      tally.quotes + [quote],
      tally.reasons + RowReasons(row))
  }

  /** The checks against the parent contract and the final quote. */
  function Conclude(tally: Tally, parent: Parent, mode: Mode): Result<Quote, SettlementError> {
    if tally.paid != parent.paid then Err(ParentPaidDiffers)
    else if tally.waived != parent.waived then Err(ParentWaivedDiffers)
    else if tally.remaining != parent.remaining then Err(ParentRemainingDiffers)
    else if tally.cash + tally.waiver != parent.remaining then Err(CashPlusWaiverDiffers)
    else
      Ok(Quote(
        parent.remaining, tally.cash, tally.waiver, tally.quotes,
        tally.reasons + (if mode == WaiveRemainingProfit && tally.waiver <= 0 then {NothingToWaive} else {})))
  }

  function Settle(
    rows: seq<Row>, parent: Parent, mode: Mode, reconstruction: Reconstruction): Result<Quote, SettlementError>
  {
    if parent.remaining < 0 || parent.paid < 0 || parent.waived < 0 then Err(NegativeAmount)
    else if FirstError(rows).Some? then Err(FirstError(rows).value)
    else Conclude(TallyOf(rows, mode, reconstruction), parent, mode)
  }

  /** The program's single pass: check a row, quote it, and carry the running totals. */
  method TallyRows(rows: seq<Row>, mode: Mode, reconstruction: Reconstruction)
    returns (error: Option<SettlementError>, tally: Tally)
    ensures error == FirstError(rows)
    ensures error.None? ==> tally == TallyOf(rows, mode, reconstruction)
  {
    tally := Tally(0, 0, 0, 0, 0, [], InitialReasons(reconstruction));
    assert tally.reasons == TallyOf([], mode, reconstruction).reasons;
    for i := 0 to |rows|
      invariant FirstError(rows) == FirstError(rows[i..])
      invariant tally == TallyOf(rows[..i], mode, reconstruction)
    {
      FirstErrorFrom(rows, i);
      error := RowError(rows[i]);
      if error.Some? {
        return;
      }
      OneMoreRow(rows, i, mode, reconstruction);
      tally := AddRow(tally, rows[i], mode);
    }
    assert rows[..|rows|] == rows;
    error := None;
  }

  method CalculateNasiyaSettlement(rows: seq<Row>, parent: Parent, mode: Mode, reconstruction: Reconstruction)
    returns (result: Result<Quote, SettlementError>)
    ensures result == Settle(rows, parent, mode, reconstruction)
  {
    if parent.remaining < 0 || parent.paid < 0 || parent.waived < 0 {
      return Err(NegativeAmount);
    }
    var error, tally := TallyRows(rows, mode, reconstruction);
    if error.Some? {
      return Err(error.value);
    }
    return Conclude(tally, parent, mode);
  }

  lemma FirstErrorFrom(rows: seq<Row>, i: nat)
    requires i < |rows|
    ensures FirstError(rows[i..]) == if RowError(rows[i]).Some? then RowError(rows[i]) else FirstError(rows[i + 1..])
  {
    assert rows[i..][1..] == rows[i + 1..];
  }

  lemma RowColumnsSnoc(rows: seq<Row>, row: Row)
    ensures Sum(Paids(rows + [row])) == Sum(Paids(rows)) + row.paid
    ensures Sum(Waiveds(rows + [row])) == Sum(Waiveds(rows)) + row.waived
    ensures Sum(Remainings(rows + [row])) == Sum(Remainings(rows)) + row.remaining
  {
    assert Paids(rows + [row]) == Paids(rows) + [row.paid];
    SumSnoc(Paids(rows), row.paid);
    assert Waiveds(rows + [row]) == Waiveds(rows) + [row.waived];
    SumSnoc(Waiveds(rows), row.waived);
    assert Remainings(rows + [row]) == Remainings(rows) + [row.remaining];
    SumSnoc(Remainings(rows), row.remaining);
  }

  lemma QuoteColumnsSnoc(quotes: seq<RowQuote>, quote: RowQuote)
    ensures Sum(Cash(quotes + [quote])) == Sum(Cash(quotes)) + quote.cash
    ensures Sum(Waivers(quotes + [quote])) == Sum(Waivers(quotes)) + quote.interestWaived
  {
    assert Cash(quotes + [quote]) == Cash(quotes) + [quote.cash];
    SumSnoc(Cash(quotes), quote.cash);
    assert Waivers(quotes + [quote]) == Waivers(quotes) + [quote.interestWaived];
    SumSnoc(Waivers(quotes), quote.interestWaived);
  }

  lemma QuotesSnoc(rows: seq<Row>, row: Row, mode: Mode)
    ensures QuoteRows(rows + [row], mode) == QuoteRows(rows, mode) + [QuoteRow(row, mode)]
  {
  }

  lemma OneMoreRow(rows: seq<Row>, i: nat, mode: Mode, reconstruction: Reconstruction)
    requires i < |rows|
    ensures TallyOf(rows[..i + 1], mode, reconstruction)
      == AddRow(TallyOf(rows[..i], mode, reconstruction), rows[i], mode)
  {
    assert rows[..i + 1] == rows[..i] + [rows[i]];
    RowColumnsSnoc(rows[..i], rows[i]);
    QuotesSnoc(rows[..i], rows[i], mode);
    QuoteColumnsSnoc(QuoteRows(rows[..i], mode), QuoteRow(rows[i], mode));
    ReasonsSnoc(rows[..i], rows[i]);
  }

  lemma ReasonsSnoc(rows: seq<Row>, row: Row)
    ensures AllReasons(rows + [row]) == AllReasons(rows) + RowReasons(row)
  {
    var more := rows + [row];
    forall r | r in AllReasons(rows) + RowReasons(row) ensures r in AllReasons(more) {
      if r in AllReasons(rows) {
        var i :| 0 <= i < |rows| && r in RowReasons(rows[i]);
        assert more[i] == rows[i];
      } else {
        assert more[|rows|] == row;
      }
    }
    forall r | r in AllReasons(more) ensures r in AllReasons(rows) + RowReasons(row) {
      var i :| 0 <= i < |more| && r in RowReasons(more[i]);
    }
  }

  // ---------------------------------------------------------------- what a quote promises

  lemma RowQuoteBalances(row: Row, mode: Mode)
    requires RowError(row).None?
    ensures var quote := QuoteRow(row, mode);
      && quote.cash >= 0 && quote.interestWaived >= 0
      && quote.cash + quote.interestWaived == row.remaining == quote.remainingBefore
      && (quote.status == Settled <==> row.waived + quote.interestWaived > 0)
  {
  }

  lemma {:induction false} NoErrorMeansEveryRowIsSound(rows: seq<Row>)
    requires FirstError(rows).None?
    ensures forall i :: 0 <= i < |rows| ==> RowError(rows[i]).None?
  {
    if rows != [] {
      NoErrorMeansEveryRowIsSound(rows[1..]);
      forall i | 0 <= i < |rows| ensures RowError(rows[i]).None? {
        if i > 0 { assert rows[i] == rows[1..][i - 1]; }
      }
    }
  }

  /** Cash and waiver always make up the remaining debt, so the last of the thrown checks never fires. */
  lemma SettlementAlwaysBalances(rows: seq<Row>, parent: Parent, mode: Mode, reconstruction: Reconstruction)
    ensures Settle(rows, parent, mode, reconstruction) != Err(CashPlusWaiverDiffers)
    ensures Settle(rows, parent, mode, reconstruction).Ok? ==>
      var quote := Settle(rows, parent, mode, reconstruction).value;
      && quote.cashToReceive + quote.interestToWaive == Sum(Remainings(rows)) == quote.remainingBefore
      && quote.cashToReceive >= 0 && quote.interestToWaive >= 0
  {
    FirstErrorIsARowError(rows);
    if FirstError(rows).None? {
      NoErrorMeansEveryRowIsSound(rows);
      QuotesBalance(rows, mode);
    }
  }

  lemma QuotesBalance(rows: seq<Row>, mode: Mode)
    requires forall i :: 0 <= i < |rows| ==> RowError(rows[i]).None?
    ensures Sum(Cash(QuoteRows(rows, mode))) + Sum(Waivers(QuoteRows(rows, mode))) == Sum(Remainings(rows))
    ensures Sum(Cash(QuoteRows(rows, mode))) >= 0 && Sum(Waivers(QuoteRows(rows, mode))) >= 0
  {
    var quotes := QuoteRows(rows, mode);
    forall i | 0 <= i < |rows|
      ensures quotes[i].cash >= 0 && quotes[i].interestWaived >= 0
      ensures Remainings(rows)[i] - Cash(quotes)[i] == Waivers(quotes)[i]
    {
      RowQuoteBalances(rows[i], mode);
    }
    SumNonNegative(Cash(quotes));
    SumNonNegative(Waivers(quotes));
    SumMinus(Remainings(rows), Cash(quotes));
    assert Minus(Remainings(rows), Cash(quotes)) == Waivers(quotes);
  }

  lemma {:induction false} FirstErrorIsARowError(rows: seq<Row>)
    ensures FirstError(rows) != Some(CashPlusWaiverDiffers)
  {
    if rows != [] {
      FirstErrorIsARowError(rows[1..]);
    }
  }

  /** A row whose recovery came from payments alone, on a plan's budget. */
  ghost predicate PaidByPayments(row: Row) {
    && row.expected > 0 && Recoverable(row.budget) && row.budget.Total() == row.expected
    && 0 <= row.paid <= row.expected && row.waived == 0 && row.remaining == row.expected - row.paid
    && row.recovered == PaidAt(row.budget, row.paid)
  }

  /**
   * After any payments the gate admits the row, with one exception it always refuses: a row sold
   * exactly at cost whose principal and interest roundings are both ties.
   */
  lemma GateAfterPayments(row: Row)
    requires PaidByPayments(row)
    ensures RowError(row).None?
    ensures GateOpen(row) <==> !(row.budget.margin == 0 && BothTie(row.budget, row.paid))
  {
    RecoveryStaysWithinBudget(row.budget, row.paid, row.paid);
    MarginStaysInRange(row.budget, row.paid);
  }

  /** A row of 2 made of cost 1 and interest 1, half paid: its margin shows -1 and the gate refuses it. */
  lemma GateRefusesTie(row: Row)
    requires PaidByPayments(row)
    requires row.budget == Components(1, 0, 1) && row.paid == 1
    ensures row.recovered.margin == -1
    ensures !GateOpen(row)
  {
    HalfOfTwoTies();
    MarginStaysInRange(row.budget, row.paid);
    GateAfterPayments(row);
  }

  lemma HalfOfTwoTies()
    ensures BothTie(Components(1, 0, 1), 1)
  {
    assert Components(1, 0, 1).Total() == 2;
    assert (2 * (1 * 1) - 2) % (2 * 2) == 0;
  }

  /** An open gate asks for exactly the unpaid principal and margin, and waives exactly the unpaid interest. */
  lemma WaiverTakesBaseOnly(row: Row)
    requires RowError(row).None? && GateOpen(row)
    ensures var quote := QuoteRow(row, WaiveRemainingProfit);
      && row.recovered.principal + quote.cashComponents.value.principal == row.budget.principal
      && row.recovered.margin + quote.cashComponents.value.margin == row.budget.margin
      && quote.cashComponents.value.Total() == quote.cash
      && row.recovered.interest + row.waived + quote.interestWaived == row.budget.interest
      && quote.paidAfter.value == Components(row.budget.principal, row.budget.margin, row.recovered.interest)
  {
  }

  /** From nothing towards a limit, on whichever side of nothing that lies, and not beyond it. */
  predicate OnTheWay(x: int, limit: int) {
    0 <= x <= limit || limit <= x <= 0
  }

  /**
   * The gate of a well-formed row is open exactly when budget and recovery add up to what was agreed and
   * paid, no purpose is recovered beyond its budget, and the cash that a waiver would ask for is not
   * negative. That cash and interest then make up the remaining debt needs no check of its own.
   */
  lemma GateOpenIff(row: Row)
    requires RowError(row).None?
    ensures GateOpen(row)
      <==> && row.budget.principal + row.budget.margin + row.budget.interest == row.expected
           && row.recovered.principal + row.recovered.margin + row.recovered.interest == row.paid
           && row.recovered.principal <= row.budget.principal && OnTheWay(row.recovered.margin, row.budget.margin)
           && row.recovered.interest + row.waived <= row.budget.interest
           && row.budget.principal + row.budget.margin >= row.recovered.principal + row.recovered.margin
  {
  }

  /** Without a waiver an open gate asks for everything unpaid, purpose by purpose. */
  lemma FullTakesEverything(row: Row)
    requires RowError(row).None? && GateOpen(row)
    ensures var quote := QuoteRow(row, FullWithProfit);
      && quote.cash == row.remaining && quote.interestWaived == 0
      && row.recovered.principal + quote.cashComponents.value.principal == row.budget.principal
      && row.recovered.margin + quote.cashComponents.value.margin == row.budget.margin
      && row.recovered.interest + row.waived + quote.cashComponents.value.interest == row.budget.interest
      && quote.cashComponents.value.Total() == quote.cash
      && quote.paidAfter.value == Components(row.budget.principal, row.budget.margin, row.budget.interest - row.waived)
  {
  }

  /** A closed gate lets nothing be waived: the debt is asked for in cash, without a split over purposes. */
  lemma ClosedGateWaivesNothing(row: Row, mode: Mode)
    requires !GateOpen(row)
    ensures var quote := QuoteRow(row, mode);
      && quote.cash == row.remaining && quote.interestWaived == 0
      && quote.cashComponents.None? && quote.paidAfter.None?
  {
  }

  /** A quote is given exactly for well-formed rows whose sums are the non-negative ones of the contract. */
  lemma SettleQuotesIff(rows: seq<Row>, parent: Parent, mode: Mode, reconstruction: Reconstruction)
    ensures Settle(rows, parent, mode, reconstruction).Ok?
      <==> && parent.paid >= 0 && parent.waived >= 0 && parent.remaining >= 0
           && (forall i :: 0 <= i < |rows| ==> RowError(rows[i]).None?)
           && parent.paid == Sum(Paids(rows)) && parent.waived == Sum(Waiveds(rows))
           && parent.remaining == Sum(Remainings(rows))
  {
    if FirstError(rows).None? {
      NoErrorMeansEveryRowIsSound(rows);
      QuotesBalance(rows, mode);
    } else if forall i :: 0 <= i < |rows| ==> RowError(rows[i]).None? {
      SoundRowsHaveNoError(rows);
    }
  }

  lemma {:induction false} SoundRowsHaveNoError(rows: seq<Row>)
    requires forall i :: 0 <= i < |rows| ==> RowError(rows[i]).None?
    ensures FirstError(rows).None?
  {
    if rows != [] {
      assert RowError(rows[0]).None?;
      SoundRowsHaveNoError(rows[1..]);
    }
  }

  /** What each reason against a waiver says. */
  ghost predicate ReasonHolds(
    rows: seq<Row>, mode: Mode, reconstruction: Reconstruction, waiver: int, reason: WaiverReason)
  {
    match reason
    case NotReconstructed =>
      reconstruction != ReconstructionComplete && reconstruction != ReconstructionPartial
    case ComponentsMismatch(id) => exists i :: 0 <= i < |rows| && rows[i].id == id && !ComponentsReconcile(rows[i])
    case RemainderMismatch(id) =>
      exists i :: 0 <= i < |rows| && rows[i].id == id && ComponentsReconcile(rows[i]) && !RemainderMatches(rows[i])
    case NothingToWaive => mode == WaiveRemainingProfit && waiver <= 0
  }

  lemma RowReasonHolds(row: Row, reason: WaiverReason)
    ensures reason in RowReasons(row)
      <==> || (reason.ComponentsMismatch? && reason.row == row.id && !ComponentsReconcile(row))
           || (reason.RemainderMismatch? && reason.row == row.id && ComponentsReconcile(row) && !RemainderMatches(row))
  {
  }

  /** A quote names a reason exactly when it holds, and each of its rows is the quote of its own row. */
  lemma QuoteIsExact(rows: seq<Row>, parent: Parent, mode: Mode, reconstruction: Reconstruction, reason: WaiverReason)
    requires Settle(rows, parent, mode, reconstruction).Ok?
    ensures var quote := Settle(rows, parent, mode, reconstruction).value;
      && quote.remainingBefore == parent.remaining
      && (reason in quote.reasons <==> ReasonHolds(rows, mode, reconstruction, quote.interestToWaive, reason))
      && |quote.rows| == |rows|
      && forall i :: 0 <= i < |rows| ==>
           && quote.rows[i].scheduleId == rows[i].id && quote.rows[i].remainingBefore == rows[i].remaining
           && quote.rows[i].cash + quote.rows[i].interestWaived == rows[i].remaining
           && (quote.rows[i].status == Settled <==> rows[i].waived + quote.rows[i].interestWaived > 0)
           && (quote.rows[i].status == Paid <==> rows[i].waived + quote.rows[i].interestWaived <= 0)
  {
    forall i | 0 <= i < |rows|
      ensures reason in RowReasons(rows[i]) <==>
        || (reason.ComponentsMismatch? && reason.row == rows[i].id && !ComponentsReconcile(rows[i]))
        || (reason.RemainderMismatch? && reason.row == rows[i].id
            && ComponentsReconcile(rows[i]) && !RemainderMatches(rows[i]))
    {
      RowReasonHolds(rows[i], reason);
    }
  }
}
