/** Closing a Nasiya contract early: when that is accepted, and what it leaves behind. */
module ContractSettlements {
  import opened Results
  import opened Sequences
  import opened Currency
  import opened PaymentComponents
  import opened Schedules
  import opened PaymentAllocation
  import opened NasiyaLedger
  import opened ContractLifecycle
  import opened ContractInvariant
  import opened ContractPayments
  import opened UzsReporting
  import Settlement

  // ---------------------------------------------------------------- one row

  /** Roundings that the component gate refuses: sold at cost, principal and interest both at a tie. */
  ghost predicate Stuck(row: Row) {
    row.budget.Total() > 0 && row.budget.margin == 0 && BothTie(row.budget, row.paid)
  }

  lemma UnwaivedRowIsPaidByPayments(row: Row, currency: Currency)
    requires RowSound(row, currency) && row.waived == 0 && ComponentsSound(row)
    ensures Settlement.PaidByPayments(row)
    ensures Settlement.RowError(row).None?
    ensures Settlement.GateOpen(row) <==> !Stuck(row)
    ensures row.remaining == 0 ==> Settlement.GateOpen(row)
  {
    Settlement.GateAfterPayments(row);
    if row.remaining == 0 {
      PaidAtEnds(row.budget, row.paid);
    }
  }

  /** A row closed by a settlement balances, and its status is right at any time. */
  lemma SettledRowIsSound(row: Row, mode: Settlement.Mode, currency: Currency, date: Time)
    requires RowSound(row, currency) && row.waived == 0 && Settlement.RowError(row).None? && row.remaining > 0
    ensures RowSound(SettleRow(row, mode), currency)
    ensures SettleRow(row, mode).status == ExpectedStatus(SettleRow(row, mode), date)
  {
    Settlement.RowQuoteBalances(row, mode);
  }

  lemma WaivedRow(row: Row)
    requires row.waived == 0 && row.remaining > 0 && Settlement.GateOpen(row)
    ensures var settled := SettleRow(row, Settlement.WaiveRemainingProfit);
      && settled.budget == row.budget && settled.expected == row.expected && settled.remaining == 0
      && settled.waived == row.budget.interest - row.recovered.interest
      && settled.recovered == row.budget.(interest := row.recovered.interest)
      && (settled.waived == 0 ==> settled.paid == row.expected)
  {
  }

  lemma FullyPaidRow(row: Row)
    requires row.waived == 0 && row.remaining > 0 && Settlement.GateOpen(row)
    requires row.expected == row.paid + row.remaining
    ensures var settled := SettleRow(row, Settlement.FullWithProfit);
      && settled.budget == row.budget == settled.recovered && settled.expected == row.expected
      && settled.waived == 0 && settled.paid == row.expected
  {
  }

  lemma SettledComponentsAreSound(row: Row, mode: Settlement.Mode, currency: Currency)
    requires RowSound(row, currency) && row.waived == 0 && ComponentsSound(row) && row.remaining > 0
    requires Settlement.GateOpen(row)
    ensures ComponentsSound(SettleRow(row, mode))
  {
    PaidAtEnds(row.budget, row.expected);
    if mode == Settlement.WaiveRemainingProfit {
      WaivedRow(row);
    } else {
      FullyPaidRow(row);
    }
  }

  // ---------------------------------------------------------------- the columns

  /** A settlement that may be written: rows without errors, and open gates wherever components are kept. */
  ghost predicate Settleable(s: State, mode: Settlement.Mode) {
    && Inv(s) && s.remaining > 0
    && (forall i :: 0 <= i < |s.rows| ==> Settlement.RowError(s.rows[i]).None?)
    && (Complete(s) ==> forall i :: 0 <= i < |s.rows| && s.rows[i].remaining > 0 ==> Settlement.GateOpen(s.rows[i]))
  }

  /** What a settlement does to one row, open or closed. */
  ghost predicate RowSettled(row: Row, settled: Row, quote: Settlement.RowQuote, currency: Currency) {
    && RowSound(settled, currency)
    && settled.id == row.id && settled.expected == row.expected && settled.remaining == 0
    && settled.paid == row.paid + quote.cash && settled.waived == row.waived + quote.interestWaived
    && 0 <= quote.cash && 0 <= quote.interestWaived && quote.cash + quote.interestWaived == row.remaining
    && quote.cash <= MaxUnits(currency)
  }

  lemma EveryRowIsSettled(s: State, mode: Settlement.Mode, i: nat)
    requires Settleable(s, mode) && i < |s.rows|
    ensures RowSettled(s.rows[i], SettleRow(s.rows[i], mode), Settlement.QuoteRow(s.rows[i], mode), s.currency)
    ensures Complete(s) ==> ComponentsSound(SettleRow(s.rows[i], mode))
  {
    var row := s.rows[i];
    OpenDebtMeansNothingWaived(s);
    assert RowSound(row, s.currency);
    Settlement.RowQuoteBalances(row, mode);
    if row.remaining > 0 {
      SettledRowIsSound(row, mode, s.currency, 0);
      if Complete(s) {
        SettledComponentsAreSound(row, mode, s.currency);
      }
    }
  }

  lemma SettledAmounts(s: State, mode: Settlement.Mode)
    requires Settleable(s, mode)
    ensures var settled, quotes := SettleRows(s.rows, mode), Settlement.QuoteRows(s.rows, mode);
      && Expecteds(settled) == Expecteds(s.rows)
      && Minus(Paids(settled), Paids(s.rows)) == Settlement.Cash(quotes)
      && Minus(Waiveds(settled), Waiveds(s.rows)) == Settlement.Waivers(quotes)
  {
    var settled, quotes := SettleRows(s.rows, mode), Settlement.QuoteRows(s.rows, mode);
    forall i | 0 <= i < |s.rows|
      ensures settled[i].expected == s.rows[i].expected
      ensures settled[i].paid - s.rows[i].paid == quotes[i].cash
      ensures settled[i].waived - s.rows[i].waived == quotes[i].interestWaived
    {
      EveryRowIsSettled(s, mode, i);
    }
  }

  lemma SettledTotals(s: State, mode: Settlement.Mode)
    requires Settleable(s, mode)
    ensures var settled, quotes := SettleRows(s.rows, mode), Settlement.QuoteRows(s.rows, mode);
      && Sum(Expecteds(settled)) == s.final
      && Sum(Paids(settled)) == s.paid + Sum(Settlement.Cash(quotes))
      && Sum(Waiveds(settled)) == s.waived + Sum(Settlement.Waivers(quotes))
      && Sum(Remainings(settled)) == 0
  {
    var settled := SettleRows(s.rows, mode);
    SettledAmounts(s, mode);
    SumMinus(Paids(settled), Paids(s.rows));
    SumMinus(Waiveds(settled), Waiveds(s.rows));
    forall i | 0 <= i < |s.rows| ensures Remainings(settled)[i] == 0 {
      EveryRowIsSettled(s, mode, i);
    }
    SumOfZeros(Remainings(settled));
  }

  // ---------------------------------------------------------------- the evidence

  function RowEvidence(row: Row, mode: Settlement.Mode, currency: Currency): seq<Evidence> {
    if BringsCash(row, mode) && Settlement.QuoteRow(row, mode).cashComponents.Some?
    then [Evidence(Some(row.id), Some(currency), Settlement.QuoteRow(row, mode).cash)]
    else []
  }

  /** Whatever cash a row brings is evidenced on that row. */
  ghost predicate CashIsEvidenced(row: Row, mode: Settlement.Mode, currency: Currency) {
    && InRange(Settlement.QuoteRow(row, mode).cash, currency)
    && (Settlement.QuoteRow(row, mode).cash > 0 ==>
          row.remaining > 0 && Settlement.QuoteRow(row, mode).cashComponents.Some?)
  }

  lemma RowEvidenceCounts(id: nat, row: Row, mode: Settlement.Mode, currency: Currency)
    requires CashIsEvidenced(row, mode, currency)
    ensures Evidenced(id, RowEvidence(row, mode, currency), currency)
      == if row.id == id then Settlement.QuoteRow(row, mode).cash else 0
    ensures forall e :: e in RowEvidence(row, mode, currency) ==> EvidenceValid(e, currency)
  {
    EvidencedOne(id, Evidence(Some(row.id), Some(currency), Settlement.QuoteRow(row, mode).cash), currency);
  }

  function CashOn(id: nat, rows: seq<Row>, mode: Settlement.Mode): int {
    if rows == [] then 0
    else (if rows[0].id == id then Settlement.QuoteRow(rows[0], mode).cash else 0) + CashOn(id, rows[1..], mode)
  }

  lemma {:induction false} SettlementEvidenceCounts(id: nat, rows: seq<Row>, mode: Settlement.Mode, currency: Currency)
    requires forall i :: 0 <= i < |rows| ==> CashIsEvidenced(rows[i], mode, currency)
    ensures Evidenced(id, SettlementEvidence(rows, mode, currency), currency) == CashOn(id, rows, mode)
    ensures forall e :: e in SettlementEvidence(rows, mode, currency) ==> EvidenceValid(e, currency)
  {
    if rows != [] {
      var rest := SettlementEvidence(rows[1..], mode, currency);
      SettlementEvidenceCounts(id, rows[1..], mode, currency);
      RowEvidenceCounts(id, rows[0], mode, currency);
      EvidencedConcat(id, RowEvidence(rows[0], mode, currency), rest, currency);
      assert SettlementEvidence(rows, mode, currency) == RowEvidence(rows[0], mode, currency) + rest;
    }
  }

  lemma {:induction false} CashOnRow(rows: seq<Row>, mode: Settlement.Mode, i: nat)
    requires DistinctIds(rows) && i < |rows|
    ensures CashOn(rows[i].id, rows, mode) == Settlement.QuoteRow(rows[i], mode).cash
  {
    if i == 0 {
      CashElsewhere(rows[0].id, rows[1..], mode);
    } else {
      CashOnRow(rows[1..], mode, i - 1);
    }
  }

  lemma {:induction false} CashElsewhere(id: nat, rows: seq<Row>, mode: Settlement.Mode)
    requires forall i :: 0 <= i < |rows| ==> rows[i].id != id
    ensures CashOn(id, rows, mode) == 0
  {
    if rows != [] {
      CashElsewhere(id, rows[1..], mode);
    }
  }

  lemma CompleteCashIsEvidenced(s: State, mode: Settlement.Mode)
    requires Settleable(s, mode) && Complete(s)
    ensures forall i :: 0 <= i < |s.rows| ==> CashIsEvidenced(s.rows[i], mode, s.currency)
  {
    forall i | 0 <= i < |s.rows| ensures CashIsEvidenced(s.rows[i], mode, s.currency) {
      EveryRowIsSettled(s, mode, i);
    }
  }

  lemma SettledRowIsEvidenced(s: State, mode: Settlement.Mode, i: nat, more: seq<Evidence>)
    requires Settleable(s, mode) && Complete(s) && i < |s.rows|
    requires more == SettlementEvidence(s.rows, mode, s.currency)
    ensures Evidenced(SettleRows(s.rows, mode)[i].id, s.evidence + more, s.currency) == SettleRows(s.rows, mode)[i].paid
  {
    CompleteCashIsEvidenced(s, mode);
    EveryRowIsSettled(s, mode, i);
    EvidencedConcat(s.rows[i].id, s.evidence, more, s.currency);
    SettlementEvidenceCounts(s.rows[i].id, s.rows, mode, s.currency);
    CashOnRow(s.rows, mode, i);
  }

  lemma SettledEvidenceIsSound(s: State, mode: Settlement.Mode)
    requires Settleable(s, mode) && Complete(s)
    ensures EvidenceSound(
      SettleRows(s.rows, mode), s.evidence + SettlementEvidence(s.rows, mode, s.currency), s.currency)
  {
    var settled, more := SettleRows(s.rows, mode), SettlementEvidence(s.rows, mode, s.currency);
    CompleteCashIsEvidenced(s, mode);
    SettlementEvidenceCounts(0, s.rows, mode, s.currency);
    forall i | 0 <= i < |s.evidence + more| ensures EvidenceValid((s.evidence + more)[i], s.currency) {
      if i >= |s.evidence| {
        assert (s.evidence + more)[i] in more;
      }
    }
    forall i | 0 <= i < |settled|
      ensures Evidenced(settled[i].id, s.evidence + more, s.currency) == settled[i].paid
    {
      SettledRowIsEvidenced(s, mode, i, more);
    }
    forall id: nat ensures HasRow(settled, id) || Evidenced(id, s.evidence + more, s.currency) == 0 {
      if HasRow(s.rows, id) {
        var i :| 0 <= i < |s.rows| && s.rows[i].id == id;
        EveryRowIsSettled(s, mode, i);
        assert settled[i].id == id;
      } else {
        EvidencedConcat(id, s.evidence, more, s.currency);
        SettlementEvidenceCounts(id, s.rows, mode, s.currency);
        CashElsewhere(id, s.rows, mode);
      }
    }
  }

  // ---------------------------------------------------------------- the closed contract

  lemma SettledRowsAreSound(s: State, mode: Settlement.Mode, settled: seq<Row>)
    requires Settleable(s, mode) && settled == SettleRows(s.rows, mode)
    ensures forall i :: 0 <= i < |settled| ==>
      RowSound(settled[i], s.currency) && settled[i].id == s.rows[i].id && settled[i].remaining == 0
    ensures Complete(s) ==> forall i :: 0 <= i < |settled| ==> ComponentsSound(settled[i])
  {
    forall i | 0 <= i < |settled|
      ensures RowSound(settled[i], s.currency) && settled[i].id == s.rows[i].id && settled[i].remaining == 0
      ensures Complete(s) ==> ComponentsSound(settled[i])
    {
      EveryRowIsSettled(s, mode, i);
    }
  }

  lemma ClosedKeepsInvariant(s: State, mode: Settlement.Mode)
    requires Settleable(s, mode)
    ensures var quotes := Settlement.QuoteRows(s.rows, mode);
      Inv(Closed(s, mode, Sum(Settlement.Cash(quotes)), Sum(Settlement.Waivers(quotes))))
  {
    SettledTotals(s, mode);
    SettledRowsAreSound(s, mode, SettleRows(s.rows, mode));
    if Complete(s) {
      SettledEvidenceIsSound(s, mode);
    }
  }

  /** Closing an up-to-date contract leaves every row with the status it should have on any date. */
  lemma ClosedRowsAreCurrent(s: State, mode: Settlement.Mode, checkedAt: Time, date: Time)
    requires Settleable(s, mode) && RowsCurrent(s.rows, checkedAt)
    ensures RowsCurrent(SettleRows(s.rows, mode), date)
  {
    OpenDebtMeansNothingWaived(s);
    forall i | 0 <= i < |s.rows|
      ensures SettleRow(s.rows[i], mode).status == ExpectedStatus(SettleRow(s.rows[i], mode), date)
    {
      assert RowSound(s.rows[i], s.currency);
      if s.rows[i].remaining > 0 {
        SettledRowIsSound(s.rows[i], mode, s.currency, date);
      }
    }
  }

  /** The closing audit of such a contract finds it healthy and completed. */
  lemma CompletedIsHealthy(s: State, date: Time)
    requires Inv(s) && s.status == NasiyaCompleted && s.remaining == 0 && RowsCurrent(s.rows, date)
    ensures ConfirmsClosing(s, date)
  {
    var c := AsContract(s);
    CacheInRange(s);
    SoundRowsAreInOrder(s);
    EntriesHoldRows(s);
    CurrentRowsOfContract(s, date);
    AuditOfSoundContract(c, date);
    AuditedStatusOfSound(s, date);
    HealthyIffAllAgrees(c, date);
  }

  /** A settlement as accepted: debt split into cash and waiver, everything closed, every row current for good. */
  ghost predicate SettlementBooked(s: State, s': State) {
    && Inv(s')
    && |s'.rows| == |s.rows| && s'.remaining == 0 && s'.status == NasiyaCompleted
    && s'.paid >= s.paid && s'.waived >= s.waived
    && (s'.paid - s.paid) + (s'.waived - s.waived) == s.remaining
    && s'.final == s.final && s'.reconstruction == s.reconstruction && s'.currency == s.currency
    && forall t: Time :: RowsCurrent(s'.rows, t)
  }

  lemma SettleableIsBooked(s: State, mode: Settlement.Mode, checkedAt: Time, date: Time)
    requires Settleable(s, mode) && RowsCurrent(s.rows, checkedAt)
    ensures var quotes := Settlement.QuoteRows(s.rows, mode);
      var closed := Closed(s, mode, Sum(Settlement.Cash(quotes)), Sum(Settlement.Waivers(quotes)));
      && SettlementBooked(s, closed)
      && ConfirmsClosing(closed, date)
  {
    var quotes := Settlement.QuoteRows(s.rows, mode);
    var closed := Closed(s, mode, Sum(Settlement.Cash(quotes)), Sum(Settlement.Waivers(quotes)));
    ClosedKeepsInvariant(s, mode);
    Settlement.QuotesBalance(s.rows, mode);
    forall t: Time ensures RowsCurrent(closed.rows, t) {
      ClosedRowsAreCurrent(s, mode, checkedAt, t);
    }
    CompletedIsHealthy(closed, date);
  }

  // ---------------------------------------------------------------- the settlement step

  lemma {:induction false} NoErrorOnAnyRow(rows: seq<Row>)
    requires forall i :: 0 <= i < |rows| ==> Settlement.RowError(rows[i]).None?
    ensures Settlement.FirstError(rows).None?
  {
    if rows != [] {
      NoErrorOnAnyRow(rows[1..]);
    }
  }

  /** What the settlement of a contract in order quotes: the sums of the row quotes, whenever no row is in error. */
  lemma SettleOfSoundContract(s: State, mode: Settlement.Mode)
    requires Inv(s)
    ensures var quotes := Settlement.QuoteRows(s.rows, mode);
      var result := Settlement.Settle(s.rows, ParentOf(s), mode, s.reconstruction);
      && (result.Ok? <==> forall i :: 0 <= i < |s.rows| ==> Settlement.RowError(s.rows[i]).None?)
      && (result.Ok? ==>
            && result.value.cashToReceive == Sum(Settlement.Cash(quotes))
            && result.value.interestToWaive == Sum(Settlement.Waivers(quotes))
            && result.value.reasons == Settlement.InitialReasons(s.reconstruction) + Settlement.AllReasons(s.rows)
                 + (if mode == Settlement.WaiveRemainingProfit && Sum(Settlement.Waivers(quotes)) <= 0
                    then {Settlement.NothingToWaive} else {}))
  {
    CacheInRange(s);
    if Settlement.FirstError(s.rows).None? {
      Settlement.NoErrorMeansEveryRowIsSound(s.rows);
      Settlement.QuotesBalance(s.rows, mode);
    } else if forall i :: 0 <= i < |s.rows| ==> Settlement.RowError(s.rows[i]).None? {
      NoErrorOnAnyRow(s.rows);
    }
  }

  /** What a settlement asks of the contract before anything is written. */
  ghost predicate MaySettle(s: State, mode: Settlement.Mode) {
    && (forall i :: 0 <= i < |s.rows| ==> Settlement.RowError(s.rows[i]).None?)
    && CashIsSplit(s, mode)
    && (mode == Settlement.WaiveRemainingProfit ==>
          && Settlement.InitialReasons(s.reconstruction) == {} && Settlement.AllReasons(s.rows) == {}
          && Sum(Settlement.Waivers(Settlement.QuoteRows(s.rows, mode))) > 0)
  }

  lemma MayIsSettleable(s: State, mode: Settlement.Mode)
    requires Inv(s) && s.remaining > 0 && MaySettle(s, mode)
    ensures Settleable(s, mode)
  {
    if Complete(s) {
      forall i | 0 <= i < |s.rows| && s.rows[i].remaining > 0 ensures Settlement.GateOpen(s.rows[i]) {
        if !Settlement.GateOpen(s.rows[i]) {
          SomeReason(s.rows, i);
        }
      }
    }
  }

  lemma SomeReason(rows: seq<Row>, i: nat)
    requires i < |rows| && !Settlement.GateOpen(rows[i])
    ensures Settlement.AllReasons(rows) != {}
  {
    var reason := if !Settlement.ComponentsReconcile(rows[i]) then Settlement.ComponentsMismatch(rows[i].id)
      else Settlement.RemainderMismatch(rows[i].id);
    assert reason in Settlement.RowReasons(rows[i]);
    assert reason in Settlement.AllReasons(rows);
  }

  lemma CloseUnfolds(s: State, mode: Settlement.Mode)
    requires Inv(s)
    ensures var quotes := Settlement.QuoteRows(s.rows, mode);
      CloseByQuote(s, mode) ==
        if MaySettle(s, mode)
        then Some(Closed(s, mode, Sum(Settlement.Cash(quotes)), Sum(Settlement.Waivers(quotes))))
        else None
  {
    SettleOfSoundContract(s, mode);
  }

  lemma SettleUnfolds(s: State, mode: Settlement.Mode, som: SomValues, checkedAt: Time, date: Time)
    requires Inv(s)
    ensures SettleStep(s, mode, som, checkedAt, date) ==
      if RowsCurrent(s.rows, checkedAt) && s.remaining > 0 && CloseByQuote(s, mode).Some?
         && IsReported(s, mode, som) && ConfirmsClosing(CloseByQuote(s, mode).value, date)
      then CloseByQuote(s, mode)
      else None
  {
    AdmitsIff(s, checkedAt);
  }

  /** Every accepted settlement splits the whole debt into cash and waived interest and closes the contract. */
  lemma SettlementKeepsInvariant(s: State, mode: Settlement.Mode, som: SomValues, checkedAt: Time, date: Time)
    requires Inv(s)
    ensures SettleStep(s, mode, som, checkedAt, date).Some? <==>
      RowsCurrent(s.rows, checkedAt) && s.remaining > 0 && MaySettle(s, mode) && IsReported(s, mode, som)
    ensures SettleStep(s, mode, som, checkedAt, date).Some? ==>
      SettlementBooked(s, SettleStep(s, mode, som, checkedAt, date).value)
  {
    SettleUnfolds(s, mode, som, checkedAt, date);
    CloseUnfolds(s, mode);
    if RowsCurrent(s.rows, checkedAt) && s.remaining > 0 && MaySettle(s, mode) {
      MayIsSettleable(s, mode);
      SettleableIsBooked(s, mode, checkedAt, date);
    }
  }

  // ---------------------------------------------------------------- exactly when

  ghost predicate NoneStuck(rows: seq<Row>) {
    forall i :: 0 <= i < |rows| ==> !Stuck(rows[i])
  }

  ghost predicate InterestOutstanding(rows: seq<Row>) {
    exists i :: 0 <= i < |rows| && rows[i].recovered.interest < rows[i].budget.interest
  }

  ghost predicate GatesOpen(rows: seq<Row>) {
    forall i :: 0 <= i < |rows| ==> Settlement.GateOpen(rows[i])
  }

  lemma GatesOpenIffNoneStuck(s: State)
    requires Inv(s) && Complete(s) && s.remaining > 0
    ensures GatesOpen(s.rows) <==> NoneStuck(s.rows)
    ensures forall i :: 0 <= i < |s.rows| ==>
      Settlement.RowError(s.rows[i]).None? && (s.rows[i].remaining == 0 ==> Settlement.GateOpen(s.rows[i]))
  {
    OpenDebtMeansNothingWaived(s);
    forall i | 0 <= i < |s.rows|
      ensures Settlement.GateOpen(s.rows[i]) <==> !Stuck(s.rows[i])
      ensures Settlement.RowError(s.rows[i]).None?
      ensures s.rows[i].remaining == 0 ==> Settlement.GateOpen(s.rows[i])
    {
      assert RowSound(s.rows[i], s.currency) && ComponentsSound(s.rows[i]);
      UnwaivedRowIsPaidByPayments(s.rows[i], s.currency);
    }
  }

  lemma NoReasonsIffGatesOpen(rows: seq<Row>)
    ensures Settlement.AllReasons(rows) == {} <==> GatesOpen(rows)
  {
    if Settlement.AllReasons(rows) == {} {
      forall i | 0 <= i < |rows| ensures Settlement.GateOpen(rows[i]) {
        if !Settlement.GateOpen(rows[i]) {
          SomeReason(rows, i);
        }
      }
    }
  }

  lemma CashIsSplitWhenGatesOpen(s: State, mode: Settlement.Mode)
    requires GatesOpen(s.rows)
    ensures CashIsSplit(s, mode)
  {
  }

  lemma FullCashIsSplitMeansGatesOpen(s: State)
    requires Complete(s) && CashIsSplit(s, Settlement.FullWithProfit)
    requires forall i :: 0 <= i < |s.rows| ==>
      s.rows[i].remaining >= 0 && (s.rows[i].remaining == 0 ==> Settlement.GateOpen(s.rows[i]))
    ensures GatesOpen(s.rows)
  {
    forall i | 0 <= i < |s.rows| ensures Settlement.GateOpen(s.rows[i]) {
      if s.rows[i].remaining > 0 && !Settlement.GateOpen(s.rows[i]) {
        assert BringsCash(s.rows[i], Settlement.FullWithProfit);
      }
    }
  }

  lemma WaiversIffInterestOutstanding(s: State)
    requires Inv(s) && s.remaining > 0 && GatesOpen(s.rows)
    requires forall i :: 0 <= i < |s.rows| ==> Settlement.RowError(s.rows[i]).None?
    ensures Sum(Settlement.Waivers(Settlement.QuoteRows(s.rows, Settlement.WaiveRemainingProfit))) > 0
      <==> InterestOutstanding(s.rows)
  {
    var waivers := Settlement.Waivers(Settlement.QuoteRows(s.rows, Settlement.WaiveRemainingProfit));
    OpenDebtMeansNothingWaived(s);
    forall i | 0 <= i < |s.rows|
      ensures waivers[i] == s.rows[i].budget.interest - s.rows[i].recovered.interest >= 0
    {
      assert Settlement.GateOpen(s.rows[i]);
    }
    SumNonNegative(waivers);
    if !InterestOutstanding(s.rows) {
      SumOfZeros(waivers);
    }
  }

  /**
   * Exactly when a contract created by the program can be settled early: it owes something, its
   * stored statuses are current, no row is stuck at a double tie -- which shuts out both modes -- and,
   * to waive interest, some interest is still to be paid. And every row must get some of the so'm, with
   * a waiver that fits the legacy so'm mirror.
   */
  lemma SettlementAcceptedIff(s: State, mode: Settlement.Mode, som: SomValues, checkedAt: Time, date: Time)
    requires Inv(s) && Complete(s)
    ensures SettleStep(s, mode, som, checkedAt, date).Some? <==>
      && RowsCurrent(s.rows, checkedAt) && s.remaining > 0 && NoneStuck(s.rows)
      && (mode == Settlement.WaiveRemainingProfit ==> InterestOutstanding(s.rows))
      && IsReported(s, mode, som)
  {
    SettlementKeepsInvariant(s, mode, som, checkedAt, date);
    if s.remaining > 0 {
      MayIffNoneStuck(s, mode);
    }
  }

  lemma MayIffNoneStuck(s: State, mode: Settlement.Mode)
    requires Inv(s) && Complete(s) && s.remaining > 0
    ensures MaySettle(s, mode) <==>
      NoneStuck(s.rows) && (mode == Settlement.WaiveRemainingProfit ==> InterestOutstanding(s.rows))
  {
    GatesOpenIffNoneStuck(s);
    NoReasonsIffGatesOpen(s.rows);
    if GatesOpen(s.rows) {
      CashIsSplitWhenGatesOpen(s, mode);
      WaiversIffInterestOutstanding(s);
    } else if mode == Settlement.FullWithProfit && CashIsSplit(s, mode) {
      forall i | 0 <= i < |s.rows| ensures s.rows[i].remaining >= 0 {
        assert RowSound(s.rows[i], s.currency);
      }
      FullCashIsSplitMeansGatesOpen(s);
    }
  }

  /** What a waiver leaves of a row: cost and margin collected, and the interest not collected waived. */
  ghost predicate BaseCollected(row: Row, settled: Row) {
    && settled.recovered == row.budget.(interest := row.recovered.interest)
    && settled.waived == row.budget.interest - row.recovered.interest
    && settled.paid == row.budget.principal + row.budget.margin + row.recovered.interest
  }

  lemma OpenWaiverLeavesBase(row: Row)
    requires row.waived == 0 && row.remaining > 0 && row.expected == row.paid + row.remaining
    requires Settlement.RowError(row).None? && Settlement.GateOpen(row) && row.budget.Total() == row.expected
    ensures BaseCollected(row, SettleRow(row, Settlement.WaiveRemainingProfit))
  {
    Settlement.WaiverTakesBaseOnly(row);
    WaivedRow(row);
  }

  lemma ClosedRowHasBase(row: Row)
    requires row.waived == 0 && row.remaining == 0 && row.recovered == row.budget && row.paid == row.budget.Total()
    ensures BaseCollected(row, SettleRow(row, Settlement.WaiveRemainingProfit))
  {
  }

  lemma WaiverLeavesBase(row: Row)
    requires row.waived == 0 && row.remaining >= 0 && ComponentsSound(row)
    requires Settlement.RowError(row).None? && Settlement.GateOpen(row)
    requires row.expected == row.paid + row.remaining
    ensures BaseCollected(row, SettleRow(row, Settlement.WaiveRemainingProfit))
  {
    if row.remaining > 0 {
      OpenWaiverLeavesBase(row);
    } else {
      PaidAtEnds(row.budget, row.paid);
      ClosedRowHasBase(row);
    }
  }

  /**
   * An accepted waiver collects exactly the unpaid principal and margin of every row and waives exactly
   * the unpaid interest.
   */
  lemma AcceptedWaiverCollectsBase(s: State, som: SomValues, checkedAt: Time, date: Time)
    requires Inv(s) && Complete(s) && SettleStep(s, Settlement.WaiveRemainingProfit, som, checkedAt, date).Some?
    ensures var settled := SettleStep(s, Settlement.WaiveRemainingProfit, som, checkedAt, date).value.rows;
      |settled| == |s.rows| && forall i :: 0 <= i < |s.rows| ==> BaseCollected(s.rows[i], settled[i])
  {
    SettlementAcceptedIff(s, Settlement.WaiveRemainingProfit, som, checkedAt, date);
    SettleUnfolds(s, Settlement.WaiveRemainingProfit, som, checkedAt, date);
    CloseUnfolds(s, Settlement.WaiveRemainingProfit);
    GatesOpenIffNoneStuck(s);
    OpenDebtMeansNothingWaived(s);
    forall i | 0 <= i < |s.rows|
      ensures BaseCollected(s.rows[i], SettleRow(s.rows[i], Settlement.WaiveRemainingProfit))
    {
      assert RowSound(s.rows[i], s.currency) && ComponentsSound(s.rows[i]);
      WaiverLeavesBase(s.rows[i]);
    }
  }

  // ---------------------------------------------------------------- the so'm values of a settlement

  ghost predicate NoErrors(rows: seq<Row>) {
    forall i :: 0 <= i < |rows| ==> Settlement.RowError(rows[i]).None?
  }

  function PositiveOnes(s: seq<int>): seq<int> {
    if s == [] then [] else (if s[0] > 0 then [s[0]] else []) + PositiveOnes(s[1..])
  }

  lemma {:induction false} PositiveOnesAreAll(s: seq<int>)
    requires NonNegative(s)
    ensures AllPositive(PositiveOnes(s)) && Sum(PositiveOnes(s)) == Sum(s)
  {
    if s != [] {
      PositiveOnesAreAll(s[1..]);
      SumCons(s);
      if s[0] > 0 {
        SumCons(PositiveOnes(s));
        assert PositiveOnes(s)[1..] == PositiveOnes(s[1..]);
      } else {
        assert PositiveOnes(s) == PositiveOnes(s[1..]);
      }
    }
  }

  /** Without errors, a row that brings cash or a waiver is open. */
  lemma OnlyOpenRowsBring(row: Row, mode: Settlement.Mode)
    requires Settlement.RowError(row).None?
    ensures BringsCash(row, mode) <==> Settlement.QuoteRow(row, mode).cash > 0
    ensures Settlement.QuoteRow(row, mode).interestWaived > 0 ==> row.remaining > 0
  {
    Settlement.RowQuoteBalances(row, mode);
  }

  lemma ColumnsOfCons(row: Row, rest: seq<Row>, mode: Settlement.Mode)
    ensures CashOf([row] + rest, mode) == [Settlement.QuoteRow(row, mode).cash] + CashOf(rest, mode)
    ensures WaiversOf([row] + rest, mode) == [Settlement.QuoteRow(row, mode).interestWaived] + WaiversOf(rest, mode)
  {
  }

  lemma FirstCash(rows: seq<Row>, mode: Settlement.Mode, cash: int)
    requires rows != [] && Settlement.RowError(rows[0]).None? && cash == Settlement.QuoteRow(rows[0], mode).cash
    ensures CashOf(CashRows(rows, mode), mode)
      == (if cash > 0 then [cash] else []) + CashOf(CashRows(rows[1..], mode), mode)
  {
    OnlyOpenRowsBring(rows[0], mode);
    ColumnsOfCons(rows[0], CashRows(rows[1..], mode), mode);
    assert [] + CashRows(rows[1..], mode) == CashRows(rows[1..], mode);
  }

  /** The rows that bring cash are all that do. */
  lemma {:induction false} CashRowsBringAll(rows: seq<Row>, mode: Settlement.Mode)
    requires NoErrors(rows)
    ensures CashOf(CashRows(rows, mode), mode) == PositiveOnes(Settlement.Cash(Settlement.QuoteRows(rows, mode)))
  {
    if rows != [] {
      var column := Settlement.Cash(Settlement.QuoteRows(rows, mode));
      CashRowsBringAll(rows[1..], mode);
      FirstCash(rows, mode, column[0]);
      assert column[1..] == Settlement.Cash(Settlement.QuoteRows(rows[1..], mode));
    }
  }

  lemma FirstWaiver(rows: seq<Row>, mode: Settlement.Mode, waiver: int)
    requires rows != [] && Settlement.RowError(rows[0]).None?
    requires waiver == Settlement.QuoteRow(rows[0], mode).interestWaived
    ensures WaivedRows(rows, mode) == (if waiver > 0 then [rows[0]] else []) + WaivedRows(rows[1..], mode)
    ensures WaiversOf(WaivedRows(rows, mode), mode)
      == (if waiver > 0 then [waiver] else []) + WaiversOf(WaivedRows(rows[1..], mode), mode)
  {
    OnlyOpenRowsBring(rows[0], mode);
    ColumnsOfCons(rows[0], WaivedRows(rows[1..], mode), mode);
    assert [] + WaivedRows(rows[1..], mode) == WaivedRows(rows[1..], mode);
  }

  lemma {:induction false} WaivedRowsWaiveAll(rows: seq<Row>, mode: Settlement.Mode)
    requires NoErrors(rows)
    ensures WaiversOf(WaivedRows(rows, mode), mode)
      == PositiveOnes(Settlement.Waivers(Settlement.QuoteRows(rows, mode)))
    ensures forall r :: r in WaivedRows(rows, mode) ==> r in rows
  {
    if rows != [] {
      var column := Settlement.Waivers(Settlement.QuoteRows(rows, mode));
      WaivedRowsWaiveAll(rows[1..], mode);
      FirstWaiver(rows, mode, column[0]);
      assert column[1..] == Settlement.Waivers(Settlement.QuoteRows(rows[1..], mode));
    }
  }

  lemma QuotedColumnsAreNonNegative(rows: seq<Row>, mode: Settlement.Mode)
    requires NoErrors(rows)
    ensures NonNegative(Settlement.Cash(Settlement.QuoteRows(rows, mode)))
    ensures NonNegative(Settlement.Waivers(Settlement.QuoteRows(rows, mode)))
  {
    forall i | 0 <= i < |rows|
      ensures Settlement.QuoteRow(rows[i], mode).cash >= 0 && Settlement.QuoteRow(rows[i], mode).interestWaived >= 0
    {
      Settlement.RowQuoteBalances(rows[i], mode);
    }
  }

  /** Cash worth at least a so'm for each of its units is reported on every row. */
  lemma CashIsReportedWhen(rows: seq<Row>, mode: Settlement.Mode, currency: Currency, uzs: int)
    requires NoErrors(rows) && uzs >= Sum(Settlement.Cash(Settlement.QuoteRows(rows, mode)))
    ensures CashIsReported(CashRows(rows, mode), mode, currency, uzs)
  {
    CashRowsBringAll(rows, mode);
    QuotedColumnsAreNonNegative(rows, mode);
    PositiveOnesAreAll(Settlement.Cash(Settlement.QuoteRows(rows, mode)));
    if CashRows(rows, mode) != [] {
      EveryShareIsReported(uzs, CashOf(CashRows(rows, mode), mode), UnitsPerMajor(currency));
    }
  }

  lemma {:induction false} FullWaivesNothing(rows: seq<Row>)
    ensures WaivedRows(rows, Settlement.FullWithProfit) == []
  {
    if rows != [] {
      FullWaivesNothing(rows[1..]);
    }
  }

  /** So a settlement in full is reported whenever the debt is worth a so'm for each of its units. */
  lemma FullSettlementIsReported(s: State, som: SomValues)
    requires Inv(s) && NoErrors(s.rows) && som.cash >= s.remaining && 0 <= som.legacyWaiver <= s.legacyInterest
    ensures IsReported(s, Settlement.FullWithProfit, som)
  {
    var quotes := Settlement.QuoteRows(s.rows, Settlement.FullWithProfit);
    Settlement.QuotesBalance(s.rows, Settlement.FullWithProfit);
    CashIsReportedWhen(s.rows, Settlement.FullWithProfit, s.currency, som.cash);
    FullWaivesNothing(s.rows);
  }

  /** As it is when its so'm are converted at 100 and more per dollar. */
  lemma ConvertedSettlementIsReported(s: State, som: SomValues, rate: nat)
    requires Inv(s) && NoErrors(s.rows) && rate >= RATE_SCALE && 0 <= som.legacyWaiver <= s.legacyInterest
    requires Convert(Money(s.currency, s.remaining), UZS, Some(rate)) == Converted(Money(UZS, som.cash))
    ensures IsReported(s, Settlement.FullWithProfit, som)
  {
    SomAreNeverFewer(Money(s.currency, s.remaining), s.currency, rate);
    FullSettlementIsReported(s, som);
  }

  /** And on a contract in so'm, whose legacy mirror shows the same amounts, either settlement is. */
  lemma SomSettlementIsReported(s: State, mode: Settlement.Mode)
    requires Inv(s) && NoErrors(s.rows) && s.currency == UZS
    requires forall i :: 0 <= i < |s.rows| ==> s.rows[i].legacyExpected == s.rows[i].expected
    requires Sum(Settlement.Waivers(Settlement.QuoteRows(s.rows, mode))) <= s.legacyInterest
    ensures var quotes := Settlement.QuoteRows(s.rows, mode);
      var waiver := Sum(Settlement.Waivers(quotes));
      IsReported(s, mode, SomValues(Sum(Settlement.Cash(quotes)), waiver, waiver))
  {
    var quotes := Settlement.QuoteRows(s.rows, mode);
    var waiver := Sum(Settlement.Waivers(quotes));
    Settlement.QuotesBalance(s.rows, mode);
    CashIsReportedWhen(s.rows, mode, s.currency, Sum(Settlement.Cash(quotes)));
    forall i | 0 <= i < |s.rows|
      ensures Settlement.QuoteRow(s.rows[i], mode).interestWaived <= s.rows[i].legacyExpected
    {
      assert RowSound(s.rows[i], s.currency);
      Settlement.RowQuoteBalances(s.rows[i], mode);
    }
    WaiverIsReportedWhen(s.rows, mode, s.currency, SomValues(Sum(Settlement.Cash(quotes)), waiver, waiver));
  }

  lemma WaiverIsReportedWhen(rows: seq<Row>, mode: Settlement.Mode, currency: Currency, som: SomValues)
    requires NoErrors(rows)
    requires forall i :: 0 <= i < |rows| ==> Settlement.QuoteRow(rows[i], mode).interestWaived <= rows[i].legacyExpected
    requires som.waiver == som.legacyWaiver == Sum(Settlement.Waivers(Settlement.QuoteRows(rows, mode)))
    ensures WaiverIsReported(WaivedRows(rows, mode), mode, currency, som)
  {
    var waived := WaivedRows(rows, mode);
    WaivedRowsWaiveAll(rows, mode);
    QuotedColumnsAreNonNegative(rows, mode);
    PositiveOnesAreAll(Settlement.Waivers(Settlement.QuoteRows(rows, mode)));
    if waived != [] {
      EveryShareIsReported(som.waiver, WaiversOf(waived, mode), UnitsPerMajor(currency));
      forall i | 0 <= i < |waived| ensures 0 <= WaiversOf(waived, mode)[i] <= waived[i].legacyExpected {
        assert waived[i] in rows;
      }
    }
  }
}
