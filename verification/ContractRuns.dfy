/** Whole histories of a Nasiya contract, from the sale or the import to its completion. */
module ContractRuns {
  import opened Sequences
  import opened Currency
  import opened Schedules
  import opened ContractStatus
  import opened NasiyaLedger
  import opened ContractLifecycle
  import opened ContractInvariant
  import opened ContractPayments
  import opened ContractSettlements
  import Settlement

  // ---------------------------------------------------------------- deferral and the overdue pass

  /** Only the status and the deferral of rows differ. */
  ghost predicate Restated(rows: seq<Row>, rows': seq<Row>) {
    && |rows'| == |rows|
    && forall i :: 0 <= i < |rows| ==>
         && rows'[i] == rows[i].(status := rows'[i].status, delayedUntil := rows'[i].delayedUntil)
         && rows'[i].status != Cancelled
  }

  lemma RestatedColumns(rows: seq<Row>, rows': seq<Row>)
    requires Restated(rows, rows')
    ensures Expecteds(rows') == Expecteds(rows) && Paids(rows') == Paids(rows)
    ensures Waiveds(rows') == Waiveds(rows) && Remainings(rows') == Remainings(rows)
  {
  }

  lemma RestatedRowIsSound(row: Row, row': Row, currency: Currency)
    requires row' == row.(status := row'.status, delayedUntil := row'.delayedUntil) && row'.status != Cancelled
    requires RowSound(row, currency)
    ensures RowSound(row', currency)
    ensures ComponentsSound(row) ==> ComponentsSound(row')
    ensures row'.id == row.id && row'.paid == row.paid && row'.waived == row.waived && row'.remaining == row.remaining
  {
  }

  lemma RestatedEvidence(rows: seq<Row>, rows': seq<Row>, evidence: seq<Evidence>, currency: Currency)
    requires Restated(rows, rows') && EvidenceSound(rows, evidence, currency)
    ensures EvidenceSound(rows', evidence, currency)
  {
    forall id: nat ensures HasRow(rows', id) || Evidenced(id, evidence, currency) == 0 {
      if HasRow(rows, id) {
        var i :| 0 <= i < |rows| && rows[i].id == id;
        assert rows'[i].id == id;
      }
    }
  }

  lemma RestatedKeepsRowsSound(s: State, rows': seq<Row>)
    requires Inv(s) && Restated(s.rows, rows')
    ensures RowsSound(s.(rows := rows')) && CacheSound(s.(rows := rows'))
  {
    RestatedColumns(s.rows, rows');
    forall i | 0 <= i < |rows'|
      ensures RowSound(rows'[i], s.currency) && rows'[i].id == s.rows[i].id
      ensures rows'[i].waived == s.rows[i].waived && rows'[i].remaining == s.rows[i].remaining
      ensures Complete(s) ==> ComponentsSound(rows'[i])
    {
      assert RowSound(s.rows[i], s.currency);
      RestatedRowIsSound(s.rows[i], rows'[i], s.currency);
    }
    if Complete(s) {
      RestatedEvidence(s.rows, rows', s.evidence, s.currency);
    }
  }

  /** No money moves, and what was written carries its current status. */
  ghost predicate OnlyRestated(s: State, s': State, now: Time) {
    && Inv(s')
    && s'.paid == s.paid && s'.waived == s.waived && s'.remaining == s.remaining
    && s'.final == s.final && s'.reconstruction == s.reconstruction && s'.currency == s.currency
    && WritesCurrentRows(s.rows, s'.rows, now)
    && s'.status == DeriveContract(s.status, s'.remaining, s'.rows, now)
  }

  lemma DeferralKeepsInvariant(s: State, selected: nat, until: Time, checkedAt: Time, now: Time)
    requires Inv(s)
    ensures DeferStep(s, selected, until, checkedAt, now).Some? ==>
      OnlyRestated(s, DeferStep(s, selected, until, checkedAt, now).value, now)
  {
    var deferred := DeferRows(s.rows, selected, until);
    forall i | 0 <= i < |s.rows|
      ensures deferred[i] == s.rows[i].(status := deferred[i].status, delayedUntil := deferred[i].delayedUntil)
      ensures deferred[i].status != Cancelled
    {
      assert RowSound(s.rows[i], s.currency);
    }
    CacheInRange(s);
    RestatedKeepsRowsSound(s, deferred);
    CommitKeeps(s.(rows := deferred), now);
  }

  lemma LateRowMakesContractOverdue(s: State, rows': seq<Row>, i: nat, now: Time)
    requires i < |rows'| && rows'[i].status != Cancelled && rows'[i].remaining > 0 && PastDue(rows'[i], now)
    requires s.status != NasiyaCancelled
    ensures DeriveContract(s.status, s.remaining, rows', now) == NasiyaOverdue
  {
    assert Owes(rows'[i], now) && IsLate(rows'[i], now);
  }

  lemma LateRowsAreCurrent(rows: seq<Row>, selected: nat, now: Time)
    requires forall i :: 0 <= i < |rows| ==> rows[i].status != Cancelled
    ensures Restated(rows, LateRows(rows, selected, now))
    ensures WritesCurrentRows(rows, LateRows(rows, selected, now), now)
  {
  }

  lemma OverduePassKeepsInvariant(s: State, selected: nat, now: Time)
    requires Inv(s)
    ensures OverdueStep(s, selected, now).Some? ==> OnlyRestated(s, OverdueStep(s, selected, now).value, now)
  {
    var late := LateRows(s.rows, selected, now);
    if i :| 0 <= i < |s.rows| && IsLateRow(s.rows[i], selected, now) {
      forall j | 0 <= j < |s.rows| ensures s.rows[j].status != Cancelled {
        assert RowSound(s.rows[j], s.currency);
      }
      LateRowsAreCurrent(s.rows, selected, now);
      RestatedKeepsRowsSound(s, late);
      LateRowMakesContractOverdue(s, late, i, now);
    }
  }

  // ---------------------------------------------------------------- every step, every run

  /** When a command writes its rows. */
  function ClockOf(command: Command): Time {
    match command
    case Pay(_, _, _, _, now) => now
    case Settle(_, _, _, date) => date
    case Defer(_, _, _, now) => now
    case MarkOverdue(_, now) => now
  }

  /** What any accepted command does: debt only ever turns into payments and waivers, and rows are written as of now. */
  ghost predicate Advances(s: State, s': State, now: Time) {
    && Inv(s')
    && s'.final == s.final && s'.reconstruction == s.reconstruction && s'.currency == s.currency
    && s'.paid >= s.paid && s'.waived >= s.waived
    && s'.paid + s'.waived + s'.remaining == s.paid + s.waived + s.remaining
    && WritesCurrentRows(s.rows, s'.rows, now)
    && s'.status == DeriveContract(s.status, s'.remaining, s'.rows, now)
  }

  lemma SettledContractIsDerivedCompleted(s: State, status: NasiyaStatus, now: Time)
    requires Inv(s) && s.remaining == 0 && status != NasiyaCancelled
    ensures DeriveContract(status, s.remaining, s.rows, now) == NasiyaCompleted
  {
    forall i | 0 <= i < |s.rows| ensures Remainings(s.rows)[i] >= 0 && s.rows[i].status != Cancelled {
      assert RowSound(s.rows[i], s.currency);
    }
    CompletedIffNothingRemains(status, s.rows, now);
  }

  lemma BookedSettlementAdvances(s: State, s': State, date: Time)
    requires Inv(s) && SettlementBooked(s, s')
    ensures Advances(s, s', date)
  {
    assert RowsCurrent(s'.rows, date);
    SettledContractIsDerivedCompleted(s', s.status, date);
  }

  lemma SettlementAdvances(s: State, mode: Settlement.Mode, som: SomValues, checkedAt: Time, date: Time)
    requires Inv(s)
    ensures SettleStep(s, mode, som, checkedAt, date).Some? ==>
      Advances(s, SettleStep(s, mode, som, checkedAt, date).value, date)
  {
    SettlementKeepsInvariant(s, mode, som, checkedAt, date);
    if SettleStep(s, mode, som, checkedAt, date).Some? {
      BookedSettlementAdvances(s, SettleStep(s, mode, som, checkedAt, date).value, date);
    }
  }

  lemma PaymentAdvances(s: State, selected: nat, amount: int, uzs: int, checkedAt: Time, now: Time)
    requires Inv(s)
    ensures PayStep(s, selected, amount, uzs, checkedAt, now).Some? ==>
      Advances(s, PayStep(s, selected, amount, uzs, checkedAt, now).value, now)
  {
    PaymentKeepsInvariant(s, selected, amount, uzs, checkedAt, now);
    PaymentUnfolds(s, selected, amount, uzs, checkedAt, now);
  }

  lemma EveryStepAdvances(s: State, command: Command)
    requires Inv(s)
    ensures Step(s, command).Some? ==> Advances(s, Step(s, command).value, ClockOf(command))
  {
    match command
    case Pay(selected, amount, uzs, checkedAt, now) =>
      PaymentAdvances(s, selected, amount, uzs, checkedAt, now);
    case Settle(mode, som, checkedAt, date) =>
      SettlementAdvances(s, mode, som, checkedAt, date);
    case Defer(selected, until, checkedAt, now) =>
      DeferralKeepsInvariant(s, selected, until, checkedAt, now);
    case MarkOverdue(selected, now) =>
      OverduePassKeepsInvariant(s, selected, now);
  }

  lemma {:induction false} EveryRunKeepsInvariant(s: State, commands: seq<Command>)
    requires Inv(s)
    ensures Inv(Run(s, commands))
    ensures var end := Run(s, commands);
      && end.final == s.final && end.reconstruction == s.reconstruction && end.currency == s.currency
      && end.paid >= s.paid && end.waived >= s.waived
      && end.paid + end.waived + end.remaining == s.paid + s.waived + s.remaining
  {
    if commands != [] {
      EveryRunKeepsInvariant(s, commands[..|commands| - 1]);
      EveryStepAdvances(Run(s, commands[..|commands| - 1]), commands[|commands| - 1]);
    }
  }

  /** Nothing changes a contract that owes nothing. */
  lemma CompletedIsFinal(s: State, command: Command)
    requires Inv(s) && s.remaining == 0
    ensures Step(s, command).None?
  {
    match command
    case Pay(_, _, _, checkedAt, _) => AdmitsIff(s, checkedAt);
    case Settle(_, _, checkedAt, _) => AdmitsIff(s, checkedAt);
    case Defer(_, _, checkedAt, _) => AdmitsIff(s, checkedAt);
    case MarkOverdue(selected, now) =>
      SoundTotals(s);
      forall i | 0 <= i < |s.rows| ensures s.rows[i].remaining <= 0 {
        NothingLeft(s, i);
      }
  }

  lemma NothingLeft(s: State, i: nat)
    requires Inv(s) && s.remaining == 0 && i < |s.rows|
    ensures s.rows[i].remaining == 0
  {
    forall j | 0 <= j < |s.rows| ensures Remainings(s.rows)[j] >= 0 {
      assert RowSound(s.rows[j], s.currency);
    }
    SumNonNegative(Remainings(s.rows));
    assert Remainings(s.rows)[i] == s.rows[i].remaining;
  }
}
