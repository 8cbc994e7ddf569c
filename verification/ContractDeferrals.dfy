/** When a deferral and the overdue pass are accepted and what they write; and that every command writes the truth. */
module ContractDeferrals {
  import opened Results
  import opened Sequences
  import opened Schedules
  import opened ContractStatus
  import opened NasiyaLedger
  import opened ContractLifecycle
  import opened ContractInvariant
  import opened ContractRuns

  // ---------------------------------------------------------------- deferral

  /** The chosen row, and it alone, is deferred to the new date. */
  ghost predicate OnlyDeferred(rows: seq<Row>, rows': seq<Row>, selected: nat, until: Time) {
    && |rows'| == |rows|
    && forall i :: 0 <= i < |rows| ==>
         rows'[i] ==
           if rows[i].id == selected then rows[i].(status := Deferred, delayedUntil := Some(until)) else rows[i]
  }

  /** A chosen row is due before the new date, and the day of that date is not over; any other row is current. */
  ghost predicate AllowsDeferral(row: Row, selected: nat, until: Time, now: Time) {
    if row.id != selected then row.status == ExpectedStatus(row, now)
    else
      && (row.delayedUntil.None? ==> until > row.dueDate)
      && (row.delayedUntil.Some? ==> until > row.delayedUntil.value)
      && !MidnightPassed(until, now)
  }

  ghost predicate Deferrable(rows: seq<Row>, selected: nat, until: Time, now: Time) {
    && (exists i :: 0 <= i < |rows| && rows[i].id == selected && rows[i].remaining > 0)
    && forall i :: 0 <= i < |rows| ==> AllowsDeferral(rows[i], selected, until, now)
  }

  lemma DeferredRowIsCurrentIff(row: Row, until: Time, now: Time)
    requires row.remaining > 0
    ensures var deferred := row.(status := Deferred, delayedUntil := Some(until));
      deferred.status == ExpectedStatus(deferred, now) <==> !MidnightPassed(until, now)
  {
    PastDueIffDayHasPassed(row.(status := Deferred, delayedUntil := Some(until)), now);
  }

  /** The row as the deferral writes it is current, and was due before the new date. */
  ghost predicate WrittenWell(row: Row, written: Row, selected: nat, until: Time, now: Time) {
    && written.status == ExpectedStatus(written, now)
    && (row.id == selected ==> row.status != Cancelled && until > EffectiveDue(row))
  }

  lemma DeferredRowsAreCurrentIff(s: State, selected: nat, until: Time, now: Time)
    requires Inv(s) && OwesRow(s, selected)
    ensures RowsCurrent(DeferRows(s.rows, selected, until), now) && DefersLate(s, selected, until)
      <==> Deferrable(s.rows, selected, until, now)
  {
    var deferred := DeferRows(s.rows, selected, until);
    var k :| 0 <= k < |s.rows| && s.rows[k].id == selected && s.rows[k].remaining > 0;
    forall i | 0 <= i < |s.rows|
      ensures WrittenWell(s.rows[i], deferred[i], selected, until, now)
        <==> AllowsDeferral(s.rows[i], selected, until, now)
    {
      assert RowSound(s.rows[i], s.currency);
      if i == k {
        DeferredRowIsCurrentIff(s.rows[i], until, now);
      }
    }
    if RowsCurrent(deferred, now) && DefersLate(s, selected, until) {
      forall i | 0 <= i < |s.rows| ensures AllowsDeferral(s.rows[i], selected, until, now) {
        assert WrittenWell(s.rows[i], deferred[i], selected, until, now);
      }
    }
  }

  lemma NotDeferrableWithoutDebt(s: State, selected: nat, until: Time, now: Time)
    ensures Deferrable(s.rows, selected, until, now) ==> OwesRow(s, selected)
  {
  }

  lemma SomethingRemains(s: State, selected: nat)
    requires Inv(s) && OwesRow(s, selected)
    ensures s.remaining > 0
  {
    var i :| 0 <= i < |s.rows| && s.rows[i].id == selected && s.rows[i].remaining > 0;
    SoundTotals(s);
    if s.remaining == 0 {
      NothingLeft(s, i);
    }
  }

  lemma DeferralCommitsIff(s: State, selected: nat, until: Time, now: Time)
    requires Inv(s)
    ensures var deferred := s.(rows := DeferRows(s.rows, selected, until));
      && (Committed(deferred, now).Some? <==> RowsCurrent(deferred.rows, now))
      && (Committed(deferred, now).Some? ==>
            Committed(deferred, now).value == deferred.(status := Committed(deferred, now).value.status))
  {
    var rows := DeferRows(s.rows, selected, until);
    forall i | 0 <= i < |s.rows|
      ensures rows[i] == s.rows[i].(status := rows[i].status, delayedUntil := rows[i].delayedUntil)
      ensures rows[i].status != Cancelled
    {
      assert RowSound(s.rows[i], s.currency);
    }
    CacheInRange(s);
    RestatedKeepsRowsSound(s, rows);
    CommitKeeps(s.(rows := rows), now);
  }

  lemma DeferralPassesIff(s: State, selected: nat, until: Time, checkedAt: Time, now: Time)
    requires Inv(s)
    ensures DeferStep(s, selected, until, checkedAt, now).Some?
      <==> RowsCurrent(s.rows, checkedAt) && Deferrable(s.rows, selected, until, now)
  {
    AdmitsIff(s, checkedAt);
    if OwesRow(s, selected) {
      SomethingRemains(s, selected);
      DeferralCommitsIff(s, selected, until, now);
      DeferredRowsAreCurrentIff(s, selected, until, now);
    }
    NotDeferrableWithoutDebt(s, selected, until, now);
  }

  lemma DeferralWritesOneRow(s: State, selected: nat, until: Time, checkedAt: Time, now: Time)
    requires Inv(s) && DeferStep(s, selected, until, checkedAt, now).Some?
    ensures var s' := DeferStep(s, selected, until, checkedAt, now).value;
      OnlyDeferred(s.rows, s'.rows, selected, until) && s' == s.(rows := s'.rows, status := s'.status)
  {
    DeferralCommitsIff(s, selected, until, now);
  }

  /**
   * Exactly when a deferral is accepted: every stored status is current at the first audit, the row is
   * open and falls due earlier than the new date, and that date is not past already. It then changes the
   * due date and the status of this row, and the contract's status with them, and nothing else.
   */
  lemma DeferralAcceptedIff(s: State, selected: nat, until: Time, checkedAt: Time, now: Time)
    requires Inv(s)
    ensures DeferStep(s, selected, until, checkedAt, now).Some?
      <==> RowsCurrent(s.rows, checkedAt) && Deferrable(s.rows, selected, until, now)
    ensures DeferStep(s, selected, until, checkedAt, now).Some? ==>
      var s' := DeferStep(s, selected, until, checkedAt, now).value;
      OnlyDeferred(s.rows, s'.rows, selected, until) && s' == s.(rows := s'.rows, status := s'.status)
  {
    DeferralPassesIff(s, selected, until, checkedAt, now);
    if DeferStep(s, selected, until, checkedAt, now).Some? {
      DeferralWritesOneRow(s, selected, until, checkedAt, now);
    }
  }

  // ---------------------------------------------------------------- the overdue pass

  /**
   * The overdue pass writes exactly on an open row whose day has passed: it makes the row and its
   * contract overdue and changes nothing else.
   */
  lemma OverdueAcceptedIff(s: State, selected: nat, now: Time)
    requires Inv(s)
    ensures OverdueStep(s, selected, now).Some?
      <==> exists i :: 0 <= i < |s.rows| && s.rows[i].id == selected && s.rows[i].remaining > 0
                       && DayHasPassed(s.rows[i], now)
    ensures OverdueStep(s, selected, now).Some? ==>
      var s' := OverdueStep(s, selected, now).value;
      && s' == s.(rows := s'.rows, status := NasiyaOverdue) && |s'.rows| == |s.rows|
      && forall i :: 0 <= i < |s.rows| ==>
           s'.rows[i] == if s.rows[i].id == selected then s.rows[i].(status := Overdue) else s.rows[i]
  {
    forall i | 0 <= i < |s.rows|
      ensures IsLateRow(s.rows[i], selected, now)
        <==> s.rows[i].id == selected && s.rows[i].remaining > 0 && DayHasPassed(s.rows[i], now)
    {
      assert RowSound(s.rows[i], s.currency);
      PastDueIffDayHasPassed(s.rows[i], now);
    }
  }

  // ---------------------------------------------------------------- statuses as written

  /**
   * Whatever command is accepted, the status it writes to the contract is true of its rows, and every
   * row it writes carries the status that is true of the row.
   */
  lemma EveryStepWritesTheTruth(s: State, command: Command)
    requires Inv(s) && Step(s, command).Some?
    ensures var s' := Step(s, command).value;
      && StatusIsTrue(s'.status, s'.rows, ClockOf(command)) && |s'.rows| == |s.rows|
      && forall i :: 0 <= i < |s.rows| ==>
           s'.rows[i] == s.rows[i] || RowStatusIsTrue(s'.rows[i].status, s'.rows[i], ClockOf(command))
  {
    var s', now := Step(s, command).value, ClockOf(command);
    EveryStepAdvances(s, command);
    forall i | 0 <= i < |s'.rows|
      ensures Remainings(s'.rows)[i] >= 0 && s'.rows[i].status != Cancelled
      ensures s'.rows[i] == s.rows[i] || RowStatusIsTrue(s'.rows[i].status, s'.rows[i], now)
    {
      assert RowSound(s'.rows[i], s'.currency);
      StatusCurrentIffTrue(Entry(s'.rows[i], Some(s'.currency)), s'.currency, now);
    }
    DerivedIffTrue(s.status, s'.rows, s'.status, now);
  }
}
