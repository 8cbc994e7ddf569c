/** The state of an instalment row and of its contract, derived from the contract-currency balances. */
module ContractStatus {
  import opened Sequences
  import opened Schedules

  datatype Derived = Derived(status: ScheduleStatus, outstanding: int, overdue: bool)

  /** A stored PAID is not trusted while the row still owes something. */
  function DeriveRow(row: Row, now: Time): Derived {
    if row.status == Cancelled then Derived(Cancelled, 0, false)
    else if row.remaining <= 0 then Derived(if row.status == Settled then Settled else Paid, 0, false)
    else
      var overdue := PastDue(row, now);
      Derived(
        if overdue then Overdue
        else if row.paid > 0 then Partial
        else if row.status == Deferred then Deferred
        else Pending,
        row.remaining,
        overdue)
  }

  predicate Owes(row: Row, now: Time) {
    DeriveRow(row, now).outstanding > 0
  }

  predicate IsLate(row: Row, now: Time) {
    Owes(row, now) && DeriveRow(row, now).overdue
  }

  /** Only a stored CANCELLED stands; a contract without rows counts as completed when it owes nothing. */
  function DeriveContract(status: NasiyaStatus, remaining: int, rows: seq<Row>, now: Time): NasiyaStatus {
    if status == NasiyaCancelled then NasiyaCancelled
    else if (if rows != [] then forall i | 0 <= i < |rows| :: !Owes(rows[i], now) else remaining <= 0)
    then NasiyaCompleted
    else if exists i | 0 <= i < |rows| :: IsLate(rows[i], now) then NasiyaOverdue
    else NasiyaActive
  }

  /** A contract whose cancelled rows owe nothing is completed exactly when nothing remains on its rows. */
  lemma CompletedIffNothingRemains(status: NasiyaStatus, rows: seq<Row>, now: Time)
    requires status != NasiyaCancelled
    requires NonNegative(Remainings(rows))
    requires forall i :: 0 <= i < |rows| && rows[i].status == Cancelled ==> rows[i].remaining == 0
    ensures DeriveContract(status, Sum(Remainings(rows)), rows, now) == NasiyaCompleted <==> Sum(Remainings(rows)) == 0
  {
    SumNonNegative(Remainings(rows));
    if Sum(Remainings(rows)) == 0 {
      forall i | 0 <= i < |rows| ensures !Owes(rows[i], now) {
        assert Remainings(rows)[i] == rows[i].remaining;
      }
    } else if forall i :: 0 <= i < |rows| ==> !Owes(rows[i], now) {
      forall i | 0 <= i < |rows| ensures Remainings(rows)[i] == 0 {
        assert !Owes(rows[i], now);
      }
      SumOfZeros(Remainings(rows));
    }
  }

  /** Midnight in Tashkent, five hours ahead of the epoch's clock, falls after one moment and not after another. */
  predicate MidnightBetween(day: int, from: Time, to: Time) {
    from < day * 86_400_000 - 18_000_000 <= to
  }

  ghost predicate MidnightPassed(from: Time, to: Time) {
    exists day :: MidnightBetween(day, from, to)
  }

  /** A midnight has passed since the row was due; until then, whatever the hour, it is due today or later. */
  ghost predicate DayHasPassed(row: Row, now: Time) {
    MidnightPassed(if row.delayedUntil.Some? then row.delayedUntil.value else row.dueDate, now)
  }

  lemma MidnightStartsDay(day: int, from: Time, to: Time)
    ensures MidnightBetween(day, from, to) <==> TashkentDay(from) < day <= TashkentDay(to)
  {
  }

  lemma PastDueIffDayHasPassed(row: Row, now: Time)
    ensures PastDue(row, now) <==> DayHasPassed(row, now)
  {
    var due := EffectiveDue(row);
    MidnightStartsDay(TashkentDay(now), due, now);
    if MidnightPassed(due, now) {
      var day :| MidnightBetween(day, due, now);
      MidnightStartsDay(day, due, now);
    }
  }

  /** What is shown of a row: its debt, whether it is late, and the status of an open or a closed row. */
  ghost predicate ShownIsTrue(shown: Derived, row: Row, now: Time) {
    var open, late := row.status != Cancelled && row.remaining > 0, DayHasPassed(row, now);
    && shown.outstanding == (if open then row.remaining else 0)
    && (shown.overdue <==> open && late)
    && match shown.status
       case Cancelled => row.status == Cancelled
       case Settled => !open && row.status == Settled
       case Paid => !open && row.status != Settled && row.status != Cancelled
       case Overdue => open && late
       case Partial => open && !late && row.paid > 0
       case Deferred => open && !late && row.paid <= 0 && row.status == Deferred
       case Pending => open && !late && row.paid <= 0 && row.status != Deferred
  }

  lemma ShownRowIsTrue(row: Row, now: Time)
    ensures ShownIsTrue(DeriveRow(row, now), row, now)
  {
    PastDueIffDayHasPassed(row, now);
  }

  /** What each status says of the rows of a contract. */
  ghost predicate StatusIsTrue(status: NasiyaStatus, rows: seq<Row>, now: Time) {
    match status
    case NasiyaCancelled => true
    case NasiyaCompleted => forall i :: 0 <= i < |rows| ==> rows[i].remaining == 0
    case NasiyaOverdue => exists i :: 0 <= i < |rows| && rows[i].remaining > 0 && DayHasPassed(rows[i], now)
    case NasiyaActive =>
      && (exists i :: 0 <= i < |rows| && rows[i].remaining > 0)
      && forall i :: 0 <= i < |rows| && rows[i].remaining > 0 ==> !DayHasPassed(rows[i], now)
  }

  /** A contract is given the one status that is true of its rows, unless it is cancelled and stays so. */
  lemma DerivedIffTrue(stored: NasiyaStatus, rows: seq<Row>, status: NasiyaStatus, now: Time)
    requires stored != NasiyaCancelled && NonNegative(Remainings(rows))
    requires forall i :: 0 <= i < |rows| && rows[i].status == Cancelled ==> rows[i].remaining == 0
    ensures DeriveContract(stored, Sum(Remainings(rows)), rows, now) == status
      <==> status != NasiyaCancelled && StatusIsTrue(status, rows, now)
  {
    forall i | 0 <= i < |rows|
      ensures Owes(rows[i], now) <==> rows[i].remaining > 0
      ensures IsLate(rows[i], now) <==> rows[i].remaining > 0 && DayHasPassed(rows[i], now)
      ensures rows[i].remaining >= 0
    {
      assert Remainings(rows)[i] >= 0;
      PastDueIffDayHasPassed(rows[i], now);
    }
    SumNonNegative(Remainings(rows));
  }

  /** The passing of time alone completes nothing and never takes lateness back. */
  lemma TimeOnlyAddsLateness(status: NasiyaStatus, remaining: int, rows: seq<Row>, now: Time, later: Time)
    requires now <= later
    ensures DeriveContract(status, remaining, rows, later) != DeriveContract(status, remaining, rows, now) ==>
      && DeriveContract(status, remaining, rows, now) == NasiyaActive
      && DeriveContract(status, remaining, rows, later) == NasiyaOverdue
  {
    forall i | 0 <= i < |rows|
      ensures Owes(rows[i], later) == Owes(rows[i], now)
      ensures IsLate(rows[i], now) ==> IsLate(rows[i], later)
    {
      DaysDoNotGoBack(now, later);
    }
  }

  lemma DaysDoNotGoBack(now: Time, later: Time)
    requires now <= later
    ensures TashkentDay(now) <= TashkentDay(later)
  {
  }
}
