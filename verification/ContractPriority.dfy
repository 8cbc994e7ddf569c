/** Which rows a payment reaches: the one the customer chose, then the others by due date. */
module ContractPriority {
  import opened Results
  import opened Rounding
  import opened Sequences
  import opened Schedules
  import opened PaymentAllocation
  import opened ContractLifecycle
  import opened ContractInvariant
  import opened ContractPayments

  // ---------------------------------------------------------------- the promise

  /** Due earlier, a deferral counting as the due date; rows due at one moment go by their number. */
  predicate DueEarlier(row: Row, other: Row) {
    var due := if row.delayedUntil.Some? then row.delayedUntil.value else row.dueDate;
    var otherDue := if other.delayedUntil.Some? then other.delayedUntil.value else other.dueDate;
    due < otherDue || (due == otherDue && row.id < other.id)
  }

  /** A row that must be closed before anything is paid on another. */
  predicate GoesBefore(row: Row, other: Row, selected: nat) {
    other.id != selected && (row.id == selected || DueEarlier(row, other))
  }

  ghost predicate DebtBecomesPaid(rows: seq<Row>, paid: seq<Row>) {
    && |paid| == |rows|
    && forall i :: 0 <= i < |rows| ==>
         && paid[i].id == rows[i].id && paid[i].paid >= rows[i].paid
         && paid[i].paid + paid[i].remaining == rows[i].paid + rows[i].remaining
  }

  /** The chosen row takes as much of the payment as it owes. */
  ghost predicate ChosenIsFilled(rows: seq<Row>, paid: seq<Row>, selected: nat, amount: int)
    requires |paid| == |rows|
  {
    forall i :: 0 <= i < |rows| && rows[i].id == selected ==> paid[i].remaining == Max(0, rows[i].remaining - amount)
  }

  /** Another row takes something only when the chosen row, and every other row due earlier, is left with no debt. */
  ghost predicate OthersWait(rows: seq<Row>, paid: seq<Row>, selected: nat)
    requires |paid| == |rows|
  {
    forall i, j :: 0 <= i < |rows| && 0 <= j < |rows| && GoesBefore(rows[j], rows[i], selected) ==>
      paid[i].paid == rows[i].paid || paid[j].remaining == 0
  }

  // ---------------------------------------------------------------- the order

  ghost predicate SortedByDue(rows: seq<Row>) {
    forall p, q :: 0 <= p < q < |rows| ==> DueBefore(rows[p], rows[q])
  }

  lemma {:induction false} InsertKeepsSorted(row: Row, sorted: seq<Row>)
    requires SortedByDue(sorted)
    ensures SortedByDue(InsertByDue(row, sorted))
    ensures forall r :: r in InsertByDue(row, sorted) ==> r == row || r in sorted
  {
    if sorted != [] && !DueBefore(row, sorted[0]) {
      InsertKeepsSorted(row, sorted[1..]);
      var rest := InsertByDue(row, sorted[1..]);
      forall q | 0 <= q < |rest| ensures DueBefore(sorted[0], rest[q]) {
        assert rest[q] in rest;
      }
    }
  }

  lemma {:induction false} OthersAreSorted(rows: seq<Row>, selected: nat)
    ensures SortedByDue(OthersByDue(rows, selected))
  {
    if rows != [] {
      OthersAreSorted(rows[1..], selected);
      if rows[0].remaining > 0 && rows[0].id != selected {
        InsertKeepsSorted(rows[0], OthersByDue(rows[1..], selected));
      }
    }
  }

  lemma OrderRespectsPriority(rows: seq<Row>, selected: nat, p: nat, q: nat)
    requires DistinctIds(rows)
    requires p < |PaymentOrder(rows, selected)| && q < |PaymentOrder(rows, selected)|
    requires GoesBefore(PaymentOrder(rows, selected)[q], PaymentOrder(rows, selected)[p], selected)
    ensures q < p
  {
    var first, others := SelectedRows(rows, selected), OthersByDue(rows, selected);
    var order := PaymentOrder(rows, selected);
    SelectedArranges(rows, selected);
    OthersArrange(rows, selected);
    OthersAreSorted(rows, selected);
    assert forall k :: 0 <= k < |first| ==> first[k] in first;
    if q >= |first| {
      assert order[q] == others[q - |first|] && others[q - |first|] in others;
      assert order[p] == others[p - |first|];
    }
  }

  // ---------------------------------------------------------------- what each row takes

  lemma {:induction false} AppliedAt(updates: seq<Update>, p: nat)
    requires DistinctUpdates(updates) && p < |updates|
    ensures AppliedTo(updates[p].scheduleId, updates) == updates[p].appliedContract
  {
    if p == 0 {
      UnnamedIsNotPaid(updates[0].scheduleId, updates[1..]);
    } else {
      AppliedAt(updates[1..], p - 1);
    }
  }

  /** Along the order, rows are closed one after the other until the payment has run out. */
  lemma OrderIsFilled(s: State, selected: nat, amount: int, uzs: int, now: Time)
    requires Inv(s) && s.remaining > 0 && 0 < amount <= s.remaining
    ensures FillsInOrder(PaymentUpdates(s, selected, amount, uzs, now), PaymentOrder(s.rows, selected), amount, now)
  {
    var order := PaymentOrder(s.rows, selected);
    OpenDebtMeansNothingWaived(s);
    OrderHoldsOpenRows(s.rows, selected);
    forall i | 0 <= i < |order| ensures Outstanding(order[i]) > 0 && order[i].paid >= 0 {
      assert order[i] in order;
      var j :| 0 <= j < |s.rows| && s.rows[j] == order[i];
      assert RowSound(s.rows[j], s.currency);
    }
    OwingRowsAreAll(order);
    RowsFillInOrder(order, uzs, amount, now);
  }

  /** What the row at a place in the order takes. */
  lemma TakenAt(order: seq<Row>, updates: seq<Update>, p: nat, amount: int, now: Time)
    requires DistinctIds(order) && DistinctUpdates(updates) && FillsInOrder(updates, order, amount, now)
    requires p < |order| && Outstanding(order[p]) > 0
    ensures AppliedTo(order[p].id, updates) == if p < |updates| then updates[p].appliedContract else 0
    ensures p < |updates| - 1 ==> AppliedTo(order[p].id, updates) == Outstanding(order[p])
    ensures p < |updates| ==> 0 < AppliedTo(order[p].id, updates) <= Outstanding(order[p])
  {
    if p < |updates| {
      assert Faithful(updates[p], order[p], now);
      AppliedAt(updates, p);
    } else {
      forall k | 0 <= k < |updates| ensures updates[k].scheduleId != order[p].id {
        assert Faithful(updates[k], order[k], now);
      }
      UnnamedIsNotPaid(order[p].id, updates);
    }
  }

  lemma FirstTakesWhatItCan(updates: seq<Update>, owed: int, amount: int)
    requires updates != [] && Sum(Applied(updates)) == amount
    requires forall i :: 0 <= i < |updates| ==> updates[i].appliedContract > 0
    requires |updates| > 1 ==> updates[0].appliedContract == owed
    requires updates[0].appliedContract <= owed
    ensures owed - updates[0].appliedContract == Max(0, owed - amount)
  {
    AppliedCons(updates[0], updates[1..]);
    assert updates == [updates[0]] + updates[1..];
    SumNonNegative(Applied(updates[1..]));
  }

  // ---------------------------------------------------------------- the state a payment leaves

  /** What the updates of a payment apply to the row at `i`, which is what the payment takes off its debt. */
  function Takes(s: State, selected: nat, amount: int, uzs: int, now: Time, i: nat): int
    requires i < |s.rows|
  {
    AppliedTo(s.rows[i].id, PaymentUpdates(s, selected, amount, uzs, now))
  }

  /** Every row is paid what the updates apply to it. */
  ghost predicate RowsTake(s: State, s': State, selected: nat, amount: int, uzs: int, now: Time) {
    && |s'.rows| == |s.rows|
    && forall i :: 0 <= i < |s.rows| ==>
         var takes := Takes(s, selected, amount, uzs, now, i);
         && s'.rows[i].id == s.rows[i].id && takes >= 0
         && s'.rows[i].paid == s.rows[i].paid + takes && s'.rows[i].remaining == s.rows[i].remaining - takes
  }

  lemma PaidRowsTake(s: State, s': State, selected: nat, amount: int, uzs: int, checkedAt: Time, now: Time)
    requires Inv(s) && PayStep(s, selected, amount, uzs, checkedAt, now) == Some(s')
    ensures RowsTake(s, s', selected, amount, uzs, now)
    ensures s.remaining > 0 && 0 < amount <= s.remaining && OwesRow(s, selected) && Inv(s')
  {
    var updates := PaymentUpdates(s, selected, amount, uzs, now);
    PaymentKeepsInvariant(s, selected, amount, uzs, checkedAt, now);
    PaymentUnfolds(s, selected, amount, uzs, checkedAt, now);
    PaymentUpdatesAreSound(s, selected, amount, uzs, now);
    OpenDebtMeansNothingWaived(s);
    RowsAreRecorded(s, updates, now);
    forall i | 0 <= i < |s.rows|
      ensures RowRecorded(s.rows[i], s'.rows[i], Takes(s, selected, amount, uzs, now, i), s.currency, now)
    {
      assert s'.rows == Poured(s, updates).rows;
    }
  }

  /** A row that is open has its place in the order; a row that is not takes nothing. */
  lemma PlaceOf(s: State, selected: nat, i: nat) returns (p: nat)
    requires Inv(s) && s.remaining > 0 && i < |s.rows| && s.rows[i].remaining > 0
    ensures p < |PaymentOrder(s.rows, selected)| && PaymentOrder(s.rows, selected)[p] == s.rows[i]
    ensures Outstanding(s.rows[i]) == s.rows[i].remaining
  {
    OpenDebtMeansNothingWaived(s);
    OrderHoldsOpenRows(s.rows, selected);
    assert RowSound(s.rows[i], s.currency);
    assert s.rows[i] in PaymentOrder(s.rows, selected);
    p :| 0 <= p < |PaymentOrder(s.rows, selected)| && PaymentOrder(s.rows, selected)[p] == s.rows[i];
  }

  lemma EarlierIsClosed(s: State, selected: nat, amount: int, uzs: int, now: Time, i: nat, j: nat)
    requires Inv(s) && s.remaining > 0 && 0 < amount <= s.remaining && i < |s.rows| && j < |s.rows|
    requires s.rows[i].remaining > 0 && s.rows[j].remaining > 0 && GoesBefore(s.rows[j], s.rows[i], selected)
    requires Takes(s, selected, amount, uzs, now, i) > 0
    ensures Takes(s, selected, amount, uzs, now, j) == s.rows[j].remaining
  {
    var order, updates := PaymentOrder(s.rows, selected), PaymentUpdates(s, selected, amount, uzs, now);
    var p := PlaceOf(s, selected, i);
    var q := PlaceOf(s, selected, j);
    PaymentUpdatesAreSound(s, selected, amount, uzs, now);
    OrderHoldsOpenRows(s.rows, selected);
    OrderIsFilled(s, selected, amount, uzs, now);
    OrderRespectsPriority(s.rows, selected, p, q);
    TakenAt(order, updates, p, amount, now);
    TakenAt(order, updates, q, amount, now);
  }

  lemma ChosenIsFirst(s: State, selected: nat, i: nat)
    requires Inv(s) && s.remaining > 0
    requires i < |s.rows| && s.rows[i].id == selected && s.rows[i].remaining > 0
    ensures PaymentOrder(s.rows, selected) != [] && PaymentOrder(s.rows, selected)[0] == s.rows[i]
  {
    var p := PlaceOf(s, selected, i);
    OrderHoldsOpenRows(s.rows, selected);
    SelectedArranges(s.rows, selected);
    assert SelectedRows(s.rows, selected)[0] in SelectedRows(s.rows, selected);
    assert PaymentOrder(s.rows, selected)[0].id == PaymentOrder(s.rows, selected)[p].id;
  }

  lemma FilledMeansPositive(updates: seq<Update>, order: seq<Row>, amount: int, now: Time)
    requires FillsInOrder(updates, order, amount, now)
    ensures forall k :: 0 <= k < |updates| ==> updates[k].appliedContract > 0
  {
    forall k | 0 <= k < |updates| ensures updates[k].appliedContract > 0 {
      assert Faithful(updates[k], order[k], now);
    }
  }

  lemma ChosenTakesFirst(s: State, selected: nat, amount: int, uzs: int, now: Time, i: nat)
    requires Inv(s) && s.remaining > 0 && 0 < amount <= s.remaining
    requires i < |s.rows| && s.rows[i].id == selected && s.rows[i].remaining > 0
    ensures s.rows[i].remaining - Takes(s, selected, amount, uzs, now, i) == Max(0, s.rows[i].remaining - amount)
  {
    var order, updates := PaymentOrder(s.rows, selected), PaymentUpdates(s, selected, amount, uzs, now);
    PaymentUpdatesAreSound(s, selected, amount, uzs, now);
    OrderHoldsOpenRows(s.rows, selected);
    OrderIsFilled(s, selected, amount, uzs, now);
    ChosenIsFirst(s, selected, i);
    var p := PlaceOf(s, selected, i);
    TakenAt(order, updates, 0, amount, now);
    FilledMeansPositive(updates, order, amount, now);
    assert updates == [] ==> Applied(updates) == [];
    FirstTakesWhatItCan(updates, s.rows[i].remaining, amount);
  }

  lemma NoDebtIsNegative(s: State)
    requires Inv(s)
    ensures forall i :: 0 <= i < |s.rows| ==> s.rows[i].remaining >= 0
  {
    forall i | 0 <= i < |s.rows| ensures s.rows[i].remaining >= 0 {
      assert RowSound(s.rows[i], s.currency);
    }
  }

  lemma TakingFillsChosen(s: State, s': State, selected: nat, amount: int, uzs: int, now: Time)
    requires Inv(s) && s.remaining > 0 && 0 < amount <= s.remaining && OwesRow(s, selected)
    requires RowsTake(s, s', selected, amount, uzs, now)
    ensures ChosenIsFilled(s.rows, s'.rows, selected, amount)
  {
    forall i | 0 <= i < |s.rows| && s.rows[i].id == selected
      ensures s'.rows[i].remaining == Max(0, s.rows[i].remaining - amount)
    {
      ChosenTakesFirst(s, selected, amount, uzs, now, i);
    }
  }

  lemma TakingMakesOthersWait(s: State, s': State, selected: nat, amount: int, uzs: int, now: Time)
    requires Inv(s) && Inv(s') && s.remaining > 0 && 0 < amount <= s.remaining
    requires RowsTake(s, s', selected, amount, uzs, now)
    ensures OthersWait(s.rows, s'.rows, selected)
  {
    NoDebtIsNegative(s);
    NoDebtIsNegative(s');
    forall i, j | 0 <= i < |s.rows| && 0 <= j < |s.rows| && GoesBefore(s.rows[j], s.rows[i], selected)
      ensures s'.rows[i].paid == s.rows[i].paid || s'.rows[j].remaining == 0
    {
      if s'.rows[i].paid > s.rows[i].paid && s'.rows[j].remaining > 0 {
        EarlierIsClosed(s, selected, amount, uzs, now, i, j);
      }
    }
  }

  /** An accepted payment fills the chosen row first and the others in the order in which they are due. */
  lemma PaymentFillsChosenFirst(
    s: State, s': State, selected: nat, amount: int, uzs: int, checkedAt: Time, now: Time)
    requires Inv(s) && PayStep(s, selected, amount, uzs, checkedAt, now) == Some(s')
    ensures DebtBecomesPaid(s.rows, s'.rows)
    ensures ChosenIsFilled(s.rows, s'.rows, selected, amount) && OthersWait(s.rows, s'.rows, selected)
  {
    PaidRowsTake(s, s', selected, amount, uzs, checkedAt, now);
    TakingFillsChosen(s, s', selected, amount, uzs, now);
    TakingMakesOthersWait(s, s', selected, amount, uzs, now);
  }

  // ---------------------------------------------------------------- the so'm mirrors of the rows

  lemma {:induction false} FoundAt(updates: seq<Update>, p: nat)
    requires DistinctUpdates(updates) && p < |updates|
    ensures FindUpdate(updates[p].scheduleId, updates) == Some(updates[p])
  {
    if p > 0 {
      FoundAt(updates[1..], p - 1);
    }
  }

  lemma {:induction false} NotFound(updates: seq<Update>, id: nat)
    requires forall k :: 0 <= k < |updates| ==> updates[k].scheduleId != id
    ensures FindUpdate(id, updates).None?
  {
    if updates != [] {
      NotFound(updates[1..], id);
    }
  }

  /** The so'm mirror of a row once a payment has been over it. */
  ghost predicate MirrorFollows(row: Row, paid: Row, selected: nat, uzs: int) {
    if paid.paid == row.paid then paid.legacyPaid == row.legacyPaid
    else if paid.remaining == 0 then paid.legacyPaid == row.legacyExpected
    else
      && paid.legacyPaid <= Max(row.legacyPaid, row.legacyExpected)
      && (row.id == selected ==>
            paid.legacyPaid == row.legacyPaid + Min(uzs, Max(0, row.legacyExpected - row.legacyPaid)))
  }

  lemma MirrorOfPlace(
    row: Row, recorded: Row, order: seq<Row>, updates: seq<Update>, p: nat, selected: nat, uzs: int, amount: int,
    now: Time, track: bool)
    requires FillsInOrder(updates, order, amount, now) && MirrorsFill(updates, order, uzs)
    requires DistinctIds(order) && DistinctUpdates(updates) && p < |order| && order[p] == row
    requires row.remaining == Outstanding(row) > 0 && (row.id == selected ==> p == 0)
    requires RecordRow(row, updates, track) == Some(recorded)
    ensures MirrorFollows(row, recorded, selected, uzs)
  {
    if p < |updates| {
      assert Faithful(updates[p], order[p], now);
      assert MirrorFilled(updates[p], order[p], uzs - Sum(AppliedUzs(updates[..p])));
      FoundAt(updates, p);
      assert updates[..0] == [] && AppliedUzs([]) == [];
    } else {
      forall k | 0 <= k < |updates| ensures updates[k].scheduleId != row.id {
        assert Faithful(updates[k], order[k], now);
      }
      NotFound(updates, row.id);
    }
  }

  lemma OpenRowMirror(s: State, recorded: Row, selected: nat, amount: int, uzs: int, now: Time, i: nat)
    requires Inv(s) && s.remaining > 0 && 0 < amount <= s.remaining && i < |s.rows| && s.rows[i].remaining > 0
    requires RecordRow(s.rows[i], PaymentUpdates(s, selected, amount, uzs, now), TracksComponents(s)) == Some(recorded)
    ensures MirrorFollows(s.rows[i], recorded, selected, uzs)
  {
    var order, updates := PaymentOrder(s.rows, selected), PaymentUpdates(s, selected, amount, uzs, now);
    PaymentUpdatesAreSound(s, selected, amount, uzs, now);
    OrderHoldsOpenRows(s.rows, selected);
    OrderIsFilled(s, selected, amount, uzs, now);
    OrderMirrorsFill(s, selected, amount, uzs, now);
    var p := PlaceOf(s, selected, i);
    if s.rows[i].id == selected {
      ChosenIsFirst(s, selected, i);
    }
    MirrorOfPlace(s.rows[i], recorded, order, updates, if s.rows[i].id == selected then 0 else p, selected, uzs,
      amount, now, TracksComponents(s));
  }

  lemma OrderMirrorsFill(s: State, selected: nat, amount: int, uzs: int, now: Time)
    requires Inv(s) && s.remaining > 0
    ensures MirrorsFill(PaymentUpdates(s, selected, amount, uzs, now), PaymentOrder(s.rows, selected), uzs)
  {
    var order := PaymentOrder(s.rows, selected);
    OpenDebtMeansNothingWaived(s);
    OrderHoldsOpenRows(s.rows, selected);
    forall i | 0 <= i < |order| ensures Outstanding(order[i]) > 0 {
      assert order[i] in order;
      var j :| 0 <= j < |s.rows| && s.rows[j] == order[i];
      assert RowSound(s.rows[j], s.currency);
    }
    OwingRowsAreAll(order);
    MirrorsFillInOrder(order, uzs, amount, now);
  }

  lemma ClosedRowMirror(s: State, recorded: Row, selected: nat, amount: int, uzs: int, now: Time, i: nat)
    requires Inv(s) && s.remaining > 0 && 0 < amount <= s.remaining && i < |s.rows| && s.rows[i].remaining <= 0
    requires RecordRow(s.rows[i], PaymentUpdates(s, selected, amount, uzs, now), TracksComponents(s)) == Some(recorded)
    ensures MirrorFollows(s.rows[i], recorded, selected, uzs)
  {
    var updates := PaymentUpdates(s, selected, amount, uzs, now);
    PaymentUpdatesAreSound(s, selected, amount, uzs, now);
    OpenDebtMeansNothingWaived(s);
    assert RowSound(s.rows[i], s.currency);
    if FindUpdate(s.rows[i].id, updates).Some? {
      FoundIsFaithful(s.rows, updates, i, now);
      assert false;
    }
  }

  /**
   * The so'm mirrors follow: a row that is not paid keeps its own, a closed one shows it full whatever the
   * rate of the day, and the chosen one, while it stays open, gains what the payment is worth in so'm as
   * far as its mirror has room.
   */
  lemma PaymentFillsMirrors(
    s: State, s': State, selected: nat, amount: int, uzs: int, checkedAt: Time, now: Time)
    requires Inv(s) && PayStep(s, selected, amount, uzs, checkedAt, now) == Some(s')
    ensures |s'.rows| == |s.rows|
    ensures forall i :: 0 <= i < |s.rows| ==> MirrorFollows(s.rows[i], s'.rows[i], selected, uzs)
  {
    var updates := PaymentUpdates(s, selected, amount, uzs, now);
    PaidRowsTake(s, s', selected, amount, uzs, checkedAt, now);
    PaymentUnfolds(s, selected, amount, uzs, checkedAt, now);
    assert s'.rows == RecordRows(s.rows, updates, TracksComponents(s));
    forall i | 0 <= i < |s.rows| ensures MirrorFollows(s.rows[i], s'.rows[i], selected, uzs) {
      if s.rows[i].remaining > 0 {
        OpenRowMirror(s, s'.rows[i], selected, amount, uzs, now, i);
      } else {
        ClosedRowMirror(s, s'.rows[i], selected, amount, uzs, now, i);
      }
    }
  }
}
