/** A payment on a Nasiya contract: when it is accepted, what it writes, and that nothing of it is lost. */
module ContractPayments {
  import opened Results
  import opened Sequences
  import opened Currency
  import opened PaymentComponents
  import opened Schedules
  import opened ContractStatus
  import opened PaymentAllocation
  import opened NasiyaLedger
  import opened ContractLifecycle
  import opened ContractInvariant
  import opened UzsReporting

  // ---------------------------------------------------------------- the order of the rows

  /** Every given row of interest once, and no others. */
  ghost predicate Arranges(order: seq<Row>, rows: seq<Row>) {
    DistinctIds(order) && forall i :: 0 <= i < |order| ==> order[i] in rows
  }

  lemma {:induction false} InsertArranges(row: Row, sorted: seq<Row>)
    requires DistinctIds(sorted) && forall i :: 0 <= i < |sorted| ==> sorted[i].id != row.id
    ensures DistinctIds(InsertByDue(row, sorted))
    ensures forall r :: r in InsertByDue(row, sorted) <==> r == row || r in sorted
  {
    if sorted != [] && !DueBefore(row, sorted[0]) {
      InsertArranges(row, sorted[1..]);
      var inserted := InsertByDue(row, sorted[1..]);
      forall i | 0 <= i < |inserted| ensures inserted[i].id != sorted[0].id {
        assert inserted[i] in inserted;
      }
    }
  }

  lemma {:induction false} OthersArrange(rows: seq<Row>, selected: nat)
    requires DistinctIds(rows)
    ensures DistinctIds(OthersByDue(rows, selected))
    ensures forall r :: r in OthersByDue(rows, selected) <==> r in rows && r.remaining > 0 && r.id != selected
  {
    if rows != [] {
      OthersArrange(rows[1..], selected);
      var others := OthersByDue(rows[1..], selected);
      forall i | 0 <= i < |others| ensures others[i].id != rows[0].id {
        assert others[i] in others;
      }
      assert rows == [rows[0]] + rows[1..];
      if rows[0].remaining > 0 && rows[0].id != selected {
        InsertArranges(rows[0], others);
      }
    }
  }

  lemma {:induction false} SelectedArranges(rows: seq<Row>, selected: nat)
    requires DistinctIds(rows)
    ensures DistinctIds(SelectedRows(rows, selected))
    ensures forall r :: r in SelectedRows(rows, selected) <==> r in rows && r.remaining > 0 && r.id == selected
  {
    if rows != [] {
      SelectedArranges(rows[1..], selected);
      assert rows == [rows[0]] + rows[1..];
      var rest := SelectedRows(rows[1..], selected);
      forall i | 0 <= i < |rest| ensures rest[i].id != rows[0].id || rows[0].id != selected {
        assert rest[i] in rest;
      }
    }
  }

  /** The rows are paid in an order that holds every open row once and nothing else. */
  lemma OrderHoldsOpenRows(rows: seq<Row>, selected: nat)
    requires DistinctIds(rows)
    ensures DistinctIds(PaymentOrder(rows, selected))
    ensures forall r :: r in PaymentOrder(rows, selected) <==> r in rows && r.remaining > 0
  {
    OthersArrange(rows, selected);
    SelectedArranges(rows, selected);
    var first, others := SelectedRows(rows, selected), OthersByDue(rows, selected);
    forall i, j | 0 <= i < |first| && 0 <= j < |others| ensures first[i].id != others[j].id {
      assert first[i] in first && others[j] in others;
    }
  }

  lemma {:induction false} InsertKeepsOutstanding(row: Row, sorted: seq<Row>)
    ensures TotalOutstanding(InsertByDue(row, sorted)) == Outstanding(row) + TotalOutstanding(sorted)
  {
    if sorted != [] && !DueBefore(row, sorted[0]) {
      InsertKeepsOutstanding(row, sorted[1..]);
    }
  }

  lemma {:induction false} OutstandingConcat(first: seq<Row>, rest: seq<Row>)
    ensures TotalOutstanding(first + rest) == TotalOutstanding(first) + TotalOutstanding(rest)
  {
    if first == [] {
      assert first + rest == rest;
    } else {
      assert (first + rest)[1..] == first[1..] + rest;
      OutstandingConcat(first[1..], rest);
    }
  }

  /** A row on which nothing is waived owes the allocator what the ledger says remains. */
  ghost predicate OwesWhatRemains(row: Row) {
    row.remaining >= 0 && Outstanding(row) == row.remaining
  }

  lemma {:induction false} OrderOwesRemaining(rows: seq<Row>, selected: nat)
    requires forall i :: 0 <= i < |rows| ==> OwesWhatRemains(rows[i])
    ensures TotalOutstanding(SelectedRows(rows, selected)) + TotalOutstanding(OthersByDue(rows, selected))
      == Sum(Remainings(rows))
  {
    if rows != [] {
      OrderOwesRemaining(rows[1..], selected);
      SumCons(Remainings(rows));
      assert Remainings(rows)[1..] == Remainings(rows[1..]);
      if rows[0].remaining > 0 && rows[0].id == selected {
        OutstandingConcat([rows[0]], SelectedRows(rows[1..], selected));
        OnlyOutstanding(rows[0]);
      } else {
        assert [] + SelectedRows(rows[1..], selected) == SelectedRows(rows[1..], selected);
        if rows[0].remaining > 0 {
          InsertKeepsOutstanding(rows[0], OthersByDue(rows[1..], selected));
        }
      }
    }
  }

  lemma OnlyOutstanding(row: Row)
    ensures TotalOutstanding([row]) == Outstanding(row)
  {
  }

  // ---------------------------------------------------------------- the updates

  ghost predicate DistinctUpdates(updates: seq<Update>) {
    forall i, j :: 0 <= i < j < |updates| ==> updates[i].scheduleId != updates[j].scheduleId
  }

  /** Every update tells the truth about the row it names, and no row is named twice. */
  ghost predicate UpdatesSound(updates: seq<Update>, rows: seq<Row>, now: Time) {
    && DistinctUpdates(updates)
    && forall i :: 0 <= i < |updates| ==> exists j :: 0 <= j < |rows| && Faithful(updates[i], rows[j], now)
  }

  lemma {:induction false} OwingRowsAreAll(rows: seq<Row>)
    requires forall i :: 0 <= i < |rows| ==> Outstanding(rows[i]) > 0
    ensures Owing(rows) == rows
  {
    if rows != [] {
      OwingRowsAreAll(rows[1..]);
    }
  }

  lemma UpdatesAreSound(rows: seq<Row>, order: seq<Row>, uzs: int, amount: int, now: Time)
    requires Arranges(order, rows)
    requires forall i :: 0 <= i < |order| ==> Outstanding(order[i]) > 0 && order[i].paid >= 0
    ensures UpdatesSound(Updates(order, uzs, amount, now), rows, now)
  {
    var updates := Updates(order, uzs, amount, now);
    OwingRowsAreAll(order);
    RowsFillInOrder(order, uzs, amount, now);
    forall i | 0 <= i < |updates|
      ensures exists j :: 0 <= j < |rows| && Faithful(updates[i], rows[j], now)
    {
      assert Faithful(updates[i], order[i], now) && order[i] in rows;
    }
    forall i, j | 0 <= i < j < |updates| ensures updates[i].scheduleId != updates[j].scheduleId {
      assert Faithful(updates[i], order[i], now) && Faithful(updates[j], order[j], now);
    }
  }

  function AppliedTo(id: nat, updates: seq<Update>): int {
    if updates == [] then 0
    else (if updates[0].scheduleId == id then updates[0].appliedContract else 0) + AppliedTo(id, updates[1..])
  }

  lemma {:induction false} FoundUpdate(id: nat, updates: seq<Update>)
    requires DistinctUpdates(updates)
    ensures FindUpdate(id, updates).None? ==> AppliedTo(id, updates) == 0
    ensures FindUpdate(id, updates).Some? ==>
      && FindUpdate(id, updates).value in updates && FindUpdate(id, updates).value.scheduleId == id
      && AppliedTo(id, updates) == FindUpdate(id, updates).value.appliedContract
  {
    if updates != [] {
      FoundUpdate(id, updates[1..]);
    }
  }

  /** The update found for a row is faithful to that very row. */
  lemma FoundIsFaithful(rows: seq<Row>, updates: seq<Update>, i: nat, now: Time)
    requires DistinctIds(rows) && UpdatesSound(updates, rows, now) && i < |rows|
    requires FindUpdate(rows[i].id, updates).Some?
    ensures Faithful(FindUpdate(rows[i].id, updates).value, rows[i], now)
  {
    FoundUpdate(rows[i].id, updates);
    var u := FindUpdate(rows[i].id, updates).value;
    var k :| 0 <= k < |updates| && updates[k] == u;
    var j :| 0 <= j < |rows| && Faithful(updates[k], rows[j], now);
    assert rows[j].id == rows[i].id;
  }

  // ---------------------------------------------------------------- one row

  /** A faithful update leaves a row that balances, with the status it should have now. */
  lemma PaidRowIsSound(row: Row, u: Update, currency: Currency, now: Time)
    requires RowSound(row, currency) && row.waived == 0 && Faithful(u, row, now)
    ensures RowSound(PayRow(row, u), currency)
    ensures PayRow(row, u).status == ExpectedStatus(PayRow(row, u), now)
    ensures PayRow(row, u).paid == row.paid + u.appliedContract
    ensures PayRow(row, u).remaining == row.remaining - u.appliedContract
  {
  }

  lemma ComponentsAfterPayment(row: Row, u: Update, currency: Currency, now: Time)
    requires RowSound(row, currency) && row.waived == 0 && Faithful(u, row, now) && ComponentsSound(row)
    ensures PayComponents(row.budget, row.recovered, u.appliedContract).Ok?
    ensures ComponentsSound(
      PayRow(row, u).(recovered := PayComponents(row.budget, row.recovered, u.appliedContract).value.paidAfter))
  {
    PaymentLandsOnTarget(row.budget, row.recovered, u.appliedContract);
  }

  /** What recording a payment does to one row, named in the payment or not. */
  ghost predicate RowRecorded(row: Row, recorded: Row, applied: int, currency: Currency, now: Time) {
    && RowSound(recorded, currency)
    && recorded.id == row.id && recorded.expected == row.expected && recorded.waived == row.waived
    && recorded.dueDate == row.dueDate && recorded.delayedUntil == row.delayedUntil
    && recorded.paid == row.paid + applied && recorded.remaining == row.remaining - applied
    && applied >= 0
    && (recorded == row || recorded.status == ExpectedStatus(recorded, now))
  }

  lemma RecordedRow(rows: seq<Row>, updates: seq<Update>, i: nat, track: bool, currency: Currency, now: Time)
    requires DistinctIds(rows) && UpdatesSound(updates, rows, now) && i < |rows|
    requires RowSound(rows[i], currency) && rows[i].waived == 0
    requires RecordRow(rows[i], updates, track).Some?
    ensures RowRecorded(
      rows[i], RecordRow(rows[i], updates, track).value, AppliedTo(rows[i].id, updates), currency, now)
  {
    FoundUpdate(rows[i].id, updates);
    if FindUpdate(rows[i].id, updates).Some? {
      FoundIsFaithful(rows, updates, i, now);
      PaidRowIsSound(rows[i], FindUpdate(rows[i].id, updates).value, currency, now);
    }
  }

  lemma RecordedComponents(rows: seq<Row>, updates: seq<Update>, i: nat, currency: Currency, now: Time)
    requires DistinctIds(rows) && UpdatesSound(updates, rows, now) && i < |rows|
    requires RowSound(rows[i], currency) && rows[i].waived == 0 && ComponentsSound(rows[i])
    ensures RecordRow(rows[i], updates, true).Some? && ComponentsSound(RecordRow(rows[i], updates, true).value)
    ensures RecordRow(rows[i], updates, true).value.budget == rows[i].budget
  {
    if FindUpdate(rows[i].id, updates).Some? {
      FoundIsFaithful(rows, updates, i, now);
      ComponentsAfterPayment(rows[i], FindUpdate(rows[i].id, updates).value, currency, now);
    }
  }

  // ---------------------------------------------------------------- the evidence

  lemma {:induction false} EvidencedConcat(id: nat, a: seq<Evidence>, b: seq<Evidence>, currency: Currency)
    ensures Evidenced(id, a + b, currency) == Evidenced(id, a, currency) + Evidenced(id, b, currency)
    decreases |b|
  {
    if b == [] {
      assert a + b == a;
    } else {
      EvidencedConcat(id, a, b[..|b| - 1], currency);
      assert (a + b)[..|a + b| - 1] == a + b[..|b| - 1];
    }
  }

  lemma EvidencedOne(id: nat, e: Evidence, currency: Currency)
    ensures Evidenced(id, [e], currency) == if Counts(e, id, currency) then Safe(e.amount, currency) else 0
  {
    assert [e][..0] == [];
  }

  lemma {:induction false} PaymentEvidenceCounts(id: nat, updates: seq<Update>, currency: Currency)
    requires forall i :: 0 <= i < |updates| ==> InRange(updates[i].appliedContract, currency)
    ensures Evidenced(id, PaymentEvidence(updates, currency), currency) == AppliedTo(id, updates)
  {
    if updates != [] {
      var e := Evidence(Some(updates[0].scheduleId), Some(currency), updates[0].appliedContract);
      PaymentEvidenceCounts(id, updates[1..], currency);
      EvidencedOne(id, e, currency);
      EvidencedConcat(id, [e], PaymentEvidence(updates[1..], currency), currency);
      assert PaymentEvidence(updates, currency) == [e] + PaymentEvidence(updates[1..], currency);
    }
  }

  lemma UpdatesNameRows(rows: seq<Row>, updates: seq<Update>, currency: Currency, now: Time)
    requires UpdatesSound(updates, rows, now)
    requires forall i :: 0 <= i < |rows| ==> RowSound(rows[i], currency)
    ensures forall i :: 0 <= i < |updates| ==>
      HasRow(rows, updates[i].scheduleId) && InRange(updates[i].appliedContract, currency)
  {
    forall i | 0 <= i < |updates|
      ensures HasRow(rows, updates[i].scheduleId) && InRange(updates[i].appliedContract, currency)
    {
      var j :| 0 <= j < |rows| && Faithful(updates[i], rows[j], now);
      assert RowSound(rows[j], currency) && rows[j].id == updates[i].scheduleId;
    }
  }

  lemma {:induction false} UnnamedIsNotPaid(id: nat, updates: seq<Update>)
    requires forall i :: 0 <= i < |updates| ==> updates[i].scheduleId != id
    ensures AppliedTo(id, updates) == 0
  {
    if updates != [] {
      UnnamedIsNotPaid(id, updates[1..]);
    }
  }

  // ---------------------------------------------------------------- the whole contract

  ghost predicate AllRecorded(rows: seq<Row>, recorded: seq<Row>, updates: seq<Update>, currency: Currency, now: Time) {
    && |recorded| == |rows|
    && forall i :: 0 <= i < |rows| ==> RowRecorded(rows[i], recorded[i], AppliedTo(rows[i].id, updates), currency, now)
  }

  ghost predicate NothingWaived(rows: seq<Row>) {
    forall i :: 0 <= i < |rows| ==> rows[i].waived == 0
  }

  lemma OpenDebtMeansNothingWaived(s: State)
    requires Inv(s) && s.remaining > 0
    ensures NothingWaived(s.rows)
  {
    forall i | 0 <= i < |s.rows| ensures s.rows[i].waived == 0 {
      assert RowSound(s.rows[i], s.currency);
      if s.rows[i].waived > 0 {
        forall j | 0 <= j < |s.rows| ensures Remainings(s.rows)[j] == 0 {
        }
        SumOfZeros(Remainings(s.rows));
        assert false;
      }
    }
  }

  lemma RowsAreRecorded(s: State, updates: seq<Update>, now: Time)
    requires RowsSound(s) && NothingWaived(s.rows) && UpdatesSound(updates, s.rows, now)
    requires CanRecord(s.rows, updates, TracksComponents(s))
    ensures AllRecorded(s.rows, Poured(s, updates).rows, updates, s.currency, now)
  {
    forall i | 0 <= i < |s.rows|
      ensures RowRecorded(
        s.rows[i], Poured(s, updates).rows[i], AppliedTo(s.rows[i].id, updates), s.currency, now)
    {
      assert RowSound(s.rows[i], s.currency);
      RecordedRow(s.rows, updates, i, TracksComponents(s), s.currency, now);
    }
  }

  lemma RecordedEvidence(
    rows: seq<Row>, recorded: seq<Row>, updates: seq<Update>, evidence: seq<Evidence>, currency: Currency, now: Time)
    requires AllRecorded(rows, recorded, updates, currency, now) && EvidenceSound(rows, evidence, currency)
    requires forall i :: 0 <= i < |updates| ==>
      HasRow(rows, updates[i].scheduleId) && InRange(updates[i].appliedContract, currency)
    ensures EvidenceSound(recorded, evidence + PaymentEvidence(updates, currency), currency)
  {
    var more := PaymentEvidence(updates, currency);
    forall i | 0 <= i < |rows|
      ensures Evidenced(recorded[i].id, evidence + more, currency) == recorded[i].paid
    {
      EvidencedConcat(rows[i].id, evidence, more, currency);
      PaymentEvidenceCounts(rows[i].id, updates, currency);
      assert RowRecorded(rows[i], recorded[i], AppliedTo(rows[i].id, updates), currency, now);
    }
    forall id: nat ensures HasRow(recorded, id) || Evidenced(id, evidence + more, currency) == 0 {
      if HasRow(rows, id) {
        var i :| 0 <= i < |rows| && rows[i].id == id;
        assert RowRecorded(rows[i], recorded[i], AppliedTo(rows[i].id, updates), currency, now);
        assert recorded[i].id == id;
      } else {
        EvidencedConcat(id, evidence, more, currency);
        PaymentEvidenceCounts(id, updates, currency);
        UnnamedIsNotPaid(id, updates);
      }
    }
  }

  lemma RecordedColumns(rows: seq<Row>, recorded: seq<Row>, updates: seq<Update>, currency: Currency, now: Time)
    requires AllRecorded(rows, recorded, updates, currency, now)
    ensures Sum(Expecteds(recorded)) == Sum(Expecteds(rows))
    ensures Sum(Waiveds(recorded)) == Sum(Waiveds(rows))
  {
    forall i | 0 <= i < |rows|
      ensures recorded[i].expected == rows[i].expected && recorded[i].waived == rows[i].waived
    {
      assert RowRecorded(rows[i], recorded[i], AppliedTo(rows[i].id, updates), currency, now);
    }
    assert Expecteds(recorded) == Expecteds(rows);
    assert Waiveds(recorded) == Waiveds(rows);
  }

  lemma RecordedIds(rows: seq<Row>, recorded: seq<Row>, updates: seq<Update>, currency: Currency, now: Time)
    requires AllRecorded(rows, recorded, updates, currency, now) && DistinctIds(rows) && NothingWaived(rows)
    ensures DistinctIds(recorded) && NothingWaived(recorded)
    ensures forall i :: 0 <= i < |recorded| ==> RowSound(recorded[i], currency)
  {
    forall i | 0 <= i < |rows|
      ensures recorded[i].id == rows[i].id && recorded[i].waived == 0 && RowSound(recorded[i], currency)
    {
      assert RowRecorded(rows[i], recorded[i], AppliedTo(rows[i].id, updates), currency, now);
    }
  }

  lemma PouredIsSound(s: State, updates: seq<Update>, now: Time)
    requires Inv(s) && s.remaining > 0 && UpdatesSound(updates, s.rows, now)
    requires CanRecord(s.rows, updates, TracksComponents(s))
    ensures RowsSound(Poured(s, updates))
    ensures Sum(Waiveds(Poured(s, updates).rows)) == s.waived
  {
    var poured := Poured(s, updates);
    OpenDebtMeansNothingWaived(s);
    RowsAreRecorded(s, updates, now);
    RecordedColumns(s.rows, poured.rows, updates, s.currency, now);
    RecordedIds(s.rows, poured.rows, updates, s.currency, now);
    if Complete(s) {
      UpdatesNameRows(s.rows, updates, s.currency, now);
      RecordedEvidence(s.rows, poured.rows, updates, s.evidence, s.currency, now);
      PouredComponents(s, updates, now);
    }
  }

  lemma PouredComponents(s: State, updates: seq<Update>, now: Time)
    requires Inv(s) && Complete(s) && NothingWaived(s.rows) && UpdatesSound(updates, s.rows, now)
    ensures CanRecord(s.rows, updates, true)
    ensures forall i :: 0 <= i < |s.rows| ==> ComponentsSound(RecordRows(s.rows, updates, true)[i])
  {
    forall i | 0 <= i < |s.rows|
      ensures RecordRow(s.rows[i], updates, true).Some? && ComponentsSound(RecordRow(s.rows[i], updates, true).value)
    {
      assert RowSound(s.rows[i], s.currency) && ComponentsSound(s.rows[i]);
      RecordedComponents(s.rows, updates, i, s.currency, now);
    }
  }

  // ---------------------------------------------------------------- nothing is lost

  /** What the updates apply, row by row. */
  function Spread(rows: seq<Row>, updates: seq<Update>): (spread: seq<int>)
    ensures |spread| == |rows|
  {
    seq(|rows|, i requires 0 <= i < |rows| => AppliedTo(rows[i].id, updates))
  }

  function Only(rows: seq<Row>, id: nat, x: int): (only: seq<int>)
    ensures |only| == |rows|
  {
    seq(|rows|, i requires 0 <= i < |rows| => if rows[i].id == id then x else 0)
  }

  lemma {:induction false} OnlyOnce(rows: seq<Row>, id: nat, x: int)
    requires DistinctIds(rows)
    ensures Sum(Only(rows, id, x)) == if HasRow(rows, id) then x else 0
  {
    if rows != [] {
      var k := |rows| - 1;
      OnlyOnce(rows[..k], id, x);
      assert Only(rows, id, x)[..k] == Only(rows[..k], id, x);
      if rows[k].id == id {
        assert !HasRow(rows[..k], id);
      } else if HasRow(rows, id) {
        var i :| 0 <= i < |rows| && rows[i].id == id;
        assert rows[..k][i].id == id;
      } else {
        assert !HasRow(rows[..k], id);
      }
    }
  }

  lemma {:induction false} SpreadLosesNothing(rows: seq<Row>, updates: seq<Update>)
    requires DistinctIds(rows)
    requires forall i :: 0 <= i < |updates| ==> HasRow(rows, updates[i].scheduleId)
    ensures Sum(Spread(rows, updates)) == Sum(Applied(updates))
  {
    if updates == [] {
      SumOfZeros(Spread(rows, updates));
    } else {
      var u, rest := updates[0], updates[1..];
      SpreadLosesNothing(rows, rest);
      OnlyOnce(rows, u.scheduleId, u.appliedContract);
      SumMinus(Spread(rows, updates), Spread(rows, rest));
      assert Minus(Spread(rows, updates), Spread(rows, rest)) == Only(rows, u.scheduleId, u.appliedContract);
      AppliedCons(u, rest);
      assert updates == [u] + rest;
    }
  }

  lemma RecordedAmounts(rows: seq<Row>, recorded: seq<Row>, updates: seq<Update>, currency: Currency, now: Time)
    requires AllRecorded(rows, recorded, updates, currency, now)
    ensures Minus(Paids(recorded), Paids(rows)) == Spread(rows, updates)
    ensures Minus(Remainings(rows), Remainings(recorded)) == Spread(rows, updates)
  {
    forall i | 0 <= i < |rows|
      ensures recorded[i].paid - rows[i].paid
        == AppliedTo(rows[i].id, updates) == rows[i].remaining - recorded[i].remaining
    {
      assert RowRecorded(rows[i], recorded[i], AppliedTo(rows[i].id, updates), currency, now);
    }
  }

  /** What the rows gain in paid, and lose in debt, is what the updates apply. */
  lemma RecordedTotals(rows: seq<Row>, recorded: seq<Row>, updates: seq<Update>, currency: Currency, now: Time)
    requires AllRecorded(rows, recorded, updates, currency, now) && DistinctIds(rows)
    requires forall i :: 0 <= i < |updates| ==> HasRow(rows, updates[i].scheduleId)
    ensures Sum(Paids(recorded)) == Sum(Paids(rows)) + Sum(Applied(updates))
    ensures Sum(Remainings(recorded)) == Sum(Remainings(rows)) - Sum(Applied(updates))
  {
    RecordedAmounts(rows, recorded, updates, currency, now);
    SpreadLosesNothing(rows, updates);
    SumMinus(Paids(recorded), Paids(rows));
    SumMinus(Remainings(rows), Remainings(recorded));
  }

  // ---------------------------------------------------------------- the payment step

  function PaymentUpdates(s: State, selected: nat, amount: int, uzs: int, now: Time): seq<Update> {
    Updates(PaymentOrder(s.rows, selected), uzs, amount, now)
  }

  lemma PaymentUpdatesAreSound(s: State, selected: nat, amount: int, uzs: int, now: Time)
    requires Inv(s) && s.remaining > 0 && 0 < amount <= s.remaining
    ensures UpdatesSound(PaymentUpdates(s, selected, amount, uzs, now), s.rows, now)
    ensures Sum(Applied(PaymentUpdates(s, selected, amount, uzs, now))) == amount
  {
    var order := PaymentOrder(s.rows, selected);
    OpenDebtMeansNothingWaived(s);
    OrderHoldsOpenRows(s.rows, selected);
    forall i | 0 <= i < |s.rows| ensures OwesWhatRemains(s.rows[i]) {
      assert RowSound(s.rows[i], s.currency);
    }
    forall i | 0 <= i < |order| ensures order[i] in s.rows && Outstanding(order[i]) > 0 && order[i].paid >= 0 {
      assert order[i] in order;
      var j :| 0 <= j < |s.rows| && s.rows[j] == order[i];
      assert RowSound(s.rows[j], s.currency) && OwesWhatRemains(s.rows[j]);
    }
    UpdatesAreSound(s.rows, order, uzs, amount, now);
    AllocationConserves(order, uzs, amount, now);
    OrderOwesRemaining(s.rows, selected);
    OutstandingConcat(SelectedRows(s.rows, selected), OthersByDue(s.rows, selected));
  }

  /** Rows a payment did not touch are as they were, and those it touched carry their current status. */
  ghost predicate WritesCurrentRows(rows: seq<Row>, written: seq<Row>, now: Time) {
    && |written| == |rows|
    && forall i :: 0 <= i < |rows| ==> written[i] == rows[i] || written[i].status == ExpectedStatus(written[i], now)
  }

  lemma RecordedRowsAreCurrent(rows: seq<Row>, recorded: seq<Row>, updates: seq<Update>, currency: Currency, now: Time)
    requires AllRecorded(rows, recorded, updates, currency, now)
    ensures WritesCurrentRows(rows, recorded, now)
  {
    forall i | 0 <= i < |rows|
      ensures recorded[i] == rows[i] || recorded[i].status == ExpectedStatus(recorded[i], now)
    {
      assert RowRecorded(rows[i], recorded[i], AppliedTo(rows[i].id, updates), currency, now);
    }
  }

  /** A payment as accepted: booked in full, on rows whose statuses are those of this moment. */
  ghost predicate PaymentBooked(s: State, s': State, amount: int, now: Time) {
    && Inv(s')
    && s'.paid == s.paid + amount && s'.remaining == s.remaining - amount && s'.waived == s.waived
    && s'.final == s.final && s'.reconstruction == s.reconstruction && s'.currency == s.currency
    && WritesCurrentRows(s.rows, s'.rows, now) && RowsCurrent(s'.rows, now)
    && s'.status == DeriveContract(s.status, s'.remaining, s'.rows, now)
  }

  lemma PouredThenCommitted(s: State, updates: seq<Update>, amount: int, now: Time)
    requires Inv(s) && s.remaining > 0
    requires UpdatesSound(updates, s.rows, now) && Sum(Applied(updates)) == amount
    requires CanRecord(s.rows, updates, TracksComponents(s))
    ensures Committed(Poured(s, updates), now).Some? <==> RowsCurrent(Poured(s, updates).rows, now)
    ensures Committed(Poured(s, updates), now).Some? ==>
      PaymentBooked(s, Committed(Poured(s, updates), now).value, amount, now)
    ensures WritesCurrentRows(s.rows, Poured(s, updates).rows, now)
  {
    var poured := Poured(s, updates);
    PouredIsSound(s, updates, now);
    CacheInRange(s);
    CommitKeeps(poured, now);
    OpenDebtMeansNothingWaived(s);
    RowsAreRecorded(s, updates, now);
    UpdatesNameRows(s.rows, updates, s.currency, now);
    RecordedTotals(s.rows, poured.rows, updates, s.currency, now);
    RecordedRowsAreCurrent(s.rows, poured.rows, updates, s.currency, now);
  }

  /** What a payment asks of the contract before anything is written. */
  ghost predicate Payable(s: State, selected: nat, amount: int, uzs: int, checkedAt: Time) {
    RowsCurrent(s.rows, checkedAt) && OwesRow(s, selected) && 0 < amount <= s.remaining && uzs > 0
  }

  lemma PaymentUnfolds(s: State, selected: nat, amount: int, uzs: int, checkedAt: Time, now: Time)
    requires Inv(s)
    ensures var updates := PaymentUpdates(s, selected, amount, uzs, now);
      PayStep(s, selected, amount, uzs, checkedAt, now) ==
        if Payable(s, selected, amount, uzs, checkedAt)
           && CanRecord(s.rows, updates, TracksComponents(s)) && CanReport(s, updates, uzs)
        then Committed(Poured(s, updates), now)
        else None
  {
    AdmitsIff(s, checkedAt);
  }

  /** Every accepted payment is booked to the last unit. */
  lemma PaymentKeepsInvariant(s: State, selected: nat, amount: int, uzs: int, checkedAt: Time, now: Time)
    requires Inv(s)
    ensures PayStep(s, selected, amount, uzs, checkedAt, now).Some? ==>
      PaymentBooked(s, PayStep(s, selected, amount, uzs, checkedAt, now).value, amount, now)
  {
    PaymentUnfolds(s, selected, amount, uzs, checkedAt, now);
    var updates := PaymentUpdates(s, selected, amount, uzs, now);
    if Payable(s, selected, amount, uzs, checkedAt) && CanRecord(s.rows, updates, TracksComponents(s)) {
      PaymentUpdatesAreSound(s, selected, amount, uzs, now);
      PouredThenCommitted(s, updates, amount, now);
    }
  }

  /** Where components are tracked, those recorded on every row that is paid leave room for the payment. */
  ghost predicate BudgetsHold(s: State, updates: seq<Update>) {
    TracksComponents(s) ==> forall i :: 0 <= i < |s.rows| ==> BudgetHolds(s.rows[i], updates)
  }

  ghost predicate BudgetHolds(row: Row, updates: seq<Update>) {
    var u := FindUpdate(row.id, updates);
    u.Some? ==>
      row.budget.Total() > 0 && 0 <= row.recovered.Total() <= row.budget.Total() - u.value.appliedContract
  }

  /** The rows a payment does not reach still carry their current status when it is written. */
  ghost predicate UnpaidRowsCurrent(rows: seq<Row>, updates: seq<Update>, now: Time) {
    forall i :: 0 <= i < |rows| && FindUpdate(rows[i].id, updates).None? ==>
      rows[i].status == ExpectedStatus(rows[i], now)
  }

  lemma CanRecordIff(s: State, updates: seq<Update>, now: Time)
    requires Inv(s) && UpdatesSound(updates, s.rows, now)
    ensures CanRecord(s.rows, updates, TracksComponents(s)) <==> BudgetsHold(s, updates)
  {
    forall i | 0 <= i < |s.rows|
      ensures RecordRow(s.rows[i], updates, true).Some? <==> BudgetHolds(s.rows[i], updates)
    {
      if FindUpdate(s.rows[i].id, updates).Some? {
        FoundIsFaithful(s.rows, updates, i, now);
      }
    }
  }

  lemma PouredRowIsCurrentIff(s: State, updates: seq<Update>, i: nat, now: Time)
    requires Inv(s) && s.remaining > 0 && UpdatesSound(updates, s.rows, now) && i < |s.rows|
    requires CanRecord(s.rows, updates, TracksComponents(s))
    ensures var row := Poured(s, updates).rows[i];
      row.status == ExpectedStatus(row, now)
      <==> (FindUpdate(s.rows[i].id, updates).None? ==> s.rows[i].status == ExpectedStatus(s.rows[i], now))
  {
    OpenDebtMeansNothingWaived(s);
    assert RowSound(s.rows[i], s.currency) && RecordRow(s.rows[i], updates, TracksComponents(s)).Some?;
    if FindUpdate(s.rows[i].id, updates).Some? {
      FoundIsFaithful(s.rows, updates, i, now);
      PaidRowIsSound(s.rows[i], FindUpdate(s.rows[i].id, updates).value, s.currency, now);
    }
  }

  /**
   * Exactly when a payment is accepted: the chosen row is open, the amount is within the debt, every
   * row's stored status is current at the first audit -- and, for the rows the payment does not reach,
   * at the last one. So once a due date passes, nothing can be paid on the contract until the overdue
   * pass has been over it. Every instalment reached must get some of the so'm and, where components are
   * tracked, have room for its payment in them.
   */
  lemma PaymentAcceptedIff(s: State, selected: nat, amount: int, uzs: int, checkedAt: Time, now: Time)
    requires Inv(s)
    ensures var updates := PaymentUpdates(s, selected, amount, uzs, now);
      PayStep(s, selected, amount, uzs, checkedAt, now).Some?
      <==> && Payable(s, selected, amount, uzs, checkedAt)
           && BudgetsHold(s, updates) && CanReport(s, updates, uzs) && UnpaidRowsCurrent(s.rows, updates, now)
  {
    var updates := PaymentUpdates(s, selected, amount, uzs, now);
    PaymentUnfolds(s, selected, amount, uzs, checkedAt, now);
    if Payable(s, selected, amount, uzs, checkedAt) {
      PaymentUpdatesAreSound(s, selected, amount, uzs, now);
      CanRecordIff(s, updates, now);
      if CanRecord(s.rows, updates, TracksComponents(s)) {
        PouredThenCommitted(s, updates, amount, now);
        PouredRowsCurrentIff(s, updates, now);
      }
    }
  }

  lemma PouredRowsCurrentIff(s: State, updates: seq<Update>, now: Time)
    requires Inv(s) && s.remaining > 0 && UpdatesSound(updates, s.rows, now)
    requires CanRecord(s.rows, updates, TracksComponents(s))
    ensures RowsCurrent(Poured(s, updates).rows, now) <==> UnpaidRowsCurrent(s.rows, updates, now)
  {
    var poured := Poured(s, updates).rows;
    forall i | 0 <= i < |s.rows|
      ensures poured[i].status == ExpectedStatus(poured[i], now)
        <==> (FindUpdate(s.rows[i].id, updates).None? ==> s.rows[i].status == ExpectedStatus(s.rows[i], now))
    {
      PouredRowIsCurrentIff(s, updates, i, now);
    }
  }

  /**
   * On a contract created by the program, or one whose components are not tracked, and with both audits
   * at one instant, only the so'm remain to be asked for.
   */
  lemma PaymentAcceptedAtOnceIff(s: State, selected: nat, amount: int, uzs: int, now: Time)
    requires Inv(s) && (Complete(s) || !TracksComponents(s))
    ensures PayStep(s, selected, amount, uzs, now, now).Some?
      <==> Payable(s, selected, amount, uzs, now) && CanReport(s, PaymentUpdates(s, selected, amount, uzs, now), uzs)
  {
    PaymentUnfolds(s, selected, amount, uzs, now, now);
    if Payable(s, selected, amount, uzs, now) {
      PayableIsCommitted(s, selected, amount, uzs, now);
    }
  }

  /** Which it does when the payment is worth at least a so'm for each of its units. */
  lemma WorthIsReported(s: State, selected: nat, amount: int, uzs: int, now: Time)
    requires Inv(s) && OwesRow(s, selected) && 0 < amount <= s.remaining && amount <= uzs
    ensures CanReport(s, PaymentUpdates(s, selected, amount, uzs, now), uzs)
  {
    var updates := PaymentUpdates(s, selected, amount, uzs, now);
    PaymentUpdatesAreSound(s, selected, amount, uzs, now);
    forall i | 0 <= i < |updates| ensures updates[i].appliedContract > 0 {
      var j :| 0 <= j < |s.rows| && Faithful(updates[i], s.rows[j], now);
    }
    assert updates == [] ==> Applied(updates) == [];
    EveryShareIsReported(uzs, Applied(updates), UnitsPerMajor(s.currency));
  }

  /** As any payment is at 100 so'm and more per dollar, whichever currency it was entered in. */
  lemma ConvertedPaymentIsReported(s: State, selected: nat, value: Money, rate: nat, now: Time)
    requires Inv(s) && OwesRow(s, selected) && rate >= RATE_SCALE
    requires Convert(value, s.currency, Some(rate)).Converted? && Convert(value, UZS, Some(rate)).Converted?
    requires 0 < Convert(value, s.currency, Some(rate)).money.units <= s.remaining
    ensures var amount := Convert(value, s.currency, Some(rate)).money.units;
      var uzs := Convert(value, UZS, Some(rate)).money.units;
      CanReport(s, PaymentUpdates(s, selected, amount, uzs, now), uzs)
  {
    SomAreNeverFewer(value, s.currency, rate);
    WorthIsReported(s, selected, Convert(value, s.currency, Some(rate)).money.units,
      Convert(value, UZS, Some(rate)).money.units, now);
  }

  lemma PayableCanBeRecorded(s: State, updates: seq<Update>, now: Time)
    requires Inv(s) && s.remaining > 0 && (Complete(s) || !TracksComponents(s)) && UpdatesSound(updates, s.rows, now)
    ensures CanRecord(s.rows, updates, TracksComponents(s))
  {
    if Complete(s) {
      OpenDebtMeansNothingWaived(s);
      PouredComponents(s, updates, now);
    }
  }

  lemma WrittenRowsStayCurrent(rows: seq<Row>, written: seq<Row>, now: Time)
    requires WritesCurrentRows(rows, written, now) && RowsCurrent(rows, now)
    ensures RowsCurrent(written, now)
  {
  }

  lemma PayableIsCommitted(s: State, selected: nat, amount: int, uzs: int, now: Time)
    requires Inv(s) && (Complete(s) || !TracksComponents(s))
    requires Payable(s, selected, amount, uzs, now)
    ensures var updates := PaymentUpdates(s, selected, amount, uzs, now);
      CanRecord(s.rows, updates, TracksComponents(s)) && Committed(Poured(s, updates), now).Some?
  {
    var updates := PaymentUpdates(s, selected, amount, uzs, now);
    PaymentUpdatesAreSound(s, selected, amount, uzs, now);
    PayableCanBeRecorded(s, updates, now);
    PouredThenCommitted(s, updates, amount, now);
    WrittenRowsStayCurrent(s.rows, Poured(s, updates).rows, now);
  }
}
