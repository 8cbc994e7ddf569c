/** Spreading one payment over an ordered list of instalment rows. */
module PaymentAllocation {
  import opened Rounding
  import opened Sequences
  import opened Schedules

  datatype Update = Update(
    scheduleId: nat,
    appliedUzs: int,
    appliedContract: int,
    newPaid: int,
    newContractPaid: int,
    newContractRemaining: int,
    status: ScheduleStatus,
    markPaidAt: bool)

  /** What one row takes from what is left of the payment; the contract side alone decides completion. */
  function UpdateRow(row: Row, uzsLeft: int, contractLeft: int, now: Time): Update {
    var applied := Min(contractLeft, Outstanding(row));
    var raw := row.paid + applied;
    var full := raw >= row.expected;
    var contractPaid := if full then row.expected else raw;
    var appliedUzs := Min(uzsLeft, Max(0, row.legacyExpected - row.legacyPaid));
    var isPartial := !full && contractPaid > 0;
    Update(
      row.id,
      appliedUzs,
      applied,
      if full then row.legacyExpected else row.legacyPaid + appliedUzs,
      contractPaid,
      row.expected - contractPaid,
      if full then Paid else if PastDue(row, now) then Overdue else if isPartial then Partial else Pending,
      full)
  }

  function Updates(rows: seq<Row>, uzs: int, contract: int, now: Time): seq<Update> {
    if rows == [] || contract <= 0 then []
    else if Outstanding(rows[0]) <= 0 then Updates(rows[1..], uzs, contract, now)
    else
      var u := UpdateRow(rows[0], uzs, contract, now);
      [u] + Updates(rows[1..], uzs - u.appliedUzs, contract - u.appliedContract, now)
  }

  /** The program's loop: stop when the contract amount is used up, pass over rows that owe nothing. */
  method AllocateNasiyaPayment(rows: seq<Row>, amountUzs: int, appliedAmount: int, now: Time)
    returns (updates: seq<Update>)
    ensures updates == Updates(rows, Max(0, amountUzs), Max(0, appliedAmount), now)
  {
    var uzsLeft, contractLeft := Max(0, amountUzs), Max(0, appliedAmount);
    updates := [];
    for i := 0 to |rows|
      invariant Updates(rows, Max(0, amountUzs), Max(0, appliedAmount), now)
        == updates + Updates(rows[i..], uzsLeft, contractLeft, now)
    {
      if contractLeft <= 0 {
        break;
      }
      var row := rows[i];
      assert rows[i..][1..] == rows[i + 1..];
      if Outstanding(row) <= 0 {
        continue;
      }
      var u := UpdateRow(row, uzsLeft, contractLeft, now);
      updates := updates + [u];
      uzsLeft := uzsLeft - u.appliedUzs;
      contractLeft := contractLeft - u.appliedContract;
    }
  }

  function TotalOutstanding(rows: seq<Row>): int {
    if rows == [] then 0 else Outstanding(rows[0]) + TotalOutstanding(rows[1..])
  }

  function Applied(updates: seq<Update>): seq<int> {
    seq(|updates|, i requires 0 <= i < |updates| => updates[i].appliedContract)
  }

  /** The rows that owe something, in the given order. */
  function Owing(rows: seq<Row>): seq<Row> {
    if rows == [] then []
    else (if Outstanding(rows[0]) > 0 then [rows[0]] else []) + Owing(rows[1..])
  }

  lemma {:induction false} OutstandingIsNonNegative(rows: seq<Row>)
    ensures TotalOutstanding(rows) >= 0
  {
    if rows != [] {
      OutstandingIsNonNegative(rows[1..]);
    }
  }

  /** An update that tells the truth about the row it closes or reduces. */
  ghost predicate Faithful(u: Update, row: Row, now: Time) {
    && u.scheduleId == row.id
    && 0 < u.appliedContract <= Outstanding(row)
    && u.newContractPaid == row.paid + u.appliedContract
    && u.newContractPaid + u.newContractRemaining == row.expected
    && (u.status == Paid <==> u.newContractRemaining == 0)
    && (u.status == Paid <==> u.markPaidAt)
    && (u.status == Paid ==> u.newPaid == row.legacyExpected)
    && (u.status != Paid ==> u.status == (if PastDue(row, now) then Overdue else Partial))
  }

  /** Nothing of the payment is lost or invented: exactly the smaller of payment and debt is applied. */
  lemma {:induction false} AllocationConserves(rows: seq<Row>, uzs: int, contract: int, now: Time)
    ensures Sum(Applied(Updates(rows, uzs, contract, now))) == Min(Max(0, contract), TotalOutstanding(rows))
  {
    OutstandingIsNonNegative(rows);
    if rows == [] || contract <= 0 {
    } else if Outstanding(rows[0]) <= 0 {
      AllocationConserves(rows[1..], uzs, contract, now);
    } else {
      var u := UpdateRow(rows[0], uzs, contract, now);
      var rest := Updates(rows[1..], uzs - u.appliedUzs, contract - u.appliedContract, now);
      AllocationConserves(rows[1..], uzs - u.appliedUzs, contract - u.appliedContract, now);
      OutstandingIsNonNegative(rows[1..]);
      AppliedCons(u, rest);
    }
  }

  lemma UpdateIsFaithful(row: Row, uzs: int, contract: int, now: Time)
    requires row.paid >= 0 && Outstanding(row) > 0 && contract > 0
    ensures Faithful(UpdateRow(row, uzs, contract, now), row, now)
    ensures UpdateRow(row, uzs, contract, now).status != Paid ==>
      UpdateRow(row, uzs, contract, now).appliedContract == contract
  {
  }

  /**
   * The updates touch the first owing rows, in their order, each faithfully. Only the last may
   * leave its row unfinished; rows stay untouched, or the last unfinished, only because the
   * payment has run out.
   */
  ghost predicate FillsInOrder(updates: seq<Update>, owing: seq<Row>, contract: int, now: Time) {
    && |updates| <= |owing|
    && (forall i :: 0 <= i < |updates| ==> Faithful(updates[i], owing[i], now))
    && (forall i :: 0 <= i < |updates| - 1 ==> updates[i].status == Paid)
    && (|updates| < |owing| || (updates != [] && updates[|updates| - 1].status != Paid) ==>
          Sum(Applied(updates)) == Max(0, contract))
  }

  lemma {:induction false} RowsFillInOrder(rows: seq<Row>, uzs: int, contract: int, now: Time)
    requires forall i :: 0 <= i < |rows| ==> rows[i].paid >= 0
    ensures FillsInOrder(Updates(rows, uzs, contract, now), Owing(rows), contract, now)
  {
    if rows == [] || contract <= 0 {
    } else if Outstanding(rows[0]) <= 0 {
      RowsFillInOrder(rows[1..], uzs, contract, now);
    } else {
      var u := UpdateRow(rows[0], uzs, contract, now);
      UpdateIsFaithful(rows[0], uzs, contract, now);
      RowsFillInOrder(rows[1..], uzs - u.appliedUzs, contract - u.appliedContract, now);
      var rest := Updates(rows[1..], uzs - u.appliedUzs, contract - u.appliedContract, now);
      FillOneMore(u, rest, rows[0], Owing(rows[1..]), contract, now);
    }
  }

  lemma FillOneMore(u: Update, rest: seq<Update>, row: Row, owing: seq<Row>, contract: int, now: Time)
    requires Faithful(u, row, now) && u.appliedContract <= contract
    requires u.status != Paid ==> rest == [] && u.appliedContract == contract
    requires FillsInOrder(rest, owing, contract - u.appliedContract, now)
    ensures FillsInOrder([u] + rest, [row] + owing, contract, now)
  {
    AppliedCons(u, rest);
    var updates := [u] + rest;
    if rest != [] {
      assert updates[|updates| - 1] == rest[|rest| - 1];
    }
    forall i | 0 <= i < |updates|
      ensures Faithful(updates[i], ([row] + owing)[i], now)
      ensures i < |updates| - 1 ==> updates[i].status == Paid
    {
      if i > 0 {
        assert updates[i] == rest[i - 1];
      }
    }
  }

  lemma AppliedCons(u: Update, rest: seq<Update>)
    ensures Sum(Applied([u] + rest)) == u.appliedContract + Sum(Applied(rest))
  {
    SumCons(Applied([u] + rest));
    assert Applied([u] + rest)[1..] == Applied(rest);
  }

  // ---------------------------------------------------------------- the legacy mirrors

  /** What the so'm mirror of a row still lacks. */
  function MirrorGap(row: Row): int {
    Max(0, row.legacyExpected - row.legacyPaid)
  }

  function AppliedUzs(updates: seq<Update>): seq<int> {
    seq(|updates|, i requires 0 <= i < |updates| => updates[i].appliedUzs)
  }

  /** A closed row shows its mirror full whatever so'm reached it; an unfinished one shows those. */
  ghost predicate MirrorFilled(u: Update, row: Row, left: int) {
    && u.appliedUzs == Min(left, MirrorGap(row))
    && u.newPaid == if u.markPaidAt then row.legacyExpected else row.legacyPaid + u.appliedUzs
  }

  /** The so'm travel along: each row reached fills the gap in its mirror with what the rows before it left. */
  ghost predicate MirrorsFill(updates: seq<Update>, owing: seq<Row>, uzs: int) {
    && |updates| <= |owing|
    && forall i :: 0 <= i < |updates| ==> MirrorFilled(updates[i], owing[i], uzs - Sum(AppliedUzs(updates[..i])))
  }

  lemma AppliedUzsCons(u: Update, rest: seq<Update>)
    ensures Sum(AppliedUzs([u] + rest)) == u.appliedUzs + Sum(AppliedUzs(rest))
  {
    SumCons(AppliedUzs([u] + rest));
    assert AppliedUzs([u] + rest)[1..] == AppliedUzs(rest);
  }

  lemma MirrorFilledLater(u: Update, rest: seq<Update>, row: Row, owing: seq<Row>, uzs: int, i: nat)
    requires 0 < i <= |rest| && MirrorsFill(rest, owing, uzs - u.appliedUzs)
    ensures MirrorFilled(([u] + rest)[i], ([row] + owing)[i], uzs - Sum(AppliedUzs(([u] + rest)[..i])))
  {
    assert ([u] + rest)[..i] == [u] + rest[..i - 1];
    AppliedUzsCons(u, rest[..i - 1]);
    assert MirrorFilled(rest[i - 1], owing[i - 1], uzs - u.appliedUzs - Sum(AppliedUzs(rest[..i - 1])));
  }

  lemma MirrorsFillOneMore(row: Row, u: Update, rest: seq<Update>, owing: seq<Row>, uzs: int)
    requires MirrorFilled(u, row, uzs) && MirrorsFill(rest, owing, uzs - u.appliedUzs)
    ensures MirrorsFill([u] + rest, [row] + owing, uzs)
  {
    var updates := [u] + rest;
    forall i | 0 <= i < |updates|
      ensures MirrorFilled(updates[i], ([row] + owing)[i], uzs - Sum(AppliedUzs(updates[..i])))
    {
      if i == 0 {
        assert AppliedUzs(updates[..0]) == [];
      } else {
        MirrorFilledLater(u, rest, row, owing, uzs, i);
      }
    }
  }

  lemma UpdateFillsMirror(row: Row, uzs: int, contract: int, now: Time)
    ensures MirrorFilled(UpdateRow(row, uzs, contract, now), row, uzs)
  {
  }

  lemma {:induction false} MirrorsFillInOrder(rows: seq<Row>, uzs: int, contract: int, now: Time)
    ensures MirrorsFill(Updates(rows, uzs, contract, now), Owing(rows), uzs)
  {
    if rows == [] || contract <= 0 {
    } else if Outstanding(rows[0]) <= 0 {
      MirrorsFillInOrder(rows[1..], uzs, contract, now);
    } else {
      var u := UpdateRow(rows[0], uzs, contract, now);
      UpdateFillsMirror(rows[0], uzs, contract, now);
      MirrorsFillInOrder(rows[1..], uzs - u.appliedUzs, contract - u.appliedContract, now);
      MirrorsFillOneMore(rows[0], u,
        Updates(rows[1..], uzs - u.appliedUzs, contract - u.appliedContract, now), Owing(rows[1..]), uzs);
    }
  }

  // ---------------------------------------------------------------- the rows after a payment

  /** What the payment route stores in the row an update names. */
  function PayRow(row: Row, u: Update): Row {
    row.(legacyPaid := u.newPaid, paid := u.newContractPaid, remaining := u.newContractRemaining, status := u.status)
  }

  function Taken(row: Row, contract: int): int {
    if contract <= 0 then 0 else Min(contract, Outstanding(row))
  }

  function PaidRow(row: Row, uzs: int, contract: int, now: Time): Row {
    if Taken(row, contract) == 0 then row else PayRow(row, UpdateRow(row, uzs, contract, now))
  }

  function ContractAfter(row: Row, contract: int): int {
    contract - Taken(row, contract)
  }

  function UzsAfter(row: Row, uzs: int, contract: int, now: Time): int {
    if Taken(row, contract) == 0 then uzs else uzs - UpdateRow(row, uzs, contract, now).appliedUzs
  }

  /** The rows after a payment has been poured over them. */
  function PaidRows(rows: seq<Row>, uzs: int, contract: int, now: Time): (paid: seq<Row>)
    ensures |paid| == |rows|
  {
    if rows == [] then []
    else
      [PaidRow(rows[0], uzs, contract, now)]
      + PaidRows(rows[1..], UzsAfter(rows[0], uzs, contract, now), ContractAfter(rows[0], contract), now)
  }

  ghost predicate DistinctIds(rows: seq<Row>) {
    forall i, j :: 0 <= i < j < |rows| ==> rows[i].id != rows[j].id
  }

  /** Storing each update in the row it names. */
  function Stored(row: Row, updates: seq<Update>): Row {
    if updates == [] then row
    else if updates[0].scheduleId == row.id then PayRow(row, updates[0])
    else Stored(row, updates[1..])
  }

  lemma {:induction false} UpdatesNameGivenRows(rows: seq<Row>, uzs: int, contract: int, now: Time, id: nat)
    requires forall i :: 0 <= i < |rows| ==> rows[i].id != id
    ensures forall row: Row | row.id == id :: Stored(row, Updates(rows, uzs, contract, now)) == row
  {
    if rows == [] || contract <= 0 {
    } else if Outstanding(rows[0]) <= 0 {
      UpdatesNameGivenRows(rows[1..], uzs, contract, now, id);
    } else {
      var u := UpdateRow(rows[0], uzs, contract, now);
      UpdatesNameGivenRows(rows[1..], uzs - u.appliedUzs, contract - u.appliedContract, now, id);
    }
  }

  lemma NothingToPay(rows: seq<Row>, uzs: int, contract: int, now: Time)
    requires contract <= 0
    ensures PaidRows(rows, uzs, contract, now) == rows
  {
  }

  /** The update list and the poured rows agree: storing the updates by id gives the poured rows. */
  lemma {:induction false} UpdatesPourThePayment(rows: seq<Row>, uzs: int, contract: int, now: Time)
    requires DistinctIds(rows)
    ensures forall i :: 0 <= i < |rows| ==>
      PaidRows(rows, uzs, contract, now)[i] == Stored(rows[i], Updates(rows, uzs, contract, now))
  {
    if contract <= 0 {
      NothingToPay(rows, uzs, contract, now);
    } else if rows != [] {
      var head, tail := rows[0], rows[1..];
      var uzs', contract' := UzsAfter(head, uzs, contract, now), ContractAfter(head, contract);
      UpdatesPourThePayment(tail, uzs', contract', now);
      UpdatesNameGivenRows(tail, uzs', contract', now, head.id);
      forall i | 0 < i < |rows|
        ensures PaidRows(rows, uzs, contract, now)[i] == Stored(rows[i], Updates(rows, uzs, contract, now))
      {
        assert rows[i] == tail[i - 1];
      }
    }
  }

  // ---------------------------------------------------------------- composition

  /** A row without its legacy so'm mirror. */
  function Native(row: Row): Row {
    row.(legacyExpected := 0, legacyPaid := 0)
  }

  /** The same contract state row by row; the legacy mirrors may differ. */
  ghost predicate SameContract(rows: seq<Row>, rows': seq<Row>) {
    |rows| == |rows'| && forall i :: 0 <= i < |rows| ==> Native(rows[i]) == Native(rows'[i])
  }

  lemma SameContractCons(rows: seq<Row>, rows': seq<Row>)
    requires rows != [] && rows' != []
    ensures SameContract(rows, rows') <==> Native(rows[0]) == Native(rows'[0]) && SameContract(rows[1..], rows'[1..])
  {
    if Native(rows[0]) == Native(rows'[0]) && SameContract(rows[1..], rows'[1..]) {
      forall i | 0 < i < |rows| ensures Native(rows[i]) == Native(rows'[i]) {
        assert Native(rows[1..][i - 1]) == Native(rows'[1..][i - 1]);
      }
    }
  }

  /**
   * Paying a and then b leaves the same contract state as paying their sum at once, whatever so'm
   * amounts travel along and whatever the legacy mirrors say.
   */
  lemma {:induction false} PaymentsCompose(
    rows: seq<Row>, rows': seq<Row>, a: int, b: int, both: int, uzsA: int, uzsB: int, uzs: int, now: Time)
    requires SameContract(rows, rows')
    requires forall i :: 0 <= i < |rows| ==> rows[i].paid >= 0
    requires a >= 0 && b >= 0 && both == a + b
    ensures SameContract(PaidRows(PaidRows(rows, uzsA, a, now), uzsB, b, now), PaidRows(rows', uzs, both, now))
    decreases |rows|
  {
    if rows != [] {
      SameContractCons(rows, rows');
      var row, row' := rows[0], rows'[0];
      var first := PaidRow(row, uzsA, a, now);
      OneRowComposes(row, row', a, b, both, uzsA, uzsB, uzs, now);
      PaymentsCompose(rows[1..], rows'[1..], ContractAfter(row, a), ContractAfter(first, b), ContractAfter(row', both),
        UzsAfter(row, uzsA, a, now), UzsAfter(first, uzsB, b, now), UzsAfter(row', uzs, both, now), now);
      PaidTwiceCons(rows, a, b, uzsA, uzsB, now);
      PaidRowsCons(rows', uzs, both, now);
      var twice, once := PaidRows(PaidRows(rows, uzsA, a, now), uzsB, b, now), PaidRows(rows', uzs, both, now);
      SameContractCons(twice, once);
    }
  }

  lemma PaidTwiceCons(rows: seq<Row>, a: int, b: int, uzsA: int, uzsB: int, now: Time)
    requires rows != []
    ensures var first := PaidRow(rows[0], uzsA, a, now);
      var twice := PaidRows(PaidRows(rows, uzsA, a, now), uzsB, b, now);
      && twice[0] == PaidRow(first, uzsB, b, now)
      && twice[1..] == PaidRows(
           PaidRows(rows[1..], UzsAfter(rows[0], uzsA, a, now), ContractAfter(rows[0], a), now),
           UzsAfter(first, uzsB, b, now), ContractAfter(first, b), now)
  {
    PaidRowsCons(rows, uzsA, a, now);
    PaidRowsCons(PaidRows(rows, uzsA, a, now), uzsB, b, now);
  }

  lemma PaidRowsCons(rows: seq<Row>, uzs: int, contract: int, now: Time)
    requires rows != []
    ensures PaidRows(rows, uzs, contract, now)[0] == PaidRow(rows[0], uzs, contract, now)
    ensures PaidRows(rows, uzs, contract, now)[1..]
      == PaidRows(rows[1..], UzsAfter(rows[0], uzs, contract, now), ContractAfter(rows[0], contract), now)
  {
  }

  lemma OneRowComposes(row: Row, row': Row, a: int, b: int, both: int, uzsA: int, uzsB: int, uzs: int, now: Time)
    requires Native(row) == Native(row') && row.paid >= 0
    requires a >= 0 && b >= 0 && both == a + b
    ensures var first := PaidRow(row, uzsA, a, now);
      && 0 <= Taken(row, a) <= a && 0 <= Taken(first, b) <= b
      && Taken(row, a) + Taken(first, b) == Taken(row', both)
      && Native(PaidRow(first, uzsB, b, now)) == Native(PaidRow(row', uzs, both, now))
  {
    assert row.expected == Native(row).expected && row.paid == Native(row).paid;
    assert row'.expected == Native(row').expected && row'.paid == Native(row').paid;
    assert row.dueDate == Native(row).dueDate && row.delayedUntil == Native(row).delayedUntil;
    assert row'.dueDate == Native(row').dueDate && row'.delayedUntil == Native(row').delayedUntil;
  }

  /** The legacy mirrors and the so'm amount decide nothing on the contract side. */
  lemma ContractIgnoresLegacy(rows: seq<Row>, rows': seq<Row>, contract: nat, uzs: int, uzs': int, now: Time)
    requires SameContract(rows, rows')
    requires forall i :: 0 <= i < |rows| ==> rows[i].paid >= 0
    ensures SameContract(PaidRows(rows, uzs, contract, now), PaidRows(rows', uzs', contract, now))
  {
    PaymentsCompose(rows, rows', contract, 0, contract, uzs, 0, uzs', now);
    NothingToPay(PaidRows(rows, uzs, contract, now), 0, 0, now);
  }
}
