/** What every Nasiya contract keeps, and what that says to an audit. */
module ContractInvariant {
  import opened Results
  import opened Sequences
  import opened Currency
  import opened ProfitAllocation
  import opened PaymentComponents
  import opened Schedules
  import opened PaymentAllocation
  import opened ContractStatus
  import opened NasiyaLedger
  import opened ContractLifecycle
  import Settlement

  ghost predicate RowSound(row: Row, currency: Currency) {
    EntryBalances(Entry(row, Some(currency)), currency) && row.status != Cancelled
  }

  /**
   * What has been recovered of a row is the share of its budget that belongs to the amount paid, or,
   * once interest has been waived, everything but that interest.
   */
  ghost predicate ComponentsSound(row: Row) {
    && row.expected > 0 && row.budget.Total() == row.expected && Recoverable(row.budget)
    && (if row.waived == 0 then row.recovered == PaidAt(row.budget, row.paid)
        else row.remaining == 0 && row.recovered == row.budget.(interest := row.budget.interest - row.waived))
  }

  ghost predicate HasRow(rows: seq<Row>, id: nat) {
    exists i :: 0 <= i < |rows| && rows[i].id == id
  }

  /** The evidence shows exactly what was paid on each row, and nothing on rows that do not exist. */
  ghost predicate EvidenceSound(rows: seq<Row>, evidence: seq<Evidence>, currency: Currency) {
    && (forall i :: 0 <= i < |evidence| ==> EvidenceValid(evidence[i], currency))
    && (forall i :: 0 <= i < |rows| ==> Evidenced(rows[i].id, evidence, currency) == rows[i].paid)
    && (forall id: nat :: HasRow(rows, id) || Evidenced(id, evidence, currency) == 0)
  }

  /** Interest is waived only to close the whole contract. */
  ghost predicate WaiverCloses(rows: seq<Row>) {
    forall i, j :: 0 <= i < |rows| && 0 <= j < |rows| && rows[i].waived > 0 ==> rows[j].remaining == 0
  }

  ghost predicate Complete(s: State) {
    s.reconstruction == Settlement.ReconstructionComplete
  }

  ghost predicate RowsSound(s: State) {
    && s.rows != [] && DistinctIds(s.rows)
    && (forall i :: 0 <= i < |s.rows| ==> RowSound(s.rows[i], s.currency))
    && WaiverCloses(s.rows)
    && s.final == Sum(Expecteds(s.rows)) <= MaxUnits(s.currency)
    && (Complete(s) ==>
          && (forall i :: 0 <= i < |s.rows| ==> ComponentsSound(s.rows[i]))
          && EvidenceSound(s.rows, s.evidence, s.currency))
  }

  ghost predicate CacheSound(s: State) {
    && s.paid == Sum(Paids(s.rows))
    && s.waived == Sum(Waiveds(s.rows))
    && s.remaining == Sum(Remainings(s.rows))
  }

  ghost predicate Inv(s: State) {
    RowsSound(s) && CacheSound(s) && s.status != NasiyaCancelled
  }

  ghost predicate RowsCurrent(rows: seq<Row>, now: Time) {
    forall i :: 0 <= i < |rows| ==> rows[i].status == ExpectedStatus(rows[i], now)
  }

  // ---------------------------------------------------------------- the audit of such a contract

  lemma EntriesHoldRows(s: State)
    ensures RowsOf(AsContract(s).entries) == s.rows
  {
  }

  lemma EvidenceSoundAgrees(s: State)
    requires Complete(s) && RowsSound(s)
    ensures EvidenceAgrees(AsContract(s))
  {
    forall id: nat
      ensures Evidenced(id, s.evidence, s.currency) <= MaxUnits(s.currency)
    {
      if HasRow(s.rows, id) {
        var i :| 0 <= i < |s.rows| && s.rows[i].id == id;
        assert RowSound(s.rows[i], s.currency);
      }
    }
  }

  lemma SoundTotals(s: State)
    requires RowsSound(s)
    ensures Sum(Expecteds(s.rows)) == Sum(Paids(s.rows)) + Sum(Waiveds(s.rows)) + Sum(Remainings(s.rows))
    ensures Sum(Paids(s.rows)) >= 0 && Sum(Waiveds(s.rows)) >= 0 && Sum(Remainings(s.rows)) >= 0
  {
    forall i | 0 <= i < |s.rows|
      ensures s.rows[i].expected == s.rows[i].paid + s.rows[i].waived + s.rows[i].remaining
      ensures s.rows[i].paid >= 0 && s.rows[i].waived >= 0 && s.rows[i].remaining >= 0
    {
      assert RowSound(s.rows[i], s.currency);
    }
    ColumnsBalance(s.rows);
    SumNonNegative(Paids(s.rows));
    SumNonNegative(Waiveds(s.rows));
    SumNonNegative(Remainings(s.rows));
  }

  lemma SoundRowsAreInOrder(s: State)
    requires RowsSound(s)
    requires InRange(s.paid, s.currency) && InRange(s.waived, s.currency) && InRange(s.remaining, s.currency)
    ensures EvidenceInOrder(AsContract(s))
  {
    var c := AsContract(s);
    EntriesHoldRows(s);
    SoundTotals(s);
    forall i | 0 <= i < |c.entries|
      ensures EntryBalances(c.entries[i], c.currency)
    {
      assert RowSound(s.rows[i], s.currency);
    }
    if Complete(s) {
      EvidenceSoundAgrees(s);
    }
  }

  lemma CacheInRange(s: State)
    requires Inv(s)
    ensures InRange(s.paid, s.currency) && InRange(s.waived, s.currency) && InRange(s.remaining, s.currency)
  {
    SoundTotals(s);
  }

  /** The invariant is more than an audit asks for: nothing ever blocks a return, at whatever time it is judged. */
  lemma InvariantMeansNothingBlocks(s: State, later: Time)
    requires Inv(s)
    ensures AuditAt(s, later).Some? && !HasBlockingReasons(AuditAt(s, later).value.reasons)
  {
    CacheInRange(s);
    SoundRowsAreInOrder(s);
    EntriesHoldRows(s);
    NothingBlocksIffMoneyBalances(AsContract(s), later);
  }

  lemma CurrentRowsOfContract(s: State, now: Time)
    ensures RowStatusesCurrent(AsContract(s), now) <==> RowsCurrent(s.rows, now)
  {
    var c := AsContract(s);
    if RowStatusesCurrent(c, now) {
      forall i | 0 <= i < |s.rows| ensures s.rows[i].status == ExpectedStatus(s.rows[i], now) {
        assert c.entries[i].row == s.rows[i];
      }
    }
  }

  /** A route lets a contract in exactly when it owes something and every stored row status is the current one. */
  lemma AdmitsIff(s: State, checkedAt: Time)
    requires Inv(s)
    ensures Admits(s, checkedAt) <==> RowsCurrent(s.rows, checkedAt) && s.remaining > 0
    ensures AuditAt(s, checkedAt).Some? && AuditAt(s, checkedAt).value.remaining == s.remaining
  {
    CacheInRange(s);
    SoundRowsAreInOrder(s);
    EntriesHoldRows(s);
    SoundTotals(s);
    AuditOfSoundContract(AsContract(s), checkedAt);
    CurrentRowsOfContract(s, checkedAt);
  }

  /** Writing sound rows is completed exactly when their statuses are current; the cache then follows the rows. */
  lemma CommitKeeps(s: State, now: Time)
    requires RowsSound(s) && s.status != NasiyaCancelled && s.waived == Sum(Waiveds(s.rows))
    requires InRange(s.paid, s.currency) && InRange(s.remaining, s.currency)
    ensures Committed(s, now).Some? <==> RowsCurrent(s.rows, now)
    ensures Committed(s, now).Some? ==>
      var written := Committed(s, now).value;
      && Inv(written) && written.rows == s.rows && written.evidence == s.evidence
      && written.status == DeriveContract(s.status, Sum(Remainings(s.rows)), s.rows, now)
  {
    SoundTotals(s);
    SoundRowsAreInOrder(s);
    EntriesHoldRows(s);
    AuditOfSoundContract(AsContract(s), now);
    CurrentRowsOfContract(s, now);
    AuditedStatusOfSound(s, now);
  }

  lemma AuditedStatusOfSound(s: State, now: Time)
    requires RowsSound(s)
    ensures AuditedStatus(AsContract(s), now) == DeriveContract(s.status, Sum(Remainings(s.rows)), s.rows, now)
  {
    var c := AsContract(s);
    EntriesHoldRows(s);
    forall i | 0 <= i < |c.entries|
      ensures EntryBalances(c.entries[i], c.currency)
    {
      assert RowSound(s.rows[i], s.currency);
    }
    BalancedRowsAreSafe(c);
  }
}
