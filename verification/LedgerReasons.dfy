/** What an audit reports, finding by finding: each reason exactly when what it says is the case. */
module LedgerReasons {
  import opened Results
  import opened Sequences
  import opened Currency
  import opened Schedules
  import opened ContractStatus
  import opened NasiyaLedger

  // ---------------------------------------------------------------- what each reason says

  function RowField(row: Row, field: Field): Option<int> {
    match field
    case ExpectedField => Some(row.expected)
    case PaidField => Some(row.paid)
    case WaivedField => Some(row.waived)
    case RemainingField => Some(row.remaining)
    case FinalField => None
  }

  function ContractField(c: Contract, field: Field): Option<int> {
    match field
    case FinalField => Some(c.final)
    case PaidField => Some(c.paid)
    case WaivedField => Some(c.waived)
    case RemainingField => Some(c.remaining)
    case ExpectedField => None
  }

  predicate Unstorable(amount: Option<int>, currency: Currency) {
    amount.Some? && !(0 <= amount.value <= MaxUnits(currency))
  }

  /** The parts of a row add up to a storable amount. */
  predicate PartsFit(row: Row, currency: Currency) {
    row.paid + row.waived + row.remaining <= MaxUnits(currency)
  }

  /** What is wrong with one row, once amounts that cannot be stored count as nothing. */
  ghost predicate RowReported(entry: Entry, currency: Currency, now: Time, r: Reason) {
    var row := SafeRow(entry.row, currency);
    match r
    case RowCurrencyDiffers(id) => id == row.id && entry.currency != Some(currency)
    case RowFieldInvalid(id, field) => id == row.id && Unstorable(RowField(entry.row, field), currency)
    case RowBalanceInvalid(id) => id == row.id && !PartsFit(row, currency)
    case RowDoesNotBalance(id) =>
      id == row.id && PartsFit(row, currency) && row.expected != row.paid + row.waived + row.remaining
    case RowNotPositive(id) => id == row.id && row.expected == 0
    case RowCancelledWithDebt(id) => id == row.id && row.status == Cancelled && row.remaining > 0
    case RowStatusDiffers(id) =>
      id == row.id && !(row.status == Cancelled && row.remaining > 0) && row.status != ExpectedStatus(row, now)
    case _ => false
  }

  ghost predicate SomeRowReported(entries: seq<Entry>, currency: Currency, now: Time, r: Reason) {
    exists i :: 0 <= i < |entries| && RowReported(entries[i], currency, now, r)
  }

  ghost predicate OneEvidenceReported(e: Evidence, currency: Currency, r: Reason) {
    match r
    case EvidenceCurrencyDiffers(id) => e.scheduleId == Some(id) && e.currency != Some(currency)
    case EvidenceInvalid(id) =>
      e.scheduleId == Some(id) && e.currency == Some(currency) && Unstorable(Some(e.amount), currency)
    case _ => false
  }

  ghost predicate SomeEvidenceReported(evidence: seq<Evidence>, currency: Currency, r: Reason) {
    exists i :: 0 <= i < |evidence| && OneEvidenceReported(evidence[i], currency, r)
  }

  ghost predicate SomeRowUncovered(rows: seq<Row>, evidence: seq<Evidence>, currency: Currency, r: Reason) {
    r.EvidenceDisagrees?
    && exists i :: 0 <= i < |rows| && rows[i].id == r.row && Evidenced(rows[i].id, evidence, currency) != rows[i].paid
  }

  /** What is wrong with the contract itself, given the totals and the status its rows come to. */
  ghost predicate ContractReported(c: Contract, t: Totals, status: NasiyaStatus, r: Reason) {
    var final, sum := Safe(c.final, c.currency), t.paid + t.waived + t.remaining;
    match r
    case ContractFieldInvalid(field) => Unstorable(ContractField(c, field), c.currency)
    case ContractNotPositive => final == 0
    case NoRows => c.entries == []
    case TotalDiffers => t.expected != final
    case AggregateInvalid => sum > MaxUnits(c.currency)
    case AggregatesDiffer => sum <= MaxUnits(c.currency) && t.expected != sum
    case ParentPaidDiffers => Safe(c.paid, c.currency) != t.paid
    case ParentWaivedDiffers => Safe(c.waived, c.currency) != t.waived
    case ParentRemainingDiffers => Safe(c.remaining, c.currency) != t.remaining
    case ParentStatusDiffers => c.status != status
    case _ => false
  }

  ghost predicate Reported(c: Contract, now: Time, r: Reason) {
    var rows := SafeRows(c.entries, c.currency);
    || ContractReported(c, TotalsOf(rows), AuditedStatus(c, now), r)
    || SomeRowReported(c.entries, c.currency, now, r)
    || (c.historyComplete && SomeEvidenceReported(c.evidence, c.currency, r))
    || (c.historyComplete && SomeRowUncovered(rows, c.evidence, c.currency, r))
  }

  // ---------------------------------------------------------------- section by section

  lemma EntryIsReported(entry: Entry, currency: Currency, now: Time, r: Reason)
    ensures r in EntryReasons(entry, currency, now) <==> RowReported(entry, currency, now, r)
  {
    var safe := SafeRow(entry.row, currency);
    var fields := FieldReasons(entry.row, currency);
    assert r in fields <==> r.RowFieldInvalid? && RowReported(entry, currency, now, r);
    assert r in CurrencyReasons(entry, currency) <==> r.RowCurrencyDiffers? && RowReported(entry, currency, now, r);
    assert r in BalanceReasons(safe, currency) <==>
      (r.RowBalanceInvalid? || r.RowDoesNotBalance?) && RowReported(entry, currency, now, r);
    assert r in SignReasons(safe) <==> r.RowNotPositive? && RowReported(entry, currency, now, r);
    assert r in StatusReasons(safe, now) <==>
      (r.RowCancelledWithDebt? || r.RowStatusDiffers?) && RowReported(entry, currency, now, r);
  }

  lemma EntriesSplit(entries: seq<Entry>, k: nat, currency: Currency, now: Time, r: Reason)
    requires |entries| == k + 1
    ensures r in EntriesReasons(entries, currency, now)
      <==> r in EntriesReasons(entries[..k], currency, now) || r in EntryReasons(entries[k], currency, now)
  {
  }

  lemma SomeRowSplits(entries: seq<Entry>, k: nat, currency: Currency, now: Time, r: Reason)
    requires |entries| == k + 1
    ensures SomeRowReported(entries, currency, now, r)
      <==> SomeRowReported(entries[..k], currency, now, r) || RowReported(entries[k], currency, now, r)
  {
    if SomeRowReported(entries, currency, now, r) {
      var i :| 0 <= i < |entries| && RowReported(entries[i], currency, now, r);
      assert i < k ==> entries[..k][i] == entries[i];
    }
  }

  lemma {:induction false} EntriesAreReported(entries: seq<Entry>, currency: Currency, now: Time, r: Reason)
    ensures r in EntriesReasons(entries, currency, now) <==> SomeRowReported(entries, currency, now, r)
  {
    if entries != [] {
      var k := |entries| - 1;
      EntriesAreReported(entries[..k], currency, now, r);
      EntryIsReported(entries[k], currency, now, r);
      EntriesSplit(entries, k, currency, now, r);
      SomeRowSplits(entries, k, currency, now, r);
    }
  }

  lemma {:induction false} EvidenceIsReported(evidence: seq<Evidence>, currency: Currency, r: Reason)
    ensures r in EvidenceReasons(evidence, currency) <==> SomeEvidenceReported(evidence, currency, r)
  {
    if evidence != [] {
      var k := |evidence| - 1;
      EvidenceIsReported(evidence[..k], currency, r);
      assert r in OneEvidenceReasons(evidence[k], currency) <==> OneEvidenceReported(evidence[k], currency, r);
      assert forall i :: 0 <= i < k ==> evidence[..k][i] == evidence[i];
    }
  }

  lemma {:induction false} CoverageIsReported(
    rows: seq<Row>, evidence: seq<Evidence>, currency: Currency, r: Reason)
    ensures r in CoverageReasons(rows, evidence, currency) <==> SomeRowUncovered(rows, evidence, currency, r)
  {
    if rows != [] {
      var k := |rows| - 1;
      CoverageIsReported(rows[..k], evidence, currency, r);
      assert forall i :: 0 <= i < k ==> rows[..k][i] == rows[i];
    }
  }

  lemma FieldsAreReported(c: Contract, t: Totals, status: NasiyaStatus, r: Reason)
    ensures r in ContractReasons(c)
      <==> (r.ContractFieldInvalid? || r.ContractNotPositive?) && ContractReported(c, t, status, r)
  {
  }

  lemma TotalsAreReported(c: Contract, t: Totals, status: NasiyaStatus, r: Reason)
    requires t.paid >= 0 && t.waived >= 0 && t.remaining >= 0
    ensures r in TotalReasons(c, t)
      <==> && (r.NoRows? || r.TotalDiffers? || r.AggregateInvalid? || r.AggregatesDiffer?)
           && ContractReported(c, t, status, r)
  {
  }

  lemma ParentIsReported(c: Contract, t: Totals, status: NasiyaStatus, r: Reason)
    ensures r in ParentReasons(c, t, status) <==> ConcernsParent(r) && ContractReported(c, t, status, r)
  {
  }

  /** An audit reports a reason exactly when what the reason says is the case. */
  lemma ReasonsAreExact(c: Contract, now: Time, r: Reason)
    requires Reconcile(c, now).Some?
    ensures r in Reconcile(c, now).value.reasons <==> Reported(c, now, r)
  {
    var rows := SafeRows(c.entries, c.currency);
    var t := TotalsOf(rows);
    ColumnsAreNonNegative(c.entries, c.currency);
    FieldsAreReported(c, t, AuditedStatus(c, now), r);
    TotalsAreReported(c, t, AuditedStatus(c, now), r);
    ParentIsReported(c, t, AuditedStatus(c, now), r);
    EntriesAreReported(c.entries, c.currency, now, r);
    EvidenceIsReported(c.evidence, c.currency, r);
    CoverageIsReported(rows, c.evidence, c.currency, r);
    SectionsOfAudit(c, now, r);
  }

  lemma SectionsOfAudit(c: Contract, now: Time, r: Reason)
    ensures var rows := SafeRows(c.entries, c.currency);
      r in AuditReasons(c, now) <==>
        || r in ContractReasons(c)
        || r in EntriesReasons(c.entries, c.currency, now)
        || r in TotalReasons(c, TotalsOf(rows))
        || r in ParentReasons(c, TotalsOf(rows), AuditedStatus(c, now))
        || (c.historyComplete && r in EvidenceReasons(c.evidence, c.currency))
        || (c.historyComplete && r in CoverageReasons(rows, c.evidence, c.currency))
  {
  }

  ghost predicate IsMismatchReported(c: Contract, now: Time, r: Reason) {
    (r.EvidenceCurrencyDiffers? || r.EvidenceDisagrees?) && Reported(c, now, r)
  }

  lemma MismatchIsInEvidence(c: Contract, now: Time, r: Reason)
    requires c.historyComplete
    ensures IsMismatchReported(c, now, r) <==> r in EvidenceSection(c) && IsMismatch(r)
  {
    EvidenceIsReported(c.evidence, c.currency, r);
    CoverageIsReported(SafeRows(c.entries, c.currency), c.evidence, c.currency, r);
  }

  /** How the evidence stands: not complete, at odds with the rows or the currency, or in agreement. */
  lemma EvidenceStateIsExact(c: Contract, now: Time)
    requires Reconcile(c, now).Some?
    ensures Reconcile(c, now).value.evidenceState == EvidenceUnavailable <==> !c.historyComplete
    ensures Reconcile(c, now).value.evidenceState == EvidenceMismatch
      <==> c.historyComplete && exists r :: IsMismatchReported(c, now, r)
  {
    if c.historyComplete {
      if HasMismatch(EvidenceSection(c)) {
        var r :| r in EvidenceSection(c) && IsMismatch(r);
        MismatchIsInEvidence(c, now, r);
      }
      if r :| IsMismatchReported(c, now, r) {
        MismatchIsInEvidence(c, now, r);
      }
    }
  }

  /** The totals an audit reports are those of the rows, and they are what a repair writes to the parent. */
  lemma ReportIsExact(c: Contract, now: Time)
    requires Reconcile(c, now).Some?
    ensures var audit := Reconcile(c, now).value;
      var rows := SafeRows(c.entries, c.currency);
      && audit.paid == Sum(Paids(rows)) && audit.waived == Sum(Waiveds(rows))
      && audit.remaining == Sum(Remainings(rows))
      && (audit.parentInSync <==>
            && Safe(c.paid, c.currency) == audit.paid && Safe(c.waived, c.currency) == audit.waived
            && Safe(c.remaining, c.currency) == audit.remaining && c.status == audit.status)
      && (audit.repair == if audit.health == RepairableParentCache
            then Some(Repair(audit.paid, audit.waived, audit.remaining, audit.status)) else None)
  {
  }
}
