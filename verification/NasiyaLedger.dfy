/** The audit of a Nasiya contract: its rows, its cached totals and its payment evidence against each other. */
module NasiyaLedger {
  import opened Results
  import opened Sequences
  import opened Currency
  import opened Schedules
  import opened ContractStatus

  datatype Field = FinalField | PaidField | WaivedField | RemainingField | ExpectedField

  /** A row with the currency stored beside its amounts. */
  datatype Entry = Entry(row: Row, currency: Option<Currency>)

  /** A payment applied to a row, or to the down payment when it names none. */
  datatype Evidence = Evidence(scheduleId: Option<nat>, currency: Option<Currency>, amount: int)

  datatype Contract = Contract(
    status: NasiyaStatus,
    currency: Currency,
    final: int,
    paid: int,
    waived: int,
    remaining: int,
    entries: seq<Entry>,
    historyComplete: bool,
    evidence: seq<Evidence>)

  datatype Reason =
    | ContractFieldInvalid(field: Field)
    | ContractNotPositive
    | RowCurrencyDiffers(row: nat)
    | RowFieldInvalid(row: nat, field: Field)
    | RowDoesNotBalance(row: nat)
    | RowBalanceInvalid(row: nat)
    | RowNotPositive(row: nat)
    | RowCancelledWithDebt(row: nat)
    | RowStatusDiffers(row: nat)
    | NoRows
    | TotalDiffers
    | AggregatesDiffer
    | AggregateInvalid
    | EvidenceCurrencyDiffers(row: nat)
    | EvidenceInvalid(row: nat)
    | EvidenceDisagrees(row: nat)
    | ParentPaidDiffers
    | ParentWaivedDiffers
    | ParentRemainingDiffers
    | ParentStatusDiffers

  datatype Health = Healthy | RepairableParentCache | Quarantined

  datatype EvidenceState = EvidenceComplete | EvidenceUnavailable | EvidenceMismatch

  datatype Repair = Repair(paid: int, waived: int, remaining: int, status: NasiyaStatus)

  datatype Audit = Audit(
    paid: int,
    waived: int,
    remaining: int,
    status: NasiyaStatus,
    health: Health,
    reasons: seq<Reason>,
    evidenceState: EvidenceState,
    parentInSync: bool,
    repair: Option<Repair>)

  // ---------------------------------------------------------------- amounts

  predicate InRange(amount: int, currency: Currency) {
    Storable(Money(currency, amount))
  }

  /** An invalid amount is reported and then counted as nothing. */
  function Safe(amount: int, currency: Currency): (safe: int)
    ensures InRange(safe, currency)
    ensures InRange(amount, currency) ==> safe == amount
  {
    if InRange(amount, currency) then amount else 0
  }

  function When(found: bool, reason: Reason): seq<Reason> {
    if found then [reason] else []
  }

  function Invalid(amount: int, currency: Currency, reason: Reason): seq<Reason> {
    When(!InRange(amount, currency), reason)
  }

  function SafeRow(row: Row, currency: Currency): Row {
    row.(
      expected := Safe(row.expected, currency),
      paid := Safe(row.paid, currency),
      waived := Safe(row.waived, currency),
      remaining := Safe(row.remaining, currency))
  }

  function SafeRows(entries: seq<Entry>, currency: Currency): (rows: seq<Row>)
    ensures |rows| == |entries|
    ensures NonNegative(Expecteds(rows)) && NonNegative(Paids(rows))
    ensures NonNegative(Waiveds(rows)) && NonNegative(Remainings(rows))
  {
    seq(|entries|, i requires 0 <= i < |entries| => SafeRow(entries[i].row, currency))
  }

  // ---------------------------------------------------------------- the rows

  /** The status a row should carry; a standing cancellation or deferral is respected. */
  function ExpectedStatus(row: Row, now: Time): ScheduleStatus {
    if row.status == Cancelled then Cancelled
    else if row.remaining == 0 then (if row.waived > 0 then Settled else Paid)
    else if PastDue(row, now) then Overdue
    else if row.status == Deferred && row.delayedUntil.Some? then Deferred
    else if row.paid > 0 then Partial
    else Pending
  }

  function BalanceReasons(row: Row, currency: Currency): seq<Reason> {
    if !InRange(row.paid + row.waived, currency) || !InRange(row.paid + row.waived + row.remaining, currency)
    then [RowBalanceInvalid(row.id)]
    else if row.expected != row.paid + row.waived + row.remaining then [RowDoesNotBalance(row.id)]
    else []
  }

  function StatusReasons(row: Row, now: Time): seq<Reason> {
    if row.status == Cancelled && row.remaining > 0 then [RowCancelledWithDebt(row.id)]
    else if row.status != ExpectedStatus(row, now) then [RowStatusDiffers(row.id)]
    else []
  }

  function FieldReasons(row: Row, currency: Currency): seq<Reason> {
    Invalid(row.expected, currency, RowFieldInvalid(row.id, ExpectedField))
    + Invalid(row.paid, currency, RowFieldInvalid(row.id, PaidField))
    + Invalid(row.waived, currency, RowFieldInvalid(row.id, WaivedField))
    + Invalid(row.remaining, currency, RowFieldInvalid(row.id, RemainingField))
  }

  function CurrencyReasons(entry: Entry, currency: Currency): seq<Reason> {
    When(entry.currency != Some(currency), RowCurrencyDiffers(entry.row.id))
  }

  function SignReasons(row: Row): seq<Reason> {
    When(row.expected <= 0, RowNotPositive(row.id))
  }

  function EntryReasons(entry: Entry, currency: Currency, now: Time): seq<Reason> {
    var safe := SafeRow(entry.row, currency);
    CurrencyReasons(entry, currency)
    + FieldReasons(entry.row, currency)
    + BalanceReasons(safe, currency)
    + SignReasons(safe)
    + StatusReasons(safe, now)
  }

  function EntriesReasons(entries: seq<Entry>, currency: Currency, now: Time): seq<Reason> {
    if entries == [] then []
    else
      EntriesReasons(entries[..|entries| - 1], currency, now) + EntryReasons(entries[|entries| - 1], currency, now)
  }

  // ---------------------------------------------------------------- the evidence

  predicate Counts(e: Evidence, id: nat, currency: Currency) {
    e.scheduleId == Some(id) && e.currency == Some(currency)
  }

  function AmountFor(e: Evidence, id: nat, currency: Currency): (amount: int)
    ensures amount >= 0
  {
    if Counts(e, id, currency) then Safe(e.amount, currency) else 0
  }

  /** What the evidence says was paid on a row. */
  function Evidenced(id: nat, evidence: seq<Evidence>, currency: Currency): (sum: int)
    ensures sum >= 0
  {
    if evidence == [] then 0
    else
      var last := evidence[|evidence| - 1];
      Evidenced(id, evidence[..|evidence| - 1], currency) + AmountFor(last, id, currency)
  }

  /** Adding up the evidence of any row stays within a storable amount. */
  ghost predicate EvidenceFits(evidence: seq<Evidence>, currency: Currency) {
    forall id: nat :: Evidenced(id, evidence, currency) <= MaxUnits(currency)
  }

  /** The same bound, asked only of the rows the evidence names. */
  predicate NamedEvidenceFits(evidence: seq<Evidence>, currency: Currency) {
    forall i | 0 <= i < |evidence| ::
      evidence[i].scheduleId.Some? ==> Evidenced(evidence[i].scheduleId.value, evidence, currency) <= MaxUnits(currency)
  }

  function OneEvidenceReasons(e: Evidence, currency: Currency): seq<Reason> {
    if e.scheduleId.None? then []
    else if e.currency != Some(currency) then [EvidenceCurrencyDiffers(e.scheduleId.value)]
    else Invalid(e.amount, currency, EvidenceInvalid(e.scheduleId.value))
  }

  function EvidenceReasons(evidence: seq<Evidence>, currency: Currency): seq<Reason> {
    if evidence == [] then []
    else EvidenceReasons(evidence[..|evidence| - 1], currency) + OneEvidenceReasons(evidence[|evidence| - 1], currency)
  }

  function CoverageReasons(rows: seq<Row>, evidence: seq<Evidence>, currency: Currency): seq<Reason> {
    if rows == [] then []
    else
      var last := rows[|rows| - 1];
      CoverageReasons(rows[..|rows| - 1], evidence, currency)
      + When(Evidenced(last.id, evidence, currency) != last.paid, EvidenceDisagrees(last.id))
  }

  predicate IsMismatch(reason: Reason) {
    reason.EvidenceCurrencyDiffers? || reason.EvidenceDisagrees?
  }

  predicate HasMismatch(reasons: seq<Reason>) {
    exists r | r in reasons :: IsMismatch(r)
  }

  // ---------------------------------------------------------------- the audit

  function ContractReasons(c: Contract): seq<Reason> {
    Invalid(c.final, c.currency, ContractFieldInvalid(FinalField))
    + Invalid(c.paid, c.currency, ContractFieldInvalid(PaidField))
    + Invalid(c.waived, c.currency, ContractFieldInvalid(WaivedField))
    + Invalid(c.remaining, c.currency, ContractFieldInvalid(RemainingField))
    + When(Safe(c.final, c.currency) <= 0, ContractNotPositive)
  }

  /** The four column totals of the rows. */
  datatype Totals = Totals(expected: int, paid: int, waived: int, remaining: int)

  function TotalsOf(rows: seq<Row>): Totals {
    Totals(Sum(Expecteds(rows)), Sum(Paids(rows)), Sum(Waiveds(rows)), Sum(Remainings(rows)))
  }

  predicate TotalsFit(t: Totals, currency: Currency) {
    InRange(t.expected, currency) && InRange(t.paid, currency)
    && InRange(t.waived, currency) && InRange(t.remaining, currency)
  }

  predicate SumsFit(t: Totals, currency: Currency) {
    InRange(t.paid + t.waived, currency) && InRange(t.paid + t.waived + t.remaining, currency)
  }

  function TotalReasons(c: Contract, t: Totals): seq<Reason> {
    When(c.entries == [], NoRows)
    + When(t.expected != Safe(c.final, c.currency), TotalDiffers)
    + When(!SumsFit(t, c.currency), AggregateInvalid)
    + When(SumsFit(t, c.currency) && t.expected != t.paid + t.waived + t.remaining, AggregatesDiffer)
  }

  function ParentReasons(c: Contract, t: Totals, status: NasiyaStatus): seq<Reason> {
    When(Safe(c.paid, c.currency) != t.paid, ParentPaidDiffers)
    + When(Safe(c.waived, c.currency) != t.waived, ParentWaivedDiffers)
    + When(Safe(c.remaining, c.currency) != t.remaining, ParentRemainingDiffers)
    + When(c.status != status, ParentStatusDiffers)
  }

  predicate ConcernsParent(reason: Reason) {
    || reason.ParentPaidDiffers? || reason.ParentWaivedDiffers?
    || reason.ParentRemainingDiffers? || reason.ParentStatusDiffers?
  }

  function Conclude(
    c: Contract, t: Totals, status: NasiyaStatus, evidenceState: EvidenceState, reasons: seq<Reason>): Audit
  {
    var inSync := Safe(c.paid, c.currency) == t.paid && Safe(c.waived, c.currency) == t.waived
      && Safe(c.remaining, c.currency) == t.remaining && c.status == status;
    var health :=
      if reasons == [] then Healthy
      else if c.status != NasiyaCancelled && (forall r | r in reasons :: ConcernsParent(r)) && !inSync
      then RepairableParentCache
      else Quarantined;
    Audit(
      t.paid, t.waived, t.remaining, status, health, reasons, evidenceState, inSync,
      if health == RepairableParentCache then Some(Repair(t.paid, t.waived, t.remaining, status)) else None)
  }

  function EvidenceSection(c: Contract): seq<Reason> {
    if !c.historyComplete then []
    else
      EvidenceReasons(c.evidence, c.currency)
      + CoverageReasons(SafeRows(c.entries, c.currency), c.evidence, c.currency)
  }

  /** The additions of the audit stay within storable amounts; the program throws where they do not. */
  predicate Computable(c: Contract) {
    var t := TotalsOf(SafeRows(c.entries, c.currency));
    && TotalsFit(t, c.currency)
    && (c.historyComplete ==> NamedEvidenceFits(c.evidence, c.currency))
    && InRange(t.paid + t.waived, c.currency)
  }

  function AuditedStatus(c: Contract, now: Time): NasiyaStatus {
    var rows := SafeRows(c.entries, c.currency);
    DeriveContract(c.status, Sum(Remainings(rows)), rows, now)
  }

  function AuditReasons(c: Contract, now: Time): seq<Reason> {
    var t := TotalsOf(SafeRows(c.entries, c.currency));
    ContractReasons(c)
    + EntriesReasons(c.entries, c.currency, now)
    + TotalReasons(c, t)
    + EvidenceSection(c)
    + ParentReasons(c, t, AuditedStatus(c, now))
  }

  function Reconcile(c: Contract, now: Time): Option<Audit> {
    if !Computable(c) then None
    else
      Some(Conclude(
        c, TotalsOf(SafeRows(c.entries, c.currency)), AuditedStatus(c, now),
        if !c.historyComplete then EvidenceUnavailable
        else if HasMismatch(EvidenceSection(c)) then EvidenceMismatch
        else EvidenceComplete,
        AuditReasons(c, now)))
  }

  // ---------------------------------------------------------------- the program's passes

  function Lookup(sums: map<nat, int>, id: nat): int {
    if id in sums then sums[id] else 0
  }

  lemma {:induction false} EvidenceGrows(id: nat, evidence: seq<Evidence>, k: nat, currency: Currency)
    requires k <= |evidence|
    ensures Evidenced(id, evidence[..k], currency) <= Evidenced(id, evidence, currency)
    decreases |evidence|
  {
    if k == |evidence| {
      assert evidence[..k] == evidence;
    } else {
      EvidenceGrows(id, evidence[..|evidence| - 1], k, currency);
      assert evidence[..|evidence| - 1][..k] == evidence[..k];
    }
  }

  lemma {:induction false} OnlyNamedRowsHaveEvidence(id: nat, evidence: seq<Evidence>, currency: Currency)
    requires Evidenced(id, evidence, currency) > 0
    ensures exists i :: 0 <= i < |evidence| && evidence[i].scheduleId == Some(id)
  {
    var k := |evidence| - 1;
    if Evidenced(id, evidence[..k], currency) > 0 {
      OnlyNamedRowsHaveEvidence(id, evidence[..k], currency);
      var i :| 0 <= i < k && evidence[..k][i].scheduleId == Some(id);
      assert evidence[i].scheduleId == Some(id);
    } else {
      assert evidence[k].scheduleId == Some(id);
    }
  }

  lemma FitsIffNamedFits(evidence: seq<Evidence>, currency: Currency)
    ensures EvidenceFits(evidence, currency) <==> NamedEvidenceFits(evidence, currency)
  {
    if NamedEvidenceFits(evidence, currency) {
      forall id: nat ensures Evidenced(id, evidence, currency) <= MaxUnits(currency) {
        if Evidenced(id, evidence, currency) > 0 {
          OnlyNamedRowsHaveEvidence(id, evidence, currency);
        }
      }
    }
  }

  /** The map holds what the evidence says was paid on each row. */
  ghost predicate Collected(sums: map<nat, int>, evidence: seq<Evidence>, currency: Currency) {
    forall id: nat :: Lookup(sums, id) == Evidenced(id, evidence, currency)
  }

  lemma OneMoreEvidence(id: nat, evidence: seq<Evidence>, i: nat, currency: Currency)
    requires i < |evidence|
    ensures Evidenced(id, evidence[..i + 1], currency)
      == Evidenced(id, evidence[..i], currency) + AmountFor(evidence[i], id, currency)
  {
    assert evidence[..i + 1][..i] == evidence[..i];
  }

  lemma ReasonsSnoc(evidence: seq<Evidence>, i: nat, currency: Currency)
    requires i < |evidence|
    ensures EvidenceReasons(evidence[..i + 1], currency)
      == EvidenceReasons(evidence[..i], currency) + OneEvidenceReasons(evidence[i], currency)
  {
    assert evidence[..i + 1][..i] == evidence[..i];
  }

  lemma SkippedEvidence(sums: map<nat, int>, evidence: seq<Evidence>, i: nat, currency: Currency)
    requires i < |evidence| && Collected(sums, evidence[..i], currency)
    requires evidence[i].scheduleId.None? || evidence[i].currency != Some(currency)
    ensures Collected(sums, evidence[..i + 1], currency)
    ensures EvidenceFits(evidence[..i], currency) ==> EvidenceFits(evidence[..i + 1], currency)
  {
    forall id: nat
      ensures Evidenced(id, evidence[..i + 1], currency) == Evidenced(id, evidence[..i], currency)
    {
      OneMoreEvidence(id, evidence, i, currency);
    }
  }

  lemma AddedEvidence(sums: map<nat, int>, evidence: seq<Evidence>, i: nat, currency: Currency, id: nat, sum: int)
    requires i < |evidence| && Collected(sums, evidence[..i], currency)
    requires Counts(evidence[i], id, currency) && sum == Lookup(sums, id) + Safe(evidence[i].amount, currency)
    ensures Collected(sums[id := sum], evidence[..i + 1], currency)
    ensures EvidenceFits(evidence[..i], currency) && sum <= MaxUnits(currency) ==>
      EvidenceFits(evidence[..i + 1], currency)
  {
    var more := evidence[..i + 1];
    forall other: nat
      ensures Lookup(sums[id := sum], other) == Evidenced(other, more, currency)
      ensures other != id ==> Evidenced(other, more, currency) == Evidenced(other, evidence[..i], currency)
    {
      OneMoreEvidence(other, evidence, i, currency);
    }
    assert Lookup(sums[id := sum], id) == sum;
  }

  /** Collecting the evidence per row in a map; None where a sum overflows. */
  method CollectEvidence(evidence: seq<Evidence>, currency: Currency)
    returns (sums: Option<map<nat, int>>, reasons: seq<Reason>)
    ensures sums.Some? <==> NamedEvidenceFits(evidence, currency)
    ensures sums.Some? ==> reasons == EvidenceReasons(evidence, currency)
    ensures sums.Some? ==> Collected(sums.value, evidence, currency)
  {
    var bySchedule: map<nat, int> := map[];
    reasons := [];
    for i := 0 to |evidence|
      invariant reasons == EvidenceReasons(evidence[..i], currency)
      invariant Collected(bySchedule, evidence[..i], currency) && EvidenceFits(evidence[..i], currency)
    {
      var e := evidence[i];
      ReasonsSnoc(evidence, i, currency);
      reasons := reasons + OneEvidenceReasons(e, currency);
      if e.scheduleId.None? || e.currency != Some(currency) {
        SkippedEvidence(bySchedule, evidence, i, currency);
        continue;
      }
      var id := e.scheduleId.value;
      var sum := Lookup(bySchedule, id) + Safe(e.amount, currency);
      AddedEvidence(bySchedule, evidence, i, currency, id, sum);
      if !InRange(sum, currency) {
        assert Evidenced(id, evidence[..i + 1], currency) == Lookup(bySchedule[id := sum], id);
        EvidenceGrows(id, evidence, i + 1, currency);
        FitsIffNamedFits(evidence, currency);
        return None, [];
      }
      bySchedule := bySchedule[id := sum];
    }
    assert evidence[..|evidence|] == evidence;
    FitsIffNamedFits(evidence, currency);
    return Some(bySchedule), reasons;
  }

  lemma EntriesSnoc(entries: seq<Entry>, i: nat, currency: Currency, now: Time)
    requires i < |entries|
    ensures EntriesReasons(entries[..i + 1], currency, now)
      == EntriesReasons(entries[..i], currency, now) + EntryReasons(entries[i], currency, now)
  {
    assert entries[..i + 1][..i] == entries[..i];
  }

  method AuditEntries(entries: seq<Entry>, currency: Currency, now: Time) returns (reasons: seq<Reason>)
    ensures reasons == EntriesReasons(entries, currency, now)
  {
    reasons := [];
    for i := 0 to |entries|
      invariant reasons == EntriesReasons(entries[..i], currency, now)
    {
      EntriesSnoc(entries, i, currency, now);
      reasons := reasons + EntryReasons(entries[i], currency, now);
    }
    assert entries[..|entries|] == entries;
  }

  /** Comparing every row with the evidence collected for it, on top of what collecting reported. */
  method CompareWithEvidence(
    rows: seq<Row>, sums: map<nat, int>, found: seq<Reason>, ghost evidence: seq<Evidence>, ghost currency: Currency)
    returns (reasons: seq<Reason>, state: EvidenceState)
    requires Collected(sums, evidence, currency)
    ensures reasons == found + CoverageReasons(rows, evidence, currency)
    ensures state == if HasMismatch(reasons) then EvidenceMismatch else EvidenceComplete
  {
    reasons, state := found, if HasMismatch(found) then EvidenceMismatch else EvidenceComplete;
    for i := 0 to |rows|
      invariant reasons == found + CoverageReasons(rows[..i], evidence, currency)
      invariant state == if HasMismatch(reasons) then EvidenceMismatch else EvidenceComplete
    {
      assert rows[..i + 1][..i] == rows[..i];
      if Lookup(sums, rows[i].id) != rows[i].paid {
        var reason := EvidenceDisagrees(rows[i].id);
        reasons, state := reasons + [reason], EvidenceMismatch;
        assert reason in reasons && IsMismatch(reason);
      }
    }
    assert rows[..|rows|] == rows;
  }

  method ReconcileNasiyaLedger(c: Contract, now: Time) returns (audit: Option<Audit>)
    ensures audit == Reconcile(c, now)
  {
    var rowReasons := AuditEntries(c.entries, c.currency, now);
    var rows := SafeRows(c.entries, c.currency);
    var t := TotalsOf(rows);
    if !TotalsFit(t, c.currency) {
      return None;
    }
    var section: seq<Reason>, evidenceState := [], EvidenceUnavailable;
    if c.historyComplete {
      var sums, found := CollectEvidence(c.evidence, c.currency);
      if sums.None? {
        return None;
      }
      section, evidenceState := CompareWithEvidence(rows, sums.value, found, c.evidence, c.currency);
    }
    if !InRange(t.paid + t.waived, c.currency) {
      return None;
    }
    var status := DeriveContract(c.status, t.remaining, rows, now);
    var reasons := ContractReasons(c) + rowReasons + TotalReasons(c, t) + section + ParentReasons(c, t, status);
    return Some(Conclude(c, t, status, evidenceState, reasons));
  }

  // ---------------------------------------------------------------- what an audit without findings means

  /** Lag in a stored status is operational; every other reason blocks a return. */
  predicate Blocks(reason: Reason) {
    !reason.RowStatusDiffers? && !reason.ParentStatusDiffers?
  }

  predicate HasBlockingReasons(reasons: seq<Reason>) {
    exists r | r in reasons :: Blocks(r)
  }

  /** Which findings a reader of an audit objects to. */
  datatype Lens = Anything | Blocking | NotParentCache

  predicate Objects(lens: Lens, reason: Reason) {
    match lens
    case Anything => true
    case Blocking => Blocks(reason)
    case NotParentCache => !ConcernsParent(reason)
  }

  ghost predicate Free(reasons: seq<Reason>, lens: Lens) {
    forall i :: 0 <= i < |reasons| ==> !Objects(lens, reasons[i])
  }

  /** The money of a row is in order: all of it storable, in the contract's currency, and balanced. */
  ghost predicate EntryBalances(entry: Entry, currency: Currency) {
    var row := entry.row;
    && entry.currency == Some(currency)
    && 0 < row.expected <= MaxUnits(currency)
    && row.paid >= 0 && row.waived >= 0 && row.remaining >= 0
    && row.paid + row.waived + row.remaining == row.expected
    && (row.status == Cancelled ==> row.remaining == 0)
  }

  function RowsOf(entries: seq<Entry>): (rows: seq<Row>)
    ensures |rows| == |entries|
  {
    seq(|entries|, i requires 0 <= i < |entries| => entries[i].row)
  }

  ghost predicate EvidenceValid(e: Evidence, currency: Currency) {
    e.scheduleId.Some? ==> e.currency == Some(currency) && InRange(e.amount, currency)
  }

  ghost predicate EvidenceAgrees(c: Contract) {
    && (forall i :: 0 <= i < |c.evidence| ==> EvidenceValid(c.evidence[i], c.currency))
    && (forall i :: 0 <= i < |c.entries| ==> RowCovered(c.entries[i].row, c.evidence, c.currency))
    && EvidenceFits(c.evidence, c.currency)
  }

  /** Everything but the cached totals is in order: contract amounts, rows and payment evidence. */
  ghost predicate EvidenceInOrder(c: Contract) {
    && c.entries != []
    && (forall i :: 0 <= i < |c.entries| ==> EntryBalances(c.entries[i], c.currency))
    && c.final == Sum(Expecteds(RowsOf(c.entries))) && InRange(c.final, c.currency)
    && InRange(c.paid, c.currency) && InRange(c.waived, c.currency) && InRange(c.remaining, c.currency)
    && (c.historyComplete ==> EvidenceAgrees(c))
  }

  ghost predicate CacheAgrees(c: Contract) {
    && c.paid == Sum(Paids(RowsOf(c.entries)))
    && c.waived == Sum(Waiveds(RowsOf(c.entries)))
    && c.remaining == Sum(Remainings(RowsOf(c.entries)))
  }

  /** The money of a whole contract is in order. No clock is involved. */
  ghost predicate MoneyBalances(c: Contract) {
    EvidenceInOrder(c) && CacheAgrees(c)
  }

  ghost predicate RowStatusesCurrent(c: Contract, now: Time) {
    forall i :: 0 <= i < |c.entries| ==> c.entries[i].row.status == ExpectedStatus(c.entries[i].row, now)
  }

  ghost predicate ContractStatusCurrent(c: Contract, now: Time) {
    c.status == DeriveContract(c.status, Sum(Remainings(RowsOf(c.entries))), RowsOf(c.entries), now)
  }

  lemma FreeConcat(a: seq<Reason>, b: seq<Reason>, lens: Lens)
    ensures Free(a + b, lens) <==> Free(a, lens) && Free(b, lens)
  {
    if Free(a + b, lens) {
      forall i | 0 <= i < |a| ensures !Objects(lens, a[i]) {
        assert (a + b)[i] == a[i];
      }
      forall i | 0 <= i < |b| ensures !Objects(lens, b[i]) {
        assert (a + b)[|a| + i] == b[i];
      }
    }
  }

  lemma FreeOne(reason: Reason, lens: Lens)
    ensures Free([reason], lens) <==> !Objects(lens, reason)
  {
    assert [reason][0] == reason;
  }

  lemma FreeMeansNothingObjectedTo(reasons: seq<Reason>, lens: Lens)
    ensures Free(reasons, lens) <==> forall r :: r in reasons ==> !Objects(lens, r)
  {
  }

  lemma FreeWhen(found: bool, reason: Reason, lens: Lens)
    ensures Free(When(found, reason), lens) <==> (found ==> !Objects(lens, reason))
  {
    FreeOne(reason, lens);
  }

  lemma SplitInFour(a: seq<Reason>, b: seq<Reason>, d: seq<Reason>, e: seq<Reason>, lens: Lens)
    ensures Free(a + b + d + e, lens) <==> Free(a, lens) && Free(b, lens) && Free(d, lens) && Free(e, lens)
  {
    FreeConcat(a, b, lens);
    FreeConcat(a + b, d, lens);
    FreeConcat(a + b + d, e, lens);
  }

  lemma SplitInFive(a: seq<Reason>, b: seq<Reason>, d: seq<Reason>, e: seq<Reason>, f: seq<Reason>, lens: Lens)
    ensures Free(a + b + d + e + f, lens)
      <==> Free(a, lens) && Free(b, lens) && Free(d, lens) && Free(e, lens) && Free(f, lens)
  {
    SplitInFour(a, b, d, e, lens);
    FreeConcat(a + b + d + e, f, lens);
  }

  /** Four possible findings, none of them made unless the reader would not mind it. */
  lemma FourFindings(p: bool, q: bool, r: bool, s: bool, a: Reason, b: Reason, d: Reason, e: Reason, lens: Lens)
    ensures Free(When(p, a) + When(q, b) + When(r, d) + When(s, e), lens) <==>
      && (p ==> !Objects(lens, a)) && (q ==> !Objects(lens, b))
      && (r ==> !Objects(lens, d)) && (s ==> !Objects(lens, e))
  {
    SplitInFour(When(p, a), When(q, b), When(r, d), When(s, e), lens);
    FreeWhen(p, a, lens);
    FreeWhen(q, b, lens);
    FreeWhen(r, d, lens);
    FreeWhen(s, e, lens);
  }

  lemma FieldsMean(row: Row, currency: Currency, lens: Lens)
    ensures Free(FieldReasons(row, currency), lens) <==>
      && InRange(row.expected, currency) && InRange(row.paid, currency)
      && InRange(row.waived, currency) && InRange(row.remaining, currency)
  {
    FourFindings(
      !InRange(row.expected, currency), !InRange(row.paid, currency),
      !InRange(row.waived, currency), !InRange(row.remaining, currency),
      RowFieldInvalid(row.id, ExpectedField), RowFieldInvalid(row.id, PaidField),
      RowFieldInvalid(row.id, WaivedField), RowFieldInvalid(row.id, RemainingField), lens);
  }

  lemma StatusMeans(row: Row, now: Time, lens: Lens)
    ensures Free(StatusReasons(row, now), lens) <==>
      && !(row.status == Cancelled && row.remaining > 0)
      && (lens != Blocking ==> row.status == ExpectedStatus(row, now))
  {
    FreeOne(RowCancelledWithDebt(row.id), lens);
    FreeOne(RowStatusDiffers(row.id), lens);
  }

  /** The money of a row is in order and, to a reader who minds, its status is current. */
  ghost predicate EntryPasses(entry: Entry, currency: Currency, now: Time, lens: Lens) {
    EntryBalances(entry, currency) && (lens != Blocking ==> entry.row.status == ExpectedStatus(entry.row, now))
  }

  ghost predicate EntryFree(entry: Entry, currency: Currency, now: Time, lens: Lens) {
    Free(EntryReasons(entry, currency, now), lens)
  }

  lemma CurrencyMeans(entry: Entry, currency: Currency, lens: Lens)
    ensures Free(CurrencyReasons(entry, currency), lens) <==> entry.currency == Some(currency)
  {
    FreeWhen(entry.currency != Some(currency), RowCurrencyDiffers(entry.row.id), lens);
  }

  lemma BalanceMeans(row: Row, currency: Currency, lens: Lens)
    ensures Free(BalanceReasons(row, currency), lens) <==>
      && InRange(row.paid + row.waived, currency) && InRange(row.paid + row.waived + row.remaining, currency)
      && row.expected == row.paid + row.waived + row.remaining
  {
    FreeOne(RowBalanceInvalid(row.id), lens);
    FreeOne(RowDoesNotBalance(row.id), lens);
  }

  lemma SignMeans(row: Row, lens: Lens)
    ensures Free(SignReasons(row), lens) <==> row.expected > 0
  {
    FreeWhen(row.expected <= 0, RowNotPositive(row.id), lens);
  }

  lemma PartsOfEntry(entry: Entry, currency: Currency, now: Time, lens: Lens)
    ensures var safe := SafeRow(entry.row, currency);
      EntryFree(entry, currency, now, lens) <==>
        && Free(CurrencyReasons(entry, currency), lens)
        && Free(FieldReasons(entry.row, currency), lens)
        && Free(BalanceReasons(safe, currency), lens)
        && Free(SignReasons(safe), lens)
        && Free(StatusReasons(safe, now), lens)
  {
    var safe := SafeRow(entry.row, currency);
    SplitInFive(CurrencyReasons(entry, currency), FieldReasons(entry.row, currency), BalanceReasons(safe, currency),
      SignReasons(safe), StatusReasons(safe, now), lens);
  }

  lemma EntryMeans(entry: Entry, currency: Currency, now: Time, lens: Lens)
    ensures EntryFree(entry, currency, now, lens) <==> EntryPasses(entry, currency, now, lens)
  {
    var safe := SafeRow(entry.row, currency);
    PartsOfEntry(entry, currency, now, lens);
    CurrencyMeans(entry, currency, lens);
    FieldsMean(entry.row, currency, lens);
    BalanceMeans(safe, currency, lens);
    SignMeans(safe, lens);
    StatusMeans(safe, now, lens);
  }

  lemma EntriesFreeSnoc(entries: seq<Entry>, currency: Currency, now: Time, lens: Lens)
    requires entries != []
    ensures Free(EntriesReasons(entries, currency, now), lens) <==>
      && Free(EntriesReasons(entries[..|entries| - 1], currency, now), lens)
      && EntryFree(entries[|entries| - 1], currency, now, lens)
  {
    var k := |entries| - 1;
    FreeConcat(EntriesReasons(entries[..k], currency, now), EntryReasons(entries[k], currency, now), lens);
  }

  lemma {:induction false} FreeRowPasses(entries: seq<Entry>, currency: Currency, now: Time, lens: Lens, i: nat)
    requires i < |entries| && Free(EntriesReasons(entries, currency, now), lens)
    ensures EntryPasses(entries[i], currency, now, lens)
  {
    EntriesFreeSnoc(entries, currency, now, lens);
    var k := |entries| - 1;
    if i == k {
      EntryMeans(entries[k], currency, now, lens);
    } else {
      FreeRowPasses(entries[..k], currency, now, lens, i);
    }
  }

  lemma {:induction false} PassingRowsAreFree(entries: seq<Entry>, currency: Currency, now: Time, lens: Lens)
    requires forall i :: 0 <= i < |entries| ==> EntryPasses(entries[i], currency, now, lens)
    ensures Free(EntriesReasons(entries, currency, now), lens)
  {
    if entries != [] {
      var k := |entries| - 1;
      PassingRowsAreFree(entries[..k], currency, now, lens);
      EntryMeans(entries[k], currency, now, lens);
      EntriesFreeSnoc(entries, currency, now, lens);
    }
  }

  lemma OneEvidenceMeans(e: Evidence, currency: Currency, lens: Lens)
    ensures Free(OneEvidenceReasons(e, currency), lens) <==> EvidenceValid(e, currency)
  {
    if e.scheduleId.Some? {
      FreeOne(EvidenceCurrencyDiffers(e.scheduleId.value), lens);
      FreeWhen(!InRange(e.amount, currency), EvidenceInvalid(e.scheduleId.value), lens);
    }
  }

  lemma {:induction false} EvidenceMeans(evidence: seq<Evidence>, currency: Currency, lens: Lens)
    ensures Free(EvidenceReasons(evidence, currency), lens) <==>
      forall i :: 0 <= i < |evidence| ==> EvidenceValid(evidence[i], currency)
  {
    if evidence != [] {
      var k := |evidence| - 1;
      EvidenceMeans(evidence[..k], currency, lens);
      OneEvidenceMeans(evidence[k], currency, lens);
      FreeConcat(EvidenceReasons(evidence[..k], currency), OneEvidenceReasons(evidence[k], currency), lens);
      assert forall i :: 0 <= i < k ==> evidence[..k][i] == evidence[i];
    }
  }

  ghost predicate RowCovered(row: Row, evidence: seq<Evidence>, currency: Currency) {
    Evidenced(row.id, evidence, currency) == row.paid
  }

  lemma CoverageFreeSnoc(rows: seq<Row>, evidence: seq<Evidence>, currency: Currency, lens: Lens)
    requires rows != []
    ensures Free(CoverageReasons(rows, evidence, currency), lens) <==>
      && Free(CoverageReasons(rows[..|rows| - 1], evidence, currency), lens)
      && RowCovered(rows[|rows| - 1], evidence, currency)
  {
    var last := rows[|rows| - 1];
    var differs := Evidenced(last.id, evidence, currency) != last.paid;
    FreeWhen(differs, EvidenceDisagrees(last.id), lens);
    FreeConcat(
      CoverageReasons(rows[..|rows| - 1], evidence, currency), When(differs, EvidenceDisagrees(last.id)), lens);
  }

  lemma {:induction false} CoverageMeans(rows: seq<Row>, evidence: seq<Evidence>, currency: Currency, lens: Lens)
    ensures Free(CoverageReasons(rows, evidence, currency), lens) <==>
      forall i :: 0 <= i < |rows| ==> RowCovered(rows[i], evidence, currency)
  {
    if rows != [] {
      var k := |rows| - 1;
      CoverageMeans(rows[..k], evidence, currency, lens);
      CoverageFreeSnoc(rows, evidence, currency, lens);
      assert forall i :: 0 <= i < k ==> rows[..k][i] == rows[i];
    }
  }

  ghost predicate FieldsInOrder(c: Contract) {
    && InRange(c.final, c.currency) && c.final > 0
    && InRange(c.paid, c.currency) && InRange(c.waived, c.currency) && InRange(c.remaining, c.currency)
  }

  lemma ContractFieldsMean(c: Contract, lens: Lens)
    ensures Free(ContractReasons(c), lens) <==> FieldsInOrder(c)
  {
    FourFindings(
      !InRange(c.final, c.currency), !InRange(c.paid, c.currency),
      !InRange(c.waived, c.currency), !InRange(c.remaining, c.currency),
      ContractFieldInvalid(FinalField), ContractFieldInvalid(PaidField),
      ContractFieldInvalid(WaivedField), ContractFieldInvalid(RemainingField), lens);
    FreeWhen(Safe(c.final, c.currency) <= 0, ContractNotPositive, lens);
    FreeConcat(
      Invalid(c.final, c.currency, ContractFieldInvalid(FinalField))
      + Invalid(c.paid, c.currency, ContractFieldInvalid(PaidField))
      + Invalid(c.waived, c.currency, ContractFieldInvalid(WaivedField))
      + Invalid(c.remaining, c.currency, ContractFieldInvalid(RemainingField)),
      When(Safe(c.final, c.currency) <= 0, ContractNotPositive), lens);
  }

  ghost predicate TotalsAgree(c: Contract, t: Totals) {
    c.entries != [] && t.expected == Safe(c.final, c.currency) && t.paid + t.waived + t.remaining == t.expected
  }

  lemma TotalsMean(c: Contract, t: Totals, lens: Lens)
    requires t.paid >= 0 && t.waived >= 0 && t.remaining >= 0
    ensures Free(TotalReasons(c, t), lens) <==> TotalsAgree(c, t)
  {
    FourFindings(
      c.entries == [], t.expected != Safe(c.final, c.currency), !SumsFit(t, c.currency),
      SumsFit(t, c.currency) && t.expected != t.paid + t.waived + t.remaining,
      NoRows, TotalDiffers, AggregateInvalid, AggregatesDiffer, lens);
  }

  ghost predicate ParentAgrees(c: Contract, t: Totals, status: NasiyaStatus, lens: Lens) {
    lens != NotParentCache ==>
      && Safe(c.paid, c.currency) == t.paid && Safe(c.waived, c.currency) == t.waived
      && Safe(c.remaining, c.currency) == t.remaining
      && (lens == Anything ==> c.status == status)
  }

  lemma ParentMeans(c: Contract, t: Totals, status: NasiyaStatus, lens: Lens)
    ensures Free(ParentReasons(c, t, status), lens) <==> ParentAgrees(c, t, status, lens)
  {
    FourFindings(
      Safe(c.paid, c.currency) != t.paid, Safe(c.waived, c.currency) != t.waived,
      Safe(c.remaining, c.currency) != t.remaining, c.status != status,
      ParentPaidDiffers, ParentWaivedDiffers, ParentRemainingDiffers, ParentStatusDiffers, lens);
  }

  lemma SectionMeans(c: Contract, lens: Lens)
    requires SafeRows(c.entries, c.currency) == RowsOf(c.entries)
    ensures Free(EvidenceSection(c), lens) && (c.historyComplete ==> NamedEvidenceFits(c.evidence, c.currency))
      <==> (c.historyComplete ==> EvidenceAgrees(c))
  {
    var rows := RowsOf(c.entries);
    EvidenceMeans(c.evidence, c.currency, lens);
    CoverageMeans(rows, c.evidence, c.currency, lens);
    FreeConcat(EvidenceReasons(c.evidence, c.currency), CoverageReasons(rows, c.evidence, c.currency), lens);
    FitsIffNamedFits(c.evidence, c.currency);
    assert forall i :: 0 <= i < |rows| ==> rows[i] == c.entries[i].row;
  }

  lemma PartsOfAudit(c: Contract, now: Time, lens: Lens)
    ensures var t := TotalsOf(SafeRows(c.entries, c.currency));
      Free(AuditReasons(c, now), lens) <==>
        && Free(ContractReasons(c), lens)
        && Free(EntriesReasons(c.entries, c.currency, now), lens)
        && Free(TotalReasons(c, t), lens)
        && Free(EvidenceSection(c), lens)
        && Free(ParentReasons(c, t, AuditedStatus(c, now)), lens)
  {
    var t := TotalsOf(SafeRows(c.entries, c.currency));
    SplitInFive(ContractReasons(c), EntriesReasons(c.entries, c.currency, now), TotalReasons(c, t), EvidenceSection(c),
      ParentReasons(c, t, AuditedStatus(c, now)), lens);
  }

  ghost predicate RowsBalance(c: Contract) {
    forall i :: 0 <= i < |c.entries| ==> EntryBalances(c.entries[i], c.currency)
  }

  lemma BalancedRowsAreSafe(c: Contract)
    requires RowsBalance(c)
    ensures SafeRows(c.entries, c.currency) == RowsOf(c.entries)
  {
    forall i | 0 <= i < |c.entries|
      ensures SafeRow(c.entries[i].row, c.currency) == c.entries[i].row
    {
      assert EntryBalances(c.entries[i], c.currency);
    }
  }

  /** Columns of rows that balance one by one balance in total. */
  lemma ColumnsBalance(rows: seq<Row>)
    requires forall i :: 0 <= i < |rows| ==> rows[i].expected == rows[i].paid + rows[i].waived + rows[i].remaining
    ensures Sum(Expecteds(rows)) == Sum(Paids(rows)) + Sum(Waiveds(rows)) + Sum(Remainings(rows))
  {
    SumMinus(Expecteds(rows), Paids(rows));
    SumMinus(Minus(Expecteds(rows), Paids(rows)), Waiveds(rows));
    assert Minus(Minus(Expecteds(rows), Paids(rows)), Waiveds(rows)) == Remainings(rows);
  }

  lemma ColumnsAreNonNegative(entries: seq<Entry>, currency: Currency)
    ensures var t := TotalsOf(SafeRows(entries, currency));
      t.expected >= 0 && t.paid >= 0 && t.waived >= 0 && t.remaining >= 0
  {
    var rows := SafeRows(entries, currency);
    SumNonNegative(Expecteds(rows));
    SumNonNegative(Paids(rows));
    SumNonNegative(Waiveds(rows));
    SumNonNegative(Remainings(rows));
  }

  lemma BalancedTotals(c: Contract)
    requires RowsBalance(c)
    ensures var t := TotalsOf(RowsOf(c.entries)); t.expected == t.paid + t.waived + t.remaining
  {
    forall i | 0 <= i < |c.entries|
      ensures RowsOf(c.entries)[i].expected
        == RowsOf(c.entries)[i].paid + RowsOf(c.entries)[i].waived + RowsOf(c.entries)[i].remaining
    {
      assert EntryBalances(c.entries[i], c.currency);
    }
    ColumnsBalance(RowsOf(c.entries));
  }

  /** Rows the audit has nothing against have their money in order. */
  lemma FreeRowsBalance(c: Contract, now: Time, lens: Lens)
    requires Free(EntriesReasons(c.entries, c.currency, now), lens)
    ensures RowsBalance(c) && (lens != Blocking ==> RowStatusesCurrent(c, now))
  {
    forall i | 0 <= i < |c.entries|
      ensures EntryBalances(c.entries[i], c.currency)
      ensures lens != Blocking ==> c.entries[i].row.status == ExpectedStatus(c.entries[i].row, now)
    {
      FreeRowPasses(c.entries, c.currency, now, lens, i);
    }
  }

  lemma BalancedRowsAreFree(c: Contract, now: Time, lens: Lens)
    requires RowsBalance(c) && (lens != Blocking ==> RowStatusesCurrent(c, now))
    ensures Free(EntriesReasons(c.entries, c.currency, now), lens)
  {
    forall i | 0 <= i < |c.entries|
      ensures EntryPasses(c.entries[i], c.currency, now, lens)
    {
      assert EntryBalances(c.entries[i], c.currency);
    }
    PassingRowsAreFree(c.entries, c.currency, now, lens);
  }

  ghost predicate AuditFree(c: Contract, now: Time, lens: Lens) {
    Free(AuditReasons(c, now), lens)
  }

  lemma PartsMean(c: Contract, now: Time, lens: Lens)
    ensures var t := TotalsOf(SafeRows(c.entries, c.currency));
      AuditFree(c, now, lens) <==>
        && FieldsInOrder(c)
        && RowsBalance(c) && (lens != Blocking ==> RowStatusesCurrent(c, now))
        && TotalsAgree(c, t)
        && Free(EvidenceSection(c), lens)
        && ParentAgrees(c, t, AuditedStatus(c, now), lens)
  {
    var t := TotalsOf(SafeRows(c.entries, c.currency));
    PartsOfAudit(c, now, lens);
    ContractFieldsMean(c, lens);
    ColumnsAreNonNegative(c.entries, c.currency);
    TotalsMean(c, t, lens);
    ParentMeans(c, t, AuditedStatus(c, now), lens);
    if Free(EntriesReasons(c.entries, c.currency, now), lens) {
      FreeRowsBalance(c, now, lens);
    } else if RowsBalance(c) && (lens != Blocking ==> RowStatusesCurrent(c, now)) {
      BalancedRowsAreFree(c, now, lens);
    }
  }

  ghost predicate InOrder(c: Contract, now: Time, lens: Lens) {
    && EvidenceInOrder(c)
    && (lens != NotParentCache ==> CacheAgrees(c))
    && (lens != Blocking ==> RowStatusesCurrent(c, now))
    && (lens == Anything ==> ContractStatusCurrent(c, now))
  }

  lemma FreeAuditIsInOrder(c: Contract, now: Time, lens: Lens)
    requires RowsBalance(c) && Computable(c) && AuditFree(c, now, lens)
    ensures InOrder(c, now, lens)
  {
    PartsMean(c, now, lens);
    BalancedRowsAreSafe(c);
    SectionMeans(c, lens);
  }

  lemma OrderIsFree(c: Contract, now: Time, lens: Lens)
    requires RowsBalance(c) && InOrder(c, now, lens)
    ensures Computable(c) && AuditFree(c, now, lens)
  {
    BalancedRowsAreSafe(c);
    BalancedTotals(c);
    ColumnsAreNonNegative(c.entries, c.currency);
    SectionMeans(c, lens);
    FirstRowCounts(c);
    PartsMean(c, now, lens);
  }

  lemma FirstRowCounts(c: Contract)
    requires RowsBalance(c) && c.entries != []
    ensures Sum(Expecteds(RowsOf(c.entries))) > 0
  {
    assert EntryBalances(c.entries[0], c.currency);
    var expecteds := Expecteds(RowsOf(c.entries));
    forall i | 0 <= i < |expecteds| ensures expecteds[i] >= 0 {
      assert EntryBalances(c.entries[i], c.currency);
    }
    SumNonNegative(expecteds);
    assert expecteds[0] > 0;
  }

  /** What it means that an audit finishes and its reader finds nothing to object to. */
  lemma AuditMeans(c: Contract, now: Time, lens: Lens)
    ensures Computable(c) && AuditFree(c, now, lens) <==> InOrder(c, now, lens)
  {
    if InOrder(c, now, lens) {
      OrderIsFree(c, now, lens);
    } else if Computable(c) && AuditFree(c, now, lens) {
      PartsMean(c, now, lens);
      FreeAuditIsInOrder(c, now, lens);
    }
  }

  // ---------------------------------------------------------------- the verdicts

  lemma FreeOfBlocking(reasons: seq<Reason>)
    ensures Free(reasons, Blocking) <==> !HasBlockingReasons(reasons)
  {
    FreeMeansNothingObjectedTo(reasons, Blocking);
    if r :| r in reasons && Objects(Blocking, r) {
      assert Blocks(r);
    }
  }

  lemma FreeOfAnything(reasons: seq<Reason>)
    ensures Free(reasons, Anything) <==> reasons == []
  {
    if reasons != [] {
      assert Objects(Anything, reasons[0]);
    }
  }

  lemma FreeOfEvidenceFindings(reasons: seq<Reason>)
    ensures Free(reasons, NotParentCache) <==> forall r :: r in reasons ==> ConcernsParent(r)
  {
    FreeMeansNothingObjectedTo(reasons, NotParentCache);
    if r :| r in reasons && Objects(NotParentCache, r) {
      assert !ConcernsParent(r);
    }
  }

  /**
   * A contract may be returned, as far as its ledger is concerned, exactly when its money balances;
   * the hour at which the audit runs does not matter.
   */
  lemma NothingBlocksIffMoneyBalances(c: Contract, now: Time)
    ensures Reconcile(c, now).Some? && !HasBlockingReasons(Reconcile(c, now).value.reasons) <==> MoneyBalances(c)
  {
    AuditMeans(c, now, Blocking);
    FreeOfBlocking(AuditReasons(c, now));
  }

  /** A contract is healthy exactly when its money balances and every stored status is the current one. */
  lemma HealthyIffAllAgrees(c: Contract, now: Time)
    ensures Reconcile(c, now).Some? && Reconcile(c, now).value.health == Healthy
      <==> MoneyBalances(c) && RowStatusesCurrent(c, now) && ContractStatusCurrent(c, now)
  {
    AuditMeans(c, now, Anything);
    FreeOfAnything(AuditReasons(c, now));
  }

  /** A repair is offered only for a live contract whose rows and evidence are all in order. */
  lemma RepairableMeansEvidenceInOrder(c: Contract, now: Time)
    requires Reconcile(c, now).Some? && Reconcile(c, now).value.health == RepairableParentCache
    ensures c.status != NasiyaCancelled && InOrder(c, now, NotParentCache)
    ensures !CacheAgrees(c) || !ContractStatusCurrent(c, now)
  {
    FreeOfEvidenceFindings(AuditReasons(c, now));
    AuditMeans(c, now, NotParentCache);
    AuditMeans(c, now, Anything);
    FreeOfAnything(AuditReasons(c, now));
  }

  function Repaired(c: Contract, repair: Repair): Contract {
    c.(paid := repair.paid, waived := repair.waived, remaining := repair.remaining, status := repair.status)
  }

  /** Writing a proposed repair to the parent makes the next audit healthy; rows and evidence are not touched. */
  lemma RepairHeals(c: Contract, now: Time)
    requires Reconcile(c, now).Some? && Reconcile(c, now).value.health == RepairableParentCache
    ensures Reconcile(c, now).value.repair.Some?
    ensures var healed := Repaired(c, Reconcile(c, now).value.repair.value);
      && healed.entries == c.entries && healed.evidence == c.evidence && healed.final == c.final
      && Reconcile(healed, now).Some?
      && Reconcile(healed, now).value.health == Healthy
      && Reconcile(healed, now).value.parentInSync
  {
    var healed := Repaired(c, Reconcile(c, now).value.repair.value);
    RepairableMeansEvidenceInOrder(c, now);
    BalancedRowsAreSafe(c);
    RepairIsInOrder(c, now);
    HealthyIffAllAgrees(healed, now);
    RepairIsInSync(c, now);
  }

  lemma RepairIsInOrder(c: Contract, now: Time)
    requires Reconcile(c, now).Some? && Reconcile(c, now).value.health == RepairableParentCache
    requires InOrder(c, now, NotParentCache) && SafeRows(c.entries, c.currency) == RowsOf(c.entries)
    ensures MoneyBalances(Repaired(c, Reconcile(c, now).value.repair.value))
    ensures RowStatusesCurrent(Repaired(c, Reconcile(c, now).value.repair.value), now)
    ensures ContractStatusCurrent(Repaired(c, Reconcile(c, now).value.repair.value), now)
  {
  }

  lemma RepairIsInSync(c: Contract, now: Time)
    requires Reconcile(c, now).Some? && Reconcile(c, now).value.health == RepairableParentCache
    requires Reconcile(Repaired(c, Reconcile(c, now).value.repair.value), now).Some?
    requires c.status != NasiyaCancelled
    ensures Reconcile(Repaired(c, Reconcile(c, now).value.repair.value), now).value.parentInSync
  {
  }

  /** Unless quarantined or cancelled, a contract is completed exactly when its rows owe nothing. */
  lemma CompletedIffPaidOff(c: Contract, now: Time)
    requires Reconcile(c, now).Some? && Reconcile(c, now).value.health != Quarantined
    requires c.status != NasiyaCancelled
    ensures Reconcile(c, now).value.status == NasiyaCompleted <==> Reconcile(c, now).value.remaining == 0
  {
    HealthyIffAllAgrees(c, now);
    if Reconcile(c, now).value.health == RepairableParentCache {
      RepairableMeansEvidenceInOrder(c, now);
    }
    BalancedRowsAreSafe(c);
    forall i | 0 <= i < |c.entries| && RowsOf(c.entries)[i].status == Cancelled
      ensures RowsOf(c.entries)[i].remaining == 0
    {
      assert EntryBalances(c.entries[i], c.currency);
    }
    CompletedIffNothingRemains(c.status, RowsOf(c.entries), now);
  }

  // ---------------------------------------------------------------- auditing rows that are in order

  function WithCache(c: Contract, t: Totals): Contract {
    c.(paid := t.paid, waived := t.waived, remaining := t.remaining)
  }

  lemma SoundContractIsComputable(c: Contract, now: Time)
    requires EvidenceInOrder(c)
    ensures Computable(c)
  {
    var t := TotalsOf(RowsOf(c.entries));
    BalancedTotals(c);
    BalancedRowsAreSafe(c);
    ColumnsAreNonNegative(c.entries, c.currency);
    assert MoneyBalances(WithCache(c, t));
    AuditMeans(WithCache(c, t), now, Blocking);
  }

  /**
   * The status an audit reports is true of the rows and no other is: completed when none owes anything,
   * overdue when some row owes something and the day it is due has passed, active otherwise.
   */
  lemma AuditedStatusIsTrue(c: Contract, status: NasiyaStatus, now: Time)
    requires RowsBalance(c) && Reconcile(c, now).Some? && c.status != NasiyaCancelled
    ensures Reconcile(c, now).value.status == status
      <==> status != NasiyaCancelled && StatusIsTrue(status, RowsOf(c.entries), now)
  {
    BalancedRowsAreSafe(c);
    var rows := RowsOf(c.entries);
    forall i | 0 <= i < |rows|
      ensures rows[i].remaining >= 0 && (rows[i].status == Cancelled ==> rows[i].remaining == 0)
    {
      assert EntryBalances(c.entries[i], c.currency);
    }
    DerivedIffTrue(c.status, rows, status, now);
  }

  /** What each status says of a row; a deferral stands only with its date. */
  ghost predicate RowStatusIsTrue(status: ScheduleStatus, row: Row, now: Time) {
    var open, late := row.remaining > 0, DayHasPassed(row, now);
    match status
    case Cancelled => row.status == Cancelled && !open
    case Paid => !open && row.waived == 0
    case Settled => !open && row.waived > 0
    case Overdue => open && late
    case Deferred => open && !late && row.status == Deferred && row.delayedUntil.Some?
    case Partial => open && !late && row.paid > 0 && !(row.status == Deferred && row.delayedUntil.Some?)
    case Pending => open && !late && row.paid == 0 && !(row.status == Deferred && row.delayedUntil.Some?)
  }

  lemma StatusCurrentIffTrue(entry: Entry, currency: Currency, now: Time)
    requires EntryBalances(entry, currency)
    ensures entry.row.status == ExpectedStatus(entry.row, now) <==> RowStatusIsTrue(entry.row.status, entry.row, now)
  {
    PastDueIffDayHasPassed(entry.row, now);
  }

  /**
   * The status an audit expects of a row is also the one that is shown, with one exception: a deferred
   * row that is partly paid is DEFERRED to the audit and PARTIAL on the screen.
   */
  lemma CurrentStatusIsShownIff(entry: Entry, currency: Currency, now: Time)
    requires EntryBalances(entry, currency) && entry.row.status == ExpectedStatus(entry.row, now)
    ensures DeriveRow(entry.row, now).status == entry.row.status
      <==> !(entry.row.status == Deferred && entry.row.paid > 0)
  {
  }

  /** A contract is healthy exactly when its money balances and every status stored with it is true. */
  lemma HealthyIffEveryStatusIsTrue(c: Contract, now: Time)
    ensures Reconcile(c, now).Some? && Reconcile(c, now).value.health == Healthy
      <==> && MoneyBalances(c) && StatusIsTrue(c.status, RowsOf(c.entries), now)
           && forall i :: 0 <= i < |c.entries| ==> RowStatusIsTrue(c.entries[i].row.status, c.entries[i].row, now)
  {
    HealthyIffAllAgrees(c, now);
    if MoneyBalances(c) {
      forall i | 0 <= i < |c.entries|
        ensures c.entries[i].row.status == ExpectedStatus(c.entries[i].row, now)
          <==> RowStatusIsTrue(c.entries[i].row.status, c.entries[i].row, now)
      {
        StatusCurrentIffTrue(c.entries[i], c.currency, now);
      }
      if c.status != NasiyaCancelled {
        SoundContractIsComputable(c, now);
        BalancedRowsAreSafe(c);
        AuditedStatusIsTrue(c, c.status, now);
      }
    }
  }

  /** Sound rows and evidence are quarantined only for a stale row status -- and then always. */
  lemma QuarantinedIffStatusStale(c: Contract, now: Time)
    requires EvidenceInOrder(c) && c.status != NasiyaCancelled
    ensures Reconcile(c, now).Some?
    ensures Reconcile(c, now).value.health == Quarantined <==> !RowStatusesCurrent(c, now)
  {
    SoundContractIsComputable(c, now);
    var audit := Reconcile(c, now).value;
    if audit.health != Quarantined {
      HealthyIffAllAgrees(c, now);
      if audit.health == RepairableParentCache {
        RepairableMeansEvidenceInOrder(c, now);
      }
    } else if RowStatusesCurrent(c, now) {
      AuditMeans(c, now, NotParentCache);
      FreeOfEvidenceFindings(AuditReasons(c, now));
      BalancedRowsAreSafe(c);
      HealthyIffAllAgrees(c, now);
    }
  }

  /** What the audit of sound rows reports: the totals of the rows, and completion exactly when they owe nothing. */
  lemma AuditOfSoundContract(c: Contract, now: Time)
    requires EvidenceInOrder(c) && c.status != NasiyaCancelled
    ensures Reconcile(c, now).Some?
    ensures var audit := Reconcile(c, now).value;
      && audit.paid == Sum(Paids(RowsOf(c.entries)))
      && audit.waived == Sum(Waiveds(RowsOf(c.entries)))
      && audit.remaining == Sum(Remainings(RowsOf(c.entries)))
      && (audit.status == NasiyaCompleted <==> audit.remaining == 0)
      && audit.status != NasiyaCancelled
      && (audit.health == Quarantined <==> !RowStatusesCurrent(c, now))
  {
    QuarantinedIffStatusStale(c, now);
    BalancedRowsAreSafe(c);
    forall i | 0 <= i < |c.entries| && RowsOf(c.entries)[i].status == Cancelled
      ensures RowsOf(c.entries)[i].remaining == 0
    {
      assert EntryBalances(c.entries[i], c.currency);
    }
    CompletedIffNothingRemains(c.status, RowsOf(c.entries), now);
  }
}
