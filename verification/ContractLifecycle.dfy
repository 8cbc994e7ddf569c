/** A Nasiya contract as its routes change it: payments, settlement, deferral and the nightly overdue pass. */
module ContractLifecycle {
  import opened Results
  import opened UzsReporting
  import opened Currency
  import opened PaymentComponents
  import opened Schedules
  import opened PaymentAllocation
  import opened NasiyaLedger
  import Settlement

  datatype State = State(
    currency: Currency,
    reconstruction: Settlement.Reconstruction,
    final: int,
    rows: seq<Row>,
    paid: int,
    waived: int,
    remaining: int,
    status: NasiyaStatus,
    evidence: seq<Evidence>,
    legacyInterest: int)

  /** The so'm values of a settlement: of its cash, of its waiver, and of its waiver at the rate of the sale. */
  datatype SomValues = SomValues(cash: int, waiver: int, legacyWaiver: int)

  /** Clocks are read where the routes read them: once for the first audit and once for the writes. */
  datatype Command =
    | Pay(selected: nat, amount: int, uzs: int, checkedAt: Time, now: Time)
    | Settle(mode: Settlement.Mode, som: SomValues, checkedAt: Time, date: Time)
    | Defer(selected: nat, until: Time, checkedAt: Time, now: Time)
    | MarkOverdue(selected: nat, now: Time)

  function Entries(rows: seq<Row>, currency: Currency): (entries: seq<Entry>)
    ensures |entries| == |rows|
  {
    seq(|rows|, i requires 0 <= i < |rows| => Entry(rows[i], Some(currency)))
  }

  /** The state as the audit sees it; payment evidence is complete for reconstructed contracts. */
  function AsContract(s: State): Contract {
    Contract(s.status, s.currency, s.final, s.paid, s.waived, s.remaining, Entries(s.rows, s.currency),
      s.reconstruction == Settlement.ReconstructionComplete, s.evidence)
  }

  function AuditAt(s: State, now: Time): Option<Audit> {
    Reconcile(AsContract(s), now)
  }

  /** The first gate of every route: an audit that finishes, is not quarantined and shows open debt. */
  predicate Admits(s: State, checkedAt: Time) {
    && s.status != NasiyaCancelled
    && AuditAt(s, checkedAt).Some?
    && AuditAt(s, checkedAt).value.health != Quarantined
    && AuditAt(s, checkedAt).value.status != NasiyaCompleted
  }

  /** The last gate: the written rows are audited again, and the parent cache is taken from that audit. */
  function Committed(s: State, now: Time): Option<State> {
    var audit := AuditAt(s, now);
    if audit.None? || audit.value.health == Quarantined then None
    else Some(s.(paid := audit.value.paid, remaining := audit.value.remaining, status := audit.value.status))
  }

  predicate OwesRow(s: State, selected: nat) {
    exists i | 0 <= i < |s.rows| :: s.rows[i].id == selected && s.rows[i].remaining > 0
  }

  predicate TracksComponents(s: State) {
    s.reconstruction == Settlement.ReconstructionComplete || s.reconstruction == Settlement.ReconstructionPartial
  }

  // ---------------------------------------------------------------- a payment

  predicate DueBefore(row: Row, other: Row) {
    EffectiveDue(row) < EffectiveDue(other) || (EffectiveDue(row) == EffectiveDue(other) && row.id <= other.id)
  }

  /** Rows are numbered by month, so equal due dates fall back on the row number. */
  function InsertByDue(row: Row, sorted: seq<Row>): seq<Row> {
    if sorted == [] || DueBefore(row, sorted[0]) then [row] + sorted
    else [sorted[0]] + InsertByDue(row, sorted[1..])
  }

  /** Open rows other than the selected one, earliest due first. */
  function OthersByDue(rows: seq<Row>, selected: nat): seq<Row> {
    if rows == [] then []
    else if rows[0].remaining <= 0 || rows[0].id == selected then OthersByDue(rows[1..], selected)
    else InsertByDue(rows[0], OthersByDue(rows[1..], selected))
  }

  function SelectedRows(rows: seq<Row>, selected: nat): seq<Row> {
    if rows == [] then []
    else (if rows[0].remaining > 0 && rows[0].id == selected then [rows[0]] else []) + SelectedRows(rows[1..], selected)
  }

  /** The row the customer chose is filled first, then the rest by due date. */
  function PaymentOrder(rows: seq<Row>, selected: nat): seq<Row> {
    SelectedRows(rows, selected) + OthersByDue(rows, selected)
  }

  function FindUpdate(id: nat, updates: seq<Update>): Option<Update> {
    if updates == [] then None
    else if updates[0].scheduleId == id then Some(updates[0])
    else FindUpdate(id, updates[1..])
  }

  /** A row with its update stored; None where the component split throws. */
  function RecordRow(row: Row, updates: seq<Update>, track: bool): Option<Row> {
    match FindUpdate(row.id, updates)
    case None => Some(row)
    case Some(u) =>
      if !track then Some(PayRow(row, u))
      else
        match PayComponents(row.budget, row.recovered, u.appliedContract)
        case Err(_) => None
        case Ok(recovery) => Some(PayRow(row, u).(recovered := recovery.paidAfter))
  }

  predicate CanRecord(rows: seq<Row>, updates: seq<Update>, track: bool) {
    forall i | 0 <= i < |rows| :: RecordRow(rows[i], updates, track).Some?
  }

  function RecordRows(rows: seq<Row>, updates: seq<Update>, track: bool): (recorded: seq<Row>)
    requires CanRecord(rows, updates, track)
    ensures |recorded| == |rows|
  {
    seq(|rows|, i requires 0 <= i < |rows| => RecordRow(rows[i], updates, track).value)
  }

  function PaymentEvidence(updates: seq<Update>, currency: Currency): (evidence: seq<Evidence>)
    ensures |evidence| == |updates|
  {
    seq(|updates|, i requires 0 <= i < |updates| =>
      Evidence(Some(updates[i].scheduleId), Some(currency), updates[i].appliedContract))
  }

  /** The rows and evidence as a payment writes them, before the closing audit. */
  function Poured(s: State, updates: seq<Update>): State
    requires CanRecord(s.rows, updates, TracksComponents(s))
  {
    s.(rows := RecordRows(s.rows, updates, TracksComponents(s)),
       evidence := if TracksComponents(s) then s.evidence + PaymentEvidence(updates, s.currency) else s.evidence)
  }

  function UnitsPerMajor(currency: Currency): (units: int)
    ensures units == 1 || units == 100
  {
    if currency == USD then 100 else 1
  }

  /** The receipt is spread over the instalments in so'm, and every share over its purposes where those are tracked. */
  predicate CanReport(s: State, updates: seq<Update>, uzs: int) {
    var shares := AllocateUzs(uzs, Applied(updates), UnitsPerMajor(s.currency));
    && shares.Ok?
    && (TracksComponents(s) ==>
          forall i | 0 <= i < |updates| :: Reportable(shares.value[i], updates[i].appliedContract))
  }

  function PayStep(s: State, selected: nat, amount: int, uzs: int, checkedAt: Time, now: Time): Option<State> {
    if !Admits(s, checkedAt) || !OwesRow(s, selected) then None
    else if amount > AuditAt(s, checkedAt).value.remaining || amount <= 0 || uzs <= 0 then None
    else
      var updates := Updates(PaymentOrder(s.rows, selected), uzs, amount, now);
      if !CanRecord(s.rows, updates, TracksComponents(s)) || !CanReport(s, updates, uzs) then None
      else Committed(Poured(s, updates), now)
  }

  // ---------------------------------------------------------------- settlement

  function ParentOf(s: State): Settlement.Parent {
    Settlement.Parent(s.paid, s.waived, s.remaining)
  }

  /** A settlement closes every open row with the cash and the waiver quoted for it. */
  function SettleRow(row: Row, mode: Settlement.Mode): Row {
    var quote := Settlement.QuoteRow(row, mode);
    if row.remaining <= 0 then row
    else
      row.(paid := row.paid + quote.cash, waived := row.waived + quote.interestWaived, remaining := 0,
           status := quote.status, recovered := if quote.paidAfter.Some? then quote.paidAfter.value else row.recovered)
  }

  function SettleRows(rows: seq<Row>, mode: Settlement.Mode): (settled: seq<Row>)
    ensures |settled| == |rows|
  {
    seq(|rows|, i requires 0 <= i < |rows| => SettleRow(rows[i], mode))
  }

  predicate BringsCash(row: Row, mode: Settlement.Mode) {
    row.remaining > 0 && Settlement.QuoteRow(row, mode).cash > 0
  }

  /** Where evidence must stay complete, cash on a row needs its components. */
  predicate CashIsSplit(s: State, mode: Settlement.Mode) {
    s.reconstruction == Settlement.ReconstructionComplete ==>
      forall i | 0 <= i < |s.rows| :: BringsCash(s.rows[i], mode) ==>
        Settlement.QuoteRow(s.rows[i], mode).cashComponents.Some?
  }

  function SettlementEvidence(rows: seq<Row>, mode: Settlement.Mode, currency: Currency): seq<Evidence> {
    if rows == [] then []
    else
      var quote := Settlement.QuoteRow(rows[0], mode);
      (if BringsCash(rows[0], mode) && quote.cashComponents.Some?
       then [Evidence(Some(rows[0].id), Some(currency), quote.cash)]
       else [])
      + SettlementEvidence(rows[1..], mode, currency)
  }

  /** The contract as a quote closes it. */
  function Closed(s: State, mode: Settlement.Mode, cash: int, waiver: int): State {
    s.(rows := SettleRows(s.rows, mode),
       evidence := s.evidence + SettlementEvidence(s.rows, mode, s.currency),
       paid := s.paid + cash,
       waived := s.waived + waiver,
       remaining := 0,
       status := NasiyaCompleted)
  }

  function CloseByQuote(s: State, mode: Settlement.Mode): Option<State> {
    match Settlement.Settle(s.rows, ParentOf(s), mode, s.reconstruction)
    case Err(_) => None
    case Ok(quote) =>
      if (mode == Settlement.WaiveRemainingProfit && quote.reasons != {}) || !CashIsSplit(s, mode) then None
      else Some(Closed(s, mode, quote.cashToReceive, quote.interestToWaive))
  }

  /** The rows a settlement brings cash on, and those it waives interest of. */
  function CashRows(rows: seq<Row>, mode: Settlement.Mode): seq<Row> {
    if rows == [] then []
    else (if BringsCash(rows[0], mode) then [rows[0]] else []) + CashRows(rows[1..], mode)
  }

  function WaivedRows(rows: seq<Row>, mode: Settlement.Mode): seq<Row> {
    if rows == [] then []
    else
      (if rows[0].remaining > 0 && Settlement.QuoteRow(rows[0], mode).interestWaived > 0 then [rows[0]] else [])
      + WaivedRows(rows[1..], mode)
  }

  function CashOf(rows: seq<Row>, mode: Settlement.Mode): (amounts: seq<int>)
    ensures |amounts| == |rows|
  {
    seq(|rows|, i requires 0 <= i < |rows| => Settlement.QuoteRow(rows[i], mode).cash)
  }

  function WaiversOf(rows: seq<Row>, mode: Settlement.Mode): (amounts: seq<int>)
    ensures |amounts| == |rows|
  {
    seq(|rows|, i requires 0 <= i < |rows| => Settlement.QuoteRow(rows[i], mode).interestWaived)
  }

  /** The cash is spread over its rows in so'm, and over the purposes of every row that splits its cash. */
  predicate CashIsReported(rows: seq<Row>, mode: Settlement.Mode, currency: Currency, uzs: int) {
    rows == [] ||
    var shares := AllocateUzs(uzs, CashOf(rows, mode), UnitsPerMajor(currency));
    && shares.Ok?
    && forall i | 0 <= i < |rows| :: Settlement.QuoteRow(rows[i], mode).cashComponents.Some? ==>
         Reportable(shares.value[i], CashOf(rows, mode)[i])
  }

  /** The waiver is spread in so'm twice; the share at the rate of the sale must fit the legacy mirror of its row. */
  predicate WaiverIsReported(rows: seq<Row>, mode: Settlement.Mode, currency: Currency, som: SomValues) {
    rows == [] ||
    var legacy := AllocateUzs(som.legacyWaiver, WaiversOf(rows, mode), UnitsPerMajor(currency));
    && AllocateUzs(som.waiver, WaiversOf(rows, mode), UnitsPerMajor(currency)).Ok?
    && legacy.Ok?
    && forall i | 0 <= i < |rows| :: 0 <= legacy.value[i] <= rows[i].legacyExpected
  }

  /** Legacy interest was never waived before: only a settlement waives any, and there is no second one. */
  predicate IsReported(s: State, mode: Settlement.Mode, som: SomValues) {
    && CashIsReported(CashRows(s.rows, mode), mode, s.currency, som.cash)
    && WaiverIsReported(WaivedRows(s.rows, mode), mode, s.currency, som)
    && 0 <= som.legacyWaiver <= s.legacyInterest
  }

  predicate ConfirmsClosing(closed: State, date: Time) {
    && AuditAt(closed, date).Some?
    && AuditAt(closed, date).value.health == Healthy
    && AuditAt(closed, date).value.status == NasiyaCompleted
  }

  function SettleStep(s: State, mode: Settlement.Mode, som: SomValues, checkedAt: Time, date: Time): Option<State> {
    if !Admits(s, checkedAt) || AuditAt(s, checkedAt).value.remaining == 0 then None
    else
      var closed := CloseByQuote(s, mode);
      if closed.None? || !IsReported(s, mode, som) || !ConfirmsClosing(closed.value, date) then None else closed
  }

  // ---------------------------------------------------------------- deferral and the overdue pass

  function DeferRows(rows: seq<Row>, selected: nat, until: Time): (deferred: seq<Row>)
    ensures |deferred| == |rows|
  {
    seq(|rows|, i requires 0 <= i < |rows| =>
      if rows[i].id == selected then rows[i].(status := Deferred, delayedUntil := Some(until)) else rows[i])
  }

  predicate DefersLate(s: State, selected: nat, until: Time) {
    forall i | 0 <= i < |s.rows| ::
      s.rows[i].id == selected ==> s.rows[i].status != Cancelled && until > EffectiveDue(s.rows[i])
  }

  function DeferStep(s: State, selected: nat, until: Time, checkedAt: Time, now: Time): Option<State> {
    if !Admits(s, checkedAt) || !OwesRow(s, selected) || !DefersLate(s, selected, until) then None
    else Committed(s.(rows := DeferRows(s.rows, selected, until)), now)
  }

  predicate IsLateRow(row: Row, selected: nat, now: Time) {
    row.id == selected && row.status != Cancelled && row.remaining > 0 && PastDue(row, now)
  }

  function LateRows(rows: seq<Row>, selected: nat, now: Time): (late: seq<Row>)
    ensures |late| == |rows|
  {
    seq(|rows|, i requires 0 <= i < |rows| =>
      if IsLateRow(rows[i], selected, now) then rows[i].(status := Overdue) else rows[i])
  }

  /** The nightly pass names one row; it writes only if the row is late and still owes something. */
  function OverdueStep(s: State, selected: nat, now: Time): Option<State> {
    if s.status == NasiyaCancelled || !exists i | 0 <= i < |s.rows| :: IsLateRow(s.rows[i], selected, now) then None
    else Some(s.(rows := LateRows(s.rows, selected, now), status := NasiyaOverdue))
  }

  // ---------------------------------------------------------------- runs

  /** None where the route refuses the command. */
  function Step(s: State, command: Command): Option<State> {
    match command
    case Pay(selected, amount, uzs, checkedAt, now) => PayStep(s, selected, amount, uzs, checkedAt, now)
    case Settle(mode, som, checkedAt, date) => SettleStep(s, mode, som, checkedAt, date)
    case Defer(selected, until, checkedAt, now) => DeferStep(s, selected, until, checkedAt, now)
    case MarkOverdue(selected, now) => OverdueStep(s, selected, now)
  }

  /** A refused command rolls back and leaves the contract as it was. */
  function After(s: State, command: Command): State {
    if Step(s, command).Some? then Step(s, command).value else s
  }

  function Run(s: State, commands: seq<Command>): State {
    if commands == [] then s else After(Run(s, commands[..|commands| - 1]), commands[|commands| - 1])
  }
}
