/** From the frozen plan of a sale to the last unit collected on it. */
module ContractLifetime {
  import opened Results
  import opened Sequences
  import opened Currency
  import opened ProfitAllocation
  import opened PaymentComponents
  import opened Schedules
  import opened PaymentAllocation
  import opened NasiyaLedger
  import opened ContractLifecycle
  import opened ContractInvariant
  import opened ContractRuns
  import Settlement
  import ScheduleGeneration

  // ---------------------------------------------------------------- opening a contract

  function OpenRow(id: nat, due: Time, legacy: int, expected: int, budget: Components): Row {
    Row(id, due, None, legacy, 0, expected, 0, 0, expected, Pending, budget, NOTHING)
  }

  function OpenRows(dues: seq<Time>, legacy: seq<int>, expected: seq<int>, budgets: seq<Components>): (rows: seq<Row>)
    requires |dues| == |legacy| == |budgets| == |expected|
    ensures |rows| == |expected|
  {
    seq(|expected|, i requires 0 <= i < |expected| => OpenRow(i, dues[i], legacy[i], expected[i], budgets[i]))
  }

  function Open(
    currency: Currency, reconstruction: Settlement.Reconstruction, rows: seq<Row>, expected: seq<int>,
    evidence: seq<Evidence>, legacyInterest: int): State
  {
    State(currency, reconstruction, Sum(expected), rows, 0, 0, Sum(expected), NasiyaActive, evidence, legacyInterest)
  }

  function Budgets(plan: ComponentPlan): (budgets: seq<Components>)
    ensures |budgets| == |plan.schedules|
  {
    seq(|plan.schedules|, i requires 0 <= i < |plan.schedules| => plan.schedules[i].components)
  }

  function DownPaymentEvidence(down: int, currency: Currency): seq<Evidence> {
    if down > 0 then [Evidence(None, Some(currency), down)] else []
  }

  /** A contract sold by the program: planned components, complete evidence. */
  function Sold(
    currency: Currency, plan: ComponentPlan, down: int, dues: seq<Time>, legacy: seq<int>, expected: seq<int>,
    legacyInterest: int): State
    requires |dues| == |legacy| == |plan.schedules| == |expected|
  {
    Open(currency, Settlement.ReconstructionComplete, OpenRows(dues, legacy, expected, Budgets(plan)), expected,
      DownPaymentEvidence(down, currency), legacyInterest)
  }

  /** A contract taken over from elsewhere: no components, no evidence. */
  function Imported(
    currency: Currency, dues: seq<Time>, legacy: seq<int>, expected: seq<int>, legacyInterest: int): State
    requires |dues| == |legacy| == |expected|
  {
    Open(currency, Settlement.Unreconstructable,
      OpenRows(dues, legacy, expected, NoBudgets(expected)), expected, [], legacyInterest)
  }

  function NoBudgets(expected: seq<int>): (budgets: seq<Components>)
    ensures |budgets| == |expected|
  {
    seq(|expected|, i => NOTHING)
  }

  ghost predicate PositiveWithin(expected: seq<int>, currency: Currency) {
    && expected != [] && Sum(expected) <= MaxUnits(currency)
    && forall i :: 0 <= i < |expected| ==> expected[i] > 0
  }

  lemma OpenColumns(dues: seq<Time>, legacy: seq<int>, expected: seq<int>, budgets: seq<Components>)
    requires |dues| == |legacy| == |budgets| == |expected|
    ensures var rows := OpenRows(dues, legacy, expected, budgets);
      && Expecteds(rows) == expected == Remainings(rows)
      && Sum(Paids(rows)) == 0 && Sum(Waiveds(rows)) == 0
  {
    var rows := OpenRows(dues, legacy, expected, budgets);
    assert Expecteds(rows) == expected;
    assert Remainings(rows) == expected;
    SumOfZeros(Paids(rows));
    SumOfZeros(Waiveds(rows));
  }

  lemma OpenRowsAreSound(
    dues: seq<Time>, legacy: seq<int>, expected: seq<int>, budgets: seq<Components>, currency: Currency)
    requires |dues| == |legacy| == |budgets| == |expected| && PositiveWithin(expected, currency)
    ensures var rows := OpenRows(dues, legacy, expected, budgets);
      && DistinctIds(rows) && WaiverCloses(rows)
      && forall i :: 0 <= i < |rows| ==> RowSound(rows[i], currency)
  {
    var rows := OpenRows(dues, legacy, expected, budgets);
    SumNonNegative(expected);
    forall i | 0 <= i < |rows| ensures RowSound(rows[i], currency) {
      assert rows[i] == OpenRow(i, dues[i], legacy[i], expected[i], budgets[i]);
    }
  }

  lemma NoPaymentsYet(rows: seq<Row>, evidence: seq<Evidence>, currency: Currency)
    requires |evidence| <= 1 && (evidence != [] ==> evidence[0].scheduleId.None?)
    requires forall i :: 0 <= i < |rows| ==> rows[i].paid == 0
    ensures EvidenceSound(rows, evidence, currency)
  {
    forall id: nat ensures Evidenced(id, evidence, currency) == 0 {
      if evidence != [] {
        assert evidence[..0] == [];
      }
    }
  }

  ghost predicate BudgetsFit(budgets: seq<Components>, expected: seq<int>) {
    && |budgets| == |expected|
    && forall i :: 0 <= i < |expected| ==> budgets[i].Total() == expected[i] && Recoverable(budgets[i])
  }

  ghost predicate AllComponentsSound(rows: seq<Row>) {
    forall i :: 0 <= i < |rows| ==> ComponentsSound(rows[i])
  }

  lemma OpenComponentsAreSound(dues: seq<Time>, legacy: seq<int>, expected: seq<int>, budgets: seq<Components>)
    requires |dues| == |legacy| == |expected| && BudgetsFit(budgets, expected)
    requires forall i :: 0 <= i < |expected| ==> expected[i] > 0
    ensures AllComponentsSound(OpenRows(dues, legacy, expected, budgets))
  {
    forall i | 0 <= i < |expected|
      ensures ComponentsSound(OpenRow(i, dues[i], legacy[i], expected[i], budgets[i]))
    {
      PaidAtEnds(budgets[i], 0);
    }
  }

  /** Rows as a contract opens with them: due in full, nothing paid, nothing waived. */
  ghost predicate FreshRows(rows: seq<Row>, expected: seq<int>, currency: Currency) {
    && DistinctIds(rows) && WaiverCloses(rows)
    && (forall i :: 0 <= i < |rows| ==> RowSound(rows[i], currency))
    && Expecteds(rows) == expected == Remainings(rows)
    && Sum(Paids(rows)) == 0 && Sum(Waiveds(rows)) == 0
  }

  lemma FreshRowsAreInOrder(s: State, expected: seq<int>)
    requires FreshRows(s.rows, expected, s.currency) && s.rows != []
    requires s == Open(s.currency, s.reconstruction, s.rows, expected, s.evidence, s.legacyInterest)
    requires Sum(expected) <= MaxUnits(s.currency)
    requires Complete(s) ==> AllComponentsSound(s.rows) && EvidenceSound(s.rows, s.evidence, s.currency)
    ensures Inv(s)
  {
  }

  lemma OpenEvidenceIsSound(
    dues: seq<Time>, legacy: seq<int>, expected: seq<int>, budgets: seq<Components>, evidence: seq<Evidence>,
    currency: Currency)
    requires |dues| == |legacy| == |expected| == |budgets|
    requires |evidence| <= 1 && (evidence != [] ==> evidence[0].scheduleId.None?)
    ensures EvidenceSound(OpenRows(dues, legacy, expected, budgets), evidence, currency)
  {
    NoPaymentsYet(OpenRows(dues, legacy, expected, budgets), evidence, currency);
  }

  /** A contract opens in order: with budgets that fit and no payments on record, wherever components are kept. */
  lemma OpensInOrder(
    currency: Currency, reconstruction: Settlement.Reconstruction, dues: seq<Time>, legacy: seq<int>,
    expected: seq<int>, budgets: seq<Components>, evidence: seq<Evidence>, legacyInterest: int)
    requires PositiveWithin(expected, currency) && |dues| == |legacy| == |expected| == |budgets|
    requires |evidence| <= 1 && (evidence != [] ==> evidence[0].scheduleId.None?)
    requires reconstruction == Settlement.ReconstructionComplete ==> BudgetsFit(budgets, expected)
    ensures Inv(Open(currency, reconstruction, OpenRows(dues, legacy, expected, budgets), expected, evidence,
        legacyInterest))
  {
    OpenRowsAreFresh(dues, legacy, expected, budgets, currency);
    OpenEvidenceIsSound(dues, legacy, expected, budgets, evidence, currency);
    if reconstruction == Settlement.ReconstructionComplete {
      OpenComponentsAreSound(dues, legacy, expected, budgets);
    }
    FreshRowsAreInOrder(
      Open(currency, reconstruction, OpenRows(dues, legacy, expected, budgets), expected, evidence, legacyInterest),
      expected);
  }

  lemma OpenRowsAreFresh(
    dues: seq<Time>, legacy: seq<int>, expected: seq<int>, budgets: seq<Components>, currency: Currency)
    requires |dues| == |legacy| == |budgets| == |expected| && PositiveWithin(expected, currency)
    ensures FreshRows(OpenRows(dues, legacy, expected, budgets), expected, currency)
  {
    OpenColumns(dues, legacy, expected, budgets);
    OpenRowsAreSound(dues, legacy, expected, budgets, currency);
  }

  /** A planned sale with positive instalments opens in order. */
  lemma SaleOpensInOrder(
    currency: Currency, total: int, down: int, interest: int, cost: int, expected: seq<int>, plan: ComponentPlan,
    dues: seq<Time>, legacy: seq<int>, legacyInterest: int)
    requires BuildPlan(total, down, interest, cost, expected) == Ok(plan)
    requires PositiveWithin(expected, currency) && |dues| == |legacy| == |expected|
    ensures |plan.schedules| == |expected|
    ensures Inv(Sold(currency, plan, down, dues, legacy, expected, legacyInterest))
  {
    PlanReconciles(total, down, interest, cost, expected, plan);
    assert BudgetsFit(Budgets(plan), expected);
    OpensInOrder(currency, Settlement.ReconstructionComplete, dues, legacy, expected, Budgets(plan),
      DownPaymentEvidence(down, currency), legacyInterest);
  }

  lemma ImportOpensInOrder(
    currency: Currency, expected: seq<int>, dues: seq<Time>, legacy: seq<int>, legacyInterest: int)
    requires PositiveWithin(expected, currency) && |dues| == |legacy| == |expected|
    ensures Inv(Imported(currency, dues, legacy, expected, legacyInterest))
  {
    OpensInOrder(
      currency, Settlement.Unreconstructable, dues, legacy, expected, NoBudgets(expected), [], legacyInterest);
  }

  // ---------------------------------------------------------------- nothing ever blocks

  /** Whatever commands a contract is given, no later audit finds anything but lag in a stored status. */
  ghost predicate NeverBlocks(s: State) {
    forall commands: seq<Command>, later: Time :: AuditPasses(Run(s, commands), later)
  }

  ghost predicate AuditPasses(s: State, later: Time) {
    AuditAt(s, later).Some? && !HasBlockingReasons(AuditAt(s, later).value.reasons)
  }

  lemma SoundContractNeverBlocks(s: State)
    requires Inv(s)
    ensures NeverBlocks(s)
  {
    forall commands: seq<Command>, later: Time ensures AuditPasses(Run(s, commands), later) {
      EveryRunKeepsInvariant(s, commands);
      InvariantMeansNothingBlocks(Run(s, commands), later);
    }
  }

  /** A contract that passes an audit has instalments of something each, within the storable range. */
  lemma PassingRowsArePositive(s: State, expected: seq<int>, later: Time)
    requires |s.rows| == |expected| && s.final == Sum(expected)
    requires forall i :: 0 <= i < |expected| ==> s.rows[i].expected == expected[i]
    requires AuditPasses(s, later)
    ensures PositiveWithin(expected, s.currency)
  {
    NothingBlocksIffMoneyBalances(AsContract(s), later);
    assert MoneyBalances(AsContract(s));
    forall i | 0 <= i < |expected| ensures expected[i] > 0 {
      assert EntryBalances(AsContract(s).entries[i], s.currency) && AsContract(s).entries[i].row == s.rows[i];
    }
  }

  /** A sale on accepted terms, as the program plans and opens it. */
  function SoldOnTerms(
    currency: Currency, total: int, down: int, months: nat, percent: int, plan: ComponentPlan,
    dues: seq<Time>, legacy: seq<int>, legacyInterest: int): State
    requires ScheduleGeneration.CalculateNasiyaAmounts(total, down, months, percent).Ok?
    requires |dues| == |legacy| == |plan.schedules| == months
  {
    Sold(currency, plan, down, dues, legacy,
      ScheduleGeneration.EvenAmounts(
        ScheduleGeneration.CalculateNasiyaAmounts(total, down, months, percent).value.final, months),
      legacyInterest)
  }

  ghost predicate PlannedOnTerms(total: int, down: int, months: nat, percent: int, cost: int, plan: ComponentPlan) {
    ScheduleGeneration.CalculateNasiyaAmounts(total, down, months, percent).Ok? &&
    var amounts := ScheduleGeneration.CalculateNasiyaAmounts(total, down, months, percent).value;
    BuildPlan(total, down, amounts.interest, cost, ScheduleGeneration.EvenAmounts(amounts.final, months)) == Ok(plan)
  }

  lemma SaleOnTermsOpensInOrder(
    currency: Currency, total: int, down: int, months: nat, percent: int, cost: int, plan: ComponentPlan,
    dues: seq<Time>, legacy: seq<int>, legacyInterest: int)
    requires PlannedOnTerms(total, down, months, percent, cost, plan)
    requires |dues| == |legacy| == months == |plan.schedules|
    requires var final := ScheduleGeneration.CalculateNasiyaAmounts(total, down, months, percent).value.final;
      months <= final <= MaxUnits(currency)
    ensures Inv(SoldOnTerms(currency, total, down, months, percent, plan, dues, legacy, legacyInterest))
  {
    var amounts := ScheduleGeneration.CalculateNasiyaAmounts(total, down, months, percent).value;
    var expected := ScheduleGeneration.EvenAmounts(amounts.final, months);
    ScheduleGeneration.EvenScheduleIsExact(amounts.final, months);
    ScheduleGeneration.EvenScheduleIsPositiveIff(amounts.final, months);
    SaleOpensInOrder(currency, total, down, amounts.interest, cost, expected, plan, dues, legacy, legacyInterest);
  }

  /**
   * A sale on accepted terms never blocks, over any history, exactly when there is at least one unit
   * of debt for every month and the debt is storable. Otherwise no audit of the contract as it opens
   * passes, at any time.
   */
  lemma SoldContractNeverBlocksIff(
    currency: Currency, total: int, down: int, months: nat, percent: int, cost: int, plan: ComponentPlan,
    dues: seq<Time>, legacy: seq<int>, legacyInterest: int)
    requires PlannedOnTerms(total, down, months, percent, cost, plan)
    requires |dues| == |legacy| == months == |plan.schedules|
    ensures NeverBlocks(SoldOnTerms(currency, total, down, months, percent, plan, dues, legacy, legacyInterest))
      <==> months <= ScheduleGeneration.CalculateNasiyaAmounts(total, down, months, percent).value.final
           <= MaxUnits(currency)
    ensures forall later ::
      AuditPasses(SoldOnTerms(currency, total, down, months, percent, plan, dues, legacy, legacyInterest), later)
      <==> months <= ScheduleGeneration.CalculateNasiyaAmounts(total, down, months, percent).value.final
           <= MaxUnits(currency)
  {
    var final := ScheduleGeneration.CalculateNasiyaAmounts(total, down, months, percent).value.final;
    var sold := SoldOnTerms(currency, total, down, months, percent, plan, dues, legacy, legacyInterest);
    var orderly := months <= final <= MaxUnits(currency);
    if orderly {
      SaleOnTermsOpensInOrder(currency, total, down, months, percent, cost, plan, dues, legacy, legacyInterest);
    } else {
      EmptyInstalmentsNeverPass(sold, final, months);
    }
    NeverBlocksIffOrderly(sold, orderly);
  }

  lemma NeverBlocksIffOrderly(s: State, orderly: bool)
    requires orderly ==> Inv(s)
    requires !orderly ==> forall later :: !AuditPasses(s, later)
    ensures NeverBlocks(s) <==> orderly
    ensures forall later :: AuditPasses(s, later) <==> orderly
  {
    if orderly {
      SoundContractNeverBlocks(s);
    } else {
      assert !AuditPasses(s, 0);
    }
    PassesAtOnce(s);
  }

  /** A contract that never blocks passes every audit as it opens. */
  lemma PassesAtOnce(s: State)
    ensures NeverBlocks(s) ==> forall later :: AuditPasses(s, later)
  {
    if NeverBlocks(s) {
      forall later ensures AuditPasses(s, later) {
        assert Run(s, []) == s && AuditPasses(Run(s, []), later);
      }
    }
  }

  lemma EmptyInstalmentsNeverPass(s: State, final: int, months: nat)
    requires months > 0 && !(months <= final <= MaxUnits(s.currency))
    requires |s.rows| == months && s.final == Sum(ScheduleGeneration.EvenAmounts(final, months))
    requires forall i :: 0 <= i < months ==> s.rows[i].expected == ScheduleGeneration.EvenAmounts(final, months)[i]
    ensures forall later :: !AuditPasses(s, later)
  {
    ScheduleGeneration.EvenScheduleIsExact(final, months);
    ScheduleGeneration.EvenScheduleIsPositiveIff(final, months);
    forall later ensures !AuditPasses(s, later) {
      if AuditPasses(s, later) {
        PassingRowsArePositive(s, ScheduleGeneration.EvenAmounts(final, months), later);
      }
    }
  }

  function ImportedOnTerms(
    currency: Currency, total: int, monthly: int, override: Option<int>, dues: seq<Time>, legacy: seq<int>,
    legacyInterest: int): State
    requires ScheduleGeneration.GenerateImport(total, monthly, override).Ok?
    requires |dues| == |legacy| == |ScheduleGeneration.GenerateImport(total, monthly, override).value|
  {
    Imported(currency, dues, legacy, ScheduleGeneration.GenerateImport(total, monthly, override).value, legacyInterest)
  }

  lemma ImportOnTermsOpensInOrder(
    currency: Currency, total: int, monthly: int, override: Option<int>, dues: seq<Time>, legacy: seq<int>,
    legacyInterest: int)
    requires ScheduleGeneration.GenerateImport(total, monthly, override).Ok? && total <= MaxUnits(currency)
    requires |dues| == |legacy| == |ScheduleGeneration.GenerateImport(total, monthly, override).value|
    ensures Inv(ImportedOnTerms(currency, total, monthly, override, dues, legacy, legacyInterest))
  {
    ScheduleGeneration.ImportIsExact(total, monthly, override);
    ImportOpensInOrder(
      currency, ScheduleGeneration.GenerateImport(total, monthly, override).value, dues, legacy, legacyInterest);
  }

  /** An imported schedule is positive by construction: it never blocks exactly when its debt is storable. */
  lemma ImportedContractNeverBlocksIff(
    currency: Currency, total: int, monthly: int, override: Option<int>, dues: seq<Time>, legacy: seq<int>,
    legacyInterest: int)
    requires ScheduleGeneration.GenerateImport(total, monthly, override).Ok?
    requires |dues| == |legacy| == |ScheduleGeneration.GenerateImport(total, monthly, override).value|
    ensures NeverBlocks(ImportedOnTerms(currency, total, monthly, override, dues, legacy, legacyInterest))
      <==> total <= MaxUnits(currency)
  {
    var expected := ScheduleGeneration.GenerateImport(total, monthly, override).value;
    var imported := ImportedOnTerms(currency, total, monthly, override, dues, legacy, legacyInterest);
    ScheduleGeneration.ImportIsExact(total, monthly, override);
    if total <= MaxUnits(currency) {
      ImportOnTermsOpensInOrder(currency, total, monthly, override, dues, legacy, legacyInterest);
      SoundContractNeverBlocks(imported);
    } else if NeverBlocks(imported) {
      PassesAtOnce(imported);
      PassingRowsArePositive(imported, expected, 0);
    }
  }

  // ---------------------------------------------------------------- what stays fixed

  /** The terms of the rows: their number, what each should bring and how that is budgeted. */
  ghost predicate SameTerms(rows: seq<Row>, rows': seq<Row>) {
    && |rows'| == |rows|
    && forall i :: 0 <= i < |rows| ==>
         rows'[i].id == rows[i].id && rows'[i].expected == rows[i].expected && rows'[i].budget == rows[i].budget
  }

  lemma RecordingKeepsTerms(rows: seq<Row>, updates: seq<Update>, track: bool)
    requires CanRecord(rows, updates, track)
    ensures SameTerms(rows, RecordRows(rows, updates, track))
  {
    forall i | 0 <= i < |rows|
      ensures RecordRow(rows[i], updates, track).value.id == rows[i].id
      ensures RecordRow(rows[i], updates, track).value.expected == rows[i].expected
      ensures RecordRow(rows[i], updates, track).value.budget == rows[i].budget
    {
    }
  }

  lemma CommittingKeepsRows(s: State, now: Time)
    ensures Committed(s, now).Some? ==> Committed(s, now).value.rows == s.rows
  {
  }

  lemma PayingKeepsTerms(s: State, selected: nat, amount: int, uzs: int, checkedAt: Time, now: Time)
    ensures PayStep(s, selected, amount, uzs, checkedAt, now).Some? ==>
      SameTerms(s.rows, PayStep(s, selected, amount, uzs, checkedAt, now).value.rows)
  {
    var updates := Updates(PaymentOrder(s.rows, selected), uzs, amount, now);
    if CanRecord(s.rows, updates, TracksComponents(s)) {
      RecordingKeepsTerms(s.rows, updates, TracksComponents(s));
      CommittingKeepsRows(Poured(s, updates), now);
    }
  }

  lemma SettlingKeepsTerms(s: State, mode: Settlement.Mode)
    ensures CloseByQuote(s, mode).Some? ==> SameTerms(s.rows, CloseByQuote(s, mode).value.rows)
  {
    assert SameTerms(s.rows, SettleRows(s.rows, mode));
  }

  lemma DeferringKeepsTerms(s: State, selected: nat, until: Time, checkedAt: Time, now: Time)
    ensures DeferStep(s, selected, until, checkedAt, now).Some? ==>
      SameTerms(s.rows, DeferStep(s, selected, until, checkedAt, now).value.rows)
  {
    assert SameTerms(s.rows, DeferRows(s.rows, selected, until));
    CommittingKeepsRows(s.(rows := DeferRows(s.rows, selected, until)), now);
  }

  lemma EveryStepKeepsTerms(s: State, command: Command)
    ensures Step(s, command).Some? ==> SameTerms(s.rows, Step(s, command).value.rows)
  {
    match command
    case Pay(selected, amount, uzs, checkedAt, now) =>
      PayingKeepsTerms(s, selected, amount, uzs, checkedAt, now);
    case Settle(mode, _, checkedAt, date) =>
      SettlingKeepsTerms(s, mode);
    case Defer(selected, until, checkedAt, now) =>
      DeferringKeepsTerms(s, selected, until, checkedAt, now);
    case MarkOverdue(selected, now) =>
      assert SameTerms(s.rows, LateRows(s.rows, selected, now));
  }

  lemma {:induction false} EveryRunKeepsTerms(s: State, commands: seq<Command>)
    ensures SameTerms(s.rows, Run(s, commands).rows)
  {
    if commands != [] {
      EveryRunKeepsTerms(s, commands[..|commands| - 1]);
      EveryStepKeepsTerms(Run(s, commands[..|commands| - 1]), commands[|commands| - 1]);
    }
  }

  // ---------------------------------------------------------------- lifetime conservation

  function PrincipalsPaid(rows: seq<Row>): (column: seq<int>)
    ensures |column| == |rows|
  {
    seq(|rows|, i requires 0 <= i < |rows| => rows[i].recovered.principal)
  }

  function MarginsPaid(rows: seq<Row>): (column: seq<int>)
    ensures |column| == |rows|
  {
    seq(|rows|, i requires 0 <= i < |rows| => rows[i].recovered.margin)
  }

  function InterestsPaid(rows: seq<Row>): (column: seq<int>)
    ensures |column| == |rows|
  {
    seq(|rows|, i requires 0 <= i < |rows| => rows[i].recovered.interest)
  }

  lemma CompletedRowRecoversBudget(s: State, i: nat)
    requires Inv(s) && Complete(s) && s.remaining == 0 && i < |s.rows|
    ensures var row := s.rows[i];
      && row.recovered.principal == row.budget.principal
      && row.recovered.margin == row.budget.margin
      && row.recovered.interest + row.waived == row.budget.interest
  {
    NothingLeft(s, i);
    assert RowSound(s.rows[i], s.currency) && ComponentsSound(s.rows[i]);
    PaidAtEnds(s.rows[i].budget, s.rows[i].paid);
  }

  /**
   * Over its whole life a sold contract collects what was planned and nothing else: once it owes
   * nothing -- by whatever payments, and whether or not interest was waived -- the principal collected
   * with the down payment is the cost of the device, the margin is price less cost, interest collected
   * and waived make up the contract interest, and all receipts together the price plus the interest
   * that was not waived.
   */
  lemma LifetimeConservation(
    currency: Currency, total: int, down: int, interest: int, cost: int, expected: seq<int>, plan: ComponentPlan,
    dues: seq<Time>, legacy: seq<int>, legacyInterest: int, commands: seq<Command>)
    requires BuildPlan(total, down, interest, cost, expected) == Ok(plan)
    requires PositiveWithin(expected, currency) && |dues| == |legacy| == |expected| == |plan.schedules|
    requires Run(Sold(currency, plan, down, dues, legacy, expected, legacyInterest), commands).remaining == 0
    ensures var end := Run(Sold(currency, plan, down, dues, legacy, expected, legacyInterest), commands);
      && plan.downPayment.principal + Sum(PrincipalsPaid(end.rows)) == cost
      && plan.downPayment.margin + Sum(MarginsPaid(end.rows)) == total - cost
      && Sum(InterestsPaid(end.rows)) + end.waived == interest
      && down + end.paid == total + interest - end.waived
  {
    var sold := Sold(currency, plan, down, dues, legacy, expected, legacyInterest);
    var end := Run(sold, commands);
    PlanReconciles(total, down, interest, cost, expected, plan);
    SaleOpensInOrder(currency, total, down, interest, cost, expected, plan, dues, legacy, legacyInterest);
    EveryRunKeepsInvariant(sold, commands);
    EveryRunKeepsTerms(sold, commands);
    PlanColumns(plan, end.rows, sold.rows, dues, legacy, expected);
    CompletedColumns(end, plan);
    PlannedRowsMakeUpDebt(total, down, interest, cost, expected, plan);
  }

  lemma PlannedRowsMakeUpDebt(total: int, down: int, interest: int, cost: int, expected: seq<int>, plan: ComponentPlan)
    requires BuildPlan(total, down, interest, cost, expected) == Ok(plan)
    ensures Sum(expected) == total - down + interest
  {
  }

  ghost predicate BudgetsOfPlan(plan: ComponentPlan, rows: seq<Row>) {
    |rows| == |plan.schedules| && forall i :: 0 <= i < |rows| ==> rows[i].budget == plan.schedules[i].components
  }

  lemma PlanColumns(
    plan: ComponentPlan, rows: seq<Row>, start: seq<Row>, dues: seq<Time>, legacy: seq<int>, expected: seq<int>)
    requires |dues| == |legacy| == |expected| == |plan.schedules|
    requires start == OpenRows(dues, legacy, expected, Budgets(plan)) && SameTerms(start, rows)
    ensures BudgetsOfPlan(plan, rows)
  {
    forall i | 0 <= i < |rows| ensures rows[i].budget == plan.schedules[i].components {
      assert start[i] == OpenRow(i, dues[i], legacy[i], expected[i], Budgets(plan)[i]);
    }
  }

  lemma CompletedColumns(end: State, plan: ComponentPlan)
    requires Inv(end) && Complete(end) && end.remaining == 0 && BudgetsOfPlan(plan, end.rows)
    ensures plan.downPayment.principal + Sum(PrincipalsPaid(end.rows)) == Sum(Principals(plan))
    ensures plan.downPayment.margin + Sum(MarginsPaid(end.rows)) == Sum(Margins(plan))
    ensures plan.downPayment.interest + Sum(InterestsPaid(end.rows)) + end.waived == Sum(Interests(plan))
  {
    CompletedRowsRecover(end, plan);
    RecoveredColumns(end.rows, plan);
    RecoveredInterests(end.rows, plan);
    HeadAndRest(Principals(plan), plan.downPayment.principal, PrincipalsPaid(end.rows));
    HeadAndRest(Margins(plan), plan.downPayment.margin, MarginsPaid(end.rows));
    HeadAndRest(Interests(plan), plan.downPayment.interest, Interests(plan)[1..]);
    SumMinus(Interests(plan)[1..], Waiveds(end.rows));
  }

  /** Every row brought its budget, less the interest waived. */
  ghost predicate BudgetsRecovered(rows: seq<Row>, plan: ComponentPlan) {
    && |rows| == |plan.schedules|
    && forall i :: 0 <= i < |rows| ==>
         && rows[i].recovered.principal == plan.schedules[i].components.principal
         && rows[i].recovered.margin == plan.schedules[i].components.margin
         && rows[i].recovered.interest == plan.schedules[i].components.interest - rows[i].waived
  }

  lemma CompletedRowsRecover(end: State, plan: ComponentPlan)
    requires Inv(end) && Complete(end) && end.remaining == 0 && BudgetsOfPlan(plan, end.rows)
    ensures BudgetsRecovered(end.rows, plan)
  {
    forall i | 0 <= i < |end.rows|
      ensures end.rows[i].recovered.principal == plan.schedules[i].components.principal
      ensures end.rows[i].recovered.margin == plan.schedules[i].components.margin
      ensures end.rows[i].recovered.interest == plan.schedules[i].components.interest - end.rows[i].waived
    {
      CompletedRowRecoversBudget(end, i);
    }
  }

  lemma RecoveredColumns(rows: seq<Row>, plan: ComponentPlan)
    requires BudgetsRecovered(rows, plan)
    ensures Principals(plan) == [plan.downPayment.principal] + PrincipalsPaid(rows)
    ensures Margins(plan) == [plan.downPayment.margin] + MarginsPaid(rows)
  {
  }

  lemma RecoveredInterests(rows: seq<Row>, plan: ComponentPlan)
    requires BudgetsRecovered(rows, plan)
    ensures |Interests(plan)| == |rows| + 1 && Interests(plan)[0] == plan.downPayment.interest
    ensures Minus(Interests(plan)[1..], Waiveds(rows)) == InterestsPaid(rows)
  {
  }

  lemma HeadAndRest(column: seq<int>, head: int, rest: seq<int>)
    requires column == [head] + rest
    ensures Sum(column) == head + Sum(rest)
  {
    SumCons(column);
    assert column[1..] == rest;
  }
}
