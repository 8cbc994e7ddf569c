/** No history leaves a Nasiya contract that cannot be brought to its end. */
module ContractProgress {
  import opened Results
  import opened Sequences
  import opened Currency
  import opened ProfitAllocation
  import opened Schedules
  import opened ContractStatus
  import opened PaymentAllocation
  import opened NasiyaLedger
  import opened ContractLifecycle
  import opened ContractInvariant
  import opened ContractPayments
  import opened ContractSettlements
  import opened ContractRuns
  import opened ContractLifetime
  import ScheduleGeneration

  // ---------------------------------------------------------------- how stored statuses go stale

  predicate HasFallenDue(row: Row, now: Time) {
    row.remaining != 0 && row.status != Cancelled && PastDue(row, now)
  }

  /** A stored status is the current one, or it lags behind a due date that has passed. */
  ghost predicate LagsAtMost(row: Row, now: Time) {
    row.status == ExpectedStatus(row, now) || HasFallenDue(row, now)
  }

  ghost predicate LagOnly(rows: seq<Row>, now: Time) {
    forall i :: 0 <= i < |rows| ==> LagsAtMost(rows[i], now)
  }

  lemma LagPersists(row: Row, now: Time, later: Time)
    requires LagsAtMost(row, now) && now <= later
    ensures LagsAtMost(row, later)
  {
    DaysDoNotGoBack(now, later);
  }

  /** When a route reads the clock; the date of a settlement may be earlier. */
  function MomentOf(command: Command): Time {
    match command
    case Pay(_, _, _, _, now) => now
    case Settle(_, _, checkedAt, _) => checkedAt
    case Defer(_, _, _, now) => now
    case MarkOverdue(_, now) => now
  }

  function LastMoment(commands: seq<Command>, from: Time): Time {
    if commands == [] then from else MomentOf(commands[|commands| - 1])
  }

  /** Commands on a clock that does not run back. */
  ghost predicate Ordered(commands: seq<Command>, from: Time) {
    commands == [] ||
    (Ordered(commands[..|commands| - 1], from)
     && LastMoment(commands[..|commands| - 1], from) <= MomentOf(commands[|commands| - 1]))
  }

  lemma WrittenRowsLag(rows: seq<Row>, written: seq<Row>, now: Time)
    requires LagOnly(rows, now) && WritesCurrentRows(rows, written, now)
    ensures LagOnly(written, now)
  {
    forall i | 0 <= i < |written| ensures LagsAtMost(written[i], now) {
      assert LagsAtMost(rows[i], now);
    }
  }

  lemma CurrentRowsLag(rows: seq<Row>, now: Time)
    requires RowsCurrent(rows, now)
    ensures LagOnly(rows, now)
  {
  }

  lemma LagPersistsForAll(rows: seq<Row>, now: Time, later: Time)
    requires LagOnly(rows, now) && now <= later
    ensures LagOnly(rows, later)
  {
    forall i | 0 <= i < |rows| ensures LagsAtMost(rows[i], later) {
      LagPersists(rows[i], now, later);
    }
  }

  lemma EveryStepLags(s: State, command: Command, before: Time)
    requires Inv(s) && LagOnly(s.rows, before) && before <= MomentOf(command)
    ensures LagOnly(After(s, command).rows, MomentOf(command))
  {
    LagPersistsForAll(s.rows, before, MomentOf(command));
    if Step(s, command).Some? {
      var s' := Step(s, command).value;
      if command.Settle? {
        SettlementKeepsInvariant(s, command.mode, command.som, command.checkedAt, command.date);
        CurrentRowsLag(s'.rows, command.checkedAt);
      } else {
        EveryStepAdvances(s, command);
        WrittenRowsLag(s.rows, s'.rows, MomentOf(command));
      }
    }
  }

  /** Over any history on a forward clock, a stored status is never wrong in any other way than by being late. */
  lemma {:induction false} EveryRunLags(s: State, commands: seq<Command>, from: Time)
    requires Inv(s) && LagOnly(s.rows, from) && Ordered(commands, from)
    ensures LagOnly(Run(s, commands).rows, LastMoment(commands, from))
  {
    if commands != [] {
      var before := commands[..|commands| - 1];
      EveryRunLags(s, before, from);
      EveryRunKeepsInvariant(s, before);
      EveryStepLags(Run(s, before), commands[|commands| - 1], LastMoment(before, from));
    }
  }

  // ---------------------------------------------------------------- what the overdue pass is for

  /** The nightly pass over the first `k` rows of a contract. */
  function OverduePass(rows: seq<Row>, k: nat, now: Time): (commands: seq<Command>)
    requires k <= |rows|
  {
    if k == 0 then [] else OverduePass(rows, k - 1, now) + [MarkOverdue(rows[k - 1].id, now)]
  }

  lemma RunExtends(s: State, commands: seq<Command>, command: Command)
    ensures Run(s, commands + [command]) == After(Run(s, commands), command)
  {
    var longer := commands + [command];
    assert longer[..|longer| - 1] == commands && longer[|longer| - 1] == command;
  }

  ghost predicate CurrentUpTo(rows: seq<Row>, k: nat, now: Time) {
    forall i :: 0 <= i < k && i < |rows| ==> rows[i].status == ExpectedStatus(rows[i], now)
  }

  lemma OneRowPassed(rows: seq<Row>, k: nat, now: Time)
    requires k < |rows| && DistinctIds(rows) && LagOnly(rows, now) && CurrentUpTo(rows, k, now)
    requires NonNegative(Remainings(rows))
    ensures CurrentUpTo(LateRows(rows, rows[k].id, now), k + 1, now)
    ensures LagOnly(LateRows(rows, rows[k].id, now), now)
  {
    var late := LateRows(rows, rows[k].id, now);
    forall i | 0 <= i < |rows|
      ensures LagsAtMost(late[i], now)
      ensures i <= k ==> late[i].status == ExpectedStatus(late[i], now)
    {
      assert LagsAtMost(rows[i], now) && Remainings(rows)[i] == rows[i].remaining;
    }
  }

  lemma NothingLateChangesNothing(rows: seq<Row>, id: nat, now: Time)
    requires forall i :: 0 <= i < |rows| ==> !IsLateRow(rows[i], id, now)
    ensures LateRows(rows, id, now) == rows
  {
  }

  lemma MarkingWritesLateRows(s: State, id: nat, now: Time)
    requires Inv(s)
    ensures After(s, MarkOverdue(id, now)).rows == LateRows(s.rows, id, now)
  {
    if OverdueStep(s, id, now).None? {
      NothingLateChangesNothing(s.rows, id, now);
    }
  }

  /** What is recorded of the components of every open row leaves room for its debt. */
  ghost predicate RoomLeft(rows: seq<Row>) {
    forall i :: 0 <= i < |rows| ==> HasRoom(rows[i])
  }

  predicate HasRoom(row: Row) {
    row.remaining > 0 ==>
      row.budget.Total() > 0 && 0 <= row.recovered.Total() <= row.budget.Total() - row.remaining
  }

  lemma LateRowsHaveRoom(rows: seq<Row>, id: nat, now: Time)
    requires RoomLeft(rows)
    ensures RoomLeft(LateRows(rows, id, now))
  {
    forall i | 0 <= i < |rows| ensures HasRoom(LateRows(rows, id, now)[i]) {
      assert HasRoom(rows[i]);
    }
  }

  lemma OneMorePassed(s: State, k: nat, id: nat, now: Time)
    requires Inv(s) && LagOnly(s.rows, now) && CurrentUpTo(s.rows, k, now)
    requires k < |s.rows| && id == s.rows[k].id
    ensures var s' := After(s, MarkOverdue(id, now));
      && LagOnly(s'.rows, now) && CurrentUpTo(s'.rows, k + 1, now) && s'.remaining == s.remaining
      && (RoomLeft(s.rows) ==> RoomLeft(s'.rows))
  {
    MarkingWritesLateRows(s, id, now);
    forall i | 0 <= i < |s.rows| ensures Remainings(s.rows)[i] >= 0 {
      assert RowSound(s.rows[i], s.currency);
    }
    OneRowPassed(s.rows, k, now);
    if RoomLeft(s.rows) {
      LateRowsHaveRoom(s.rows, id, now);
    }
  }

  /** The contract once the pass has reached row `k`. */
  ghost function Passed(s: State, k: nat, now: Time): State
    requires k <= |s.rows|
  {
    Run(s, OverduePass(s.rows, k, now))
  }

  lemma PassUnfolds(s: State, k: nat, now: Time)
    requires k < |s.rows|
    ensures Passed(s, k + 1, now) == After(Passed(s, k, now), MarkOverdue(s.rows[k].id, now))
  {
    RunExtends(s, OverduePass(s.rows, k, now), MarkOverdue(s.rows[k].id, now));
  }

  lemma PassKeeps(s: State, k: nat, now: Time)
    requires Inv(s) && k <= |s.rows|
    ensures Inv(Passed(s, k, now)) && SameTerms(s.rows, Passed(s, k, now).rows)
    ensures Passed(s, k, now).reconstruction == s.reconstruction
  {
    EveryRunKeepsInvariant(s, OverduePass(s.rows, k, now));
    EveryRunKeepsTerms(s, OverduePass(s.rows, k, now));
  }

  ghost predicate PassedUpTo(s: State, k: nat, now: Time)
    requires k <= |s.rows|
  {
    && Passed(s, k, now).remaining == s.remaining
    && LagOnly(Passed(s, k, now).rows, now)
    && CurrentUpTo(Passed(s, k, now).rows, k, now)
    && (RoomLeft(s.rows) ==> RoomLeft(Passed(s, k, now).rows))
  }

  lemma PassGoesOn(s: State, k: nat, now: Time)
    requires Inv(s) && k < |s.rows| && PassedUpTo(s, k, now)
    ensures PassedUpTo(s, k + 1, now)
  {
    PassKeeps(s, k, now);
    PassUnfolds(s, k, now);
    assert Passed(s, k, now).rows[k].id == s.rows[k].id;
    OneMorePassed(Passed(s, k, now), k, s.rows[k].id, now);
  }

  lemma PassHeals(s: State, now: Time)
    requires Inv(s) && LagOnly(s.rows, now)
    ensures PassedUpTo(s, |s.rows|, now)
  {
    for k := 0 to |s.rows|
      invariant PassedUpTo(s, k, now)
    {
      PassGoesOn(s, k, now);
    }
  }

  /** After the overdue pass every stored status is current, and no money has moved. */
  lemma OverduePassMakesCurrent(s: State, now: Time)
    requires Inv(s) && LagOnly(s.rows, now)
    ensures var passed := Run(s, OverduePass(s.rows, |s.rows|, now));
      && RowsCurrent(passed.rows, now) && Inv(passed)
      && passed.remaining == s.remaining && passed.reconstruction == s.reconstruction
      && (RoomLeft(s.rows) ==> RoomLeft(passed.rows))
  {
    PassHeals(s, now);
    PassKeeps(s, |s.rows|, now);
  }

  // ---------------------------------------------------------------- the way out

  lemma SomeRowOwes(s: State) returns (i: nat)
    requires Inv(s) && s.remaining > 0
    ensures i < |s.rows| && s.rows[i].remaining > 0
  {
    if forall j :: 0 <= j < |s.rows| ==> s.rows[j].remaining <= 0 {
      forall j | 0 <= j < |s.rows| ensures Remainings(s.rows)[j] == 0 {
        assert RowSound(s.rows[j], s.currency);
      }
      SumOfZeros(Remainings(s.rows));
      assert false;
    }
    i :| 0 <= i < |s.rows| && s.rows[i].remaining > 0;
  }

  lemma RoomIsEnough(s: State, selected: nat, amount: int, uzs: int, now: Time)
    requires Inv(s) && RoomLeft(s.rows) && OwesRow(s, selected) && 0 < amount <= s.remaining
    ensures BudgetsHold(s, PaymentUpdates(s, selected, amount, uzs, now))
  {
    var updates := PaymentUpdates(s, selected, amount, uzs, now);
    PaymentUpdatesAreSound(s, selected, amount, uzs, now);
    OpenDebtMeansNothingWaived(s);
    forall i | 0 <= i < |s.rows| ensures BudgetHolds(s.rows[i], updates) {
      assert RowSound(s.rows[i], s.currency) && HasRoom(s.rows[i]);
      if FindUpdate(s.rows[i].id, updates).Some? {
        FoundIsFaithful(s.rows, updates, i, now);
      }
    }
  }

  /** One payment of everything that remains, on any open row of an up-to-date contract, completes it. */
  lemma PayingOffCompletes(s: State, uzs: int, now: Time) returns (selected: nat)
    requires Inv(s) && (Complete(s) || !TracksComponents(s) || RoomLeft(s.rows))
    requires RowsCurrent(s.rows, now) && 0 < s.remaining <= uzs
    ensures Step(s, Pay(selected, s.remaining, uzs, now, now)).Some?
    ensures After(s, Pay(selected, s.remaining, uzs, now, now)).remaining == 0
  {
    var i := SomeRowOwes(s);
    selected := s.rows[i].id;
    assert OwesRow(s, selected);
    WorthIsReported(s, selected, s.remaining, uzs, now);
    if Complete(s) || !TracksComponents(s) {
      PaymentAcceptedAtOnceIff(s, selected, s.remaining, uzs, now);
    } else {
      RoomIsEnough(s, selected, s.remaining, uzs, now);
      PaymentAcceptedIff(s, selected, s.remaining, uzs, now, now);
    }
    PaymentKeepsInvariant(s, selected, s.remaining, uzs, now, now);
  }

  lemma PaidOffRowHadRoom(s: State, updates: seq<Update>, i: nat, now: Time)
    requires Inv(s) && s.remaining > 0 && UpdatesSound(updates, s.rows, now) && i < |s.rows|
    requires RecordRow(s.rows[i], updates, true).Some? && RecordRow(s.rows[i], updates, true).value.remaining == 0
    requires BudgetHolds(s.rows[i], updates)
    ensures HasRoom(s.rows[i])
  {
    OpenDebtMeansNothingWaived(s);
    assert RowSound(s.rows[i], s.currency);
    if s.rows[i].remaining > 0 {
      FoundIsFaithful(s.rows, updates, i, now);
    }
  }

  lemma PaidOffHadRoom(s: State, selected: nat, uzs: int, now: Time)
    requires Inv(s) && TracksComponents(s) && s.remaining > 0
    requires PayStep(s, selected, s.remaining, uzs, now, now).Some?
    ensures RoomLeft(s.rows)
  {
    var updates, paid := PaymentUpdates(s, selected, s.remaining, uzs, now),
      PayStep(s, selected, s.remaining, uzs, now, now).value;
    PaymentKeepsInvariant(s, selected, s.remaining, uzs, now, now);
    PaymentAcceptedIff(s, selected, s.remaining, uzs, now, now);
    PaymentUnfolds(s, selected, s.remaining, uzs, now, now);
    PaymentUpdatesAreSound(s, selected, s.remaining, uzs, now);
    forall i | 0 <= i < |s.rows| ensures HasRoom(s.rows[i]) {
      NothingLeft(paid, i);
      assert paid.rows[i] == RecordRow(s.rows[i], updates, true).value;
      assert BudgetHolds(s.rows[i], updates);
      PaidOffRowHadRoom(s, updates, i, now);
    }
  }

  /** Where components are tracked, exactly when what is recorded of them leaves every open row room. */
  lemma PayingOffAcceptedIff(s: State, selected: nat, uzs: int, now: Time)
    requires Inv(s) && TracksComponents(s) && RowsCurrent(s.rows, now)
    requires OwesRow(s, selected) && 0 < s.remaining <= uzs
    ensures Step(s, Pay(selected, s.remaining, uzs, now, now)).Some? <==> RoomLeft(s.rows)
  {
    if RoomLeft(s.rows) {
      RoomIsEnough(s, selected, s.remaining, uzs, now);
      WorthIsReported(s, selected, s.remaining, uzs, now);
      PaymentAcceptedIff(s, selected, s.remaining, uzs, now, now);
    } else if PayStep(s, selected, s.remaining, uzs, now, now).Some? {
      PaidOffHadRoom(s, selected, uzs, now);
    }
  }

  /**
   * Whatever has happened to a contract on a forward clock, it can be brought to its end: after the
   * overdue pass one payment of the remaining debt is accepted and completes it. A tie that blocks
   * settlement does not block this.
   */
  lemma EveryContractCanBePaidOff(s: State, commands: seq<Command>, from: Time, now: Time, uzs: int)
    returns (selected: nat)
    requires Inv(s) && LagOnly(s.rows, from)
    requires Complete(s) || !TracksComponents(s) || RoomLeft(Run(s, commands).rows)
    requires Ordered(commands, from) && LastMoment(commands, from) <= now
    requires 0 < Run(s, commands).remaining <= uzs
    ensures var open := Run(s, commands);
      var passed := Run(open, OverduePass(open.rows, |open.rows|, now));
      && Step(passed, Pay(selected, open.remaining, uzs, now, now)).Some?
      && After(passed, Pay(selected, open.remaining, uzs, now, now)).remaining == 0
  {
    var open := Run(s, commands);
    EveryRunKeepsInvariant(s, commands);
    EveryRunLags(s, commands, from);
    LagPersistsForAll(open.rows, LastMoment(commands, from), now);
    OverduePassMakesCurrent(open, now);
    selected := PayingOffCompletes(Run(open, OverduePass(open.rows, |open.rows|, now)), uzs, now);
  }

  /** Contracts open with statuses that at most lag, whenever that is. */
  lemma OpenRowsLag(
    dues: seq<Time>, legacy: seq<int>, expected: seq<int>, budgets: seq<Components>, now: Time)
    requires |dues| == |legacy| == |budgets| == |expected|
    requires forall i :: 0 <= i < |expected| ==> expected[i] > 0
    ensures LagOnly(OpenRows(dues, legacy, expected, budgets), now)
  {
    var rows := OpenRows(dues, legacy, expected, budgets);
    forall i | 0 <= i < |rows| ensures LagsAtMost(rows[i], now) {
      assert rows[i] == OpenRow(i, dues[i], legacy[i], expected[i], budgets[i]);
    }
  }

  /** After the overdue pass, one payment of what remains completes the contract. */
  ghost predicate CanBePaidOff(open: State, now: Time, uzs: int) {
    var passed := Run(open, OverduePass(open.rows, |open.rows|, now));
    exists selected: nat ::
      && Step(passed, Pay(selected, open.remaining, uzs, now, now)).Some?
      && After(passed, Pay(selected, open.remaining, uzs, now, now)).remaining == 0
  }

  /**
   * Every sale on accepted terms, with a unit of debt for every month, can be paid off after any
   * history on a forward clock.
   */
  lemma EverySaleCanBePaidOff(
    currency: Currency, total: int, down: int, months: nat, percent: int, cost: int, plan: ComponentPlan,
    dues: seq<Time>, legacy: seq<int>, legacyInterest: int, commands: seq<Command>, from: Time, now: Time, uzs: int)
    requires PlannedOnTerms(total, down, months, percent, cost, plan)
    requires |dues| == |legacy| == months == |plan.schedules|
    requires var final := ScheduleGeneration.CalculateNasiyaAmounts(total, down, months, percent).value.final;
      months <= final <= MaxUnits(currency)
    requires Ordered(commands, from) && LastMoment(commands, from) <= now
    ensures var sold := SoldOnTerms(currency, total, down, months, percent, plan, dues, legacy, legacyInterest);
      0 < Run(sold, commands).remaining <= uzs ==> CanBePaidOff(Run(sold, commands), now, uzs)
  {
    var sold := SoldOnTerms(currency, total, down, months, percent, plan, dues, legacy, legacyInterest);
    var final := ScheduleGeneration.CalculateNasiyaAmounts(total, down, months, percent).value.final;
    SaleOnTermsOpensInOrder(currency, total, down, months, percent, cost, plan, dues, legacy, legacyInterest);
    ScheduleGeneration.EvenScheduleIsPositiveIff(final, months);
    OpenRowsLag(dues, legacy, ScheduleGeneration.EvenAmounts(final, months), Budgets(plan), from);
    if 0 < Run(sold, commands).remaining <= uzs {
      var selected := EveryContractCanBePaidOff(sold, commands, from, now, uzs);
    }
  }

  /** So can every storable import. */
  lemma EveryImportCanBePaidOff(
    currency: Currency, total: int, monthly: int, override: Option<int>, dues: seq<Time>, legacy: seq<int>,
    legacyInterest: int, commands: seq<Command>, from: Time, now: Time, uzs: int)
    requires ScheduleGeneration.GenerateImport(total, monthly, override).Ok? && total <= MaxUnits(currency)
    requires |dues| == |legacy| == |ScheduleGeneration.GenerateImport(total, monthly, override).value|
    requires Ordered(commands, from) && LastMoment(commands, from) <= now
    ensures var imported := ImportedOnTerms(currency, total, monthly, override, dues, legacy, legacyInterest);
      0 < Run(imported, commands).remaining <= uzs ==> CanBePaidOff(Run(imported, commands), now, uzs)
  {
    var imported := ImportedOnTerms(currency, total, monthly, override, dues, legacy, legacyInterest);
    var expected := ScheduleGeneration.GenerateImport(total, monthly, override).value;
    ImportOnTermsOpensInOrder(currency, total, monthly, override, dues, legacy, legacyInterest);
    ScheduleGeneration.ImportIsExact(total, monthly, override);
    OpenRowsLag(dues, legacy, expected, NoBudgets(expected), from);
    if 0 < Run(imported, commands).remaining <= uzs {
      var selected := EveryContractCanBePaidOff(imported, commands, from, now, uzs);
    }
  }

  /** The so'm that these results ask for are there when the debt is converted at 100 and more per dollar. */
  lemma ConvertedDebtIsWorthIt(s: State, rate: nat)
    requires Inv(s) && rate >= RATE_SCALE && Convert(Money(s.currency, s.remaining), UZS, Some(rate)).Converted?
    ensures s.remaining <= Convert(Money(s.currency, s.remaining), UZS, Some(rate)).money.units
  {
    SomAreNeverFewer(Money(s.currency, s.remaining), s.currency, rate);
  }
}
