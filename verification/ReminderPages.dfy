/** Working through a table in keyset pages, with a checkpoint after every page and runs that stop or crash anywhere. */
module ReminderPages {
  import opened Results

  datatype PageResult = PageResult(complete: bool, processed: nat, cursor: Option<nat>)

  /** The saved cursor, and every row whose processing finished, in the order in which it did. */
  datatype Progress = Progress(saved: Option<nat>, log: seq<nat>)

  /** How a run fares: whether there is time before each page, and how many actions go through before one fails. */
  datatype Luck = Luck(time: seq<bool>, actions: nat)

  // ---------------------------------------------------------------- the table

  predicate Rising(table: seq<nat>) {
    |table| <= 1 || (table[0] < table[1] && Rising(table[1..]))
  }

  lemma {:induction false} HeadIsLeast(table: seq<nat>, i: nat)
    requires Rising(table) && i < |table|
    ensures table[0] <= table[i] && (i > 0 ==> table[0] < table[i])
  {
    if i > 0 {
      HeadIsLeast(table[1..], i - 1);
    }
  }

  predicate IsAfter(row: nat, cursor: Option<nat>) {
    cursor.None? || row > cursor.value
  }

  /** Rows with keys beyond the cursor. */
  function Later(table: seq<nat>, cursor: Option<nat>): seq<nat> {
    if table == [] then []
    else (if IsAfter(table[0], cursor) then [table[0]] else []) + Later(table[1..], cursor)
  }

  function Take(rows: seq<nat>, count: nat): seq<nat> {
    if |rows| <= count then rows else rows[..count]
  }

  function FetchPage(table: seq<nat>, cursor: Option<nat>, take: nat): seq<nat> {
    Take(Later(table, cursor), take)
  }

  // ---------------------------------------------------------------- one run

  /** A page takes one action before its rows, one for each row, one after them and one for the checkpoint. */
  function PageCost(page: seq<nat>): nat {
    |page| + 3
  }

  /** The rows that were finished when the action after the given number of them failed. */
  function FinishedRows(page: seq<nat>, actions: nat): seq<nat> {
    if actions == 0 then [] else Take(page, actions - 1)
  }

  /** One page of a run, or the end of it; no result where the run crashes. */
  datatype PageOutcome = Stop(end: Progress, result: Option<PageResult>) | More(p: Progress, luck: Luck, processed: nat)

  function OnePage(table: seq<nat>, p: Progress, pageSize: nat, luck: Luck, processed: nat): (outcome: PageOutcome)
    ensures outcome.More? ==> |outcome.luck.time| < |luck.time|
  {
    if luck.time == [] || !luck.time[0] then Stop(p, Some(PageResult(false, processed, p.saved)))
    else
      var page := FetchPage(table, p.saved, pageSize);
      if page == [] then Stop(p, Some(PageResult(true, processed, p.saved)))
      else if luck.actions < PageCost(page) then Stop(p.(log := p.log + FinishedRows(page, luck.actions)), None)
      else
        var p' := Progress(Some(page[|page| - 1]), p.log + page);
        if |page| < pageSize then Stop(p', Some(PageResult(true, processed + |page|, p'.saved)))
        else More(p', Luck(luck.time[1..], luck.actions - PageCost(page)), processed + |page|)
  }

  function Pages(
    table: seq<nat>, p: Progress, pageSize: nat, luck: Luck, processed: nat): (Progress, Option<PageResult>)
    decreases |luck.time|
  {
    match OnePage(table, p, pageSize, luck, processed)
    case Stop(end, result) => (end, result)
    case More(p', luck', processed') => Pages(table, p', pageSize, luck', processed')
  }

  function RunOf(table: seq<nat>, p: Progress, pageSize: nat, luck: Luck): (Progress, Option<PageResult>) {
    Pages(table, p, pageSize, luck, 0)
  }

  lemma PageEnds(table: seq<nat>, p: Progress, pageSize: nat, luck: Luck, processed: nat, page: seq<nat>)
    requires luck.time != [] && luck.time[0] && page == FetchPage(table, p.saved, pageSize)
    requires page == [] || luck.actions < PageCost(page) || |page| < pageSize
    ensures Pages(table, p, pageSize, luck, processed) ==
      if page == [] then (p, Some(PageResult(true, processed, p.saved)))
      else if luck.actions < PageCost(page) then (p.(log := p.log + FinishedRows(page, luck.actions)), None)
      else var last := Some(page[|page| - 1]);
        (Progress(last, p.log + page), Some(PageResult(true, processed + |page|, last)))
  {
  }

  lemma PageGoesOn(table: seq<nat>, p: Progress, pageSize: nat, luck: Luck, processed: nat, page: seq<nat>)
    requires luck.time != [] && luck.time[0] && page == FetchPage(table, p.saved, pageSize)
    requires page != [] && PageCost(page) <= luck.actions && pageSize <= |page|
    ensures Pages(table, p, pageSize, luck, processed) ==
      Pages(table, Progress(Some(page[|page| - 1]), p.log + page), pageSize,
            Luck(luck.time[1..], luck.actions - PageCost(page)), processed + |page|)
  {
  }

  class ReminderPass {
    const table: seq<nat>
    var saved: Option<nat>
    var log: seq<nat>

    constructor (table: seq<nat>)
      ensures this.table == table && State() == Progress(None, [])
    {
      this.table := table;
      saved, log := None, [];
    }

    function State(): Progress
      reads this
    {
      Progress(saved, log)
    }

    /** One page; false where an action fails. */
    method ProcessPage(page: seq<nat>, actions: nat) returns (ok: bool)
      requires page != []
      modifies this
      ensures ok <==> actions >= PageCost(page)
      ensures State() ==
        if ok then Progress(Some(page[|page| - 1]), old(log) + page)
        else Progress(old(saved), old(log) + FinishedRows(page, actions))
    {
      var left := actions;
      if left == 0 {
        assert old(log) + [] == old(log);
        return false;
      }
      left := left - 1;
      for i := 0 to |page|
        invariant left == actions - 1 - i
        invariant saved == old(saved) && log == old(log) + page[..i]
      {
        if left == 0 {
          return false;
        }
        left := left - 1;
        log := log + [page[i]];
      }
      assert page[..|page|] == page;
      if left < 2 {
        return false;
      }
      saved := Some(page[|page| - 1]);
      return true;
    }

    method ProcessReminderPages(pageSize: nat, luck: Luck) returns (result: Option<PageResult>)
      modifies this
      ensures (State(), result) == RunOf(table, old(State()), pageSize, luck)
    {
      var cursor, now := saved, luck;
      var processed: nat := 0;
      while now.time != [] && now.time[0]
        invariant cursor == saved
        invariant RunOf(table, old(State()), pageSize, luck) == Pages(table, State(), pageSize, now, processed)
        decreases |now.time|
      {
        var page := FetchPage(table, cursor, pageSize);
        if page == [] || now.actions < PageCost(page) || |page| < pageSize {
          PageEnds(table, State(), pageSize, now, processed, page);
        } else {
          PageGoesOn(table, State(), pageSize, now, processed, page);
        }
        if |page| == 0 {
          return Some(PageResult(true, processed, cursor));
        }
        var ok := ProcessPage(page, now.actions);
        if !ok {
          return None;
        }
        processed := processed + |page|;
        cursor := Some(page[|page| - 1]);
        if |page| < pageSize {
          return Some(PageResult(true, processed, cursor));
        }
        now := Luck(now.time[1..], now.actions - PageCost(page));
      }
      return Some(PageResult(false, processed, cursor));
    }
  }

  // ---------------------------------------------------------------- pages are slices

  /** How many rows lie at or before the cursor. */
  function Position(table: seq<nat>, cursor: Option<nat>): (position: nat)
    ensures position <= |table|
  {
    if table == [] || IsAfter(table[0], cursor) then 0 else 1 + Position(table[1..], cursor)
  }

  lemma {:induction false} PositionSplits(table: seq<nat>, cursor: Option<nat>, i: nat)
    requires Rising(table) && i < |table|
    ensures i < Position(table, cursor) <==> !IsAfter(table[i], cursor)
  {
    HeadIsLeast(table, i);
    if !IsAfter(table[0], cursor) && i > 0 {
      PositionSplits(table[1..], cursor, i - 1);
    }
  }

  lemma {:induction false} AllAreLater(table: seq<nat>, cursor: Option<nat>)
    requires forall i :: 0 <= i < |table| ==> IsAfter(table[i], cursor)
    ensures Later(table, cursor) == table
  {
    if table != [] {
      AllAreLater(table[1..], cursor);
    }
  }

  lemma {:induction false} LaterIsSuffix(table: seq<nat>, cursor: Option<nat>)
    requires Rising(table)
    ensures Later(table, cursor) == table[Position(table, cursor)..]
  {
    if table != [] {
      if IsAfter(table[0], cursor) {
        forall i | 0 <= i < |table| ensures IsAfter(table[i], cursor) {
          HeadIsLeast(table, i);
        }
        AllAreLater(table, cursor);
      } else {
        LaterIsSuffix(table[1..], cursor);
      }
    }
  }

  /** A cursor at a row stands just behind it. */
  lemma {:induction false} PositionOfRow(table: seq<nat>, row: nat, next: nat)
    requires Rising(table) && 0 < next <= |table| && table[next - 1] == row
    ensures Position(table, Some(row)) == next
  {
    HeadIsLeast(table, next - 1);
    if next > 1 {
      PositionOfRow(table[1..], row, next - 1);
    }
  }

  // ---------------------------------------------------------------- what one run does

  function Block(table: seq<nat>, from: nat, to: nat): seq<nat> {
    if from <= to <= |table| then table[from..to] else []
  }

  lemma BlocksJoin(table: seq<nat>, from: nat, middle: nat, to: nat)
    requires from <= middle <= to <= |table|
    ensures Block(table, from, middle) + Block(table, middle, to) == Block(table, from, to)
  {
  }

  /** The log has gained the rows between two positions. */
  ghost predicate Appends(table: seq<nat>, log: seq<nat>, log': seq<nat>, from: nat, to: nat) {
    log' == log + Block(table, from, to)
  }

  lemma AppendsTwice(table: seq<nat>, log: seq<nat>, log': seq<nat>, log'': seq<nat>, from: nat, middle: nat, to: nat)
    requires from <= middle <= to <= |table|
    requires Appends(table, log, log', from, middle) && Appends(table, log', log'', middle, to)
    ensures Appends(table, log, log'', from, to)
  {
    BlocksJoin(table, from, middle, to);
    assert log + Block(table, from, middle) + Block(table, middle, to)
        == log + (Block(table, from, middle) + Block(table, middle, to));
  }

  /**
   * A run processes consecutive rows from its saved cursor on. The cursor it leaves behind lies within
   * what it processed: right at the end, unless it crashed, and then less than a page behind; and
   * completion means that the end of the table was reached.
   */
  ghost predicate RunShape(
    table: seq<nat>, p: Progress, end: Progress, result: Option<PageResult>, pageSize: nat, reach: nat)
  {
    && Position(table, p.saved) <= Position(table, end.saved) <= reach <= |table|
    && reach <= Position(table, end.saved) + pageSize
    && Appends(table, p.log, end.log, Position(table, p.saved), reach)
    && (result.Some? ==> reach == Position(table, end.saved) && end.saved == result.value.cursor)
    && (result.Some? && result.value.complete ==> reach == |table|)
  }

  lemma NothingDone(table: seq<nat>, p: Progress, complete: bool, processed: nat, pageSize: nat)
    requires complete ==> Position(table, p.saved) == |table|
    ensures RunShape(table, p, p, Some(PageResult(complete, processed, p.saved)), pageSize, Position(table, p.saved))
  {
    assert p.log + [] == p.log;
  }

  /** The next page after a position. */
  ghost predicate IsPage(table: seq<nat>, page: seq<nat>, from: nat) {
    && page != [] && from + |page| <= |table| && page == Block(table, from, from + |page|)
    && Position(table, Some(page[|page| - 1])) == from + |page|
  }

  lemma TakenIsBlock(table: seq<nat>, from: nat, take: nat, page: seq<nat>)
    requires from <= |table| && page == Take(table[from..], take)
    ensures |page| <= take && from + |page| <= |table| && page == Block(table, from, from + |page|)
    ensures |page| < take ==> from + |page| == |table|
    ensures page != [] ==> table[from + |page| - 1] == page[|page| - 1]
  {
  }

  /** A fetched page is the next slice of the table, and its last row moves the position past it. */
  lemma FetchedPageIsNext(table: seq<nat>, cursor: Option<nat>, pageSize: nat, page: seq<nat>, from: nat)
    requires Rising(table) && page == FetchPage(table, cursor, pageSize) && from == Position(table, cursor)
    ensures page != [] ==> IsPage(table, page, from)
    ensures |page| <= pageSize && (|page| < pageSize ==> from + |page| == |table|)
  {
    LaterIsSuffix(table, cursor);
    TakenIsBlock(table, from, pageSize, page);
    if page != [] {
      PositionOfRow(table, page[|page| - 1], from + |page|);
    }
  }

  lemma CrashedPage(table: seq<nat>, p: Progress, page: seq<nat>, from: nat, actions: nat, pageSize: nat)
    requires IsPage(table, page, from) && from == Position(table, p.saved) && |page| <= pageSize
    ensures var finished := FinishedRows(page, actions);
      RunShape(table, p, p.(log := p.log + finished), None, pageSize, from + |finished|)
  {
    var finished := FinishedRows(page, actions);
    assert finished == Block(table, from, from + |finished|);
  }

  lemma OnePageDone(
    table: seq<nat>, p: Progress, page: seq<nat>, from: nat, complete: bool, processed: nat, pageSize: nat)
    requires IsPage(table, page, from) && from == Position(table, p.saved) && (complete ==> from + |page| == |table|)
    ensures var last := Some(page[|page| - 1]);
      RunShape(
        table, p, Progress(last, p.log + page), Some(PageResult(complete, processed, last)), pageSize, from + |page|)
  {
  }

  lemma OnePageMore(
    table: seq<nat>, p: Progress, page: seq<nat>, from: nat, end: Progress, result: Option<PageResult>, pageSize: nat,
    reach: nat)
    requires IsPage(table, page, from) && from == Position(table, p.saved)
    requires RunShape(table, Progress(Some(page[|page| - 1]), p.log + page), end, result, pageSize, reach)
    ensures RunShape(table, p, end, result, pageSize, reach)
  {
    AppendsTwice(table, p.log, p.log + page, end.log, from, from + |page|, reach);
  }

  lemma StoppedPageHasShape(table: seq<nat>, p: Progress, pageSize: nat, luck: Luck, processed: nat)
    requires Rising(table) && pageSize > 0 && OnePage(table, p, pageSize, luck, processed).Stop?
    ensures var stop := OnePage(table, p, pageSize, luck, processed);
      exists reach :: RunShape(table, p, stop.end, stop.result, pageSize, reach)
  {
    var from, page := Position(table, p.saved), FetchPage(table, p.saved, pageSize);
    FetchedPageIsNext(table, p.saved, pageSize, page, from);
    if luck.time == [] || !luck.time[0] {
      NothingDone(table, p, false, processed, pageSize);
    } else if page == [] {
      NothingDone(table, p, true, processed, pageSize);
    } else if luck.actions < PageCost(page) {
      CrashedPage(table, p, page, from, luck.actions, pageSize);
    } else {
      OnePageDone(table, p, page, from, true, processed + |page|, pageSize);
    }
  }

  /** Where a run gets to. */
  lemma {:induction false} PagesHaveShape(table: seq<nat>, p: Progress, pageSize: nat, luck: Luck, processed: nat)
    returns (reach: nat)
    requires Rising(table) && pageSize > 0
    ensures RunShape(table, p,
      Pages(table, p, pageSize, luck, processed).0, Pages(table, p, pageSize, luck, processed).1,
      pageSize, reach)
    decreases |luck.time|
  {
    match OnePage(table, p, pageSize, luck, processed)
    case Stop(end, result) =>
      StoppedPageHasShape(table, p, pageSize, luck, processed);
      reach :| RunShape(table, p, end, result, pageSize, reach);
    case More(p', luck', processed') =>
      reach := PagesHaveShape(table, p', pageSize, luck', processed');
      MoreHasShape(table, p, pageSize, luck, processed, reach);
  }

  lemma MoreHasShape(table: seq<nat>, p: Progress, pageSize: nat, luck: Luck, processed: nat, reach: nat)
    requires Rising(table) && OnePage(table, p, pageSize, luck, processed).More?
    requires var more := OnePage(table, p, pageSize, luck, processed);
      var r := Pages(table, more.p, pageSize, more.luck, more.processed);
      RunShape(table, more.p, r.0, r.1, pageSize, reach)
    ensures var more := OnePage(table, p, pageSize, luck, processed);
      var r := Pages(table, more.p, pageSize, more.luck, more.processed);
      RunShape(table, p, r.0, r.1, pageSize, reach)
  {
    var more := OnePage(table, p, pageSize, luck, processed);
    var r := Pages(table, more.p, pageSize, more.luck, more.processed);
    var from, page := Position(table, p.saved), FetchPage(table, p.saved, pageSize);
    FetchedPageIsNext(table, p.saved, pageSize, page, from);
    OnePageMore(table, p, page, from, r.0, r.1, pageSize, reach);
  }

  // ---------------------------------------------------------------- what runs keep

  /** Every row up to the saved cursor has been processed, and nothing outside the table. */
  ghost predicate Covered(table: seq<nat>, p: Progress) {
    && (forall i :: 0 <= i < Position(table, p.saved) ==> table[i] in p.log)
    && (forall row :: row in p.log ==> row in table)
  }

  /** How many more rows have been processed than the saved cursor accounts for. */
  function Repeats(table: seq<nat>, p: Progress): int {
    |p.log| - Position(table, p.saved)
  }

  lemma ShapeCovers(table: seq<nat>, p: Progress, end: Progress, result: Option<PageResult>, pageSize: nat, reach: nat)
    requires Covered(table, p) && RunShape(table, p, end, result, pageSize, reach)
    ensures Covered(table, end)
  {
    var from := Position(table, p.saved);
    forall i | 0 <= i < Position(table, end.saved) ensures table[i] in end.log {
      if i >= from {
        assert Block(table, from, reach)[i - from] == table[i];
      }
    }
    forall row | row in end.log ensures row in table {
      assert row in p.log || row in Block(table, from, reach);
    }
  }

  /** What one run does from a covered state. */
  ghost predicate RunKeeps(table: seq<nat>, p: Progress, end: Progress, result: Option<PageResult>, pageSize: nat) {
    && Covered(table, end)
    && Position(table, p.saved) <= Position(table, end.saved)
    && (result.Some? ==>
          && end.saved == result.value.cursor
          && end.log == p.log + Block(table, Position(table, p.saved), Position(table, end.saved)))
    && (result.Some? && result.value.complete ==> Position(table, end.saved) == |table|)
    && Repeats(table, p) <= Repeats(table, end) <= Repeats(table, p) + (if result.None? then pageSize else 0)
  }

  /**
   * Any run, stopped by the clock or crashed at any action, leaves every row up to the saved cursor
   * processed; it resumes at the next row, a completed run has done them all, and a crash repeats at
   * most one page.
   */
  lemma EveryRunKeepsCoverage(table: seq<nat>, p: Progress, pageSize: nat, luck: Luck)
    requires Rising(table) && pageSize > 0 && Covered(table, p)
    ensures RunKeeps(table, p, RunOf(table, p, pageSize, luck).0, RunOf(table, p, pageSize, luck).1, pageSize)
  {
    var reach := PagesHaveShape(table, p, pageSize, luck, 0);
    var r := RunOf(table, p, pageSize, luck);
    ShapeCovers(table, p, r.0, r.1, pageSize, reach);
  }

  function AfterRuns(table: seq<nat>, pageSize: nat, runs: seq<Luck>): Progress {
    if runs == [] then Progress(None, [])
    else RunOf(table, AfterRuns(table, pageSize, runs[..|runs| - 1]), pageSize, runs[|runs| - 1]).0
  }

  function CrashCount(table: seq<nat>, pageSize: nat, runs: seq<Luck>): nat {
    if runs == [] then 0
    else
      CrashCount(table, pageSize, runs[..|runs| - 1])
      + (if RunOf(table, AfterRuns(table, pageSize, runs[..|runs| - 1]), pageSize, runs[|runs| - 1]).1.None?
         then 1 else 0)
  }

  lemma PositionOfNothing(table: seq<nat>)
    ensures Position(table, None) == 0
  {
  }

  /** What any number of runs leaves behind, given how many of them crashed. */
  ghost predicate RunsKeep(table: seq<nat>, p: Progress, pageSize: nat, crashes: nat) {
    && Covered(table, p)
    && 0 <= Repeats(table, p) <= pageSize * crashes
    && (crashes == 0 ==> p.log == Block(table, 0, Position(table, p.saved)))
  }

  lemma OneMoreRun(table: seq<nat>, p: Progress, end: Progress, result: Option<PageResult>, pageSize: nat, crashes: nat)
    requires RunsKeep(table, p, pageSize, crashes) && RunKeeps(table, p, end, result, pageSize)
    ensures RunsKeep(table, end, pageSize, crashes + (if result.None? then 1 else 0))
  {
    assert pageSize * (crashes + 1) == pageSize * crashes + pageSize;
    BlocksJoin(table, 0, Position(table, p.saved), Position(table, end.saved));
  }

  /** No number of runs skips a row, and all of them together repeat at most a page for every crash. */
  lemma {:induction false} RunsSkipNothing(table: seq<nat>, pageSize: nat, runs: seq<Luck>)
    requires Rising(table) && pageSize > 0
    ensures RunsKeep(table, AfterRuns(table, pageSize, runs), pageSize, CrashCount(table, pageSize, runs))
  {
    if runs == [] {
      PositionOfNothing(table);
    } else {
      var before, luck := runs[..|runs| - 1], runs[|runs| - 1];
      var p := AfterRuns(table, pageSize, before);
      RunsSkipNothing(table, pageSize, before);
      EveryRunKeepsCoverage(table, p, pageSize, luck);
      var r := RunOf(table, p, pageSize, luck);
      OneMoreRun(table, p, r.0, r.1, pageSize, CrashCount(table, pageSize, before));
    }
  }

  /** When a run reports completion every row has been processed -- without crashes each exactly once, in order. */
  lemma CompletionMeansAllDone(table: seq<nat>, pageSize: nat, runs: seq<Luck>, last: Luck)
    requires Rising(table) && pageSize > 0
    requires var result := RunOf(table, AfterRuns(table, pageSize, runs), pageSize, last).1;
      result.Some? && result.value.complete
    ensures forall row :: row in table <==> row in AfterRuns(table, pageSize, runs + [last]).log
    ensures CrashCount(table, pageSize, runs) == 0 ==> AfterRuns(table, pageSize, runs + [last]).log == table
  {
    assert (runs + [last])[..|runs|] == runs;
    RunsSkipNothing(table, pageSize, runs);
    RunsSkipNothing(table, pageSize, runs + [last]);
    EveryRunKeepsCoverage(table, AfterRuns(table, pageSize, runs), pageSize, last);
    var end := AfterRuns(table, pageSize, runs + [last]);
    assert table[..|table|] == table;
    forall row | row in table ensures row in end.log {
      var i :| 0 <= i < |table| && table[i] == row;
    }
  }

  // ---------------------------------------------------------------- a run, action by action

  datatype Action = BeforePage | Process(row: nat) | AfterPage | Checkpoint(row: nat)

  function Processing(page: seq<nat>): (actions: seq<Action>)
    ensures |actions| == |page|
  {
    seq(|page|, i requires 0 <= i < |page| => Process(page[i]))
  }

  function PageScript(page: seq<nat>): seq<Action>
    requires page != []
  {
    [BeforePage] + Processing(page) + [AfterPage, Checkpoint(page[|page| - 1])]
  }

  /** What is to be done with the remaining rows, page by page, for as long as there is time before a page. */
  function Script(rows: seq<nat>, pageSize: nat, time: seq<bool>): seq<Action>
    requires pageSize > 0
    decreases |time|
  {
    if time == [] || !time[0] || rows == [] then []
    else if |rows| <= pageSize then PageScript(rows)
    else PageScript(rows[..pageSize]) + Script(rows[pageSize..], pageSize, time[1..])
  }

  /** An action as it reaches the log or the saved cursor. */
  function Act(p: Progress, action: Action): Progress {
    match action
    case Process(row) => p.(log := p.log + [row])
    case Checkpoint(row) => p.(saved := Some(row))
    case _ => p
  }

  function Perform(p: Progress, actions: seq<Action>): Progress
    decreases |actions|
  {
    if actions == [] then p else Perform(Act(p, actions[0]), actions[1..])
  }

  /** How many pages there is time for. */
  function PagesInTime(time: seq<bool>): nat {
    if time == [] || !time[0] then 0 else 1 + PagesInTime(time[1..])
  }

  lemma {:induction false} PerformConcat(p: Progress, a: seq<Action>, b: seq<Action>)
    ensures Perform(p, a + b) == Perform(Perform(p, a), b)
    decreases |a|
  {
    if a == [] {
      assert a + b == b;
    } else {
      assert (a + b)[1..] == a[1..] + b;
      PerformConcat(Act(p, a[0]), a[1..], b);
    }
  }

  lemma {:induction false} PerformProcessing(p: Progress, rows: seq<nat>)
    ensures Perform(p, Processing(rows)) == p.(log := p.log + rows)
    decreases |rows|
  {
    if rows == [] {
      assert p.log + rows == p.log;
    } else {
      assert Processing(rows)[1..] == Processing(rows[1..]);
      PerformProcessing(p.(log := p.log + [rows[0]]), rows[1..]);
      assert p.log + [rows[0]] + rows[1..] == p.log + rows;
    }
  }

  lemma WholePage(p: Progress, page: seq<nat>)
    requires page != []
    ensures |PageScript(page)| == PageCost(page)
    ensures Perform(p, PageScript(page)) == Progress(Some(page[|page| - 1]), p.log + page)
  {
    var last := Checkpoint(page[|page| - 1]);
    PerformConcat(p, [BeforePage] + Processing(page), [AfterPage, last]);
    PerformConcat(p, [BeforePage], Processing(page));
    PerformProcessing(p, page);
    PerformConcat(p.(log := p.log + page), [AfterPage], [last]);
    assert [AfterPage, last] == [AfterPage] + [last];
  }

  lemma BrokenPage(p: Progress, page: seq<nat>, k: nat)
    requires page != [] && k < PageCost(page)
    ensures k <= |PageScript(page)|
    ensures Perform(p, PageScript(page)[..k]) == p.(log := p.log + FinishedRows(page, k))
  {
    if k == 0 {
      assert p.log + [] == p.log;
    } else {
      var rows, more := FinishedRows(page, k), if k == |page| + 2 then [AfterPage] else [];
      assert PageScript(page)[..k] == [BeforePage] + Processing(rows) + more;
      PerformConcat(p, [BeforePage] + Processing(rows), more);
      PerformConcat(p, [BeforePage], Processing(rows));
      PerformProcessing(p, rows);
    }
  }

  /** The rows of the table behind the cursor and those still ahead of it. */
  ghost predicate StandsBetween(table: seq<nat>, done: seq<nat>, rest: seq<nat>, cursor: Option<nat>) {
    && table == done + rest
    && (cursor.None? ==> done == [])
    && (cursor.Some? ==> forall i :: 0 <= i < |done| ==> done[i] <= cursor.value)
    && (cursor.Some? ==> forall i :: 0 <= i < |rest| ==> rest[i] > cursor.value)
  }

  lemma RestIsLater(table: seq<nat>, done: seq<nat>, rest: seq<nat>, cursor: Option<nat>)
    requires StandsBetween(table, done, rest, cursor)
    ensures Later(table, cursor) == rest
    decreases |done|
  {
    if done == [] {
      assert table == rest;
      AllAreLater(table, cursor);
    } else {
      assert table[0] == done[0] && table[1..] == done[1..] + rest;
      RestIsLater(table[1..], done[1..], rest, cursor);
    }
  }

  lemma NextStandsBetween(table: seq<nat>, done: seq<nat>, rest: seq<nat>, cursor: Option<nat>, page: seq<nat>)
    requires Rising(table) && StandsBetween(table, done, rest, cursor)
    requires page != [] && |page| <= |rest| && page == rest[..|page|]
    ensures StandsBetween(table, done + page, rest[|page|..], Some(page[|page| - 1]))
  {
    var next := rest[|page|..];
    assert table == done + page + next;
    forall i, j | 0 <= i < j < |table| ensures table[i] < table[j] {
      RisesThroughout(table, i, j);
    }
    var last := |done| + |page| - 1;
    assert table[last] == page[|page| - 1];
    forall i | 0 <= i < |done + page| ensures (done + page)[i] <= page[|page| - 1] {
      assert table[i] == (done + page)[i];
    }
    forall i | 0 <= i < |next| ensures next[i] > page[|page| - 1] {
      assert table[last + 1 + i] == next[i];
    }
  }

  lemma {:induction false} RisesThroughout(table: seq<nat>, i: nat, j: nat)
    requires Rising(table) && i < j < |table|
    ensures table[i] < table[j]
  {
    if i == 0 {
      HeadIsLeast(table, j);
    } else {
      RisesThroughout(table[1..], i - 1, j - 1);
    }
  }

  /** What a run comes to that does a script action by action, up to the one that fails if there are so many. */
  ghost predicate DoesScript(
    p: Progress, script: seq<Action>, actions: nat, complete: bool, processed: nat, end: Progress,
    result: Option<PageResult>)
  {
    if actions < |script| then end == Perform(p, script[..actions]) && result.None?
    else
      && end == Perform(p, script)
      && result.Some? && result.value.complete == complete && result.value.cursor == end.saved
      && result.value.processed + |p.log| == processed + |end.log|
  }

  lemma ScriptStartsWithPage(rows: seq<nat>, pageSize: nat, time: seq<bool>, page: seq<nat>)
    requires pageSize > 0 && rows != [] && time != [] && time[0] && page == Take(rows, pageSize)
    ensures Script(rows, pageSize, time) == PageScript(page) + Script(rows[|page|..], pageSize, time[1..])
  {
    if |rows| <= pageSize {
      assert PageScript(rows) + [] == PageScript(rows);
    }
  }

  lemma PageThenScript(
    p: Progress, page: seq<nat>, script: seq<Action>, actions: nat, complete: bool, processed: nat, end: Progress,
    result: Option<PageResult>)
    requires page != [] && actions >= PageCost(page)
    requires DoesScript(Progress(Some(page[|page| - 1]), p.log + page), script, actions - PageCost(page), complete,
      processed + |page|, end, result)
    ensures DoesScript(p, PageScript(page) + script, actions, complete, processed, end, result)
  {
    WholePage(p, page);
    if actions < |PageScript(page) + script| {
      assert (PageScript(page) + script)[..actions] == PageScript(page) + script[..actions - PageCost(page)];
      PerformConcat(p, PageScript(page), script[..actions - PageCost(page)]);
    } else {
      PerformConcat(p, PageScript(page), script);
    }
  }

  lemma FailedPageEndsScript(
    p: Progress, page: seq<nat>, script: seq<Action>, actions: nat, complete: bool, processed: nat)
    requires page != [] && actions < PageCost(page)
    ensures DoesScript(p, PageScript(page) + script, actions, complete, processed,
      p.(log := p.log + FinishedRows(page, actions)), None)
  {
    WholePage(p, page);
    BrokenPage(p, page, actions);
    assert (PageScript(page) + script)[..actions] == PageScript(page)[..actions];
  }

  /** There is time for a page more than the rows fill. */
  ghost predicate TimeSuffices(rows: int, pageSize: nat, time: seq<bool>) {
    rows < pageSize * PagesInTime(time)
  }

  lemma TimeForMore(rows: int, page: int, pageSize: nat, time: seq<bool>)
    requires pageSize > 0 && time != [] && time[0]
    ensures rows < pageSize ==> TimeSuffices(rows, pageSize, time)
    ensures page == pageSize ==>
      (TimeSuffices(rows - page, pageSize, time[1..]) <==> TimeSuffices(rows, pageSize, time))
  {
    assert pageSize * PagesInTime(time) == pageSize + pageSize * PagesInTime(time[1..]);
  }

  lemma StopDoesScript(
    table: seq<nat>, rest: seq<nat>, p: Progress, pageSize: nat, luck: Luck, processed: nat, complete: bool)
    requires pageSize > 0 && Later(table, p.saved) == rest && complete == TimeSuffices(|rest|, pageSize, luck.time)
    requires OnePage(table, p, pageSize, luck, processed).Stop?
    ensures var stop := OnePage(table, p, pageSize, luck, processed);
      DoesScript(p, Script(rest, pageSize, luck.time), luck.actions, complete, processed, stop.end, stop.result)
  {
    if luck.time != [] && luck.time[0] {
      var page := Take(rest, pageSize);
      TimeForMore(|rest|, |page|, pageSize, luck.time);
      if rest != [] {
        var script := Script(rest[|page|..], pageSize, luck.time[1..]);
        ScriptStartsWithPage(rest, pageSize, luck.time, page);
        if luck.actions < PageCost(page) {
          FailedPageEndsScript(p, page, script, luck.actions, complete, processed);
        } else {
          WholePage(p, page);
        }
      }
    } else {
      assert TimeSuffices(|rest|, pageSize, luck.time) == false;
    }
  }

  lemma {:induction false} PagesDoScript(
    table: seq<nat>, done: seq<nat>, rest: seq<nat>, p: Progress, pageSize: nat, luck: Luck, processed: nat,
    complete: bool)
    requires Rising(table) && pageSize > 0 && StandsBetween(table, done, rest, p.saved)
    requires complete == TimeSuffices(|rest|, pageSize, luck.time)
    ensures DoesScript(p, Script(rest, pageSize, luck.time), luck.actions, complete, processed,
      Pages(table, p, pageSize, luck, processed).0, Pages(table, p, pageSize, luck, processed).1)
    decreases |luck.time|
  {
    RestIsLater(table, done, rest, p.saved);
    match OnePage(table, p, pageSize, luck, processed)
    case Stop(_, _) =>
      StopDoesScript(table, rest, p, pageSize, luck, processed, complete);
    case More(p', luck', processed') =>
      var page, next := rest[..pageSize], rest[pageSize..];
      NextStandsBetween(table, done, rest, p.saved, page);
      TimeForMore(|rest|, pageSize, pageSize, luck.time);
      PagesDoScript(table, done + page, next, p', pageSize, luck', processed', complete);
      ScriptStartsWithPage(rest, pageSize, luck.time, page);
      var r := Pages(table, p', pageSize, luck', processed');
      PageThenScript(
        p, page, Script(next, pageSize, luck'.time), luck.actions, complete, processed, r.0, r.1);
  }

  /**
   * A run does exactly this: with the rows beyond its cursor, page by page while there is time, it takes
   * one action before a page, one for each row, one after it and one to save the cursor, until the first
   * action that fails. A run in which none fails reports how many rows it did, and completion exactly
   * when there was time for a page more than the rows fill.
   */
  lemma RunDoesScript(table: seq<nat>, done: seq<nat>, rest: seq<nat>, p: Progress, pageSize: nat, luck: Luck)
    requires Rising(table) && pageSize > 0 && StandsBetween(table, done, rest, p.saved)
    ensures DoesScript(p, Script(rest, pageSize, luck.time), luck.actions,
      TimeSuffices(|rest|, pageSize, luck.time), 0,
      RunOf(table, p, pageSize, luck).0, RunOf(table, p, pageSize, luck).1)
  {
    PagesDoScript(table, done, rest, p, pageSize, luck, 0, TimeSuffices(|rest|, pageSize, luck.time));
  }
}
