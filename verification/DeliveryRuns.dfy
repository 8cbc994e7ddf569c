/** That the notification workers also deliver: from wherever they have got to, a row in line can be sent. */
module DeliveryRuns {
  import opened Results
  import opened TelegramDelivery
  import opened NotificationDelivery
  import opened ClaimProtocol
  import opened PromptAttempts
  import opened ExactlyOnce

  function AllTaken(k: nat): (answers: seq<Answer>)
    ensures |answers| == k
  {
    seq(k, _ => Accepted)
  }

  ghost predicate SignsAll(urls: map<nat, string>, count: nat) {
    forall p: nat :: p < count ==> p in urls
  }

  /** A prompt system in which the job attempts the row with all images signed, and so many sends were taken. */
  ghost predicate Underway(c: System, job: nat, note: nat, urls: map<nat, string>, base: World, taken: nat) {
    && SystemInv(c) && Prompt(c.table) && Working(c, job) && c.table.jobs[job].note == note
    && c.work[job] == Work(urls, AllTaken(taken), base)
    && SignsAll(urls, c.contents[note].count)
  }

  function StepsOf(content: Content, urls: map<nat, string>, base: World): seq<Step> {
    StepsFor(base, content.message, content.count, urls)
  }

  lemma {:induction false} MovesConcatenate(c: System, first: seq<Move>, middle: System, rest: seq<Move>, end: System)
    requires PromptlyMoves(c, first, middle) && PromptlyMoves(middle, rest, end)
    ensures PromptlyMoves(c, first + rest, end)
    decreases |first|
  {
    if first == [] {
      assert first + rest == rest;
    } else {
      assert (first + rest)[1..] == first[1..] + rest;
      MovesConcatenate(NextMove(c, first[0]).value, first[1..], middle, rest, end);
    }
  }

  lemma OneMove(c: System, move: Move, end: System)
    requires SystemInv(c) && Prompt(c.table) && NextMove(c, move) == Some(end) && Prompt(end.table)
    ensures PromptlyMoves(c, [move], end) && SystemInv(end)
  {
    EveryMoveKeepsInvariant(c, move);
    assert PromptlyMoves(end, [], end);
  }

  // ---------------------------------------------------------------- from the row to the attempt

  /** A row is due by the clock of a run that has just started. */
  ghost predicate InReach(c: System, note: nat, run: nat, job: nat) {
    && SystemInv(c) && Prompt(c.table) && note in c.table.notes && run in c.table.runs
    && Due(c.table.notes[note], c.table.runs[run]) && c.table.runs[run] <= c.table.clock
  }

  lemma RunCanStart(c: System, note: nat, run: nat, job: nat) returns (started: System)
    requires SystemInv(c) && Prompt(c.table) && note in c.table.notes && Due(c.table.notes[note], c.table.clock)
    requires run !in c.table.runs && job !in c.table.jobs
    ensures PromptlyMoves(c, [Quiet(StartRun(run))], started) && InReach(started, note, run, job)
    ensures job !in started.table.jobs && started.contents == c.contents
  {
    started := NextMove(c, Quiet(StartRun(run))).value;
    OneMove(c, Quiet(StartRun(run)), started);
  }

  lemma RowCanBeFetched(c: System, note: nat, run: nat, job: nat) returns (fetched: System)
    requires InReach(c, note, run, job) && job !in c.table.jobs
    ensures PromptlyMoves(c, [Quiet(Fetch(job, run, note))], fetched) && InReach(fetched, note, run, job)
    ensures Holds(fetched.table, job) && fetched.table.jobs[job].note == note && fetched.table.jobs[job].run == run
    ensures fetched.contents == c.contents
  {
    fetched := NextMove(c, Quiet(Fetch(job, run, note))).value;
    OneMove(c, Quiet(Fetch(job, run, note)), fetched);
  }

  lemma BeginStartsWork(c: System, note: nat, run: nat, job: nat, urls: map<nat, string>)
    requires Prompt(c.table) && Holds(c.table, job) && c.table.jobs[job].note == note && c.table.jobs[job].run == run
    requires Due(c.table.notes[note], c.table.runs[run]) && note in c.contents && note in c.received
    ensures NextMove(c, Begin(job, urls)).Some?
    ensures var claimed := NextMove(c, Begin(job, urls)).value;
      && Prompt(claimed.table) && Working(claimed, job) && claimed.table.jobs[job].note == note
      && claimed.contents == c.contents
      && claimed.work[job] == Work(urls, [], claimed.work[job].base)
  {
  }

  lemma RowCanBeClaimed(c: System, note: nat, run: nat, job: nat, urls: map<nat, string>)
    returns (claimed: System, base: World)
    requires InReach(c, note, run, job) && Holds(c.table, job)
    requires c.table.jobs[job].note == note && c.table.jobs[job].run == run
    requires note in c.contents && SignsAll(urls, c.contents[note].count)
    ensures PromptlyMoves(c, [Begin(job, urls)], claimed) && claimed.contents == c.contents
    ensures Underway(claimed, job, note, urls, base, 0)
  {
    assert RowSound(c.table.notes[note], c.contents[note], c.received[note]);
    BeginStartsWork(c, note, run, job, urls);
    claimed := NextMove(c, Begin(job, urls)).value;
    base := claimed.work[job].base;
    assert AllTaken(0) == [];
    OneMove(c, Begin(job, urls), claimed);
  }

  /** A due row can be read and claimed by a new run. */
  lemma DueRowIsClaimed(c: System, note: nat, run: nat, job: nat, urls: map<nat, string>)
    returns (moves: seq<Move>, claimed: System, base: World)
    requires SystemInv(c) && Prompt(c.table) && note in c.table.notes && Due(c.table.notes[note], c.table.clock)
    requires run !in c.table.runs && job !in c.table.jobs
    requires note in c.contents && SignsAll(urls, c.contents[note].count)
    ensures PromptlyMoves(c, moves, claimed) && claimed.contents == c.contents
    ensures Underway(claimed, job, note, urls, base, 0)
  {
    var start, fetch, begin := [Quiet(StartRun(run))], [Quiet(Fetch(job, run, note))], [Begin(job, urls)];
    var started := RunCanStart(c, note, run, job);
    var fetched := RowCanBeFetched(started, note, run, job);
    claimed, base := RowCanBeClaimed(fetched, note, run, job, urls);
    MovesConcatenate(c, start, started, fetch, fetched);
    MovesConcatenate(c, start + fetch, fetched, begin, claimed);
    moves := start + fetch + begin;
  }

  // ---------------------------------------------------------------- the sends

  lemma AttemptGoesOn(content: Content, work: Work)
    requires |work.answers| < |StepsOf(content, work.urls, work.base)|
    requires work.answers == AllTaken(|work.answers|)
    ensures !ReportOf(work, content).finished
  {
    var steps := StepsOf(content, work.urls, work.base);
    AllAreTakenSoFar(work.answers, |steps|);
    SendingSendsPrefix(work.base, steps, work.answers);
  }

  lemma {:induction false} AllAreTakenSoFar(answers: seq<Answer>, limit: nat)
    requires |answers| <= limit && forall i :: 0 <= i < |answers| ==> answers[i].Accepted?
    ensures TakenSends(answers, limit) == |answers|
    decreases |answers|
  {
    if answers != [] {
      AllAreTakenSoFar(answers[1..], limit - 1);
    }
  }

  lemma AnswerIsRecorded(c: System, job: nat, note: nat, work: Work)
    requires Prompt(c.table) && Working(c, job) && c.table.jobs[job].note == note && c.work[job] == work
    requires !ReportOf(work, c.contents[note]).finished
    ensures NextMove(c, Answered(job, Accepted)).Some?
    ensures var more := NextMove(c, Answered(job, Accepted)).value;
      && Prompt(more.table) && Working(more, job) && more.table.jobs[job].note == note
      && more.contents == c.contents && more.work[job] == work.(answers := work.answers + [Accepted])
  {
  }

  lemma OneMoreSend(
    c: System, job: nat, note: nat, urls: map<nat, string>, base: World, taken: nat) returns (more: System)
    requires Underway(c, job, note, urls, base, taken) && taken < |StepsOf(c.contents[note], urls, base)|
    ensures PromptlyMoves(c, [Answered(job, Accepted)], more) && more.contents == c.contents
    ensures Underway(more, job, note, urls, base, taken + 1)
  {
    AttemptGoesOn(c.contents[note], c.work[job]);
    AnswerIsRecorded(c, job, note, c.work[job]);
    more := NextMove(c, Answered(job, Accepted)).value;
    assert AllTaken(taken) + [Accepted] == AllTaken(taken + 1);
    OneMove(c, Answered(job, Accepted), more);
  }

  lemma {:induction false} AllSends(
    c: System, job: nat, note: nat, urls: map<nat, string>, base: World, taken: nat)
    returns (moves: seq<Move>, done: System)
    requires Underway(c, job, note, urls, base, taken) && taken <= |StepsOf(c.contents[note], urls, base)|
    ensures PromptlyMoves(c, moves, done) && done.contents == c.contents
    ensures Underway(done, job, note, urls, base, |StepsOf(c.contents[note], urls, base)|)
    decreases |StepsOf(c.contents[note], urls, base)| - taken
  {
    if taken == |StepsOf(c.contents[note], urls, base)| {
      moves, done := [], c;
    } else {
      var more := OneMoreSend(c, job, note, urls, base, taken);
      var rest: seq<Move>;
      rest, done := AllSends(more, job, note, urls, base, taken + 1);
      moves := [Answered(job, Accepted)] + rest;
      MovesConcatenate(c, [Answered(job, Accepted)], more, rest, done);
    }
  }

  lemma SuccessIsRecorded(c: System, job: nat, note: nat)
    requires Prompt(c.table) && Working(c, job) && c.table.jobs[job].note == note
    requires ReportOf(c.work[job], c.contents[note]).finished && ReportOf(c.work[job], c.contents[note]).ok
    ensures NextMove(c, End(job, Delivered)).Some?
    ensures var end := NextMove(c, End(job, Delivered)).value;
      && Prompt(end.table) && end.contents == c.contents
      && note in end.table.notes && end.table.notes[note].status == Sent
  {
  }

  lemma AttemptSucceeds(c: System, job: nat, note: nat, urls: map<nat, string>, base: World) returns (end: System)
    requires note in c.contents
    requires Underway(c, job, note, urls, base, |StepsOf(c.contents[note], urls, base)|)
    ensures PromptlyMoves(c, [End(job, Delivered)], end) && end.contents == c.contents
    ensures note in end.table.notes && end.table.notes[note].status == Sent && SystemInv(end)
  {
    assert JobWorks(c, job);
    assert RowSound(c.table.notes[note], c.contents[note], c.received[note]);
    TakenAttemptDeliversEverything(
      base, c.contents[note].message, c.contents[note].count, urls, c.work[job].answers);
    SuccessIsRecorded(c, job, note);
    end := NextMove(c, End(job, Delivered)).value;
    OneMove(c, End(job, Delivered), end);
  }

  /**
   * Nothing that prompt workers do puts a notification in line out of reach: whenever its row is due
   * there are moves, all of them prompt, that deliver the text and every image and mark the row SENT.
   */
  lemma EveryDueRowCanBeDelivered(
    start: System, before: seq<Move>, c: System, note: nat, run: nat, job: nat, urls: map<nat, string>)
    returns (moves: seq<Move>, end: System)
    requires Empty(start) && PromptlyMoves(start, before, c)
    requires note in c.table.notes && Due(c.table.notes[note], c.table.clock)
    requires run !in c.table.runs && job !in c.table.jobs
    requires note in c.contents ==> SignsAll(urls, c.contents[note].count)
    ensures PromptlyMoves(start, before + moves, end)
    ensures note in end.table.notes && end.table.notes[note].status == Sent
    ensures note in c.contents && note in end.received
      && Everything(World(false, [], end.received[note]), c.contents[note].count)
  {
    InitialIsCurrent(start.table);
    EveryReachedSystemIsSound(start, before, c);
    ReachedIsPrompt(start, before, c);
    var claim, claimed, base := DueRowIsClaimed(c, note, run, job, urls);
    var sends, sent := AllSends(claimed, job, note, urls, base, 0);
    end := AttemptSucceeds(sent, job, note, urls, base);
    MovesConcatenate(c, claim, claimed, sends, sent);
    MovesConcatenate(c, claim + sends, sent, [End(job, Delivered)], end);
    moves := claim + sends + [End(job, Delivered)];
    MovesConcatenate(start, before, c, moves, end);
    assert RowSound(end.table.notes[note], end.contents[note], end.received[note]);
  }

  lemma {:induction false} ReachedIsPrompt(c: System, moves: seq<Move>, end: System)
    requires PromptlyMoves(c, moves, end)
    ensures Prompt(end.table)
    decreases |moves|
  {
    if moves != [] {
      ReachedIsPrompt(NextMove(c, moves[0]).value, moves[1..], end);
    }
  }
}
