/**
 * The workers and the sends of their attempts together: many workers, any interleaving of their
 * sends, claims, crashes and cancellations, and what every recipient receives of it.
 */
module ExactlyOnce {
  import opened Results
  import opened TelegramDelivery
  import opened NotificationDelivery
  import opened ClaimProtocol
  import opened PromptAttempts

  /** The text of a notification and the number of its images, fixed when it is first attempted. */
  datatype Content = Content(message: string, count: nat)

  /** A running attempt: the addresses it could sign, the answers so far, and what it took to be delivered before. */
  datatype Work = Work(urls: map<nat, string>, answers: seq<Answer>, base: World)

  datatype System = System(
    table: State,
    contents: map<nat, Content>,
    received: map<nat, seq<Piece>>,
    work: map<nat, Work>)

  /** Every answer to a send is a move of its own, so other workers may move between any two sends. */
  datatype Move =
    | Quiet(event: Event)
    | Post(note: nat, scheduledAt: Time, content: Content)
    | Begin(job: nat, urls: map<nat, string>)
    | Answered(job: nat, answer: Answer)
    | End(job: nat, outcome: Outcome)
    | Abandon(job: nat)

  // ---------------------------------------------------------------- an attempt, answer by answer

  /** Where an attempt stands after the answers so far; sends not yet answered have not happened. */
  function Progressed(work: Work, content: Content): World {
    AttemptOf(work.base, content.message, content.count, work.urls, work.answers).0
  }

  function ReportOf(work: Work, content: Content): Report {
    AttemptOf(work.base, content.message, content.count, work.urls, work.answers).1
  }

  ghost predicate Extends(before: World, after: World) {
    before.received <= after.received && before.sent <= after.sent && (before.textSent ==> after.textSent)
  }

  lemma {:induction false} OneMoreAnswerSent(w: World, steps: seq<Step>, answers: seq<Answer>, answer: Answer)
    ensures Extends(w, SendAll(w, steps, answers).world)
    ensures var r, r' := SendAll(w, steps, answers), SendAll(w, steps, answers + [answer]);
      && Extends(r.world, r'.world)
      && (!r.died ==> r' == r.(answers := r.answers + [answer]))
    decreases |steps|
  {
    if steps != [] {
      if answers == [] {
        assert Tail([answer]) == [];
      } else {
        assert Head(answers + [answer]) == Head(answers) && Tail(answers + [answer]) == Tail(answers) + [answer];
        if Head(answers).Accepted? {
          OneMoreAnswerSent(Record(w, steps[0]), steps[1..], Tail(answers), answer);
        }
      }
    }
  }

  lemma ConcludingExtends(r: Sending, message: string, unresolved: int)
    ensures Extends(r.world, Conclude(r, message, unresolved).0)
  {
  }

  /** One more answer adds to what was delivered and takes nothing back. */
  lemma OneMoreAnswer(work: Work, content: Content, answer: Answer)
    ensures Extends(Progressed(work, content), Progressed(work.(answers := work.answers + [answer]), content))
  {
    var steps := StepsFor(work.base, content.message, content.count, work.urls);
    var unresolved := Unresolved(work.base, content.count, work.urls);
    OneMoreAnswerSent(work.base, steps, work.answers, answer);
    ConcludingExtends(SendAll(work.base, steps, work.answers + [answer]), content.message, unresolved);
  }

  lemma NothingAnsweredYet(work: Work, content: Content)
    requires work.answers == []
    ensures Progressed(work, content) == work.base
  {
  }

  // ---------------------------------------------------------------- moves

  /** An attempt ends by its report once all sends are answered, by a check before them, or by an exception. */
  predicate Permitted(work: Work, content: Content, outcome: Outcome) {
    match outcome
    case Delivered => ReportOf(work, content).finished && ReportOf(work, content).ok
    case SendFailed(_, _) => ReportOf(work, content).finished && !ReportOf(work, content).ok
    case CancelledBefore => work.answers == []
    case Threw => true
  }

  predicate IsQuiet(event: Event) {
    event.Tick? || event.StartRun? || event.Fetch? || event.Drop? || event.Purge? || event.BusinessCancel?
  }

  predicate Working(c: System, job: nat) {
    && Attempts(c.table, job) && job in c.work
    && c.table.jobs[job].note in c.contents && c.table.jobs[job].note in c.received
  }

  /** The attempt plans from the progress in the snapshot of its run. */
  function WorkFrom(snapshot: Note, received: seq<Piece>, urls: map<nat, string>): Work {
    Work(urls, [], World(snapshot.progress.text, snapshot.progress.images, received))
  }

  function BeginMove(c: System, job: nat, urls: map<nat, string>): Option<System> {
    if ClaimStep(c.table, job).None? || c.table.jobs[job].note !in c.received then None
    else
      var j := c.table.jobs[job];
      Some(c.(
        table := ClaimStep(c.table, job).value,
        work := c.work[job := WorkFrom(j.snapshot, c.received[j.note], urls)]))
  }

  /** What a send adds: to the row's progress and, in the same step, to what the recipient has. */
  ghost function AnsweredMove(c: System, job: nat, answer: Answer): Option<System> {
    if !Working(c, job) || answer.Died? || ReportOf(c.work[job], c.contents[c.table.jobs[job].note]).finished then None
    else
      var note, work := c.table.jobs[job].note, c.work[job];
      var before, after := Progressed(work, c.contents[note]),
        Progressed(work.(answers := work.answers + [answer]), c.contents[note]);
      OneMoreAnswer(work, c.contents[note], answer);
      Some(c.(
        table := Next(c.table, Save(job, after.textSent && !before.textSent, after.sent[|before.sent|..])).value,
        received := c.received[note := c.received[note] + after.received[|before.received|..]],
        work := c.work[job := work.(answers := work.answers + [answer])]))
  }

  ghost function NextMove(c: System, move: Move): Option<System> {
    match move
    case Quiet(event) =>
      if !IsQuiet(event) || Next(c.table, event).None? then None
      else Some(c.(table := Next(c.table, event).value))
    case Post(note, scheduledAt, content) =>
      if content.message == "" || Next(c.table, Enqueue(note, scheduledAt)).None? then None
      else
        Some(c.(
          table := Next(c.table, Enqueue(note, scheduledAt)).value,
          contents := c.contents[note := content],
          received := c.received[note := []]))
    case Begin(job, urls) => BeginMove(c, job, urls)
    case Answered(job, answer) => AnsweredMove(c, job, answer)
    case End(job, outcome) =>
      if !Working(c, job) || !Permitted(c.work[job], c.contents[c.table.jobs[job].note], outcome) then None
      else Some(c.(table := FinishStep(c.table, job, outcome).value))
    case Abandon(job) =>
      if Next(c.table, Crash(job)).None? then None else Some(c.(table := Next(c.table, Crash(job)).value))
  }

  /** A run of moves in which every attempt ends before it counts as stale. */
  ghost predicate PromptlyMoves(c: System, moves: seq<Move>, end: System)
    decreases |moves|
  {
    && Prompt(c.table)
    && if moves == [] then c == end
       else NextMove(c, moves[0]).Some? && PromptlyMoves(NextMove(c, moves[0]).value, moves[1..], end)
  }

  ghost predicate Empty(c: System) {
    Initial(c.table) && c.table.notes == map[] && c.contents == map[] && c.received == map[] && c.work == map[]
  }

  // ---------------------------------------------------------------- what every move keeps

  function WorldOf(n: Note, received: seq<Piece>): World {
    World(n.progress.text, n.progress.images, received)
  }

  /** The saved progress is what was received, each piece once; a row that is SENT has everything. */
  ghost predicate RowSound(n: Note, content: Content, received: seq<Piece>) {
    && content.message != ""
    && Faithful(WorldOf(n, received)) && NothingElse(WorldOf(n, received), content.count)
    && (n.status == Sent ==> Everything(WorldOf(n, received), content.count))
  }

  ghost predicate WorkSound(n: Note, content: Content, received: seq<Piece>, work: Work) {
    && Faithful(work.base) && NothingElse(work.base, content.count)
    && WorldOf(n, received) == Progressed(work, content)
  }

  ghost predicate RowsSound(c: System) {
    forall note :: note in c.table.notes ==>
      note in c.contents && note in c.received && RowSound(c.table.notes[note], c.contents[note], c.received[note])
  }

  ghost predicate JobWorks(c: System, k: nat)
    requires k in c.table.jobs
  {
    var note := c.table.jobs[k].note;
    && note in c.table.notes && note in c.contents && note in c.received && k in c.work
    && WorkSound(c.table.notes[note], c.contents[note], c.received[note], c.work[k])
  }

  ghost predicate WorksSound(c: System) {
    forall k :: k in c.table.jobs && c.table.jobs[k].Attempting? ==> JobWorks(c, k)
  }

  ghost predicate SystemInv(c: System) {
    PromptInv(c.table) && RowsSound(c) && WorksSound(c)
  }

  /** Moves that leave progress, receipts and running attempts alone keep everything. */
  lemma UntouchedStaysSound(c: System, c': System)
    requires SystemInv(c) && PromptInv(c'.table)
    requires c'.contents == c.contents && c'.received == c.received && c'.work == c.work
    requires c'.table.notes.Keys == c.table.notes.Keys
    requires forall note :: note in c.table.notes ==>
      && c'.table.notes[note].progress == c.table.notes[note].progress
      && (c'.table.notes[note].status == Sent ==> c.table.notes[note].status == Sent)
    requires forall k :: k in c'.table.jobs && c'.table.jobs[k].Attempting? ==>
      k in c.table.jobs && c.table.jobs[k] == c'.table.jobs[k]
    ensures SystemInv(c')
  {
    forall k | k in c'.table.jobs && c'.table.jobs[k].Attempting? ensures JobWorks(c', k) {
      assert JobWorks(c, k);
    }
  }

  /** What quiet events leave alone: the progress of rows, SENT, and running attempts. */
  lemma QuietLeavesAttemptsAlone(s: State, event: Event)
    requires IsQuiet(event) && Next(s, event).Some?
    ensures var s' := Next(s, event).value;
      && s'.notes.Keys == s.notes.Keys
      && (forall note :: note in s.notes ==>
            && s'.notes[note].progress == s.notes[note].progress
            && (s'.notes[note].status == Sent ==> s.notes[note].status == Sent))
      && (forall k :: k in s'.jobs && s'.jobs[k].Attempting? ==> k in s.jobs && s.jobs[k] == s'.jobs[k])
  {
  }

  lemma QuietKeepsInvariant(c: System, event: Event)
    requires SystemInv(c) && Prompt(c.table) && IsQuiet(event) && Next(c.table, event).Some?
    ensures SystemInv(c.(table := Next(c.table, event).value))
  {
    EveryStepKeepsPrompt(c.table, event);
    QuietLeavesAttemptsAlone(c.table, event);
    UntouchedStaysSound(c, c.(table := Next(c.table, event).value));
  }

  lemma AbandonKeepsInvariant(c: System, job: nat)
    requires SystemInv(c) && Prompt(c.table) && Next(c.table, Crash(job)).Some?
    ensures SystemInv(c.(table := Next(c.table, Crash(job)).value))
  {
    EveryStepKeepsPrompt(c.table, Crash(job));
    UntouchedStaysSound(c, c.(table := Next(c.table, Crash(job)).value));
  }

  lemma PostKeepsInvariant(c: System, note: nat, scheduledAt: Time, content: Content)
    requires SystemInv(c) && Prompt(c.table) && NextMove(c, Post(note, scheduledAt, content)).Some?
    ensures SystemInv(NextMove(c, Post(note, scheduledAt, content)).value)
  {
    var c' := NextMove(c, Post(note, scheduledAt, content)).value;
    EveryStepKeepsPrompt(c.table, Enqueue(note, scheduledAt));
    forall k | k in c'.table.jobs && c'.table.jobs[k].Attempting? ensures JobWorks(c', k) {
      assert JobWorks(c, k);
    }
  }

  /** A claim starts from the very progress of the row, so what the attempt takes to be delivered is delivered. */
  /** A new attempt starts from the progress of its row, since nobody has touched that since the snapshot. */
  lemma BegunJobWorks(c: System, job: nat, urls: map<nat, string>)
    requires SystemInv(c) && Prompt(c.table) && BeginMove(c, job, urls).Some?
    ensures var c' := BeginMove(c, job, urls).value; job in c'.table.jobs && JobWorks(c', job)
  {
    var c', j := BeginMove(c, job, urls).value, c.table.jobs[job];
    NoLiveAttemptOnDueRow(c.table, j.note, c.table.runs[j.run]);
    NothingAnsweredYet(c'.work[job], c.contents[j.note]);
  }

  /** What a claim leaves alone: progress, receipts, and the work of every other attempt. */
  ghost predicate OnlyBegins(c: System, c': System, job: nat) {
    && c'.contents == c.contents && c'.received == c.received && c'.table.notes.Keys == c.table.notes.Keys
    && (forall note :: note in c.table.notes ==>
          && c'.table.notes[note].progress == c.table.notes[note].progress
          && (c'.table.notes[note].status == Sent ==> c.table.notes[note].status == Sent))
    && (forall k :: k != job && k in c'.table.jobs && c'.table.jobs[k].Attempting? ==>
          k in c.table.jobs && c.table.jobs[k] == c'.table.jobs[k])
    && (forall k :: k != job && k in c.work ==> k in c'.work && c'.work[k] == c.work[k])
  }

  lemma BeginOnlyBegins(c: System, job: nat, urls: map<nat, string>)
    requires BeginMove(c, job, urls).Some?
    ensures OnlyBegins(c, BeginMove(c, job, urls).value, job)
  {
  }

  lemma OnlyBeginningKeepsSound(c: System, c': System, job: nat)
    requires RowsSound(c) && WorksSound(c) && OnlyBegins(c, c', job)
    requires job in c'.table.jobs && JobWorks(c', job)
    ensures RowsSound(c') && WorksSound(c')
  {
    forall k | k in c'.table.jobs && c'.table.jobs[k].Attempting? ensures JobWorks(c', k) {
      if k != job {
        assert JobWorks(c, k);
      }
    }
  }

  lemma BeginKeepsInvariant(c: System, job: nat, urls: map<nat, string>)
    requires SystemInv(c) && Prompt(c.table) && BeginMove(c, job, urls).Some?
    ensures SystemInv(BeginMove(c, job, urls).value)
  {
    ClaimKeepsPrompt(c.table, job);
    BegunJobWorks(c, job, urls);
    BeginOnlyBegins(c, job, urls);
    OnlyBeginningKeepsSound(c, BeginMove(c, job, urls).value, job);
  }

  lemma AttemptKeepsWorldSound(work: Work, content: Content)
    requires content.message != "" && Faithful(work.base) && NothingElse(work.base, content.count)
    ensures Faithful(Progressed(work, content)) && NothingElse(Progressed(work, content), content.count)
    ensures ReportOf(work, content).ok ==> Everything(Progressed(work, content), content.count)
  {
    AttemptIsFaithful(work.base, content.message, content.count, work.urls, work.answers);
  }

  /** The row after a send holds exactly the progress of the attempt. */
  lemma SavedProgress(n: Note, received: seq<Piece>, before: World, after: World)
    requires WorldOf(n, received) == before && Extends(before, after)
    ensures WorldOf(
        SaveNote(n, after.textSent && !before.textSent, after.sent[|before.sent|..]),
        received + after.received[|before.received|..]) == after
  {
  }

  lemma LiveRowIsNotSent(s: State, k: nat)
    requires PromptInv(s) && k in s.jobs && s.jobs[k].Attempting?
    ensures s.jobs[k].note in s.notes && s.notes[s.jobs[k].note].status != Sent
  {
    assert JobCurrent(s, s.jobs[k]);
  }

  lemma AnsweredRow(n: Note, content: Content, received: seq<Piece>, work: Work, more: Work, answer: Answer)
    requires RowSound(n, content, received) && WorkSound(n, content, received, work) && n.status != Sent
    requires more == work.(answers := work.answers + [answer])
    ensures var before, after := Progressed(work, content), Progressed(more, content);
      && Extends(before, after)
      && var n' := SaveNote(n, after.textSent && !before.textSent, after.sent[|before.sent|..]);
         var received' := received + after.received[|before.received|..];
         RowSound(n', content, received') && WorkSound(n', content, received', more)
  {
    OneMoreAnswer(work, content, answer);
    SavedProgress(n, received, Progressed(work, content), Progressed(more, content));
    AttemptKeepsWorldSound(more, content);
  }

  lemma AnsweredWrites(c: System, job: nat, answer: Answer, note: nat, work: Work)
    requires AnsweredMove(c, job, answer).Some? && note == c.table.jobs[job].note && work == c.work[job]
    ensures var c', more := AnsweredMove(c, job, answer).value, work.(answers := work.answers + [answer]);
      var before, after := Progressed(work, c.contents[note]), Progressed(more, c.contents[note]);
      && note in c'.table.notes && note in c'.received && job in c'.work && c'.contents == c.contents
      && Extends(before, after)
      && c'.table.notes[note]
         == SaveNote(c.table.notes[note], after.textSent && !before.textSent, after.sent[|before.sent|..])
      && c'.received[note] == c.received[note] + after.received[|before.received|..]
      && c'.work[job] == more
  {
    OneMoreAnswer(work, c.contents[note], answer);
  }

  lemma AnsweredRowIsSound(c: System, job: nat, answer: Answer)
    requires SystemInv(c) && AnsweredMove(c, job, answer).Some?
    ensures var c', note := AnsweredMove(c, job, answer).value, c.table.jobs[job].note;
      && note in c'.table.notes && note in c'.contents && note in c'.received && job in c'.work
      && RowSound(c'.table.notes[note], c'.contents[note], c'.received[note])
      && WorkSound(c'.table.notes[note], c'.contents[note], c'.received[note], c'.work[job])
  {
    var note, work := c.table.jobs[job].note, c.work[job];
    assert JobWorks(c, job);
    LiveRowIsNotSent(c.table, job);
    AnsweredWrites(c, job, answer, note, work);
    AnsweredRow(c.table.notes[note], c.contents[note], c.received[note], work,
      work.(answers := work.answers + [answer]), answer);
  }

  /** Only the row of a live attempt and its work differ, or the attempt is over. */
  ghost predicate DiffersAt(c: System, c': System, job: nat) {
    && job in c.table.jobs && c.table.jobs[job].Attempting? && c'.contents == c.contents
    && c'.table.notes.Keys == c.table.notes.Keys
    && (forall note :: note in c.table.notes && note != c.table.jobs[job].note ==>
          c'.table.notes[note] == c.table.notes[note] && note in c.received && note in c'.received
          && c'.received[note] == c.received[note])
    && (forall k :: k in c'.table.jobs && c'.table.jobs[k].Attempting? ==>
          k in c.table.jobs && c.table.jobs[k] == c'.table.jobs[k])
    && (forall k :: k != job && k in c.work ==> k in c'.work && c'.work[k] == c.work[k])
  }

  /** No other attempt shares the row, so nothing else is affected. */
  lemma OneRowKeepsInvariant(c: System, c': System, job: nat)
    requires RowsSound(c) && WorksSound(c) && OneAttemptEach(c.table) && DiffersAt(c, c', job)
    requires var note := c.table.jobs[job].note;
      && note in c'.table.notes && note in c'.contents && note in c'.received
      && RowSound(c'.table.notes[note], c'.contents[note], c'.received[note])
    requires job in c'.table.jobs && c'.table.jobs[job].Attempting? ==> JobWorks(c', job)
    ensures RowsSound(c') && WorksSound(c')
  {
    OthersKeepWorking(c, c', job);
  }

  lemma OthersKeepWorking(c: System, c': System, job: nat)
    requires OneAttemptEach(c.table) && WorksSound(c) && DiffersAt(c, c', job)
    ensures forall k :: k != job && k in c'.table.jobs && c'.table.jobs[k].Attempting? ==> JobWorks(c', k)
  {
    forall k | k != job && k in c'.table.jobs && c'.table.jobs[k].Attempting? ensures JobWorks(c', k) {
      assert JobWorks(c, k);
    }
  }

  lemma AnsweredDiffersAt(c: System, job: nat, answer: Answer)
    requires RowsSound(c) && AnsweredMove(c, job, answer).Some?
    ensures DiffersAt(c, AnsweredMove(c, job, answer).value, job)
    ensures AnsweredMove(c, job, answer).value.table.jobs == c.table.jobs
  {
  }

  lemma AnsweredKeepsPrompt(c: System, job: nat, answer: Answer)
    requires PromptInv(c.table) && Prompt(c.table) && AnsweredMove(c, job, answer).Some?
    ensures PromptInv(AnsweredMove(c, job, answer).value.table)
  {
    var note := c.table.jobs[job].note;
    var before := Progressed(c.work[job], c.contents[note]);
    var after := Progressed(c.work[job].(answers := c.work[job].answers + [answer]), c.contents[note]);
    OneMoreAnswer(c.work[job], c.contents[note], answer);
    SaveKeepsPrompt(c.table, job, after.textSent && !before.textSent, after.sent[|before.sent|..]);
  }

  lemma AnsweredKeepsRows(c: System, job: nat, answer: Answer)
    requires SystemInv(c) && AnsweredMove(c, job, answer).Some?
    ensures RowsSound(AnsweredMove(c, job, answer).value) && WorksSound(AnsweredMove(c, job, answer).value)
  {
    AnsweredRowIsSound(c, job, answer);
    AnsweredDiffersAt(c, job, answer);
    OneRowKeepsInvariant(c, AnsweredMove(c, job, answer).value, job);
  }

  lemma AnsweredKeepsInvariant(c: System, job: nat, answer: Answer)
    requires SystemInv(c) && Prompt(c.table) && AnsweredMove(c, job, answer).Some?
    ensures SystemInv(AnsweredMove(c, job, answer).value)
  {
    AnsweredKeepsPrompt(c, job, answer);
    AnsweredKeepsRows(c, job, answer);
  }

  lemma EndedRowIsSound(c: System, job: nat, outcome: Outcome)
    requires SystemInv(c) && Working(c, job) && Permitted(c.work[job], c.contents[c.table.jobs[job].note], outcome)
    ensures var note := c.table.jobs[job].note;
      RowSound(FinishNote(c.table.notes[note], c.table.jobs[job].snapshot, outcome, c.table.clock),
        c.contents[note], c.received[note])
  {
    assert JobWorks(c, job);
    LiveRowIsNotSent(c.table, job);
    AttemptKeepsWorldSound(c.work[job], c.contents[c.table.jobs[job].note]);
  }

  lemma EndKeepsInvariant(c: System, job: nat, outcome: Outcome)
    requires SystemInv(c) && Prompt(c.table) && NextMove(c, End(job, outcome)).Some?
    ensures SystemInv(NextMove(c, End(job, outcome)).value)
  {
    FinishKeepsPrompt(c.table, job, outcome);
    EndedRowIsSound(c, job, outcome);
    EndDiffersAt(c, job, outcome);
    OneRowKeepsInvariant(c, NextMove(c, End(job, outcome)).value, job);
  }

  lemma EndDiffersAt(c: System, job: nat, outcome: Outcome)
    requires RowsSound(c) && NextMove(c, End(job, outcome)).Some?
    ensures DiffersAt(c, NextMove(c, End(job, outcome)).value, job)
  {
  }

  lemma EveryMoveKeepsInvariant(c: System, move: Move)
    requires SystemInv(c) && Prompt(c.table) && NextMove(c, move).Some?
    ensures SystemInv(NextMove(c, move).value)
  {
    match move
    case Quiet(event) => QuietKeepsInvariant(c, event);
    case Post(note, scheduledAt, content) => PostKeepsInvariant(c, note, scheduledAt, content);
    case Begin(job, urls) => BeginKeepsInvariant(c, job, urls);
    case Answered(job, answer) => AnsweredKeepsInvariant(c, job, answer);
    case End(job, outcome) => EndKeepsInvariant(c, job, outcome);
    case Abandon(job) => AbandonKeepsInvariant(c, job);
  }

  lemma {:induction false} EveryReachedSystemIsSound(c: System, moves: seq<Move>, end: System)
    requires SystemInv(c) && PromptlyMoves(c, moves, end)
    ensures SystemInv(end)
    decreases |moves|
  {
    if moves != [] {
      EveryMoveKeepsInvariant(c, moves[0]);
      EveryReachedSystemIsSound(NextMove(c, moves[0]).value, moves[1..], end);
    }
  }

  /**
   * However many workers there are and however their steps interleave, as long as attempts end before
   * they count as stale: no recipient gets anything twice or anything that is not theirs, and a
   * notification that is SENT reached its recipient exactly once, the text and every image.
   */
  lemma SentIsDeliveredExactlyOnce(start: System, moves: seq<Move>, c: System, note: nat)
    requires Empty(start) && PromptlyMoves(start, moves, c) && note in c.table.notes
    ensures note in c.contents && note in c.received
    ensures var got := World(false, [], c.received[note]);
      && NoRepeats(c.received[note]) && NothingElse(got, c.contents[note].count)
      && (c.table.notes[note].status == Sent ==> Everything(got, c.contents[note].count))
  {
    InitialIsCurrent(start.table);
    EveryReachedSystemIsSound(start, moves, c);
    assert RowSound(c.table.notes[note], c.contents[note], c.received[note]);
  }
}
