/** Runs of the notification workers that show what their bounds are worth. */
module AttemptRuns {
  import opened Results
  import opened ClaimProtocol
  import opened PromptAttempts

  /** No row in anyone's hands; the row is due, was attempted and crashed so often, and later runs are free to start. */
  ghost predicate Waiting(s: State, note: nat, attempts: nat, crashes: nat, run: nat) {
    && s.jobs == map[] && note in s.notes && s.notes[note].scheduledAt <= s.clock && Due(s.notes[note], s.clock)
    && s.notes[note].attempts == attempts && CrashesOf(s, note) == crashes
    && forall r :: r in s.runs ==> r < run
  }

  /** One worker has claimed the row and is attempting it; nobody else does anything. */
  ghost predicate Attempted(s: State, note: nat, attempts: nat, crashes: nat, run: nat) {
    && note in s.notes && s.notes[note].scheduledAt <= s.clock
    && s.notes[note].status == Processing && s.notes[note].lastAttemptAt == Some(s.clock)
    && s.notes[note].attempts == attempts && CrashesOf(s, note) == crashes
    && (exists snapshot: Note :: snapshot.attempts + 1 == attempts
          && s.jobs == map[0 := Attempting(run, note, snapshot, s.clock)])
    && forall r :: r in s.runs ==> r <= run
  }

  lemma {:induction false} PromptRunsConcatenate(
    s: State, first: seq<Event>, middle: State, rest: seq<Event>, end: State)
    requires PromptlyReaches(s, first, middle) && PromptlyReaches(middle, rest, end)
    ensures PromptlyReaches(s, first + rest, end)
    decreases |first|
  {
    if first == [] {
      assert first + rest == rest;
    } else {
      assert (first + rest)[1..] == first[1..] + rest;
      PromptRunsConcatenate(Next(s, first[0]).value, first[1..], middle, rest, end);
    }
  }

  lemma OneStep(s: State, event: Event)
    requires Prompt(s) && Next(s, event).Some? && Prompt(Next(s, event).value)
    ensures PromptlyReaches(s, [event], Next(s, event).value)
  {
    assert PromptlyReaches(Next(s, event).value, [], Next(s, event).value);
  }

  lemma TwoSteps(s: State, first: Event, middle: State, second: Event, end: State)
    requires Prompt(s) && Prompt(middle) && Prompt(end)
    requires Next(s, first) == Some(middle) && Next(middle, second) == Some(end)
    ensures PromptlyReaches(s, [first, second], end)
  {
    OneStep(s, first);
    OneStep(middle, second);
    PromptRunsConcatenate(s, [first], middle, [second], end);
    assert [first] + [second] == [first, second];
  }

  /** A waiting row can be read and claimed by a new run. */
  lemma WaitingIsClaimed(s: State, note: nat, attempts: nat, crashes: nat, run: nat) returns (end: State)
    requires Waiting(s, note, attempts, crashes, run)
    ensures PromptlyReaches(s, [StartRun(run), Fetch(0, run, note), Claim(0)], end)
    ensures Attempted(end, note, attempts + 1, crashes, run)
  {
    var started := Next(s, StartRun(run)).value;
    var fetched := Next(started, Fetch(0, run, note)).value;
    end := Next(fetched, Claim(0)).value;
    TwoSteps(s, StartRun(run), started, Fetch(0, run, note), fetched);
    OneStep(fetched, Claim(0));
    PromptRunsConcatenate(s, [StartRun(run), Fetch(0, run, note)], fetched, [Claim(0)], end);
    assert [StartRun(run), Fetch(0, run, note)] + [Claim(0)] == [StartRun(run), Fetch(0, run, note), Claim(0)];
    assert end.jobs == map[0 := Attempting(run, note, s.notes[note], end.clock)];
  }

  /** An attempt short of the limit can fail, and the row is due again within the hour. */
  lemma FailedIsWaiting(s: State, note: nat, attempts: nat, crashes: nat, run: nat) returns (end: State)
    requires Attempted(s, note, attempts, crashes, run) && attempts < MAX_NOTIFICATION_ATTEMPTS
    ensures PromptlyReaches(s, [Finish(0, Threw), Tick(3_600_000)], end)
    ensures Waiting(end, note, attempts, crashes, run + 1)
  {
    var failed := Next(s, Finish(0, Threw)).value;
    BackOffIsPositive(attempts, attempts, None);
    assert failed.jobs == map[];
    end := Next(failed, Tick(3_600_000)).value;
    TwoSteps(s, Finish(0, Threw), failed, Tick(3_600_000), end);
  }

  /** An attempt can crash, and the row is taken over as soon as the worker has been silent for too long. */
  lemma CrashedIsWaiting(s: State, note: nat, attempts: nat, crashes: nat, run: nat) returns (end: State)
    requires Attempted(s, note, attempts, crashes, run)
    ensures PromptlyReaches(s, [Crash(0), Tick(STALE_PROCESSING_MS)], end)
    ensures Waiting(end, note, attempts, crashes + 1, run + 1)
  {
    var crashed := Next(s, Crash(0)).value;
    assert crashed.jobs == map[];
    end := Next(crashed, Tick(STALE_PROCESSING_MS)).value;
    TwoSteps(s, Crash(0), crashed, Tick(STALE_PROCESSING_MS), end);
  }

  /** One attempt more, ending in a failure or in a crash. */
  lemma OneMoreAttempt(s: State, note: nat, attempts: nat, crashes: nat, run: nat, crash: bool)
    returns (events: seq<Event>, end: State)
    requires Waiting(s, note, attempts, crashes, run) && (crash || attempts + 1 < MAX_NOTIFICATION_ATTEMPTS)
    ensures PromptlyReaches(s, events, end)
    ensures Waiting(end, note, attempts + 1, if crash then crashes + 1 else crashes, run + 1)
  {
    var claim := [StartRun(run), Fetch(0, run, note), Claim(0)];
    var claimed := WaitingIsClaimed(s, note, attempts, crashes, run);
    var outcome: seq<Event>;
    if crash {
      end := CrashedIsWaiting(claimed, note, attempts + 1, crashes, run);
      outcome := [Crash(0), Tick(STALE_PROCESSING_MS)];
    } else {
      end := FailedIsWaiting(claimed, note, attempts + 1, crashes, run);
      outcome := [Finish(0, Threw), Tick(3_600_000)];
    }
    events := claim + outcome;
    PromptRunsConcatenate(s, claim, claimed, outcome, end);
  }

  /** As many failures as stay short of the limit, and then as many crashes as one likes. */
  lemma {:induction false} FailuresThenCrashes(s: State, note: nat, failures: nat, crashes: nat)
    returns (events: seq<Event>, end: State)
    requires Waiting(s, note, 0, 0, 0) && failures < MAX_NOTIFICATION_ATTEMPTS
    ensures PromptlyReaches(s, events, end)
    ensures Waiting(end, note, failures + crashes, crashes, failures + crashes)
    decreases failures + crashes
  {
    if failures + crashes == 0 {
      events, end := [], s;
    } else {
      var crash := crashes > 0;
      var before, middle := FailuresThenCrashes(
        s, note, if crash then failures else failures - 1, if crash then crashes - 1 else 0);
      var last: seq<Event>;
      last, end := OneMoreAttempt(
        middle, note, failures + crashes - 1, if crash then crashes - 1 else 0, failures + crashes - 1, crash);
      events := before + last;
      PromptRunsConcatenate(s, before, middle, last, end);
    }
  }

  lemma EnqueuedIsWaiting(start: State, note: nat) returns (end: State)
    requires Initial(start) && note !in start.notes
    ensures PromptlyReaches(start, [Enqueue(note, start.clock)], end)
    ensures Waiting(end, note, 0, 0, 0)
  {
    end := Next(start, Enqueue(note, start.clock)).value;
    OneStep(start, Enqueue(note, start.clock));
  }

  /**
   * The bound on attempts is exact: however many attempts on a row crash, there is a run in which as
   * many do and the row is attempted five times more -- so with one crash it is attempted a sixth time.
   */
  lemma AttemptBoundIsReached(start: State, note: nat, crashes: nat) returns (events: seq<Event>, s: State)
    requires Initial(start) && note !in start.notes
    ensures PromptlyReaches(start, events, s)
    ensures note in s.notes && CrashesOf(s, note) == crashes
    ensures s.notes[note].attempts == MAX_NOTIFICATION_ATTEMPTS + crashes
  {
    var enqueued := EnqueuedIsWaiting(start, note);
    var history, waiting := FailuresThenCrashes(enqueued, note, MAX_NOTIFICATION_ATTEMPTS - 1, crashes);
    var run := MAX_NOTIFICATION_ATTEMPTS - 1 + crashes;
    var claim := [StartRun(run), Fetch(0, run, note), Claim(0)];
    s := WaitingIsClaimed(waiting, note, run, crashes, run);
    PromptRunsConcatenate(enqueued, history, waiting, claim, s);
    PromptRunsConcatenate(start, [Enqueue(note, start.clock)], enqueued, history + claim, s);
    events := [Enqueue(note, start.clock)] + (history + claim);
  }

  /** From any start there is a run in which a row is cancelled and then, by its own attempt, put back in line. */
  lemma CancellationIsOverwrittenInSomeRun(start: State, note: nat)
    returns (events: seq<Event>, cancelled: State, after: State)
    requires Initial(start) && note !in start.notes
    ensures PromptlyReaches(start, events, cancelled) && PromptlyReaches(cancelled, [Finish(0, Threw)], after)
    ensures note in cancelled.notes && cancelled.notes[note].status == Cancelled
    ensures note in after.notes && after.notes[note].status == Failed
  {
    var enqueue, claim := [Enqueue(note, start.clock)], [StartRun(0), Fetch(0, 0, note), Claim(0)];
    var enqueued := EnqueuedIsWaiting(start, note);
    var claimed := WaitingIsClaimed(enqueued, note, 0, 0, 0);
    cancelled := Next(claimed, BusinessCancel(note)).value;
    after := Next(cancelled, Finish(0, Threw)).value;
    OneStep(claimed, BusinessCancel(note));
    OneStep(cancelled, Finish(0, Threw));
    PromptRunsConcatenate(enqueued, claim, claimed, [BusinessCancel(note)], cancelled);
    PromptRunsConcatenate(start, enqueue, enqueued, claim + [BusinessCancel(note)], cancelled);
    events := enqueue + (claim + [BusinessCancel(note)]);
  }

  // ---------------------------------------------------------------- when a cancellation is final

  /** Cancelled now, and in whatever prompt workers make of it. */
  ghost predicate StaysCancelled(s: State, note: nat) {
    forall after, end :: PromptlyReaches(s, after, end) ==> note in end.notes && end.notes[note].status == Cancelled
  }

  lemma {:induction false} ReachedIsPrompt(s: State, events: seq<Event>, end: State)
    requires PromptlyReaches(s, events, end)
    ensures Prompt(end)
    decreases |events|
  {
    if events != [] {
      ReachedIsPrompt(Next(s, events[0]).value, events[1..], end);
    }
  }

  lemma LiveAttemptCanSend(s: State, note: nat)
    requires Prompt(s) && note in s.notes && Live(s, note)
    ensures !StaysCancelled(s, note)
  {
    var k :| k in s.jobs && s.jobs[k].Attempting? && s.jobs[k].note == note;
    var sent := Next(s, Finish(k, Delivered)).value;
    OneStep(s, Finish(k, Delivered));
    assert sent.notes[note].status == Sent;
  }

  /** Exactly when CANCELLED is final: when no attempt on the row is under way. */
  lemma CancelledIsFinalIff(start: State, before: seq<Event>, s: State, note: nat)
    requires Initial(start) && PromptlyReaches(start, before, s)
    requires note in s.notes && s.notes[note].status == Cancelled
    ensures StaysCancelled(s, note) <==> !Live(s, note)
  {
    if Live(s, note) {
      ReachedIsPrompt(start, before, s);
      LiveAttemptCanSend(s, note);
    } else {
      forall after, end | PromptlyReaches(s, after, end)
        ensures note in end.notes && end.notes[note].status == Cancelled
      {
        SentAndCancelledAreFinal(start, before, s, after, end, note);
      }
    }
  }
}
