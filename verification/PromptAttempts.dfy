/** The same workers when no attempt outlives the time after which it counts as stale. */
module PromptAttempts {
  import opened Results
  import opened ClaimProtocol

  ghost predicate Prompt(s: State) {
    forall k :: k in s.jobs && s.jobs[k].Attempting? ==> s.clock < s.jobs[k].claimedAt + STALE_PROCESSING_MS
  }

  ghost predicate PromptlyReaches(s: State, events: seq<Event>, end: State)
    decreases |events|
  {
    && Prompt(s)
    && if events == [] then s == end
       else Next(s, events[0]).Some? && PromptlyReaches(Next(s, events[0]).value, events[1..], end)
  }

  ghost predicate Live(s: State, note: nat) {
    exists k :: k in s.jobs && s.jobs[k].Attempting? && s.jobs[k].note == note
  }

  /** A live attempt still owns its row -- or the row was cancelled under it -- and knows its attempt count. */
  ghost predicate JobCurrent(s: State, j: Job) {
    && j.note in s.notes && j.run in s.runs
    && match j
       case Holding(run, note, snapshot) => s.notes[note] == snapshot || Touched(s.notes[note], s.runs[run])
       case Attempting(_, note, snapshot, claimedAt) =>
         && s.notes[note].attempts == snapshot.attempts + 1
         && (s.notes[note].status == Cancelled
             || (s.notes[note].status == Processing && s.notes[note].lastAttemptAt == Some(claimedAt)))
  }

  ghost predicate OneAttemptEach(s: State) {
    forall k, l ::
      && k in s.jobs && s.jobs[k].Attempting? && l in s.jobs && s.jobs[l].Attempting?
      && s.jobs[k].note == s.jobs[l].note ==>
      k == l
  }

  /** At most five attempts, and one more for every attempt that crashed without writing an outcome. */
  ghost predicate Counted(s: State, note: nat)
    requires note in s.notes
  {
    var n := s.notes[note];
    && n.attempts <= MAX_NOTIFICATION_ATTEMPTS + CrashesOf(s, note)
    && (n.status == Pending || n.status == Failed ==> n.attempts < MAX_NOTIFICATION_ATTEMPTS)
    && (n.status == Processing && !Live(s, note) ==> n.attempts < MAX_NOTIFICATION_ATTEMPTS + CrashesOf(s, note))
  }

  ghost predicate PromptInv(s: State) {
    && Inv(s) && OneAttemptEach(s)
    && (forall k :: k in s.jobs ==> JobCurrent(s, s.jobs[k]))
    && (forall note :: note in s.notes ==> Counted(s, note))
  }

  lemma InitialIsCurrent(s: State)
    requires Initial(s)
    ensures PromptInv(s)
  {
  }

  /** While attempts are prompt, a row with a live attempt is out of every run's reach. */
  lemma LiveRowIsTouched(s: State, k: nat, now: Time)
    requires Prompt(s) && k in s.jobs && s.jobs[k].Attempting? && JobCurrent(s, s.jobs[k])
    requires now <= s.clock
    ensures Touched(s.notes[s.jobs[k].note], now)
  {
  }

  lemma NoLiveAttemptOnDueRow(s: State, note: nat, now: Time)
    requires PromptInv(s) && Prompt(s) && note in s.notes && now <= s.clock && Due(s.notes[note], now)
    ensures !Live(s, note)
  {
    if k :| k in s.jobs && s.jobs[k].Attempting? && s.jobs[k].note == note {
      assert JobCurrent(s, s.jobs[k]);
      LiveRowIsTouched(s, k, now);
      TouchedIsNotDue(s.notes[note], now);
    }
  }

  // ---------------------------------------------------------------- every step

  lemma ClaimKeepsPrompt(s: State, job: nat)
    requires PromptInv(s) && Prompt(s) && ClaimStep(s, job).Some?
    ensures PromptInv(ClaimStep(s, job).value)
    ensures s.notes[s.jobs[job].note] == s.jobs[job].snapshot
  {
    var j, s' := s.jobs[job], ClaimStep(s, job).value;
    assert JobCurrent(s, j);
    if Touched(s.notes[j.note], s.runs[j.run]) {
      TouchedIsNotDue(s.notes[j.note], s.runs[j.run]);
    }
    NoLiveAttemptOnDueRow(s, j.note, s.runs[j.run]);
    ClaimKeepsInvariant(s, job);
    forall k | k in s'.jobs ensures JobCurrent(s', s'.jobs[k]) {
      if k != job {
        assert JobCurrent(s, s.jobs[k]);
      }
    }
    forall note | note in s'.notes ensures Counted(s', note) {
      assert Counted(s, note);
      if note == j.note {
        assert s'.jobs[job].Attempting? && s'.jobs[job].note == note;
      } else {
        LiveElsewhere(s, s', note);
      }
    }
  }

  /** Rows that no changed job concerns are as live as before. */
  lemma LiveElsewhere(s: State, s': State, note: nat)
    requires forall k ::
      k in s.jobs && s.jobs[k].Attempting? && s.jobs[k].note == note ==> k in s'.jobs && s'.jobs[k] == s.jobs[k]
    ensures Live(s, note) ==> Live(s', note)
  {
    if k :| k in s.jobs && s.jobs[k].Attempting? && s.jobs[k].note == note {
      assert s'.jobs[k].Attempting? && s'.jobs[k].note == note;
    }
  }

  lemma FinishKeepsPrompt(s: State, job: nat, outcome: Outcome)
    requires PromptInv(s) && FinishStep(s, job, outcome).Some?
    ensures PromptInv(FinishStep(s, job, outcome).value)
  {
    var j, s' := s.jobs[job], FinishStep(s, job, outcome).value;
    assert JobCurrent(s, j);
    FinishKeepsInvariant(s, job, outcome);
    FinishSettles(s, s.notes[j.note], j.snapshot, outcome);
    forall k | k in s'.jobs ensures JobCurrent(s', s'.jobs[k]) {
      assert JobCurrent(s, s.jobs[k]);
    }
    forall note | note in s'.notes ensures Counted(s', note) {
      assert Counted(s, note);
      if note != j.note {
        LiveElsewhere(s, s', note);
      }
    }
  }

  lemma CrashKeepsPrompt(s: State, job: nat)
    requires PromptInv(s) && Next(s, Crash(job)).Some?
    ensures PromptInv(Next(s, Crash(job)).value)
  {
    var j, s' := s.jobs[job], Next(s, Crash(job)).value;
    CrashKeepsInvariant(s, job);
    forall k | k in s'.jobs ensures JobCurrent(s', s'.jobs[k]) {
      assert JobCurrent(s, s.jobs[k]);
    }
    forall note | note in s'.notes ensures Counted(s', note) {
      assert Counted(s, note);
      if note != j.note {
        LiveElsewhere(s, s', note);
      }
    }
  }

  lemma SaveKeepsPrompt(s: State, job: nat, text: bool, images: seq<nat>)
    requires PromptInv(s) && Prompt(s) && Next(s, Save(job, text, images)).Some?
    ensures PromptInv(Next(s, Save(job, text, images)).value)
  {
    var j, s' := s.jobs[job], Next(s, Save(job, text, images)).value;
    EveryStepKeepsInvariant(s, Save(job, text, images));
    assert JobCurrent(s, j);
    forall k | k in s'.jobs ensures JobCurrent(s', s'.jobs[k]) {
      assert JobCurrent(s, s.jobs[k]);
      if s.jobs[k].Holding? && s.jobs[k].note == j.note {
        LiveRowIsTouched(s, job, s.runs[s.jobs[k].run]);
      }
    }
    forall note | note in s'.notes ensures Counted(s', note) {
      assert Counted(s, note);
      LiveElsewhere(s, s', note);
    }
  }

  lemma CancelKeepsPrompt(s: State, note: nat)
    requires PromptInv(s) && note in s.notes
    ensures PromptInv(s.(notes := s.notes[note := CancelNote(s.notes[note])]))
  {
    var s' := s.(notes := s.notes[note := CancelNote(s.notes[note])]);
    RowWriteKeepsInvariant(s, note, CancelNote(s.notes[note]));
    forall k | k in s'.jobs ensures JobCurrent(s', s'.jobs[k]) {
      assert JobCurrent(s, s.jobs[k]);
    }
    forall other | other in s'.notes ensures Counted(s', other) {
      assert Counted(s, other);
      LiveElsewhere(s, s', other);
    }
  }

  /** Steps that add rows, runs or snapshots, drop a snapshot or pass time leave rows and attempts alone. */
  lemma QuietStepKeepsPrompt(s: State, event: Event)
    requires PromptInv(s) && Next(s, event).Some?
    requires event.Tick? || event.Enqueue? || event.StartRun? || event.Fetch? || event.Drop?
    ensures PromptInv(Next(s, event).value)
  {
    var s' := Next(s, event).value;
    EveryStepKeepsInvariant(s, event);
    forall k | k in s'.jobs ensures JobCurrent(s', s'.jobs[k]) {
      if k in s.jobs {
        assert JobCurrent(s, s.jobs[k]);
      }
    }
    forall note | note in s'.notes ensures Counted(s', note) {
      if note in s.notes {
        assert Counted(s, note);
        LiveElsewhere(s, s', note);
      }
    }
  }

  lemma EveryStepKeepsPrompt(s: State, event: Event)
    requires PromptInv(s) && Prompt(s) && Next(s, event).Some?
    ensures PromptInv(Next(s, event).value)
  {
    match event
    case Tick(_) => QuietStepKeepsPrompt(s, event);
    case Enqueue(_, _) => QuietStepKeepsPrompt(s, event);
    case StartRun(_) => QuietStepKeepsPrompt(s, event);
    case Fetch(_, _, _) => QuietStepKeepsPrompt(s, event);
    case Drop(_) => QuietStepKeepsPrompt(s, event);
    case Claim(job) => ClaimKeepsPrompt(s, job);
    case Save(job, text, images) => SaveKeepsPrompt(s, job, text, images);
    case Finish(job, outcome) => FinishKeepsPrompt(s, job, outcome);
    case Crash(job) => CrashKeepsPrompt(s, job);
    case Purge(note, _) => CancelKeepsPrompt(s, note);
    case BusinessCancel(note) => CancelKeepsPrompt(s, note);
  }

  lemma {:induction false} EveryPromptStateIsCurrent(s: State, events: seq<Event>, end: State)
    requires PromptInv(s) && PromptlyReaches(s, events, end)
    ensures PromptInv(end) && Prompt(end)
    decreases |events|
  {
    if events != [] {
      EveryStepKeepsPrompt(s, events[0]);
      EveryPromptStateIsCurrent(Next(s, events[0]).value, events[1..], end);
    }
  }

  // ---------------------------------------------------------------- what that is worth

  /**
   * Attempts that end in time never overlap: a row has at most one live attempt, that attempt counts
   * itself rightly, a claim starts from the very row its run read, delivery progress included, and
   * nobody else adds to that progress while it lasts.
   */
  lemma AttemptsDoNotOverlap(start: State, events: seq<Event>, s: State)
    requires Initial(start) && PromptlyReaches(start, events, s)
    ensures OneAttemptEach(s)
    ensures forall k :: k in s.jobs && s.jobs[k].Attempting? ==>
      s.jobs[k].note in s.notes && s.notes[s.jobs[k].note].attempts == s.jobs[k].snapshot.attempts + 1
    ensures forall k :: ClaimStep(s, k).Some? ==>
      !Live(s, s.jobs[k].note) && s.notes[s.jobs[k].note] == s.jobs[k].snapshot
  {
    InitialIsCurrent(start);
    EveryPromptStateIsCurrent(start, events, s);
    forall k | k in s.jobs && s.jobs[k].Attempting?
      ensures s.jobs[k].note in s.notes && s.notes[s.jobs[k].note].attempts == s.jobs[k].snapshot.attempts + 1
    {
      assert JobCurrent(s, s.jobs[k]);
    }
    forall k | ClaimStep(s, k).Some?
      ensures !Live(s, s.jobs[k].note) && s.notes[s.jobs[k].note] == s.jobs[k].snapshot
    {
      ClaimKeepsPrompt(s, k);
      NoLiveAttemptOnDueRow(s, s.jobs[k].note, s.runs[s.jobs[k].run]);
    }
  }

  /** Five attempts at most, but for crashes: a crashed attempt writes no outcome and is not counted out. */
  lemma AttemptsAreBounded(start: State, events: seq<Event>, s: State, note: nat)
    requires Initial(start) && PromptlyReaches(start, events, s) && note in s.notes
    ensures s.notes[note].attempts <= MAX_NOTIFICATION_ATTEMPTS + CrashesOf(s, note)
  {
    InitialIsCurrent(start);
    EveryPromptStateIsCurrent(start, events, s);
    assert Counted(s, note);
  }

  ghost predicate Settled(n: Note) {
    n.status == Sent || n.status == Cancelled
  }

  /** A settled row without a live attempt is not touched by any step. */
  lemma SettledRowIsLeftAlone(s: State, event: Event, note: nat)
    requires PromptInv(s) && Next(s, event).Some?
    requires note in s.notes && Settled(s.notes[note]) && !Live(s, note)
    ensures note in Next(s, event).value.notes && Next(s, event).value.notes[note] == s.notes[note]
  {
  }

  /** Nor does an attempt on it begin. */
  lemma SettledRowStaysIdle(s: State, event: Event, note: nat)
    requires PromptInv(s) && Next(s, event).Some?
    requires note in s.notes && Settled(s.notes[note]) && !Live(s, note)
    ensures !Live(Next(s, event).value, note)
  {
    var s' := Next(s, event).value;
    forall k | k in s'.jobs && s'.jobs[k].Attempting? ensures s'.jobs[k].note != note {
      if k in s.jobs {
        assert JobCurrent(s, s.jobs[k]);
      }
    }
  }

  lemma SentRowHasNoLiveAttempt(s: State, note: nat)
    requires PromptInv(s) && note in s.notes && s.notes[note].status == Sent
    ensures !Live(s, note)
  {
    forall k | k in s.jobs && s.jobs[k].Attempting? ensures s.jobs[k].note != note {
      assert JobCurrent(s, s.jobs[k]);
    }
  }

  lemma {:induction false} SettledStaysSettled(s: State, events: seq<Event>, end: State, note: nat)
    requires PromptInv(s) && PromptlyReaches(s, events, end)
    requires note in s.notes && Settled(s.notes[note]) && !Live(s, note)
    ensures note in end.notes && end.notes[note].status == s.notes[note].status && !Live(end, note)
    decreases |events|
  {
    if events != [] {
      var next := Next(s, events[0]).value;
      EveryStepKeepsPrompt(s, events[0]);
      SettledRowIsLeftAlone(s, events[0], note);
      SettledRowStaysIdle(s, events[0], note);
      SettledStaysSettled(next, events[1..], end, note);
    }
  }

  /** SENT is final, and so is CANCELLED once no attempt on the row is under way. */
  lemma SentAndCancelledAreFinal(
    start: State, before: seq<Event>, s: State, after: seq<Event>, end: State, note: nat)
    requires Initial(start) && PromptlyReaches(start, before, s) && PromptlyReaches(s, after, end)
    requires note in s.notes && (s.notes[note].status == Sent || (s.notes[note].status == Cancelled && !Live(s, note)))
    ensures note in end.notes && end.notes[note].status == s.notes[note].status
  {
    InitialIsCurrent(start);
    EveryPromptStateIsCurrent(start, before, s);
    if s.notes[note].status == Sent {
      SentRowHasNoLiveAttempt(s, note);
    }
    SettledStaysSettled(s, after, end, note);
  }

  /** CANCELLED is left only when an attempt that was under way writes its outcome over it. */
  lemma OnlyLiveAttemptLeavesCancelled(s: State, event: Event, note: nat)
    requires PromptInv(s) && Next(s, event).Some?
    requires note in s.notes && s.notes[note].status == Cancelled
    requires Next(s, event).value.notes[note].status != Cancelled
    ensures event.Finish? && event.job in s.jobs && s.jobs[event.job].Attempting? && s.jobs[event.job].note == note
  {
  }

  /** The status an attempt leaves its row with when it ends so. */
  function StatusAfter(s: State, job: nat, outcome: Outcome): NoteStatus
    requires Attempts(s, job)
  {
    FinishNote(s.notes[s.jobs[job].note], s.jobs[job].snapshot, outcome, s.clock).status
  }

  /**
   * Whatever has become of the row, an attempt under way can put it back in line exactly when it is not
   * the last; and any attempt, the last included, marks it SENT when it succeeds.
   */
  lemma AttemptPutsBackInLineIff(s: State, job: nat)
    requires Attempts(s, job)
    ensures (exists outcome :: StatusAfter(s, job, outcome) == Failed)
      <==> s.jobs[job].snapshot.attempts + 1 < MAX_NOTIFICATION_ATTEMPTS
    ensures StatusAfter(s, job, Delivered) == Sent
    ensures forall outcome ::
      && FinishStep(s, job, outcome).Some?
      && FinishStep(s, job, outcome).value.notes[s.jobs[job].note].status == StatusAfter(s, job, outcome)
  {
    if s.jobs[job].snapshot.attempts + 1 < MAX_NOTIFICATION_ATTEMPTS {
      assert StatusAfter(s, job, Threw) == Failed;
    }
  }

  /**
   * And that does happen: a contract is settled while its reminder is being sent, the reminder is
   * cancelled, and the outcome of the send is written over it -- SENT if it succeeds, back in line if it
   * fails and was not the last.
   */
  lemma CancellationIsOverwritten(s: State, job: nat)
    requires PromptInv(s) && Attempts(s, job)
    requires s.notes[s.jobs[job].note].status == Processing
    ensures var note := s.jobs[job].note;
      && Next(s, BusinessCancel(note)).Some?
      && var cancelled := Next(s, BusinessCancel(note)).value;
         && Attempts(cancelled, job) && cancelled.notes[note].status == Cancelled
         && Next(cancelled, Finish(job, Delivered)).value.notes[note].status == Sent
         && (s.jobs[job].snapshot.attempts + 1 < MAX_NOTIFICATION_ATTEMPTS ==>
               Next(cancelled, Finish(job, Threw)).value.notes[note].status == Failed)
         && (s.jobs[job].snapshot.attempts + 1 >= MAX_NOTIFICATION_ATTEMPTS ==>
               forall outcome :: Next(cancelled, Finish(job, outcome)).value.notes[note].status != Failed)
  {
    var cancelled := Next(s, BusinessCancel(s.jobs[job].note)).value;
    assert cancelled.jobs == s.jobs;
    AttemptPutsBackInLineIff(cancelled, job);
  }
}
