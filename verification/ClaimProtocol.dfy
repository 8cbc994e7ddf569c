/** Several notification workers over one table: optimistic claims, retries with back-off, stale takeovers. */
module ClaimProtocol {
  import opened Results

  type Time = int

  const MAX_NOTIFICATION_ATTEMPTS := 5

  const STALE_PROCESSING_MS := 5 * 60 * 1000

  datatype NoteStatus = Pending | Processing | Failed | Sent | Cancelled

  /** What is known to be delivered of a message: its text, and the images at these positions. */
  datatype Progress = Progress(text: bool, images: seq<nat>)

  const NO_PROGRESS := Progress(false, [])

  datatype Note = Note(
    status: NoteStatus,
    scheduledAt: Time,
    nextAttemptAt: Option<Time>,
    lastAttemptAt: Option<Time>,
    attempts: nat,
    progress: Progress)

  /** A row as a worker read it, and when the worker claimed it if it did. */
  datatype Job =
    | Holding(run: nat, note: nat, snapshot: Note)
    | Attempting(run: nat, note: nat, snapshot: Note, claimedAt: Time)

  datatype Outcome =
    | Delivered
    | CancelledBefore
    | SendFailed(permanent: bool, retryAfter: Option<int>)
    | Threw

  /**
   * The table, one clock for all workers, the start time of every run and the rows in workers' hands.
   * Which run attempted which row, and how many attempts on a row crashed, is remembered for the
   * statements only.
   */
  datatype State = State(
    clock: Time,
    notes: map<nat, Note>,
    runs: map<nat, Time>,
    jobs: map<nat, Job>,
    attempted: set<(nat, nat)>,
    crashes: map<nat, nat>)

  datatype Event =
    | Tick(ms: nat)
    | Enqueue(note: nat, scheduledAt: Time)
    | StartRun(run: nat)
    | Fetch(job: nat, run: nat, note: nat)
    | Claim(job: nat)
    | Drop(job: nat)
    | Save(job: nat, text: bool, images: seq<nat>)
    | Finish(job: nat, outcome: Outcome)
    | Crash(job: nat)
    | Purge(note: nat, now: Time)
    | BusinessCancel(note: nat)

  // ---------------------------------------------------------------- the row predicates and writes

  predicate DueAt(time: Option<Time>, limit: Time) {
    time.None? || time.value <= limit
  }

  predicate IsStale(n: Note, now: Time) {
    n.status == Processing && DueAt(n.lastAttemptAt, now - STALE_PROCESSING_MS)
  }

  /** A waiting row whose time has come, or one whose worker has been silent for too long. */
  predicate Due(n: Note, now: Time) {
    || ((n.status == Pending || n.status == Failed) && n.scheduledAt <= now && DueAt(n.nextAttemptAt, now))
    || IsStale(n, now)
  }

  function Pow2(n: nat): nat {
    if n == 0 then 1 else 2 * Pow2(n - 1)
  }

  /** Exponential back-off capped at an hour, unless the receiver says when to come back. */
  function NextAttemptDelayMs(attempts: int, retryAfter: Option<int>): int {
    if retryAfter.Some? && retryAfter.value > 0 then retryAfter.value * 1000
    else
      var backOff := Pow2(if attempts > 1 then attempts - 1 else 0) * 60_000;
      if backOff < 3_600_000 then backOff else 3_600_000
  }

  lemma {:induction false} Pow2Grows(n: nat, m: nat)
    requires n <= m
    ensures 1 <= Pow2(n) <= Pow2(m)
    decreases m
  {
    if n < m {
      Pow2Grows(n, m - 1);
    } else if n > 0 {
      Pow2Grows(n - 1, m - 1);
    }
  }

  /** A retry is never due at once; without a hint it waits between a minute and an hour, and never less than before. */
  lemma BackOffIsPositive(attempts: int, later: int, retryAfter: Option<int>)
    requires attempts <= later
    ensures NextAttemptDelayMs(attempts, retryAfter) > 0
    ensures 60_000 <= NextAttemptDelayMs(attempts, None) <= NextAttemptDelayMs(later, None) <= 3_600_000
  {
    Pow2Grows(if attempts > 1 then attempts - 1 else 0, if later > 1 then later - 1 else 0);
  }

  function ClaimNote(n: Note, clock: Time): Note {
    n.(status := Processing, attempts := n.attempts + 1, lastAttemptAt := Some(clock))
  }

  /** The outcome is written whatever the row has become; the attempt count is taken from the snapshot. */
  function FinishNote(n: Note, snapshot: Note, outcome: Outcome, clock: Time): Note {
    var attempt := snapshot.attempts + 1;
    match outcome
    case Delivered => n.(status := Sent, nextAttemptAt := None)
    case CancelledBefore => n.(status := Cancelled, nextAttemptAt := None)
    case SendFailed(permanent, retryAfter) =>
      if permanent || attempt >= MAX_NOTIFICATION_ATTEMPTS then n.(status := Cancelled, nextAttemptAt := None)
      else n.(status := Failed, nextAttemptAt := Some(clock + NextAttemptDelayMs(attempt, retryAfter)))
    case Threw =>
      if attempt >= MAX_NOTIFICATION_ATTEMPTS then n.(status := Cancelled, nextAttemptAt := None)
      else n.(status := Failed, nextAttemptAt := Some(clock + NextAttemptDelayMs(attempt, None)))
  }

  function SaveNote(n: Note, text: bool, images: seq<nat>): Note {
    n.(progress := Progress(n.progress.text || text, n.progress.images + images))
  }

  function CancelNote(n: Note): Note {
    n.(status := Cancelled, nextAttemptAt := None)
  }

  // ---------------------------------------------------------------- when a row comes back

  /** Without a hint the first retry waits a minute and each later one twice as long, up to an hour. */
  lemma BackOffDoubles(attempts: int)
    requires attempts >= 1
    ensures NextAttemptDelayMs(1, None) == 60_000
    ensures var twice := 2 * NextAttemptDelayMs(attempts, None);
      NextAttemptDelayMs(attempts + 1, None) == if twice < 3_600_000 then twice else 3_600_000
  {
    Pow2Grows(attempts - 1, attempts);
    assert Pow2(attempts) == 2 * Pow2(attempts - 1);
    assert Pow2(0) == 1;
  }

  /** The receiver's hint in seconds, where the outcome carries one to be followed. */
  function HintOf(outcome: Outcome): int {
    if outcome.SendFailed? && outcome.retryAfter.Some? && outcome.retryAfter.value > 0 then outcome.retryAfter.value
    else 0
  }

  /** The outcome ends the row for good, whatever attempts it has left. */
  predicate EndsForGood(outcome: Outcome) {
    outcome.Delivered? || outcome.CancelledBefore? || (outcome.SendFailed? && outcome.permanent)
  }

  /**
   * A row is never due again after an outcome that ends it or after its fifth attempt. After any other
   * failure it is due from the end of the receiver's hint on or, without one, one, two, four and eight
   * minutes after its first four attempts, and not before it was scheduled.
   */
  lemma FailedRowIsDueAgainIff(n: Note, snapshot: Note, outcome: Outcome, clock: Time, at: Time)
    ensures var back := FinishNote(n, snapshot, outcome, clock);
      var minutes := [1, 2, 4, 8];
      Due(back, at) <==>
        && !EndsForGood(outcome) && snapshot.attempts < 4
        && n.scheduledAt <= at
        && clock + (if HintOf(outcome) > 0 then 1000 * HintOf(outcome) else 60_000 * minutes[snapshot.attempts]) <= at
  {
    BackOffDoubles(1);
    BackOffDoubles(2);
    BackOffDoubles(3);
  }

  /** A claimed row is out of reach for five minutes, and then due again unless its attempt has ended. */
  lemma ClaimedRowIsDueAgainIff(n: Note, clock: Time, at: Time)
    ensures Due(ClaimNote(n, clock), at) <==> clock + 300_000 <= at
    ensures ClaimNote(n, clock).attempts == n.attempts + 1 && ClaimNote(n, clock).progress == n.progress
  {
  }

  // ---------------------------------------------------------------- steps

  predicate Holds(s: State, job: nat) {
    job in s.jobs && s.jobs[job].Holding? && s.jobs[job].note in s.notes && s.jobs[job].run in s.runs
  }

  predicate Attempts(s: State, job: nat) {
    job in s.jobs && s.jobs[job].Attempting? && s.jobs[job].note in s.notes
  }

  function Without(jobs: map<nat, Job>, job: nat): map<nat, Job> {
    jobs - {job}
  }

  /** The conditional update: it takes the row only if the row is still due by the run's own clock reading. */
  function ClaimStep(s: State, job: nat): Option<State> {
    if !Holds(s, job) then None
    else
      var j := s.jobs[job];
      if !Due(s.notes[j.note], s.runs[j.run]) then None
      else
        Some(s.(
          notes := s.notes[j.note := ClaimNote(s.notes[j.note], s.clock)],
          jobs := s.jobs[job := Attempting(j.run, j.note, j.snapshot, s.clock)],
          attempted := s.attempted + {(j.run, j.note)}))
  }

  function FinishStep(s: State, job: nat, outcome: Outcome): Option<State> {
    if !Attempts(s, job) then None
    else
      var j := s.jobs[job];
      Some(s.(
        notes := s.notes[j.note := FinishNote(s.notes[j.note], j.snapshot, outcome, s.clock)],
        jobs := Without(s.jobs, job)))
  }

  function CrashesOf(s: State, note: nat): nat {
    if note in s.crashes then s.crashes[note] else 0
  }

  /** None where the step is not possible. */
  function Next(s: State, event: Event): Option<State> {
    match event
    case Tick(ms) => Some(s.(clock := s.clock + ms))
    case Enqueue(note, scheduledAt) =>
      if note in s.notes then None
      else Some(s.(notes := s.notes[note := Note(Pending, scheduledAt, None, None, 0, NO_PROGRESS)]))
    case StartRun(run) => if run in s.runs then None else Some(s.(runs := s.runs[run := s.clock]))
    case Fetch(job, run, note) =>
      if job in s.jobs || run !in s.runs || note !in s.notes || !Due(s.notes[note], s.runs[run]) then None
      else Some(s.(jobs := s.jobs[job := Holding(run, note, s.notes[note])]))
    case Claim(job) => ClaimStep(s, job)
    case Drop(job) => if Holds(s, job) then Some(s.(jobs := Without(s.jobs, job))) else None
    case Save(job, text, images) =>
      if !Attempts(s, job) then None
      else
        var note := s.jobs[job].note;
        Some(s.(notes := s.notes[note := SaveNote(s.notes[note], text, images)]))
    case Finish(job, outcome) => FinishStep(s, job, outcome)
    case Crash(job) =>
      if !Attempts(s, job) then None
      else
        var note := s.jobs[job].note;
        Some(s.(jobs := Without(s.jobs, job), crashes := s.crashes[note := CrashesOf(s, note) + 1]))
    case Purge(note, now) =>
      if note !in s.notes || now > s.clock then None
      else if s.notes[note].status == Pending || s.notes[note].status == Failed || IsStale(s.notes[note], now)
      then Some(s.(notes := s.notes[note := CancelNote(s.notes[note])]))
      else None
    case BusinessCancel(note) =>
      if note !in s.notes || s.notes[note].status == Sent || s.notes[note].status == Cancelled then None
      else Some(s.(notes := s.notes[note := CancelNote(s.notes[note])]))
  }

  /**
   * A row can be cancelled from outside unless it is SENT or cancelled already, and purged by a clock
   * reading by which it is waiting or has been silent in an attempt for five minutes. It is then never due.
   */
  lemma CancellationIsPossibleIff(s: State, note: nat, now: Time, at: Time)
    ensures Next(s, BusinessCancel(note)).Some?
      <==> note in s.notes && s.notes[note].status != Sent && s.notes[note].status != Cancelled
    ensures Next(s, Purge(note, now)).Some?
      <==> && note in s.notes && now <= s.clock
           && (s.notes[note].status == Pending || s.notes[note].status == Failed
               || (s.notes[note].status == Processing
                   && (s.notes[note].lastAttemptAt.None? || s.notes[note].lastAttemptAt.value + 300_000 <= now)))
    ensures forall event :: (event == BusinessCancel(note) || event == Purge(note, now)) && Next(s, event).Some? ==>
      && Next(s, event).value.notes[note].status == Cancelled && !Due(Next(s, event).value.notes[note], at)
      && Next(s, event).value == s.(notes := s.notes[note := Next(s, event).value.notes[note]])
  {
  }

  /** A sequence of possible steps. */
  ghost predicate Reaches(s: State, events: seq<Event>, end: State)
    decreases |events|
  {
    if events == [] then s == end
    else Next(s, events[0]).Some? && Reaches(Next(s, events[0]).value, events[1..], end)
  }

  ghost predicate Initial(s: State) {
    && s.runs == map[] && s.jobs == map[] && s.attempted == {} && s.crashes == map[]
    && forall n :: n in s.notes ==> s.notes[n].status == Pending && s.notes[n].attempts == 0
  }

  // ---------------------------------------------------------------- what a run can no longer take

  /** Not due by a run's clock reading, and nothing that is done to the row from then on makes it so. */
  predicate Touched(n: Note, now: Time) {
    match n.status
    case Pending => false
    case Processing => n.lastAttemptAt.Some? && n.lastAttemptAt.value > now - STALE_PROCESSING_MS
    case Failed => n.nextAttemptAt.Some? && n.nextAttemptAt.value > now
    case Sent => true
    case Cancelled => true
  }

  /** The same row but for delivery progress saved meanwhile. */
  predicate SameRow(n: Note, snapshot: Note) {
    n.(progress := snapshot.progress) == snapshot
  }

  lemma TouchedIsNotDue(n: Note, now: Time)
    requires Touched(n, now)
    ensures !Due(n, now)
  {
  }

  ghost predicate JobSound(s: State, j: Job) {
    && j.run in s.runs && j.note in s.notes
    && match j
       case Holding(run, note, snapshot) =>
         Due(snapshot, s.runs[run]) && (SameRow(s.notes[note], snapshot) || Touched(s.notes[note], s.runs[run]))
       case Attempting(run, note, snapshot, claimedAt) =>
         (run, note) in s.attempted && s.runs[run] <= claimedAt <= s.clock
  }

  /** What holds however long attempts take. */
  ghost predicate Inv(s: State) {
    && (forall r :: r in s.runs ==> s.runs[r] <= s.clock)
    && (forall k :: k in s.jobs ==> JobSound(s, s.jobs[k]))
    && (forall a :: a in s.attempted ==>
          a.0 in s.runs && a.1 in s.notes && Touched(s.notes[a.1], s.runs[a.0]))
  }

  lemma InitialIsSound(s: State)
    requires Initial(s)
    ensures Inv(s)
  {
  }

  /** A write that leaves a row as some run could have read it, or beyond every run that has started. */
  ghost predicate Settles(s: State, before: Note, after: Note) {
    || SameRow(after, before)
    || (forall r :: r in s.runs ==> Touched(after, s.runs[r]))
  }

  lemma SettledRowStaysTouched(s: State, before: Note, after: Note, now: Time)
    requires Settles(s, before, after) && Touched(before, now)
    requires exists r :: r in s.runs && s.runs[r] == now
    ensures Touched(after, now)
  {
  }

  /** Writing one row in such a way keeps the invariant. */
  lemma RowWriteKeepsInvariant(s: State, note: nat, after: Note)
    requires Inv(s) && note in s.notes && Settles(s, s.notes[note], after)
    ensures Inv(s.(notes := s.notes[note := after]))
  {
    var s' := s.(notes := s.notes[note := after]);
    forall k | k in s'.jobs ensures JobSound(s', s'.jobs[k]) {
      assert JobSound(s, s.jobs[k]);
      var j := s.jobs[k];
      if j.note == note && j.Holding? && Touched(s.notes[note], s.runs[j.run]) {
        SettledRowStaysTouched(s, s.notes[note], after, s.runs[j.run]);
      }
    }
    forall a | a in s'.attempted ensures a.1 in s'.notes && Touched(s'.notes[a.1], s'.runs[a.0]) {
      if a.1 == note {
        SettledRowStaysTouched(s, s.notes[note], after, s.runs[a.0]);
      }
    }
  }

  lemma ClaimSettles(s: State, n: Note)
    requires Inv(s)
    ensures Settles(s, n, ClaimNote(n, s.clock))
  {
  }

  lemma FinishSettles(s: State, n: Note, snapshot: Note, outcome: Outcome)
    requires Inv(s)
    ensures Settles(s, n, FinishNote(n, snapshot, outcome, s.clock))
  {
    BackOffIsPositive(snapshot.attempts + 1, snapshot.attempts + 1,
      if outcome.SendFailed? then outcome.retryAfter else None);
    BackOffIsPositive(snapshot.attempts + 1, snapshot.attempts + 1, None);
  }

  lemma DroppingKeepsInvariant(s: State, job: nat)
    requires Inv(s)
    ensures Inv(s.(jobs := Without(s.jobs, job)))
  {
    var s' := s.(jobs := Without(s.jobs, job));
    forall k | k in s'.jobs ensures JobSound(s', s'.jobs[k]) {
      assert JobSound(s, s.jobs[k]);
    }
  }

  lemma ClaimKeepsInvariant(s: State, job: nat)
    requires Inv(s) && ClaimStep(s, job).Some?
    ensures Inv(ClaimStep(s, job).value)
  {
    var j := s.jobs[job];
    ClaimSettles(s, s.notes[j.note]);
    var claimed := s.(notes := s.notes[j.note := ClaimNote(s.notes[j.note], s.clock)]);
    RowWriteKeepsInvariant(s, j.note, ClaimNote(s.notes[j.note], s.clock));
    var s' := ClaimStep(s, job).value;
    forall k | k in s'.jobs ensures JobSound(s', s'.jobs[k]) {
      if k != job {
        assert JobSound(claimed, claimed.jobs[k]);
      }
    }
  }

  lemma FinishKeepsInvariant(s: State, job: nat, outcome: Outcome)
    requires Inv(s) && FinishStep(s, job, outcome).Some?
    ensures Inv(FinishStep(s, job, outcome).value)
  {
    var j := s.jobs[job];
    var after := FinishNote(s.notes[j.note], j.snapshot, outcome, s.clock);
    FinishSettles(s, s.notes[j.note], j.snapshot, outcome);
    RowWriteKeepsInvariant(s, j.note, after);
    DroppingKeepsInvariant(s.(notes := s.notes[j.note := after]), job);
  }

  lemma FetchKeepsInvariant(s: State, job: nat, run: nat, note: nat)
    requires Inv(s) && Next(s, Fetch(job, run, note)).Some?
    ensures Inv(Next(s, Fetch(job, run, note)).value)
  {
    var s' := Next(s, Fetch(job, run, note)).value;
    forall k | k in s'.jobs ensures JobSound(s', s'.jobs[k]) {
      if k != job {
        assert JobSound(s, s.jobs[k]);
      }
    }
  }

  lemma TickKeepsInvariant(s: State, ms: nat)
    requires Inv(s)
    ensures Inv(s.(clock := s.clock + ms))
  {
    var s' := s.(clock := s.clock + ms);
    forall k | k in s'.jobs ensures JobSound(s', s'.jobs[k]) {
      assert JobSound(s, s.jobs[k]);
    }
  }

  lemma EnqueueKeepsInvariant(s: State, note: nat, scheduledAt: Time)
    requires Inv(s) && note !in s.notes
    ensures Inv(Next(s, Enqueue(note, scheduledAt)).value)
  {
    var s' := Next(s, Enqueue(note, scheduledAt)).value;
    forall k | k in s'.jobs ensures JobSound(s', s'.jobs[k]) {
      assert JobSound(s, s.jobs[k]);
    }
  }

  lemma StartKeepsInvariant(s: State, run: nat)
    requires Inv(s) && run !in s.runs
    ensures Inv(Next(s, StartRun(run)).value)
  {
    var s' := Next(s, StartRun(run)).value;
    forall k | k in s'.jobs ensures JobSound(s', s'.jobs[k]) {
      assert JobSound(s, s.jobs[k]);
    }
  }

  lemma CrashKeepsInvariant(s: State, job: nat)
    requires Inv(s) && Next(s, Crash(job)).Some?
    ensures Inv(Next(s, Crash(job)).value)
  {
    DroppingKeepsInvariant(s, job);
    var dropped, s' := s.(jobs := Without(s.jobs, job)), Next(s, Crash(job)).value;
    forall k | k in s'.jobs ensures JobSound(s', s'.jobs[k]) {
      assert JobSound(dropped, dropped.jobs[k]);
    }
  }

  lemma EveryStepKeepsInvariant(s: State, event: Event)
    requires Inv(s) && Next(s, event).Some?
    ensures Inv(Next(s, event).value)
  {
    match event
    case Tick(ms) => TickKeepsInvariant(s, ms);
    case Enqueue(note, scheduledAt) => EnqueueKeepsInvariant(s, note, scheduledAt);
    case StartRun(run) => StartKeepsInvariant(s, run);
    case Fetch(job, run, note) => FetchKeepsInvariant(s, job, run, note);
    case Claim(job) => ClaimKeepsInvariant(s, job);
    case Drop(job) => DroppingKeepsInvariant(s, job);
    case Save(job, text, images) =>
      var note := s.jobs[job].note;
      RowWriteKeepsInvariant(s, note, SaveNote(s.notes[note], text, images));
    case Finish(job, outcome) => FinishKeepsInvariant(s, job, outcome);
    case Crash(job) => CrashKeepsInvariant(s, job);
    case Purge(note, _) => RowWriteKeepsInvariant(s, note, CancelNote(s.notes[note]));
    case BusinessCancel(note) => RowWriteKeepsInvariant(s, note, CancelNote(s.notes[note]));
  }

  lemma {:induction false} EveryReachableStateIsSound(s: State, events: seq<Event>, end: State)
    requires Inv(s) && Reaches(s, events, end)
    ensures Inv(end)
    decreases |events|
  {
    if events != [] {
      EveryStepKeepsInvariant(s, events[0]);
      EveryReachableStateIsSound(Next(s, events[0]).value, events[1..], end);
    }
  }

  /**
   * Whatever the other workers did in the meantime and however long their attempts take: a claim that
   * succeeds finds the row as its run read it -- no attempt was begun or finished in between -- and no
   * run claims a row a second time.
   */
  lemma ClaimsAreExclusive(start: State, events: seq<Event>, s: State, job: nat)
    requires Initial(start) && Reaches(start, events, s)
    requires ClaimStep(s, job).Some?
    ensures SameRow(s.notes[s.jobs[job].note], s.jobs[job].snapshot)
    ensures s.notes[s.jobs[job].note].attempts == s.jobs[job].snapshot.attempts
    ensures (s.jobs[job].run, s.jobs[job].note) !in s.attempted
  {
    InitialIsSound(start);
    EveryReachableStateIsSound(start, events, s);
    var j := s.jobs[job];
    assert JobSound(s, j);
    if Touched(s.notes[j.note], s.runs[j.run]) {
      TouchedIsNotDue(s.notes[j.note], s.runs[j.run]);
    }
  }
}
