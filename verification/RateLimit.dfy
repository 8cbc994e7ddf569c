/** The in-process request limiter: a counter and a window start for every key, in a table with a cap. */
module RateLimit {
  import opened Results

  const MAX_TRACKED_KEYS := 5_000

  datatype Bucket = Bucket(count: int, windowStart: int)

  datatype Options = Options(windowMs: int, max: int)

  datatype Verdict = Verdict(allowed: bool, retryAfterSeconds: int, remaining: int)

  /** A map that remembers the order in which its keys came. */
  datatype Table = Table(order: seq<string>, buckets: map<string, Bucket>)

  // ---------------------------------------------------------------- one key

  function CeilSeconds(ms: int): int {
    (ms + 999) / 1000
  }

  predicate IsFresh(bucket: Option<Bucket>, now: int, options: Options) {
    bucket.None? || now - bucket.value.windowStart >= options.windowMs
  }

  function CheckBucket(bucket: Option<Bucket>, now: int, options: Options): (Bucket, Verdict) {
    if IsFresh(bucket, now, options) then (Bucket(1, now), Verdict(true, 0, options.max - 1))
    else if bucket.value.count >= options.max then
      var wait := CeilSeconds(bucket.value.windowStart + options.windowMs - now);
      (bucket.value, Verdict(false, if wait > 1 then wait else 1, 0))
    else
      var count := bucket.value.count + 1;
      (bucket.value.(count := count), Verdict(true, 0, options.max - count))
  }

  // ---------------------------------------------------------------- the table

  function Find(t: Table, key: string): Option<Bucket> {
    if key in t.buckets then Some(t.buckets[key]) else None
  }

  function DropOldest(t: Table): Table {
    if t.order == [] then t else Table(t.order[1..], t.buckets - {t.order[0]})
  }

  function Put(t: Table, key: string, bucket: Bucket): Table {
    Table(if key in t.buckets then t.order else t.order + [key], t.buckets[key := bucket])
  }

  /** Before a window is opened in a full table the oldest key goes, whichever it is. */
  function MakeRoom(t: Table, key: string, now: int, options: Options): Table {
    if IsFresh(Find(t, key), now, options) && |t.buckets| >= MAX_TRACKED_KEYS then DropOldest(t) else t
  }

  function Check(t: Table, key: string, now: int, options: Options): (Table, Verdict) {
    var (bucket, verdict) := CheckBucket(Find(t, key), now, options);
    (Put(MakeRoom(t, key, now, options), key, bucket), verdict)
  }

  ghost predicate Distinct(keys: seq<string>) {
    forall i, j :: 0 <= i < j < |keys| ==> keys[i] != keys[j]
  }

  ghost predicate Valid(t: Table) {
    && Distinct(t.order)
    && (forall key :: key in t.order <==> key in t.buckets)
    && |t.order| == |t.buckets| <= MAX_TRACKED_KEYS
  }

  class RateLimiter {
    var order: seq<string>
    var buckets: map<string, Bucket>

    constructor ()
      ensures State() == Table([], map[])
    {
      order, buckets := [], map[];
    }

    function State(): Table
      reads this
    {
      Table(order, buckets)
    }

    method Set(key: string, bucket: Bucket)
      modifies this
      ensures State() == Put(old(State()), key, bucket)
    {
      if key !in buckets {
        order := order + [key];
      }
      buckets := buckets[key := bucket];
    }

    method CheckRateLimit(key: string, now: int, options: Options) returns (verdict: Verdict)
      modifies this
      ensures (State(), verdict) == Check(old(State()), key, now, options)
    {
      if key !in buckets || now - buckets[key].windowStart >= options.windowMs {
        if |buckets| >= MAX_TRACKED_KEYS && order != [] {
          buckets := buckets - {order[0]};
          order := order[1..];
        }
        Set(key, Bucket(1, now));
        return Verdict(true, 0, options.max - 1);
      }
      var existing := buckets[key];
      if existing.count >= options.max {
        var wait := CeilSeconds(existing.windowStart + options.windowMs - now);
        assert buckets[key := existing] == buckets;
        return Verdict(false, if wait > 1 then wait else 1, 0);
      }
      Set(key, existing.(count := existing.count + 1));
      return Verdict(true, 0, options.max - (existing.count + 1));
    }
  }

  lemma DropKeepsValid(t: Table)
    requires Valid(t)
    ensures Valid(DropOldest(t))
    ensures t.order != [] ==> |DropOldest(t).buckets| == |t.buckets| - 1
  {
    if t.order != [] {
      var oldest := t.order[0];
      assert t.order == [oldest] + t.order[1..];
      assert |t.buckets.Keys - {oldest}| == |t.buckets.Keys| - 1;
      assert (t.buckets - {oldest}).Keys == t.buckets.Keys - {oldest};
    }
  }

  lemma PutKeepsValid(t: Table, key: string, bucket: Bucket)
    requires Valid(t) && (key in t.buckets || |t.buckets| < MAX_TRACKED_KEYS)
    ensures Valid(Put(t, key, bucket))
  {
    assert t.buckets[key := bucket].Keys == t.buckets.Keys + {key};
  }

  /** Whatever keys come, the table never holds more than its cap, and its order lists exactly its keys. */
  lemma CheckKeepsCap(t: Table, key: string, now: int, options: Options)
    requires Valid(t)
    ensures Valid(Check(t, key, now, options).0)
  {
    DropKeepsValid(t);
    PutKeepsValid(MakeRoom(t, key, now, options), key, CheckBucket(Find(t, key), now, options).0);
  }

  datatype Call = Call(key: string, now: int, options: Options)

  function After(t: Table, calls: seq<Call>): Table
    decreases |calls|
  {
    if calls == [] then t else After(Check(t, calls[0].key, calls[0].now, calls[0].options).0, calls[1..])
  }

  lemma {:induction false} NeverMoreThanTheCap(t: Table, calls: seq<Call>)
    requires Valid(t)
    ensures Valid(After(t, calls))
    decreases |calls|
  {
    if calls != [] {
      CheckKeepsCap(t, calls[0].key, calls[0].now, calls[0].options);
      NeverMoreThanTheCap(Check(t, calls[0].key, calls[0].now, calls[0].options).0, calls[1..]);
    }
  }

  // ---------------------------------------------------------------- how many calls pass

  /** Calls of one key that pass within the half-open interval from a to a plus one window. */
  function Passed(t: Table, calls: seq<Call>, key: string, a: int, options: Options): nat
    decreases |calls|
  {
    if calls == [] then 0
    else
      var call := calls[0];
      var (t', verdict) := Check(t, call.key, call.now, call.options);
      (if call.key == key && verdict.allowed && a <= call.now < a + options.windowMs then 1 else 0)
      + Passed(t', calls[1..], key, a, options)
  }

  /** Clocks do not run back, the key is always checked with the same options, and no other call evicts it. */
  ghost predicate Undisturbed(t: Table, calls: seq<Call>, key: string, from: int, options: Options)
    decreases |calls|
  {
    calls == [] ||
    (var call := calls[0];
     var t' := Check(t, call.key, call.now, call.options).0;
     && from <= call.now
     && (call.key == key ==> call.options == options)
     && (call.key != key && key in t.buckets ==> key in t'.buckets)
     && Undisturbed(t', calls[1..], key, call.now, options))
  }

  /** A bucket as checks leave it. */
  ghost predicate Sound(bucket: Option<Bucket>, from: int, options: Options) {
    bucket.Some? ==> 1 <= bucket.value.count <= options.max && bucket.value.windowStart <= from
  }

  /** The most calls that can still pass within the interval. */
  function Allowance(bucket: Option<Bucket>, a: int, options: Options): int {
    if bucket.None? || bucket.value.windowStart + options.windowMs <= a then 2 * options.max - 1
    else if bucket.value.windowStart >= a then options.max - bucket.value.count
    else 2 * options.max - bucket.value.count
  }

  /** A call spends no more of the allowance than it should. */
  lemma OneCallSpends(bucket: Option<Bucket>, from: int, now: int, a: int, options: Options)
    requires options.max >= 1 && options.windowMs > 0 && Sound(bucket, from, options)
    requires from <= now < a + options.windowMs
    ensures var (bucket', verdict) := CheckBucket(bucket, now, options);
      && Sound(Some(bucket'), now, options)
      && (if verdict.allowed && a <= now then 1 else 0) + Allowance(Some(bucket'), a, options)
         <= Allowance(bucket, a, options)
  {
  }

  lemma OtherCallsLeaveBucket(t: Table, call: Call, key: string)
    requires call.key != key
    requires key in t.buckets ==> key in Check(t, call.key, call.now, call.options).0.buckets
    ensures Find(Check(t, call.key, call.now, call.options).0, key) == Find(t, key)
  {
  }

  lemma OwnCallSetsBucket(t: Table, call: Call)
    ensures Find(Check(t, call.key, call.now, call.options).0, call.key)
      == Some(CheckBucket(Find(t, call.key), call.now, call.options).0)
  {
  }

  lemma {:induction false} NothingPassesLater(
    t: Table, calls: seq<Call>, key: string, from: int, a: int, options: Options)
    requires Undisturbed(t, calls, key, from, options) && from >= a + options.windowMs
    ensures Passed(t, calls, key, a, options) == 0
    decreases |calls|
  {
    if calls != [] {
      var call := calls[0];
      NothingPassesLater(Check(t, call.key, call.now, call.options).0, calls[1..], key, call.now, a, options);
    }
  }

  lemma AllowanceIsNonNegative(bucket: Option<Bucket>, from: int, a: int, options: Options)
    requires options.max >= 1 && Sound(bucket, from, options)
    ensures Allowance(bucket, a, options) >= 0
  {
  }

  lemma {:induction false} PassedWithinAllowance(
    t: Table, calls: seq<Call>, key: string, from: int, a: int, options: Options)
    requires options.max >= 1 && options.windowMs > 0
    requires Undisturbed(t, calls, key, from, options) && Sound(Find(t, key), from, options)
    ensures Passed(t, calls, key, a, options) <= Allowance(Find(t, key), a, options)
    decreases |calls|
  {
    AllowanceIsNonNegative(Find(t, key), from, a, options);
    if calls != [] {
      var call := calls[0];
      var t' := Check(t, call.key, call.now, call.options).0;
      if call.now >= a + options.windowMs {
        NothingPassesLater(t', calls[1..], key, call.now, a, options);
      } else if call.key == key {
        OneCallSpends(Find(t, key), from, call.now, a, options);
        OwnCallSetsBucket(t, call);
        PassedWithinAllowance(t', calls[1..], key, call.now, a, options);
      } else {
        OtherCallsLeaveBucket(t, call, key);
        PassedWithinAllowance(t', calls[1..], key, call.now, a, options);
      }
    }
  }

  /**
   * However calls are timed, fewer than twice the limit pass within any interval as long as the
   * window. The options call it a rolling window; it is not one, or the limit itself would be the bound.
   */
  lemma FewerThanTwiceTheLimit(calls: seq<Call>, key: string, from: int, a: int, options: Options)
    requires options.max >= 1 && options.windowMs > 0
    requires Undisturbed(Table([], map[]), calls, key, from, options)
    ensures Passed(Table([], map[]), calls, key, a, options) <= 2 * options.max - 1
  {
    PassedWithinAllowance(Table([], map[]), calls, key, from, a, options);
  }

  // ---------------------------------------------------------------- the bound is reached

  function Burst(key: string, now: int, options: Options, n: nat): seq<Call> {
    seq(n, i => Call(key, now, options))
  }

  function OnlyKey(key: string, bucket: Bucket): Table {
    Table([key], map[key := bucket])
  }

  predicate Within(now: int, a: int, options: Options) {
    a <= now < a + options.windowMs
  }

  /** A call of the only key while its window is running and its limit is not reached. */
  lemma RunningPasses(key: string, bucket: Bucket, now: int, options: Options, rest: seq<Call>, a: int)
    requires bucket.windowStart <= now < bucket.windowStart + options.windowMs && bucket.count < options.max
    ensures Passed(OnlyKey(key, bucket), [Call(key, now, options)] + rest, key, a, options)
      == (if Within(now, a, options) then 1 else 0)
         + Passed(OnlyKey(key, bucket.(count := bucket.count + 1)), rest, key, a, options)
  {
    var more := bucket.(count := bucket.count + 1);
    assert ([Call(key, now, options)] + rest)[1..] == rest;
    assert map[key := bucket][key := more] == map[key := more];
  }

  lemma BurstCons(key: string, now: int, options: Options, n: nat, rest: seq<Call>)
    requires n > 0
    ensures Burst(key, now, options, n) + rest == [Call(key, now, options)] + (Burst(key, now, options, n - 1) + rest)
  {
  }

  /** Inside a running window calls pass until the limit is reached. */
  lemma {:induction false} BurstPasses(
    key: string, bucket: Bucket, full: Bucket, now: int, options: Options, n: nat, rest: seq<Call>, a: int)
    requires bucket.windowStart <= now < bucket.windowStart + options.windowMs && bucket.count + n <= options.max
    requires full == bucket.(count := bucket.count + n) && Within(now, a, options)
    ensures Passed(OnlyKey(key, bucket), Burst(key, now, options, n) + rest, key, a, options)
      == n + Passed(OnlyKey(key, full), rest, key, a, options)
    decreases n
  {
    if n == 0 {
      assert Burst(key, now, options, 0) + rest == rest;
    } else {
      BurstCons(key, now, options, n, rest);
      RunningPasses(key, bucket, now, options, Burst(key, now, options, n - 1) + rest, a);
      BurstPasses(key, bucket.(count := bucket.count + 1), full, now, options, n - 1, rest, a);
    }
  }

  /** A call that opens the first window of the only key. */
  lemma FirstCallPasses(key: string, now: int, options: Options, rest: seq<Call>, a: int)
    ensures Passed(Table([], map[]), [Call(key, now, options)] + rest, key, a, options)
      == (if Within(now, a, options) then 1 else 0) + Passed(OnlyKey(key, Bucket(1, now)), rest, key, a, options)
  {
    assert ([Call(key, now, options)] + rest)[1..] == rest;
    assert Check(Table([], map[]), key, now, options).0.order == [key];
  }

  /** A call that opens its next window. */
  lemma NextWindowPasses(key: string, bucket: Bucket, now: int, options: Options, rest: seq<Call>, a: int)
    requires now >= bucket.windowStart + options.windowMs
    ensures Passed(OnlyKey(key, bucket), [Call(key, now, options)] + rest, key, a, options)
      == (if Within(now, a, options) then 1 else 0) + Passed(OnlyKey(key, Bucket(1, now)), rest, key, a, options)
  {
    assert ([Call(key, now, options)] + rest)[1..] == rest;
    assert |map[key := bucket]| == 1;
    assert map[key := bucket][key := Bucket(1, now)] == map[key := Bucket(1, now)];
  }

  /** Calls of one key only, with the same options, on a clock that does not run back. */
  ghost predicate Steady(calls: seq<Call>, key: string, from: int, options: Options)
    decreases |calls|
  {
    calls == [] ||
    (calls[0].key == key && calls[0].options == options && from <= calls[0].now
     && Steady(calls[1..], key, calls[0].now, options))
  }

  lemma {:induction false} SteadyIsUndisturbed(t: Table, calls: seq<Call>, key: string, from: int, options: Options)
    requires Steady(calls, key, from, options)
    ensures Undisturbed(t, calls, key, from, options)
    decreases |calls|
  {
    if calls != [] {
      SteadyIsUndisturbed(
        Check(t, calls[0].key, calls[0].now, calls[0].options).0, calls[1..], key, calls[0].now, options);
    }
  }

  lemma SteadyCons(key: string, now: int, options: Options, rest: seq<Call>, from: int)
    requires from <= now && Steady(rest, key, now, options)
    ensures Steady([Call(key, now, options)] + rest, key, from, options)
  {
    assert ([Call(key, now, options)] + rest)[1..] == rest;
  }

  lemma {:induction false} SteadyBurst(key: string, now: int, options: Options, n: nat, rest: seq<Call>, from: int)
    requires from <= now && Steady(rest, key, now, options)
    ensures Steady(Burst(key, now, options, n) + rest, key, from, options)
    decreases n
  {
    if n == 0 {
      assert Burst(key, now, options, 0) + rest == rest;
      if rest != [] {
        assert from <= rest[0].now;
      }
    } else {
      BurstCons(key, now, options, n, rest);
      SteadyBurst(key, now, options, n - 1, rest, now);
      SteadyCons(key, now, options, Burst(key, now, options, n - 1) + rest, from);
    }
  }

  /** One call to open a window, the rest of the limit just before it ends, and the whole limit right after. */
  function WorstCase(key: string, options: Options): seq<Call>
    requires options.max >= 1
  {
    var w, m := options.windowMs, options.max;
    [Call(key, 0, options)]
    + (Burst(key, w - 1, options, m - 1) + ([Call(key, w, options)] + (Burst(key, w, options, m - 1) + [])))
  }

  lemma WorstCaseIsSteady(key: string, options: Options)
    requires options.max >= 1 && options.windowMs >= 2
    ensures Undisturbed(Table([], map[]), WorstCase(key, options), key, 0, options)
  {
    var w, m := options.windowMs, options.max;
    var last := Burst(key, w, options, m - 1) + [];
    var second := [Call(key, w, options)] + last;
    var first := Burst(key, w - 1, options, m - 1) + second;
    SteadyBurst(key, w, options, m - 1, [], w);
    SteadyCons(key, w, options, last, w - 1);
    SteadyBurst(key, w - 1, options, m - 1, second, 0);
    SteadyCons(key, 0, options, first, 0);
    SteadyIsUndisturbed(Table([], map[]), WorstCase(key, options), key, 0, options);
  }

  /** Right after the window the whole limit passes again. */
  lemma NextLimitPasses(key: string, options: Options, last: seq<Call>)
    requires options.max >= 1 && options.windowMs >= 2
    requires last == Burst(key, options.windowMs, options, options.max - 1) + []
    ensures Passed(
        OnlyKey(key, Bucket(options.max, 0)), [Call(key, options.windowMs, options)] + last, key,
        options.windowMs - 1, options) == options.max
  {
    var w, m := options.windowMs, options.max;
    NextWindowPasses(key, Bucket(m, 0), w, options, last, w - 1);
    BurstPasses(key, Bucket(1, w), Bucket(m, w), w, options, m - 1, [], w - 1);
  }

  lemma FirstLimitPasses(key: string, options: Options, burst: seq<Call>, second: seq<Call>, a: int)
    requires options.max >= 1 && options.windowMs >= 2 && a == options.windowMs - 1
    requires burst == Burst(key, a, options, options.max - 1)
    ensures Passed(Table([], map[]), [Call(key, 0, options)] + (burst + second), key, a, options)
      == options.max - 1 + Passed(OnlyKey(key, Bucket(options.max, 0)), second, key, a, options)
  {
    FirstCallPasses(key, 0, options, burst + second, a);
    BurstPasses(key, Bucket(1, 0), Bucket(options.max, 0), a, options, options.max - 1, second, a);
  }

  /** The bound cannot be improved, whatever the limit: one fewer than twice the limit can pass in one window length. */
  lemma TwiceTheLimitLessOneCanPass(key: string, options: Options)
    requires options.max >= 1 && options.windowMs >= 2
    ensures Undisturbed(Table([], map[]), WorstCase(key, options), key, 0, options)
    ensures Passed(Table([], map[]), WorstCase(key, options), key, options.windowMs - 1, options) == 2 * options.max - 1
  {
    var w, m := options.windowMs, options.max;
    var last := Burst(key, w, options, m - 1) + [];
    FirstLimitPasses(key, options, Burst(key, w - 1, options, m - 1), [Call(key, w, options)] + last, w - 1);
    NextLimitPasses(key, options, last);
    WorstCaseIsSteady(key, options);
  }

  // ---------------------------------------------------------------- the advice given on refusal

  /**
   * Waiting as long as a refusal says is enough, and a whole second less is not; until the window ends
   * every earlier call is refused too.
   */
  lemma WaitingIsEnough(bucket: Option<Bucket>, now: int, later: int, options: Options)
    requires !CheckBucket(bucket, now, options).1.allowed && now <= later
    ensures CheckBucket(bucket, now, options).0 == bucket.value
    ensures later < bucket.value.windowStart + options.windowMs <==> !CheckBucket(bucket, later, options).1.allowed
    ensures var seconds := CheckBucket(bucket, now, options).1.retryAfterSeconds;
      && seconds >= 1
      && (later >= now + 1000 * seconds ==> CheckBucket(bucket, later, options).1.allowed)
      && (later <= now + 1000 * (seconds - 1) ==> !CheckBucket(bucket, later, options).1.allowed)
  {
  }

  /** A window that is full refuses every call. */
  lemma {:induction false} FullWindowRefuses(key: string, bucket: Bucket, now: int, options: Options, n: nat)
    requires bucket.windowStart <= now < bucket.windowStart + options.windowMs && bucket.count >= options.max
    ensures Passed(OnlyKey(key, bucket), Burst(key, now, options, n), key, now, options) == 0
  {
    if n > 0 {
      var rest := Burst(key, now, options, n - 1);
      assert Burst(key, now, options, n)[1..] == rest;
      assert map[key := bucket][key := bucket] == map[key := bucket];
      FullWindowRefuses(key, bucket, now, options, n - 1);
    }
  }

  lemma BurstSplits(key: string, now: int, options: Options, m: nat, n: nat)
    requires m <= n
    ensures Burst(key, now, options, n) == Burst(key, now, options, m) + Burst(key, now, options, n - m)
  {
  }

  /**
   * What a call is told remains is what remains: so many calls of the key still pass before its window
   * ends, and no more. A refused call is told that nothing does.
   */
  lemma RemainingIsExact(key: string, bucket: Option<Bucket>, now: int, later: int, options: Options, n: nat)
    requires now <= later && (bucket.Some? ==> bucket.value.windowStart <= now)
    requires var (after, verdict) := CheckBucket(bucket, now, options); later < after.windowStart + options.windowMs
    ensures var (after, verdict) := CheckBucket(bucket, now, options);
      var left := if verdict.remaining > 0 then verdict.remaining else 0;
      && (!verdict.allowed ==> verdict.remaining == 0)
      && (verdict.allowed ==> verdict.retryAfterSeconds == 0)
      && Passed(OnlyKey(key, after), Burst(key, later, options, n), key, later, options)
         == if n <= left then n else left
  {
    var (after, verdict) := CheckBucket(bucket, now, options);
    var left := if verdict.remaining > 0 then verdict.remaining else 0;
    var passing := if n <= left then n else left;
    var full := after.(count := after.count + passing);
    if passing > 0 {
      BurstSplits(key, later, options, passing, n);
      BurstPasses(key, after, full, later, options, passing, Burst(key, later, options, n - passing), later);
    }
    if n > left {
      FullWindowRefuses(key, full, later, options, n - passing);
    } else {
      assert Burst(key, later, options, 0) == [];
    }
  }

  /**
   * A call forgets nothing of other keys, unless it opens a window while the table is full: then the key
   * that came first is forgotten, and only that one.
   */
  lemma OnlyOldestIsForgotten(t: Table, key: string, now: int, options: Options, other: string)
    requires Valid(t) && other != key
    ensures var opens := key !in t.buckets || now - t.buckets[key].windowStart >= options.windowMs;
      Find(Check(t, key, now, options).0, other)
      == if opens && |t.order| == MAX_TRACKED_KEYS && other == t.order[0] then None else Find(t, other)
  {
  }
}
