/** Tying the refund of a return to the receipts it gives back, newest first. */
module ReturnAccounting {
  import opened Results
  import opened Rounding
  import opened Sequences
  import opened Currency

  datatype Tender = Cash | Transfer | Card | OtherTender

  datatype Part = Part(tender: Tender, amount: int)

  /** A receipt; amounts are minor units, rates ten-thousandths of a so'm per dollar. */
  datatype Source = Source(
    id: nat,
    paidAt: int,
    tender: Option<Tender>,
    breakdown: seq<Part>,
    amountUzs: int,
    paymentRate: Option<nat>,
    applied: Option<int>)

  datatype Bucket = Bucket(source: nat, paidAt: int, tender: Option<Tender>, amount: int)

  datatype Refund = Refund(source: nat, paidAt: int, tender: Option<Tender>, contractAmount: int, amountUzs: int)

  datatype ReturnError = MissingRate | NegativeReceipt | ExceedsReceipts | NotFullyAllocated

  /** The amount a receipt applied to the contract: stored, or recovered at the rate frozen with it. */
  function ResolveApplied(source: Source, currency: Currency, frozenRate: Option<nat>): Result<int, ReturnError> {
    if source.applied.Some? then Ok(source.applied.value)
    else if currency == UZS then Ok(source.amountUzs)
    else
      var rate := if source.paymentRate.Some? then source.paymentRate else frozenRate;
      if rate.None? || rate.value == 0 then Err(MissingRate)
      else if source.amountUzs < 0 then Err(NegativeReceipt)
      else Ok(Portion(source.amountUzs, RATE_SCALE, rate.value))
  }

  // ---------------------------------------------------------------- the buckets of one receipt

  predicate IsBreakdown(parts: seq<Part>) {
    parts != [] && forall i :: 0 <= i < |parts| ==> parts[i].amount > 0
  }

  function Amounts(parts: seq<Part>): seq<int> {
    seq(|parts|, i requires 0 <= i < |parts| => parts[i].amount)
  }

  /** Every part but the last is rounded on its own. */
  function HeadAmounts(applied: int, parts: seq<Part>, k: nat): (amounts: seq<int>)
    requires k <= |parts| && Sum(Amounts(parts)) > 0
    ensures |amounts| == k
  {
    seq(k, i requires 0 <= i < k => Portion(applied, parts[i].amount, Sum(Amounts(parts))))
  }

  function RoundedHead(applied: int, parts: seq<Part>): int
    requires parts != [] && Sum(Amounts(parts)) > 0
  {
    Sum(HeadAmounts(applied, parts, |parts| - 1))
  }

  function BucketAmounts(applied: int, parts: seq<Part>): (amounts: seq<int>)
    requires parts != [] && Sum(Amounts(parts)) > 0
    ensures |amounts| == |parts|
  {
    HeadAmounts(applied, parts, |parts| - 1) + [applied - RoundedHead(applied, parts)]
  }

  /** Buckets that hold nothing, or less, are dropped. */
  function KeepPositive(source: Source, parts: seq<Part>, amounts: seq<int>): seq<Bucket>
    requires |parts| == |amounts|
  {
    if |parts| == 0 then []
    else
      var k := |parts| - 1;
      KeepPositive(source, parts[..k], amounts[..k])
      + (if amounts[k] > 0 then [Bucket(source.id, source.paidAt, Some(parts[k].tender), amounts[k])] else [])
  }

  function BucketsOf(source: Source, applied: int): seq<Bucket> {
    if applied <= 0 then []
    else if IsBreakdown(source.breakdown) then
      BreakdownTotal(source.breakdown);
      assert source.breakdown[0].amount > 0;
      KeepPositive(source, source.breakdown, BucketAmounts(applied, source.breakdown))
    else [Bucket(source.id, source.paidAt, source.tender, applied)]
  }

  lemma BreakdownTotal(parts: seq<Part>)
    requires IsBreakdown(parts)
    ensures forall i :: 0 <= i < |parts| ==> 0 < parts[i].amount <= Sum(Amounts(parts))
  {
    SumNonNegative(Amounts(parts));
    assert forall i :: 0 <= i < |parts| ==> Amounts(parts)[i] == parts[i].amount;
  }

  /** The program's loop over the parts; the last part takes what the rounded ones left. */
  method ReceiptBuckets(source: Source, applied: int) returns (buckets: seq<Bucket>)
    ensures buckets == BucketsOf(source, applied)
  {
    if applied <= 0 {
      return [];
    }
    var parts := source.breakdown;
    if !IsBreakdown(parts) {
      return [Bucket(source.id, source.paidAt, source.tender, applied)];
    }
    BreakdownTotal(parts);
    assert 0 < parts[0].amount;
    var total := 0;
    for i := 0 to |parts|
      invariant total == Sum(Amounts(parts)[..i])
    {
      SumPrefix(Amounts(parts), i);
      total := total + parts[i].amount;
    }
    SumWhole(Amounts(parts));
    var handedOut := 0;
    ghost var amounts := BucketAmounts(applied, parts);
    buckets := [];
    for i := 0 to |parts|
      invariant handedOut == Sum(amounts[..i])
      invariant buckets == KeepPositive(source, parts[..i], amounts[..i])
    {
      assert i == |parts| - 1 ==> amounts[..i] == HeadAmounts(applied, parts, |parts| - 1);
      var amount := if i == |parts| - 1 then applied - handedOut else Portion(applied, parts[i].amount, total);
      assert amount == amounts[i];
      SumPrefix(amounts, i);
      handedOut := handedOut + amount;
      assert parts[..i + 1][..i] == parts[..i] && amounts[..i + 1][..i] == amounts[..i];
      if amount > 0 {
        buckets := buckets + [Bucket(source.id, source.paidAt, Some(parts[i].tender), amount)];
      }
    }
    assert parts[..|parts|] == parts && amounts[..|parts|] == amounts;
  }

  function Held(buckets: seq<Bucket>): seq<int> {
    seq(|buckets|, i requires 0 <= i < |buckets| => buckets[i].amount)
  }

  /** The rounded head of a breakdown stays within the receipt. */
  predicate HeadFits(source: Source, applied: int) {
    IsBreakdown(source.breakdown) ==>
      (BreakdownTotal(source.breakdown);
       assert source.breakdown[0].amount > 0;
       RoundedHead(applied, source.breakdown) <= applied)
  }

  lemma HeadIsNonNegative(applied: nat, parts: seq<Part>, k: nat)
    requires IsBreakdown(parts) && k <= |parts| && Sum(Amounts(parts)) > 0
    ensures NonNegative(HeadAmounts(applied, parts, k))
  {
    BreakdownTotal(parts);
    forall i | 0 <= i < k
      ensures HeadAmounts(applied, parts, k)[i] >= 0
    {
      PortionNonNegative(applied, parts[i].amount, Sum(Amounts(parts)));
    }
  }

  lemma {:induction false} KeepPositiveSum(source: Source, parts: seq<Part>, amounts: seq<int>)
    requires |parts| == |amounts| && NonNegative(amounts)
    ensures Sum(Held(KeepPositive(source, parts, amounts))) == Sum(amounts)
  {
    if |parts| > 0 {
      var k := |parts| - 1;
      var kept := KeepPositive(source, parts[..k], amounts[..k]);
      KeepPositiveSum(source, parts[..k], amounts[..k]);
      HeldSnoc(kept, Bucket(source.id, source.paidAt, Some(parts[k].tender), amounts[k]));
      assert kept + [] == kept;
    }
  }

  lemma HeldSnoc(buckets: seq<Bucket>, bucket: Bucket)
    ensures Sum(Held(buckets + [bucket])) == Sum(Held(buckets)) + bucket.amount
  {
    assert Held(buckets + [bucket]) == Held(buckets) + [bucket.amount];
    SumSnoc(Held(buckets), bucket.amount);
  }

  /**
   * The buckets of a receipt add up to the receipt exactly when the rounded head fits; otherwise
   * the negative last part is dropped and they hold more than the receipt did.
   */
  lemma BucketsAddUpIffHeadFits(source: Source, applied: int)
    requires applied > 0
    ensures Sum(Held(BucketsOf(source, applied))) == applied <==> HeadFits(source, applied)
    ensures Sum(Held(BucketsOf(source, applied))) >= applied
  {
    var parts := source.breakdown;
    if IsBreakdown(parts) {
      BreakdownTotal(parts);
      assert parts[0].amount > 0;
      var head := HeadAmounts(applied, parts, |parts| - 1);
      var last := applied - RoundedHead(applied, parts);
      HeadIsNonNegative(applied, parts, |parts| - 1);
      SumSnoc(head, last);
      if last >= 0 {
        KeepPositiveSum(source, parts, BucketAmounts(applied, parts));
      } else {
        KeepPositiveSum(source, parts[..|parts| - 1], head);
        assert BucketAmounts(applied, parts)[..|parts| - 1] == head;
        var kept := KeepPositive(source, parts[..|parts| - 1], head);
        assert KeepPositive(source, parts, BucketAmounts(applied, parts)) == kept + [] == kept;
      }
    } else {
      HeldSnoc([], Bucket(source.id, source.paidAt, source.tender, applied));
      assert [] + BucketsOf(source, applied) == BucketsOf(source, applied);
    }
  }

  /** Up to three parts always fit: the two rounded ones gain less than one unit on the part left out. */
  lemma ThreePartsFit(source: Source, applied: int)
    requires applied > 0 && |source.breakdown| <= 3
    ensures HeadFits(source, applied)
  {
    var parts := source.breakdown;
    if IsBreakdown(parts) {
      BreakdownTotal(parts);
      var total := Sum(Amounts(parts));
      var head := HeadAmounts(applied, parts, |parts| - 1);
      if |parts| == 1 {
        assert Sum(head) == 0;
      } else if |parts| == 2 {
        PortionSlope(applied, parts[0].amount, total, total);
        PortionEnds(applied, total, total);
        SumPrefix(head, 0);
        assert head[..1] == head;
      } else if |parts| == 3 {
        ThreeAmounts(Amounts(parts));
        TwoRoundingsFit(applied, parts[0].amount, parts[1].amount, total);
        SumPrefix(head, 0);
        SumPrefix(head, 1);
        assert head[..2] == head && head[..0] == [];
      }
    }
  }

  lemma ThreeAmounts(s: seq<int>)
    requires |s| == 3
    ensures Sum(s) == s[0] + s[1] + s[2]
  {
    SumPrefix(s, 0);
    SumPrefix(s, 1);
    SumPrefix(s, 2);
    SumWhole(s);
    assert s[..0] == [];
  }

  lemma TwoRoundingsFit(applied: int, x: int, y: int, total: int)
    requires applied > 0 && x > 0 && y > 0 && x + y < total
    ensures Portion(applied, x, total) + Portion(applied, y, total) <= applied
  {
    var p, q := Portion(applied, x, total), Portion(applied, y, total);
    PortionBounds(applied, x, total);
    PortionBounds(applied, y, total);
    RoomForTwo(applied, x, y, total);
    NoRoomForMore(total, p, q, applied, applied * x, applied * y);
  }

  lemma RoomForTwo(applied: int, x: int, y: int, total: int)
    requires applied > 0 && x + y < total
    ensures applied * x + applied * y < applied * total
  {
    Scale(applied, x + y + 1, total);
  }

  lemma NoRoomForMore(total: int, p: int, q: int, applied: int, ax: int, ay: int)
    requires total > 0
    requires 2 * (total * p - ax) <= total && 2 * (total * q - ay) <= total && ax + ay < applied * total
    ensures p + q <= applied
  {
    Unscale(total, p + q, applied + 1);
  }

  // ---------------------------------------------------------------- newest receipts first

  function InsertNewestFirst(source: Source, sorted: seq<Source>): seq<Source> {
    if sorted == [] || source.paidAt >= sorted[0].paidAt then [source] + sorted
    else [sorted[0]] + InsertNewestFirst(source, sorted[1..])
  }

  /** A stable sort by payment time, latest first. */
  function NewestFirst(sources: seq<Source>): seq<Source> {
    if sources == [] then [] else InsertNewestFirst(sources[0], NewestFirst(sources[1..]))
  }

  /** Nothing paid after the bound, and each receipt no later than the one before it. */
  ghost predicate Descending(bound: int, sources: seq<Source>)
    decreases |sources|
  {
    sources == [] || (sources[0].paidAt <= bound && Descending(sources[0].paidAt, sources[1..]))
  }

  lemma {:induction false} InsertKeepsOrder(bound: int, source: Source, sorted: seq<Source>)
    requires Descending(bound, sorted) && source.paidAt <= bound
    ensures Descending(bound, InsertNewestFirst(source, sorted))
    decreases |sorted|
  {
    var inserted := InsertNewestFirst(source, sorted);
    if sorted == [] || source.paidAt >= sorted[0].paidAt {
      assert inserted[1..] == sorted;
    } else {
      InsertKeepsOrder(sorted[0].paidAt, source, sorted[1..]);
      assert inserted[1..] == InsertNewestFirst(source, sorted[1..]);
    }
  }

  lemma {:induction false} NewestFirstSorts(bound: int, sources: seq<Source>)
    requires forall i :: 0 <= i < |sources| ==> sources[i].paidAt <= bound
    ensures Descending(bound, NewestFirst(sources))
  {
    if sources != [] {
      NewestFirstSorts(bound, sources[1..]);
      InsertKeepsOrder(bound, sources[0], NewestFirst(sources[1..]));
    }
  }

  function AllBuckets(
    sources: seq<Source>, currency: Currency, frozenRate: Option<nat>): Result<seq<Bucket>, ReturnError>
  {
    if sources == [] then Ok([])
    else
      match ResolveApplied(sources[0], currency, frozenRate)
      case Err(e) => Err(e)
      case Ok(applied) =>
        match AllBuckets(sources[1..], currency, frozenRate)
        case Err(e) => Err(e)
        case Ok(rest) => Ok(BucketsOf(sources[0], applied) + rest)
  }

  // ---------------------------------------------------------------- the refund

  /** Take from the buckets in order until the target is met. */
  function Take(buckets: seq<Bucket>, target: int): seq<Bucket> {
    if buckets == [] || target <= 0 then []
    else
      var amount := Min(buckets[0].amount, target);
      if amount <= 0 then Take(buckets[1..], target)
      else [buckets[0].(amount := amount)] + Take(buckets[1..], target - amount)
  }

  /** So'm parts are rounded one by one, at least one each; the last takes what is left. */
  function UzsParts(taken: seq<Bucket>, target: int, uzs: int): (parts: seq<int>)
    requires target > 0
    ensures |parts| == |taken|
  {
    if taken == [] then []
    else
      var head := UzsHead(taken, target, uzs);
      head + [uzs - Sum(head)]
  }

  function UzsHead(taken: seq<Bucket>, target: int, uzs: int): (head: seq<int>)
    requires target > 0 && taken != []
    ensures |head| == |taken| - 1
  {
    seq(|taken| - 1, i requires 0 <= i < |taken| - 1 => Max(1, Portion(uzs, taken[i].amount, target)))
  }

  function RefundOf(bucket: Bucket, uzs: int): Refund {
    Refund(bucket.source, bucket.paidAt, bucket.tender, bucket.amount, uzs)
  }

  function Refunds(taken: seq<Bucket>, target: int, uzs: int): (refunds: seq<Refund>)
    requires target > 0
    ensures |refunds| == |taken|
  {
    seq(|taken|, i requires 0 <= i < |taken| => RefundOf(taken[i], UzsParts(taken, target, uzs)[i]))
  }

  function AllocateRefund(
    sources: seq<Source>, currency: Currency, frozenRate: Option<nat>, target: int, uzs: int)
    : Result<seq<Refund>, ReturnError>
  {
    if target <= 0 || uzs <= 0 then Ok([])
    else
      match AllBuckets(NewestFirst(sources), currency, frozenRate)
      case Err(e) => Err(e)
      case Ok(buckets) =>
        var taken := Take(buckets, target);
        if Sum(Held(buckets)) < target then Err(ExceedsReceipts)
        else if Sum(Held(taken)) < target then Err(NotFullyAllocated)
        else Ok(Refunds(taken, target, uzs))
  }

  method AllocateReturnRefund(
    sources: seq<Source>, currency: Currency, frozenRate: Option<nat>, target: int, uzs: int)
    returns (result: Result<seq<Refund>, ReturnError>)
    ensures result == AllocateRefund(sources, currency, frozenRate, target, uzs)
  {
    if target <= 0 || uzs <= 0 {
      return Ok([]);
    }
    var found := AllBuckets(NewestFirst(sources), currency, frozenRate);
    if found.Err? {
      return Err(found.error);
    }
    var buckets := found.value;
    if Sum(Held(buckets)) < target {
      return Err(ExceedsReceipts);
    }
    var selected, contractRemaining := TakeInOrder(buckets, target);
    if contractRemaining > 0 {
      return Err(NotFullyAllocated);
    }
    var refunds := SplitUzs(selected, target, uzs);
    return Ok(refunds);
  }

  /** One bucket of the loop: skipped when it holds nothing, and otherwise taken as far as the target allows. */
  lemma TakeFrom(selected: seq<Bucket>, buckets: seq<Bucket>, i: nat, target: int, amount: int)
    requires i < |buckets| && target > 0 && amount == Min(buckets[i].amount, target)
    ensures selected + Take(buckets[i..], target) ==
      if amount <= 0 then selected + Take(buckets[i + 1..], target)
      else (selected + [buckets[i].(amount := amount)]) + Take(buckets[i + 1..], target - amount)
  {
    assert buckets[i..][1..] == buckets[i + 1..];
    if amount > 0 {
      assert Take(buckets[i..], target) == [buckets[i].(amount := amount)] + Take(buckets[i + 1..], target - amount);
    }
  }

  lemma NothingMoreTaken(selected: seq<Bucket>, buckets: seq<Bucket>, target: int)
    requires buckets == [] || target <= 0
    ensures selected + Take(buckets, target) == selected
  {
  }

  method TakeInOrder(buckets: seq<Bucket>, target: int) returns (selected: seq<Bucket>, contractRemaining: int)
    ensures selected == Take(buckets, target)
    ensures contractRemaining == target - Sum(Held(selected))
  {
    selected, contractRemaining := [], target;
    assert buckets[0..] == buckets && [] + Take(buckets, target) == Take(buckets, target);
    for i := 0 to |buckets|
      invariant selected + Take(buckets[i..], contractRemaining) == Take(buckets, target)
      invariant Sum(Held(selected)) == target - contractRemaining
    {
      if contractRemaining <= 0 {
        NothingMoreTaken(selected, buckets[i..], contractRemaining);
        return;
      }
      var amount := Min(buckets[i].amount, contractRemaining);
      TakeFrom(selected, buckets, i, contractRemaining, amount);
      if amount <= 0 {
        continue;
      }
      HeldSnoc(selected, buckets[i].(amount := amount));
      selected := selected + [buckets[i].(amount := amount)];
      contractRemaining := contractRemaining - amount;
    }
    NothingMoreTaken(selected, buckets[|buckets|..], contractRemaining);
  }

  method SplitUzs(selected: seq<Bucket>, target: int, uzs: int) returns (refunds: seq<Refund>)
    requires target > 0
    ensures refunds == Refunds(selected, target, uzs)
  {
    var uzsAllocated := 0;
    refunds := [];
    ghost var parts := UzsParts(selected, target, uzs);
    for i := 0 to |selected|
      invariant uzsAllocated == Sum(parts[..i])
      invariant refunds == Refunds(selected, target, uzs)[..i]
    {
      assert i == |selected| - 1 ==> parts[..i] == UzsHead(selected, target, uzs);
      var amount :=
        if i == |selected| - 1 then uzs - uzsAllocated else Max(1, Portion(uzs, selected[i].amount, target));
      assert amount == parts[i];
      SumPrefix(parts, i);
      uzsAllocated := uzsAllocated + amount;
      refunds := refunds + [RefundOf(selected[i], amount)];
    }
  }

  // ---------------------------------------------------------------- what a refund promises

  ghost predicate AllHold(buckets: seq<Bucket>) {
    forall i :: 0 <= i < |buckets| ==> buckets[i].amount > 0
  }

  lemma {:induction false} KeptArePositive(source: Source, parts: seq<Part>, amounts: seq<int>)
    requires |parts| == |amounts|
    ensures AllHold(KeepPositive(source, parts, amounts))
    ensures forall b :: b in KeepPositive(source, parts, amounts) ==> b.source == source.id && b.paidAt == source.paidAt
  {
    if |parts| > 0 {
      KeptArePositive(source, parts[..|parts| - 1], amounts[..|parts| - 1]);
    }
  }

  lemma BucketsArePositive(source: Source, applied: int)
    ensures AllHold(BucketsOf(source, applied))
    ensures forall b :: b in BucketsOf(source, applied) ==> b.source == source.id && b.paidAt == source.paidAt
  {
    if applied > 0 && IsBreakdown(source.breakdown) {
      BreakdownTotal(source.breakdown);
      assert source.breakdown[0].amount > 0;
      KeptArePositive(source, source.breakdown, BucketAmounts(applied, source.breakdown));
    }
  }

  lemma HeldCons(bucket: Bucket, rest: seq<Bucket>)
    ensures Sum(Held([bucket] + rest)) == bucket.amount + Sum(Held(rest))
  {
    SumCons(Held([bucket] + rest));
    assert Held([bucket] + rest)[1..] == Held(rest);
  }

  lemma {:induction false} HeldIsNonNegative(buckets: seq<Bucket>)
    requires AllHold(buckets)
    ensures Sum(Held(buckets)) >= 0
  {
    SumNonNegative(Held(buckets));
  }

  /** The buckets taken are the first ones, each whole except possibly the last. */
  ghost predicate TakenInOrder(taken: seq<Bucket>, buckets: seq<Bucket>) {
    && |taken| <= |buckets|
    && (forall i :: 0 <= i < |taken| ==> taken[i] == buckets[i].(amount := taken[i].amount))
    && (forall i :: 0 <= i < |taken| ==> 0 < taken[i].amount <= buckets[i].amount)
    && (forall i :: 0 <= i < |taken| - 1 ==> taken[i] == buckets[i])
  }

  lemma {:induction false} TakeMeetsTarget(buckets: seq<Bucket>, target: int)
    requires AllHold(buckets)
    ensures Sum(Held(Take(buckets, target))) == Min(Max(0, target), Sum(Held(buckets)))
    decreases |buckets|
  {
    HeldIsNonNegative(buckets);
    if buckets == [] || target <= 0 {
    } else {
      var amount := Min(buckets[0].amount, target);
      var rest := Take(buckets[1..], target - amount);
      HeldIsNonNegative(buckets[1..]);
      TakeMeetsTarget(buckets[1..], target - amount);
      HeldCons(buckets[0].(amount := amount), rest);
      assert buckets == [buckets[0]] + buckets[1..];
      HeldCons(buckets[0], buckets[1..]);
    }
  }

  lemma {:induction false} TakeIsInOrder(buckets: seq<Bucket>, target: int)
    requires AllHold(buckets)
    ensures TakenInOrder(Take(buckets, target), buckets)
    decreases |buckets|
  {
    if buckets == [] || target <= 0 {
    } else {
      var first := buckets[0].(amount := Min(buckets[0].amount, target));
      TakeIsInOrder(buckets[1..], target - first.amount);
      TakeOneMore(first, Take(buckets[1..], target - first.amount), buckets);
    }
  }

  lemma TakeOneMore(first: Bucket, rest: seq<Bucket>, buckets: seq<Bucket>)
    requires buckets != [] && TakenInOrder(rest, buckets[1..])
    requires first == buckets[0].(amount := first.amount) && 0 < first.amount <= buckets[0].amount
    requires rest != [] ==> first == buckets[0]
    ensures TakenInOrder([first] + rest, buckets)
  {
    var taken := [first] + rest;
    forall i | 0 < i < |taken|
      ensures taken[i] == buckets[i].(amount := taken[i].amount) && 0 < taken[i].amount <= buckets[i].amount
      ensures i < |taken| - 1 ==> taken[i] == buckets[i]
    {
      assert taken[i] == rest[i - 1] && buckets[i] == buckets[1..][i - 1];
    }
  }

  function ContractAmounts(refunds: seq<Refund>): (amounts: seq<int>)
    ensures |amounts| == |refunds|
  {
    seq(|refunds|, i requires 0 <= i < |refunds| => refunds[i].contractAmount)
  }

  function UzsAmounts(refunds: seq<Refund>): (amounts: seq<int>)
    ensures |amounts| == |refunds|
  {
    seq(|refunds|, i requires 0 <= i < |refunds| => refunds[i].amountUzs)
  }

  lemma {:induction false} AllBucketsArePositive(sources: seq<Source>, currency: Currency, frozenRate: Option<nat>)
    requires AllBuckets(sources, currency, frozenRate).Ok?
    ensures AllHold(AllBuckets(sources, currency, frozenRate).value)
  {
    if sources != [] {
      AllBucketsArePositive(sources[1..], currency, frozenRate);
      BucketsArePositive(sources[0], ResolveApplied(sources[0], currency, frozenRate).value);
    }
  }

  /**
   * A refund within the receipts is always allocated in full -- the late error cannot occur -- and its
   * parts add up to the contract target and to the so'm amount exactly. Each gives back something of
   * the contract, and something in so'm as long as the parts before the last leave it any.
   */
  lemma RefundReconciles(
    sources: seq<Source>, currency: Currency, frozenRate: Option<nat>, target: int, uzs: int)
    ensures AllocateRefund(sources, currency, frozenRate, target, uzs) != Err(NotFullyAllocated)
    ensures target > 0 && uzs > 0 && AllocateRefund(sources, currency, frozenRate, target, uzs).Ok? ==>
      var refunds := AllocateRefund(sources, currency, frozenRate, target, uzs).value;
      && refunds != []
      && Sum(ContractAmounts(refunds)) == target && AllPositive(ContractAmounts(refunds))
      && Sum(UzsAmounts(refunds)) == uzs
      && (AllPositive(UzsAmounts(refunds)) <==> Sum(UzsAmounts(refunds)[..|refunds| - 1]) < uzs)
  {
    ResolutionErrors(NewestFirst(sources), currency, frozenRate);
    var found := AllBuckets(NewestFirst(sources), currency, frozenRate);
    if target > 0 && uzs > 0 && found.Ok? {
      AllBucketsArePositive(NewestFirst(sources), currency, frozenRate);
      TakeMeetsTarget(found.value, target);
      TakeIsInOrder(found.value, target);
      var taken := Take(found.value, target);
      if Sum(Held(found.value)) >= target {
        assert Held([]) == [];
        PartsReconcile(taken, target, uzs);
      }
    }
  }

  lemma {:induction false} ResolutionErrors(sources: seq<Source>, currency: Currency, frozenRate: Option<nat>)
    ensures AllBuckets(sources, currency, frozenRate) != Err(NotFullyAllocated)
  {
    if sources != [] {
      ResolutionErrors(sources[1..], currency, frozenRate);
    }
  }

  lemma PartsReconcile(taken: seq<Bucket>, target: int, uzs: int)
    requires target > 0 && taken != [] && AllHold(taken)
    ensures var refunds := Refunds(taken, target, uzs);
      && Sum(ContractAmounts(refunds)) == Sum(Held(taken)) && AllPositive(ContractAmounts(refunds))
      && Sum(UzsAmounts(refunds)) == uzs
      && (AllPositive(UzsAmounts(refunds)) <==> Sum(UzsAmounts(refunds)[..|refunds| - 1]) < uzs)
  {
    var head := UzsHead(taken, target, uzs);
    assert ContractAmounts(Refunds(taken, target, uzs)) == Held(taken);
    assert UzsAmounts(Refunds(taken, target, uzs)) == UzsParts(taken, target, uzs) == head + [uzs - Sum(head)];
    SumSnoc(head, uzs - Sum(head));
    SomPartsPositiveIff(taken, target, uzs);
  }

  // ---------------------------------------------------------------- the so'm parts of a refund

  /** Every part of a refund is worth some so'm exactly when the rounded parts leave something for the last. */
  lemma SomPartsPositiveIff(taken: seq<Bucket>, target: int, uzs: int)
    requires taken != [] && target > 0
    ensures AllPositive(UzsParts(taken, target, uzs)) <==> Sum(UzsHead(taken, target, uzs)) < uzs
  {
    var head, parts := UzsHead(taken, target, uzs), UzsParts(taken, target, uzs);
    assert parts[|taken| - 1] == uzs - Sum(head);
  }

  /** Rounding the first so'm parts gains at most half a so'm on each. */
  lemma {:induction false} RoundedHeadGain(taken: seq<Bucket>, k: nat, target: int, uzs: int)
    requires AllHold(taken) && k < |taken| && target > 0 && 2 * uzs >= target
    ensures 2 * (target * Sum(UzsHead(taken, target, uzs)[..k])) <= 2 * (uzs * Sum(Held(taken)[..k])) + k * target
  {
    if k > 0 {
      var head := UzsHead(taken, target, uzs);
      RoundedHeadGain(taken, k - 1, target, uzs);
      SumPrefix(head, k - 1);
      SumPrefix(Held(taken), k - 1);
      OneSomPart(uzs, taken[k - 1].amount, target);
      Distribute(target, Sum(head[..k - 1]), head[k - 1]);
      Distribute(uzs, Sum(Held(taken)[..k - 1]), taken[k - 1].amount);
      assert k * target == (k - 1) * target + target;
    }
  }

  lemma Distribute(x: int, a: int, b: int)
    ensures x * (a + b) == x * a + x * b
  {
  }

  /** A part is worth at least one so'm of its own as soon as a contract unit is worth half a so'm. */
  lemma OneSomPart(uzs: int, amount: int, target: int)
    requires amount > 0 && target > 0 && 2 * uzs >= target
    ensures Max(1, Portion(uzs, amount, target)) == Portion(uzs, amount, target)
    ensures 2 * (target * Portion(uzs, amount, target)) <= 2 * (uzs * amount) + target
  {
    PortionBounds(uzs, amount, target);
    Scale(2 * uzs, 1, amount);
    assert 2 * uzs * amount == 2 * (uzs * amount);
    Scale(target, Portion(uzs, amount, target), 0);
  }

  lemma RoomForTheLast(target: int, uzs: int, rounded: int, held: int, last: int, n: int)
    requires target > 0 && last > 0 && target == held + last && 2 * uzs > n * target && uzs > 0
    requires 2 * (target * rounded) <= 2 * (uzs * held) + n * target
    ensures rounded < uzs
  {
    Distribute(uzs, held, last);
    Scale(uzs, 1, last);
    assert uzs * target == target * uzs;
    Unscale(target, rounded, uzs);
  }

  /**
   * So it is whenever a contract unit is worth at least half as many so'm as the refund has parts; at
   * the lowest rate accepted, that allows some twenty parts, and a refund in so'm any number.
   */
  lemma SomPartsArePositiveWhen(taken: seq<Bucket>, target: int, uzs: int)
    requires AllHold(taken) && taken != [] && target == Sum(Held(taken)) > 0
    requires 2 * uzs >= target && (2 * uzs > (|taken| - 1) * target || uzs == target)
    ensures AllPositive(UzsParts(taken, target, uzs))
  {
    var n := |taken| - 1;
    SumPrefix(Held(taken), n);
    SumWhole(Held(taken));
    SomPartsPositiveIff(taken, target, uzs);
    SumWhole(UzsHead(taken, target, uzs));
    if uzs == target {
      ExactSomParts(taken, n, target);
    } else {
      RoundedHeadGain(taken, n, target, uzs);
      RoomForTheLast(target, uzs, Sum(UzsHead(taken, target, uzs)), Sum(Held(taken)[..n]), taken[n].amount, n);
    }
  }

  lemma {:induction false} ExactSomParts(taken: seq<Bucket>, k: nat, target: int)
    requires AllHold(taken) && k < |taken| && target > 0
    ensures Sum(UzsHead(taken, target, target)[..k]) == Sum(Held(taken)[..k])
  {
    if k > 0 {
      ExactSomParts(taken, k - 1, target);
      SumPrefix(UzsHead(taken, target, target), k - 1);
      SumPrefix(Held(taken), k - 1);
      RoundExact(taken[k - 1].amount, target);
    }
  }

  ghost predicate BucketsDescend(bound: int, buckets: seq<Bucket>) {
    && (forall i :: 0 <= i < |buckets| ==> buckets[i].paidAt <= bound)
    && (forall i, j :: 0 <= i < j < |buckets| ==> buckets[i].paidAt >= buckets[j].paidAt)
  }

  lemma {:induction false} BucketsFollowReceipts(
    bound: int, sources: seq<Source>, currency: Currency, frozenRate: Option<nat>)
    requires Descending(bound, sources)
    requires AllBuckets(sources, currency, frozenRate).Ok?
    ensures BucketsDescend(bound, AllBuckets(sources, currency, frozenRate).value)
    decreases |sources|
  {
    if sources != [] {
      BucketsFollowReceipts(sources[0].paidAt, sources[1..], currency, frozenRate);
      BucketsArePositive(sources[0], ResolveApplied(sources[0], currency, frozenRate).value);
    }
  }

  /**
   * Newest first: the refunded parts are the leading buckets in descending payment time, and every
   * one but the last is given back whole, so an older receipt is touched only once all newer ones
   * are exhausted.
   */
  lemma OlderOnlyAfterNewer(
    bound: int, sources: seq<Source>, currency: Currency, frozenRate: Option<nat>, target: int, uzs: int)
    requires forall i :: 0 <= i < |sources| ==> sources[i].paidAt <= bound
    requires target > 0 && uzs > 0 && AllocateRefund(sources, currency, frozenRate, target, uzs).Ok?
    ensures var refunds := AllocateRefund(sources, currency, frozenRate, target, uzs).value;
      var buckets := AllBuckets(NewestFirst(sources), currency, frozenRate).value;
      && |refunds| <= |buckets| && BucketsDescend(bound, buckets)
      && (forall i :: 0 <= i < |refunds| ==>
            && refunds[i].source == buckets[i].source && refunds[i].paidAt == buckets[i].paidAt
            && refunds[i].tender == buckets[i].tender && 0 < refunds[i].contractAmount <= buckets[i].amount)
      && (forall i :: 0 <= i < |refunds| - 1 ==> refunds[i].contractAmount == buckets[i].amount)
  {
    NewestFirstSorts(bound, sources);
    BucketsFollowReceipts(bound, NewestFirst(sources), currency, frozenRate);
    AllBucketsArePositive(NewestFirst(sources), currency, frozenRate);
    TakeIsInOrder(AllBuckets(NewestFirst(sources), currency, frozenRate).value, target);
  }

  // ---------------------------------------------------------------- what each part is worth

  /** The rate frozen with a receipt, or else with its contract; nothing where neither is known. */
  function FrozenRate(source: Source, frozenRate: Option<nat>): int {
    if source.paymentRate.Some? then source.paymentRate.value
    else if frozenRate.Some? then frozenRate.value
    else 0
  }

  /**
   * A receipt applied what is stored with it, or what its so'm were worth at the rate frozen with it,
   * rounded to the nearest cent; without such a rate nobody can tell.
   */
  lemma AppliedIsStoredOrConverted(source: Source, currency: Currency, frozenRate: Option<nat>)
    ensures var rate, applied := FrozenRate(source, frozenRate), ResolveApplied(source, currency, frozenRate);
      && (source.applied.Some? ==> applied == Ok(source.applied.value))
      && (source.applied.None? && currency == UZS ==> applied == Ok(source.amountUzs))
      && (source.applied.None? && currency == USD ==>
            && (applied.Ok? <==> rate > 0 && source.amountUzs >= 0)
            && (applied.Ok? ==>
                  -rate < 2 * (rate * applied.value - source.amountUzs * (100 * 10_000)) <= rate))
  {
    var rate := FrozenRate(source, frozenRate);
    if source.applied.None? && currency == USD && rate > 0 {
      PortionBounds(source.amountUzs, RATE_SCALE, rate);
    }
  }

  /** What a receipt paid in parts is split into: every part but the last rounded on its own, to the nearest unit. */
  ghost predicate SplitOverParts(amounts: seq<int>, parts: seq<Part>, applied: int) {
    var total := Sum(Amounts(parts));
    && |amounts| == |parts| && Sum(amounts) == applied
    && forall i :: 0 <= i < |parts| - 1 ==>
         -total < 2 * (total * amounts[i] - applied * parts[i].amount) <= total
  }

  /** A bucket stands for a part of its receipt that holds something. */
  ghost predicate StandsFor(bucket: Bucket, source: Source, amounts: seq<int>, i: nat)
    requires |amounts| == |source.breakdown|
  {
    i < |amounts| && amounts[i] > 0
    && bucket == Bucket(source.id, source.paidAt, Some(source.breakdown[i].tender), amounts[i])
  }

  lemma PartsOfReceipt(applied: int, parts: seq<Part>)
    requires IsBreakdown(parts) && Sum(Amounts(parts)) > 0
    ensures SplitOverParts(BucketAmounts(applied, parts), parts, applied)
  {
    var head := HeadAmounts(applied, parts, |parts| - 1);
    SumSnoc(head, applied - RoundedHead(applied, parts));
    forall i | 0 <= i < |parts| - 1
      ensures var total := Sum(Amounts(parts));
        -total < 2 * (total * BucketAmounts(applied, parts)[i] - applied * parts[i].amount) <= total
    {
      PortionBounds(applied, parts[i].amount, Sum(Amounts(parts)));
    }
  }

  ghost predicate StandsForOne(bucket: Bucket, source: Source, amounts: seq<int>, n: nat)
    requires |amounts| == |source.breakdown|
  {
    exists i: nat :: StandsFor(bucket, source, amounts, i) && i < n
  }

  ghost predicate AllStandFor(buckets: seq<Bucket>, source: Source, amounts: seq<int>, n: nat)
    requires |amounts| == |source.breakdown|
  {
    forall k :: 0 <= k < |buckets| ==> StandsForOne(buckets[k], source, amounts, n)
  }

  lemma AllStandForMore(kept: seq<Bucket>, more: seq<Bucket>, source: Source, amounts: seq<int>, n: nat)
    requires |amounts| == |source.breakdown| && AllStandFor(kept, source, amounts, n)
    requires more == [] || (|more| == 1 && StandsFor(more[0], source, amounts, n))
    ensures AllStandFor(kept + more, source, amounts, n + 1)
  {
    forall k | 0 <= k < |kept + more| ensures StandsForOne((kept + more)[k], source, amounts, n + 1) {
      if k < |kept| {
        var i: nat :| StandsFor(kept[k], source, amounts, i) && i < n;
        assert StandsFor((kept + more)[k], source, amounts, i);
      } else {
        assert StandsFor((kept + more)[k], source, amounts, n);
      }
    }
  }

  lemma {:induction false} KeptStandFor(source: Source, amounts: seq<int>, n: nat)
    requires |amounts| == |source.breakdown| && n <= |amounts|
    ensures AllStandFor(KeepPositive(source, source.breakdown[..n], amounts[..n]), source, amounts, n)
    ensures forall i :: 0 <= i < n && amounts[i] > 0 ==>
      Bucket(source.id, source.paidAt, Some(source.breakdown[i].tender), amounts[i])
      in KeepPositive(source, source.breakdown[..n], amounts[..n])
  {
    if n > 0 {
      var k := n - 1;
      KeptStandFor(source, amounts, k);
      assert source.breakdown[..n][..k] == source.breakdown[..k] && amounts[..n][..k] == amounts[..k];
      AllStandForMore(KeepPositive(source, source.breakdown[..k], amounts[..k]),
        if amounts[k] > 0 then [Bucket(source.id, source.paidAt, Some(source.breakdown[k].tender), amounts[k])] else [],
        source, amounts, k);
    }
  }

  /**
   * A receipt paid in one go is one bucket; one paid in parts has a bucket for every part that holds
   * something, with the tender of that part, and no other.
   */
  lemma BucketsStandForParts(source: Source, applied: int) returns (amounts: seq<int>)
    requires applied > 0
    ensures !IsBreakdown(source.breakdown) ==>
      BucketsOf(source, applied) == [Bucket(source.id, source.paidAt, source.tender, applied)]
    ensures IsBreakdown(source.breakdown) ==>
      && SplitOverParts(amounts, source.breakdown, applied)
      && AllStandFor(BucketsOf(source, applied), source, amounts, |amounts|)
      && forall i :: 0 <= i < |amounts| && amounts[i] > 0 ==>
           Bucket(source.id, source.paidAt, Some(source.breakdown[i].tender), amounts[i]) in BucketsOf(source, applied)
  {
    var parts := source.breakdown;
    if IsBreakdown(parts) {
      BreakdownTotal(parts);
      assert parts[0].amount > 0;
      amounts := BucketAmounts(applied, parts);
      PartsOfReceipt(applied, parts);
      KeptStandFor(source, amounts, |parts|);
      assert parts[..|parts|] == parts && amounts[..|amounts|] == amounts;
    } else {
      amounts := [applied];
    }
  }

  /** A so'm part is its exact share of the refund rounded to the nearest so'm, or one where that is nothing. */
  ghost predicate SomShare(part: int, amount: int, target: int, uzs: int) {
    part >= 1
    && (-target < 2 * (target * part - uzs * amount) <= target || (part == 1 && 2 * (uzs * amount) < target))
  }

  lemma SomPartIsShare(part: int, amount: int, target: int, uzs: int)
    requires target > 0 && part == Max(1, Portion(uzs, amount, target))
    ensures SomShare(part, amount, target, uzs)
  {
    var nearest := Portion(uzs, amount, target);
    PortionBounds(uzs, amount, target);
    if nearest < 1 {
      Scale(target, nearest, 0);
    }
  }

  /** Every part of a refund but the last, which takes the rest, is worth its share in so'm. */
  lemma RefundIsProrated(
    sources: seq<Source>, currency: Currency, frozenRate: Option<nat>, target: int, uzs: int)
    requires target > 0 && uzs > 0 && AllocateRefund(sources, currency, frozenRate, target, uzs).Ok?
    ensures var refunds := AllocateRefund(sources, currency, frozenRate, target, uzs).value;
      forall i :: 0 <= i < |refunds| - 1 ==> SomShare(refunds[i].amountUzs, refunds[i].contractAmount, target, uzs)
  {
    var refunds := AllocateRefund(sources, currency, frozenRate, target, uzs).value;
    forall i | 0 <= i < |refunds| - 1
      ensures SomShare(refunds[i].amountUzs, refunds[i].contractAmount, target, uzs)
    {
      SomPartIsShare(refunds[i].amountUzs, refunds[i].contractAmount, target, uzs);
    }
  }

  /** The receipts of one moment, in the order given. */
  function PaidAt(sources: seq<Source>, moment: int): seq<Source> {
    if sources == [] then []
    else (if sources[0].paidAt == moment then [sources[0]] else []) + PaidAt(sources[1..], moment)
  }

  lemma {:induction false} InsertIsStable(source: Source, sorted: seq<Source>, moment: int)
    ensures PaidAt(InsertNewestFirst(source, sorted), moment) == PaidAt([source] + sorted, moment)
    decreases |sorted|
  {
    assert ([source] + sorted)[1..] == sorted;
    if sorted != [] && source.paidAt < sorted[0].paidAt {
      assert InsertNewestFirst(source, sorted)[1..] == InsertNewestFirst(source, sorted[1..]);
      assert ([source] + sorted[1..])[1..] == sorted[1..];
      InsertIsStable(source, sorted[1..], moment);
    }
  }

  /** Sorting keeps the receipts of every moment, and the order they were given in. */
  lemma {:induction false} SortIsStable(sources: seq<Source>, moment: int)
    ensures PaidAt(NewestFirst(sources), moment) == PaidAt(sources, moment)
  {
    if sources != [] {
      SortIsStable(sources[1..], moment);
      InsertIsStable(sources[0], NewestFirst(sources[1..]), moment);
      assert ([sources[0]] + NewestFirst(sources[1..]))[1..] == NewestFirst(sources[1..]);
    }
  }
}
