/** Which refunds give back more of a receipt than it ever applied to its contract. */
module RefundCaps {
  import opened Results
  import opened Rounding
  import opened Sequences
  import opened Currency
  import opened ReturnAccounting

  // ---------------------------------------------------------------- per receipt

  function HeldFor(id: nat, buckets: seq<Bucket>): int {
    if buckets == [] then 0
    else (if buckets[0].source == id then buckets[0].amount else 0) + HeldFor(id, buckets[1..])
  }

  function RefundedFor(id: nat, refunds: seq<Refund>): int {
    if refunds == [] then 0
    else (if refunds[0].source == id then refunds[0].contractAmount else 0) + RefundedFor(id, refunds[1..])
  }

  function AppliedOrNothing(source: Source, currency: Currency, frozenRate: Option<nat>): int {
    var applied := ResolveApplied(source, currency, frozenRate);
    if applied.Ok? then Max(0, applied.value) else 0
  }

  /** What the receipts with an id applied to the contract, all together. */
  function AppliedFor(id: nat, sources: seq<Source>, currency: Currency, frozenRate: Option<nat>): int {
    if sources == [] then 0
    else
      (if sources[0].id == id then AppliedOrNothing(sources[0], currency, frozenRate) else 0)
      + AppliedFor(id, sources[1..], currency, frozenRate)
  }

  lemma {:induction false} InsertKeepsApplied(
    id: nat, source: Source, sorted: seq<Source>, currency: Currency, frozenRate: Option<nat>)
    ensures AppliedFor(id, InsertNewestFirst(source, sorted), currency, frozenRate)
      == AppliedFor(id, [source] + sorted, currency, frozenRate)
  {
    assert ([source] + sorted)[1..] == sorted;
    if sorted == [] || source.paidAt >= sorted[0].paidAt {
    } else {
      InsertKeepsApplied(id, source, sorted[1..], currency, frozenRate);
      assert ([source] + sorted[1..])[1..] == sorted[1..];
      assert InsertNewestFirst(source, sorted)[1..] == InsertNewestFirst(source, sorted[1..]);
    }
  }

  lemma {:induction false} SortKeepsApplied(id: nat, sources: seq<Source>, currency: Currency, frozenRate: Option<nat>)
    ensures AppliedFor(id, NewestFirst(sources), currency, frozenRate) == AppliedFor(id, sources, currency, frozenRate)
  {
    if sources != [] {
      SortKeepsApplied(id, sources[1..], currency, frozenRate);
      InsertKeepsApplied(id, sources[0], NewestFirst(sources[1..]), currency, frozenRate);
      assert ([sources[0]] + NewestFirst(sources[1..]))[1..] == NewestFirst(sources[1..]);
    }
  }

  lemma {:induction false} HeldForConcat(id: nat, left: seq<Bucket>, right: seq<Bucket>)
    ensures HeldFor(id, left + right) == HeldFor(id, left) + HeldFor(id, right)
  {
    if left == [] {
      assert left + right == right;
    } else {
      assert (left + right)[1..] == left[1..] + right;
      HeldForConcat(id, left[1..], right);
    }
  }

  lemma {:induction false} HeldForOne(id: nat, owner: nat, buckets: seq<Bucket>)
    requires forall b :: b in buckets ==> b.source == owner
    ensures HeldFor(id, buckets) == if id == owner then Sum(Held(buckets)) else 0
  {
    if buckets != [] {
      HeldForOne(id, owner, buckets[1..]);
      assert buckets == [buckets[0]] + buckets[1..];
      HeldCons(buckets[0], buckets[1..]);
    }
  }

  /** A receipt that applied something has a rounded head that fits. */
  ghost predicate SourceFits(source: Source, currency: Currency, frozenRate: Option<nat>) {
    AppliedOrNothing(source, currency, frozenRate) > 0 ==>
      HeadFits(source, AppliedOrNothing(source, currency, frozenRate))
  }

  ghost predicate HeadsFit(sources: seq<Source>, currency: Currency, frozenRate: Option<nat>) {
    forall s :: s in sources ==> SourceFits(s, currency, frozenRate)
  }

  ghost predicate AllResolve(sources: seq<Source>, currency: Currency, frozenRate: Option<nat>) {
    forall s :: s in sources ==> ResolveApplied(s, currency, frozenRate).Ok?
  }

  lemma {:induction false} BucketsResolve(sources: seq<Source>, currency: Currency, frozenRate: Option<nat>)
    ensures AllBuckets(sources, currency, frozenRate).Ok? <==> AllResolve(sources, currency, frozenRate)
  {
    if sources != [] {
      BucketsResolve(sources[1..], currency, frozenRate);
      assert sources == [sources[0]] + sources[1..];
    }
  }

  /** The buckets of a receipt, seen from any id: never less than it applied, and no more exactly when it fits. */
  lemma OneReceiptHeld(id: nat, source: Source, currency: Currency, frozenRate: Option<nat>)
    requires ResolveApplied(source, currency, frozenRate).Ok?
    ensures var buckets := BucketsOf(source, ResolveApplied(source, currency, frozenRate).value);
      && AllHold(buckets) && (forall b :: b in buckets ==> b.source == source.id)
      && HeldFor(id, buckets) == (if id == source.id then Sum(Held(buckets)) else 0)
      && Sum(Held(buckets)) >= AppliedOrNothing(source, currency, frozenRate)
      && (SourceFits(source, currency, frozenRate) <==>
            Sum(Held(buckets)) == AppliedOrNothing(source, currency, frozenRate))
  {
    var applied := ResolveApplied(source, currency, frozenRate).value;
    BucketsArePositive(source, applied);
    HeldForOne(id, source.id, BucketsOf(source, applied));
    if applied > 0 {
      BucketsAddUpIffHeadFits(source, applied);
    } else {
      assert Held(BucketsOf(source, applied)) == [];
    }
  }

  lemma BucketsSplit(id: nat, sources: seq<Source>, currency: Currency, frozenRate: Option<nat>)
    requires sources != [] && AllBuckets(sources, currency, frozenRate).Ok?
    ensures HeldFor(id, AllBuckets(sources, currency, frozenRate).value)
      == HeldFor(id, BucketsOf(sources[0], ResolveApplied(sources[0], currency, frozenRate).value))
         + HeldFor(id, AllBuckets(sources[1..], currency, frozenRate).value)
  {
    HeldForConcat(id, BucketsOf(sources[0], ResolveApplied(sources[0], currency, frozenRate).value),
      AllBuckets(sources[1..], currency, frozenRate).value);
  }

  lemma {:induction false} BucketsHoldReceipts(
    id: nat, sources: seq<Source>, currency: Currency, frozenRate: Option<nat>)
    requires AllBuckets(sources, currency, frozenRate).Ok?
    ensures HeldFor(id, AllBuckets(sources, currency, frozenRate).value)
      >= AppliedFor(id, sources, currency, frozenRate)
    ensures HeadsFit(sources, currency, frozenRate) ==>
      HeldFor(id, AllBuckets(sources, currency, frozenRate).value) == AppliedFor(id, sources, currency, frozenRate)
  {
    if sources != [] {
      BucketsHoldReceipts(id, sources[1..], currency, frozenRate);
      BucketsSplit(id, sources, currency, frozenRate);
      OneReceiptHeld(id, sources[0], currency, frozenRate);
    }
  }

  lemma {:induction false} UnfitReceiptHoldsMore(
    source: Source, sources: seq<Source>, currency: Currency, frozenRate: Option<nat>)
    requires AllBuckets(sources, currency, frozenRate).Ok?
    requires source in sources && !SourceFits(source, currency, frozenRate)
    ensures HeldFor(source.id, AllBuckets(sources, currency, frozenRate).value)
      > AppliedFor(source.id, sources, currency, frozenRate)
  {
    BucketsSplit(source.id, sources, currency, frozenRate);
    OneReceiptHeld(source.id, sources[0], currency, frozenRate);
    if source == sources[0] {
      BucketsHoldReceipts(source.id, sources[1..], currency, frozenRate);
    } else {
      UnfitReceiptHoldsMore(source, sources[1..], currency, frozenRate);
    }
  }

  lemma {:induction false} TakenForIsWithin(id: nat, buckets: seq<Bucket>, target: int)
    requires AllHold(buckets)
    ensures 0 <= HeldFor(id, Take(buckets, target)) <= HeldFor(id, buckets)
    decreases |buckets|
  {
    if buckets != [] {
      var amount := Min(buckets[0].amount, target);
      TakenForIsWithin(id, buckets[1..], target - amount);
      var taken := [buckets[0].(amount := amount)] + Take(buckets[1..], target - amount);
      assert taken[1..] == Take(buckets[1..], target - amount);
    }
  }

  lemma {:induction false} RefundedForTaken(id: nat, refunds: seq<Refund>, taken: seq<Bucket>)
    requires |refunds| == |taken|
    requires forall i :: 0 <= i < |taken| ==>
      refunds[i].source == taken[i].source && refunds[i].contractAmount == taken[i].amount
    ensures RefundedFor(id, refunds) == HeldFor(id, taken)
  {
    if taken != [] {
      RefundedForTaken(id, refunds[1..], taken[1..]);
    }
  }

  lemma RefundedForReceipt(
    id: nat, sources: seq<Source>, currency: Currency, frozenRate: Option<nat>, target: int, uzs: int)
    requires target > 0 && uzs > 0 && AllocateRefund(sources, currency, frozenRate, target, uzs).Ok?
    ensures AllBuckets(NewestFirst(sources), currency, frozenRate).Ok?
    ensures RefundedFor(id, AllocateRefund(sources, currency, frozenRate, target, uzs).value)
      == HeldFor(id, Take(AllBuckets(NewestFirst(sources), currency, frozenRate).value, target))
  {
    var taken := Take(AllBuckets(NewestFirst(sources), currency, frozenRate).value, target);
    RefundedForTaken(id, Refunds(taken, target, uzs), taken);
  }

  /** Where every head fits, no refund gives back more of a receipt than it applied to the contract. */
  lemma NoReceiptOverRefunded(
    id: nat, sources: seq<Source>, currency: Currency, frozenRate: Option<nat>, target: int, uzs: int)
    requires HeadsFit(sources, currency, frozenRate)
    requires AllocateRefund(sources, currency, frozenRate, target, uzs).Ok?
    ensures 0 <= RefundedFor(id, AllocateRefund(sources, currency, frozenRate, target, uzs).value)
      <= AppliedFor(id, sources, currency, frozenRate)
  {
    SortKeepsApplied(id, sources, currency, frozenRate);
    AppliedIsNonNegative(id, sources, currency, frozenRate);
    if target > 0 && uzs > 0 {
      var newest := NewestFirst(sources);
      RefundedForReceipt(id, sources, currency, frozenRate, target, uzs);
      SortKeepsMembers(sources);
      BucketsHoldReceipts(id, newest, currency, frozenRate);
      AllBucketsArePositive(newest, currency, frozenRate);
      TakenForIsWithin(id, AllBuckets(newest, currency, frozenRate).value, target);
    }
  }

  ghost predicate RefundsWithinReceipts(
    sources: seq<Source>, currency: Currency, frozenRate: Option<nat>, target: int, uzs: int)
  {
    AllocateRefund(sources, currency, frozenRate, target, uzs).Ok? ==>
      forall id: nat ::
        RefundedFor(id, AllocateRefund(sources, currency, frozenRate, target, uzs).value)
        <= AppliedFor(id, sources, currency, frozenRate)
  }

  ghost predicate NeverOverRefunded(sources: seq<Source>, currency: Currency, frozenRate: Option<nat>) {
    forall target, uzs :: RefundsWithinReceipts(sources, currency, frozenRate, target, uzs)
  }

  lemma {:induction false} TakeAll(buckets: seq<Bucket>)
    requires AllHold(buckets)
    ensures Take(buckets, Sum(Held(buckets))) == buckets
  {
    if buckets != [] {
      assert buckets == [buckets[0]] + buckets[1..];
      HeldCons(buckets[0], buckets[1..]);
      HeldIsNonNegative(buckets[1..]);
      TakeAll(buckets[1..]);
    }
  }

  /** A receipt that does not fit is refunded beyond what it applied, by the refund of everything. */
  lemma UnfitReceiptIsOverRefunded(source: Source, sources: seq<Source>, currency: Currency, frozenRate: Option<nat>)
    requires AllResolve(sources, currency, frozenRate)
    requires source in sources && !SourceFits(source, currency, frozenRate)
    ensures !NeverOverRefunded(sources, currency, frozenRate)
  {
    var newest := NewestFirst(sources);
    SortKeepsMembers(sources);
    BucketsResolve(newest, currency, frozenRate);
    var buckets := AllBuckets(newest, currency, frozenRate).value;
    AllBucketsArePositive(newest, currency, frozenRate);
    TakeAll(buckets);
    UnfitReceiptHoldsMore(source, newest, currency, frozenRate);
    SortKeepsApplied(source.id, sources, currency, frozenRate);
    AppliedIsNonNegative(source.id, sources, currency, frozenRate);
    HeldForIsWithin(source.id, buckets);
    RefundedForReceipt(source.id, sources, currency, frozenRate, Sum(Held(buckets)), 1);
    assert !RefundsWithinReceipts(sources, currency, frozenRate, Sum(Held(buckets)), 1);
  }

  lemma {:induction false} HeldForIsWithin(id: nat, buckets: seq<Bucket>)
    requires AllHold(buckets)
    ensures 0 <= HeldFor(id, buckets) <= Sum(Held(buckets))
  {
    if buckets != [] {
      assert buckets == [buckets[0]] + buckets[1..];
      HeldCons(buckets[0], buckets[1..]);
      HeldForIsWithin(id, buckets[1..]);
    }
  }

  /**
   * No refund, of whatever amount, gives back more of a receipt than it applied to the contract
   * exactly when the rounded head of every receipt that applied anything fits. Where a receipt cannot
   * be resolved there is no refund at all.
   */
  lemma NoReceiptOverRefundedIff(sources: seq<Source>, currency: Currency, frozenRate: Option<nat>)
    ensures NeverOverRefunded(sources, currency, frozenRate)
      <==> (AllResolve(sources, currency, frozenRate) ==> HeadsFit(sources, currency, frozenRate))
  {
    if !AllResolve(sources, currency, frozenRate) {
      SortKeepsMembers(sources);
      BucketsResolve(NewestFirst(sources), currency, frozenRate);
      forall target, uzs ensures RefundsWithinReceipts(sources, currency, frozenRate, target, uzs) {
        NothingRefundedUnresolved(sources, currency, frozenRate, target, uzs);
      }
    } else if HeadsFit(sources, currency, frozenRate) {
      forall target, uzs ensures RefundsWithinReceipts(sources, currency, frozenRate, target, uzs) {
        if AllocateRefund(sources, currency, frozenRate, target, uzs).Ok? {
          forall id: nat
            ensures RefundedFor(id, AllocateRefund(sources, currency, frozenRate, target, uzs).value)
              <= AppliedFor(id, sources, currency, frozenRate)
          {
            NoReceiptOverRefunded(id, sources, currency, frozenRate, target, uzs);
          }
        }
      }
    } else {
      var source :| source in sources && !SourceFits(source, currency, frozenRate);
      UnfitReceiptIsOverRefunded(source, sources, currency, frozenRate);
    }
  }

  lemma NothingRefundedUnresolved(
    sources: seq<Source>, currency: Currency, frozenRate: Option<nat>, target: int, uzs: int)
    requires AllBuckets(NewestFirst(sources), currency, frozenRate).Err?
    ensures RefundsWithinReceipts(sources, currency, frozenRate, target, uzs)
  {
    if AllocateRefund(sources, currency, frozenRate, target, uzs).Ok? {
      forall id: nat ensures 0 <= AppliedFor(id, sources, currency, frozenRate) {
        AppliedIsNonNegative(id, sources, currency, frozenRate);
      }
    }
  }

  lemma ThreePartsMeansHeadsFit(sources: seq<Source>, currency: Currency, frozenRate: Option<nat>)
    requires forall s :: s in sources ==> |s.breakdown| <= 3
    ensures HeadsFit(sources, currency, frozenRate)
  {
    forall s | s in sources ensures SourceFits(s, currency, frozenRate) {
      if AppliedOrNothing(s, currency, frozenRate) > 0 {
        ThreePartsFit(s, AppliedOrNothing(s, currency, frozenRate));
      }
    }
  }

  /** So receipts paid in up to three parts are never refunded beyond what they applied. */
  lemma ThreePartsAreNeverOverRefunded(sources: seq<Source>, currency: Currency, frozenRate: Option<nat>)
    requires forall s :: s in sources ==> |s.breakdown| <= 3
    ensures NeverOverRefunded(sources, currency, frozenRate)
  {
    ThreePartsMeansHeadsFit(sources, currency, frozenRate);
    NoReceiptOverRefundedIff(sources, currency, frozenRate);
  }

  // ---------------------------------------------------------------- which refunds exceed a receipt

  /** Receipts are rows of the database, so no two share an id. */
  ghost predicate DistinctSources(sources: seq<Source>) {
    sources == [] || ((forall s :: s in sources[1..] ==> s.id != sources[0].id) && DistinctSources(sources[1..]))
  }

  /** Every receipt that the refund uses up and goes beyond, newest first, has a head that fits. */
  ghost predicate UsesUpOnlyFitting(sources: seq<Source>, currency: Currency, frozenRate: Option<nat>, target: int)
    decreases |sources|
  {
    target <= 0 || sources == [] ||
    (var applied := AppliedOrNothing(sources[0], currency, frozenRate);
     && (target > applied ==> SourceFits(sources[0], currency, frozenRate))
     && UsesUpOnlyFitting(sources[1..], currency, frozenRate, target - applied))
  }

  lemma TakeCons(first: Bucket, rest: seq<Bucket>, target: int)
    requires first.amount > 0 && target > 0
    ensures Take([first] + rest, target)
      == [first.(amount := Min(first.amount, target))] + Take(rest, target - Min(first.amount, target))
  {
    assert ([first] + rest)[1..] == rest;
  }

  lemma {:induction false} TakeSplits(first: seq<Bucket>, rest: seq<Bucket>, target: int)
    requires AllHold(first)
    ensures Take(first + rest, target) == Take(first, target) + Take(rest, target - Sum(Held(first)))
    decreases |first|
  {
    HeldIsNonNegative(first);
    if first == [] {
      assert first + rest == rest && Held(first) == [];
    } else if target > 0 {
      var amount := Min(first[0].amount, target);
      assert first == [first[0]] + first[1..] && first + rest == [first[0]] + (first[1..] + rest);
      HeldCons(first[0], first[1..]);
      HeldIsNonNegative(first[1..]);
      TakeCons(first[0], first[1..], target);
      TakeCons(first[0], first[1..] + rest, target);
      TakeSplits(first[1..], rest, target - amount);
      TakenRest(rest, target - amount - Sum(Held(first[1..])), target - Sum(Held(first)));
    }
  }

  /** Nothing is taken for a target that is already met, by however much. */
  lemma TakenRest(rest: seq<Bucket>, target: int, target': int)
    requires target == target' || (target <= 0 && target' <= 0)
    ensures Take(rest, target) == Take(rest, target')
  {
  }

  lemma {:induction false} NothingAppliedElsewhere(
    id: nat, sources: seq<Source>, currency: Currency, frozenRate: Option<nat>)
    requires forall s :: s in sources ==> s.id != id
    ensures AppliedFor(id, sources, currency, frozenRate) == 0
    ensures AllBuckets(sources, currency, frozenRate).Ok? ==>
      HeldFor(id, AllBuckets(sources, currency, frozenRate).value) == 0
  {
    if sources != [] {
      NothingAppliedElsewhere(id, sources[1..], currency, frozenRate);
      if AllBuckets(sources, currency, frozenRate).Ok? {
        BucketsSplit(id, sources, currency, frozenRate);
        OneReceiptHeld(id, sources[0], currency, frozenRate);
      }
    }
  }

  function NewestBuckets(sources: seq<Source>, currency: Currency, frozenRate: Option<nat>): seq<Bucket>
    requires sources != []
  {
    var applied := ResolveApplied(sources[0], currency, frozenRate);
    if applied.Ok? then BucketsOf(sources[0], applied.value) else []
  }

  lemma TakenOfOne(id: nat, owner: nat, buckets: seq<Bucket>, target: int)
    requires AllHold(buckets) && target > 0 && forall b :: b in buckets ==> b.source == owner
    ensures HeldFor(id, Take(buckets, target)) == if id == owner then Min(target, Sum(Held(buckets))) else 0
  {
    TakeIsInOrder(buckets, target);
    TakeMeetsTarget(buckets, target);
    HeldIsNonNegative(buckets);
    forall b | b in Take(buckets, target) ensures b.source == owner {
      var i :| 0 <= i < |Take(buckets, target)| && Take(buckets, target)[i] == b;
      assert buckets[i] in buckets;
    }
    HeldForOne(id, owner, Take(buckets, target));
  }

  /** What a refund takes from the newest receipt, and what it takes from the others. */
  lemma TakenOfNewest(id: nat, sources: seq<Source>, currency: Currency, frozenRate: Option<nat>, target: int)
    requires sources != [] && AllBuckets(sources, currency, frozenRate).Ok? && target > 0
    ensures var held := Sum(Held(NewestBuckets(sources, currency, frozenRate)));
      HeldFor(id, Take(AllBuckets(sources, currency, frozenRate).value, target)) ==
        (if id == sources[0].id then Min(target, held) else 0)
        + HeldFor(id, Take(AllBuckets(sources[1..], currency, frozenRate).value, target - held))
  {
    var first := NewestBuckets(sources, currency, frozenRate);
    var rest := AllBuckets(sources[1..], currency, frozenRate).value;
    OneReceiptHeld(id, sources[0], currency, frozenRate);
    TakeSplits(first, rest, target);
    HeldForConcat(id, Take(first, target), Take(rest, target - Sum(Held(first))));
    TakenOfOne(id, sources[0].id, first, target);
  }

  // ---------------------------------------------------------------- the same in numbers

  /** A receipt by what its buckets hold and what it applied. */
  datatype Cap = Cap(id: nat, held: int, applied: int)

  function CapOf(source: Source, currency: Currency, frozenRate: Option<nat>): Cap {
    Cap(source.id, Sum(Held(NewestBuckets([source], currency, frozenRate))),
      AppliedOrNothing(source, currency, frozenRate))
  }

  function Caps(sources: seq<Source>, currency: Currency, frozenRate: Option<nat>): (caps: seq<Cap>)
    ensures |caps| == |sources| && forall i :: 0 <= i < |sources| ==> caps[i].id == sources[i].id
  {
    if sources == [] then []
    else [CapOf(sources[0], currency, frozenRate)] + Caps(sources[1..], currency, frozenRate)
  }

  function TakenOf(id: nat, caps: seq<Cap>, target: int): int {
    if caps == [] || target <= 0 then 0
    else (if caps[0].id == id then Min(target, caps[0].held) else 0) + TakenOf(id, caps[1..], target - caps[0].held)
  }

  function AppliedBy(id: nat, caps: seq<Cap>): int {
    if caps == [] then 0 else (if caps[0].id == id then caps[0].applied else 0) + AppliedBy(id, caps[1..])
  }

  ghost predicate DistinctCaps(caps: seq<Cap>) {
    caps == [] || ((forall i :: 1 <= i < |caps| ==> caps[i].id != caps[0].id) && DistinctCaps(caps[1..]))
  }

  ghost predicate CoverApplied(caps: seq<Cap>) {
    forall i :: 0 <= i < |caps| ==> 0 <= caps[i].applied <= caps[i].held
  }

  ghost predicate Within(id: nat, caps: seq<Cap>, target: int) {
    TakenOf(id, caps, target) <= AppliedBy(id, caps)
  }

  ghost predicate AllWithin(caps: seq<Cap>, target: int) {
    forall id: nat :: Within(id, caps, target)
  }

  /** Every receipt that is used up and gone beyond holds no more than it applied. */
  ghost predicate UsesUpOnlyExact(caps: seq<Cap>, target: int)
    decreases |caps|
  {
    target <= 0 || caps == [] ||
    ((target > caps[0].applied ==> caps[0].held == caps[0].applied)
     && UsesUpOnlyExact(caps[1..], target - caps[0].applied))
  }

  lemma {:induction false} NothingOf(id: nat, caps: seq<Cap>, target: int)
    requires forall i :: 0 <= i < |caps| ==> caps[i].id != id
    ensures TakenOf(id, caps, target) == 0 == AppliedBy(id, caps)
    decreases |caps|
  {
    if caps != [] {
      NothingOf(id, caps[1..], target - caps[0].held);
    }
  }

  lemma {:induction false} AppliedByIsNonNegative(id: nat, caps: seq<Cap>)
    requires CoverApplied(caps)
    ensures AppliedBy(id, caps) >= 0
  {
    if caps != [] {
      AppliedByIsNonNegative(id, caps[1..]);
    }
  }

  lemma NewestWithinIff(caps: seq<Cap>, target: int)
    requires caps != [] && DistinctCaps(caps) && CoverApplied(caps) && target > 0
    ensures Within(caps[0].id, caps, target) <==> (target > caps[0].applied ==> caps[0].held == caps[0].applied)
  {
    NothingOf(caps[0].id, caps[1..], target - caps[0].held);
  }

  lemma OthersWithinIff(id: nat, caps: seq<Cap>, target: int)
    requires caps != [] && DistinctCaps(caps) && CoverApplied(caps) && target > 0 && id != caps[0].id
    requires target > caps[0].applied ==> caps[0].held == caps[0].applied
    ensures Within(id, caps, target) <==> Within(id, caps[1..], target - caps[0].applied)
  {
    assert TakenOf(id, caps, target) == TakenOf(id, caps[1..], target - caps[0].held);
    if target <= caps[0].applied {
      assert TakenOf(id, caps[1..], target - caps[0].applied) == 0 == TakenOf(id, caps[1..], target - caps[0].held);
    }
  }

  lemma {:induction false} AllWithinIff(caps: seq<Cap>, target: int)
    requires DistinctCaps(caps) && CoverApplied(caps)
    ensures AllWithin(caps, target) <==> UsesUpOnlyExact(caps, target)
    decreases |caps|
  {
    if caps == [] || target <= 0 {
      forall id: nat ensures Within(id, caps, target) {
        AppliedByIsNonNegative(id, caps);
      }
    } else {
      AllWithinIff(caps[1..], target - caps[0].applied);
      FirstAllWithinIff(caps, target);
    }
  }

  lemma FirstAllWithinIff(caps: seq<Cap>, target: int)
    requires caps != [] && DistinctCaps(caps) && CoverApplied(caps) && target > 0
    ensures AllWithin(caps, target)
      <==> && (target > caps[0].applied ==> caps[0].held == caps[0].applied)
           && AllWithin(caps[1..], target - caps[0].applied)
  {
    var rest, left := caps[1..], target - caps[0].applied;
    NewestWithinIff(caps, target);
    NothingOf(caps[0].id, rest, left);
    if Within(caps[0].id, caps, target) {
      forall id: nat | id != caps[0].id ensures Within(id, caps, target) <==> Within(id, rest, left) {
        OthersWithinIff(id, caps, target);
      }
      assert Within(caps[0].id, rest, left);
      assert AllWithin(rest, left) ==> forall id: nat :: Within(id, rest, left) ==> Within(id, caps, target);
    }
  }

  // ---------------------------------------------------------------- and of the receipts

  lemma TakenOfCons(id: nat, cap: Cap, rest: seq<Cap>, target: int, left: int)
    requires target > 0 && left == target - cap.held
    ensures TakenOf(id, [cap] + rest, target)
      == (if cap.id == id then Min(target, cap.held) else 0) + TakenOf(id, rest, left)
  {
    assert ([cap] + rest)[1..] == rest;
  }

  lemma {:induction false} TakenIsTakenOf(
    id: nat, sources: seq<Source>, currency: Currency, frozenRate: Option<nat>, target: int)
    requires AllBuckets(sources, currency, frozenRate).Ok?
    ensures HeldFor(id, Take(AllBuckets(sources, currency, frozenRate).value, target))
      == TakenOf(id, Caps(sources, currency, frozenRate), target)
    decreases |sources|
  {
    if sources == [] || target <= 0 {
    } else {
      var cap := CapOf(sources[0], currency, frozenRate);
      var left := target - cap.held;
      TakenIsTakenOf(id, sources[1..], currency, frozenRate, left);
      TakenOfFirst(id, sources, currency, frozenRate, target, cap.held, left);
      TakenOfCons(id, cap, Caps(sources[1..], currency, frozenRate), target, left);
    }
  }

  lemma TakenOfFirst(
    id: nat, sources: seq<Source>, currency: Currency, frozenRate: Option<nat>, target: int, held: int,
    left: int)
    requires sources != [] && AllBuckets(sources, currency, frozenRate).Ok? && target > 0
    requires held == CapOf(sources[0], currency, frozenRate).held && left == target - held
    ensures HeldFor(id, Take(AllBuckets(sources, currency, frozenRate).value, target))
      == (if sources[0].id == id then Min(target, held) else 0)
         + HeldFor(id, Take(AllBuckets(sources[1..], currency, frozenRate).value, left))
  {
    assert NewestBuckets([sources[0]], currency, frozenRate) == NewestBuckets(sources, currency, frozenRate);
    TakenOfNewest(id, sources, currency, frozenRate, target);
  }

  lemma {:induction false} AppliedIsAppliedBy(
    id: nat, sources: seq<Source>, currency: Currency, frozenRate: Option<nat>)
    ensures AppliedFor(id, sources, currency, frozenRate) == AppliedBy(id, Caps(sources, currency, frozenRate))
  {
    if sources != [] {
      AppliedIsAppliedBy(id, sources[1..], currency, frozenRate);
      AppliedByCons(id, CapOf(sources[0], currency, frozenRate), Caps(sources[1..], currency, frozenRate));
    }
  }

  lemma AppliedByCons(id: nat, cap: Cap, rest: seq<Cap>)
    ensures AppliedBy(id, [cap] + rest) == (if cap.id == id then cap.applied else 0) + AppliedBy(id, rest)
  {
    assert ([cap] + rest)[1..] == rest;
  }

  lemma CapFits(source: Source, currency: Currency, frozenRate: Option<nat>)
    requires ResolveApplied(source, currency, frozenRate).Ok?
    ensures var cap := CapOf(source, currency, frozenRate);
      && cap.id == source.id && cap.applied == AppliedOrNothing(source, currency, frozenRate)
      && 0 <= cap.applied <= cap.held
      && (cap.held == cap.applied <==> SourceFits(source, currency, frozenRate))
  {
    OneReceiptHeld(0, source, currency, frozenRate);
  }

  lemma OtherIds(sources: seq<Source>, currency: Currency, frozenRate: Option<nat>)
    requires sources != [] && DistinctSources(sources)
    ensures var rest := Caps(sources[1..], currency, frozenRate);
      forall i :: 0 <= i < |rest| ==> rest[i].id != sources[0].id
  {
    forall i | 0 <= i < |sources[1..]| ensures sources[1..][i].id != sources[0].id {
      assert sources[1..][i] in sources[1..];
    }
  }

  lemma DistinctCons(cap: Cap, rest: seq<Cap>)
    requires DistinctCaps(rest) && CoverApplied(rest) && 0 <= cap.applied <= cap.held
    requires forall i :: 0 <= i < |rest| ==> rest[i].id != cap.id
    ensures DistinctCaps([cap] + rest) && CoverApplied([cap] + rest)
  {
    assert ([cap] + rest)[1..] == rest;
  }

  lemma {:induction false} CapsCover(sources: seq<Source>, currency: Currency, frozenRate: Option<nat>)
    requires DistinctSources(sources) && AllResolve(sources, currency, frozenRate)
    ensures DistinctCaps(Caps(sources, currency, frozenRate)) && CoverApplied(Caps(sources, currency, frozenRate))
  {
    if sources != [] {
      CapFits(sources[0], currency, frozenRate);
      OtherIds(sources, currency, frozenRate);
      CapsCover(sources[1..], currency, frozenRate);
      DistinctCons(CapOf(sources[0], currency, frozenRate), Caps(sources[1..], currency, frozenRate));
    }
  }

  lemma UsesUpCons(cap: Cap, rest: seq<Cap>, target: int, left: int)
    requires target > 0 && left == target - cap.applied
    ensures UsesUpOnlyExact([cap] + rest, target)
      <==> (target > cap.applied ==> cap.held == cap.applied) && UsesUpOnlyExact(rest, left)
  {
    assert ([cap] + rest)[1..] == rest;
  }

  lemma {:induction false} CapsFit(
    sources: seq<Source>, currency: Currency, frozenRate: Option<nat>, target: int)
    requires AllResolve(sources, currency, frozenRate)
    ensures UsesUpOnlyExact(Caps(sources, currency, frozenRate), target)
      <==> UsesUpOnlyFitting(sources, currency, frozenRate, target)
    decreases |sources|
  {
    if sources == [] || target <= 0 {
    } else {
      var cap := CapOf(sources[0], currency, frozenRate);
      CapFits(sources[0], currency, frozenRate);
      CapsFit(sources[1..], currency, frozenRate, target - cap.applied);
      UsesUpCons(cap, Caps(sources[1..], currency, frozenRate), target, target - cap.applied);
    }
  }

  lemma {:induction false} InsertKeepsDistinct(source: Source, sorted: seq<Source>)
    requires DistinctSources(sorted) && forall s :: s in sorted ==> s.id != source.id
    ensures DistinctSources(InsertNewestFirst(source, sorted))
  {
    var inserted := InsertNewestFirst(source, sorted);
    if sorted == [] || source.paidAt >= sorted[0].paidAt {
      assert inserted[1..] == sorted;
    } else {
      InsertKeepsDistinct(source, sorted[1..]);
      InsertKeepsMembers(source, sorted[1..]);
      assert inserted[1..] == InsertNewestFirst(source, sorted[1..]);
    }
  }

  lemma {:induction false} SortKeepsDistinct(sources: seq<Source>)
    requires DistinctSources(sources)
    ensures DistinctSources(NewestFirst(sources))
  {
    if sources != [] {
      SortKeepsDistinct(sources[1..]);
      SortKeepsMembers(sources[1..]);
      InsertKeepsDistinct(sources[0], NewestFirst(sources[1..]));
    }
  }

  lemma RefundedInNumbers(
    id: nat, sources: seq<Source>, currency: Currency, frozenRate: Option<nat>, target: int, uzs: int)
    requires target > 0 && uzs > 0 && AllocateRefund(sources, currency, frozenRate, target, uzs).Ok?
    ensures RefundedFor(id, AllocateRefund(sources, currency, frozenRate, target, uzs).value)
      == TakenOf(id, Caps(NewestFirst(sources), currency, frozenRate), target)
    ensures AppliedFor(id, sources, currency, frozenRate)
      == AppliedBy(id, Caps(NewestFirst(sources), currency, frozenRate))
  {
    RefundedForReceipt(id, sources, currency, frozenRate, target, uzs);
    TakenIsTakenOf(id, NewestFirst(sources), currency, frozenRate, target);
    SortKeepsApplied(id, sources, currency, frozenRate);
    AppliedIsAppliedBy(id, NewestFirst(sources), currency, frozenRate);
  }

  /**
   * For one refund, exactly: no receipt gives back more than it applied to the contract if and only if
   * every receipt that the refund uses up and goes beyond, newest first, has a head that fits.
   */
  lemma RefundWithinReceiptsIff(
    sources: seq<Source>, currency: Currency, frozenRate: Option<nat>, target: int, uzs: int)
    requires DistinctSources(sources) && AllocateRefund(sources, currency, frozenRate, target, uzs).Ok?
    requires target > 0 && uzs > 0
    ensures RefundsWithinReceipts(sources, currency, frozenRate, target, uzs)
      <==> UsesUpOnlyFitting(NewestFirst(sources), currency, frozenRate, target)
  {
    var newest := NewestFirst(sources);
    var caps := Caps(newest, currency, frozenRate);
    SortKeepsDistinct(sources);
    BucketsResolve(newest, currency, frozenRate);
    CapsCover(newest, currency, frozenRate);
    CapsFit(newest, currency, frozenRate, target);
    AllWithinIff(caps, target);
    forall id: nat
      ensures Within(id, caps, target) <==>
        RefundedFor(id, AllocateRefund(sources, currency, frozenRate, target, uzs).value)
        <= AppliedFor(id, sources, currency, frozenRate)
    {
      RefundedInNumbers(id, sources, currency, frozenRate, target, uzs);
    }
  }

  // ---------------------------------------------------------------- what may be stored

  predicate StoredCapHolds(source: Source, refunds: seq<Refund>) {
    RefundedFor(source.id, refunds) > 0 ==>
      source.applied.Some? && RefundedFor(source.id, refunds) <= source.applied.value
  }

  /** The amounts the database compares refunds with are those stored on the receipts themselves. */
  predicate StoredCapsHold(sources: seq<Source>, refunds: seq<Refund>) {
    forall i :: 0 <= i < |sources| ==> StoredCapHolds(sources[i], refunds)
  }

  /** Every receipt the refund reaches, newest first, carries the amount it applied. */
  ghost predicate ReachesOnlyStored(sources: seq<Source>, currency: Currency, frozenRate: Option<nat>, target: int)
    decreases |sources|
  {
    target <= 0 || sources == [] ||
    (var applied := AppliedOrNothing(sources[0], currency, frozenRate);
     (applied > 0 ==> sources[0].applied.Some?)
     && ReachesOnlyStored(sources[1..], currency, frozenRate, target - applied))
  }

  ghost predicate StoredIfTaken(source: Source, caps: seq<Cap>, target: int) {
    TakenOf(source.id, caps, target) > 0 ==> source.applied.Some?
  }

  ghost predicate TakenAreStored(sources: seq<Source>, caps: seq<Cap>, target: int) {
    forall s :: s in sources ==> StoredIfTaken(s, caps, target)
  }

  /** A refund that reaches a receipt takes something of it. */
  lemma FirstStoredIff(source: Source, cap: Cap, rest: seq<Cap>, target: int)
    requires cap.id == source.id && 0 <= cap.applied <= cap.held && target > 0
    requires (cap.applied == 0 ==> cap.held == 0) && forall i :: 0 <= i < |rest| ==> rest[i].id != source.id
    ensures StoredIfTaken(source, [cap] + rest, target) <==> (cap.applied > 0 ==> source.applied.Some?)
  {
    TakenOfCons(source.id, cap, rest, target, target - cap.held);
    NothingOf(source.id, rest, target - cap.held);
  }

  lemma OtherStoredIff(source: Source, cap: Cap, rest: seq<Cap>, target: int, left: int)
    requires cap.id != source.id && target > 0 && left == target - cap.applied && cap.applied <= cap.held
    requires target > cap.applied ==> cap.held == cap.applied
    ensures StoredIfTaken(source, [cap] + rest, target) <==> StoredIfTaken(source, rest, left)
  {
    TakenOfCons(source.id, cap, rest, target, target - cap.held);
    if target <= cap.applied {
      assert TakenOf(source.id, rest, left) == 0 == TakenOf(source.id, rest, target - cap.held);
    }
  }

  lemma SplitStored(sources: seq<Source>, cap: Cap, rest: seq<Cap>, target: int, left: int)
    requires sources != [] && DistinctSources(sources) && cap.id == sources[0].id
    requires target > 0 && left == target - cap.applied && 0 <= cap.applied <= cap.held
    requires (target > cap.applied ==> cap.held == cap.applied) && (cap.applied == 0 ==> cap.held == 0)
    requires forall i :: 0 <= i < |rest| ==> rest[i].id != cap.id
    ensures TakenAreStored(sources, [cap] + rest, target)
      <==> (cap.applied > 0 ==> sources[0].applied.Some?) && TakenAreStored(sources[1..], rest, left)
  {
    assert sources == [sources[0]] + sources[1..];
    FirstStoredIff(sources[0], cap, rest, target);
    forall s | s in sources[1..] ensures StoredIfTaken(s, [cap] + rest, target) <==> StoredIfTaken(s, rest, left) {
      OtherStoredIff(s, cap, rest, target, left);
    }
  }

  lemma NothingTakenIsStored(sources: seq<Source>, caps: seq<Cap>, target: int)
    requires sources == [] || target <= 0
    ensures TakenAreStored(sources, caps, target)
  {
  }

  lemma {:induction false} TakenAreStoredIff(
    sources: seq<Source>, currency: Currency, frozenRate: Option<nat>, target: int)
    requires DistinctSources(sources) && AllResolve(sources, currency, frozenRate)
    requires UsesUpOnlyFitting(sources, currency, frozenRate, target)
    ensures TakenAreStored(sources, Caps(sources, currency, frozenRate), target)
      <==> ReachesOnlyStored(sources, currency, frozenRate, target)
    decreases |sources|
  {
    if sources == [] || target <= 0 {
      NothingTakenIsStored(sources, Caps(sources, currency, frozenRate), target);
    } else {
      var left := target - AppliedOrNothing(sources[0], currency, frozenRate);
      FirstUsedUp(sources, currency, frozenRate, target, left);
      TakenAreStoredIff(sources[1..], currency, frozenRate, left);
      OneMoreStored(sources, currency, frozenRate, target, left);
    }
  }

  lemma OneMoreStored(sources: seq<Source>, currency: Currency, frozenRate: Option<nat>, target: int, left: int)
    requires sources != [] && DistinctSources(sources) && AllResolve(sources, currency, frozenRate)
    requires target > 0 && left == target - AppliedOrNothing(sources[0], currency, frozenRate)
    requires left > 0 ==> SourceFits(sources[0], currency, frozenRate)
    ensures TakenAreStored(sources, Caps(sources, currency, frozenRate), target)
      <==> (AppliedOrNothing(sources[0], currency, frozenRate) > 0 ==> sources[0].applied.Some?)
           && TakenAreStored(sources[1..], Caps(sources[1..], currency, frozenRate), left)
  {
    CapFits(sources[0], currency, frozenRate);
    OtherIds(sources, currency, frozenRate);
    SplitStored(
      sources, CapOf(sources[0], currency, frozenRate), Caps(sources[1..], currency, frozenRate), target, left);
  }

  lemma FirstUsedUp(sources: seq<Source>, currency: Currency, frozenRate: Option<nat>, target: int, left: int)
    requires sources != [] && target > 0 && left == target - AppliedOrNothing(sources[0], currency, frozenRate)
    ensures UsesUpOnlyFitting(sources, currency, frozenRate, target)
      <==> (left > 0 ==> SourceFits(sources[0], currency, frozenRate))
           && UsesUpOnlyFitting(sources[1..], currency, frozenRate, left)
    ensures ReachesOnlyStored(sources, currency, frozenRate, target)
      <==> (AppliedOrNothing(sources[0], currency, frozenRate) > 0 ==> sources[0].applied.Some?)
           && ReachesOnlyStored(sources[1..], currency, frozenRate, left)
  {
  }

  /** What is stored on a receipt is what it applied, as far as that is anything. */
  lemma {:induction false} StoredIsApplied(
    i: nat, sources: seq<Source>, currency: Currency, frozenRate: Option<nat>)
    requires DistinctSources(sources) && i < |sources|
    ensures AppliedFor(sources[i].id, sources, currency, frozenRate)
      == AppliedOrNothing(sources[i], currency, frozenRate)
    ensures sources[i].applied.Some? ==>
      AppliedOrNothing(sources[i], currency, frozenRate) == Max(0, sources[i].applied.value)
  {
    if i == 0 {
      NothingAppliedElsewhere(sources[0].id, sources[1..], currency, frozenRate);
    } else {
      assert sources[i] in sources[1..];
      StoredIsApplied(i - 1, sources[1..], currency, frozenRate);
    }
  }

  /**
   * The database takes a refund, as far as its receipts are concerned, exactly when every receipt it
   * reaches carries the amount it applied and every one it uses up has a head that fits.
   */
  lemma StoredCapsHoldIff(
    sources: seq<Source>, currency: Currency, frozenRate: Option<nat>, target: int, uzs: int)
    requires DistinctSources(sources) && AllocateRefund(sources, currency, frozenRate, target, uzs).Ok?
    requires target > 0 && uzs > 0
    ensures StoredCapsHold(sources, AllocateRefund(sources, currency, frozenRate, target, uzs).value)
      <==> && UsesUpOnlyFitting(NewestFirst(sources), currency, frozenRate, target)
           && ReachesOnlyStored(NewestFirst(sources), currency, frozenRate, target)
  {
    var newest := NewestFirst(sources);
    var refunds := AllocateRefund(sources, currency, frozenRate, target, uzs).value;
    CapsInNumbers(sources, currency, frozenRate, target, uzs);
    RefundWithinReceiptsIff(sources, currency, frozenRate, target, uzs);
    if UsesUpOnlyFitting(newest, currency, frozenRate, target) {
      SortKeepsDistinct(sources);
      BucketsResolve(newest, currency, frozenRate);
      TakenAreStoredIff(newest, currency, frozenRate, target);
    }
  }

  lemma OneCapInNumbers(
    i: nat, sources: seq<Source>, currency: Currency, frozenRate: Option<nat>, target: int, uzs: int)
    requires DistinctSources(sources) && AllocateRefund(sources, currency, frozenRate, target, uzs).Ok?
    requires target > 0 && uzs > 0 && i < |sources|
    ensures var refunds := AllocateRefund(sources, currency, frozenRate, target, uzs).value;
      StoredCapHolds(sources[i], refunds)
      <==> && RefundedFor(sources[i].id, refunds) <= AppliedFor(sources[i].id, sources, currency, frozenRate)
           && StoredIfTaken(sources[i], Caps(NewestFirst(sources), currency, frozenRate), target)
  {
    RefundedInNumbers(sources[i].id, sources, currency, frozenRate, target, uzs);
    StoredIsApplied(i, sources, currency, frozenRate);
  }

  /** The same with what is taken in numbers. */
  lemma CapsInNumbers(
    sources: seq<Source>, currency: Currency, frozenRate: Option<nat>, target: int, uzs: int)
    requires DistinctSources(sources) && AllocateRefund(sources, currency, frozenRate, target, uzs).Ok?
    requires target > 0 && uzs > 0
    ensures StoredCapsHold(sources, AllocateRefund(sources, currency, frozenRate, target, uzs).value)
      <==> && RefundsWithinReceipts(sources, currency, frozenRate, target, uzs)
           && TakenAreStored(NewestFirst(sources), Caps(NewestFirst(sources), currency, frozenRate), target)
  {
    var newest := NewestFirst(sources);
    var caps := Caps(newest, currency, frozenRate);
    var refunds := AllocateRefund(sources, currency, frozenRate, target, uzs).value;
    SortKeepsMembers(sources);
    forall i | 0 <= i < |sources|
      ensures sources[i] in newest
      ensures StoredCapHolds(sources[i], refunds)
        <==> && RefundedFor(sources[i].id, refunds) <= AppliedFor(sources[i].id, sources, currency, frozenRate)
             && StoredIfTaken(sources[i], caps, target)
    {
      OneCapInNumbers(i, sources, currency, frozenRate, target, uzs);
      assert sources[i] in sources;
    }
    if StoredCapsHold(sources, refunds) {
      forall id: nat ensures RefundedFor(id, refunds) <= AppliedFor(id, sources, currency, frozenRate) {
        if i :| 0 <= i < |sources| && sources[i].id == id {
          assert StoredCapHolds(sources[i], refunds);
        } else {
          RefundedInNumbers(id, sources, currency, frozenRate, target, uzs);
          NotRefundedElsewhere(id, sources, currency, frozenRate, target);
        }
      }
    }
  }

  lemma NotRefundedElsewhere(
    id: nat, sources: seq<Source>, currency: Currency, frozenRate: Option<nat>, target: int)
    requires forall i :: 0 <= i < |sources| ==> sources[i].id != id
    ensures TakenOf(id, Caps(NewestFirst(sources), currency, frozenRate), target) == 0
    ensures AppliedFor(id, sources, currency, frozenRate) == 0
  {
    var newest := NewestFirst(sources);
    SortKeepsMembers(sources);
    forall i | 0 <= i < |newest| ensures newest[i].id != id {
      assert newest[i] in newest;
    }
    NothingOf(id, Caps(newest, currency, frozenRate), target);
    NothingAppliedElsewhere(id, sources, currency, frozenRate);
  }

  /** Where every head fits and every receipt carries what it applied, any refund may be stored. */
  lemma {:induction false} FittingMayBeUsedUp(
    sources: seq<Source>, currency: Currency, frozenRate: Option<nat>, target: int)
    requires HeadsFit(sources, currency, frozenRate) && forall s :: s in sources ==> s.applied.Some?
    ensures UsesUpOnlyFitting(sources, currency, frozenRate, target)
    ensures ReachesOnlyStored(sources, currency, frozenRate, target)
    decreases |sources|
  {
    if sources != [] {
      FittingMayBeUsedUp(
        sources[1..], currency, frozenRate, target - AppliedOrNothing(sources[0], currency, frozenRate));
    }
  }

  /** At 12 600 so'm per dollar: a receipt of four times 63 so'm, which are two cents, and one of a cent before it. */
  function FourPartReceipts(): seq<Source> {
    [Source(0, 1, Some(Cash), [], 126, Some(126_000_000), Some(1)),
     Source(1, 2, None, [Part(Cash, 63), Part(Transfer, 63), Part(Card, 63), Part(OtherTender, 63)], 252,
       Some(126_000_000), Some(2))]
  }

  lemma FourPartBuckets(source: Source)
    requires source == FourPartReceipts()[1]
    ensures Held(BucketsOf(source, 2)) == [1, 1, 1]
  {
    var parts := source.breakdown;
    BreakdownTotal(parts);
    assert Amounts(parts) == [63, 63, 63] + [63];
    ThreeAmounts([63, 63, 63]);
    SumSnoc([63, 63, 63], 63);
    RoundUnique(126, 252, 1);
    assert HeadAmounts(2, parts, 3) == [1, 1, 1];
    ThreeAmounts([1, 1, 1]);
    assert BucketAmounts(2, parts) == [1, 1, 1, -1];
    KeptOfFour(source, parts, BucketAmounts(2, parts));
  }

  lemma KeptOfFour(source: Source, parts: seq<Part>, amounts: seq<int>)
    requires |parts| == 4 && amounts == [1, 1, 1, -1]
    ensures Held(KeepPositive(source, parts, amounts)) == [1, 1, 1]
  {
    assert amounts[..3] == [1, 1, 1] && amounts[..3][..2] == [1, 1] && amounts[..3][..2][..1] == [1];
    assert KeepPositive(source, parts[..3][..2][..1][..0], amounts[..3][..2][..1][..0]) == [];
    assert |KeepPositive(source, parts[..3][..2][..1], amounts[..3][..2][..1])| == 1;
    assert |KeepPositive(source, parts[..3][..2], amounts[..3][..2])| == 2;
  }

  lemma FourPartCaps()
    ensures NewestFirst(FourPartReceipts()) == [FourPartReceipts()[1], FourPartReceipts()[0]]
    ensures CapOf(FourPartReceipts()[1], USD, None) == Cap(1, 3, 2)
    ensures CapOf(FourPartReceipts()[0], USD, None) == Cap(0, 1, 1)
  {
    var sources := FourPartReceipts();
    assert sources[1..] == [sources[1]] && NewestFirst(sources[1..]) == [sources[1]];
    FourPartBuckets(sources[1]);
    ThreeAmounts([1, 1, 1]);
    CapFits(sources[0], USD, None);
  }

  /** The refund of all three cents takes all three from the newer receipt, which brought two. */
  lemma FourPartsAreOverRefunded()
    ensures var refund := AllocateRefund(FourPartReceipts(), USD, None, 3, 378);
      && refund.Ok? && RefundedFor(1, refund.value) == 3 && AppliedFor(1, FourPartReceipts(), USD, None) == 2
  {
    var sources, newest := FourPartReceipts(), NewestFirst(FourPartReceipts());
    FourPartCaps();
    BucketsResolve(newest, USD, None);
    EnoughHeld(newest, USD, None, 1, 3);
    RefundReconciles(sources, USD, None, 3, 378);
    RefundedInNumbers(1, sources, USD, None, 3, 378);
    assert Caps(newest, USD, None) == [Cap(1, 3, 2), Cap(0, 1, 1)];
    NothingOf(1, [Cap(1, 3, 2), Cap(0, 1, 1)][1..], 0);
  }

  lemma EnoughHeld(sources: seq<Source>, currency: Currency, frozenRate: Option<nat>, id: nat, held: int)
    requires sources != [] && AllBuckets(sources, currency, frozenRate).Ok?
    requires CapOf(sources[0], currency, frozenRate).held == held && sources[0].id == id
    ensures Sum(Held(AllBuckets(sources, currency, frozenRate).value)) >= held
  {
    BucketsSplit(id, sources, currency, frozenRate);
    OneReceiptHeld(id, sources[0], currency, frozenRate);
    AllBucketsArePositive(sources, currency, frozenRate);
    AllBucketsArePositive(sources[1..], currency, frozenRate);
    HeldForIsWithin(id, AllBuckets(sources, currency, frozenRate).value);
    HeldForIsWithin(id, AllBuckets(sources[1..], currency, frozenRate).value);
  }

  lemma {:induction false} AppliedIsNonNegative(
    id: nat, sources: seq<Source>, currency: Currency, frozenRate: Option<nat>)
    ensures AppliedFor(id, sources, currency, frozenRate) >= 0
  {
    if sources != [] {
      AppliedIsNonNegative(id, sources[1..], currency, frozenRate);
    }
  }

  lemma {:induction false} SortKeepsMembers(sources: seq<Source>)
    ensures forall s :: s in NewestFirst(sources) <==> s in sources
  {
    if sources != [] {
      SortKeepsMembers(sources[1..]);
      InsertKeepsMembers(sources[0], NewestFirst(sources[1..]));
    }
  }

  lemma {:induction false} InsertKeepsMembers(source: Source, sorted: seq<Source>)
    ensures forall s :: s in InsertNewestFirst(source, sorted) <==> s == source || s in sorted
  {
    if sorted != [] {
      InsertKeepsMembers(source, sorted[1..]);
    }
  }
}
