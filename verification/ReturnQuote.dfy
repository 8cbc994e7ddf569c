/** The refund a returned Nasiya device may get, in the contract currency and as the shop sees it. */
module ReturnQuote {
  import opened Results
  import opened Rounding
  import opened Sequences
  import opened Currency
  import opened ReturnAccounting
  import opened RefundCaps
  import opened Settlement

  datatype Resolution = Active | Archived | WrittenOff

  datatype Terms = Terms(
    currency: Currency,
    downPayment: int,
    cancelledDebt: int,
    frozenRate: Option<nat>,
    reconstruction: Reconstruction,
    resolution: Resolution,
    deviceSoldByNasiya: bool,
    sources: seq<Source>)

  datatype BlockReason =
    | NotActive
    | DeviceElsewhere
    | EvidenceIncomplete
    | Unresolved(error: ReturnError)
    | DownPaymentNotReceived
    | AmountNotStorable

  datatype ContractQuote = ContractQuote(
    blocked: Option<BlockReason>,
    receipts: Money,
    defaultRefund: Money,
    defaultRetained: Money,
    maxRefund: Money,
    cancelledDebt: Money,
    receiptsVerified: bool)

  /** What all receipts together applied to the contract; the first unresolvable one is the error. */
  function TotalApplied(sources: seq<Source>, currency: Currency, frozenRate: Option<nat>): Result<int, ReturnError> {
    if sources == [] then Ok(0)
    else
      match ResolveApplied(sources[0], currency, frozenRate)
      case Err(e) => Err(e)
      case Ok(applied) =>
        match TotalApplied(sources[1..], currency, frozenRate)
        case Err(e) => Err(e)
        case Ok(rest) => Ok(applied + rest)
  }

  function Blocked(terms: Terms, reason: BlockReason): ContractQuote {
    var zero := Money(terms.currency, 0);
    ContractQuote(Some(reason), zero, zero, zero, zero, Money(terms.currency, terms.cancelledDebt), false)
  }

  /** None where the program throws: even a blocked quote must be able to show the cancelled debt. */
  function CalculateReturnQuote(terms: Terms): Option<ContractQuote> {
    if !Storable(Money(terms.currency, terms.cancelledDebt)) then None
    else if terms.resolution != Active then Some(Blocked(terms, NotActive))
    else if !terms.deviceSoldByNasiya then Some(Blocked(terms, DeviceElsewhere))
    else if terms.reconstruction != ReconstructionComplete then Some(Blocked(terms, EvidenceIncomplete))
    else
      match TotalApplied(terms.sources, terms.currency, terms.frozenRate)
      case Err(e) => Some(Blocked(terms, Unresolved(e)))
      case Ok(receipts) =>
        if terms.downPayment > receipts then Some(Blocked(terms, DownPaymentNotReceived))
        else
          var defaultRefund := Min(terms.downPayment, receipts);
          if !Storable(Money(terms.currency, receipts)) || !Storable(Money(terms.currency, defaultRefund))
             || !Storable(Money(terms.currency, receipts - defaultRefund))
          then Some(Blocked(terms, AmountNotStorable))
          else
            Some(ContractQuote(
              None,
              Money(terms.currency, receipts),
              Money(terms.currency, defaultRefund),
              Money(terms.currency, receipts - defaultRefund),
              Money(terms.currency, receipts),
              Money(terms.currency, terms.cancelledDebt),
              true))
  }

  /** A quote whose default split makes up the receipts, all of them storable amounts of one currency. */
  ghost predicate Sound(quote: ContractQuote) {
    && Storable(quote.receipts) && Storable(quote.cancelledDebt)
    && quote.receipts.currency == quote.defaultRefund.currency == quote.defaultRetained.currency
       == quote.cancelledDebt.currency
    && quote.maxRefund == quote.receipts
    && quote.defaultRefund.units >= 0 && quote.defaultRetained.units >= 0
    && quote.defaultRefund.units + quote.defaultRetained.units == quote.receipts.units
  }

  /** Which contracts may be returned. */
  predicate MayBeReturned(terms: Terms) {
    && terms.resolution == Active && terms.deviceSoldByNasiya && terms.reconstruction == ReconstructionComplete
    && TotalApplied(terms.sources, terms.currency, terms.frozenRate).Ok?
    && 0 <= terms.downPayment <= TotalApplied(terms.sources, terms.currency, terms.frozenRate).value
         <= MaxUnits(terms.currency)
  }

  /** Every quote splits its receipts without remainder. */
  lemma QuoteIsSound(terms: Terms)
    ensures CalculateReturnQuote(terms).None? <==> !Storable(Money(terms.currency, terms.cancelledDebt))
    ensures CalculateReturnQuote(terms).Some? ==> Sound(CalculateReturnQuote(terms).value)
    ensures CalculateReturnQuote(terms).Some? ==>
      (CalculateReturnQuote(terms).value.blocked.None? <==> MayBeReturned(terms))
  {
  }

  // ---------------------------------------------------------------- the quote in the shop's currency

  datatype Presented = Presented(
    eligible: bool,
    rateMissing: bool,
    receipts: Money,
    defaultRefund: Money,
    defaultRetained: Money,
    maxRefund: Money,
    cancelledDebt: Money)

  function Subtract(left: Money, right: Money): Option<Money> {
    if !Storable(left) || !Storable(right) || left.currency != right.currency || left.units < right.units then None
    else Some(Money(left.currency, left.units - right.units))
  }

  function Shown(converted: Conversion, display: Currency): Money {
    if converted.Converted? then converted.money else Money(display, 0)
  }

  /** None where the program throws. */
  function PresentQuote(quote: ContractQuote, display: Currency, rate: Option<nat>): Option<Presented> {
    var receipts := ConvertAtMost(quote.receipts, display, rate);
    var defaultRefund := ConvertAtMost(quote.defaultRefund, display, rate);
    var cancelledDebt := ConvertAtMost(quote.cancelledDebt, display, rate);
    if receipts.InvalidMoney? || defaultRefund.InvalidMoney? || cancelledDebt.InvalidMoney? then None
    else
      var rateMissing := receipts.NoQuote? || defaultRefund.NoQuote? || cancelledDebt.NoQuote?;
      match Subtract(Shown(receipts, display), Shown(defaultRefund, display))
      case None => None
      case Some(retained) =>
        Some(Presented(
          quote.blocked.None? && !rateMissing,
          rateMissing,
          Shown(receipts, display),
          Shown(defaultRefund, display),
          retained,
          Shown(receipts, display),
          Shown(cancelledDebt, display)))
  }

  /** The shop shows the contract currency itself, or knows a rate to it. */
  predicate RateKnown(currency: Currency, display: Currency, rate: Option<nat>) {
    display == currency || (rate.Some? && rate.value > 0)
  }

  /** A quote can be shown exactly when its amounts fit the shop's currency: the subtraction never fails. */
  lemma SoundQuoteIsShown(quote: ContractQuote, display: Currency, rate: Option<nat>)
    requires Sound(quote)
    ensures PresentQuote(quote, display, rate).None? <==>
      ConvertAtMost(quote.receipts, display, rate).InvalidMoney?
      || ConvertAtMost(quote.cancelledDebt, display, rate).InvalidMoney?
    ensures PresentQuote(quote, display, rate).Some? ==>
      var shown := PresentQuote(quote, display, rate).value;
      && shown.defaultRefund.units + shown.defaultRetained.units == shown.receipts.units == shown.maxRefund.units
      && shown.defaultRefund.units >= 0 && shown.defaultRetained.units >= 0
      && (shown.eligible <==> quote.blocked.None? && RateKnown(quote.receipts.currency, display, rate))
  {
    var receipts := ConvertAtMost(quote.receipts, display, rate);
    if receipts.Converted? {
      BoundMonotone(quote.defaultRefund, quote.receipts, display, rate);
      BoundMonotone(quote.receipts, quote.receipts, display, rate);
      BoundIsStorable(quote.receipts, display, rate);
      BoundIsStorable(quote.defaultRefund, display, rate);
      RateIsKnown(quote.receipts, display, rate);
    } else {
      RateIsKnown(quote.receipts, display, rate);
      RateIsKnown(quote.defaultRefund, display, rate);
    }
    RateIsKnown(quote.cancelledDebt, display, rate);
  }

  /**
   * Showing the quote of a contract fails only for an amount that no storable money in the shop's
   * currency can show -- never in the subtraction. What is shown again splits without remainder, and
   * it offers a refund exactly when the contract may be returned and a rate is known where one is needed.
   */
  lemma PresentationIsSafe(terms: Terms, display: Currency, rate: Option<nat>)
    requires Storable(Money(terms.currency, terms.cancelledDebt))
    ensures CalculateReturnQuote(terms).Some?
    ensures var quote := CalculateReturnQuote(terms).value;
      PresentQuote(quote, display, rate).None? <==>
        ConvertAtMost(quote.receipts, display, rate).InvalidMoney?
        || ConvertAtMost(quote.cancelledDebt, display, rate).InvalidMoney?
    ensures PresentQuote(CalculateReturnQuote(terms).value, display, rate).Some? ==>
      var shown := PresentQuote(CalculateReturnQuote(terms).value, display, rate).value;
      && shown.defaultRefund.units + shown.defaultRetained.units == shown.receipts.units == shown.maxRefund.units
      && shown.defaultRefund.units >= 0 && shown.defaultRetained.units >= 0
      && (shown.eligible <==> MayBeReturned(terms) && RateKnown(terms.currency, display, rate))
  {
    QuoteIsSound(terms);
    SoundQuoteIsShown(CalculateReturnQuote(terms).value, display, rate);
  }

  function AppliedAmounts(sources: seq<Source>, currency: Currency, frozenRate: Option<nat>): (amounts: seq<int>)
    requires forall i :: 0 <= i < |sources| ==> ResolveApplied(sources[i], currency, frozenRate).Ok?
    ensures |amounts| == |sources|
  {
    seq(|sources|, i requires 0 <= i < |sources| => ResolveApplied(sources[i], currency, frozenRate).value)
  }

  lemma {:induction false} TotalIsSum(sources: seq<Source>, currency: Currency, frozenRate: Option<nat>)
    ensures TotalApplied(sources, currency, frozenRate).Ok?
      <==> forall i :: 0 <= i < |sources| ==> ResolveApplied(sources[i], currency, frozenRate).Ok?
    ensures TotalApplied(sources, currency, frozenRate).Ok? ==>
      TotalApplied(sources, currency, frozenRate).value == Sum(AppliedAmounts(sources, currency, frozenRate))
  {
    if sources != [] {
      TotalIsSum(sources[1..], currency, frozenRate);
      if TotalApplied(sources, currency, frozenRate).Ok? {
        SumCons(AppliedAmounts(sources, currency, frozenRate));
        assert AppliedAmounts(sources, currency, frozenRate)[1..]
          == AppliedAmounts(sources[1..], currency, frozenRate);
      } else if forall i :: 0 <= i < |sources| ==> ResolveApplied(sources[i], currency, frozenRate).Ok? {
        assert ResolveApplied(sources[0], currency, frozenRate).Ok?;
      }
    }
  }

  /**
   * A contract that may be returned is quoted all that its receipts applied, of which the down payment
   * is proposed as the refund; one that may not is quoted nothing but its debt.
   */
  lemma QuoteProposesDownPayment(terms: Terms)
    requires Storable(Money(terms.currency, terms.cancelledDebt))
    ensures CalculateReturnQuote(terms).Some?
    ensures var quote := CalculateReturnQuote(terms).value;
      && quote.cancelledDebt == Money(terms.currency, terms.cancelledDebt)
      && (quote.receiptsVerified <==> MayBeReturned(terms))
      && (!MayBeReturned(terms) ==> quote.receipts == quote.defaultRefund == Money(terms.currency, 0))
      && (MayBeReturned(terms) ==>
            && (forall i :: 0 <= i < |terms.sources| ==>
                  ResolveApplied(terms.sources[i], terms.currency, terms.frozenRate).Ok?)
            && quote.receipts
               == Money(terms.currency, Sum(AppliedAmounts(terms.sources, terms.currency, terms.frozenRate)))
            && quote.defaultRefund == Money(terms.currency, terms.downPayment))
  {
    TotalIsSum(terms.sources, terms.currency, terms.frozenRate);
  }

  /** Which amount stands on the screen for another: itself, or the most that converts back within it; else nothing. */
  ghost predicate Shows(shown: Money, value: Money, display: Currency, rate: Option<nat>) {
    && shown.currency == display
    && (display == value.currency ==> shown == value)
    && (!RateKnown(value.currency, display, rate) ==> shown.units == 0)
    && (RateKnown(value.currency, display, rate) ==>
          && Convert(value, display, rate).Converted? && Convert(shown, value.currency, rate).Converted?
          && 0 <= shown.units <= Convert(value, display, rate).money.units
          && Convert(shown, value.currency, rate).money.units <= value.units
          && forall units :: shown.units < units <= Convert(value, display, rate).money.units ==>
               Convert(Money(display, units), value.currency, rate).Converted? ==>
               Convert(Money(display, units), value.currency, rate).money.units > value.units)
  }

  lemma ShownIsBound(value: Money, display: Currency, rate: Option<nat>)
    requires Storable(value) && !ConvertAtMost(value, display, rate).InvalidMoney?
    ensures Shows(Shown(ConvertAtMost(value, display, rate), display), value, display, rate)
  {
    RateIsKnown(value, display, rate);
    var bound := ConvertAtMost(value, display, rate);
    if bound.Converted? {
      BoundIsLargestUpToNearest(value, display, rate, 0);
      BoundConvertsBack(value, display, rate, bound.money.units);
      forall units | bound.money.units < units <= Convert(value, display, rate).money.units
        ensures Convert(Money(display, units), value.currency, rate).Converted? ==>
          Convert(Money(display, units), value.currency, rate).money.units > value.units
      {
        BoundIsLargestUpToNearest(value, display, rate, units);
      }
    }
  }

  /** Every amount of a quote is shown so, and what remains of the receipts is what the shown ones leave. */
  lemma PresentationShowsQuote(terms: Terms, display: Currency, rate: Option<nat>)
    requires CalculateReturnQuote(terms).Some? && PresentQuote(CalculateReturnQuote(terms).value, display, rate).Some?
    ensures var quote := CalculateReturnQuote(terms).value;
      var shown := PresentQuote(quote, display, rate).value;
      && Shows(shown.receipts, quote.receipts, display, rate)
      && Shows(shown.defaultRefund, quote.defaultRefund, display, rate)
      && Shows(shown.cancelledDebt, quote.cancelledDebt, display, rate)
      && shown.maxRefund == shown.receipts && shown.defaultRetained.currency == display
      && (shown.rateMissing <==> !RateKnown(terms.currency, display, rate))
  {
    var quote := CalculateReturnQuote(terms).value;
    QuoteIsSound(terms);
    QuoteProposesDownPayment(terms);
    ShownIsBound(quote.receipts, display, rate);
    ShownIsBound(quote.defaultRefund, display, rate);
    ShownIsBound(quote.cancelledDebt, display, rate);
    RateIsKnown(quote.receipts, display, rate);
    RateIsKnown(quote.defaultRefund, display, rate);
    RateIsKnown(quote.cancelledDebt, display, rate);
  }

  lemma RateIsKnown(value: Money, display: Currency, rate: Option<nat>)
    requires Storable(value)
    ensures ConvertAtMost(value, display, rate).NoQuote?
      <==> display != value.currency && (rate.None? || rate.value == 0)
  {
  }

  lemma BoundIsStorable(value: Money, display: Currency, rate: Option<nat>)
    requires ConvertAtMost(value, display, rate).Converted?
    ensures Storable(ConvertAtMost(value, display, rate).money)
    ensures ConvertAtMost(value, display, rate).money.currency == display
  {
    BoundConvertsBack(value, display, rate, 0);
    if value.currency != display {
      ConvertedUnits(value, display, rate);
    }
  }

  // ---------------------------------------------------------------- from the quote to the refund

  lemma HeldConcat(first: seq<Bucket>, rest: seq<Bucket>)
    ensures Sum(Held(first + rest)) == Sum(Held(first)) + Sum(Held(rest))
  {
    assert Held(first + rest) == Held(first) + Held(rest);
    SumConcat(Held(first), Held(rest));
  }

  lemma BucketsCoverReceipt(source: Source, applied: int)
    ensures Sum(Held(BucketsOf(source, applied))) >= applied
  {
    if applied > 0 {
      BucketsAddUpIffHeadFits(source, applied);
    } else {
      assert Held(BucketsOf(source, applied)) == [];
    }
  }

  lemma {:induction false} BucketsCoverReceipts(sources: seq<Source>, currency: Currency, frozenRate: Option<nat>)
    requires TotalApplied(sources, currency, frozenRate).Ok?
    ensures AllBuckets(sources, currency, frozenRate).Ok?
    ensures Sum(Held(AllBuckets(sources, currency, frozenRate).value))
      >= TotalApplied(sources, currency, frozenRate).value
  {
    if sources == [] {
      assert Held([]) == [];
    } else {
      var applied := ResolveApplied(sources[0], currency, frozenRate).value;
      BucketsCoverReceipts(sources[1..], currency, frozenRate);
      BucketsCoverReceipt(sources[0], applied);
      HeldConcat(BucketsOf(sources[0], applied), AllBuckets(sources[1..], currency, frozenRate).value);
    }
  }

  lemma {:induction false} InsertKeepsTotal(
    source: Source, sorted: seq<Source>, currency: Currency, frozenRate: Option<nat>)
    requires TotalApplied(sorted, currency, frozenRate).Ok? && ResolveApplied(source, currency, frozenRate).Ok?
    ensures TotalApplied(InsertNewestFirst(source, sorted), currency, frozenRate)
      == Ok(ResolveApplied(source, currency, frozenRate).value + TotalApplied(sorted, currency, frozenRate).value)
    decreases |sorted|
  {
    var inserted := InsertNewestFirst(source, sorted);
    if sorted == [] || source.paidAt >= sorted[0].paidAt {
      assert inserted[1..] == sorted;
    } else {
      InsertKeepsTotal(source, sorted[1..], currency, frozenRate);
      assert inserted[1..] == InsertNewestFirst(source, sorted[1..]);
    }
  }

  lemma {:induction false} SortKeepsTotal(sources: seq<Source>, currency: Currency, frozenRate: Option<nat>)
    requires TotalApplied(sources, currency, frozenRate).Ok?
    ensures TotalApplied(NewestFirst(sources), currency, frozenRate) == TotalApplied(sources, currency, frozenRate)
  {
    if sources != [] {
      SortKeepsTotal(sources[1..], currency, frozenRate);
      InsertKeepsTotal(sources[0], NewestFirst(sources[1..]), currency, frozenRate);
    }
  }

  /** The constraints of the refund table: positive parts that make up the return, within what their receipts carry. */
  predicate MayBeStored(sources: seq<Source>, refunds: seq<Refund>, target: int, uzs: int) {
    && Sum(ContractAmounts(refunds)) == target && Sum(UzsAmounts(refunds)) == uzs
    && AllPositive(ContractAmounts(refunds)) && AllPositive(UzsAmounts(refunds))
    && StoredCapsHold(sources, refunds)
  }

  /** A refund entered in the shop's currency, in units of the contract. */
  function RefundUnits(terms: Terms, display: Currency, rate: Option<nat>, units: nat): int {
    var refund := Convert(Money(display, units), terms.currency, rate);
    if refund.Converted? then refund.money.units else 0
  }

  /** A return with a refund of so much in the shop's currency; None where the route or the database refuses it. */
  function BookReturn(terms: Terms, display: Currency, rate: Option<nat>, units: nat): Option<seq<Refund>> {
    var quote := CalculateReturnQuote(terms);
    if quote.None? || quote.value.blocked.Some? then None
    else if units == 0 then Some([])
    else
      var refund := Convert(Money(display, units), terms.currency, rate);
      var uzs := Convert(Money(display, units), UZS, rate);
      if !refund.Converted? || !uzs.Converted? then None
      else if refund.money.units == 0 || refund.money.units > quote.value.maxRefund.units then None
      else
        match AllocateRefund(terms.sources, terms.currency, terms.frozenRate, refund.money.units, uzs.money.units)
        case Err(_) => None
        case Ok(refunds) =>
          if MayBeStored(terms.sources, refunds, refund.money.units, uzs.money.units) then Some(refunds) else None
  }

  /** What a refund takes from the receipts of a contract. */
  function TakenFrom(terms: Terms, target: int): seq<Bucket> {
    match AllBuckets(NewestFirst(terms.sources), terms.currency, terms.frozenRate)
    case Err(_) => []
    case Ok(buckets) => Take(buckets, target)
  }

  /** An amount that the screen allows for a refund. */
  predicate ShownRefund(terms: Terms, display: Currency, rate: Option<nat>, units: nat) {
    && CalculateReturnQuote(terms).Some?
    && PresentQuote(CalculateReturnQuote(terms).value, display, rate).Some?
    && PresentQuote(CalculateReturnQuote(terms).value, display, rate).value.eligible
    && units <= PresentQuote(CalculateReturnQuote(terms).value, display, rate).value.maxRefund.units
  }

  /**
   * An amount up to the shown maximum converts back within the verified receipts, and the receipts
   * then carry it in full.
   */
  lemma ShownRefundIsCovered(terms: Terms, display: Currency, rate: Option<nat>, units: nat, uzs: int)
    requires ShownRefund(terms, display, rate, units)
    ensures Convert(Money(display, units), terms.currency, rate).Converted?
    ensures var refund := Convert(Money(display, units), terms.currency, rate).money;
      && 0 <= refund.units <= CalculateReturnQuote(terms).value.receipts.units
      && AllocateRefund(terms.sources, terms.currency, terms.frozenRate, refund.units, uzs).Ok?
  {
    var quote := CalculateReturnQuote(terms).value;
    QuoteIsSound(terms);
    RateIsKnown(quote.receipts, display, rate);
    BoundConvertsBack(quote.receipts, display, rate, units);
    var refund := Convert(Money(display, units), terms.currency, rate).money;
    var newest := NewestFirst(terms.sources);
    SortKeepsTotal(terms.sources, terms.currency, terms.frozenRate);
    BucketsCoverReceipts(newest, terms.currency, terms.frozenRate);
    RefundReconciles(terms.sources, terms.currency, terms.frozenRate, refund.units, uzs);
  }

  /** The so'm parts before the last, each rounded on its own, leave the last part some. */
  predicate LeavesLastPart(taken: seq<Bucket>, target: int, uzs: int)
    requires target > 0
  {
    taken != [] && Sum(UzsHead(taken, target, uzs)) < uzs
  }

  /** When the parts of an allocated refund may be stored. */
  lemma MayBeStoredIff(terms: Terms, target: int, uzs: int)
    requires DistinctSources(terms.sources) && target > 0
    requires AllocateRefund(terms.sources, terms.currency, terms.frozenRate, target, uzs).Ok?
    ensures MayBeStored(
        terms.sources, AllocateRefund(terms.sources, terms.currency, terms.frozenRate, target, uzs).value, target, uzs)
      <==> && uzs > 0 && LeavesLastPart(TakenFrom(terms, target), target, uzs)
           && UsesUpOnlyFitting(NewestFirst(terms.sources), terms.currency, terms.frozenRate, target)
           && ReachesOnlyStored(NewestFirst(terms.sources), terms.currency, terms.frozenRate, target)
  {
    RefundReconciles(terms.sources, terms.currency, terms.frozenRate, target, uzs);
    var refunds := AllocateRefund(terms.sources, terms.currency, terms.frozenRate, target, uzs).value;
    if uzs > 0 {
      StoredCapsHoldIff(terms.sources, terms.currency, terms.frozenRate, target, uzs);
      PartsOfRefund(terms, target, uzs);
    } else {
      assert ContractAmounts(refunds) == [];
    }
  }

  lemma PartsOfRefund(terms: Terms, target: int, uzs: int)
    requires target > 0 && uzs > 0
    requires AllocateRefund(terms.sources, terms.currency, terms.frozenRate, target, uzs).Ok?
    ensures var refunds := AllocateRefund(terms.sources, terms.currency, terms.frozenRate, target, uzs).value;
      && AllPositive(ContractAmounts(refunds))
      && (AllPositive(UzsAmounts(refunds)) <==> LeavesLastPart(TakenFrom(terms, target), target, uzs))
  {
    var taken := TakenFrom(terms, target);
    RefundReconciles(terms.sources, terms.currency, terms.frozenRate, target, uzs);
    assert UzsAmounts(AllocateRefund(terms.sources, terms.currency, terms.frozenRate, target, uzs).value)
      == UzsParts(taken, target, uzs);
    SomPartsPositiveIff(taken, target, uzs);
  }

  /**
   * A refund that is worth a unit of the contract and a so'm on every receipt it takes from, where the
   * receipts it takes from carry what they applied and those it uses up were not rounded up beyond it.
   */
  ghost predicate Bookable(terms: Terms, display: Currency, rate: Option<nat>, units: nat) {
    var refund, uzs := RefundUnits(terms, display, rate, units), Convert(Money(display, units), UZS, rate);
    && refund > 0 && uzs.Converted? && uzs.money.units > 0
    && LeavesLastPart(TakenFrom(terms, refund), refund, uzs.money.units)
    && UsesUpOnlyFitting(NewestFirst(terms.sources), terms.currency, terms.frozenRate, refund)
    && ReachesOnlyStored(NewestFirst(terms.sources), terms.currency, terms.frozenRate, refund)
  }

  /** Of the refunds the screen allows, exactly these can be booked, and no refund at all. */
  lemma ShownRefundIsBookedIff(terms: Terms, display: Currency, rate: Option<nat>, units: nat)
    requires ShownRefund(terms, display, rate, units) && DistinctSources(terms.sources)
    ensures BookReturn(terms, display, rate, units).Some? <==> units == 0 || Bookable(terms, display, rate, units)
  {
    var uzs := Convert(Money(display, units), UZS, rate);
    var refund := RefundUnits(terms, display, rate, units);
    ShownRefundIsCovered(terms, display, rate, units, if uzs.Converted? then uzs.money.units else 0);
    QuoteIsSound(terms);
    if refund > 0 && uzs.Converted? {
      MayBeStoredIff(terms, refund, uzs.money.units);
    }
  }

  /** What a shown refund takes: buckets that hold something and make up the refund. */
  lemma TakenMakesUpRefund(terms: Terms, target: int)
    requires target > 0 && AllocateRefund(terms.sources, terms.currency, terms.frozenRate, target, 1).Ok?
    ensures var taken := TakenFrom(terms, target); taken != [] && AllHold(taken) && Sum(Held(taken)) == target
  {
    var newest := NewestFirst(terms.sources);
    AllBucketsArePositive(newest, terms.currency, terms.frozenRate);
    TakeIsInOrder(AllBuckets(newest, terms.currency, terms.frozenRate).value, target);
    TakeMeetsTarget(AllBuckets(newest, terms.currency, terms.frozenRate).value, target);
    assert Held([]) == [];
  }

  /** Receipts of up to three parts that carry what they applied. */
  ghost predicate PlainReceipts(sources: seq<Source>) {
    DistinctSources(sources) && forall s :: s in sources ==> s.applied.Some? && |s.breakdown| <= 3
  }

  /**
   * From plain receipts any shown refund can be booked that is worth a unit of the contract, in so'm as
   * long as a contract unit is worth at least half as many so'm as there are parts.
   */
  lemma WorthyRefundIsBooked(terms: Terms, display: Currency, rate: Option<nat>, units: nat, uzs: int)
    requires ShownRefund(terms, display, rate, units) && PlainReceipts(terms.sources)
    requires Convert(Money(display, units), UZS, rate) == Converted(Money(UZS, uzs))
    requires var refund := RefundUnits(terms, display, rate, units);
      && refund > 0 && 2 * uzs >= refund
      && (2 * uzs > (|TakenFrom(terms, refund)| - 1) * refund || uzs == refund)
    ensures BookReturn(terms, display, rate, units).Some?
  {
    var refund, newest := RefundUnits(terms, display, rate, units), NewestFirst(terms.sources);
    ShownRefundIsCovered(terms, display, rate, units, 1);
    ShownRefundIsBookedIff(terms, display, rate, units);
    SortKeepsMembers(terms.sources);
    ThreePartsMeansHeadsFit(newest, terms.currency, terms.frozenRate);
    FittingMayBeUsedUp(newest, terms.currency, terms.frozenRate, refund);
    TakenMakesUpRefund(terms, refund);
    SomPartsArePositiveWhen(TakenFrom(terms, refund), refund, uzs);
    SomPartsPositiveIff(TakenFrom(terms, refund), refund, uzs);
  }

  /** So every refund in so'm can be booked on a contract in so'm. */
  lemma SomRefundIsBooked(terms: Terms, rate: Option<nat>, units: nat)
    requires ShownRefund(terms, UZS, rate, units) && PlainReceipts(terms.sources) && terms.currency == UZS
    ensures BookReturn(terms, UZS, rate, units).Some?
  {
    ShownRefundIsBookedIff(terms, UZS, rate, units);
    if units > 0 {
      ShownRefundIsCovered(terms, UZS, rate, units, units);
      WorthyRefundIsBooked(terms, UZS, rate, units, units);
    }
  }

  /**
   * And every refund in dollars on a contract in dollars, when a cent is worth at least as many so'm as
   * the refund has parts: at 12 600 so'm per dollar, up to 126 of them.
   */
  lemma DollarRefundIsBooked(terms: Terms, rate: nat, cents: nat)
    requires ShownRefund(terms, USD, Some(rate), cents) && PlainReceipts(terms.sources) && terms.currency == USD
    requires Convert(Money(USD, cents), UZS, Some(rate)).Converted?
    requires rate >= RATE_SCALE && rate >= |TakenFrom(terms, cents)| * RATE_SCALE
    ensures BookReturn(terms, USD, Some(rate), cents).Some?
  {
    if cents == 0 {
      ShownRefundIsBookedIff(terms, USD, Some(rate), cents);
    } else {
      var uzs := Convert(Money(USD, cents), UZS, Some(rate)).money.units;
      DollarsInSom(cents, rate, 1);
      DollarsInSom(cents, rate, |TakenFrom(terms, cents)|);
      EnoughSom(cents, |TakenFrom(terms, cents)|, uzs);
      DollarRefundIsWorthy(terms, rate, cents, uzs);
    }
  }

  lemma EnoughSom(cents: int, parts: int, uzs: int)
    requires cents > 0 && uzs >= cents * parts && uzs >= cents
    ensures 2 * uzs >= cents && 2 * uzs > (parts - 1) * cents
  {
    assert cents * parts == (parts - 1) * cents + cents;
  }

  lemma DollarRefundIsWorthy(terms: Terms, rate: nat, cents: nat, uzs: int)
    requires ShownRefund(terms, USD, Some(rate), cents) && PlainReceipts(terms.sources) && terms.currency == USD
    requires Convert(Money(USD, cents), UZS, Some(rate)) == Converted(Money(UZS, uzs))
    requires cents > 0 && 2 * uzs >= cents && 2 * uzs > (|TakenFrom(terms, cents)| - 1) * cents
    ensures BookReturn(terms, USD, Some(rate), cents).Some?
  {
    assert RefundUnits(terms, USD, Some(rate), cents) == cents;
    WorthyRefundIsBooked(terms, USD, Some(rate), cents, uzs);
  }
}
