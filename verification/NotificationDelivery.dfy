/** One notification, attempted as often as it takes: what its recipient receives, and how often. */
module NotificationDelivery {
  import opened Results
  import opened TelegramDelivery

  /** What became of a send: taken, turned down with a code, or the worker died before it. */
  datatype Answer = Accepted | Refused(code: int) | Died

  /** The saved progress of a notification, and all that its recipient has received. */
  datatype World = World(textSent: bool, sent: seq<nat>, received: seq<Piece>)

  datatype Failure = Failure(wasMessage: bool, code: int)

  datatype Report = Report(finished: bool, ok: bool)

  // ---------------------------------------------------------------- one attempt as a function

  function Head(answers: seq<Answer>): Answer {
    if answers == [] then Died else answers[0]
  }

  function Tail(answers: seq<Answer>): seq<Answer> {
    if answers == [] then [] else answers[1..]
  }

  function PendingFrom(position: nat, count: nat, sent: seq<nat>): seq<nat>
    requires position <= count
    decreases count - position
  {
    if position == count then []
    else (if position in sent then [] else [position]) + PendingFrom(position + 1, count, sent)
  }

  /** The images whose addresses could be signed. */
  function Resolved(positions: seq<nat>, urls: map<nat, string>): seq<Item> {
    if positions == [] then []
    else
      (if positions[0] in urls then [Item(positions[0], urls[positions[0]])] else [])
      + Resolved(positions[1..], urls)
  }

  predicate HasCaption(caption: Option<string>) {
    caption.Some? && caption.value != ""
  }

  function Positions(items: seq<Item>): (positions: seq<nat>)
    ensures |positions| == |items|
  {
    seq(|items|, i requires 0 <= i < |items| => items[i].position)
  }

  /** A send that was taken, together with the progress saved for it. */
  function Record(w: World, step: Step): World {
    match step
    case Message(_) => World(true, w.sent, w.received + PiecesOf(step))
    case Photo(item, caption) =>
      World(w.textSent || HasCaption(caption), w.sent + [item.position], w.received + PiecesOf(step))
    case MediaGroup(items, caption) =>
      World(w.textSent || HasCaption(caption), w.sent + Positions(items), w.received + PiecesOf(step))
  }

  datatype Sending = Sending(world: World, failure: Option<Failure>, died: bool, answers: seq<Answer>)

  /** Steps in order, up to the first that is not taken. */
  function SendAll(w: World, steps: seq<Step>, answers: seq<Answer>): Sending
    decreases |steps|
  {
    if steps == [] then Sending(w, None, false, answers)
    else
      match Head(answers)
      case Died => Sending(w, None, true, Tail(answers))
      case Refused(code) => Sending(w, Some(Failure(steps[0].Message?, code)), false, Tail(answers))
      case Accepted => SendAll(Record(w, steps[0]), steps[1..], Tail(answers))
  }

  /** Text may still be sent on its own after an image failed, or could not be signed at all. */
  predicate FallbackAllowed(unresolved: int, failure: Option<Failure>) {
    unresolved > 0 || (failure.Some? && !failure.value.wasMessage && failure.value.code !in {429, 401, 403})
  }

  /** The closing part of an attempt. */
  function Conclude(sending: Sending, message: string, unresolved: int): (World, Report) {
    var w := sending.world;
    if sending.died then (w, Report(false, false))
    else if FallbackAllowed(unresolved, sending.failure) && !w.textSent then
      match Head(sending.answers)
      case Died => (w, Report(false, false))
      case Accepted => (Record(w, Message(message)), Report(true, sending.failure.None? && unresolved == 0))
      case Refused(_) => (w, Report(true, false))
    else (w, Report(true, sending.failure.None? && unresolved == 0))
  }

  function Images(w: World, count: nat, urls: map<nat, string>): seq<Item> {
    Resolved(PendingFrom(0, count, w.sent), urls)
  }

  function Unresolved(w: World, count: nat, urls: map<nat, string>): int {
    |PendingFrom(0, count, w.sent)| - |Images(w, count, urls)|
  }

  function StepsFor(w: World, message: string, count: nat, urls: map<nat, string>): seq<Step> {
    Plan(Images(w, count, urls), message, w.textSent)
  }

  function AttemptOf(
    w: World, message: string, count: nat, urls: map<nat, string>, answers: seq<Answer>): (World, Report)
  {
    Conclude(SendAll(w, StepsFor(w, message, count, urls), answers), message, Unresolved(w, count, urls))
  }

  // ---------------------------------------------------------------- one attempt as the program runs it

  class Notification {
    const message: string
    const count: nat
    var textSent: bool
    var sent: seq<nat>
    var received: seq<Piece>

    constructor (message: string, count: nat)
      ensures this.message == message && this.count == count
      ensures State() == World(false, [], [])
    {
      this.message, this.count := message, count;
      textSent, sent, received := false, [], [];
    }

    function State(): World
      reads this
    {
      World(textSent, sent, received)
    }

    /** Record what was delivered; progress is saved together with the send. */
    method Save(step: Step)
      modifies this
      ensures State() == Record(old(State()), step)
    {
      received := received + PiecesOf(step);
      match step {
        case Message(_) =>
          textSent := true;
        case Photo(item, caption) =>
          sent := sent + [item.position];
          if HasCaption(caption) {
            textSent := true;
          }
        case MediaGroup(items, caption) =>
          sent := sent + Positions(items);
          if HasCaption(caption) {
            textSent := true;
          }
      }
    }

    /** Send the planned steps one after the other until one is not taken. */
    method SendSteps(steps: seq<Step>, answers: seq<Answer>)
      returns (failure: Option<Failure>, died: bool, rest: seq<Answer>)
      modifies this
      ensures Sending(State(), failure, died, rest) == SendAll(old(State()), steps, answers)
    {
      failure, died, rest := None, false, answers;
      for i := 0 to |steps|
        invariant failure.None? && !died
        invariant SendAll(old(State()), steps, answers) == SendAll(State(), steps[i..], rest)
      {
        var answer := Head(rest);
        assert steps[i..][1..] == steps[i + 1..];
        rest := Tail(rest);
        match answer {
          case Died =>
            died := true;
            return;
          case Refused(code) =>
            failure := Some(Failure(steps[i].Message?, code));
            return;
          case Accepted =>
            Save(steps[i]);
        }
      }
    }

    method Deliver(urls: map<nat, string>, answers: seq<Answer>) returns (report: Report)
      modifies this
      ensures (State(), report) == AttemptOf(old(State()), message, count, urls, answers)
    {
      var positions := PendingFrom(0, count, sent);
      var images := Resolved(positions, urls);
      var unresolved := |positions| - |images|;
      var steps := PlanTelegramDelivery(images, message, textSent);
      var failure, died, rest := SendSteps(steps, answers);
      if died {
        return Report(false, false);
      }
      if FallbackAllowed(unresolved, failure) && !textSent {
        match Head(rest) {
          case Died =>
            return Report(false, false);
          case Accepted =>
            Save(Message(message));
          case Refused(code) =>
            failure := if failure.Some? then failure else Some(Failure(true, code));
        }
      }
      return Report(true, failure.None? && unresolved == 0);
    }
  }

  // ---------------------------------------------------------------- at most once

  ghost predicate NoRepeats(pieces: seq<Piece>) {
    forall i, j :: 0 <= i < j < |pieces| ==> pieces[i] != pieces[j]
  }

  /** The saved progress says exactly what was received, and nothing was received twice. */
  ghost predicate Faithful(w: World) {
    && NoRepeats(w.received)
    && (w.textSent <==> Text in w.received)
    && forall p: nat :: p in w.sent <==> Image(p) in w.received
  }

  lemma PositionsAreImages(items: seq<Item>)
    ensures forall p: nat :: p in Positions(items) <==> Image(p) in ImagePieces(items)
    ensures Text !in ImagePieces(items)
  {
    forall p: nat | p in Positions(items) ensures Image(p) in ImagePieces(items) {
      var i :| 0 <= i < |items| && Positions(items)[i] == p;
      assert ImagePieces(items)[i] == Image(p);
    }
    forall p: nat | Image(p) in ImagePieces(items) ensures p in Positions(items) {
      var i :| 0 <= i < |items| && ImagePieces(items)[i] == Image(p);
      assert Positions(items)[i] == p;
    }
  }

  /** Recording a step of new pieces keeps progress faithful. */
  lemma RecordIsFaithful(w: World, step: Step)
    requires Faithful(w) && NoRepeats(w.received + PiecesOf(step))
    ensures Faithful(Record(w, step))
    ensures Record(w, step).received == w.received + PiecesOf(step)
  {
    if step.MediaGroup? {
      PositionsAreImages(step.items);
    }
  }

  /** The step that failed left something of the plan undelivered: the text, or some image. */
  ghost predicate Withheld(pieces: seq<Piece>, received: seq<Piece>, failure: Failure) {
    if failure.wasMessage then Text in pieces && Text !in received
    else exists p: nat :: Image(p) in pieces && Image(p) !in received
  }

  ghost predicate GroupsHoldImages(steps: seq<Step>) {
    forall i :: 0 <= i < |steps| && steps[i].MediaGroup? ==> steps[i].items != []
  }

  lemma NewPiecesAreNotReceived(received: seq<Piece>, pieces: seq<Piece>)
    requires NoRepeats(received + pieces)
    ensures forall p :: p in pieces ==> p !in received
  {
    forall p | p in pieces ensures p !in received {
      var j :| 0 <= j < |pieces| && pieces[j] == p;
      assert (received + pieces)[|received| + j] == p;
      forall i | 0 <= i < |received| ensures received[i] != p {
        assert (received + pieces)[i] == received[i];
      }
    }
  }

  lemma NoRepeatsInPrefix(a: seq<Piece>, b: seq<Piece>, c: seq<Piece>)
    requires NoRepeats(a + (b + c))
    ensures NoRepeats(a + b) && NoRepeats((a + b) + c)
  {
    assert a + (b + c) == (a + b) + c;
    forall i, j | 0 <= i < j < |a + b| ensures (a + b)[i] != (a + b)[j] {
      assert ((a + b) + c)[i] == (a + b)[i] && ((a + b) + c)[j] == (a + b)[j];
    }
  }

  lemma RefusedStepWithholds(w: World, steps: seq<Step>, code: int)
    requires steps != [] && GroupsHoldImages(steps) && NoRepeats(w.received + AllPieces(steps))
    ensures Withheld(AllPieces(steps), w.received, Failure(steps[0].Message?, code))
  {
    NewPiecesAreNotReceived(w.received, AllPieces(steps));
    var pieces := PiecesOf(steps[0]);
    var p := pieces[|pieces| - 1];
    assert p in pieces && p in AllPieces(steps);
    if !steps[0].Message? {
      assert p.Image? && Image(p.position) == p;
    }
  }

  /** What sending a plan does: nothing twice, nothing outside the plan, and all of it unless a step fails. */
  ghost predicate SentWell(w: World, pieces: seq<Piece>, r: Sending) {
    && Faithful(r.world)
    && (forall p :: p in w.received ==> p in r.world.received)
    && (forall p :: p in r.world.received ==> p in w.received || p in pieces)
    && (!r.died && r.failure.None? ==> forall p :: p in pieces ==> p in r.world.received)
    && (r.failure.Some? ==> Withheld(pieces, r.world.received, r.failure.value))
  }

  lemma {:induction false} SendingIsFaithful(w: World, steps: seq<Step>, answers: seq<Answer>)
    requires Faithful(w) && GroupsHoldImages(steps) && NoRepeats(w.received + AllPieces(steps))
    ensures SentWell(w, AllPieces(steps), SendAll(w, steps, answers))
    decreases |steps|
  {
    if steps != [] && Head(answers).Accepted? {
      NoRepeatsInPrefix(w.received, PiecesOf(steps[0]), AllPieces(steps[1..]));
      RecordIsFaithful(w, steps[0]);
      SendingIsFaithful(Record(w, steps[0]), steps[1..], Tail(answers));
      OneMoreStep(w, steps, SendAll(Record(w, steps[0]), steps[1..], Tail(answers)));
    } else if steps != [] && Head(answers).Refused? {
      RefusedStepWithholds(w, steps, Head(answers).code);
    }
  }

  lemma OneMoreStep(w: World, steps: seq<Step>, r: Sending)
    requires steps != [] && NoRepeats(w.received + AllPieces(steps))
    requires Record(w, steps[0]).received == w.received + PiecesOf(steps[0])
    requires SentWell(Record(w, steps[0]), AllPieces(steps[1..]), r)
    ensures SentWell(w, AllPieces(steps), r)
  {
    var first, rest := PiecesOf(steps[0]), AllPieces(steps[1..]);
    forall p | p in AllPieces(steps) ensures p in first || p in rest {
    }
    forall p | p in rest ensures p in AllPieces(steps) {
    }
  }

  // ---------------------------------------------------------------- which pieces an attempt plans

  /** Strictly rising positions from a least one on. */
  ghost predicate RisingPositions(least: nat, positions: seq<nat>)
    decreases |positions|
  {
    positions == [] || (least <= positions[0] && RisingPositions(positions[0] + 1, positions[1..]))
  }

  lemma {:induction false} PendingPositions(position: nat, count: nat, sent: seq<nat>)
    requires position <= count
    ensures RisingPositions(position, PendingFrom(position, count, sent))
    ensures forall p: nat :: p in PendingFrom(position, count, sent) <==> position <= p < count && p !in sent
    decreases count - position
  {
    if position < count {
      PendingPositions(position + 1, count, sent);
      var rest := PendingFrom(position + 1, count, sent);
      RisingFromBelow(position, position + 1, rest);
      if position !in sent {
        assert ([position] + rest)[1..] == rest;
      } else {
        assert [] + rest == rest;
      }
    }
  }

  lemma RisingFromBelow(least: nat, more: nat, positions: seq<nat>)
    requires least <= more && RisingPositions(more, positions)
    ensures RisingPositions(least, positions)
  {
  }

  lemma {:induction false} ResolvedItems(least: nat, positions: seq<nat>, urls: map<nat, string>)
    requires RisingPositions(least, positions)
    ensures AscendingFrom(least, Resolved(positions, urls))
    ensures NoRepeats(ImagePieces(Resolved(positions, urls)))
    ensures forall p: nat :: Image(p) in ImagePieces(Resolved(positions, urls)) ==> p >= least
    ensures forall p: nat :: Image(p) in ImagePieces(Resolved(positions, urls)) <==> p in positions && p in urls
    decreases |positions|
  {
    if positions != [] {
      var rest := Resolved(positions[1..], urls);
      ResolvedItems(positions[0] + 1, positions[1..], urls);
      assert positions == [positions[0]] + positions[1..];
      if positions[0] in urls {
        OneMoreItem(Item(positions[0], urls[positions[0]]), rest);
      } else {
        assert [] + rest == rest;
        AscendingFromBelow(least, positions[0] + 1, rest);
      }
    }
  }

  lemma AscendingFromBelow(least: nat, more: nat, items: seq<Item>)
    requires least <= more && AscendingFrom(more, items)
    ensures AscendingFrom(least, items)
  {
  }

  lemma OneMoreItem(item: Item, rest: seq<Item>)
    requires AscendingFrom(item.position + 1, rest) && NoRepeats(ImagePieces(rest))
    requires forall p: nat :: Image(p) in ImagePieces(rest) ==> p > item.position
    ensures AscendingFrom(item.position, [item] + rest)
    ensures NoRepeats(ImagePieces([item] + rest))
    ensures forall p: nat ::
      Image(p) in ImagePieces([item] + rest) <==> p == item.position || Image(p) in ImagePieces(rest)
  {
    assert ([item] + rest)[1..] == rest;
    AscendingFromBelow(item.position, item.position + 1, rest);
    assert ImagePieces([item] + rest) == [Image(item.position)] + ImagePieces(rest);
    forall i | 0 <= i < |rest| ensures ImagePieces(rest)[i] != Image(item.position) {
      assert ImagePieces(rest)[i] in ImagePieces(rest);
    }
  }

  lemma {:induction false} UnresolvedCount(positions: seq<nat>, urls: map<nat, string>)
    ensures |Resolved(positions, urls)| <= |positions|
    ensures |Resolved(positions, urls)| == |positions| <==> forall p: nat :: p in positions ==> p in urls
  {
    if positions != [] {
      UnresolvedCount(positions[1..], urls);
      assert positions == [positions[0]] + positions[1..];
    }
  }

  function PlannedPieces(w: World, count: nat, urls: map<nat, string>): seq<Piece> {
    TextUnlessSent(w.textSent) + ImagePieces(Images(w, count, urls))
  }

  /** An attempt plans only what is still missing, each piece once. */
  lemma PlansWhatIsMissing(w: World, message: string, count: nat, urls: map<nat, string>)
    requires Faithful(w) && message != ""
    ensures AllPieces(StepsFor(w, message, count, urls)) == PlannedPieces(w, count, urls)
    ensures GroupsHoldImages(StepsFor(w, message, count, urls))
    ensures NoRepeats(w.received + PlannedPieces(w, count, urls))
    ensures Text in PlannedPieces(w, count, urls) <==> !w.textSent
    ensures forall p: nat :: Image(p) in PlannedPieces(w, count, urls) <==> p < count && p !in w.sent && p in urls
  {
    var positions := PendingFrom(0, count, w.sent);
    var images := Resolved(positions, urls);
    PendingPositions(0, count, w.sent);
    ResolvedItems(0, positions, urls);
    SortOfSorted(0, images);
    PlanDeliversEverythingOnce(images, message, w.textSent);
    PlanStaysWithinLimits(images, message, w.textSent);
    PositionsAreImages(images);
    MissingPiecesDoNotRepeat(w, ImagePieces(images));
  }

  lemma MissingPiecesDoNotRepeat(w: World, images: seq<Piece>)
    requires Faithful(w) && NoRepeats(images) && Text !in images
    requires forall p: nat :: Image(p) in images ==> p !in w.sent
    ensures NoRepeats(w.received + (TextUnlessSent(w.textSent) + images))
  {
    var missing := TextUnlessSent(w.textSent) + images;
    forall i | 0 <= i < |missing| ensures missing[i] !in w.received {
      assert missing[i] in missing;
      if missing[i].Image? {
        assert Image(missing[i].position) in images;
      }
    }
    forall i | 0 <= i < |images| ensures images[i] != Text {
      assert images[i] in images;
    }
  }

  // ---------------------------------------------------------------- exactly once

  /** The recipient has the text and the image of every position. */
  ghost predicate Everything(w: World, count: nat) {
    Text in w.received && forall p: nat :: p < count ==> Image(p) in w.received
  }

  /** Nothing was received that does not belong to the notification. */
  ghost predicate NothingElse(w: World, count: nat) {
    forall p: nat :: Image(p) in w.received ==> p < count
  }

  /** Falling back on the text alone adds it only if it was not delivered yet. */
  lemma FallbackIsFaithful(w: World, message: string)
    requires Faithful(w) && !w.textSent
    ensures Faithful(Record(w, Message(message)))
    ensures forall p :: p in Record(w, Message(message)).received <==> p in w.received || p == Text
  {
    RecordIsFaithful(w, Message(message));
  }

  /** How an attempt ends, given what its plan was and how sending it went. */
  lemma ConclusionIsRight(
    w: World, message: string, count: nat, urls: map<nat, string>, pieces: seq<Piece>, unresolved: int, r: Sending)
    requires Faithful(w) && NothingElse(w, count) && SentWell(w, pieces, r)
    requires Text in pieces <==> !w.textSent
    requires forall p: nat :: Image(p) in pieces <==> p < count && p !in w.sent && p in urls
    requires unresolved >= 0
    requires unresolved == 0 <==> forall p: nat :: p < count && p !in w.sent ==> p in urls
    ensures var (end, report) := Conclude(r, message, unresolved); AttemptedWell(w, end, report, count)
  {
    var (end, report) := Conclude(r, message, unresolved);
    if !r.world.textSent {
      FallbackIsFaithful(r.world, message);
    }
    if report.ok {
      forall p: nat | p < count ensures Image(p) in end.received {
        if p !in w.sent {
          assert Image(p) in pieces;
        }
      }
      assert Text in pieces || Text in w.received;
    } else if report.finished {
      MissingPiece(w, count, urls, pieces, unresolved, r, end);
    }
  }

  /** After an attempt that is not ok some piece is still missing. */
  lemma MissingPiece(
    w: World, count: nat, urls: map<nat, string>, pieces: seq<Piece>, unresolved: int, r: Sending, end: World)
    requires Faithful(w) && SentWell(w, pieces, r)
    requires forall p: nat :: Image(p) in pieces <==> p < count && p !in w.sent && p in urls
    requires unresolved == 0 <==> forall p: nat :: p < count && p !in w.sent ==> p in urls
    requires unresolved > 0 || (unresolved == 0 && r.failure.Some?)
    requires forall p: nat :: Image(p) in end.received ==> Image(p) in r.world.received
    requires unresolved == 0 && r.failure.value.wasMessage ==> end == r.world
    ensures !Everything(end, count)
  {
    if unresolved > 0 {
      var p: nat :| p < count && p !in w.sent && p !in urls;
      assert Image(p) !in w.received && Image(p) !in pieces;
      assert Image(p) !in r.world.received;
    } else if !r.failure.value.wasMessage {
      var p: nat :| Image(p) in pieces && Image(p) !in r.world.received;
      assert p < count;
    }
  }

  /** Nothing twice, nothing foreign, nothing lost; and success is reported exactly when everything is there. */
  ghost predicate AttemptedWell(w: World, end: World, report: Report, count: nat) {
    && Faithful(end) && NothingElse(end, count)
    && (forall p :: p in w.received ==> p in end.received)
    && (report.finished ==> (report.ok <==> Everything(end, count)))
    && (report.ok ==> report.finished)
  }

  lemma UnresolvedMeans(w: World, count: nat, urls: map<nat, string>)
    ensures Unresolved(w, count, urls) >= 0
    ensures Unresolved(w, count, urls) == 0 <==> forall p: nat :: p < count && p !in w.sent ==> p in urls
  {
    PendingPositions(0, count, w.sent);
    UnresolvedCount(PendingFrom(0, count, w.sent), urls);
  }

  /**
   * One attempt, whatever its sends come back with and wherever its worker dies: it delivers nothing
   * twice and nothing that does not belong, and if it finishes it reports success exactly when the
   * recipient has everything.
   */
  lemma AttemptIsFaithful(w: World, message: string, count: nat, urls: map<nat, string>, answers: seq<Answer>)
    requires Faithful(w) && NothingElse(w, count) && message != ""
    ensures var (end, report) := AttemptOf(w, message, count, urls, answers); AttemptedWell(w, end, report, count)
  {
    var steps := StepsFor(w, message, count, urls);
    PlansWhatIsMissing(w, message, count, urls);
    SendingIsFaithful(w, steps, answers);
    UnresolvedMeans(w, count, urls);
    ConclusionIsRight(
      w, message, count, urls, AllPieces(steps), Unresolved(w, count, urls), SendAll(w, steps, answers));
  }

  /** What one attempt meets: the addresses it could sign and the answers it gets. */
  datatype Conditions = Conditions(urls: map<nat, string>, answers: seq<Answer>)

  function Retried(w: World, message: string, count: nat, tries: seq<Conditions>): World {
    if tries == [] then w
    else
      var last := tries[|tries| - 1];
      AttemptOf(Retried(w, message, count, tries[..|tries| - 1]), message, count, last.urls, last.answers).0
  }

  /** Over any number of attempts with any failures, the text and every image reach the recipient at most once. */
  lemma {:induction false} RetriesDeliverAtMostOnce(message: string, count: nat, tries: seq<Conditions>)
    requires message != ""
    ensures var end := Retried(World(false, [], []), message, count, tries);
      Faithful(end) && NothingElse(end, count)
  {
    if tries != [] {
      var last := tries[|tries| - 1];
      RetriesDeliverAtMostOnce(message, count, tries[..|tries| - 1]);
      AttemptIsFaithful(
        Retried(World(false, [], []), message, count, tries[..|tries| - 1]), message, count, last.urls, last.answers);
    }
  }

  /** And when an attempt at last reports success, they reached it exactly once, the text and all of them. */
  lemma SuccessMeansExactlyOnce(message: string, count: nat, tries: seq<Conditions>, last: Conditions)
    requires message != ""
    requires AttemptOf(
      Retried(World(false, [], []), message, count, tries), message, count, last.urls, last.answers).1.ok
    ensures var end := Retried(World(false, [], []), message, count, tries + [last]);
      && NoRepeats(end.received) && Everything(end, count) && NothingElse(end, count)
  {
    assert (tries + [last])[..|tries|] == tries;
    RetriesDeliverAtMostOnce(message, count, tries);
    AttemptIsFaithful(Retried(World(false, [], []), message, count, tries), message, count, last.urls, last.answers);
  }

  // ---------------------------------------------------------------- what an attempt does with its answers

  /** How many answers in a row are that a send was taken, up to a limit. */
  function TakenSends(answers: seq<Answer>, limit: nat): (k: nat)
    ensures k <= limit && k <= |answers|
  {
    if limit == 0 || answers == [] || !answers[0].Accepted? then 0 else 1 + TakenSends(answers[1..], limit - 1)
  }

  function RecordAll(w: World, steps: seq<Step>): World
    decreases |steps|
  {
    if steps == [] then w else RecordAll(Record(w, steps[0]), steps[1..])
  }

  /** The plan is sent up to the first send that is not taken; what is not answered has not been sent. */
  ghost predicate SendsPrefix(w: World, steps: seq<Step>, answers: seq<Answer>, r: Sending) {
    var k := TakenSends(answers, |steps|);
    && r.world == RecordAll(w, steps[..k])
    && (k == |steps| ==> !r.died && r.failure.None? && r.answers == answers[k..])
    && (k < |steps| && k < |answers| && answers[k].Refused? ==>
          !r.died && r.failure == Some(Failure(steps[k].Message?, answers[k].code)) && r.answers == answers[k + 1..])
    && (k < |steps| && (k == |answers| || answers[k].Died?) ==> r.died)
  }

  lemma {:induction false} SendingSendsPrefix(w: World, steps: seq<Step>, answers: seq<Answer>)
    ensures SendsPrefix(w, steps, answers, SendAll(w, steps, answers))
    decreases |steps|
  {
    var k := TakenSends(answers, |steps|);
    if steps == [] {
      assert answers[0..] == answers;
    } else if Head(answers).Accepted? {
      SendingSendsPrefix(Record(w, steps[0]), steps[1..], Tail(answers));
      assert steps[..k][1..] == steps[1..][..k - 1];
      assert answers[1..][k - 1..] == answers[k..];
      if k < |answers| {
        assert answers[1..][k - 1] == answers[k] && answers[1..][k..] == answers[k + 1..];
      }
    }
  }

  /** An image whose address could not be signed is left over. */
  ghost predicate SomeImageUnsigned(w: World, count: nat, urls: map<nat, string>) {
    exists p: nat :: p < count && p !in w.sent && p !in urls
  }

  /**
   * Once the plan has been sent, or was turned down, the text goes out on its own exactly when it has not
   * gone out yet and there is an image that could not be signed, or one that was turned down for a reason
   * other than a rate limit or a refused authorization. Apart from that the attempt sends nothing more.
   */
  lemma TextFallsBackIff(w: World, message: string, count: nat, urls: map<nat, string>, answers: seq<Answer>)
    requires !SendAll(w, StepsFor(w, message, count, urls), answers).died
    ensures var sending := SendAll(w, StepsFor(w, message, count, urls), answers);
      var (end, report) := AttemptOf(w, message, count, urls, answers);
      var falls := !sending.world.textSent
        && (SomeImageUnsigned(w, count, urls)
            || (sending.failure.Some? && !sending.failure.value.wasMessage
                && sending.failure.value.code != 429 && sending.failure.value.code != 401
                && sending.failure.value.code != 403));
      && (falls && Head(sending.answers).Accepted? ==> end == Record(sending.world, Message(message)))
      && (!(falls && Head(sending.answers).Accepted?) ==> end == sending.world)
      && (report.finished <==> !(falls && Head(sending.answers).Died?))
  {
    UnresolvedMeans(w, count, urls);
  }

  /** An attempt whose images are all signed and whose sends are all taken delivers everything and says so. */
  lemma TakenAttemptDeliversEverything(
    w: World, message: string, count: nat, urls: map<nat, string>, answers: seq<Answer>)
    requires Faithful(w) && NothingElse(w, count) && message != ""
    requires !SomeImageUnsigned(w, count, urls)
    requires |answers| >= |StepsFor(w, message, count, urls)|
    requires forall i :: 0 <= i < |answers| ==> answers[i].Accepted?
    ensures var (end, report) := AttemptOf(w, message, count, urls, answers);
      report.finished && report.ok && Everything(end, count)
  {
    var steps := StepsFor(w, message, count, urls);
    AllAreTaken(answers, |steps|);
    SendingSendsPrefix(w, steps, answers);
    UnresolvedMeans(w, count, urls);
    AttemptIsFaithful(w, message, count, urls, answers);
  }

  lemma {:induction false} AllAreTaken(answers: seq<Answer>, limit: nat)
    requires limit <= |answers| && forall i :: 0 <= i < |answers| ==> answers[i].Accepted?
    ensures TakenSends(answers, limit) == limit
    decreases limit
  {
    if limit > 0 {
      AllAreTaken(answers[1..], limit - 1);
    }
  }

  /** A text that was turned down, or a rate limit or refused authorization on whatever was sent. */
  predicate NotToBeRetried(failure: Failure) {
    failure.wasMessage || failure.code in {429, 401, 403}
  }

  lemma {:induction false} FailureIsAnswered(w: World, steps: seq<Step>, answers: seq<Answer>)
    ensures SendAll(w, steps, answers).failure.Some? ==> !SendAll(w, steps, answers).died
    decreases |steps|
  {
    if steps != [] && Head(answers).Accepted? {
      FailureIsAnswered(Record(w, steps[0]), steps[1..], Tail(answers));
    }
  }

  /**
   * The comment beside the fallback promises that it neither repeats a text that was turned down nor
   * retries a rate limit or a refused authorization at once. Yet whenever such a failure comes before
   * the text is sent and the recipient would take it next, the text goes out in the same attempt
   * exactly when there is an image still to be sent that could not be signed.
   */
  lemma RefusedTextIsSentAgainIff(w: World, message: string, count: nat, urls: map<nat, string>, answers: seq<Answer>)
    requires var sending := SendAll(w, StepsFor(w, message, count, urls), answers);
      && sending.failure.Some? && NotToBeRetried(sending.failure.value)
      && !sending.world.textSent && Head(sending.answers).Accepted?
    ensures AttemptOf(w, message, count, urls, answers).0.textSent
      <==> exists p: nat :: p < count && p !in w.sent && p !in urls
  {
    FailureIsAnswered(w, StepsFor(w, message, count, urls), answers);
    UnresolvedMeans(w, count, urls);
  }
}
