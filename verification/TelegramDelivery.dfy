/** Planning the Telegram sends for one notification: its text and any number of images. */
module TelegramDelivery {
  import opened Results

  const TELEGRAM_CAPTION_LIMIT := 1024

  const TELEGRAM_MEDIA_GROUP_LIMIT := 10

  datatype Item = Item(position: nat, url: string)

  datatype Step =
    | Message(text: string)
    | Photo(item: Item, caption: Option<string>)
    | MediaGroup(items: seq<Item>, caption: Option<string>)

  // ---------------------------------------------------------------- images in order

  function InsertByPosition(item: Item, sorted: seq<Item>): seq<Item> {
    if sorted == [] || item.position <= sorted[0].position then [item] + sorted
    else [sorted[0]] + InsertByPosition(item, sorted[1..])
  }

  /** A stable sort. */
  function ByPosition(items: seq<Item>): seq<Item> {
    if items == [] then [] else InsertByPosition(items[0], ByPosition(items[1..]))
  }

  /** Positions never fall, and none lies below the given one. */
  ghost predicate AscendingFrom(least: nat, items: seq<Item>)
    decreases |items|
  {
    items == [] || (least <= items[0].position && AscendingFrom(items[0].position, items[1..]))
  }

  lemma {:induction false} InsertKeepsItems(item: Item, sorted: seq<Item>)
    ensures multiset(InsertByPosition(item, sorted)) == multiset{item} + multiset(sorted)
  {
    if sorted != [] && item.position > sorted[0].position {
      InsertKeepsItems(item, sorted[1..]);
      assert sorted == [sorted[0]] + sorted[1..];
    }
  }

  lemma {:induction false} InsertKeepsOrder(least: nat, item: Item, sorted: seq<Item>)
    requires AscendingFrom(least, sorted) && least <= item.position
    ensures AscendingFrom(least, InsertByPosition(item, sorted))
    decreases |sorted|
  {
    var inserted := InsertByPosition(item, sorted);
    if sorted == [] || item.position <= sorted[0].position {
      assert inserted[1..] == sorted;
    } else {
      InsertKeepsOrder(sorted[0].position, item, sorted[1..]);
      assert inserted[1..] == InsertByPosition(item, sorted[1..]);
    }
  }

  /** The sort loses no image, adds none, and puts them in the order of their positions. */
  lemma {:induction false} SortKeepsItems(items: seq<Item>)
    ensures AscendingFrom(0, ByPosition(items))
    ensures multiset(ByPosition(items)) == multiset(items)
  {
    if items != [] {
      SortKeepsItems(items[1..]);
      InsertKeepsOrder(0, items[0], ByPosition(items[1..]));
      InsertKeepsItems(items[0], ByPosition(items[1..]));
      assert items == [items[0]] + items[1..];
    }
  }

  lemma {:induction false} SortOfSorted(least: nat, items: seq<Item>)
    requires AscendingFrom(least, items)
    ensures ByPosition(items) == items
    decreases |items|
  {
    if items != [] {
      SortOfSorted(items[0].position, items[1..]);
    }
  }

  // ---------------------------------------------------------------- the plan

  function GroupStep(items: seq<Item>, caption: Option<string>): Step
    requires items != []
  {
    if |items| == 1 then Photo(items[0], caption) else MediaGroup(items, caption)
  }

  function FirstGroup(items: seq<Item>): nat {
    if |items| < TELEGRAM_MEDIA_GROUP_LIMIT then |items| else TELEGRAM_MEDIA_GROUP_LIMIT
  }

  /** Groups of up to ten; only the first carries the caption. */
  function Groups(items: seq<Item>, caption: Option<string>): seq<Step>
    decreases |items|
  {
    if items == [] then []
    else [GroupStep(items[..FirstGroup(items)], caption)] + Groups(items[FirstGroup(items)..], None)
  }

  /** The length of a text as the program measures it: characters beyond the basic plane count twice. */
  function CodeUnits(text: string): nat {
    if text == "" then 0 else (if text[0] as int >= 0x1_0000 then 2 else 1) + CodeUnits(text[1..])
  }

  predicate CaptionFits(caption: string) {
    CodeUnits(caption) <= TELEGRAM_CAPTION_LIMIT
  }

  /** A text too long for a caption goes first, on its own. */
  function Lead(caption: string, textSent: bool): seq<Step> {
    if !CaptionFits(caption) && !textSent then [Message(caption)] else []
  }

  function FirstCaption(caption: string, textSent: bool): Option<string> {
    if CaptionFits(caption) && !textSent then Some(caption) else None
  }

  function Plan(images: seq<Item>, caption: string, textSent: bool): seq<Step> {
    var items := ByPosition(images);
    if items == [] then (if textSent then [] else [Message(caption)])
    else Lead(caption, textSent) + Groups(items, FirstCaption(caption, textSent))
  }

  /** The groups still to be planned from an index on. */
  function GroupsAt(items: seq<Item>, index: nat, first: Option<string>): seq<Step>
    requires index <= |items|
  {
    Groups(items[index..], if index == 0 then first else None)
  }

  lemma OneMoreGroup(items: seq<Item>, index: nat, next: nat, first: Option<string>)
    requires index < |items|
    requires next ==
      if index + TELEGRAM_MEDIA_GROUP_LIMIT < |items| then index + TELEGRAM_MEDIA_GROUP_LIMIT else |items|
    ensures GroupsAt(items, index, first)
      == [GroupStep(items[index..next], if index == 0 then first else None)] + GroupsAt(items, next, first)
  {
    var k := FirstGroup(items[index..]);
    assert items[index..][..k] == items[index..next];
    assert items[index..][k..] == items[next..];
  }

  /** The program's loop, ten images at a time, on top of the steps planned so far. */
  method PlanGroups(lead: seq<Step>, items: seq<Item>, first: Option<string>) returns (steps: seq<Step>)
    ensures steps == lead + Groups(items, first)
  {
    steps := lead;
    assert items[0..] == items;
    var index := 0;
    while index < |items|
      invariant 0 <= index <= |items|
      invariant lead + Groups(items, first) == steps + GroupsAt(items, index, first)
      decreases |items| - index
    {
      var next := if index + TELEGRAM_MEDIA_GROUP_LIMIT < |items| then index + TELEGRAM_MEDIA_GROUP_LIMIT else |items|;
      OneMoreGroup(items, index, next, first);
      steps := steps + [GroupStep(items[index..next], if index == 0 then first else None)];
      index := next;
    }
  }

  method PlanTelegramDelivery(images: seq<Item>, caption: string, textAlreadySent: bool) returns (steps: seq<Step>)
    ensures steps == Plan(images, caption, textAlreadySent)
  {
    var items := ByPosition(images);
    if |items| == 0 {
      return if textAlreadySent then [] else [Message(caption)];
    }
    var lead: seq<Step> := [];
    if !CaptionFits(caption) && !textAlreadySent {
      lead := lead + [Message(caption)];
    }
    steps := PlanGroups(lead, items, FirstCaption(caption, textAlreadySent));
  }

  // ---------------------------------------------------------------- what a plan delivers

  /** What a recipient can receive: the text, and the image of each position. */
  datatype Piece = Text | Image(position: nat)

  function ImagePieces(items: seq<Item>): (pieces: seq<Piece>)
    ensures |pieces| == |items|
  {
    seq(|items|, i requires 0 <= i < |items| => Image(items[i].position))
  }

  /** An empty caption shows nothing and does not count as the text. */
  function CaptionPieces(caption: Option<string>): seq<Piece> {
    if caption.Some? && caption.value != "" then [Text] else []
  }

  function PiecesOf(step: Step): seq<Piece> {
    match step
    case Message(_) => [Text]
    case Photo(item, caption) => CaptionPieces(caption) + [Image(item.position)]
    case MediaGroup(items, caption) => CaptionPieces(caption) + ImagePieces(items)
  }

  function AllPieces(steps: seq<Step>): seq<Piece> {
    if steps == [] then [] else PiecesOf(steps[0]) + AllPieces(steps[1..])
  }

  lemma GroupStepPieces(items: seq<Item>, caption: Option<string>)
    requires items != []
    ensures PiecesOf(GroupStep(items, caption)) == CaptionPieces(caption) + ImagePieces(items)
  {
    if |items| == 1 {
      assert ImagePieces(items) == [Image(items[0].position)];
    }
  }

  lemma Regroup(a: seq<Piece>, b: seq<Piece>, c: seq<Piece>, ab: seq<Piece>)
    requires a + b == ab
    ensures a + (b + c) == ab + c
  {
  }

  lemma ImagesSplit(items: seq<Item>, k: nat)
    requires k <= |items|
    ensures ImagePieces(items[..k]) + ImagePieces(items[k..]) == ImagePieces(items)
  {
  }

  lemma {:induction false} GroupsDeliverAll(items: seq<Item>, caption: Option<string>)
    requires items != []
    ensures AllPieces(Groups(items, caption)) == CaptionPieces(caption) + ImagePieces(items)
    decreases |items|
  {
    var k := FirstGroup(items);
    var first, rest := items[..k], items[k..];
    var step := GroupStep(first, caption);
    GroupStepPieces(first, caption);
    ImagesSplit(items, k);
    GroupsCons(items, caption);
    if rest == [] {
      assert AllPieces(Groups(rest, None)) == [] == ImagePieces(rest);
    } else {
      GroupsDeliverAll(rest, None);
      assert CaptionPieces(None) + ImagePieces(rest) == ImagePieces(rest);
    }
    Regroup(CaptionPieces(caption), ImagePieces(first), ImagePieces(rest), PiecesOf(step));
  }

  lemma GroupsCons(items: seq<Item>, caption: Option<string>)
    requires items != []
    ensures AllPieces(Groups(items, caption))
      == PiecesOf(GroupStep(items[..FirstGroup(items)], caption)) + AllPieces(Groups(items[FirstGroup(items)..], None))
  {
    assert Groups(items, caption)[1..] == Groups(items[FirstGroup(items)..], None);
  }

  lemma {:induction false} PiecesConcat(first: seq<Step>, rest: seq<Step>)
    ensures AllPieces(first + rest) == AllPieces(first) + AllPieces(rest)
  {
    if first == [] {
      assert first + rest == rest;
    } else {
      assert (first + rest)[1..] == first[1..] + rest;
      PiecesConcat(first[1..], rest);
    }
  }

  function TextUnlessSent(textSent: bool): seq<Piece> {
    if textSent then [] else [Text]
  }

  /** Ahead of the images the text is delivered exactly once, unless it was sent before. */
  lemma LeadOrCaption(caption: string, textSent: bool)
    requires caption != ""
    ensures AllPieces(Lead(caption, textSent)) + CaptionPieces(FirstCaption(caption, textSent))
      == TextUnlessSent(textSent)
  {
    assert AllPieces([Message(caption)]) == [Text];
  }

  /** A plan delivers the text first, unless it was sent before, and then every image once, in order. */
  lemma PlanDeliversEverythingOnce(images: seq<Item>, caption: string, textSent: bool)
    requires caption != ""
    ensures AllPieces(Plan(images, caption, textSent)) == TextUnlessSent(textSent) + ImagePieces(ByPosition(images))
  {
    var items := ByPosition(images);
    if items == [] {
      assert AllPieces([Message(caption)]) == [Text];
    } else {
      var shown := FirstCaption(caption, textSent);
      GroupsDeliverAll(items, shown);
      PiecesConcat(Lead(caption, textSent), Groups(items, shown));
      LeadOrCaption(caption, textSent);
      Regroup(AllPieces(Lead(caption, textSent)), CaptionPieces(shown), ImagePieces(items), TextUnlessSent(textSent));
    }
  }

  ghost predicate WithinLimits(step: Step) {
    && (step.MediaGroup? ==> 2 <= |step.items| <= TELEGRAM_MEDIA_GROUP_LIMIT)
    && (!step.Message? && step.caption.Some? ==> CodeUnits(step.caption.value) <= TELEGRAM_CAPTION_LIMIT)
  }

  lemma {:induction false} GroupsStayWithinLimits(items: seq<Item>, caption: Option<string>)
    requires caption.Some? ==> CodeUnits(caption.value) <= TELEGRAM_CAPTION_LIMIT
    ensures forall i :: 0 <= i < |Groups(items, caption)| ==> WithinLimits(Groups(items, caption)[i])
    decreases |items|
  {
    if items != [] {
      GroupsStayWithinLimits(items[FirstGroup(items)..], None);
    }
  }

  /** No step exceeds what Telegram takes: albums of two to ten, captions of at most 1024 code units. */
  lemma PlanStaysWithinLimits(images: seq<Item>, caption: string, textSent: bool)
    ensures forall i :: 0 <= i < |Plan(images, caption, textSent)| ==> WithinLimits(Plan(images, caption, textSent)[i])
  {
    GroupsStayWithinLimits(ByPosition(images), FirstCaption(caption, textSent));
  }

  // ---------------------------------------------------------------- the plan, step by step

  /** The code units in which UTF-16 writes a character: itself, or a pair of surrogates. */
  function Utf16(c: char): (units: seq<int>)
  {
    var code := c as int;
    if code < 0x1_0000 then [code]
    else [0xD800 + (code - 0x1_0000) / 0x400, 0xDC00 + (code - 0x1_0000) % 0x400]
  }

  function Encoded(text: string): seq<int> {
    if text == "" then [] else Utf16(text[0]) + Encoded(text[1..])
  }

  lemma {:induction false} CodeUnitsAreUtf16(text: string)
    ensures CodeUnits(text) == |Encoded(text)|
  {
    if text != "" {
      CodeUnitsAreUtf16(text[1..]);
    }
  }

  /** The `g`-th album of ten, or what is left for it; a single image goes as a photo. */
  function Album(items: seq<Item>, g: nat, caption: Option<string>): Step
    requires 10 * g < |items|
  {
    var from := 10 * g;
    if |items| - from == 1 then Photo(items[from], caption)
    else MediaGroup(if from + 10 <= |items| then items[from..from + 10] else items[from..], caption)
  }

  lemma {:induction false} GroupsAreAlbums(items: seq<Item>, caption: Option<string>)
    ensures |Groups(items, caption)| == (|items| + 9) / 10
    ensures forall g: nat :: g < |Groups(items, caption)| ==>
      Groups(items, caption)[g] == Album(items, g, if g == 0 then caption else None)
    decreases |items|
  {
    if items != [] {
      var k := FirstGroup(items);
      GroupsAreAlbums(items[k..], None);
      forall g: nat | 0 < g < |Groups(items, caption)|
        ensures Groups(items, caption)[g] == Album(items, g, None)
      {
        assert Groups(items, caption)[g] == Groups(items[k..], None)[g - 1];
        LaterAlbum(items, g, None);
      }
    }
  }

  lemma LaterAlbum(items: seq<Item>, g: nat, caption: Option<string>)
    requires g > 0 && 10 * g < |items|
    ensures Album(items[10..], g - 1, caption) == Album(items, g, caption)
  {
    var from := 10 * g;
    assert items[10..][from - 10..] == items[from..];
    if from + 10 <= |items| {
      assert items[10..][from - 10..from] == items[from..from + 10];
    }
  }

  lemma AlbumsBehindLead(lead: seq<Step>, items: seq<Item>, caption: Option<string>, plan: seq<Step>)
    requires plan == lead + Groups(items, caption)
    ensures |plan| == |lead| + (|items| + 9) / 10 && lead <= plan
    ensures forall g: nat :: 10 * g < |items| ==>
      plan[|lead| + g] == Album(items, g, if g == 0 then caption else None)
  {
    GroupsAreAlbums(items, caption);
  }

  lemma PlanHasLead(images: seq<Item>, caption: string, textSent: bool, captioned: bool, lead: seq<Step>)
    requires captioned == (!textSent && images != [] && |Encoded(caption)| <= 1024)
    requires lead == if textSent || captioned then [] else [Message(caption)]
    ensures Plan(images, caption, textSent)
      == lead + Groups(ByPosition(images), if captioned then Some(caption) else None)
  {
    SortKeepsItems(images);
    assert |ByPosition(images)| == |multiset(ByPosition(images))| == |images|;
    CodeUnitsAreUtf16(caption);
  }

  /**
   * The plan in full. A text not sent before is the caption of the first album when UTF-16 writes it in
   * at most 1024 code units, and else, or without images, a message of its own ahead of everything; the
   * images go in the order of their positions, ten at a time.
   */
  lemma PlanIsAlbumsOfTen(images: seq<Item>, caption: string, textSent: bool)
    ensures var items := ByPosition(images);
      var captioned := !textSent && images != [] && |Encoded(caption)| <= 1024;
      var lead := if textSent || captioned then [] else [Message(caption)];
      && |Plan(images, caption, textSent)| == |lead| + (|items| + 9) / 10
      && lead <= Plan(images, caption, textSent)
      && forall g: nat :: 10 * g < |items| ==>
           Plan(images, caption, textSent)[|lead| + g]
           == Album(items, g, if g == 0 && captioned then Some(caption) else None)
  {
    var captioned := !textSent && images != [] && |Encoded(caption)| <= 1024;
    var lead := if textSent || captioned then [] else [Message(caption)];
    var first := if captioned then Some(caption) else None;
    PlanHasLead(images, caption, textSent, captioned, lead);
    AlbumsBehindLead(lead, ByPosition(images), first, Plan(images, caption, textSent));
  }
}
