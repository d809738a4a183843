/** The delivery units of a package: media messages, then its text, then the review controls, chained by replies. */
module DeliveryPlan {
  import opened Common
  import opened MediaPlan

  const CAPTION := 1024

  const DEDUPED := "EXACT_MEDIA_DEDUPE_COMPAT"
  const UNSUPPORTED := "UNSUPPORTED_ALBUM_COMBINATION_SPLIT"
  const OVERFLOW := "CAPTION_OVERFLOW_TO_TEXT"
  const SPLIT := "TELEGRAM_TEXT_SPLIT_REQUIRED"
  const UNRESOLVED := "BODY_RESOLUTION_REQUIRED_BEFORE_AUTHORITY"

  datatype UnitKind = Album | SinglePhoto | SingleVideo | Standalone | Caption | Text | Continuation | Controls

  /** The hash of what identifies a unit. */
  datatype UnitId = UnitId(plan: string, index: nat, kind: UnitKind, refs: seq<string>)

  datatype Unit = Unit(id: UnitId, kind: UnitKind, order: nat, media: seq<string>, fallback: seq<string>,
                       part: nat, parts: nat, replyTo: Option<UnitId>)

  /** The text of a package: whether there is any, its length, its drafts, and the candidate preferred for it. */
  datatype TextPlan = TextPlan(present: bool, characters: int, drafts: seq<string>, splitRequired: bool,
                               current: bool, reference: string)

  predicate IsText(kind: UnitKind) {
    kind in {Caption, Text, Continuation}
  }

  // ---------------------------------------------------------------- media messages

  /** The greedy split. */
  function Messages(items: seq<Item>): seq<seq<Item>> {
    if items == [] then []
    else RunIs(items); [items[..Reach(items)]] + Messages(items[Reach(items)..])
  }

  lemma {:induction false} MessagesSplit(items: seq<Item>)
    ensures Splits(Messages(items), items) && |Messages(items)| == Greedy(items)
  {
    if items != [] {
      RunIs(items);
      MessagesSplit(items[Reach(items)..]);
      assert items == items[..Reach(items)] + items[Reach(items)..];
      assert Sendable(items[..Reach(items)]);
    }
  }

  function KindOf(part: seq<Item>): UnitKind
    requires part != []
  {
    if !Compatible(part[0]) then Standalone
    else if |part| > 1 then Album
    else if part[0].kind == "photo" then SinglePhoto
    else SingleVideo
  }

  ghost predicate Carries(unit: Unit, part: seq<Item>) {
    part != [] && unit.kind == KindOf(part) && unit.media == Refs(part)
  }

  ghost predicate CarriesAll(units: seq<Unit>, parts: seq<seq<Item>>) {
    |units| == |parts| && forall k :: 0 <= k < |units| ==> Carries(units[k], parts[k])
  }

  ghost predicate AnswerNothing(units: seq<Unit>) {
    forall u :: u in units ==> u.replyTo.None?
  }

  lemma CarriesOneMore(units: seq<Unit>, longer: seq<Unit>, parts: seq<seq<Item>>, part: seq<Item>)
    requires CarriesAll(units, parts) && AnswerNothing(units)
    requires |longer| == |units| + 1 && longer[..|units|] == units
    requires Carries(longer[|units|], part) && longer[|units|].replyTo.None?
    ensures CarriesAll(longer, parts + [part]) && AnswerNothing(longer)
  {
    assert longer == units + [longer[|units|]];
  }

  /** The units so far are the messages done, and the last one is known. */
  ghost predicate Sent(units: seq<Unit>, plan: string, done: seq<seq<Item>>, last: Option<UnitId>) {
    && Chained(units, plan) && CarriesAll(units, done) && AnswerNothing(units)
    && last == if units == [] then None else Some(units[|units| - 1].id)
  }

  lemma SliceAt<T>(s: seq<T>, start: nat, end: nat)
    requires start <= end <= |s|
    ensures s[start..][..end - start] == s[start..end] && s[start..][end - start..] == s[end..]
  {
  }

  lemma FirstMessage(rest: seq<Item>)
    requires rest != []
    ensures 0 < Reach(rest) <= |rest|
    ensures Messages(rest) == [rest[..Reach(rest)]] + Messages(rest[Reach(rest)..])
  {
    RunIs(rest);
  }

  lemma ConcatFirst<T>(done: seq<T>, next: T, rest: seq<T>)
    ensures done + ([next] + rest) == done + [next] + rest
  {
  }

  lemma MessagesFrom(items: seq<Item>, start: nat, end: nat, done: seq<seq<Item>>)
    requires start < end <= |items| && end - start == Reach(items[start..])
    requires Messages(items) == done + Messages(items[start..])
    ensures Messages(items) == done + [items[start..end]] + Messages(items[end..])
  {
    FirstMessage(items[start..]);
    SliceAt(items, start, end);
    ConcatFirst(done, items[start..end], Messages(items[end..]));
  }

  function MediaRefs(units: seq<Unit>): seq<string> {
    if units == [] then [] else MediaRefs(units[..|units| - 1]) + units[|units| - 1].media
  }

  lemma {:induction false} ConcatSnoc<T>(parts: seq<seq<T>>, last: seq<T>)
    ensures Concat(parts + [last]) == Concat(parts) + last
  {
    if parts != [] {
      assert (parts + [last])[1..] == parts[1..] + [last];
      ConcatSnoc(parts[1..], last);
    } else {
      assert parts + [last] == [last] && [last][1..] == [];
    }
  }

  /** The media messages together carry every eligible item, in order. */
  lemma {:induction false} CarriedRefs(units: seq<Unit>, parts: seq<seq<Item>>)
    requires CarriesAll(units, parts)
    ensures MediaRefs(units) == Refs(Concat(parts))
  {
    if units != [] {
      var n := |units| - 1;
      CarriedRefs(units[..n], parts[..n]);
      assert Carries(units[n], parts[n]) && parts == parts[..n] + [parts[n]];
      ConcatSnoc(parts[..n], parts[n]);
      RefsConcat(Concat(parts[..n]), parts[n]);
    } else {
      assert Concat(parts) == [];
    }
  }

  lemma RefsConcat(a: seq<Item>, b: seq<Item>)
    ensures Refs(a + b) == Refs(a) + Refs(b)
  {
  }

  lemma {:induction false} NoMoreMedia(units: seq<Unit>, more: seq<Unit>)
    requires forall u :: u in more ==> u.media == []
    ensures MediaRefs(units + more) == MediaRefs(units)
  {
    if more != [] {
      var n := |more| - 1;
      assert (units + more)[..|units + more| - 1] == units + more[..n];
      NoMoreMedia(units, more[..n]);
    } else {
      assert units + more == units;
    }
  }

  // ---------------------------------------------------------------- text parts

  function Repeated(draft: string, n: nat): seq<string> {
    seq(n, _ => draft)
  }

  /** The draft of every part, drafts without text giving none. */
  function Parts(drafts: seq<string>, splits: map<string, nat>): seq<string> {
    if drafts == [] then []
    else
      var last := drafts[|drafts| - 1];
      Parts(drafts[..|drafts| - 1], splits) + if last in splits then Repeated(last, splits[last]) else []
  }

  method FallbackParts(drafts: seq<string>, splits: map<string, nat>) returns (parts: seq<string>)
    ensures parts == Parts(drafts, splits)
  {
    parts := [];
    for d := 0 to |drafts|
      invariant parts == Parts(drafts[..d], splits)
    {
      assert drafts[..d + 1][..d] == drafts[..d];
      if drafts[d] in splits {
        ghost var before := parts;
        for i := 0 to splits[drafts[d]]
          invariant parts == before + Repeated(drafts[d], i)
        {
          parts := parts + [drafts[d]];
        }
      }
    }
    assert drafts[..|drafts|] == drafts;
  }

  predicate CaptionFits(text: TextPlan, parts: nat, hasMedia: bool) {
    hasMedia && text.current && 0 < text.characters <= CAPTION && parts <= 1 && |text.drafts| <= 1
  }

  /** The text units, the first answering the last media message and every further one the one before it. */
  ghost predicate TextUnits(more: seq<Unit>, text: TextPlan, parts: seq<string>, last: Option<UnitId>) {
    if !text.present then more == []
    else if CaptionFits(text, |parts|, last.Some?) then
      |more| == 1 && Says(more[0], Caption, text.drafts, 0, 1, last)
    else if text.current && parts != [] then
      |more| == |parts| && PartsSaid(more, parts, last)
    else |more| == 1 && Says(more[0], Text, text.drafts, 0, 1, last)
  }

  ghost predicate Says(u: Unit, kind: UnitKind, drafts: seq<string>, part: nat, parts: nat, replyTo: Option<UnitId>) {
    u.kind == kind && u.media == [] && u.fallback == drafts && u.part == part && u.parts == parts && u.replyTo == replyTo
  }

  ghost predicate SaysPart(more: seq<Unit>, k: nat, parts: seq<string>, last: Option<UnitId>)
    requires k < |more| && |more| <= |parts|
  {
    Says(more[k], if k == 0 then Text else Continuation, [parts[k]], k, |parts|, if k == 0 then last else Some(more[k - 1].id))
  }

  ghost predicate PartsSaid(more: seq<Unit>, parts: seq<string>, last: Option<UnitId>) {
    |more| <= |parts| && forall k :: 0 <= k < |more| ==> SaysPart(more, k, parts, last)
  }

  lemma PartSaid(more: seq<Unit>, unit: Unit, parts: seq<string>, last: Option<UnitId>)
    requires PartsSaid(more, parts, last) && |more| < |parts|
    requires Says(unit, if more == [] then Text else Continuation, [parts[|more|]], |more|, |parts|,
                  if more == [] then last else Some(more[|more| - 1].id))
    ensures PartsSaid(more + [unit], parts, last)
  {
    forall k | 0 <= k < |more| ensures SaysPart(more + [unit], k, parts, last) {
      assert SaysPart(more, k, parts, last);
    }
  }

  lemma TextUnitsCarryNone(more: seq<Unit>, text: TextPlan, parts: seq<string>, last: Option<UnitId>)
    requires TextUnits(more, text, parts, last)
    ensures forall u :: u in more ==> u.media == [] && IsText(u.kind)
  {
    forall k | 0 <= k < |more| ensures more[k].media == [] && IsText(more[k].kind) {
      assert PartsSaid(more, parts, last) ==> SaysPart(more, k, parts, last);
    }
  }

  // ---------------------------------------------------------------- warnings

  /** Some item fits no album. */
  predicate Unalbumed(items: seq<Item>) {
    exists k :: 0 <= k < |items| && !Compatible(items[k])
  }

  /** A message is a lone item that fits no album, or items that do. */
  lemma SplitsOn(items: seq<Item>, start: nat, end: nat)
    requires start < end <= |items| && end - start == Reach(items[start..])
    ensures Unalbumed(items[..end]) <==> Unalbumed(items[..start]) || !Compatible(items[start])
  {
    ReachIsCompatible(items[start..]);
    forall k | start < k < end ensures Compatible(items[k]) || !Compatible(items[start]) {
      assert items[k] == items[start..][k - start];
    }
    if Unalbumed(items[..start]) {
      var k :| 0 <= k < start && !Compatible(items[..start][k]);
      assert !Compatible(items[..end][k]);
    } else if !Compatible(items[start]) {
      assert items[..end][start] == items[start];
    } else {
      assert forall k :: 0 <= k < start ==> items[k] == items[..start][k];
    }
  }

  lemma ReachIsCompatible(items: seq<Item>)
    requires items != []
    ensures forall k :: 0 < k < Reach(items) && k < |items| ==> Compatible(items[k])
  {
    RunIs(items);
  }

  /** Text with units of its own: too long for the caption it could have been, split, or not the current draft's. */
  function TextWarnings(text: TextPlan, parts: seq<string>, hasMedia: bool): set<string> {
    if !text.present || CaptionFits(text, |parts|, hasMedia) then {}
    else If(hasMedia && text.characters > CAPTION, OVERFLOW) + If(text.splitRequired, SPLIT) + If(!text.current || parts == [], UNRESOLVED)
  }

  // ---------------------------------------------------------------- the planner

  ghost predicate Has(units: seq<Unit>, id: UnitId) {
    exists k :: 0 <= k < |units| && units[k].id == id
  }

  /** Units are numbered in order, have ids of their own, and only answer earlier ones. */
  ghost predicate Chained(units: seq<Unit>, plan: string) {
    forall k :: 0 <= k < |units| ==>
      && units[k].order == units[k].id.index == k && units[k].id.plan == plan && units[k].id.kind == units[k].kind
      && (units[k].replyTo.Some? ==> Has(units[..k], units[k].replyTo.value))
  }

  lemma PreviousIsThere(units: seq<Unit>, more: seq<Unit>, last: Option<UnitId>)
    requires last.Some? ==> Has(units, last.value)
    ensures var all := units + more;
      (if more != [] then Has(all, all[|all| - 1].id) else last.Some? ==> Has(all, last.value))
  {
    if more == [] {
      assert units + more == units;
    }
  }

  lemma ChainedOneMore(units: seq<Unit>, u: Unit, plan: string)
    requires Chained(units, plan) && u.order == u.id.index == |units| && u.id.plan == plan && u.id.kind == u.kind
    requires u.replyTo.Some? ==> Has(units, u.replyTo.value)
    ensures Chained(units + [u], plan)
  {
    var longer := units + [u];
    forall k | 0 <= k < |longer| ensures k < |units| ==> longer[..k] == units[..k] {
    }
    assert longer[..|units|] == units;
  }

  class Planner {
    const plan: string
    var units: seq<Unit>
    var warnings: set<string>

    constructor (plan: string, warnings: set<string>)
      ensures this.plan == plan && units == [] && this.warnings == warnings
    {
      this.plan, units, this.warnings := plan, [], warnings;
    }

    /** Appends a unit, numbered by its place. */
    method Append(kind: UnitKind, media: seq<string>, fallback: seq<string>, reference: string, part: nat, parts: nat, replyTo: Option<UnitId>)
      returns (unit: Unit)
      requires Chained(units, plan) && (replyTo.Some? ==> Has(units, replyTo.value))
      modifies this`units
      ensures Chained(units, plan) && units == old(units) + [unit]
      ensures unit.kind == kind && unit.media == media && unit.fallback == fallback
      ensures unit.part == part && unit.parts == parts && unit.replyTo == replyTo
    {
      var index := |units|;
      var refs := media + fallback + if reference != "" then [reference] else [];
      unit := Unit(UnitId(plan, index, kind, refs), kind, index, media, fallback, part, parts, replyTo);
      ChainedOneMore(units, unit, plan);
      units := units + [unit];
    }

    /** The longest run of photos and videos from the cursor that one album holds. */
    method TakeRun(items: seq<Item>, start: nat) returns (cursor: nat)
      requires start < |items| && Compatible(items[start])
      ensures start < cursor <= |items| && cursor - start == Reach(items[start..])
    {
      cursor := start;
      while cursor < |items| && Compatible(items[cursor]) && cursor - start < ALBUM
        invariant start <= cursor <= |items| && cursor - start <= ALBUM
        invariant Run(items[start..]) == cursor - start + Run(items[cursor..])
      {
        assert items[cursor..][1..] == items[cursor + 1..];
        cursor := cursor + 1;
      }
    }

    /** The media messages of a package, and the id of the last one. */
    method PlanMediaUnits(items: seq<Item>) returns (suppressed: seq<string>, last: Option<UnitId>)
      requires units == []
      modifies this
      ensures Sent(units, plan, Messages(Eligible(items)), last)
      ensures suppressed == Suppressed(items)
      ensures warnings == old(warnings) + If(Suppressed(items) != [], DEDUPED) + If(Unalbumed(Eligible(items)), UNSUPPORTED)
    {
      var eligible: seq<Item>;
      eligible, suppressed := EligibleMedia(items);
      if suppressed != [] {
        warnings := warnings + {DEDUPED};
      }
      last := AppendMessages(eligible);
    }

    /** Every eligible item in turn, as the next message. */
    method AppendMessages(eligible: seq<Item>) returns (last: Option<UnitId>)
      requires units == []
      modifies this
      ensures Sent(units, plan, Messages(eligible), last)
      ensures warnings == old(warnings) + If(Unalbumed(eligible), UNSUPPORTED)
    {
      last := None;
      var cursor := 0;
      ghost var done: seq<seq<Item>> := [];
      assert eligible[0..] == eligible;
      while cursor < |eligible|
        invariant 0 <= cursor <= |eligible|
        invariant Messages(eligible) == done + Messages(eligible[cursor..])
        invariant Sent(units, plan, done, last)
        invariant warnings == old(warnings) + If(Unalbumed(eligible[..cursor]), UNSUPPORTED)
      {
        ghost var start := cursor;
        cursor, last := AppendNext(eligible, cursor, done);
        done := done + [eligible[start..cursor]];
      }
      assert eligible[..|eligible|] == eligible;
    }

    method AppendNext(eligible: seq<Item>, start: nat, ghost done: seq<seq<Item>>) returns (cursor: nat, last: Option<UnitId>)
      requires start < |eligible| && (exists last :: Sent(units, plan, done, last)) && Messages(eligible) == done + Messages(eligible[start..])
      modifies this
      ensures start < cursor <= |eligible| && Messages(eligible) == done + [eligible[start..cursor]] + Messages(eligible[cursor..])
      ensures Sent(units, plan, done + [eligible[start..cursor]], last)
      ensures warnings == old(warnings) + If(!Compatible(eligible[start]), UNSUPPORTED)
      ensures Unalbumed(eligible[..cursor]) <==> Unalbumed(eligible[..start]) || !Compatible(eligible[start])
    {
      cursor, last := AppendMessage(eligible, start, done);
      MessagesFrom(eligible, start, cursor, done);
      SplitsOn(eligible, start, cursor);
    }

    /** One message from the cursor on: a lone item that fits no album, or as many as an album takes. */
    method AppendMessage(eligible: seq<Item>, start: nat, ghost done: seq<seq<Item>>) returns (cursor: nat, last: Option<UnitId>)
      requires start < |eligible| && exists last :: Sent(units, plan, done, last)
      modifies this
      ensures start < cursor <= |eligible| && cursor - start == Reach(eligible[start..])
      ensures Sent(units, plan, done + [eligible[start..cursor]], last)
      ensures warnings == old(warnings) + If(!Compatible(eligible[start]), UNSUPPORTED)
    {
      var item := eligible[start];
      var unit;
      if !Compatible(item) {
        cursor := start + 1;
        unit := Append(Standalone, [item.id], [], "", 0, 0, None);
        warnings := warnings + {UNSUPPORTED};
      } else {
        cursor := TakeRun(eligible, start);
        var run := eligible[start..cursor];
        var kind := if |run| > 1 then Album else if run[0].kind == "photo" then SinglePhoto else SingleVideo;
        unit := Append(kind, Refs(run), [], "", 0, 0, None);
      }
      last := Some(unit.id);
      CarriesOneMore(old(units), units, done, eligible[start..cursor]);
    }

    /** The text: a caption for the last media message when it fits, else its parts, each answering the one before. */
    method PlanTextUnits(text: TextPlan, splits: map<string, nat>, last: Option<UnitId>)
      requires Chained(units, plan) && (last.Some? ==> Has(units, last.value))
      modifies this
      ensures Chained(units, plan) && |units| >= |old(units)| && units[..|old(units)|] == old(units)
      ensures TextUnits(units[|old(units)|..], text, Parts(text.drafts, splits), last)
      ensures warnings == old(warnings) + TextWarnings(text, Parts(text.drafts, splits), last.Some?)
    {
      if !text.present {
        return;
      }
      var parts := FallbackParts(text.drafts, splits);
      if CaptionFits(text, |parts|, last.Some?) {
        var _ := Append(Caption, [], text.drafts, text.reference, 0, 1, last);
        return;
      }
      if last.Some? && text.characters > CAPTION {
        warnings := warnings + {OVERFLOW};
      }
      if text.splitRequired {
        warnings := warnings + {SPLIT};
      }
      if text.current && parts != [] {
        AppendParts(text, parts, last);
      } else {
        var _ := Append(Text, [], text.drafts, text.reference, 0, 1, last);
        warnings := warnings + {UNRESOLVED};
      }
    }

    method AppendParts(text: TextPlan, parts: seq<string>, last: Option<UnitId>)
      requires Chained(units, plan) && (last.Some? ==> Has(units, last.value))
      modifies this`units
      ensures Chained(units, plan) && |units| == |old(units)| + |parts| && units[..|old(units)|] == old(units)
      ensures PartsSaid(units[|old(units)|..], parts, last)
    {
      ghost var more: seq<Unit> := [];
      for k := 0 to |parts|
        invariant Chained(units, plan) && |more| == k && units == old(units) + more
        invariant PartsSaid(more, parts, last)
      {
        var previous := if k > 0 then Some(units[|units| - 1].id) else last;
        PreviousIsThere(old(units), more, last);
        var unit := Append(if k == 0 then Text else Continuation, [], [parts[k]], text.reference, k, |parts|, previous);
        PartSaid(more, unit, parts, last);
        more := more + [unit];
      }
    }

    /** The existing controls, answering the last unit, when there is a draft to review. */
    method PlanReviewControls(drafts: seq<string>)
      requires Chained(units, plan)
      modifies this`units
      ensures Chained(units, plan) && |units| >= |old(units)| && units[..|old(units)|] == old(units)
      ensures ControlUnits(units[|old(units)|..], drafts, if old(units) == [] then None else Some(old(units)[|old(units)| - 1].id))
    {
      if drafts == [] {
        return;
      }
      var replyTo := if units == [] then None else Some(units[|units| - 1].id);
      assert replyTo.Some? ==> Has(units, replyTo.value);
      var _ := Append(Controls, [], drafts, "", 0, 0, replyTo);
    }

    /**
     The whole plan of a package: the eligible media in the fewest messages, then the text, then the controls.
     The closing checks on album sizes and text parts never find anything.
     */
    method PlanDelivery(items: seq<Item>, text: TextPlan, splits: map<string, nat>)
      returns (suppressed: seq<string>, ghost media: nat, ghost spoken: nat, violated: bool)
      requires units == []
      modifies this
      ensures Chained(units, plan)
      ensures Shaped(units, media, spoken, items, text, splits)
      ensures suppressed == Suppressed(items)
      ensures !violated
      ensures warnings == old(warnings) + If(Suppressed(items) != [], DEDUPED) + If(Unalbumed(Eligible(items)), UNSUPPORTED)
                          + TextWarnings(text, Parts(text.drafts, splits), media > 0)
    {
      suppressed, media := PlanContents(items, text, splits);
      spoken := |units|;
      ghost var second := units;
      PlanReviewControls(text.drafts);
      ShapedUp(second[..media], second, units, items, text, splits);
      violated := CheckAlbums(media, spoken, items, text, splits);
    }

    /** The media messages, then the text. */
    method PlanContents(items: seq<Item>, text: TextPlan, splits: map<string, nat>) returns (suppressed: seq<string>, ghost media: nat)
      requires units == []
      modifies this
      ensures Chained(units, plan) && suppressed == Suppressed(items) && media <= |units|
      ensures CarriesAll(units[..media], Messages(Eligible(items))) && AnswerNothing(units[..media])
      ensures TextUnits(units[media..], text, Parts(text.drafts, splits), if media == 0 then None else Some(units[media - 1].id))
      ensures warnings == old(warnings) + If(Suppressed(items) != [], DEDUPED) + If(Unalbumed(Eligible(items)), UNSUPPORTED)
                          + TextWarnings(text, Parts(text.drafts, splits), media > 0)
    {
      var last;
      suppressed, last := PlanMediaUnits(items);
      media := |units|;
      ghost var first := units;
      PlanTextUnits(text, splits, last);
      assert units[..media] == first;
    }

    /** The closing check on album sizes. */
    method CheckAlbums(ghost media: nat, ghost spoken: nat, ghost items: seq<Item>, ghost text: TextPlan, ghost splits: map<string, nat>)
      returns (violated: bool)
      requires Shaped(units, media, spoken, items, text, splits)
      ensures !violated
    {
      AlbumsWithin(units, media, spoken, items, text, splits);
      violated := exists k :: 0 <= k < |units| && units[k].kind == Album && |units[k].media| > ALBUM;
    }
  }

  lemma AlbumsFit(units: seq<Unit>, parts: seq<seq<Item>>)
    requires CarriesAll(units, parts) && forall p :: p in parts ==> Sendable(p)
    ensures forall u :: u in units ==> |u.media| <= ALBUM
  {
    forall k | 0 <= k < |units| ensures |units[k].media| <= ALBUM {
      assert Carries(units[k], parts[k]) && Sendable(parts[k]);
    }
  }

  /** Media messages, then text, then controls. */
  ghost predicate Shaped(units: seq<Unit>, media: nat, spoken: nat, items: seq<Item>, text: TextPlan, splits: map<string, nat>) {
    && media <= spoken <= |units|
    && CarriesAll(units[..media], Messages(Eligible(items))) && AnswerNothing(units[..media])
    && TextUnits(units[media..spoken], text, Parts(text.drafts, splits), if media == 0 then None else Some(units[media - 1].id))
    && ControlUnits(units[spoken..], text.drafts, if spoken == 0 then None else Some(units[spoken - 1].id))
  }

  ghost predicate ControlUnits(more: seq<Unit>, drafts: seq<string>, replyTo: Option<UnitId>) {
    if drafts == [] then more == []
    else |more| == 1 && more[0].kind == Controls && more[0].media == [] && more[0].fallback == drafts && more[0].replyTo == replyTo
  }

  lemma ShapedUp(first: seq<Unit>, second: seq<Unit>, units: seq<Unit>, items: seq<Item>, text: TextPlan, splits: map<string, nat>)
    requires |first| <= |second| <= |units| && second[..|first|] == first && units[..|second|] == second
    requires CarriesAll(first, Messages(Eligible(items))) && AnswerNothing(first)
    requires TextUnits(second[|first|..], text, Parts(text.drafts, splits), if first == [] then None else Some(first[|first| - 1].id))
    requires ControlUnits(units[|second|..], text.drafts, if second == [] then None else Some(second[|second| - 1].id))
    ensures Shaped(units, |first|, |second|, items, text, splits)
  {
    assert units[..|first|] == first && units[|first|..|second|] == second[|first|..];
  }

  lemma OnlyMediaCarries(units: seq<Unit>, media: nat, spoken: nat, items: seq<Item>, text: TextPlan, splits: map<string, nat>)
    requires Shaped(units, media, spoken, items, text, splits)
    ensures forall u :: u in units[media..] ==> u.media == []
  {
    RestIsSilent(units[media..spoken], text, Parts(text.drafts, splits), if media == 0 then None else Some(units[media - 1].id),
                 units[spoken..], if spoken == 0 then None else Some(units[spoken - 1].id));
    assert units[media..] == units[media..spoken] + units[spoken..];
  }

  lemma RestIsSilent(said: seq<Unit>, text: TextPlan, parts: seq<string>, last: Option<UnitId>, controls: seq<Unit>, replyTo: Option<UnitId>)
    requires TextUnits(said, text, parts, last) && ControlUnits(controls, text.drafts, replyTo)
    ensures forall u :: u in said + controls ==> u.media == []
  {
    TextUnitsCarryNone(said, text, parts, last);
  }

  lemma AlbumsWithin(units: seq<Unit>, media: nat, spoken: nat, items: seq<Item>, text: TextPlan, splits: map<string, nat>)
    requires Shaped(units, media, spoken, items, text, splits)
    ensures forall k :: 0 <= k < |units| ==> |units[k].media| <= ALBUM
  {
    OnlyMediaCarries(units, media, spoken, items, text, splits);
    MessagesSplit(Eligible(items));
    AlbumsFit(units[..media], Messages(Eligible(items)));
    forall k | 0 <= k < |units| ensures |units[k].media| <= ALBUM {
      assert if k < media then units[k] in units[..media] else units[k] in units[media..];
    }
  }

  lemma ShapedRefs(units: seq<Unit>, media: nat, spoken: nat, items: seq<Item>, text: TextPlan, splits: map<string, nat>)
    requires Shaped(units, media, spoken, items, text, splits)
    ensures MediaRefs(units) == Refs(Eligible(items)) && media == Greedy(Eligible(items))
  {
    MessagesRefs(units[..media], Eligible(items));
    OnlyMediaCarries(units, media, spoken, items, text, splits);
    NoMoreMediaFrom(units, media);
  }

  lemma JoinAt<T>(s: seq<T>, k: nat)
    requires k <= |s|
    ensures s[..k] + s[k..] == s
  {
  }

  lemma NoMoreMediaFrom(units: seq<Unit>, media: nat)
    requires media <= |units| && forall u :: u in units[media..] ==> u.media == []
    ensures MediaRefs(units) == MediaRefs(units[..media])
  {
    var sent, others := units[..media], units[media..];
    NoMoreMedia(sent, others);
    JoinAt(units, media);
  }

  lemma MessagesRefs(units: seq<Unit>, eligible: seq<Item>)
    requires CarriesAll(units, Messages(eligible))
    ensures MediaRefs(units) == Refs(eligible) && |units| == Greedy(eligible)
  {
    MessagesSplit(eligible);
    CarriedRefs(units, Messages(eligible));
  }

  /**
   What a plan made for the media of some updates delivers: every identity not mapped as a duplicate exactly once,
   in its first order, in no more messages than any other legal split of the same items would take.
   */
  lemma DeliversEachOnce(updates: seq<seq<Media>>, duplicates: map<string, string>, items: seq<Item>,
                         units: seq<Unit>, media: nat, spoken: nat, text: TextPlan, splits: map<string, nat>)
    requires forall m :: m in Flat(updates) ==> m.identity != ""
    requires PlansAll(items, Flat(updates), duplicates)
    requires Shaped(units, media, spoken, items, text, splits)
    ensures FirstOccurrences(MediaRefs(units), Flat(updates), duplicates)
    ensures forall parts :: Splits(parts, Eligible(items)) ==> media <= |parts|
  {
    EligibleAreFirst(items, Flat(updates), duplicates);
    ShapedRefs(units, media, spoken, items, text, splits);
    forall parts | Splits(parts, Eligible(items)) ensures media <= |parts| {
      GreedyIsLeast(parts, Eligible(items));
    }
  }

  // ---------------------------------------------------------------- what the text becomes

  /** A caption needs media to stand under, a current draft of at most 1024 characters, and nothing split. */
  predicate OneCaption(text: TextPlan, media: nat, parts: nat) {
    text.present && media > 0 && text.current && 1 <= text.characters <= 1024 && parts <= 1 && |text.drafts| <= 1
  }

  /** A plan has a caption exactly then, answering its last media message; and no unit of text when there is no text. */
  lemma CaptionIff(units: seq<Unit>, media: nat, spoken: nat, items: seq<Item>, text: TextPlan, splits: map<string, nat>)
    requires Shaped(units, media, spoken, items, text, splits)
    ensures (exists k :: media <= k < spoken && units[k].kind == Caption) <==> OneCaption(text, media, |Parts(text.drafts, splits)|)
    ensures OneCaption(text, media, |Parts(text.drafts, splits)|) ==>
              spoken == media + 1 && units[media].kind == Caption && units[media].replyTo == Some(units[media - 1].id) && units[media].fallback == text.drafts
    ensures !text.present ==> spoken == media
  {
    var more, parts := units[media..spoken], Parts(text.drafts, splits);
    var last := if media == 0 then None else Some(units[media - 1].id);
    if text.present && !OneCaption(text, media, |parts|) && text.current && parts != [] {
      forall k | media <= k < spoken ensures units[k].kind != Caption {
        assert SaysPart(more, k - media, parts, last) && more[k - media] == units[k];
      }
    } else if spoken == media + 1 {
      assert more[0] == units[media];
    }
  }

  /** Split text becomes one unit for each part, in order, in a chain from the last media message on. */
  lemma PartsChain(units: seq<Unit>, media: nat, spoken: nat, items: seq<Item>, text: TextPlan, splits: map<string, nat>, k: nat)
    requires Shaped(units, media, spoken, items, text, splits)
    requires text.present && text.current && !OneCaption(text, media, |Parts(text.drafts, splits)|) && k < |Parts(text.drafts, splits)|
    ensures spoken == media + |Parts(text.drafts, splits)| && units[media + k].fallback == [Parts(text.drafts, splits)[k]]
    ensures units[media + k].replyTo == if media + k == 0 then None else Some(units[media + k - 1].id)
  {
    var more, parts := units[media..spoken], Parts(text.drafts, splits);
    var last := if media == 0 then None else Some(units[media - 1].id);
    assert SaysPart(more, k, parts, last) && more[k] == units[media + k];
    assert k > 0 ==> more[k - 1] == units[media + k - 1];
  }

  /** Every draft has as many parts as its text splits into. */
  lemma {:induction false} PartsCount(drafts: seq<string>, splits: map<string, nat>, draft: string)
    requires NoDuplicates(drafts)
    ensures multiset(Parts(drafts, splits))[draft] == if draft in drafts && draft in splits then splits[draft] else 0
  {
    if drafts != [] {
      var init, last := drafts[..|drafts| - 1], drafts[|drafts| - 1];
      PartsCount(init, splits, draft);
      assert drafts == init + [last];
      if last in splits {
        RepeatedCount(last, splits[last], draft);
      }
    }
  }

  lemma {:induction false} RepeatedCount(draft: string, n: nat, other: string)
    ensures multiset(Repeated(draft, n))[other] == if other == draft then n else 0
  {
    if n > 0 {
      RepeatedCount(draft, n - 1, other);
      assert Repeated(draft, n) == Repeated(draft, n - 1) + [draft];
    }
  }

  /** The review controls close the plan exactly when there is a draft, answering the unit before them. */
  lemma ControlsIff(units: seq<Unit>, media: nat, spoken: nat, items: seq<Item>, text: TextPlan, splits: map<string, nat>)
    requires Shaped(units, media, spoken, items, text, splits)
    ensures |units| == spoken + if text.drafts != [] then 1 else 0
    ensures text.drafts != [] ==> units[spoken].kind == Controls && units[spoken].fallback == text.drafts
                                  && units[spoken].replyTo == if spoken == 0 then None else Some(units[spoken - 1].id)
  {
  }
}
