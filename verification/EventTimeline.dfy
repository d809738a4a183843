/**
 Event Timeline: segments within Events, under two hand-kept maps, Segment to members and update to Segment.

 A Segment id is a hash of its Event id and seed updates, taken to be injective, so it is modelled as that
 pair; a relation id likewise. `eventOf` is the Event membership owned by Event Fusion. Scores are hundredths.
 The sort order in which a pass takes the fingerprints, and the ids that break exact ties between equally good
 matches, are left open: the theorems hold for every order and every such choice.
 */
module EventTimeline {
  import opened Common

  datatype SegmentId = SegmentId(eventId: string, seeds: set<string>)

  datatype RelationId = RelationId(eventId: string, pair: set<string>)

  datatype Relationship = SeparateMoments | AmbiguousMoments | Complementary | Continuation | SameMoment | Conflicting

  datatype Origin = Seed | Matched(relationship: Relationship) | Reclassification | SplitOff | MergedIn

  datatype Membership = Membership(eventId: string, segmentId: SegmentId, origin: Origin, confidence: int)

  datatype Segment = Segment(eventId: string, members: set<string>, confidence: int, order: nat)

  datatype Relation = Relation(left: string, right: string, leftSegment: Option<SegmentId>, rightSegment: Option<SegmentId>, relationship: Relationship)

  datatype Timeline = Timeline(
    eventOf: map<string, string>,
    segments: map<SegmentId, Segment>,
    memberships: map<string, Membership>,
    relations: map<RelationId, Relation>)

  datatype Fingerprint = Fingerprint(
    id: string, eventId: string, created: Time, eventType: string, conversation: string, replyTo: string, quoted: string,
    references: set<string>, topics: set<string>, participants: set<string>, timestamp: Option<nat>, part: Option<nat>,
    questions: set<string>, media: set<string>, anchors: set<string>, facts: set<string>, negated: bool)

  // ---------------------------------------------------------------- matching

  datatype Signal = DirectReply | SharedQuote | SharedMedia | SameTimestamp | NearTimestamp | SharedClip | SharedContainer
                  | SameQuestion | SamePart | AdjacentPart | SameConversation | TopicOverlap | SpokenAnchor
                  | SharedParticipants | Proximity | SameType

  datatype Conflict = TimestampMismatch | DifferentQuestion | DistantPart | LargeTimeGap | FactConflict | PolarityConflict

  datatype Candidate = Candidate(confidence: int, signals: set<Signal>, conflicts: set<Conflict>, relationship: Relationship, same: bool)

  const MINUTE := 60 * 1_000_000

  predicate Replies(x: Fingerprint, y: Fingerprint) {
    (x.replyTo != "" && x.replyTo == y.id) || (y.replyTo != "" && y.replyTo == x.id)
  }

  predicate Quotes(x: Fingerprint, y: Fingerprint) {
    (x.quoted != "" && (x.quoted == y.quoted || x.quoted == y.id)) || (y.quoted != "" && y.quoted == x.id)
  }

  predicate Threaded(x: Fingerprint) {
    x.conversation != "" && x.conversation != x.id
  }

  function Distance(a: int, b: int): nat {
    if a >= b then a - b else b - a
  }

  predicate BothSome(a: Option<nat>, b: Option<nat>) {
    a.Some? && b.Some?
  }

  function TopicWeight(shared: nat, union: nat): nat {
    if shared >= 3 && 100 * shared >= 28 * Max(1, union) then 28
    else if shared >= 2 && 100 * shared >= 20 * Max(1, union) then 18
    else 0
  }

  function Topics(x: Fingerprint, y: Fingerprint): nat {
    TopicWeight(|x.topics * y.topics|, |x.topics + y.topics|)
  }

  /** What a signal says of a pair. */
  predicate Shows(signal: Signal, x: Fingerprint, y: Fingerprint, containers: set<string>) {
    var timed, parted := BothSome(x.timestamp, y.timestamp), BothSome(x.part, y.part);
    var refs := x.references * y.references;
    match signal
    case DirectReply => Replies(x, y)
    case SharedQuote => Quotes(x, y)
    case SharedMedia => x.media * y.media != {}
    case SameTimestamp => timed && Distance(x.timestamp.value, y.timestamp.value) <= 15
    case NearTimestamp => timed && 15 < Distance(x.timestamp.value, y.timestamp.value) <= 120
    case SharedClip => refs - containers != {}
    case SharedContainer => refs != {} && refs - containers == {}
    case SameQuestion => x.questions * y.questions != {}
    case SamePart => parted && x.part == y.part
    case AdjacentPart => parted && Distance(x.part.value, y.part.value) == 1
    case SameConversation => Threaded(x) && Threaded(y) && x.conversation == y.conversation
    case TopicOverlap => Topics(x, y) > 0
    case SpokenAnchor => x.anchors * y.anchors != {}
    case SharedParticipants => x.participants * y.participants != {}
    case Proximity => Distance(x.created, y.created) <= 120 * MINUTE
    case SameType => x.eventType == y.eventType
  }

  function Signals(x: Fingerprint, y: Fingerprint, containers: set<string>): set<Signal> {
    set signal: Signal | Shows(signal, x, y, containers)
  }

  predicate Anchored(signals: set<Signal>) {
    signals * {SharedQuote, SharedMedia, SameTimestamp, SharedClip, SameQuestion} != {}
  }

  /** What a conflict says of a pair with those signals. */
  predicate Opposes(conflict: Conflict, x: Fingerprint, y: Fingerprint, signals: set<Signal>) {
    match conflict
    case TimestampMismatch => BothSome(x.timestamp, y.timestamp) && Distance(x.timestamp.value, y.timestamp.value) > 120
    case DifferentQuestion => x.questions * y.questions == {} && x.questions != {} && y.questions != {}
    case DistantPart => BothSome(x.part, y.part) && Distance(x.part.value, y.part.value) > 2
    case LargeTimeGap => Distance(x.created, y.created) > 24 * 60 * MINUTE
    case FactConflict => Anchored(signals) && x.facts != {} && y.facts != {} && x.facts * y.facts == {}
    case PolarityConflict => Anchored(signals) && x.negated != y.negated && (TopicOverlap in signals || SpokenAnchor in signals)
  }

  function Conflicts(x: Fingerprint, y: Fingerprint, signals: set<Signal>): set<Conflict> {
    set conflict: Conflict | Opposes(conflict, x, y, signals)
  }

  function Score(x: Fingerprint, y: Fingerprint, signals: set<Signal>, conflicts: set<Conflict>): int {
    var total :=
      Weight(DirectReply in signals, 94) + Weight(SharedQuote in signals, 98) + Weight(SharedMedia in signals, 97)
      + Weight(SameTimestamp in signals, 95) + Weight(NearTimestamp in signals, 22) - Weight(TimestampMismatch in conflicts, 35)
      + Weight(SharedClip in signals, 90) + Weight(SharedContainer in signals, 4)
      + Weight(SameQuestion in signals, 90) - Weight(DifferentQuestion in conflicts, 30)
      + Weight(SamePart in signals, 62) + Weight(AdjacentPart in signals, 48) - Weight(DistantPart in conflicts, 18)
      + Weight(SameConversation in signals, 50) + Topics(x, y) + Weight(SpokenAnchor in signals, 30)
      + Weight(SharedParticipants in signals, 10)
      + (if Distance(x.created, y.created) <= 15 * MINUTE then 8 else Weight(Proximity in signals, 4))
      - Weight(LargeTimeGap in conflicts, 20) + Weight(SameType in signals, 2);
    Max(0, Min(100, total))
  }

  function Relate(score: int, signals: set<Signal>, conflicts: set<Conflict>): Relationship {
    var anchored := Anchored(signals);
    var continuing := signals * {DirectReply, AdjacentPart, SameConversation} != {};
    var supported := signals * {TopicOverlap, SharedParticipants, Proximity, SpokenAnchor, SamePart} != {};
    var mismatch, otherQuestion := TimestampMismatch in conflicts, DifferentQuestion in conflicts;
    if anchored && conflicts * {FactConflict, PolarityConflict} != {} && !mismatch then Conflicting
    else if anchored && score >= 78 && !mismatch && !otherQuestion then SameMoment
    else if DirectReply in signals && score >= 80 && !mismatch then Continuation
    else if continuing && supported && score >= 82 && !otherQuestion && !mismatch then Continuation
    else if continuing && supported && score >= 55 then Complementary
    else if score >= 45 || anchored then AmbiguousMoments
    else SeparateMoments
  }

  predicate Attaches(relationship: Relationship) {
    relationship.SameMoment? || relationship.Continuation? || relationship.Conflicting?
  }

  function Moment(x: Fingerprint, y: Fingerprint, containers: set<string>): Candidate {
    if x.eventId != y.eventId then Candidate(0, {}, {}, SeparateMoments, false)
    else if x.id == y.id then Candidate(100, {}, {}, SameMoment, true)
    else
      var signals := Signals(x, y, containers);
      var conflicts := Conflicts(x, y, signals);
      var score := Score(x, y, signals, conflicts);
      var relationship := Relate(score, signals, conflicts);
      Candidate(score, signals, conflicts, relationship, Attaches(relationship))
  }

  // ---------------------------------------------------------------- the operations

  /** The updates whose membership reconciliation drops. */
  function Stale(t: Timeline): set<string> {
    set u | u in t.memberships && !(u in t.eventOf && t.eventOf[u] == t.memberships[u].eventId
                                    && t.memberships[u].segmentId in t.segments)
  }

  function MembersAfter(t: Timeline, s: SegmentId, dropped: set<string>): set<string>
    requires s in t.segments && dropped <= t.memberships.Keys
  {
    set u | u in t.segments[s].members && !(u in dropped && t.memberships[u].segmentId == s)
  }

  function Reconciled(t: Timeline): Timeline {
    var dropped := Stale(t);
    var segments := map s | s in t.segments && MembersAfter(t, s, dropped) != {}
                        :: t.segments[s].(members := MembersAfter(t, s, dropped));
    var memberships := t.memberships - dropped;
    t.(segments := segments, memberships := memberships,
       relations := map r | r in t.relations && RelationLive(t.relations[r], segments.Keys, memberships.Keys) :: t.relations[r])
  }

  predicate RelationLive(r: Relation, segments: set<SegmentId>, updates: set<string>) {
    r.left in updates && r.right in updates
    && (r.leftSegment.Some? ==> r.leftSegment.value in segments) && (r.rightSegment.Some? ==> r.rightSegment.value in segments)
  }

  function SegmentOf(memberships: map<string, Membership>, u: string): Option<SegmentId> {
    if u in memberships then Some(memberships[u].segmentId) else None
  }

  function Seeded(t: Timeline, event: string, u: string): Timeline {
    var id := SegmentId(event, {u});
    t.(segments := t.segments[id := Segment(event, {u}, 100, 0)],
       memberships := t.memberships[u := Membership(event, id, Seed, 100)])
  }

  function Attached(t: Timeline, s: SegmentId, x: Fingerprint, c: Candidate): Timeline
    requires s in t.segments
  {
    var segment := t.segments[s];
    t.(segments := t.segments[s := segment.(members := segment.members + {x.id}, confidence := Min(segment.confidence, c.confidence))],
       memberships := t.memberships[x.id := Membership(x.eventId, s, Matched(c.relationship), c.confidence)])
  }

  function Related(t: Timeline, x: Fingerprint, other: string, c: Candidate): Timeline {
    t.(relations := t.relations[RelationId(x.eventId, {x.id, other}) :=
      Relation(x.id, other, SegmentOf(t.memberships, x.id), SegmentOf(t.memberships, other), c.relationship)])
  }

  /** Moves an update to a Segment of its Event. */
  function Reclassified(t: Timeline, u: string, target: SegmentId, confidence: int): Timeline {
    var r := Reconciled(t);
    if MayMove(r, u, target) then Relocated(r, u, target, confidence) else r
  }

  predicate MayMove(t: Timeline, u: string, target: SegmentId) {
    target in t.segments && u in t.eventOf && t.eventOf[u] == t.segments[target].eventId
  }

  /** The old Segment goes when it empties, even when it is the target. */
  function Relocated(t: Timeline, u: string, target: SegmentId, confidence: int): Timeline
    requires target in t.segments
  {
    var without := WithoutMember(t, u);
    t.(segments := if target in without then without[target := without[target].(members := without[target].members + {u})] else without,
       memberships := t.memberships[u := Membership(t.segments[target].eventId, target, Reclassification, confidence)])
  }

  function WithoutMember(t: Timeline, u: string): map<SegmentId, Segment> {
    if u in t.memberships && t.memberships[u].segmentId in t.segments then
      var from := t.memberships[u].segmentId;
      var members := t.segments[from].members - {u};
      if members == {} then t.segments - {from} else t.segments[from := t.segments[from].(members := members)]
    else t.segments
  }

  predicate MaySplit(t: Timeline, s: SegmentId, moved: set<string>) {
    s in t.segments && moved != {} && moved < t.segments[s].members && SegmentId(t.segments[s].eventId, moved) != s
  }

  function Moved(t: Timeline, us: set<string>, s: SegmentId, origin: Origin): map<string, Membership> {
    map u | u in t.memberships :: if u in us then t.memberships[u].(segmentId := s, origin := origin) else t.memberships[u]
  }

  function Split(t: Timeline, s: SegmentId, moved: set<string>): Timeline {
    var r := Reconciled(t);
    if !MaySplit(r, s, moved) then r
    else
      var source := r.segments[s];
      var id := SegmentId(source.eventId, moved);
      r.(segments := r.segments[s := source.(members := source.members - moved)]
                               [id := Segment(source.eventId, moved, source.confidence, 0)],
         memberships := Moved(r, moved, id, SplitOff))
  }

  predicate MayMerge(t: Timeline, left: SegmentId, right: SegmentId) {
    left in t.segments && right in t.segments && t.segments[left].eventId == t.segments[right].eventId
  }

  function MergedId(t: Timeline, left: SegmentId, right: SegmentId): SegmentId
    requires MayMerge(t, left, right)
  {
    SegmentId(t.segments[left].eventId, t.segments[left].members + t.segments[right].members)
  }

  function Merged(t: Timeline, left: SegmentId, right: SegmentId): Timeline {
    var r := Reconciled(t);
    if !MayMerge(r, left, right) then r
    else
      var id, members := MergedId(r, left, right), r.segments[left].members + r.segments[right].members;
      var confidence := Min(r.segments[left].confidence, r.segments[right].confidence);
      r.(segments := (r.segments - {left, right})[id := Segment(id.eventId, members, confidence, 0)],
         memberships := Moved(r, members, id, MergedIn))
  }

  /** Eviction: whole Segments with their memberships, and relations. */
  function Pruned(t: Timeline, kept: set<SegmentId>, keptRelations: set<RelationId>): Timeline {
    t.(segments := map s | s in t.segments && s in kept :: t.segments[s],
       memberships := map u | u in t.memberships && t.memberships[u].segmentId in kept :: t.memberships[u],
       relations := map r | r in t.relations && r in keptRelations :: t.relations[r])
  }

  // ---------------------------------------------------------------- one pass over an Event

  /** A match of the incoming update against a member of a Segment of its Event. */
  datatype Choice = Choice(segment: SegmentId, other: string, candidate: Candidate)

  predicate Offered(t: Timeline, event: string, fps: map<string, Fingerprint>, containers: set<string>, x: Fingerprint, c: Choice) {
    c.segment in t.segments && t.segments[c.segment].eventId == event
    && c.other in t.segments[c.segment].members && c.other in fps && c.other != x.id
    && c.candidate == Moment(x, fps[c.other], containers)
  }

  function Rank(r: Relationship): nat {
    match r
    case Conflicting => 6
    case SameMoment => 5
    case Continuation => 4
    case Complementary => 3
    case AmbiguousMoments => 2
    case SeparateMoments => 1
  }

  predicate Weaker(c: Candidate, d: Candidate) {
    (!c.same && d.same)
    || (c.same == d.same && (Rank(c.relationship) < Rank(d.relationship)
                             || (Rank(c.relationship) == Rank(d.relationship) && c.confidence < d.confidence)))
  }

  /** What the pass may settle on for an update: an unbeaten match, or none when there is nothing to match. */
  ghost predicate Legal(t: Timeline, event: string, fps: map<string, Fingerprint>, containers: set<string>, x: Fingerprint, choice: Option<Choice>) {
    match choice
    case None => forall c :: !Offered(t, event, fps, containers, x, c)
    case Some(best) => Offered(t, event, fps, containers, x, best)
                       && forall c :: Offered(t, event, fps, containers, x, c) ==> !Weaker(best.candidate, c.candidate)
  }

  function Placed(t: Timeline, event: string, x: Fingerprint, choice: Option<Choice>): Timeline {
    if x.id in t.memberships then t
    else
      match choice
      case None => Seeded(t, event, x.id)
      case Some(c) =>
        if c.segment !in t.segments then t
        else if c.candidate.same then Related(Attached(t, c.segment, x, c.candidate), x, c.other, c.candidate)
        else Related(Seeded(t, event, x.id), x, c.other, c.candidate)
  }

  function PlacedAll(t: Timeline, event: string, xs: seq<Fingerprint>, choices: seq<Option<Choice>>): Timeline
    requires |xs| == |choices|
  {
    if xs == [] then t
    else Placed(PlacedAll(t, event, xs[..|xs| - 1], choices[..|xs| - 1]), event, xs[|xs| - 1], choices[|xs| - 1])
  }

  ghost predicate LegalAt(t: Timeline, event: string, fps: map<string, Fingerprint>, containers: set<string>,
                          xs: seq<Fingerprint>, choices: seq<Option<Choice>>, k: nat)
    requires k < |choices| <= |xs|
  {
    var before := PlacedAll(t, event, xs[..k], choices[..k]);
    xs[k].id !in before.memberships ==> Legal(before, event, fps, containers, xs[k], choices[k])
  }

  ghost predicate LegalAll(t: Timeline, event: string, fps: map<string, Fingerprint>, containers: set<string>,
                           xs: seq<Fingerprint>, choices: seq<Option<Choice>>)
    requires |xs| == |choices|
  {
    forall k :: 0 <= k < |xs| ==> LegalAt(t, event, fps, containers, xs, choices, k)
  }

  // ---------------------------------------------------------------- order within an Event

  /** Order evidence: the earliest content timestamp, else the least part number, else the earliest source date. */
  datatype OrderKey = OrderKey(grade: nat, value: int)

  lemma {:induction false} HasLeast(s: set<int>)
    requires s != {}
    ensures exists m :: m in s && forall x :: x in s ==> m <= x
  {
    assert (forall a: int :: a !in s) ==> s == {};
    var a: int :| a in s;
    if s - {a} != {} {
      HasLeast(s - {a});
      var m :| m in s - {a} && forall x :: x in s - {a} ==> m <= x;
      assert forall x :: x in s ==> x == a || x in s - {a};
      assert Min(a, m) in s && forall x :: x in s ==> Min(a, m) <= x;
    } else {
      assert s == {a} by { assert forall x: int :: x in s && x != a ==> x in s - {a}; }
    }
  }

  function Least(s: set<int>): (m: int)
    requires s != {}
    ensures m in s && forall x :: x in s ==> m <= x
  {
    HasLeast(s);
    var m :| m in s && forall x :: x in s ==> m <= x;
    m
  }

  function KeyOf(segment: Segment, fps: map<string, Fingerprint>): OrderKey {
    var timestamps := set u | u in segment.members && u in fps && fps[u].timestamp.Some? :: fps[u].timestamp.value as int;
    var parts := set u | u in segment.members && u in fps && fps[u].part.Some? :: fps[u].part.value as int;
    var dates := set u | u in segment.members && u in fps :: fps[u].created;
    if timestamps != {} then OrderKey(0, Least(timestamps))
    else if parts != {} then OrderKey(1, Least(parts))
    else if dates != {} then OrderKey(2, Least(dates))
    else OrderKey(3, 0)
  }

  predicate NotAfter(j: OrderKey, k: OrderKey) {
    j.grade < k.grade || (j.grade == k.grade && j.value <= k.value)
  }

  ghost predicate SortedSegments(order: seq<SegmentId>, segments: map<SegmentId, Segment>, fps: map<string, Fingerprint>)
    requires forall s :: s in order ==> s in segments
  {
    forall i, j :: 0 <= i < j < |order| ==> NotAfter(KeyOf(segments[order[i]], fps), KeyOf(segments[order[j]], fps))
  }

  /** The place of a Segment in an order; its length when it is not there. */
  function PlaceOf(order: seq<SegmentId>, s: SegmentId): (i: nat)
    ensures i <= |order|
    ensures i < |order| ==> order[i] == s
    ensures forall k :: 0 <= k < i ==> order[k] != s
  {
    if order == [] then 0 else if order[0] == s then 0 else 1 + PlaceOf(order[1..], s)
  }

  /** The listed Segments numbered from 1 in their order. */
  function Numbered(t: Timeline, order: seq<SegmentId>): Timeline {
    t.(segments := map s | s in t.segments
                   :: if s in order then t.segments[s].(order := PlaceOf(order, s) + 1) else t.segments[s])
  }

  /** Puts a Segment after those it does not precede. */
  method Insert(order: seq<SegmentId>, s: SegmentId, segments: map<SegmentId, Segment>, fps: map<string, Fingerprint>)
    returns (longer: seq<SegmentId>)
    requires s in segments && s !in order && NoDuplicates(order) && forall r :: r in order ==> r in segments
    requires SortedSegments(order, segments, fps)
    ensures NoDuplicates(longer) && forall r :: r in longer <==> r in order || r == s
    ensures SortedSegments(longer, segments, fps)
  {
    var key := KeyOf(segments[s], fps);
    var i := 0;
    while i < |order| && NotAfter(KeyOf(segments[order[i]], fps), key)
      invariant 0 <= i <= |order|
      invariant forall k :: 0 <= k < i ==> NotAfter(KeyOf(segments[order[k]], fps), key)
    {
      i := i + 1;
    }
    longer := order[..i] + [s] + order[i..];
    InsertMembers(order, i, s);
    InsertSorted(order, i, s, segments, fps);
  }

  lemma InsertMembers(order: seq<SegmentId>, i: nat, s: SegmentId)
    requires i <= |order| && s !in order && NoDuplicates(order)
    ensures var longer := order[..i] + [s] + order[i..]; NoDuplicates(longer) && forall r :: r in longer <==> r in order || r == s
  {
    var longer := order[..i] + [s] + order[i..];
    assert forall k :: 0 <= k < |longer| ==> longer[k] == if k < i then order[k] else if k == i then s else order[k - 1];
    assert forall k :: 0 <= k < |order| ==> order[k] == if k < i then longer[k] else longer[k + 1];
    assert forall k :: 0 <= k < |order| ==> order[k] != s;
  }

  lemma InsertSorted(order: seq<SegmentId>, i: nat, s: SegmentId, segments: map<SegmentId, Segment>, fps: map<string, Fingerprint>)
    requires i <= |order| && s in segments && (forall r :: r in order ==> r in segments) && SortedSegments(order, segments, fps)
    requires forall k :: 0 <= k < i ==> NotAfter(KeyOf(segments[order[k]], fps), KeyOf(segments[s], fps))
    requires i < |order| ==> !NotAfter(KeyOf(segments[order[i]], fps), KeyOf(segments[s], fps))
    requires forall r :: r in order[..i] + [s] + order[i..] ==> r in segments
    ensures SortedSegments(order[..i] + [s] + order[i..], segments, fps)
  {
    var longer := order[..i] + [s] + order[i..];
    forall p, q | 0 <= p < q < |longer| ensures NotAfter(KeyOf(segments[longer[p]], fps), KeyOf(segments[longer[q]], fps)) {
      var p', q' := if p <= i then p else p - 1, if q <= i then q else q - 1;
      if p == i {
        assert NotAfter(KeyOf(segments[order[i]], fps), KeyOf(segments[order[q']], fps)) || q' == i;
      } else if q == i {
        assert longer[p] == order[p];
      } else {
        assert longer[p] == order[p'] && longer[q] == order[q'] && p' < q';
      }
    }
  }

  // ---------------------------------------------------------------- the store

  class Store {
    var eventOf: map<string, string>
    var segments: map<SegmentId, Segment>
    var memberships: map<string, Membership>
    var relations: map<RelationId, Relation>

    ghost function Value(): Timeline
      reads this
    {
      Timeline(eventOf, segments, memberships, relations)
    }

    constructor (eventOf: map<string, string>)
      ensures Value() == Timeline(eventOf, map[], map[], map[])
    {
      this.eventOf, segments, memberships, relations := eventOf, map[], map[], map[];
    }

    method Reconcile()
      modifies this`segments, this`memberships, this`relations
      ensures Value() == Reconciled(old(Value()))
    {
      ghost var start := Value();
      DropStale();
      DropEmpty();
      assert segments == Reconciled(start).segments;
      relations := map r | r in relations && RelationLive(relations[r], segments.Keys, memberships.Keys) :: relations[r];
    }

    method DropEmpty()
      modifies this`segments
      ensures segments == map s | s in old(segments) && old(segments)[s].members != {} :: old(segments)[s]
    {
      var segs := segments.Keys;
      ghost var full := segments;
      while segs != {}
        invariant segs <= segments.Keys <= full.Keys
        invariant forall s :: s in full ==> (s in segments <==> s in segs || full[s].members != {})
        invariant forall s :: s in segments ==> segments[s] == full[s]
        decreases segs
      {
        var s :| s in segs;
        segs := segs - {s};
        if segments[s].members == {} {
          segments := segments - {s};
        }
      }
    }

    method DropStale()
      modifies this`segments, this`memberships
      ensures memberships == old(memberships) - Stale(old(Value()))
      ensures segments.Keys == old(segments).Keys
      ensures forall s :: s in segments ==> segments[s] == old(segments)[s].(members := MembersAfter(old(Value()), s, Stale(old(Value()))))
    {
      ghost var start := Value();
      var rows := memberships.Keys;
      while rows != {}
        invariant rows <= start.memberships.Keys
        invariant memberships == start.memberships - (Stale(start) - rows)
        invariant segments.Keys == start.segments.Keys
        invariant forall s :: s in segments ==> segments[s] == start.segments[s].(members := MembersAfter(start, s, Stale(start) - rows))
        decreases rows
      {
        var u :| u in rows;
        ghost var seen := Stale(start) - rows;
        var row := memberships[u];
        rows := rows - {u};
        if !(u in eventOf && eventOf[u] == row.eventId && row.segmentId in segments) {
          assert Stale(start) - rows == seen + {u};
          memberships := memberships - {u};
          assert memberships == start.memberships - (seen + {u});
          DropMember(start, row.segmentId, u, seen);
        } else {
          assert Stale(start) - rows == seen;
        }
      }
      assert Stale(start) - {} == Stale(start);
    }

    method DropMember(ghost start: Timeline, s: SegmentId, u: string, ghost seen: set<string>)
      requires seen <= start.memberships.Keys && u in start.memberships && start.memberships[u].segmentId == s
      requires segments.Keys == start.segments.Keys
      requires forall k :: k in segments ==> segments[k] == start.segments[k].(members := MembersAfter(start, k, seen))
      modifies this`segments
      ensures segments.Keys == start.segments.Keys
      ensures forall k :: k in segments ==> segments[k] == start.segments[k].(members := MembersAfter(start, k, seen + {u}))
    {
      forall k | k in segments && k != s ensures MembersAfter(start, k, seen + {u}) == MembersAfter(start, k, seen) {
      }
      if s in segments {
        assert MembersAfter(start, s, seen + {u}) == MembersAfter(start, s, seen) - {u};
        segments := segments[s := segments[s].(members := segments[s].members - {u})];
      }
    }

    method Create(event: string, u: string) returns (id: SegmentId)
      modifies this`segments, this`memberships
      ensures Value() == Seeded(old(Value()), event, u) && id == SegmentId(event, {u})
    {
      id := SegmentId(event, {u});
      segments := segments[id := Segment(event, {u}, 100, 0)];
      memberships := memberships[u := Membership(event, id, Seed, 100)];
    }

    method Attach(s: SegmentId, x: Fingerprint, c: Candidate)
      requires s in segments
      modifies this`segments, this`memberships
      ensures Value() == Attached(old(Value()), s, x, c)
    {
      var segment := segments[s];
      segment := segment.(members := segment.members + {x.id}, confidence := Min(segment.confidence, c.confidence));
      segments := segments[s := segment];
      memberships := memberships[x.id := Membership(x.eventId, s, Matched(c.relationship), c.confidence)];
    }

    method StoreRelationship(x: Fingerprint, other: string, c: Candidate)
      modifies this`relations
      ensures Value() == Related(old(Value()), x, other, c)
    {
      relations := relations[RelationId(x.eventId, {x.id, other}) :=
        Relation(x.id, other, SegmentOf(memberships, x.id), SegmentOf(memberships, other), c.relationship)];
    }

    method Reclassify(u: string, target: SegmentId, confidence: int) returns (ok: bool)
      modifies this`segments, this`memberships, this`relations
      ensures Value() == Reclassified(old(Value()), u, target, confidence)
      ensures ok <==> MayMove(Reconciled(old(Value())), u, target)
    {
      Reconcile();
      if target !in segments {
        return false;
      }
      var event := segments[target].eventId;
      if u !in eventOf || eventOf[u] != event {
        return false;
      }
      if u in memberships && memberships[u].segmentId in segments {
        var from := memberships[u].segmentId;
        var rest := segments[from].members - {u};
        if rest == {} {
          segments := segments - {from};
        } else {
          segments := segments[from := segments[from].(members := rest)];
        }
      }
      if target in segments {
        segments := segments[target := segments[target].(members := segments[target].members + {u})];
      }
      memberships := memberships[u := Membership(event, target, Reclassification, confidence)];
      ok := true;
    }

    method SplitSegment(s: SegmentId, moved: set<string>) returns (id: Option<SegmentId>)
      modifies this`segments, this`memberships, this`relations
      ensures Value() == Split(old(Value()), s, moved)
      ensures var r := Reconciled(old(Value()));
        id == if MaySplit(r, s, moved) then Some(SegmentId(r.segments[s].eventId, moved)) else None
    {
      Reconcile();
      if s !in segments || moved == {} || !(moved <= segments[s].members) || moved == segments[s].members {
        return None;
      }
      var source := segments[s];
      var fresh' := SegmentId(source.eventId, moved);
      if fresh' == s {
        return None;
      }
      segments := segments[s := source.(members := source.members - moved)];
      segments := segments[fresh' := Segment(source.eventId, moved, source.confidence, 0)];
      memberships := Moved(Timeline(eventOf, segments, memberships, relations), moved, fresh', SplitOff);
      id := Some(fresh');
    }

    method MergeSegments(left: SegmentId, right: SegmentId) returns (id: Option<SegmentId>)
      modifies this`segments, this`memberships, this`relations
      ensures Value() == Merged(old(Value()), left, right)
      ensures var r := Reconciled(old(Value()));
        id == if MayMerge(r, left, right) then Some(MergedId(r, left, right)) else None
    {
      Reconcile();
      if left !in segments || right !in segments || segments[left].eventId != segments[right].eventId {
        return None;
      }
      var event, members := segments[left].eventId, segments[left].members + segments[right].members;
      var confidence := Min(segments[left].confidence, segments[right].confidence);
      var merged := SegmentId(event, members);
      segments := segments - {left, right};
      segments := segments[merged := Segment(event, members, confidence, 0)];
      memberships := Moved(Timeline(eventOf, segments, memberships, relations), members, merged, MergedIn);
      id := Some(merged);
    }

    /** Takes the fingerprinted members of one Event in the given order and leaves each of them in a Segment. */
    method SegmentEvent(event: string, fps: map<string, Fingerprint>, containers: set<string>, xs: seq<Fingerprint>)
      returns (ghost choices: seq<Option<Choice>>)
      modifies this`segments, this`memberships, this`relations
      ensures |choices| == |xs|
      ensures Value() == PlacedAll(old(Value()), event, xs, choices)
      ensures LegalAll(old(Value()), event, fps, containers, xs, choices)
    {
      choices := [];
      ghost var start := Value();
      for k := 0 to |xs|
        invariant |choices| == k
        invariant Value() == PlacedAll(start, event, xs[..k], choices)
        invariant forall j :: 0 <= j < k ==> LegalAt(start, event, fps, containers, xs, choices, j)
      {
        ghost var before := choices;
        var choice := PlaceOne(event, fps, containers, xs[k]);
        choices := choices + [choice];
        assert xs[..k + 1][..k] == xs[..k] && choices[..k] == before;
        forall j | 0 <= j < k + 1 ensures LegalAt(start, event, fps, containers, xs, choices, j) {
          assert choices[..j] == before[..j];
          if j < k { assert LegalAt(start, event, fps, containers, xs, before, j); }
        }
      }
      assert xs[..|xs|] == xs;
    }

    method PlaceOne(event: string, fps: map<string, Fingerprint>, containers: set<string>, x: Fingerprint)
      returns (choice: Option<Choice>)
      modifies this`segments, this`memberships, this`relations
      ensures Value() == Placed(old(Value()), event, x, choice)
      ensures x.id !in old(memberships) ==> Legal(old(Value()), event, fps, containers, x, choice)
    {
      if x.id in memberships {
        return None;
      }
      choice := BestOverall(event, fps, containers, x);
      if choice.None? {
        var id := Create(event, x.id);
        return;
      }
      var c := choice.value;
      if c.candidate.same {
        Attach(c.segment, x, c.candidate);
      } else {
        var id := Create(event, x.id);
      }
      StoreRelationship(x, c.other, c.candidate);
    }

    method BestOverall(event: string, fps: map<string, Fingerprint>, containers: set<string>, x: Fingerprint)
      returns (choice: Option<Choice>)
      ensures Legal(Value(), event, fps, containers, x, choice)
    {
      choice := None;
      var segs := set s | s in segments && segments[s].eventId == event;
      while segs != {}
        invariant forall s :: s in segs ==> s in segments && segments[s].eventId == event
        invariant forall c :: Offered(Value(), event, fps, containers, x, c) && c.segment !in segs
                              ==> choice.Some? && !Weaker(choice.value.candidate, c.candidate)
        invariant choice.Some? ==> Offered(Value(), event, fps, containers, x, choice.value)
        decreases segs
      {
        var s :| s in segs;
        segs := segs - {s};
        var best := BestIn(event, fps, containers, x, s);
        if best.Some? && (choice.None? || Weaker(choice.value.candidate, best.value.candidate)) {
          choice := best;
        }
      }
    }

    method BestIn(event: string, fps: map<string, Fingerprint>, containers: set<string>, x: Fingerprint, s: SegmentId)
      returns (best: Option<Choice>)
      requires s in segments && segments[s].eventId == event
      ensures best.Some? ==> best.value.segment == s && Offered(Value(), event, fps, containers, x, best.value)
      ensures forall c :: Offered(Value(), event, fps, containers, x, c) && c.segment == s
                          ==> best.Some? && !Weaker(best.value.candidate, c.candidate)
    {
      best := None;
      var us := segments[s].members;
      while us != {}
        invariant us <= segments[s].members
        invariant forall c :: Offered(Value(), event, fps, containers, x, c) && c.segment == s && c.other !in us
                              ==> best.Some? && !Weaker(best.value.candidate, c.candidate)
        invariant best.Some? ==> best.value.segment == s && Offered(Value(), event, fps, containers, x, best.value)
        decreases us
      {
        var u :| u in us;
        us := us - {u};
        if u in fps && u != x.id {
          var c := Choice(s, u, Moment(x, fps[u], containers));
          if best.None? || Weaker(best.value.candidate, c.candidate) {
            best := Some(c);
          }
        }
      }
    }

    /** Numbers the Segments of an Event 1..n by their order evidence, and changes nothing else. */
    method Reorder(event: string, fps: map<string, Fingerprint>) returns (order: seq<SegmentId>)
      modifies this`segments
      ensures NoDuplicates(order) && forall s :: s in order <==> s in old(segments) && old(segments)[s].eventId == event
      ensures SortedSegments(order, old(segments), fps)
      ensures Value() == Numbered(old(Value()), order)
    {
      order := SortSegments(event, fps);
      NumberEach(order);
    }

    method SortSegments(event: string, fps: map<string, Fingerprint>) returns (order: seq<SegmentId>)
      ensures NoDuplicates(order) && forall s :: s in order <==> s in segments && segments[s].eventId == event
      ensures SortedSegments(order, segments, fps)
    {
      order := [];
      var rows := set s | s in segments && segments[s].eventId == event;
      while rows != {}
        invariant forall s :: s in rows || s in order <==> s in segments && segments[s].eventId == event
        invariant forall s :: s in rows ==> s !in order
        invariant NoDuplicates(order) && SortedSegments(order, segments, fps)
        decreases rows
      {
        var s :| s in rows;
        rows := rows - {s};
        order := Insert(order, s, segments, fps);
      }
    }

    method NumberEach(order: seq<SegmentId>)
      requires NoDuplicates(order) && forall s :: s in order ==> s in segments
      modifies this`segments
      ensures Value() == Numbered(old(Value()), order)
    {
      for i := 0 to |order|
        invariant segments.Keys == old(segments).Keys
        invariant forall k :: 0 <= k < i ==> segments[order[k]] == old(segments)[order[k]].(order := k + 1)
        invariant forall s :: s in segments && s !in order[..i] ==> segments[s] == old(segments)[s]
      {
        assert order[..i + 1] == order[..i] + [order[i]];
        segments := segments[order[i] := segments[order[i]].(order := i + 1)];
      }
      forall s | s in segments ensures segments[s] == Numbered(old(Value()), order).segments[s] {
        if s in order {
          assert PlaceOf(order, s) < |order|;
        }
      }
    }
  }
}
