/**
 Runs from the empty timeline that break the maps, one for each unguarded write: a seeded, a split and a merged Segment
 whose id is in use, and a move onto the update's own singleton.
 */
module SegmentExamples {
  import opened Common
  import opened EventTimeline
  import opened SegmentProof
  import opened SegmentRuns

  // ---------------------------------------------------------------- three updates

  /** An Event and three of its updates. */
  datatype Scene = Scene(event: string, a: string, b: string, c: string) {
    predicate Distinct() {
      a != "" && b != "" && c != "" && a != b && b != c && a != c
    }

    /** The Segment ids derived from one of them, and from two. */
    function A(): SegmentId { SegmentId(event, {a}) }
    function B(): SegmentId { SegmentId(event, {b}) }
    function C(): SegmentId { SegmentId(event, {c}) }
    function Ab(): SegmentId { SegmentId(event, {a} + {b}) }

    function All(): map<string, string> { map[a := event, b := event, c := event] }
    function Start(): Timeline { EMPTY.(eventOf := All()) }
  }

  /** An update that quotes another, or nobody, and has nothing else in common with any. */
  function Print(w: Scene, id: string, quoted: string): Fingerprint {
    Fingerprint(id, w.event, 0, "live", "", "", quoted, {}, {}, {}, None, None, {}, {}, {}, {}, false)
  }

  predicate Unrelated(x: Fingerprint, y: Fingerprint) {
    x.id != y.id && !Quotes(x, y)
  }

  lemma QuotesAttach(w: Scene, x: Fingerprint, y: Fingerprint)
    requires x == Print(w, x.id, x.quoted) && y == Print(w, y.id, y.quoted) && x.id != y.id && Quotes(x, y)
    ensures Moment(x, y, {}).same
  {
    assert SharedQuote in Signals(x, y, {});
    assert SharedQuote in Signals(x, y, {}) * {SharedQuote, SharedMedia, SameTimestamp, SharedClip, SameQuestion};
    assert Conflicts(x, y, Signals(x, y, {})) == {};
    AnchoredMomentsAttach(x, y, {});
  }

  lemma OthersStayApart(w: Scene, x: Fingerprint, y: Fingerprint)
    requires x == Print(w, x.id, x.quoted) && y == Print(w, y.id, y.quoted) && Unrelated(x, y)
    ensures !Moment(x, y, {}).same
  {
    var signals := Signals(x, y, {});
    NoAnchor(w, x, y);
    UnanchoredStaysApart(Score(x, y, signals, Conflicts(x, y, signals)), signals, Conflicts(x, y, signals));
  }

  lemma NoAnchor(w: Scene, x: Fingerprint, y: Fingerprint)
    requires x == Print(w, x.id, x.quoted) && y == Print(w, y.id, y.quoted) && Unrelated(x, y)
    ensures Signals(x, y, {}) !! {DirectReply, AdjacentPart, SameConversation, SharedQuote, SharedMedia, SameTimestamp, SharedClip, SameQuestion}
  {
  }

  lemma UnanchoredStaysApart(score: int, signals: set<Signal>, conflicts: set<Conflict>)
    requires signals !! {DirectReply, AdjacentPart, SameConversation, SharedQuote, SharedMedia, SameTimestamp, SharedClip, SameQuestion}
    ensures !Attaches(Relate(score, signals, conflicts))
  {
    assert signals * {SharedQuote, SharedMedia, SameTimestamp, SharedClip, SameQuestion} == {};
    assert signals * {DirectReply, AdjacentPart, SameConversation} == {};
  }

  // ---------------------------------------------------------------- shapes

  /** The Segments, all of the one Event, and their members. */
  ghost predicate HasGroups(w: Scene, t: Timeline, groups: map<SegmentId, set<string>>) {
    t.segments.Keys == groups.Keys && forall s :: s in groups ==> t.segments[s].members == groups[s] && t.segments[s].eventId == w.event
  }

  ghost predicate Shape(w: Scene, t: Timeline, eventOf: map<string, string>, groups: map<SegmentId, set<string>>) {
    Partition(t) && UpToDate(t) && t.eventOf == eventOf && HasGroups(w, t, groups)
  }

  lemma ShapeReconciled(w: Scene, t: Timeline, eventOf: map<string, string>, groups: map<SegmentId, set<string>>)
    requires Shape(w, t, eventOf, groups)
    ensures Shape(w, Reconciled(t), eventOf, groups)
  {
    ReconcilingKeeps(t);
    ReconcilingIsIdle(t);
  }

  lemma PlacedIn(t: Timeline, u: string, s: SegmentId)
    requires Partition(t) && s in t.segments && u in t.segments[s].members
    ensures u in t.memberships && t.memberships[u].segmentId == s
    ensures forall r :: r in t.segments && r != s ==> u !in t.segments[r].members
  {
  }

  lemma UnplacedIn(t: Timeline, u: string)
    requires Partition(t) && forall s :: s in t.segments ==> u !in t.segments[s].members
    ensures u !in t.memberships
  {
  }

  /** The groups after one placement. */
  function Grouped(w: Scene, groups: map<SegmentId, set<string>>, x: string, join: Option<SegmentId>): map<SegmentId, set<string>>
    requires join.Some? ==> join.value in groups
  {
    match join
    case None => groups[SegmentId(w.event, {x}) := {x}]
    case Some(s) => groups[s := groups[s] + {x}]
  }

  function Joins(choice: Option<Choice>): Option<SegmentId> {
    if choice.Some? && choice.value.candidate.same then Some(choice.value.segment) else None
  }

  lemma GroupsPlaced(w: Scene, t: Timeline, groups: map<SegmentId, set<string>>, x: Fingerprint, choice: Option<Choice>)
    requires HasGroups(w, t, groups) && x.id !in t.memberships && (choice.Some? ==> choice.value.segment in groups)
    ensures HasGroups(w, Placed(t, w.event, x, choice), Grouped(w, groups, x.id, Joins(choice)))
  {
  }

  lemma ShapePlaced(w: Scene, t: Timeline, eventOf: map<string, string>, groups: map<SegmentId, set<string>>,
                    fps: map<string, Fingerprint>, x: Fingerprint, choice: Option<Choice>)
    requires Shape(w, t, eventOf, groups) && LegalOne(t, w.event, fps, {}, x, choice) && x.id !in t.memberships
    requires Joins(choice).None? ==> SegmentId(w.event, {x.id}) !in groups
    requires choice.Some? ==> choice.value.segment in groups
    ensures Shape(w, Placed(t, w.event, x, choice), eventOf, Grouped(w, groups, x.id, Joins(choice)))
  {
    PlacingKeepsPartitionIff(t, w.event, fps, {}, x, choice);
    PlacingPlaces(t, w.event, fps, {}, x, choice);
    GroupsPlaced(w, t, groups, x, choice);
  }

  /** The groups after a move. */
  function Shifted(groups: map<SegmentId, set<string>>, u: string, from: SegmentId, target: SegmentId): map<SegmentId, set<string>>
    requires from in groups && target in groups
  {
    (if groups[from] == {u} then groups - {from} else groups[from := groups[from] - {u}])[target := groups[target] + {u}]
  }

  lemma GroupsMoved(w: Scene, r: Timeline, groups: map<SegmentId, set<string>>, u: string, from: SegmentId, target: SegmentId)
    requires HasGroups(w, r, groups) && u in r.memberships && r.memberships[u].segmentId == from
    requires from in groups && target in groups && from != target && u in groups[from]
    ensures HasGroups(w, Relocated(r, u, target, 100), Shifted(groups, u, from, target))
  {
    assert groups[from] - {u} == {} <==> groups[from] == {u};
  }

  lemma ShapeMoved(w: Scene, t: Timeline, eventOf: map<string, string>, groups: map<SegmentId, set<string>>, u: string, from: SegmentId, target: SegmentId)
    requires Shape(w, t, eventOf, groups) && u in eventOf && eventOf[u] == w.event
    requires from in groups && target in groups && from != target && u in groups[from]
    ensures Shape(w, Reclassified(t, u, target, 100), eventOf, Shifted(groups, u, from, target))
  {
    ShapeReconciled(w, t, eventOf, groups);
    var r := Reconciled(t);
    PlacedIn(r, u, from);
    assert u !in r.segments[target].members;
    GroupsMoved(w, r, groups, u, from, target);
    ReclassifyingKeepsPartitionIff(t, u, target, 100);
    MovedStaysUpToDate(r, u, target);
  }

  lemma MovedStaysUpToDate(r: Timeline, u: string, target: SegmentId)
    requires UpToDate(r) && MayMove(r, u, target)
    ensures UpToDate(Relocated(r, u, target, 100))
  {
  }

  lemma GroupsSplit(w: Scene, t: Timeline, groups: map<SegmentId, set<string>>, s: SegmentId, moved: set<string>)
    requires HasGroups(w, Reconciled(t), groups) && s in groups && MaySplit(Reconciled(t), s, moved)
    ensures HasGroups(w, Split(t, s, moved), groups[s := groups[s] - moved][SegmentId(w.event, moved) := moved])
  {
  }

  lemma ShapeSplit(w: Scene, t: Timeline, eventOf: map<string, string>, groups: map<SegmentId, set<string>>, s: SegmentId, moved: set<string>)
    requires Shape(w, t, eventOf, groups) && s in groups && moved != {} && moved < groups[s] && SegmentId(w.event, moved) !in groups
    ensures Shape(w, Split(t, s, moved), eventOf, groups[s := groups[s] - moved][SegmentId(w.event, moved) := moved])
  {
    ShapeReconciled(w, t, eventOf, groups);
    SplittingKeepsPartitionIff(t, s, moved);
    SplitKeepsUpToDate(t, s, moved);
    GroupsSplit(w, t, groups, s, moved);
  }

  /** The groups after a merge. */
  function Unified(w: Scene, groups: map<SegmentId, set<string>>, left: SegmentId, right: SegmentId): map<SegmentId, set<string>>
    requires left in groups && right in groups
  {
    (groups - {left, right})[SegmentId(w.event, groups[left] + groups[right]) := groups[left] + groups[right]]
  }

  lemma GroupsMerged(w: Scene, t: Timeline, groups: map<SegmentId, set<string>>, left: SegmentId, right: SegmentId)
    requires HasGroups(w, Reconciled(t), groups) && left in groups && right in groups
    ensures HasGroups(w, Merged(t, left, right), Unified(w, groups, left, right)) && Merged(t, left, right).eventOf == t.eventOf
    ensures MayMerge(Reconciled(t), left, right) && MergedId(Reconciled(t), left, right) == SegmentId(w.event, groups[left] + groups[right])
    ensures UpToDate(Reconciled(t)) ==> UpToDate(Merged(t, left, right))
  {
  }

  lemma ShapeMerged(w: Scene, t: Timeline, eventOf: map<string, string>, groups: map<SegmentId, set<string>>, left: SegmentId, right: SegmentId)
    requires Shape(w, t, eventOf, groups) && left in groups && right in groups && SegmentId(w.event, groups[left] + groups[right]) !in groups
    ensures Shape(w, Merged(t, left, right), eventOf, Unified(w, groups, left, right))
  {
    ShapeReconciled(w, t, eventOf, groups);
    GroupsMerged(w, t, groups, left, right);
    MergingKeepsPartitionIff(t, left, right);
  }

  // ---------------------------------------------------------------- runs

  /** The last call of a run breaks maps that were inverse up to it. */
  ghost predicate Breaks(calls: seq<Call>) {
    calls != [] && LegalRun(calls) && PartitionThroughout(calls[..|calls| - 1]) && !Partition(Run(calls))
  }

  lemma OneMore(calls: seq<Call>, call: Call)
    requires LegalRun(calls) && LegalCall(Run(calls), call)
    ensures LegalRun(calls + [call]) && Run(calls + [call]) == Step(Run(calls), call)
    ensures PartitionThroughout(calls) && Partition(Step(Run(calls), call)) ==> PartitionThroughout(calls + [call])
    ensures PartitionThroughout(calls) && !Partition(Step(Run(calls), call)) ==> Breaks(calls + [call])
  {
    assert (calls + [call])[..|calls|] == calls;
  }

  lemma EmptyShape(w: Scene, eventOf: map<string, string>)
    ensures Shape(w, EMPTY.(eventOf := eventOf), eventOf, map[])
  {
  }

  /** The run so far has the shape, and was right throughout. */
  ghost predicate Reaches(w: Scene, calls: seq<Call>, eventOf: map<string, string>, groups: map<SegmentId, set<string>>) {
    RightSoFar(calls) && Shape(w, Run(calls), eventOf, groups)
  }

  ghost predicate RightSoFar(calls: seq<Call>) {
    LegalRun(calls) && PartitionThroughout(calls)
  }

  lemma Beginning(w: Scene, eventOf: map<string, string>)
    ensures Reaches(w, [Regroup(eventOf)], eventOf, map[])
  {
    EmptyShape(w, eventOf);
    assert Partition(EMPTY);
    assert PartitionThroughout([]) && LegalRun([]);
    OneMore([], Regroup(eventOf));
    assert [] + [Regroup(eventOf)] == [Regroup(eventOf)];
  }

  lemma Next(w: Scene, calls: seq<Call>, call: Call, eventOf: map<string, string>, groups: map<SegmentId, set<string>>)
    requires RightSoFar(calls) && LegalCall(Run(calls), call) && Shape(w, Step(Run(calls), call), eventOf, groups)
    ensures Reaches(w, calls + [call], eventOf, groups)
  {
    OneMore(calls, call);
  }

  lemma NextFrom(w: Scene, calls: seq<Call>, call: Call, eventOf: map<string, string>, after: map<SegmentId, set<string>>)
    requires RightSoFar(calls) && !call.Pass? && Shape(w, Step(Run(calls), call), eventOf, after)
    ensures Reaches(w, calls + [call], eventOf, after)
  {
    Next(w, calls, call, eventOf, after);
  }

  lemma Moving(w: Scene, calls: seq<Call>, eventOf: map<string, string>, groups: map<SegmentId, set<string>>, u: string, from: SegmentId, target: SegmentId)
    requires Reaches(w, calls, eventOf, groups) && u in eventOf && eventOf[u] == w.event
    requires from in groups && target in groups && from != target && u in groups[from]
    ensures Reaches(w, calls + [Move(u, target, 100)], eventOf, Shifted(groups, u, from, target))
  {
    assert Step(Run(calls), Move(u, target, 100)) == Reclassified(Run(calls), u, target, 100);
    ShapeMoved(w, Run(calls), eventOf, groups, u, from, target);
    NextFrom(w, calls, Move(u, target, 100), eventOf, Shifted(groups, u, from, target));
  }

  lemma Separating(w: Scene, calls: seq<Call>, eventOf: map<string, string>, groups: map<SegmentId, set<string>>, s: SegmentId, moved: set<string>)
    requires Reaches(w, calls, eventOf, groups) && s in groups && moved != {} && moved < groups[s] && SegmentId(w.event, moved) !in groups
    ensures Reaches(w, calls + [Separate(s, moved)], eventOf, groups[s := groups[s] - moved][SegmentId(w.event, moved) := moved])
  {
    assert Step(Run(calls), Separate(s, moved)) == Split(Run(calls), s, moved);
    ShapeSplit(w, Run(calls), eventOf, groups, s, moved);
    NextFrom(w, calls, Separate(s, moved), eventOf, groups[s := groups[s] - moved][SegmentId(w.event, moved) := moved]);
  }

  lemma Merging(w: Scene, calls: seq<Call>, eventOf: map<string, string>, groups: map<SegmentId, set<string>>, left: SegmentId, right: SegmentId)
    requires Reaches(w, calls, eventOf, groups) && left in groups && right in groups && SegmentId(w.event, groups[left] + groups[right]) !in groups
    ensures Reaches(w, calls + [Merge(left, right)], eventOf, Unified(w, groups, left, right))
  {
    assert Step(Run(calls), Merge(left, right)) == Merged(Run(calls), left, right);
    ShapeMerged(w, Run(calls), eventOf, groups, left, right);
    NextFrom(w, calls, Merge(left, right), eventOf, Unified(w, groups, left, right));
  }

  // ---------------------------------------------------------------- the passes

  function Prints(w: Scene, b: string, c: string): map<string, Fingerprint> {
    map[w.a := Print(w, w.a, ""), w.b := Print(w, w.b, b), w.c := Print(w, w.c, c)]
  }

  /** The best of what two placed updates offer. */
  function Better(c: Choice, d: Choice): Choice {
    if Weaker(c.candidate, d.candidate) then d else c
  }

  function Against(fps: map<string, Fingerprint>, x: string, s: SegmentId, u: string): Choice
    requires x in fps && u in fps
  {
    Choice(s, u, Moment(fps[x], fps[u], {}))
  }

  ghost predicate KnownPrints(w: Scene, fps: map<string, Fingerprint>) {
    w.Distinct() && fps.Keys == {w.a, w.b, w.c} && forall u :: u in fps ==> fps[u] == Print(w, u, fps[u].quoted)
  }

  /** One placed update is all there is to match. */
  lemma OneOffer(w: Scene, t: Timeline, groups: map<SegmentId, set<string>>, fps: map<string, Fingerprint>, x: string, s: SegmentId, u: string)
    requires HasGroups(w, t, groups) && x in fps && u in fps && fps[x].id == x && u != x
    requires s in groups && u in groups[s] && forall r, v :: r in groups && v in groups[r] && v in fps && v != x ==> r == s && v == u
    ensures Legal(t, w.event, fps, {}, fps[x], Some(Against(fps, x, s, u)))
  {
  }

  /** Two placed updates are all there is to match. */
  lemma TwoOffers(w: Scene, t: Timeline, groups: map<SegmentId, set<string>>, fps: map<string, Fingerprint>, x: string, s: SegmentId, u: string, r: SegmentId, v: string)
    requires HasGroups(w, t, groups) && x in fps && u in fps && v in fps && fps[x].id == x && u != x && v != x
    requires s in groups && u in groups[s] && r in groups && v in groups[r]
    requires forall q, w :: q in groups && w in groups[q] && w in fps && w != x ==> (q == s && w == u) || (q == r && w == v)
    ensures Legal(t, w.event, fps, {}, fps[x], Some(Better(Against(fps, x, s, u), Against(fps, x, r, v))))
  {
  }

  /** One more update in a pass. */
  lemma PassOn(w: Scene, t: Timeline, fps: map<string, Fingerprint>, xs: seq<Fingerprint>, choices: seq<Option<Choice>>, x: Fingerprint, choice: Option<Choice>)
    requires LegalPass(t, w.event, fps, {}, xs, choices) && OfEvent(t, w.event, x)
    requires x.id !in PlacedAll(t, w.event, xs, choices).memberships ==> Legal(PlacedAll(t, w.event, xs, choices), w.event, fps, {}, x, choice)
    ensures LegalPass(t, w.event, fps, {}, xs + [x], choices + [choice])
    ensures PlacedAll(t, w.event, xs + [x], choices + [choice]) == Placed(PlacedAll(t, w.event, xs, choices), w.event, x, choice)
  {
    var more, chosen := xs + [x], choices + [choice];
    assert more[..|xs|] == xs && chosen[..|xs|] == choices;
    forall k | 0 <= k < |more| ensures LegalAt(t, w.event, fps, {}, more, chosen, k) {
      if k < |xs| {
        assert LegalAt(t, w.event, fps, {}, xs, choices, k);
        assert more[..k] == xs[..k] && chosen[..k] == choices[..k];
      }
    }
  }

  /** The pass so far left this shape. */
  ghost predicate Passed(w: Scene, t: Timeline, fps: map<string, Fingerprint>, xs: seq<Fingerprint>, choices: seq<Option<Choice>>, groups: map<SegmentId, set<string>>) {
    LegalPass(t, w.event, fps, {}, xs, choices) && Shape(w, PlacedAll(t, w.event, xs, choices), t.eventOf, groups)
  }

  lemma PassedOn(w: Scene, t: Timeline, fps: map<string, Fingerprint>, xs: seq<Fingerprint>, choices: seq<Option<Choice>>, groups: map<SegmentId, set<string>>,
                 x: Fingerprint, choice: Option<Choice>)
    requires Passed(w, t, fps, xs, choices, groups) && OfEvent(t, w.event, x)
    requires forall s :: s in groups ==> x.id !in groups[s]
    requires Legal(PlacedAll(t, w.event, xs, choices), w.event, fps, {}, x, choice)
    requires (Joins(choice).None? ==> SegmentId(w.event, {x.id}) !in groups) && (choice.Some? ==> choice.value.segment in groups)
    ensures Passed(w, t, fps, xs + [x], choices + [choice], Grouped(w, groups, x.id, Joins(choice)))
  {
    var before := PlacedAll(t, w.event, xs, choices);
    UnplacedIn(before, x.id);
    PassOn(w, t, fps, xs, choices, x, choice);
    ShapePlaced(w, before, t.eventOf, groups, fps, x, choice);
  }

  lemma PassedNone(w: Scene, fps: map<string, Fingerprint>)
    requires KnownPrints(w, fps)
    ensures Passed(w, w.Start(), fps, [], [], map[])
  {
    EmptyShape(w, w.All());
  }

  /** The first update seeds a Segment. */
  lemma PassedFirst(w: Scene, fps: map<string, Fingerprint>)
    requires KnownPrints(w, fps)
    ensures Passed(w, w.Start(), fps, [fps[w.a]], [None], map[w.A() := {w.a}])
  {
    PassedNone(w, fps);
    PassedOn(w, w.Start(), fps, [], [], map[], fps[w.a], None);
    assert [] + [fps[w.a]] == [fps[w.a]];
    assert Grouped(w, map[], w.a, None) == map[w.A() := {w.a}];
  }

  lemma IdsDiffer(w: Scene)
    requires w.Distinct()
    ensures w.A() != w.B() && w.B() != w.C() && w.A() != w.C() && w.Ab() !in {w.A(), w.B(), w.C()}
  {
    assert w.a in w.A().seeds && w.a !in w.B().seeds && w.c in w.C().seeds && w.c !in w.B().seeds && w.c !in w.A().seeds;
    assert w.a in w.Ab().seeds && w.b in w.Ab().seeds && w.b !in w.A().seeds && w.a !in w.C().seeds;
  }

  function SecondChoice(w: Scene, fps: map<string, Fingerprint>): Choice
    requires KnownPrints(w, fps)
  {
    Against(fps, w.b, w.A(), w.a)
  }

  lemma SecondIsLegal(w: Scene, t: Timeline, fps: map<string, Fingerprint>)
    requires KnownPrints(w, fps) && HasGroups(w, t, map[w.A() := {w.a}])
    ensures Legal(t, w.event, fps, {}, fps[w.b], Some(SecondChoice(w, fps)))
  {
    OneOffer(w, t, map[w.A() := {w.a}], fps, w.b, w.A(), w.a);
  }

  /** The groups once the second joined the first or seeded a Segment. */
  function TwoGroups(w: Scene, fps: map<string, Fingerprint>): map<SegmentId, set<string>>
    requires KnownPrints(w, fps)
  {
    Grouped(w, map[w.A() := {w.a}], w.b, Joins(Some(SecondChoice(w, fps))))
  }

  lemma TwoGroupsAre(w: Scene, fps: map<string, Fingerprint>)
    requires KnownPrints(w, fps)
    ensures SecondChoice(w, fps).candidate.same ==> TwoGroups(w, fps) == map[w.A() := {w.a} + {w.b}]
    ensures !SecondChoice(w, fps).candidate.same ==> TwoGroups(w, fps) == map[w.A() := {w.a}, w.B() := {w.b}]
  {
    var first := map[w.A() := {w.a}];
    assert first[w.A() := first[w.A()] + {w.b}] == map[w.A() := {w.a} + {w.b}];
    assert first[w.B() := {w.b}] == map[w.A() := {w.a}, w.B() := {w.b}];
  }

  lemma PassedSecond(w: Scene, fps: map<string, Fingerprint>)
    requires KnownPrints(w, fps)
    ensures Passed(w, w.Start(), fps, [fps[w.a]] + [fps[w.b]], [None] + [Some(SecondChoice(w, fps))], TwoGroups(w, fps))
  {
    PassedFirst(w, fps);
    SecondIsLegal(w, PlacedAll(w.Start(), w.event, [fps[w.a]], [None]), fps);
    IdsDiffer(w);
    PassedOn(w, w.Start(), fps, [fps[w.a]], [None], map[w.A() := {w.a}], fps[w.b], Some(SecondChoice(w, fps)));
  }

  /** Where the second is. */
  function SecondIn(w: Scene, fps: map<string, Fingerprint>): SegmentId
    requires KnownPrints(w, fps)
  {
    if SecondChoice(w, fps).candidate.same then w.A() else w.B()
  }

  /** The third has the two to choose from. */
  function ThirdChoice(w: Scene, fps: map<string, Fingerprint>): Choice
    requires KnownPrints(w, fps)
  {
    Better(Against(fps, w.c, w.A(), w.a), Against(fps, w.c, SecondIn(w, fps), w.b))
  }

  lemma TwoGroupsHold(w: Scene, fps: map<string, Fingerprint>)
    requires KnownPrints(w, fps)
    ensures w.A() in TwoGroups(w, fps) && SecondIn(w, fps) in TwoGroups(w, fps) && w.C() !in TwoGroups(w, fps)
    ensures w.a in TwoGroups(w, fps)[w.A()] && w.b in TwoGroups(w, fps)[SecondIn(w, fps)]
    ensures forall s, u :: s in TwoGroups(w, fps) && u in TwoGroups(w, fps)[s] ==> (s == w.A() && u == w.a) || (s == SecondIn(w, fps) && u == w.b)
  {
    IdsDiffer(w);
    TwoGroupsAre(w, fps);
  }

  lemma ThirdIsLegal(w: Scene, t: Timeline, fps: map<string, Fingerprint>)
    requires KnownPrints(w, fps) && HasGroups(w, t, TwoGroups(w, fps))
    ensures Legal(t, w.event, fps, {}, fps[w.c], Some(ThirdChoice(w, fps)))
  {
    TwoGroupsHold(w, fps);
    TwoOffers(w, t, TwoGroups(w, fps), fps, w.c, w.A(), w.a, SecondIn(w, fps), w.b);
  }

  /** The groups the three leave. */
  function ThreeGroups(w: Scene, fps: map<string, Fingerprint>): map<SegmentId, set<string>>
    requires KnownPrints(w, fps)
  {
    ThirdJoinsOneOfTwo(w, fps);
    Grouped(w, TwoGroups(w, fps), w.c, Joins(Some(ThirdChoice(w, fps))))
  }

  lemma ThirdJoinsOneOfTwo(w: Scene, fps: map<string, Fingerprint>)
    requires KnownPrints(w, fps)
    ensures ThirdChoice(w, fps).segment in TwoGroups(w, fps) && w.C() !in TwoGroups(w, fps)
    ensures forall s :: s in TwoGroups(w, fps) ==> w.c !in TwoGroups(w, fps)[s]
  {
    TwoGroupsHold(w, fps);
    OneOfTwo(Against(fps, w.c, w.A(), w.a), Against(fps, w.c, SecondIn(w, fps), w.b));
  }

  lemma OneOfTwo(c: Choice, d: Choice)
    ensures Better(c, d).segment in {c.segment, d.segment}
  {
  }

  lemma PassedThird(w: Scene, fps: map<string, Fingerprint>)
    requires KnownPrints(w, fps)
    ensures Passed(w, w.Start(), fps, [fps[w.a]] + [fps[w.b]] + [fps[w.c]],
                   [None] + [Some(SecondChoice(w, fps))] + [Some(ThirdChoice(w, fps))], ThreeGroups(w, fps))
  {
    var xs, choices := [fps[w.a]] + [fps[w.b]], [None] + [Some(SecondChoice(w, fps))];
    PassedSecond(w, fps);
    ThirdIsLegal(w, PlacedAll(w.Start(), w.event, xs, choices), fps);
    ThirdJoinsOneOfTwo(w, fps);
    PassedOn(w, w.Start(), fps, xs, choices, TwoGroups(w, fps), fps[w.c], Some(ThirdChoice(w, fps)));
  }

  /** One pass over the three. */
  function FirstPass(w: Scene, fps: map<string, Fingerprint>): Call
    requires KnownPrints(w, fps)
  {
    Pass(w.event, fps, {}, [fps[w.a]] + [fps[w.b]] + [fps[w.c]],
         [None] + [Some(SecondChoice(w, fps))] + [Some(ThirdChoice(w, fps))])
  }

  lemma AfterFirstPass(w: Scene, fps: map<string, Fingerprint>)
    requires KnownPrints(w, fps)
    ensures Reaches(w, [Regroup(w.All())] + [FirstPass(w, fps)], w.All(), ThreeGroups(w, fps))
  {
    Beginning(w, w.All());
    FirstRegroup(w);
    PassedThird(w, fps);
    Next(w, [Regroup(w.All())], FirstPass(w, fps), w.All(), ThreeGroups(w, fps));
  }

  lemma FirstRegroup(w: Scene)
    ensures Run([Regroup(w.All())]) == w.Start() && Reconciled(w.Start()) == w.Start()
  {
    assert [Regroup(w.All())][..0] == [];
  }

  // ---------------------------------------------------------------- three first passes

  function Before(w: Scene, fps: map<string, Fingerprint>): seq<Call>
    requires KnownPrints(w, fps)
  {
    [Regroup(w.All())] + [FirstPass(w, fps)]
  }

  lemma PrintsKnown(w: Scene, b: string, c: string)
    requires w.Distinct()
    ensures KnownPrints(w, Prints(w, b, c))
  {
  }

  /** What each of the two decides, from who quotes whom. */
  lemma ChoicesFollow(w: Scene, fps: map<string, Fingerprint>)
    requires KnownPrints(w, fps) && fps[w.a].quoted == "" && fps[w.b].quoted in {"", w.a} && fps[w.c].quoted in {"", w.b}
    ensures SecondChoice(w, fps).candidate.same <==> fps[w.b].quoted == w.a
    ensures Joins(Some(ThirdChoice(w, fps))) == if fps[w.c].quoted == w.b then Some(SecondIn(w, fps)) else None
  {
    Decides(w, fps, w.b, w.a);
    ThirdFollows(w, fps);
  }

  lemma ThirdFollows(w: Scene, fps: map<string, Fingerprint>)
    requires KnownPrints(w, fps) && fps[w.a].quoted == "" && fps[w.b].quoted in {"", w.a} && fps[w.c].quoted in {"", w.b}
    ensures Joins(Some(ThirdChoice(w, fps))) == if fps[w.c].quoted == w.b then Some(SecondIn(w, fps)) else None
  {
    Decides(w, fps, w.c, w.a);
    Decides(w, fps, w.c, w.b);
    BetterJoins(Against(fps, w.c, w.A(), w.a), Against(fps, w.c, SecondIn(w, fps), w.b));
  }

  lemma BetterJoins(c: Choice, d: Choice)
    requires !c.candidate.same
    ensures Joins(Some(Better(c, d))) == if d.candidate.same then Some(d.segment) else None
  {
  }

  lemma Decides(w: Scene, fps: map<string, Fingerprint>, x: string, y: string)
    requires x in fps && y in fps && x != y && fps[x] == Print(w, x, fps[x].quoted) && fps[y] == Print(w, y, fps[y].quoted)
    requires x != "" && y != "" && fps[y].quoted != x && (fps[x].quoted == "" || fps[x].quoted != fps[y].quoted)
    ensures Moment(fps[x], fps[y], {}).same <==> fps[x].quoted == y
  {
    if fps[x].quoted == y {
      QuotesAttach(w, fps[x], fps[y]);
    } else {
      OthersStayApart(w, fps[x], fps[y]);
    }
  }

  lemma PairOf(w: Scene)
    ensures w.Distinct() ==> Grouped(w, map[w.A() := {w.a}, w.B() := {w.b}], w.c, Some(w.B())) == map[w.A() := {w.a}, w.B() := {w.b} + {w.c}]
  {
    if w.Distinct() {
      IdsDiffer(w);
    }
  }

  lemma ChainOf(w: Scene)
    ensures Grouped(w, map[w.A() := {w.a} + {w.b}], w.c, Some(w.A())) == map[w.A() := {w.a} + {w.b} + {w.c}]
  {
  }

  lemma ApartOf(w: Scene)
    ensures Grouped(w, map[w.A() := {w.a}, w.B() := {w.b}], w.c, None) == map[w.A() := {w.a}, w.B() := {w.b}, w.C() := {w.c}]
  {
  }

  /** Nobody quotes anybody: three Segments. */
  lemma PassApart(w: Scene)
    requires w.Distinct()
    ensures KnownPrints(w, Prints(w, "", ""))
    ensures Reaches(w, Before(w, Prints(w, "", "")), w.All(), map[w.A() := {w.a}, w.B() := {w.b}, w.C() := {w.c}])
  {
    var fps := Prints(w, "", "");
    PrintsKnown(w, "", "");
    ChoicesFollow(w, fps);
    TwoGroupsAre(w, fps);
    ApartOf(w);
    AfterFirstPass(w, fps);
  }

  /** The third quotes the second: it joins it. */
  lemma PassPair(w: Scene)
    requires w.Distinct()
    ensures KnownPrints(w, Prints(w, "", w.b))
    ensures Reaches(w, Before(w, Prints(w, "", w.b)), w.All(), map[w.A() := {w.a}, w.B() := {w.b} + {w.c}])
  {
    var fps := Prints(w, "", w.b);
    PrintsKnown(w, "", w.b);
    ChoicesFollow(w, fps);
    TwoGroupsAre(w, fps);
    PairOf(w);
    AfterFirstPass(w, fps);
  }

  /** Each quotes the one before: one Segment, held together by the second. */
  lemma PassChain(w: Scene)
    requires w.Distinct()
    ensures KnownPrints(w, Prints(w, w.a, w.b))
    ensures Reaches(w, Before(w, Prints(w, w.a, w.b)), w.All(), map[w.A() := {w.a} + {w.b} + {w.c}])
  {
    var fps := Prints(w, w.a, w.b);
    PrintsKnown(w, w.a, w.b);
    ChoicesFollow(w, fps);
    TwoGroupsAre(w, fps);
    ChainOf(w);
    AfterFirstPass(w, fps);
  }

  // ---------------------------------------------------------------- the four

  lemma LastBreaks(w: Scene, calls: seq<Call>, eventOf: map<string, string>, groups: map<SegmentId, set<string>>, call: Call)
    requires Reaches(w, calls, eventOf, groups) && LegalCall(Run(calls), call) && !Safe(Run(calls), call)
    ensures Breaks(calls + [call])
  {
    StepKeepsPartitionIff(Run(calls), call);
    OneMore(calls, call);
  }

  lemma UnsafeMove(w: Scene, t: Timeline, eventOf: map<string, string>, groups: map<SegmentId, set<string>>, u: string, s: SegmentId)
    requires Shape(w, t, eventOf, groups) && s in groups && groups[s] == {u} && u in eventOf && eventOf[u] == w.event
    ensures !Safe(t, Move(u, s, 100))
  {
    ShapeReconciled(w, t, eventOf, groups);
  }

  lemma UnsafeSplit(w: Scene, t: Timeline, eventOf: map<string, string>, groups: map<SegmentId, set<string>>, s: SegmentId, moved: set<string>)
    requires Shape(w, t, eventOf, groups) && s in groups && moved != {} && moved < groups[s]
    requires SegmentId(w.event, moved) in groups && SegmentId(w.event, moved) != s
    ensures !Safe(t, Separate(s, moved))
  {
    ShapeReconciled(w, t, eventOf, groups);
  }

  lemma UnsafeMerge(w: Scene, t: Timeline, eventOf: map<string, string>, groups: map<SegmentId, set<string>>, left: SegmentId, right: SegmentId)
    requires Shape(w, t, eventOf, groups) && left in groups && right in groups
    requires SegmentId(w.event, groups[left] + groups[right]) in groups && SegmentId(w.event, groups[left] + groups[right]) !in {left, right}
    ensures !Safe(t, Merge(left, right))
  {
    ShapeReconciled(w, t, eventOf, groups);
    GroupsMerged(w, t, groups, left, right);
  }

  /** An update moved onto the Segment it is alone in. */
  lemma MovingOntoSingletonBreaks(w: Scene) returns (calls: seq<Call>)
    requires w.Distinct()
    ensures Breaks(calls) && calls[|calls| - 1].Move?
  {
    PassApart(w);
    var before := Before(w, Prints(w, "", ""));
    var groups := map[w.A() := {w.a}, w.B() := {w.b}, w.C() := {w.c}];
    IdsDiffer(w);
    UnsafeMove(w, Run(before), w.All(), groups, w.a, w.A());
    LastBreaks(w, before, w.All(), groups, Move(w.a, w.A(), 100));
    calls := before + [Move(w.a, w.A(), 100)];
  }

  /** The second update's Segment outlives its seed, which is then split off from where it went. */
  lemma SplittingBreaks(w: Scene) returns (calls: seq<Call>)
    requires w.Distinct()
    ensures Breaks(calls) && calls[|calls| - 1].Separate?
  {
    PassPair(w);
    IdsDiffer(w);
    var paired := map[w.A() := {w.a}, w.B() := {w.b} + {w.c}];
    var first := Before(w, Prints(w, "", w.b));
    Moving(w, first, w.All(), paired, w.b, w.B(), w.A());
    var before, groups := first + [Move(w.b, w.A(), 100)], Shifted(paired, w.b, w.B(), w.A());
    assert w.b in groups[w.A()] && w.a in groups[w.A()] && w.a !in {w.b};
    UnsafeSplit(w, Run(before), w.All(), groups, w.A(), {w.b});
    LastBreaks(w, before, w.All(), groups, Separate(w.A(), {w.b}));
    calls := before + [Separate(w.A(), {w.b})];
  }

  /** The Segment of a merged pair outlives both of them: apart again, they cannot be merged without overwriting it. */
  lemma MergingBreaks(w: Scene) returns (calls: seq<Call>)
    requires w.Distinct()
    ensures Breaks(calls) && calls[|calls| - 1].Merge?
  {
    var before, groups := TwiceSplit(w);
    IdsDiffer(w);
    UnsafeMerge(w, Run(before), w.All(), groups, w.A(), w.B());
    LastBreaks(w, before, w.All(), groups, Merge(w.A(), w.B()));
    calls := before + [Merge(w.A(), w.B())];
  }

  function Apart(w: Scene): map<SegmentId, set<string>> {
    map[w.A() := {w.a}, w.B() := {w.b}, w.C() := {w.c}]
  }

  lemma PairedWithThird(w: Scene)
    requires w.Distinct()
    ensures var apart := Apart(w);
      && w.A() in apart && w.B() in apart && SegmentId(w.event, apart[w.A()] + apart[w.B()]) !in apart
      && Unified(w, apart, w.A(), w.B()) == map[w.Ab() := {w.a} + {w.b}, w.C() := {w.c}]
    ensures Shifted(map[w.Ab() := {w.a} + {w.b}, w.C() := {w.c}], w.c, w.C(), w.Ab()) == map[w.Ab() := {w.a} + {w.b} + {w.c}]
  {
    IdsDiffer(w);
  }

  lemma MergedPair(w: Scene) returns (calls: seq<Call>)
    requires w.Distinct()
    ensures Reaches(w, calls, w.All(), map[w.Ab() := {w.a} + {w.b}, w.C() := {w.c}])
  {
    var first := ThreeApart(w);
    PairedWithThird(w);
    Merging(w, first, w.All(), Apart(w), w.A(), w.B());
    calls := first + [Merge(w.A(), w.B())];
  }

  lemma ThreeApart(w: Scene) returns (calls: seq<Call>)
    requires w.Distinct()
    ensures Reaches(w, calls, w.All(), Apart(w))
  {
    PassApart(w);
    calls := Before(w, Prints(w, "", ""));
  }

  lemma MergedAndJoined(w: Scene) returns (calls: seq<Call>)
    requires w.Distinct()
    ensures Reaches(w, calls, w.All(), map[w.Ab() := {w.a} + {w.b} + {w.c}])
  {
    var first := MergedPair(w);
    IdsDiffer(w);
    PairedWithThird(w);
    Moving(w, first, w.All(), map[w.Ab() := {w.a} + {w.b}, w.C() := {w.c}], w.c, w.C(), w.Ab());
    calls := first + [Move(w.c, w.Ab(), 100)];
  }

  lemma TwiceSplit(w: Scene) returns (calls: seq<Call>, groups: map<SegmentId, set<string>>)
    requires w.Distinct()
    ensures groups.Keys == {w.A(), w.B(), w.Ab()} && groups[w.A()] == {w.a} && groups[w.B()] == {w.b}
    ensures Reaches(w, calls, w.All(), groups)
  {
    var first := MergedAndJoined(w);
    IdsDiffer(w);
    var all := {w.a} + {w.b} + {w.c};
    var joined := map[w.Ab() := all];
    assert w.b in all && w.b !in {w.a} && w.c in all - {w.a} && w.c !in {w.b};
    Separating(w, first, w.All(), joined, w.Ab(), {w.a});
    var second, two := first + [Separate(w.Ab(), {w.a})], joined[w.Ab() := all - {w.a}][w.A() := {w.a}];
    Separating(w, second, w.All(), two, w.Ab(), {w.b});
    calls, groups := second + [Separate(w.Ab(), {w.b})], two[w.Ab() := all - {w.a} - {w.b}][w.B() := {w.b}];
  }

  // ---------------------------------------------------------------- a Segment that outlives its seed

  /** A pass with nothing to place reconciles. */
  function Idle(w: Scene): Call {
    Pass(w.event, map[], {}, [], [])
  }

  function Only(w: Scene): map<string, string> {
    map[w.c := w.event]
  }

  lemma Dropped(w: Scene, t: Timeline)
    requires w.Distinct() && Shape(w, t, w.All(), map[w.A() := {w.a} + {w.b} + {w.c}])
    ensures var left' := Reconciled(t.(eventOf := Only(w))); Shape(w, left', Only(w), map[w.A() := {w.c}])
  {
    var next := t.(eventOf := Only(w));
    assert Partition(next);
    ReconcilingKeeps(next);
    PlacedIn(t, w.a, w.A());
    PlacedIn(t, w.b, w.A());
    PlacedIn(t, w.c, w.A());
    OnlyThirdKept(w, next);
    OnlyThirdLeft(w, next);
  }

  lemma OnlyThirdKept(w: Scene, t: Timeline)
    requires w.Distinct() && t.eventOf == Only(w) && t.segments.Keys == {w.A()} && t.segments[w.A()].members == {w.a} + {w.b} + {w.c}
    requires forall u :: u in {w.a, w.b, w.c} ==> u in t.memberships && t.memberships[u].segmentId == w.A() && t.memberships[u].eventId == w.event
    ensures MembersAfter(t, w.A(), Stale(t)) == {w.c}
  {
    assert w.a in Stale(t) && w.b in Stale(t) && w.c !in Stale(t);
  }

  lemma OnlyThirdLeft(w: Scene, t: Timeline)
    requires t.segments.Keys == {w.A()} && t.segments[w.A()].eventId == w.event && MembersAfter(t, w.A(), Stale(t)) == {w.c}
    ensures HasGroups(w, Reconciled(t), map[w.A() := {w.c}]) && Reconciled(t).eventOf == t.eventOf
  {
  }

  lemma Regrouping(w: Scene, calls: seq<Call>, eventOf: map<string, string>, groups: map<SegmentId, set<string>>, next: map<string, string>)
    requires Reaches(w, calls, eventOf, groups)
    ensures LegalRun(calls + [Regroup(next)]) && PartitionThroughout(calls + [Regroup(next)])
    ensures Run(calls + [Regroup(next)]) == Run(calls).(eventOf := next)
  {
    RegroupingIsApart(Run(calls), next);
    OneMore(calls, Regroup(next));
  }

  lemma RegroupingIsApart(t: Timeline, next: map<string, string>)
    requires Partition(t)
    ensures Partition(t.(eventOf := next))
  {
  }

  lemma IdleReconciles(w: Scene, t: Timeline)
    ensures LegalCall(t, Idle(w)) && Step(t, Idle(w)) == Reconciled(t)
  {
  }

  /** The chain's first two updates leave the Event; the Segment stays, with the third alone. */
  lemma Outlived(w: Scene) returns (calls: seq<Call>)
    requires w.Distinct()
    ensures Reaches(w, calls, Only(w), map[w.A() := {w.c}])
  {
    PassChain(w);
    var first := Before(w, Prints(w, w.a, w.b));
    Regrouping(w, first, w.All(), map[w.A() := {w.a} + {w.b} + {w.c}], Only(w));
    Dropped(w, Run(first));
    IdleReconciles(w, Run(first + [Regroup(Only(w))]));
    Next(w, first + [Regroup(Only(w))], Idle(w), Only(w), map[w.A() := {w.c}]);
    calls := first + [Regroup(Only(w))] + [Idle(w)];
  }

  function Back(w: Scene): map<string, string> {
    map[w.a := w.event, w.c := w.event]
  }

  function TwoPrints(w: Scene): map<string, Fingerprint> {
    map[w.a := Print(w, w.a, ""), w.c := Print(w, w.c, w.b)]
  }

  function LastPass(w: Scene): Call
    requires w.Distinct()
  {
    var fps := TwoPrints(w);
    Pass(w.event, fps, {}, [fps[w.a]] + [fps[w.c]], [Some(Against(fps, w.a, w.A(), w.c))] + [None])
  }

  lemma BackIsLegal(w: Scene, r: Timeline)
    requires w.Distinct() && Shape(w, r, Back(w), map[w.A() := {w.c}])
    ensures var fps := TwoPrints(w); LegalPass(r, w.event, fps, {}, [fps[w.a]], [Some(Against(fps, w.a, w.A(), w.c))])
    ensures w.a !in r.memberships && w.c in r.memberships
  {
    var fps := TwoPrints(w);
    UnplacedIn(r, w.a);
    PlacedIn(r, w.c, w.A());
    BackOffer(w, r);
    PassOfOne(w, r, fps, fps[w.a], Some(Against(fps, w.a, w.A(), w.c)));
  }

  lemma BackOffer(w: Scene, r: Timeline)
    requires w.Distinct() && HasGroups(w, r, map[w.A() := {w.c}])
    ensures var fps := TwoPrints(w); Legal(r, w.event, fps, {}, fps[w.a], Some(Against(fps, w.a, w.A(), w.c)))
  {
    OneOffer(w, r, map[w.A() := {w.c}], TwoPrints(w), w.a, w.A(), w.c);
  }

  lemma PassOfOne(w: Scene, t: Timeline, fps: map<string, Fingerprint>, x: Fingerprint, choice: Option<Choice>)
    requires OfEvent(t, w.event, x) && Legal(t, w.event, fps, {}, x, choice) && forall u :: u in fps ==> fps[u].id == u
    ensures LegalPass(t, w.event, fps, {}, [x], [choice])
  {
    PassOn(w, t, fps, [], [], x, choice);
    assert [] + [x] == [x] && [] + [choice] == [choice];
  }

  lemma FirstOfTwo(t: Timeline, event: string, x: Fingerprint, y: Fingerprint, c: Option<Choice>, d: Option<Choice>)
    requires !SeedUnused(t, event, x, c)
    ensures !SeedsUnused(t, event, [x] + [y], [c] + [d])
  {
    assert ([x] + [y])[..1] == [x] && ([c] + [d])[..1] == [c] && [x][..0] == [] && [c][..0] == [];
    assert !SeedsUnused(t, event, [x], [c]);
  }

  lemma SeedBackAgain(w: Scene, t: Timeline)
    requires w.Distinct() && Shape(w, t, Back(w), map[w.A() := {w.c}])
    ensures LegalCall(t, LastPass(w)) && !Safe(t, LastPass(w))
  {
    var fps, r := TwoPrints(w), Reconciled(t);
    var choice := Some(Against(fps, w.a, w.A(), w.c));
    ShapeReconciled(w, t, Back(w), map[w.A() := {w.c}]);
    BackIsLegal(w, r);
    PassPlaces(r, w.event, fps, {}, [fps[w.a]], [choice]);
    PassOn(w, r, fps, [fps[w.a]], [choice], fps[w.c], None);
    BackUnsafe(w, r);
  }

  lemma BackUnsafe(w: Scene, r: Timeline)
    requires w.Distinct() && w.A() in r.segments && w.a !in r.memberships
    ensures var fps := TwoPrints(w); !SeedsUnused(r, w.event, [fps[w.a]] + [fps[w.c]], [Some(Against(fps, w.a, w.A(), w.c))] + [None])
  {
    var fps := TwoPrints(w);
    Decides(w, fps, w.a, w.c);
    FirstOfTwo(r, w.event, fps[w.a], fps[w.c], Some(Against(fps, w.a, w.A(), w.c)), None);
  }

  /** A Segment outlives the update it was seeded by, which comes back without matching it and seeds it again. */
  lemma SeedingBreaks(w: Scene) returns (calls: seq<Call>)
    requires w.Distinct()
    ensures Breaks(calls) && calls[|calls| - 1].Pass?
  {
    var first := Outlived(w);
    var groups := map[w.A() := {w.c}];
    assert Shape(w, Step(Run(first), Regroup(Back(w))), Back(w), groups);
    Next(w, first, Regroup(Back(w)), Back(w), groups);
    var before := first + [Regroup(Back(w))];
    SeedBackAgain(w, Run(before));
    LastBreaks(w, before, Back(w), groups, LastPass(w));
    calls := before + [LastPass(w)];
  }

  /** Each of the four unguarded writes breaks the maps in some run. */
  lemma AllFourBreak() returns (seeding: seq<Call>, moving: seq<Call>, splitting: seq<Call>, merging: seq<Call>)
    ensures Breaks(seeding) && seeding[|seeding| - 1].Pass?
    ensures Breaks(moving) && moving[|moving| - 1].Move?
    ensures Breaks(splitting) && splitting[|splitting| - 1].Separate?
    ensures Breaks(merging) && merging[|merging| - 1].Merge?
  {
    var w := Scene("e", "a", "b", "c");
    seeding := SeedingBreaks(w);
    moving := MovingOntoSingletonBreaks(w);
    splitting := SplittingBreaks(w);
    merging := MergingBreaks(w);
  }
}
