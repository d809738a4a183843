/**
 Event Fusion and the timeline as the program runs them together. A shadow call groups its updates into Events, evicts
 old Events, reconciles the Segments with what is left, places updates, numbers the Segments and evicts old ones.

 `name` is the hash that turns the id of an Event into the string the timeline knows it by.
 */
module ShadowPipeline {
  import opened Common
  import F = EventFusion
  import FP = FusionProof
  import FR = FusionRuns
  import T = EventTimeline
  import SP = SegmentProof
  import SR = SegmentRuns
  import SC = SegmentConnectivity

  datatype Joint = Joint(tables: F.Tables, timeline: T.Timeline)

  const EMPTY := Joint(F.EMPTY, SR.EMPTY)

  /** Grouping with the eviction that ends it and the reconciliation that follows; or a call on the timeline alone. */
  datatype Call =
    | Group(xs: seq<F.Fingerprint>, now: Time, kept: set<F.EventId>, prints: set<string>)
    | Arrange(call: SR.Call)

  ghost predicate Injective(name: F.EventId -> string) {
    forall d, e :: name(d) == name(e) ==> d == e
  }

  /** The Event memberships as the timeline reads them. */
  function EventNames(memberships: map<string, F.EventId>, name: F.EventId -> string): map<string, string> {
    map u | u in memberships :: name(memberships[u])
  }

  function GroupedTables(t: F.Tables, call: Call): F.Tables
    requires call.Group?
  {
    F.Pruned(F.Grouped(t, call.xs, call.now), call.kept, call.prints)
  }

  function Step(j: Joint, call: Call, name: F.EventId -> string): Joint {
    match call
    case Group(_, _, _, _) =>
      var tables := GroupedTables(j.tables, call);
      Joint(tables, SR.Step(j.timeline, SR.Sync(EventNames(tables.memberships, name))))
    case Arrange(c) => j.(timeline := SR.Step(j.timeline, c))
  }

  function Run(calls: seq<Call>, name: F.EventId -> string): Joint {
    if calls == [] then EMPTY else Step(Run(calls[..|calls| - 1], name), calls[|calls| - 1], name)
  }

  /** The timeline never changes Event memberships itself; its calls are legal passes, numberings, evictions and merges. */
  ghost predicate Legal(j: Joint, call: Call) {
    call.Arrange? ==> !call.call.Regroup? && !call.call.Sync? && SR.Growing(j.timeline, call.call)
  }

  ghost predicate LegalRun(calls: seq<Call>, name: F.EventId -> string) {
    calls != [] ==> LegalRun(calls[..|calls| - 1], name) && Legal(Run(calls[..|calls| - 1], name), calls[|calls| - 1])
  }

  // ---------------------------------------------------------------- what a grouping does to the timeline

  /** After grouping and eviction an Event has all its members still, or none of them has a membership. */
  lemma GroupingKeepsWholeEvents(t: F.Tables, call: Call)
    requires call.Group? && FP.Partition(t) && FP.Seeded(t)
    ensures var next := GroupedTables(t, call);
      && FP.Partition(next) && FP.Seeded(next)
      && (forall u :: u in t.memberships ==> if t.memberships[u] in call.kept then u in next.memberships && next.memberships[u] == t.memberships[u]
                                             else u !in next.memberships)
  {
    var grouped := F.Grouped(t, call.xs, call.now);
    FR.ShadowStepKeeps(t, FR.Shadow(call.xs, call.now));
    assert FP.Grows(t, grouped);
    FP.PruningKeeps(grouped, call.kept, call.prints);
  }

  lemma NamesKeepWholeEvents(before: map<string, F.EventId>, after: map<string, F.EventId>, kept: set<F.EventId>, name: F.EventId -> string)
    requires Injective(name)
    requires forall u :: u in before ==> if before[u] in kept then u in after && after[u] == before[u] else u !in after
    ensures SR.WholeEvents(EventNames(before, name), EventNames(after, name))
  {
    var past, present := EventNames(before, name), EventNames(after, name);
    forall u, v | u in past && v in past && past[u] == past[v] && !SR.StaysIn(past, present, u) ensures !SR.StaysIn(past, present, v) {
      assert before[u] == before[v];
    }
  }

  // ---------------------------------------------------------------- the invariant

  /** Both pairs of maps are inverse, Events and Segments hold their seeds, and the timeline knows the memberships there are. */
  ghost predicate Sound(j: Joint, name: F.EventId -> string) {
    && FP.Partition(j.tables) && FP.Seeded(j.tables)
    && SR.Sound(j.timeline) && j.timeline.eventOf == EventNames(j.tables.memberships, name)
  }

  lemma GroupKeepsSound(j: Joint, call: Call, name: F.EventId -> string)
    requires Injective(name) && Sound(j, name) && call.Group?
    ensures Sound(Step(j, call, name), name)
  {
    var tables := GroupedTables(j.tables, call);
    GroupingKeepsWholeEvents(j.tables, call);
    NamesKeepWholeEvents(j.tables.memberships, tables.memberships, call.kept, name);
    SR.SyncingKeepsSound(j.timeline, EventNames(tables.memberships, name));
  }

  lemma ArrangingKeepsEvents(t: T.Timeline, call: SR.Call)
    requires SR.Sound(t) && SR.Growing(t, call) && !call.Regroup? && !call.Sync?
    ensures SR.Step(t, call).eventOf == t.eventOf
  {
    match call
    case Pass(event, fps, containers, xs, choices) =>
      SP.ReconcilingKeeps(t);
      SR.PassPlaces(T.Reconciled(t), event, fps, containers, xs, choices);
    case Number(order) =>
    case Evict(kept, keptRelations) =>
    case Merge(left, right) =>
  }

  /**
   In every run of the two together, evictions of Events, Segments and relations included: both pairs of maps are
   inverse, and the timeline is up to date with Event Fusion.
   */
  lemma {:induction false} RunIsSound(calls: seq<Call>, name: F.EventId -> string)
    requires Injective(name) && LegalRun(calls, name)
    ensures Sound(Run(calls, name), name)
  {
    if calls != [] {
      var init, last := calls[..|calls| - 1], calls[|calls| - 1];
      RunIsSound(init, name);
      var j := Run(init, name);
      if last.Group? {
        GroupKeepsSound(j, last, name);
      } else {
        SR.GrowingKeepsSound(j.timeline, last.call);
        ArrangingKeepsEvents(j.timeline, last.call);
      }
    }
  }

  // ---------------------------------------------------------------- Segments refine Events

  lemma SegmentInEvent(j: Joint, name: F.EventId -> string, s: T.SegmentId) returns (e: F.EventId)
    requires Injective(name) && Sound(j, name) && s in j.timeline.segments
    ensures e in j.tables.events && name(e) == j.timeline.segments[s].eventId
    ensures j.timeline.segments[s].members <= j.tables.events[e].members
  {
    var members := j.timeline.segments[s].members;
    var v :| v in members;
    e := j.tables.memberships[v];
    forall u | u in members ensures u in j.tables.events[e].members {
      assert j.timeline.memberships[u].segmentId == s && j.timeline.memberships[v].segmentId == s;
      assert j.timeline.eventOf[u] == j.timeline.eventOf[v];
      assert j.tables.memberships[u] == e;
    }
  }

  /** Every Segment lies within one live Event. */
  lemma SegmentsRefineEvents(calls: seq<Call>, name: F.EventId -> string, s: T.SegmentId) returns (e: F.EventId)
    requires Injective(name) && LegalRun(calls, name) && s in Run(calls, name).timeline.segments
    ensures var j := Run(calls, name);
      && e in j.tables.events && name(e) == j.timeline.segments[s].eventId
      && j.timeline.segments[s].members <= j.tables.events[e].members
  {
    RunIsSound(calls, name);
    e := SegmentInEvent(Run(calls, name), name, s);
  }

  /** A placed update is in the Event its Segment is of, and in exactly one Segment. */
  lemma OneSegmentOneEvent(j: Joint, name: F.EventId -> string, u: string, s: T.SegmentId)
    requires Sound(j, name) && u in j.timeline.memberships && s in j.timeline.segments
    ensures u in j.tables.memberships && name(j.tables.memberships[u]) == j.timeline.memberships[u].eventId
    ensures u in j.timeline.segments[s].members <==> s == j.timeline.memberships[u].segmentId
  {
    SR.ExactlyOneSegment(j.timeline, u, s);
  }

  /** From any reachable state, a pass leaves each update it takes in exactly one Segment, of the Event it is in. */
  lemma PassIsTotal(calls: seq<Call>, name: F.EventId -> string, pass: SR.Call, k: nat, s: T.SegmentId)
    requires Injective(name) && LegalRun(calls, name) && pass.Pass? && Legal(Run(calls, name), Arrange(pass))
    requires k < |pass.xs| && s in Step(Run(calls, name), Arrange(pass), name).timeline.segments
    ensures var x, j := pass.xs[k], Step(Run(calls, name), Arrange(pass), name);
      && x.id in j.tables.memberships && name(j.tables.memberships[x.id]) == pass.event
      && x.id in j.timeline.memberships && j.timeline.memberships[x.id].segmentId in j.timeline.segments
      && (x.id in j.timeline.segments[s].members <==> s == j.timeline.memberships[x.id].segmentId)
  {
    RunIsSound(calls, name);
    SoundPassIsTotal(Run(calls, name), name, pass, k, s);
  }

  lemma SoundPassIsTotal(before: Joint, name: F.EventId -> string, pass: SR.Call, k: nat, s: T.SegmentId)
    requires Sound(before, name) && pass.Pass? && Legal(before, Arrange(pass))
    requires k < |pass.xs| && s in Step(before, Arrange(pass), name).timeline.segments
    ensures var x, j := pass.xs[k], Step(before, Arrange(pass), name);
      && x.id in j.tables.memberships && name(j.tables.memberships[x.id]) == pass.event
      && x.id in j.timeline.memberships && j.timeline.memberships[x.id].segmentId in j.timeline.segments
      && (x.id in j.timeline.segments[s].members <==> s == j.timeline.memberships[x.id].segmentId)
  {
    var j := Step(before, Arrange(pass), name);
    SR.GrowingKeepsSound(before.timeline, pass);
    ArrangingKeepsEvents(before.timeline, pass);
    TakenIsPlaced(before.timeline, pass, k);
    OneSegmentOneEvent(j, name, pass.xs[k].id, s);
  }

  lemma TakenIsPlaced(t: T.Timeline, pass: SR.Call, k: nat)
    requires SR.Sound(t) && pass.Pass? && SR.Growing(t, pass) && k < |pass.xs|
    ensures var next := SR.Step(t, pass); pass.xs[k].id in next.memberships && next.memberships[pass.xs[k].id].eventId == pass.event
  {
    SP.ReconcilingKeeps(t);
    SR.PassPlaces(T.Reconciled(t), pass.event, pass.fps, pass.containers, pass.xs, pass.choices);
  }

  // ---------------------------------------------------------------- connected Segments

  ghost predicate ShadowRun(calls: seq<Call>, name: F.EventId -> string) {
    calls != [] ==>
      var init, last := calls[..|calls| - 1], calls[|calls| - 1];
      ShadowRun(init, name) && Legal(Run(init, name), last) && (last.Arrange? ==> SC.Shadowing(Run(init, name).timeline, last.call))
  }

  lemma {:induction false} ShadowRunIsLegal(calls: seq<Call>, name: F.EventId -> string)
    requires ShadowRun(calls, name)
    ensures LegalRun(calls, name)
  {
    if calls != [] {
      ShadowRunIsLegal(calls[..|calls| - 1], name);
    }
  }

  /** Without merges, and while no relation inside a live Segment is evicted, every Segment stays connected. */
  lemma {:induction false} ShadowRunConnected(calls: seq<Call>, name: F.EventId -> string)
    requires Injective(name) && ShadowRun(calls, name)
    ensures SC.Resting(Run(calls, name).timeline)
  {
    if calls != [] {
      var init, last := calls[..|calls| - 1], calls[|calls| - 1];
      ShadowRunConnected(init, name);
      ShadowRunIsLegal(init, name);
      RunIsSound(init, name);
      var j := Run(init, name);
      if last.Group? {
        GroupingKeepsWholeEvents(j.tables, last);
        NamesKeepWholeEvents(j.tables.memberships, GroupedTables(j.tables, last).memberships, last.kept, name);
        SC.StepKeepsResting(j.timeline, SR.Sync(EventNames(GroupedTables(j.tables, last).memberships, name)));
      } else {
        SC.StepKeepsResting(j.timeline, last.call);
      }
    }
  }

  // ---------------------------------------------------------------- such a run

  /** Nothing is placed yet, and Event Fusion has these memberships. */
  predicate Unplaced(t: T.Timeline, eventOf: map<string, string>) {
    t == SR.EMPTY.(eventOf := eventOf)
  }

  lemma SyncUnplaced(t: T.Timeline, before: map<string, string>, eventOf: map<string, string>)
    requires Unplaced(t, before)
    ensures Unplaced(SR.Step(t, SR.Sync(eventOf)), eventOf)
  {
    assert T.Stale(t.(eventOf := eventOf)) == {};
  }

  lemma GroupFirst(w: FR.Scene, call: Call)
    requires w.Distinct() && call == Group([w.X()], 0, {w.E()}, {w.a, w.b})
    ensures GroupedTables(F.EMPTY, call) == F.EMPTY.(fingerprints := [w.X()])
  {
    FR.First(w);
    assert [w.X()][..0] == [] && F.Trimmed([], {w.a, w.b}) == [];
    var next := GroupedTables(F.EMPTY, call);
    assert next.events == map[] && next.memberships == map[] && next.fingerprints == [w.X()];
  }

  lemma GroupSecond(w: FR.Scene, t: F.Tables, call: Call)
    requires w.Distinct() && call == Group([w.Y()], 0, {w.E()}, {w.a, w.b}) && t == F.EMPTY.(fingerprints := [w.X()])
    ensures GroupedTables(t, call).memberships == map[w.a := w.E(), w.b := w.E()]
  {
    FR.Second(w, t);
    assert F.Grouped(t, [w.Y()], 0).memberships == map[w.a := w.E(), w.b := w.E()];
  }

  lemma PassOnUnplaced(t: T.Timeline, eventOf: map<string, string>, x: T.Fingerprint)
    requires Unplaced(t, eventOf) && x.id in eventOf && eventOf[x.id] == x.eventId
    ensures var pass := SR.Pass(x.eventId, map[], {}, [x], [None]);
      && SR.Growing(t, pass)
      && T.SegmentId(x.eventId, {x.id}) in SR.Step(t, pass).segments
  {
    SyncUnplaced(t, eventOf, eventOf);
    assert t.(eventOf := eventOf) == t && T.Reconciled(t) == t;
    assert [x][..0] == [];
    assert T.LegalAt(t, x.eventId, map[], {}, [x], [None], 0);
  }

  /** Two updates that answer one another found an Event, and a pass over it seeds a Segment: a legal joint run. */
  lemma FirstSegment(w: FR.Scene, name: F.EventId -> string, x: T.Fingerprint) returns (calls: seq<Call>, s: T.SegmentId)
    requires w.Distinct() && x.id == w.a && x.eventId == name(w.E())
    ensures LegalRun(calls, name) && s in Run(calls, name).timeline.segments
  {
    var one, two := Group([w.X()], 0, {w.E()}, {w.a, w.b}), Group([w.Y()], 0, {w.E()}, {w.a, w.b});
    var pass := Arrange(SR.Pass(x.eventId, map[], {}, [x], [None]));
    GroupFirst(w, one);
    var j1 := Step(EMPTY, one, name);
    SyncUnplaced(SR.EMPTY, map[], EventNames(j1.tables.memberships, name));
    GroupSecond(w, j1.tables, two);
    var j2 := Step(j1, two, name);
    SyncUnplaced(j1.timeline, EventNames(j1.tables.memberships, name), EventNames(j2.tables.memberships, name));
    PassOnUnplaced(j2.timeline, EventNames(j2.tables.memberships, name), x);
    s := T.SegmentId(x.eventId, {x.id});
    calls := ThreeCalls(one, two, pass, name);
  }

  lemma ThreeCalls(a: Call, b: Call, c: Call, name: F.EventId -> string) returns (calls: seq<Call>)
    requires Legal(EMPTY, a) && Legal(Step(EMPTY, a, name), b) && Legal(Step(Step(EMPTY, a, name), b, name), c)
    ensures LegalRun(calls, name) && Run(calls, name) == Step(Step(Step(EMPTY, a, name), b, name), c, name)
  {
    calls := RunOn([], a, name);
    calls := RunOn(calls, b, name);
    calls := RunOn(calls, c, name);
  }

  lemma RunOn(calls: seq<Call>, call: Call, name: F.EventId -> string) returns (longer: seq<Call>)
    requires LegalRun(calls, name) && Legal(Run(calls, name), call)
    ensures LegalRun(longer, name) && Run(longer, name) == Step(Run(calls, name), call, name)
  {
    longer := calls + [call];
    assert longer[..|calls|] == calls;
  }
}
