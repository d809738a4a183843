/**
 Shadow-only runs of the timeline: passes over Events, growing Event memberships, and the eviction of Events, Segments
 and relations; no manual operation and no removal. Every Segment stays connected by stored attaching relations as long
 as no relation inside a live Segment is evicted.
 */
module SegmentConnectivity {
  import opened Common
  import opened EventTimeline
  import opened SegmentProof
  import opened SegmentRuns

  // ---------------------------------------------------------------- paths

  /** A stored relation between the two updates that attaches them. */
  predicate Edge(t: Timeline, event: string, u: string, v: string) {
    var id := RelationId(event, {u, v});
    id in t.relations && Attaches(t.relations[id].relationship)
  }

  ghost predicate Path(t: Timeline, event: string, members: set<string>, p: seq<string>) {
    && p != []
    && (forall i :: 0 <= i < |p| ==> p[i] in members)
    && (forall i :: 0 <= i < |p| - 1 ==> Edge(t, event, p[i], p[i + 1]))
  }

  ghost predicate PathBetween(t: Timeline, event: string, members: set<string>, p: seq<string>, u: string, v: string) {
    Path(t, event, members, p) && p[0] == u && p[|p| - 1] == v
  }

  ghost predicate Linked(t: Timeline, event: string, members: set<string>, u: string, v: string) {
    exists p :: PathBetween(t, event, members, p, u, v)
  }

  /** Any two members of a Segment are joined by a path of attaching relations inside the Segment. */
  ghost predicate SegmentConnected(t: Timeline, s: SegmentId)
    requires s in t.segments
  {
    forall u, v :: u in t.segments[s].members && v in t.segments[s].members
                   ==> Linked(t, t.segments[s].eventId, t.segments[s].members, u, v)
  }

  ghost predicate Connected(t: Timeline) {
    forall s :: s in t.segments ==> SegmentConnected(t, s)
  }

  /** More relations and more members keep every path. */
  lemma LinkedGrows(t: Timeline, next: Timeline, event: string, members: set<string>, more: set<string>, u: string, v: string)
    requires Linked(t, event, members, u, v) && members <= more
    requires forall r :: r in t.relations ==> r in next.relations && next.relations[r] == t.relations[r]
    ensures Linked(next, event, more, u, v)
  {
    var p :| PathBetween(t, event, members, p, u, v);
    assert PathBetween(next, event, more, p, u, v) by {
      forall i | 0 <= i < |p| - 1 ensures Edge(next, event, p[i], p[i + 1]) {
        assert Edge(t, event, p[i], p[i + 1]);
      }
    }
  }

  lemma LinkedSelf(t: Timeline, event: string, members: set<string>, u: string)
    requires u in members
    ensures Linked(t, event, members, u, u)
  {
    assert PathBetween(t, event, members, [u], u, u);
  }

  lemma LinkedExtends(t: Timeline, event: string, members: set<string>, u: string, o: string, x: string)
    requires Linked(t, event, members, u, o) && Edge(t, event, o, x) && x in members
    ensures Linked(t, event, members, u, x)
  {
    var p :| PathBetween(t, event, members, p, u, o);
    assert PathBetween(t, event, members, p + [x], u, x);
  }

  lemma LinkedPrepends(t: Timeline, event: string, members: set<string>, x: string, o: string, u: string)
    requires Linked(t, event, members, o, u) && Edge(t, event, o, x) && x in members
    ensures Linked(t, event, members, x, u)
  {
    var p :| PathBetween(t, event, members, p, o, u);
    assert {x, o} == {o, x};
    assert Edge(t, event, x, o);
    var q := [x] + p;
    forall i | 0 <= i < |q| - 1 ensures Edge(t, event, q[i], q[i + 1]) {
      if i > 0 { assert q[i] == p[i - 1] && q[i + 1] == p[i]; }
    }
    assert PathBetween(t, event, members, q, x, u);
  }

  // ---------------------------------------------------------------- the shadow invariant

  /** A stored relation is about its pair, and names the Segments its ends are in, of those that are placed. */
  predicate Fits(t: Timeline, r: RelationId)
    requires r in t.relations
  {
    var x := t.relations[r];
    && r.pair == {x.left, x.right}
    && (x.left in t.memberships ==> x.leftSegment == Some(t.memberships[x.left].segmentId))
    && (x.right in t.memberships ==> x.rightSegment == Some(t.memberships[x.right].segmentId))
  }

  ghost predicate RelationsFit(t: Timeline) {
    forall r :: r in t.relations ==> Fits(t, r)
  }

  /** Every stored relation fits, and both its ends are placed. */
  ghost predicate RelationsKnown(t: Timeline) {
    forall r :: r in t.relations ==> Fits(t, r) && t.relations[r].left in t.memberships && t.relations[r].right in t.memberships
  }

  /** Between calls: an eviction can leave relations without their ends, which the next reconciliation drops. */
  ghost predicate Resting(t: Timeline) {
    Partition(t) && UpToDate(t) && Rooted(t) && RelationsFit(t) && Connected(t)
  }

  ghost predicate Shadow(t: Timeline) {
    Partition(t) && UpToDate(t) && Rooted(t) && RelationsKnown(t) && Connected(t)
  }

  /** Placed updates stay where they are, Segments only gain members, relations are kept. */
  ghost predicate Grows(t: Timeline, next: Timeline) {
    && next.eventOf == t.eventOf
    && (forall u :: u in t.memberships ==> u in next.memberships && next.memberships[u] == t.memberships[u])
    && (forall s :: s in t.segments ==> s in next.segments && t.segments[s].members <= next.segments[s].members
                                        && next.segments[s].eventId == t.segments[s].eventId)
    && (forall r :: r in t.relations ==> r in next.relations && next.relations[r] == t.relations[r])
  }

  lemma RelationIsFresh(t: Timeline, event: string, u: string, other: string)
    requires RelationsKnown(t) && u !in t.memberships
    ensures RelationId(event, {u, other}) !in t.relations
  {
    var id := RelationId(event, {u, other});
    assert u in id.pair;
    assert forall r :: r in t.relations && u in r.pair ==> u in t.memberships;
  }

  lemma SeedingKeeps(t: Timeline, event: string, u: string)
    requires Shadow(t) && u !in t.memberships && u in t.eventOf && t.eventOf[u] == event
    ensures Shadow(Seeded(t, event, u)) && Grows(t, Seeded(t, event, u))
  {
    SeedIsFresh(t, event, u);
    SeedingKeepsPartitionIff(t, event, u);
    SeedingGrows(t, event, u);
    SeedingKeepsRoots(t, event, u);
    var next := Seeded(t, event, u);
    forall s | s in next.segments ensures SegmentConnected(next, s) {
      if s in t.segments {
        SegmentStaysConnected(t, next, s);
      } else {
        LinkedSelf(next, event, {u}, u);
      }
    }
  }

  lemma SeedingGrows(t: Timeline, event: string, u: string)
    requires u !in t.memberships && SegmentId(event, {u}) !in t.segments
    ensures Grows(t, Seeded(t, event, u))
    ensures forall s :: s in t.segments ==> s in Seeded(t, event, u).segments && Seeded(t, event, u).segments[s] == t.segments[s]
  {
  }

  lemma SeedingKeepsRoots(t: Timeline, event: string, u: string)
    requires Rooted(t) && RelationsKnown(t) && u !in t.memberships && SegmentId(event, {u}) !in t.segments
    requires UpToDate(t) && u in t.eventOf && t.eventOf[u] == event
    ensures Rooted(Seeded(t, event, u)) && RelationsKnown(Seeded(t, event, u)) && UpToDate(Seeded(t, event, u))
  {
  }

  lemma SegmentStaysConnected(t: Timeline, next: Timeline, s: SegmentId)
    requires s in t.segments && SegmentConnected(t, s) && s in next.segments
    requires next.segments[s].members == t.segments[s].members && next.segments[s].eventId == t.segments[s].eventId
    requires forall r :: r in t.relations ==> r in next.relations && next.relations[r] == t.relations[r]
    ensures SegmentConnected(next, s)
  {
    var event, members := t.segments[s].eventId, t.segments[s].members;
    forall u, v | u in members && v in members ensures Linked(next, event, members, u, v) {
      LinkedGrows(t, next, event, members, members, u, v);
    }
  }

  /** Storing a relation between two placed updates that had none. */
  lemma RelatingKeeps(t: Timeline, x: Fingerprint, other: string, c: Candidate)
    requires Shadow(t) && x.id in t.memberships && other in t.memberships
    requires RelationId(x.eventId, {x.id, other}) !in t.relations
    ensures Shadow(Related(t, x, other, c)) && Grows(t, Related(t, x, other, c))
  {
    var next := Related(t, x, other, c);
    RelatedGrows(t, x, other, c);
    RelationsApart(t, next);
    RelatingKeepsConnected(t, x, other, c);
  }

  lemma RelatingKeepsConnected(t: Timeline, x: Fingerprint, other: string, c: Candidate)
    requires Connected(t) && RelationId(x.eventId, {x.id, other}) !in t.relations
    ensures Connected(Related(t, x, other, c))
  {
    var next := Related(t, x, other, c);
    forall s | s in next.segments ensures SegmentConnected(next, s) {
      SegmentStaysConnected(t, next, s);
    }
  }

  /** Attaching to a Segment and storing the relation that justified it. */
  lemma AttachingKeepsShadow(t: Timeline, s: SegmentId, x: Fingerprint, other: string, c: Candidate)
    requires Shadow(t) && s in t.segments && other in t.segments[s].members && x.id !in t.memberships
    requires x.eventId == t.segments[s].eventId && x.id in t.eventOf && t.eventOf[x.id] == x.eventId && Attaches(c.relationship)
    ensures Shadow(Related(Attached(t, s, x, c), x, other, c)) && Grows(t, Related(Attached(t, s, x, c), x, other, c))
  {
    var next := Related(Attached(t, s, x, c), x, other, c);
    RelationIsFresh(t, x.eventId, x.id, other);
    AttachedShape(t, s, x, other, c);
    forall r | r in next.segments ensures SegmentConnected(next, r) {
      if r == s {
        JoinedSegmentConnected(t, next, s, x.id, other);
      } else {
        SegmentStaysConnected(t, next, r);
      }
    }
  }

  /** All of the invariant but connectivity, and what the step changed. */
  lemma AttachedShape(t: Timeline, s: SegmentId, x: Fingerprint, other: string, c: Candidate)
    requires Partition(t) && UpToDate(t) && Rooted(t) && RelationsKnown(t)
    requires s in t.segments && other in t.segments[s].members && x.id !in t.memberships
    requires x.eventId == t.segments[s].eventId && x.id in t.eventOf && t.eventOf[x.id] == x.eventId && Attaches(c.relationship)
    requires RelationId(x.eventId, {x.id, other}) !in t.relations
    ensures var next := Related(Attached(t, s, x, c), x, other, c);
            && Partition(next) && UpToDate(next) && Rooted(next) && RelationsKnown(next) && Grows(t, next)
            && next.segments.Keys == t.segments.Keys
            && next.segments[s].members == t.segments[s].members + {x.id} && next.segments[s].eventId == t.segments[s].eventId
            && (forall r :: r in t.segments && r != s ==> next.segments[r] == t.segments[r])
            && Edge(next, x.eventId, x.id, other)
  {
    var mid := Attached(t, s, x, c);
    AttachedGrows(t, s, x, c);
    assert x.id in mid.memberships && other in mid.memberships && mid.relations == t.relations;
    var next := Related(mid, x, other, c);
    RelatedGrows(mid, x, other, c);
    GrowsTransitive(t, mid, next);
    RelationsApart(mid, next);
  }

  /** The other invariants do not look at relations. */
  lemma RelationsApart(t: Timeline, next: Timeline)
    requires Partition(t) && UpToDate(t) && Rooted(t)
    requires next == t.(relations := next.relations)
    ensures Partition(next) && UpToDate(next) && Rooted(next)
  {
  }

  lemma AttachedGrows(t: Timeline, s: SegmentId, x: Fingerprint, c: Candidate)
    requires Partition(t) && UpToDate(t) && Rooted(t) && RelationsKnown(t)
    requires s in t.segments && x.id !in t.memberships
    requires x.eventId == t.segments[s].eventId && x.id in t.eventOf && t.eventOf[x.id] == x.eventId
    ensures var mid := Attached(t, s, x, c);
            && Partition(mid) && UpToDate(mid) && Rooted(mid) && RelationsKnown(mid) && Grows(t, mid)
  {
    AttachingKeeps(t, s, x, c);
    AttachedKnowsRelations(t, s, x, c);
  }

  lemma AttachedKnowsRelations(t: Timeline, s: SegmentId, x: Fingerprint, c: Candidate)
    requires RelationsKnown(t) && s in t.segments && x.id !in t.memberships
    ensures RelationsKnown(Attached(t, s, x, c)) && Grows(t, Attached(t, s, x, c))
  {
    assert Attached(t, s, x, c).segments.Keys == t.segments.Keys;
  }

  lemma RelatedGrows(t: Timeline, x: Fingerprint, other: string, c: Candidate)
    requires RelationsKnown(t) && Partition(t) && x.id in t.memberships && other in t.memberships
    requires RelationId(x.eventId, {x.id, other}) !in t.relations
    ensures RelationsKnown(Related(t, x, other, c)) && Grows(t, Related(t, x, other, c))
    ensures Attaches(c.relationship) ==> Edge(Related(t, x, other, c), x.eventId, x.id, other)
  {
  }

  lemma JoinedSegmentConnected(t: Timeline, next: Timeline, s: SegmentId, x: string, other: string)
    requires s in t.segments && SegmentConnected(t, s) && other in t.segments[s].members && s in next.segments
    requires next.segments[s].members == t.segments[s].members + {x} && next.segments[s].eventId == t.segments[s].eventId
    requires forall r :: r in t.relations ==> r in next.relations && next.relations[r] == t.relations[r]
    requires Edge(next, t.segments[s].eventId, x, other)
    ensures SegmentConnected(next, s)
  {
    var event, members, more := t.segments[s].eventId, t.segments[s].members, next.segments[s].members;
    assert {other, x} == {x, other};
    assert Edge(next, event, other, x);
    forall u, v | u in more && v in more ensures Linked(next, event, more, u, v) {
      if u in members && v in members {
        LinkedGrows(t, next, event, members, more, u, v);
      } else if u in members {
        LinkedGrows(t, next, event, members, more, u, other);
        LinkedExtends(next, event, more, u, other, x);
      } else if v in members {
        LinkedGrows(t, next, event, members, more, other, v);
        LinkedPrepends(next, event, more, x, other, v);
      } else {
        LinkedSelf(next, event, more, x);
      }
    }
  }

  // ---------------------------------------------------------------- a pass

  lemma PlacingKeeps(t: Timeline, event: string, fps: map<string, Fingerprint>, containers: set<string>, x: Fingerprint, choice: Option<Choice>)
    requires Shadow(t) && LegalOne(t, event, fps, containers, x, choice)
    ensures Shadow(Placed(t, event, x, choice)) && Grows(t, Placed(t, event, x, choice))
  {
    if x.id !in t.memberships {
      match choice
      case None => SeedingKeeps(t, event, x.id);
      case Some(c) =>
        assert Offered(t, event, fps, containers, x, c);
        assert c.candidate.same ==> Attaches(c.candidate.relationship);
        if c.candidate.same {
          AttachingKeepsShadow(t, c.segment, x, c.other, c.candidate);
        } else {
          SeparatingKeeps(t, event, x, c);
        }
    }
  }

  /** A match that does not attach: a Segment of its own, and the relation. */
  lemma SeparatingKeeps(t: Timeline, event: string, x: Fingerprint, c: Choice)
    requires Shadow(t) && OfEvent(t, event, x) && x.id !in t.memberships && c.other in t.memberships
    ensures var next := Related(Seeded(t, event, x.id), x, c.other, c.candidate); Shadow(next) && Grows(t, next)
  {
    var seeded := Seeded(t, event, x.id);
    SeedingKeeps(t, event, x.id);
    RelationIsFresh(t, x.eventId, x.id, c.other);
    RelatingKeeps(seeded, x, c.other, c.candidate);
    GrowsTransitive(t, seeded, Related(seeded, x, c.other, c.candidate));
  }

  lemma GrowsTransitive(x: Timeline, y: Timeline, z: Timeline)
    requires Grows(x, y) && Grows(y, z)
    ensures Grows(x, z)
  {
  }

  /** A pass keeps every Segment connected, and only adds to them. */
  lemma {:induction false} PassKeepsShadow(t: Timeline, event: string, fps: map<string, Fingerprint>, containers: set<string>,
                                           xs: seq<Fingerprint>, choices: seq<Option<Choice>>)
    requires Shadow(t) && LegalPass(t, event, fps, containers, xs, choices)
    ensures Shadow(PlacedAll(t, event, xs, choices)) && Grows(t, PlacedAll(t, event, xs, choices))
  {
    if xs != [] {
      var n := |xs| - 1;
      LegalPrefix(t, event, fps, containers, xs, choices);
      PassKeepsShadow(t, event, fps, containers, xs[..n], choices[..n]);
      var before := PlacedAll(t, event, xs[..n], choices[..n]);
      PlacingKeeps(before, event, fps, containers, xs[n], choices[n]);
      GrowsTransitive(t, before, PlacedAll(t, event, xs, choices));
    }
  }

  // ---------------------------------------------------------------- reconciliation and eviction

  /** Paths inside a Segment stay as long as the relations between its members do. */
  lemma SegmentKeepsLinks(t: Timeline, next: Timeline, s: SegmentId)
    requires s in t.segments && SegmentConnected(t, s) && s in next.segments
    requires next.segments[s].members == t.segments[s].members && next.segments[s].eventId == t.segments[s].eventId
    requires forall r :: r in t.relations && r.pair <= t.segments[s].members ==> r in next.relations && next.relations[r] == t.relations[r]
    ensures SegmentConnected(next, s)
  {
    var event, members := t.segments[s].eventId, t.segments[s].members;
    forall u, v | u in members && v in members ensures Linked(next, event, members, u, v) {
      var p :| PathBetween(t, event, members, p, u, v);
      forall i | 0 <= i < |p| - 1 ensures Edge(next, event, p[i], p[i + 1]) {
        assert Edge(t, event, p[i], p[i + 1]);
      }
      assert PathBetween(next, event, members, p, u, v);
    }
  }

  /** Relations between members of a Segment that survives a reconciliation survive it. */
  lemma InnerRelationsStay(t: Timeline, eventOf: map<string, string>, s: SegmentId, r: RelationId)
    requires Partition(t) && UpToDate(t) && WholeEvents(t.eventOf, eventOf) && RelationsFit(t)
    requires s in Reconciled(t.(eventOf := eventOf)).segments && s in t.segments
    requires r in t.relations && r.pair <= t.segments[s].members
    ensures r in Reconciled(t.(eventOf := eventOf)).relations
  {
    SyncedShape(t, eventOf);
    InnerEnds(t, s, r);
    LiveRelationsStay(t.(eventOf := eventOf), r);
  }

  lemma InnerEnds(t: Timeline, s: SegmentId, r: RelationId)
    requires Partition(t) && s in t.segments && r in t.relations && Fits(t, r) && r.pair <= t.segments[s].members
    ensures var x := t.relations[r];
      && x.left in t.memberships && t.memberships[x.left].segmentId == s && x.leftSegment == Some(s)
      && x.right in t.memberships && t.memberships[x.right].segmentId == s && x.rightSegment == Some(s)
  {
    assert t.relations[r].left in r.pair && t.relations[r].right in r.pair;
  }

  lemma LiveRelationsStay(t: Timeline, r: RelationId)
    requires r in t.relations && RelationLive(t.relations[r], Reconciled(t).segments.Keys, Reconciled(t).memberships.Keys)
    ensures r in Reconciled(t).relations
  {
  }

  lemma SyncedRelationsKnown(t: Timeline, eventOf: map<string, string>)
    requires Partition(t) && UpToDate(t) && WholeEvents(t.eventOf, eventOf) && RelationsFit(t)
    ensures RelationsKnown(Reconciled(t.(eventOf := eventOf)))
  {
    SyncedShape(t, eventOf);
    var next := Reconciled(t.(eventOf := eventOf));
    forall r | r in next.relations ensures Fits(next, r) && next.relations[r].left in next.memberships && next.relations[r].right in next.memberships {
      assert Fits(t, r);
    }
  }

  /** Whole Events may go: their Segments go with them, and the others stay connected. */
  lemma SyncingKeepsShadow(t: Timeline, eventOf: map<string, string>)
    requires Resting(t) && WholeEvents(t.eventOf, eventOf)
    ensures Shadow(Reconciled(t.(eventOf := eventOf)))
  {
    SyncingKeepsSound(t, eventOf);
    SyncedShape(t, eventOf);
    SyncedRelationsKnown(t, eventOf);
    var next := Reconciled(t.(eventOf := eventOf));
    forall s | s in next.segments ensures SegmentConnected(next, s) {
      forall r | r in t.relations && r.pair <= t.segments[s].members ensures r in next.relations && next.relations[r] == t.relations[r] {
        InnerRelationsStay(t, eventOf, s, r);
      }
      SegmentKeepsLinks(t, next, s);
    }
  }

  lemma ReconcilingKeepsShadow(t: Timeline)
    requires Resting(t)
    ensures Shadow(Reconciled(t))
  {
    assert t.(eventOf := t.eventOf) == t;
    SyncingKeepsShadow(t, t.eventOf);
  }

  /** An eviction keeps the relations inside the Segments it keeps. */
  ghost predicate KeepsInner(t: Timeline, kept: set<SegmentId>, keptRelations: set<RelationId>) {
    forall s, r :: s in t.segments && s in kept && r in t.relations && r.pair <= t.segments[s].members ==> r in keptRelations
  }

  lemma EvictingKeepsResting(t: Timeline, kept: set<SegmentId>, keptRelations: set<RelationId>)
    requires Resting(t) && KeepsInner(t, kept, keptRelations)
    ensures Resting(Pruned(t, kept, keptRelations))
  {
    var next := Pruned(t, kept, keptRelations);
    PruningKeeps(t, kept, keptRelations);
    assert forall r :: r in next.relations ==> Fits(t, r);
    forall s | s in next.segments ensures SegmentConnected(next, s) {
      SegmentKeepsLinks(t, next, s);
    }
  }

  /** The condition cannot be dropped: an update none of whose relations is kept is cut off from its Segment. */
  lemma EvictingLinksCutsOff(t: Timeline, kept: set<SegmentId>, keptRelations: set<RelationId>, s: SegmentId, u: string, v: string)
    requires s in t.segments && s in kept && u in t.segments[s].members && v in t.segments[s].members && u != v
    requires forall r :: r in keptRelations ==> u !in r.pair
    ensures !Connected(Pruned(t, kept, keptRelations))
  {
    var next := Pruned(t, kept, keptRelations);
    var event, members := t.segments[s].eventId, t.segments[s].members;
    forall w ensures !Edge(next, event, u, w) {
      assert u in RelationId(event, {u, w}).pair;
    }
    forall p ensures !PathBetween(next, event, members, p, u, v) {
      assert |p| > 1 ==> !Edge(next, event, u, p[1]);
    }
    assert !Linked(next, event, members, u, v);
    assert s in next.segments && (Connected(next) ==> SegmentConnected(next, s));
  }

  lemma NumberingKeepsResting(t: Timeline, order: seq<SegmentId>)
    requires Resting(t)
    ensures Resting(Numbered(t, order))
  {
    var next := Numbered(t, order);
    NumberingIsApart(t, order);
    assert forall r :: r in next.relations ==> Fits(t, r);
    forall s | s in next.segments ensures SegmentConnected(next, s) {
      SegmentStaysConnected(t, next, s);
    }
  }

  lemma RegroupingKeepsResting(t: Timeline, eventOf: map<string, string>)
    requires Resting(t) && forall u :: u in t.eventOf ==> StaysIn(t.eventOf, eventOf, u)
    ensures Resting(t.(eventOf := eventOf))
  {
    var next := t.(eventOf := eventOf);
    assert forall r :: r in next.relations ==> Fits(t, r);
    forall s | s in next.segments ensures SegmentConnected(next, s) {
      SegmentStaysConnected(t, next, s);
    }
  }

  // ---------------------------------------------------------------- runs

  /** What the program does without manual operations, removals, and evictions of relations inside live Segments. */
  ghost predicate Shadowing(t: Timeline, call: Call) {
    && Growing(t, call) && !call.Merge?
    && (call.Evict? ==> KeepsInner(t, call.kept, call.keptRelations))
  }

  ghost predicate ShadowRun(calls: seq<Call>) {
    calls != [] ==> ShadowRun(calls[..|calls| - 1]) && Shadowing(Run(calls[..|calls| - 1]), calls[|calls| - 1])
  }

  lemma ShadowRests(t: Timeline)
    requires Shadow(t)
    ensures Resting(t)
  {
  }

  lemma StepKeepsResting(t: Timeline, call: Call)
    requires Resting(t) && Shadowing(t, call)
    ensures Resting(Step(t, call))
  {
    match call
    case Pass(event, fps, containers, xs, choices) =>
      ReconcilingKeepsShadow(t);
      PassKeepsShadow(Reconciled(t), event, fps, containers, xs, choices);
      ShadowRests(PlacedAll(Reconciled(t), event, xs, choices));
    case Regroup(eventOf) => RegroupingKeepsResting(t, eventOf);
    case Sync(eventOf) =>
      SyncingKeepsShadow(t, eventOf);
      ShadowRests(Reconciled(t.(eventOf := eventOf)));
    case Number(order) => NumberingKeepsResting(t, order);
    case Evict(kept, keptRelations) => EvictingKeepsResting(t, kept, keptRelations);
  }

  /** In every such run the maps are inverse and every Segment is connected by stored attaching relations. */
  lemma {:induction false} ShadowRunConnected(calls: seq<Call>)
    requires ShadowRun(calls)
    ensures Partition(Run(calls)) && Connected(Run(calls)) && Resting(Run(calls))
  {
    if calls != [] {
      ShadowRunConnected(calls[..|calls| - 1]);
      StepKeepsResting(Run(calls[..|calls| - 1]), calls[|calls| - 1]);
    }
  }
}
