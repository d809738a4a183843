/**
 Passes and whole runs of the timeline, manual operations, removals and evictions among them.

 A pass places every fingerprint it takes; it keeps the maps inverse exactly when no Segment it seeds is in use. That
 is free while every Segment holds the updates its id is derived from, which shadow passes, evictions and merges keep.
 */
module SegmentRuns {
  import opened Common
  import opened EventTimeline
  import opened SegmentProof

  // ---------------------------------------------------------------- placing one update

  /** The pass takes fingerprints of current members of the Event. */
  predicate OfEvent(t: Timeline, event: string, x: Fingerprint) {
    x.eventId == event && x.id in t.eventOf && t.eventOf[x.id] == event
  }

  /** The update gets a Segment of its own. */
  predicate Seeds(t: Timeline, x: Fingerprint, choice: Option<Choice>) {
    x.id !in t.memberships && (choice.None? || !choice.value.candidate.same)
  }

  predicate SeedUnused(t: Timeline, event: string, x: Fingerprint, choice: Option<Choice>) {
    Seeds(t, x, choice) ==> SegmentId(event, {x.id}) !in t.segments
  }

  ghost predicate LegalOne(t: Timeline, event: string, fps: map<string, Fingerprint>, containers: set<string>, x: Fingerprint, choice: Option<Choice>) {
    && OfEvent(t, event, x) && (forall u :: u in fps ==> fps[u].id == u)
    && (x.id !in t.memberships ==> Legal(t, event, fps, containers, x, choice))
  }

  /** An update whose membership names a Segment without it. */
  predicate Orphan(t: Timeline, v: string) {
    v in t.memberships && t.memberships[v].segmentId in t.segments && v !in t.segments[t.memberships[v].segmentId].members
  }

  lemma OrphansBreakPartition(t: Timeline, v: string)
    requires Orphan(t, v)
    ensures !Partition(t)
  {
  }

  lemma RelatingIsApart(t: Timeline, x: Fingerprint, other: string, c: Candidate)
    ensures Partition(Related(t, x, other, c)) <==> Partition(t)
    ensures UpToDate(Related(t, x, other, c)) <==> UpToDate(t)
    ensures forall v :: Orphan(Related(t, x, other, c), v) <==> Orphan(t, v)
  {
  }

  lemma OverwritingOrphans(t: Timeline, event: string, u: string) returns (v: string)
    requires Partition(t) && u !in t.memberships && SegmentId(event, {u}) in t.segments
    ensures Orphan(Seeded(t, event, u), v)
  {
    var id := SegmentId(event, {u});
    v :| v in t.segments[id].members;
    assert t.memberships[v].segmentId == id && v != u;
  }

  /** Placing an update keeps the maps inverse exactly when it seeds no Segment whose id is in use; else it orphans somebody. */
  lemma PlacingKeepsPartitionIff(t: Timeline, event: string, fps: map<string, Fingerprint>, containers: set<string>, x: Fingerprint, choice: Option<Choice>)
    requires Partition(t) && LegalOne(t, event, fps, containers, x, choice)
    ensures SeedUnused(t, event, x, choice) ==> Partition(Placed(t, event, x, choice))
    ensures !SeedUnused(t, event, x, choice) ==> exists v :: Orphan(Placed(t, event, x, choice), v)
  {
    if Seeds(t, x, choice) {
      assert choice.Some? ==> Offered(t, event, fps, containers, x, choice.value);
      PlacingSeeds(t, event, x, choice);
    } else if x.id !in t.memberships {
      PlacingAttaches(t, event, x, choice.value);
    }
  }

  lemma PlacingSeeds(t: Timeline, event: string, x: Fingerprint, choice: Option<Choice>)
    requires Partition(t) && Seeds(t, x, choice) && (choice.Some? ==> choice.value.segment in t.segments)
    ensures SeedUnused(t, event, x, choice) ==> Partition(Placed(t, event, x, choice))
    ensures !SeedUnused(t, event, x, choice) ==> exists v :: Orphan(Placed(t, event, x, choice), v)
  {
    SeedingKeepsPartitionIff(t, event, x.id);
    if choice.Some? {
      RelatingIsApart(Seeded(t, event, x.id), x, choice.value.other, choice.value.candidate);
    }
    if !SeedUnused(t, event, x, choice) {
      var v := OverwritingOrphans(t, event, x.id);
      assert Orphan(Placed(t, event, x, choice), v);
    }
  }

  lemma PlacingAttaches(t: Timeline, event: string, x: Fingerprint, c: Choice)
    requires Partition(t) && x.id !in t.memberships && c.candidate.same && c.segment in t.segments && t.segments[c.segment].eventId == x.eventId
    ensures Partition(Placed(t, event, x, Some(c)))
  {
    AttachingKeeps(t, c.segment, x, c.candidate);
    RelatingIsApart(Attached(t, c.segment, x, c.candidate), x, c.other, c.candidate);
  }

  /** Whatever the state, the update is placed and nobody placed before is moved. */
  lemma PlacingPlaces(t: Timeline, event: string, fps: map<string, Fingerprint>, containers: set<string>, x: Fingerprint, choice: Option<Choice>)
    requires UpToDate(t) && LegalOne(t, event, fps, containers, x, choice)
    ensures var next := Placed(t, event, x, choice);
      && next.eventOf == t.eventOf && UpToDate(next)
      && x.id in next.memberships && next.memberships[x.id].eventId == event
      && (forall u :: u in t.memberships ==> u in next.memberships && next.memberships[u] == t.memberships[u])
  {
  }

  lemma OrphansStay(t: Timeline, event: string, x: Fingerprint, choice: Option<Choice>, v: string)
    requires Orphan(t, v)
    ensures Orphan(Placed(t, event, x, choice), v)
  {
  }

  // ---------------------------------------------------------------- a pass

  ghost predicate LegalPass(t: Timeline, event: string, fps: map<string, Fingerprint>, containers: set<string>,
                            xs: seq<Fingerprint>, choices: seq<Option<Choice>>) {
    && |choices| == |xs| && LegalAll(t, event, fps, containers, xs, choices)
    && (forall k :: 0 <= k < |xs| ==> OfEvent(t, event, xs[k]))
    && (forall u :: u in fps ==> fps[u].id == u)
  }

  /** No Segment the pass seeds is in use when it does. */
  predicate SeedsUnused(t: Timeline, event: string, xs: seq<Fingerprint>, choices: seq<Option<Choice>>)
    requires |xs| == |choices|
  {
    xs != [] ==>
      var n := |xs| - 1;
      SeedsUnused(t, event, xs[..n], choices[..n]) && SeedUnused(PlacedAll(t, event, xs[..n], choices[..n]), event, xs[n], choices[n])
  }

  lemma LegalPrefix(t: Timeline, event: string, fps: map<string, Fingerprint>, containers: set<string>,
                    xs: seq<Fingerprint>, choices: seq<Option<Choice>>)
    requires xs != [] && LegalPass(t, event, fps, containers, xs, choices)
    ensures LegalPass(t, event, fps, containers, xs[..|xs| - 1], choices[..|xs| - 1])
    ensures LegalAt(t, event, fps, containers, xs, choices, |xs| - 1)
  {
    var n := |xs| - 1;
    forall k | 0 <= k < n ensures LegalAt(t, event, fps, containers, xs[..n], choices[..n], k) {
      assert LegalAt(t, event, fps, containers, xs, choices, k);
      assert xs[..n][..k] == xs[..k] && choices[..n][..k] == choices[..k];
    }
  }

  /**
   A pass places every update it takes, in the Event, and moves nobody, whatever the state of the maps; so does the
   next legal step after it.
   */
  lemma {:induction false} PassPlaces(t: Timeline, event: string, fps: map<string, Fingerprint>, containers: set<string>,
                                      xs: seq<Fingerprint>, choices: seq<Option<Choice>>)
    requires UpToDate(t) && LegalPass(t, event, fps, containers, xs, choices)
    ensures var next := PlacedAll(t, event, xs, choices);
      && next.eventOf == t.eventOf && UpToDate(next)
      && (forall k :: 0 <= k < |xs| ==> xs[k].id in next.memberships && next.memberships[xs[k].id].eventId == event)
      && (forall u :: u in t.memberships ==> u in next.memberships && next.memberships[u] == t.memberships[u])
  {
    if xs != [] {
      var n := |xs| - 1;
      LegalPrefix(t, event, fps, containers, xs, choices);
      PassPlaces(t, event, fps, containers, xs[..n], choices[..n]);
      var before := PlacedAll(t, event, xs[..n], choices[..n]);
      PlacingPlaces(before, event, fps, containers, xs[n], choices[n]);
      forall k | 0 <= k < n ensures xs[k].id in before.memberships && before.memberships[xs[k].id].eventId == event {
        assert xs[..n][k] == xs[k];
      }
    }
  }

  /** A pass keeps the maps inverse exactly when it seeds no Segment whose id is in use. */
  lemma {:induction false} PassKeepsPartitionIff(t: Timeline, event: string, fps: map<string, Fingerprint>, containers: set<string>,
                                                 xs: seq<Fingerprint>, choices: seq<Option<Choice>>)
    requires Partition(t) && UpToDate(t) && LegalPass(t, event, fps, containers, xs, choices)
    ensures SeedsUnused(t, event, xs, choices) ==> Partition(PlacedAll(t, event, xs, choices))
    ensures !SeedsUnused(t, event, xs, choices) ==> exists v :: Orphan(PlacedAll(t, event, xs, choices), v)
    ensures Partition(PlacedAll(t, event, xs, choices)) <==> SeedsUnused(t, event, xs, choices)
  {
    if xs != [] {
      var n := |xs| - 1;
      LegalPrefix(t, event, fps, containers, xs, choices);
      PassKeepsPartitionIff(t, event, fps, containers, xs[..n], choices[..n]);
      PassPlaces(t, event, fps, containers, xs[..n], choices[..n]);
      var before := PlacedAll(t, event, xs[..n], choices[..n]);
      if SeedsUnused(t, event, xs[..n], choices[..n]) {
        PlacingKeepsPartitionIff(before, event, fps, containers, xs[n], choices[n]);
      } else {
        var v :| Orphan(before, v);
        OrphansStay(before, event, xs[n], choices[n], v);
      }
    }
    OrphansTell(PlacedAll(t, event, xs, choices));
  }

  lemma OrphansTell(t: Timeline)
    ensures (exists v :: Orphan(t, v)) ==> !Partition(t)
  {
    if v :| Orphan(t, v) {
      OrphansBreakPartition(t, v);
    }
  }

  /** Exactly one Segment: the update is a member of its own Segment and of no other. */
  lemma ExactlyOneSegment(t: Timeline, u: string, s: SegmentId)
    requires Partition(t) && u in t.memberships && s in t.segments
    ensures u in t.segments[s].members <==> s == t.memberships[u].segmentId
  {
  }

  /** Totality: from any reconciled state, each update the pass takes is in exactly one Segment afterwards, of that Event. */
  lemma PassLeavesEachInOneSegment(t: Timeline, event: string, fps: map<string, Fingerprint>, containers: set<string>,
                                   xs: seq<Fingerprint>, choices: seq<Option<Choice>>, k: nat, s: SegmentId)
    requires Partition(t) && UpToDate(t) && LegalPass(t, event, fps, containers, xs, choices) && SeedsUnused(t, event, xs, choices)
    requires k < |xs| && s in PlacedAll(t, event, xs, choices).segments
    ensures var x, next := xs[k], PlacedAll(t, event, xs, choices);
      && x.id in next.memberships && next.memberships[x.id].eventId == event
      && next.memberships[x.id].segmentId in next.segments
      && (x.id in next.segments[s].members <==> s == next.memberships[x.id].segmentId)
  {
    PassPlaces(t, event, fps, containers, xs, choices);
    PassKeepsPartitionIff(t, event, fps, containers, xs, choices);
    ExactlyOneSegment(PlacedAll(t, event, xs, choices), xs[k].id, s);
  }

  // ---------------------------------------------------------------- Segments that hold their seeds

  /** Every Segment holds the updates its id is derived from. */
  ghost predicate Rooted(t: Timeline) {
    forall s :: s in t.segments ==> s.eventId == t.segments[s].eventId && s.seeds <= t.segments[s].members
  }

  /** An id derived from updates none of which is placed is not in use. */
  lemma SeedIsFresh(t: Timeline, event: string, u: string)
    requires Partition(t) && Rooted(t) && u !in t.memberships
    ensures SegmentId(event, {u}) !in t.segments
  {
    assert forall s :: s in t.segments && u in s.seeds ==> u in t.segments[s].members;
    assert u in SegmentId(event, {u}).seeds;
  }

  lemma PlacingKeepsRoots(t: Timeline, event: string, fps: map<string, Fingerprint>, containers: set<string>, x: Fingerprint, choice: Option<Choice>)
    requires Partition(t) && Rooted(t) && LegalOne(t, event, fps, containers, x, choice)
    ensures SeedUnused(t, event, x, choice) && Rooted(Placed(t, event, x, choice))
  {
    if x.id !in t.memberships {
      SeedIsFresh(t, event, x.id);
    }
  }

  /** While Segments hold their seeds no pass seeds an id in use, and Segments go on holding them. */
  lemma {:induction false} PassKeepsRoots(t: Timeline, event: string, fps: map<string, Fingerprint>, containers: set<string>,
                                          xs: seq<Fingerprint>, choices: seq<Option<Choice>>)
    requires Partition(t) && UpToDate(t) && Rooted(t) && LegalPass(t, event, fps, containers, xs, choices)
    ensures SeedsUnused(t, event, xs, choices) && Rooted(PlacedAll(t, event, xs, choices))
  {
    if xs != [] {
      var n := |xs| - 1;
      LegalPrefix(t, event, fps, containers, xs, choices);
      PassKeepsRoots(t, event, fps, containers, xs[..n], choices[..n]);
      PassPlaces(t, event, fps, containers, xs[..n], choices[..n]);
      PassKeepsPartitionIff(t, event, fps, containers, xs[..n], choices[..n]);
      PlacingKeepsRoots(PlacedAll(t, event, xs[..n], choices[..n]), event, fps, containers, xs[n], choices[n]);
    }
  }

  lemma ReconcilingKeepsRoots(t: Timeline)
    requires Partition(t) && UpToDate(t) && Rooted(t)
    ensures Rooted(Reconciled(t))
  {
    ReconcilingIsIdle(t);
  }

  /** While Segments hold their seeds a merge is safe, and its Segment holds its own. */
  lemma MergingKeepsRoots(t: Timeline, left: SegmentId, right: SegmentId)
    requires Partition(t) && Rooted(t) && MayMerge(t, left, right)
    ensures MergedId(t, left, right) in {left, right} || MergedId(t, left, right) !in t.segments
  {
    var id := MergedId(t, left, right);
    var v :| v in t.segments[left].members;
    assert v in id.seeds && t.memberships[v].segmentId == left;
    assert id in t.segments ==> v in t.segments[id].members;
  }

  /** The order of the Segments is apart from who is in them. */
  lemma NumberingIsApart(t: Timeline, order: seq<SegmentId>)
    ensures Partition(Numbered(t, order)) <==> Partition(t)
    ensures UpToDate(Numbered(t, order)) <==> UpToDate(t)
    ensures Rooted(Numbered(t, order)) <==> Rooted(t)
  {
    var next := Numbered(t, order);
    assert forall s :: s in t.segments ==> next.segments[s].members == t.segments[s].members && next.segments[s].eventId == t.segments[s].eventId;
  }

  // ---------------------------------------------------------------- runs

  datatype Call =
    | Pass(event: string, fps: map<string, Fingerprint>, containers: set<string>, xs: seq<Fingerprint>, choices: seq<Option<Choice>>)
    | Regroup(eventOf: map<string, string>)
    | Sync(eventOf: map<string, string>)
    | Number(order: seq<SegmentId>)
    | Evict(kept: set<SegmentId>, keptRelations: set<RelationId>)
    | Move(u: string, target: SegmentId, confidence: int)
    | Separate(s: SegmentId, moved: set<string>)
    | Merge(left: SegmentId, right: SegmentId)

  function Step(t: Timeline, call: Call): Timeline {
    match call
    case Pass(event, fps, containers, xs, choices) =>
      if |xs| == |choices| then PlacedAll(Reconciled(t), event, xs, choices) else Reconciled(t)
    case Regroup(eventOf) => t.(eventOf := eventOf)
    case Sync(eventOf) => Reconciled(t.(eventOf := eventOf))
    case Number(order) => Numbered(t, order)
    case Evict(kept, keptRelations) => Pruned(t, kept, keptRelations)
    case Move(u, target, confidence) => Reclassified(t, u, target, confidence)
    case Separate(s, moved) => Split(t, s, moved)
    case Merge(left, right) => Merged(t, left, right)
  }

  const EMPTY := Timeline(map[], map[], map[], map[])

  function Run(calls: seq<Call>): Timeline {
    if calls == [] then EMPTY else Step(Run(calls[..|calls| - 1]), calls[|calls| - 1])
  }

  /** A pass as the program makes it; nothing is asked of the other calls. */
  ghost predicate LegalCall(t: Timeline, call: Call) {
    call.Pass? ==> LegalPass(Reconciled(t), call.event, call.fps, call.containers, call.xs, call.choices)
  }

  /** The call writes to no id in use, and moves no update onto its own singleton. */
  predicate Safe(t: Timeline, call: Call) {
    var r := Reconciled(t);
    match call
    case Pass(event, fps, containers, xs, choices) => |xs| == |choices| ==> SeedsUnused(r, event, xs, choices)
    case Regroup(eventOf) => true
    case Sync(eventOf) => true
    case Number(order) => true
    case Evict(kept, keptRelations) => true
    case Move(u, target, confidence) => MayMove(r, u, target) ==> r.segments[target].members != {u}
    case Separate(s, moved) => MaySplit(r, s, moved) ==> SegmentId(r.segments[s].eventId, moved) !in r.segments
    case Merge(left, right) =>
      MayMerge(r, left, right) ==> MergedId(r, left, right) in {left, right} || MergedId(r, left, right) !in r.segments
  }

  /** Every call keeps the maps inverse exactly when it is safe. */
  lemma StepKeepsPartitionIff(t: Timeline, call: Call)
    requires Partition(t) && LegalCall(t, call)
    ensures Partition(Step(t, call)) <==> Safe(t, call)
  {
    ReconcilingKeeps(t);
    match call
    case Pass(event, fps, containers, xs, choices) => PassKeepsPartitionIff(Reconciled(t), event, fps, containers, xs, choices);
    case Regroup(eventOf) =>
    case Sync(eventOf) => ReconcilingKeeps(t.(eventOf := eventOf));
    case Number(order) => NumberingIsApart(t, order);
    case Evict(kept, keptRelations) => PruningKeeps(t, kept, keptRelations);
    case Move(u, target, confidence) =>
      if MayMove(Reconciled(t), u, target) { ReclassifyingKeepsPartitionIff(t, u, target, confidence); }
    case Separate(s, moved) =>
      if MaySplit(Reconciled(t), s, moved) { SplittingKeepsPartitionIff(t, s, moved); }
    case Merge(left, right) =>
      if MayMerge(Reconciled(t), left, right) { MergingKeepsPartitionIff(t, left, right); }
  }

  ghost predicate LegalRun(calls: seq<Call>) {
    calls != [] ==> LegalRun(calls[..|calls| - 1]) && LegalCall(Run(calls[..|calls| - 1]), calls[|calls| - 1])
  }

  /** Every call was safe where it was made. */
  predicate SafeRun(calls: seq<Call>) {
    calls != [] ==> SafeRun(calls[..|calls| - 1]) && Safe(Run(calls[..|calls| - 1]), calls[|calls| - 1])
  }

  /** The maps are inverse at every point of the run. */
  ghost predicate PartitionThroughout(calls: seq<Call>) {
    Partition(Run(calls)) && (calls != [] ==> PartitionThroughout(calls[..|calls| - 1]))
  }

  lemma {:induction false} PartitionAt(calls: seq<Call>, n: nat)
    requires PartitionThroughout(calls) && n <= |calls|
    ensures Partition(Run(calls[..n]))
    decreases |calls|
  {
    if n == |calls| {
      assert calls[..n] == calls;
    } else {
      assert calls[..|calls| - 1][..n] == calls[..n];
      PartitionAt(calls[..|calls| - 1], n);
    }
  }

  lemma {:induction false} ThroughoutWhen(calls: seq<Call>)
    requires forall n :: 0 <= n <= |calls| ==> Partition(Run(calls[..n]))
    ensures PartitionThroughout(calls)
  {
    assert calls[..|calls|] == calls;
    if calls != [] {
      var init := calls[..|calls| - 1];
      forall n | 0 <= n <= |init| ensures Partition(Run(init[..n])) {
        assert init[..n] == calls[..n];
      }
      ThroughoutWhen(init);
    }
  }

  lemma PartitionAtEveryPoint(calls: seq<Call>)
    ensures PartitionThroughout(calls) <==> forall n :: 0 <= n <= |calls| ==> Partition(Run(calls[..n]))
  {
    if PartitionThroughout(calls) {
      forall n | 0 <= n <= |calls| ensures Partition(Run(calls[..n])) {
        PartitionAt(calls, n);
      }
    } else if forall n :: 0 <= n <= |calls| ==> Partition(Run(calls[..n])) {
      ThroughoutWhen(calls);
    }
  }

  /**
   Interleaving passes, regroupings, evictions and manual operations in any way: the maps are inverse at every point
   of the run if and only if every call of it was safe.
   */
  lemma {:induction false} RunKeepsPartitionIff(calls: seq<Call>)
    requires LegalRun(calls)
    ensures PartitionThroughout(calls) <==> SafeRun(calls)
    ensures (forall n :: 0 <= n <= |calls| ==> Partition(Run(calls[..n]))) <==> SafeRun(calls)
  {
    if calls != [] {
      var init := calls[..|calls| - 1];
      RunKeepsPartitionIff(init);
      if PartitionThroughout(init) {
        StepKeepsPartitionIff(Run(init), calls[|calls| - 1]);
      }
    }
    PartitionAtEveryPoint(calls);
  }

  // ---------------------------------------------------------------- runs that keep their seeds

  /** Each Event keeps all its members, or loses all of them. */
  ghost predicate WholeEvents(before: map<string, string>, after: map<string, string>) {
    forall u, v :: u in before && v in before && before[u] == before[v] && !StaysIn(before, after, u) ==> !StaysIn(before, after, v)
  }

  predicate StaysIn(before: map<string, string>, after: map<string, string>, u: string)
    requires u in before
  {
    u in after && after[u] == before[u]
  }

  /**
   Between passes Event Fusion adds memberships; it evicts whole Events, after which the maps are reconciled before
   any Event is founded again; Segments are numbered, evicted and merged.
   */
  ghost predicate Growing(t: Timeline, call: Call) {
    match call
    case Pass(event, fps, containers, xs, choices) => LegalPass(Reconciled(t), event, fps, containers, xs, choices)
    case Regroup(eventOf) => forall u :: u in t.eventOf ==> StaysIn(t.eventOf, eventOf, u)
    case Sync(eventOf) => WholeEvents(t.eventOf, eventOf)
    case Number(order) => true
    case Evict(kept, keptRelations) => true
    case Move(u, target, confidence) => false
    case Separate(s, moved) => false
    case Merge(left, right) => true
  }

  ghost predicate GrowingRun(calls: seq<Call>) {
    calls != [] ==> GrowingRun(calls[..|calls| - 1]) && Growing(Run(calls[..|calls| - 1]), calls[|calls| - 1])
  }

  ghost predicate Sound(t: Timeline) {
    Partition(t) && UpToDate(t) && Rooted(t)
  }

  lemma GrowingKeepsSound(t: Timeline, call: Call)
    requires Sound(t) && Growing(t, call)
    ensures Sound(Step(t, call)) && Safe(t, call)
  {
    match call
    case Pass(event, fps, containers, xs, choices) =>
      ReconcilingKeeps(t);
      ReconcilingIsIdle(t);
      PassKeepsSound(Reconciled(t), event, fps, containers, xs, choices);
    case Regroup(eventOf) =>
    case Sync(eventOf) => SyncingKeepsSound(t, eventOf);
    case Number(order) => NumberingIsApart(t, order);
    case Evict(kept, keptRelations) => PruningKeeps(t, kept, keptRelations);
    case Merge(left, right) => MergeKeepsSound(t, left, right);
  }

  /** What a reconciliation leaves when whole Events went: a Segment stays as it is, or goes with all its members. */
  lemma SyncedShape(t: Timeline, eventOf: map<string, string>)
    requires Partition(t) && UpToDate(t) && WholeEvents(t.eventOf, eventOf)
    ensures var r := Reconciled(t.(eventOf := eventOf));
      && (forall s :: s in r.segments ==> s in t.segments && r.segments[s] == t.segments[s])
      && (forall u :: u in r.memberships ==> u in t.memberships && r.memberships[u] == t.memberships[u])
      && (forall u :: u in t.memberships && t.memberships[u].segmentId in r.segments ==> u in r.memberships)
  {
    var r := Reconciled(t.(eventOf := eventOf));
    ReconcilingKeeps(t.(eventOf := eventOf));
    forall s | s in r.segments ensures r.segments[s] == t.segments[s] {
      SyncedSegment(t, eventOf, s);
    }
  }

  lemma SyncedSegment(t: Timeline, eventOf: map<string, string>, s: SegmentId)
    requires Partition(t) && UpToDate(t) && WholeEvents(t.eventOf, eventOf)
    requires s in Reconciled(t.(eventOf := eventOf)).segments
    ensures Reconciled(t.(eventOf := eventOf)).segments[s] == t.segments[s]
  {
    var next := t.(eventOf := eventOf);
    var left := MembersAfter(next, s, Stale(next));
    var v :| v in left;
    forall u | u in t.segments[s].members ensures u in left {
      assert t.memberships[u].segmentId == s && t.memberships[v].segmentId == s;
      assert t.eventOf[u] == t.eventOf[v] && StaysIn(t.eventOf, eventOf, v);
      assert StaysIn(t.eventOf, eventOf, u);
    }
    assert left == t.segments[s].members;
  }

  lemma SyncingKeepsSound(t: Timeline, eventOf: map<string, string>)
    requires Sound(t) && WholeEvents(t.eventOf, eventOf)
    ensures Sound(Reconciled(t.(eventOf := eventOf)))
  {
    ReconcilingKeeps(t.(eventOf := eventOf));
    SyncedShape(t, eventOf);
  }

  lemma PassKeepsSound(t: Timeline, event: string, fps: map<string, Fingerprint>, containers: set<string>,
                       xs: seq<Fingerprint>, choices: seq<Option<Choice>>)
    requires Sound(t) && LegalPass(t, event, fps, containers, xs, choices)
    ensures Sound(PlacedAll(t, event, xs, choices)) && SeedsUnused(t, event, xs, choices)
  {
    PassKeepsRoots(t, event, fps, containers, xs, choices);
    PassKeepsPartitionIff(t, event, fps, containers, xs, choices);
    PassPlaces(t, event, fps, containers, xs, choices);
  }

  lemma MergeKeepsSound(t: Timeline, left: SegmentId, right: SegmentId)
    requires Sound(t)
    ensures Sound(Merged(t, left, right)) && Safe(t, Merge(left, right))
  {
    ReconcilingKeeps(t);
    ReconcilingKeepsRoots(t);
    var r := Reconciled(t);
    if MayMerge(r, left, right) {
      MergingKeepsRoots(r, left, right);
      MergingKeepsPartitionIff(t, left, right);
      MergedStaysRooted(r, Merged(t, left, right), left, right);
    }
  }

  lemma MergedStaysRooted(r: Timeline, next: Timeline, left: SegmentId, right: SegmentId)
    requires Rooted(r) && UpToDate(r) && MayMerge(r, left, right) && next.eventOf == r.eventOf
    requires var id := MergedId(r, left, right);
      && id in next.segments && next.segments[id].eventId == id.eventId && next.segments[id].members == id.seeds
      && (forall s :: s in next.segments && s != id ==> s in r.segments && next.segments[s] == r.segments[s])
      && next.memberships == Moved(r, id.seeds, id, MergedIn)
    ensures Rooted(next) && UpToDate(next)
  {
  }

  /**
   In every run without removals, splits and manual moves, evictions of Segments and of whole Events included: every
   call is safe and the maps are inverse and up to date, so every pass leaves each update it takes in exactly one Segment.
   */
  lemma {:induction false} GrowingRunIsSound(calls: seq<Call>)
    requires GrowingRun(calls)
    ensures Sound(Run(calls)) && SafeRun(calls)
  {
    if calls != [] {
      GrowingRunIsSound(calls[..|calls| - 1]);
      GrowingKeepsSound(Run(calls[..|calls| - 1]), calls[|calls| - 1]);
    }
  }

  /** Totality over such runs: after a pass each update it took is in exactly one Segment, of that Event. */
  lemma LastPassIsTotal(calls: seq<Call>, k: nat, s: SegmentId)
    requires GrowingRun(calls) && calls != [] && calls[|calls| - 1].Pass?
    requires k < |calls[|calls| - 1].xs| && s in Run(calls).segments
    ensures var x, t := calls[|calls| - 1].xs[k], Run(calls);
      && x.id in t.memberships && t.memberships[x.id].eventId == calls[|calls| - 1].event
      && t.memberships[x.id].segmentId in t.segments
      && (x.id in t.segments[s].members <==> s == t.memberships[x.id].segmentId)
  {
    var init, last := calls[..|calls| - 1], calls[|calls| - 1];
    GrowingRunIsSound(init);
    GrowingKeepsSound(Run(init), last);
    ReconcilingKeeps(Run(init));
    PassLeavesEachInOneSegment(Reconciled(Run(init)), last.event, last.fps, last.containers, last.xs, last.choices, k, s);
  }
}
