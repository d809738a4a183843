/**
 Whole runs of Event Fusion: grouping, eviction and manual correction in any order. The maps stay inverse exactly while
 no Event is founded on an id in use; a run with removals that founds one twice breaks them.
 */
module FusionRuns {
  import opened Common
  import opened EventFusion
  import opened FusionProof

  // ---------------------------------------------------------------- one update

  /** Whom the update founds an Event with, if it does. */
  function FoundsWith(t: Tables, x: Fingerprint, others: seq<Fingerprint>): Option<Fingerprint> {
    var best := Best(x, others);
    if x.id !in t.memberships && best.Some? && |Plausible(t.memberships, x, others)| <= 1 && Joins(Match(x, best.value).decision)
       && !(best.value.id in t.memberships && t.memberships[best.value.id] in t.events)
    then best else None
  }

  predicate FoundingUnused(t: Tables, x: Fingerprint, others: seq<Fingerprint>) {
    var y := FoundsWith(t, x, others);
    y.Some? ==> EventId({x.id, y.value.id}) !in t.events
  }

  /** An update whose membership names an Event without it. */
  predicate Orphan(t: Tables, v: string) {
    v in t.memberships && t.memberships[v] in t.events && v !in t.events[t.memberships[v]].members
  }

  lemma OrphansTell(t: Tables)
    ensures (exists v :: Orphan(t, v)) ==> !Partition(t)
  {
  }

  lemma OverwritingOrphans(t: Tables, x: Fingerprint, y: Fingerprint, c: Candidate, now: Time) returns (v: string)
    requires Partition(t) && x.id !in t.memberships && y.id !in t.memberships && EventId({x.id, y.id}) in t.events
    ensures Orphan(Created(t, x, y, c, now), v)
  {
    var id := EventId({x.id, y.id});
    v :| v in t.events[id].members;
    assert t.memberships[v] == id && v != x.id && v != y.id;
  }

  /** Grouping an update keeps the maps inverse exactly when it founds no Event whose id is in use; else it orphans somebody. */
  lemma GroupingOneKeepsIff(t: Tables, x: Fingerprint, others: seq<Fingerprint>, now: Time)
    requires Partition(t)
    ensures FoundingUnused(t, x, others) ==> Partition(GroupedOne(t, x, others, now))
    ensures !FoundingUnused(t, x, others) ==> exists v :: Orphan(GroupedOne(t, x, others, now), v)
  {
    BestIsOther(x, others);
    var y := FoundsWith(t, x, others);
    if y.Some? {
      var c := Match(x, y.value);
      FoundingKeepsPartitionIff(t, x, y.value, c, now);
      if !FoundingUnused(t, x, others) {
        var v := OverwritingOrphans(t, x, y.value, c, now);
        assert Orphan(GroupedOne(t, x, others, now), v);
      }
    } else if GroupedOne(t, x, others, now) != t {
      var best := Best(x, others).value;
      AttachingKeeps(t, t.memberships[best.id], x, Match(x, best), now);
    }
  }

  lemma OrphansStay(t: Tables, x: Fingerprint, others: seq<Fingerprint>, now: Time, v: string)
    requires Orphan(t, v)
    ensures Orphan(GroupedOne(t, x, others, now), v)
  {
    if x.id !in t.memberships && Best(x, others).Some? {
      OrphansStayJoined(t, x, Best(x, others).value, Match(x, Best(x, others).value), now, v);
    }
  }

  lemma OrphansStayJoined(t: Tables, x: Fingerprint, y: Fingerprint, c: Candidate, now: Time, v: string)
    requires Orphan(t, v) && x.id !in t.memberships
    ensures Orphan(Joined(t, x, y, c, now), v)
  {
  }

  // ---------------------------------------------------------------- a batch

  predicate FoundingsUnused(t: Tables, xs: seq<Fingerprint>, others: seq<Fingerprint>, now: Time) {
    xs != [] ==>
      var init := xs[..|xs| - 1];
      && FoundingsUnused(t, init, others, now)
      && FoundingUnused(GroupedAll(t, init, others, now), Current(others, xs[|xs| - 1]), others)
  }

  lemma {:induction false} GroupingAllKeepsIff(t: Tables, xs: seq<Fingerprint>, others: seq<Fingerprint>, now: Time)
    requires Partition(t)
    ensures FoundingsUnused(t, xs, others, now) ==> Partition(GroupedAll(t, xs, others, now))
    ensures !FoundingsUnused(t, xs, others, now) ==> exists v :: Orphan(GroupedAll(t, xs, others, now), v)
  {
    if xs != [] {
      var init := xs[..|xs| - 1];
      var before, x := GroupedAll(t, init, others, now), Current(others, xs[|xs| - 1]);
      GroupingAllKeepsIff(t, init, others, now);
      if FoundingsUnused(t, init, others, now) {
        GroupingOneKeepsIff(before, x, others, now);
        assert GroupedAll(t, xs, others, now) == GroupedOne(before, x, others, now);
      } else {
        var v :| Orphan(before, v);
        OrphansStay(before, x, others, now, v);
        assert Orphan(GroupedAll(t, xs, others, now), v);
      }
    }
  }

  // ---------------------------------------------------------------- runs

  datatype Call =
    | Shadow(xs: seq<Fingerprint>, now: Time)
    | Prune(kept: set<EventId>, prints: set<string>)
    | Remove(u: string)
    | Reclassify(u: string, target: EventId)

  function Step(t: Tables, call: Call): Tables {
    match call
    case Shadow(xs, now) => Grouped(t, xs, now)
    case Prune(kept, prints) => Pruned(t, kept, prints)
    case Remove(u) => Removed(t, u)
    case Reclassify(u, target) => Reclassified(t, u, target)
  }

  function Run(calls: seq<Call>): Tables {
    if calls == [] then EMPTY else Step(Run(calls[..|calls| - 1]), calls[|calls| - 1])
  }

  /** The call founds no Event whose id is in use. */
  predicate Safe(t: Tables, call: Call) {
    call.Shadow? ==>
      var table := AssignedAll(t.fingerprints, call.xs);
      FoundingsUnused(t.(fingerprints := table), call.xs, table, call.now)
  }

  /** Every call keeps the maps inverse exactly when it is safe; only grouping can be unsafe. */
  lemma StepKeepsPartitionIff(t: Tables, call: Call)
    requires Partition(t)
    ensures Partition(Step(t, call)) <==> Safe(t, call)
  {
    match call
    case Shadow(xs, now) =>
      var table := AssignedAll(t.fingerprints, xs);
      GroupingAllKeepsIff(t.(fingerprints := table), xs, table, now);
      OrphansTell(Step(t, call));
    case Prune(kept, prints) => PruningKeeps(t, kept, prints);
    case Remove(u) => RemovingKeeps(t, u);
    case Reclassify(u, target) => ReclassifyingKeeps(t, u, target);
  }

  predicate SafeRun(calls: seq<Call>) {
    calls != [] ==> SafeRun(calls[..|calls| - 1]) && Safe(Run(calls[..|calls| - 1]), calls[|calls| - 1])
  }

  ghost predicate PartitionThroughout(calls: seq<Call>) {
    Partition(Run(calls)) && (calls != [] ==> PartitionThroughout(calls[..|calls| - 1]))
  }

  lemma {:induction false} PartitionAtEveryPoint(calls: seq<Call>)
    ensures PartitionThroughout(calls) <==> forall n :: 0 <= n <= |calls| ==> Partition(Run(calls[..n]))
  {
    assert calls[..|calls|] == calls;
    if calls != [] {
      var init := calls[..|calls| - 1];
      PartitionAtEveryPoint(init);
      assert forall n :: 0 <= n <= |init| ==> init[..n] == calls[..n];
    }
  }

  /** The maps are inverse at every point of a run if and only if every call of it was safe. */
  lemma {:induction false} RunKeepsPartitionIff(calls: seq<Call>)
    ensures PartitionThroughout(calls) <==> SafeRun(calls)
    ensures (forall n :: 0 <= n <= |calls| ==> Partition(Run(calls[..n]))) <==> SafeRun(calls)
  {
    if calls != [] {
      var init := calls[..|calls| - 1];
      RunKeepsPartitionIff(init);
      if PartitionThroughout(init) {
        StepKeepsPartitionIff(Run(init), calls[|calls| - 1]);
      }
    }
    PartitionAtEveryPoint(calls);
  }

  // ---------------------------------------------------------------- shadow runs

  /** No manual correction: grouping and eviction only. */
  ghost predicate ShadowRun(calls: seq<Call>) {
    forall n :: 0 <= n < |calls| ==> calls[n].Shadow? || calls[n].Prune?
  }

  /** A step of such a run loses an Event only by evicting it, and otherwise only adds members. */
  lemma ShadowStepKeeps(t: Tables, call: Call)
    requires Partition(t) && Seeded(t) && (call.Shadow? || call.Prune?)
    ensures Partition(Step(t, call)) && Seeded(Step(t, call))
    ensures call.Shadow? ==> Grows(t, Step(t, call))
    ensures forall e :: e in t.events ==>
              if e in Step(t, call).events then t.events[e].members <= Step(t, call).events[e].members
              else call.Prune? && e !in call.kept
  {
    match call
    case Shadow(xs, now) =>
      var table := AssignedAll(t.fingerprints, xs);
      GroupingAllKeeps(t.(fingerprints := table), xs, table, now);
    case Prune(kept, prints) => PruningKeeps(t, kept, prints);
  }

  /** In every such run: inverse maps, and every live Event holds both its seeds; so no call of it is unsafe. */
  lemma {:induction false} ShadowRunPartition(calls: seq<Call>)
    requires ShadowRun(calls)
    ensures Partition(Run(calls)) && Seeded(Run(calls)) && SafeRun(calls)
  {
    if calls != [] {
      var init, last := calls[..|calls| - 1], calls[|calls| - 1];
      assert forall n :: 0 <= n < |init| ==> init[n] == calls[n];
      ShadowRunPartition(init);
      ShadowStepKeeps(Run(init), last);
      StepKeepsPartitionIff(Run(init), last);
    }
  }

  // ---------------------------------------------------------------- a run that breaks the maps

  /** An update that answers another, or nobody, and has nothing else in common with any. */
  function Print(id: string, replyTo: string): Fingerprint {
    Fingerprint(id, "source", 0, "live", "", replyTo, "", {}, {}, {}, {})
  }

  /** Three updates, each answering the one before. */
  datatype Scene = Scene(a: string, b: string, c: string) {
    predicate Distinct() {
      a != "" && b != "" && c != "" && a != b && b != c && a != c
    }

    function X(): Fingerprint { Print(a, "") }
    function Y(): Fingerprint { Print(b, a) }
    function Z(): Fingerprint { Print(c, b) }
    function E(): EventId { EventId({a, b}) }
  }

  lemma AnswersJoin(x: Fingerprint, y: Fingerprint)
    requires x == Print(x.id, x.replyTo) && y == Print(y.id, y.replyTo) && x.id != y.id && ReplyRelated(x, y)
    ensures Match(x, y).decision == Confident
  {
    ConfidentIff(x, y);
    assert Conflicts(x, y) == {};
  }

  lemma OthersDoNotJoin(x: Fingerprint, y: Fingerprint)
    requires x == Print(x.id, x.replyTo) && y == Print(y.id, y.replyTo) && x.id != y.id && !ReplyRelated(x, y)
    ensures !Joins(Match(x, y).decision)
  {
    StrongSignals(x, y);
    NothingSemantic(x, y);
    WeakDecides(Score(x, y), Signals(x, y), Conflicts(x, y));
  }

  lemma NothingSemantic(x: Fingerprint, y: Fingerprint)
    requires x == Print(x.id, x.replyTo) && y == Print(y.id, y.replyTo) && !StronglyLinked(x, y)
    ensures Signals(x, y) * {SharedAnchor, TopicOverlap, SharedParticipants} == {}
  {
    assert x.topics * y.topics == {};
    assert forall s :: Shows(s, x, y) ==> s !in {SharedAnchor, TopicOverlap, SharedParticipants};
  }

  lemma WeakDecides(score: int, signals: set<Signal>, conflicts: set<Conflict>)
    requires signals * STRONG == {} && signals * {SharedAnchor, TopicOverlap, SharedParticipants} == {}
    ensures !Joins(Decide(score, signals, conflicts))
  {
  }

  /** The only one that joins is the best. */
  lemma BestIs(x: Fingerprint, others: seq<Fingerprint>, y: Fingerprint)
    requires y in others && y.id != x.id && Match(x, y).decision == Confident
    requires forall o :: o in others && o.id != x.id && o != y ==> !Joins(Match(x, o).decision)
    ensures Best(x, others) == Some(y)
  {
    BestIsOther(x, others);
    BestIsUnbeaten(x, others, y);
    var b := Best(x, others).value;
    if b != y {
      ConfidentBeats(Match(x, b), b, Match(x, y), y);
    }
  }

  lemma ConfidentBeats(c: Candidate, x: Fingerprint, d: Candidate, y: Fingerprint)
    requires !Joins(c.decision) && d.decision.Confident?
    ensures Worse(c, x, d, y)
  {
  }

  lemma {:induction false} PlausibleIs(memberships: map<string, EventId>, x: Fingerprint, others: seq<Fingerprint>, e: EventId)
    requires forall o :: o in others && o.id != x.id && o.id in memberships && Joins(Match(x, o).decision) ==> memberships[o.id] == e
    ensures Plausible(memberships, x, others) <= {e}
  {
    if others != [] {
      PlausibleIs(memberships, x, others[..|others| - 1], e);
    }
  }

  /** One Event with these members. */
  ghost predicate Holds(t: Tables, e: EventId, members: set<string>) {
    Partition(t) && t.events.Keys == {e} && t.events[e].members == members && t.memberships == map u | u in members :: e
  }

  /** What the three have to do with each other. */
  lemma Links(w: Scene)
    requires w.Distinct()
    ensures Match(w.X(), w.Y()).decision == Confident && Match(w.Z(), w.Y()).decision == Confident
    ensures !Joins(Match(w.X(), w.Z()).decision) && !Joins(Match(w.Z(), w.X()).decision)
  {
    AnswersJoin(w.X(), w.Y());
    AnswersJoin(w.Z(), w.Y());
    OthersDoNotJoin(w.X(), w.Z());
    OthersDoNotJoin(w.Z(), w.X());
  }

  /** A batch of one. */
  lemma Single(t: Tables, x: Fingerprint, now: Time, table: seq<Fingerprint>)
    requires table == Assigned(t.fingerprints, x) && Current(table, x) == x
    ensures Grouped(t, [x], now) == GroupedOne(t.(fingerprints := table), x, table, now)
  {
    assert [x][..0] == [];
    assert AssignedAll(t.fingerprints, [x]) == table;
    assert GroupedAll(t.(fingerprints := table), [], table, now) == t.(fingerprints := table);
  }

  lemma Stored(w: Scene)
    requires w.Distinct()
    ensures Assigned([], w.X()) == [w.X()] && Assigned([w.X()], w.Y()) == [w.X(), w.Y()]
    ensures Assigned([w.X(), w.Y()], w.Z()) == [w.X(), w.Y(), w.Z()] && Assigned([w.X(), w.Y(), w.Z()], w.X()) == [w.X(), w.Y(), w.Z()]
    ensures Current([w.X()], w.X()) == w.X() && Current([w.X(), w.Y()], w.Y()) == w.Y()
    ensures Current([w.X(), w.Y(), w.Z()], w.Z()) == w.Z() && Current([w.X(), w.Y(), w.Z()], w.X()) == w.X()
  {
    var x, y, z := w.X(), w.Y(), w.Z();
    assert [x][1..] == [] && [x, y][1..] == [y] && [y][1..] == [] && [x, y, z][1..] == [y, z] && [y, z][1..] == [z];
    assert Assigned([], y) == [y] && Assigned([], z) == [z] && Assigned([y], z) == [y, z];
    assert Current([y], y) == y && Current([y, z], z) == z;
  }

  /** The first is alone. */
  lemma First(w: Scene)
    requires w.Distinct()
    ensures Grouped(EMPTY, [w.X()], 0) == EMPTY.(fingerprints := [w.X()])
  {
    Stored(w);
    Single(EMPTY, w.X(), 0, [w.X()]);
    assert [w.X()][..0] == [];
    assert Best(w.X(), [w.X()]) == None;
  }

  /** The update joins this one of the table, confidently, and no other. */
  ghost predicate OnlyJoins(x: Fingerprint, table: seq<Fingerprint>, y: Fingerprint) {
    && y in table && y.id != x.id && Match(x, y).decision == Confident
    && forall o :: o in table && o.id != x.id && o != y ==> !Joins(Match(x, o).decision)
  }

  lemma OneOther(x: Fingerprint, y: Fingerprint)
    requires y.id != x.id && Match(x, y).decision == Confident
    ensures OnlyJoins(x, [y, x], y)
  {
  }

  lemma TwoOthers(x: Fingerprint, table: seq<Fingerprint>, y: Fingerprint, z: Fingerprint)
    requires x.id != y.id && Match(x, y).decision == Confident && !Joins(Match(x, z).decision)
    requires forall o :: o in table <==> o in [x, y, z]
    ensures OnlyJoins(x, table, y)
  {
    assert y in [x, y, z];
  }

  /** A confident match that is the only one decides. */
  lemma Decided(t: Tables, x: Fingerprint, table: seq<Fingerprint>, y: Fingerprint, e: EventId)
    requires x.id !in t.memberships && OnlyJoins(x, table, y)
    requires forall u :: u in t.memberships ==> t.memberships[u] == e
    ensures GroupedOne(t, x, table, 0) == Joined(t, x, y, Match(x, y), 0)
    ensures FoundsWith(t, x, table) == if y.id in t.memberships && e in t.events then None else Some(y)
  {
    BestIs(x, table, y);
    PlausibleIs(t.memberships, x, table, e);
    AtMostOne(Plausible(t.memberships, x, table), e);
  }

  /** The second founds an Event with the first. */
  lemma Second(w: Scene, t: Tables)
    requires w.Distinct() && t == EMPTY.(fingerprints := [w.X()])
    ensures var next := Grouped(t, [w.Y()], 0); Holds(next, w.E(), {w.a, w.b}) && next.fingerprints == [w.X(), w.Y()]
  {
    var table := [w.X(), w.Y()];
    Stored(w);
    YAnswersX(w);
    Single(t, w.Y(), 0, table);
    OneOther(w.Y(), w.X());
    Decided(t.(fingerprints := table), w.Y(), table, w.X(), w.E());
    FoundedBy(t.(fingerprints := table), w.Y(), w.X(), Match(w.Y(), w.X()), w.E());
  }

  lemma YAnswersX(w: Scene)
    requires w.Distinct()
    ensures Match(w.Y(), w.X()).decision == Confident
  {
    AnswersJoin(w.Y(), w.X());
  }

  lemma FoundedBy(t: Tables, x: Fingerprint, y: Fingerprint, c: Candidate, e: EventId)
    requires t.events == map[] && t.memberships == map[] && x.id != y.id && e == EventId({y.id, x.id})
    ensures Joined(t, x, y, c, 0).fingerprints == t.fingerprints && Holds(Joined(t, x, y, c, 0), e, {y.id, x.id})
  {
    assert {x.id, y.id} == {y.id, x.id};
    FoundingKeepsPartitionIff(t, x, y, c, 0);
  }

  /** The third joins them, by the second. */
  lemma Third(w: Scene, t: Tables)
    requires w.Distinct() && Holds(t, w.E(), {w.a, w.b}) && t.fingerprints == [w.X(), w.Y()]
    ensures var next := Grouped(t, [w.Z()], 0); Holds(next, w.E(), {w.a, w.b, w.c}) && next.fingerprints == [w.X(), w.Y(), w.Z()]
  {
    var table := [w.X(), w.Y(), w.Z()];
    ThirdJoins(w, t);
    FingerprintsAreApart(t, w.E(), {w.a, w.b}, table);
    assert {w.a, w.b} + {w.c} == {w.a, w.b, w.c};
    JoinedBy(t.(fingerprints := table), w.Z(), w.Y(), Match(w.Z(), w.Y()), w.E(), {w.a, w.b});
  }

  lemma OnlyThird(w: Scene)
    requires w.Distinct()
    ensures OnlyJoins(w.Z(), [w.X(), w.Y(), w.Z()], w.Y())
  {
    Links(w);
    TwoOthers(w.Z(), [w.X(), w.Y(), w.Z()], w.Y(), w.X());
  }

  lemma FingerprintsAreApart(t: Tables, e: EventId, members: set<string>, table: seq<Fingerprint>)
    requires Holds(t, e, members)
    ensures Holds(t.(fingerprints := table), e, members)
  {
  }

  lemma ThirdJoins(w: Scene, t: Tables)
    requires w.Distinct() && Holds(t, w.E(), {w.a, w.b}) && t.fingerprints == [w.X(), w.Y()]
    ensures Grouped(t, [w.Z()], 0) == Joined(t.(fingerprints := [w.X(), w.Y(), w.Z()]), w.Z(), w.Y(), Match(w.Z(), w.Y()), 0)
  {
    var table := [w.X(), w.Y(), w.Z()];
    Stored(w);
    OnlyThird(w);
    Single(t, w.Z(), 0, table);
    Decided(t.(fingerprints := table), w.Z(), table, w.Y(), w.E());
  }

  lemma JoinedBy(t: Tables, x: Fingerprint, y: Fingerprint, c: Candidate, e: EventId, members: set<string>)
    requires Holds(t, e, members) && y.id in members && x.id !in members
    ensures Joined(t, x, y, c, 0).fingerprints == t.fingerprints && Holds(Joined(t, x, y, c, 0), e, members + {x.id})
  {
    AttachingKeeps(t, e, x, c, 0);
  }

  lemma AtMostOne(s: set<EventId>, e: EventId)
    requires s <= {e}
    ensures |s| <= 1
  {
    if e in s {
      assert s == {e};
    } else {
      assert s == {};
    }
  }

  /** The founders leave; the Event stays, with the third alone. */
  lemma FoundersLeave(w: Scene, t: Tables)
    requires w.Distinct() && Holds(t, w.E(), {w.a, w.b, w.c})
    ensures var next := Removed(Removed(t, w.a), w.b); Holds(next, w.E(), {w.c}) && next.fingerprints == t.fingerprints
  {
    RemovingKeeps(t, w.a);
    var one := Removed(t, w.a);
    assert t.events[w.E()].members - {w.a} == {w.b, w.c} && w.b in {w.b, w.c};
    RemovingKeeps(one, w.b);
    assert {w.b, w.c} - {w.b} == {w.c} && w.c in {w.c};
  }

  /** The first comes back and founds the Event again, over the third. */
  lemma FoundedAgain(w: Scene, t: Tables)
    requires w.Distinct() && Holds(t, w.E(), {w.c}) && t.fingerprints == [w.X(), w.Y(), w.Z()]
    ensures !Safe(t, Shadow([w.X()], 0))
  {
    var x, table := w.X(), [w.X(), w.Y(), w.Z()];
    Stored(w);
    Links(w);
    TwoOthers(x, table, w.Y(), w.Z());
    Decided(t.(fingerprints := table), x, table, w.Y(), w.E());
    UnsafeSingle(t, x, table);
  }

  lemma UnsafeSingle(t: Tables, x: Fingerprint, table: seq<Fingerprint>)
    requires table == Assigned(t.fingerprints, x) && Current(table, x) == x && !FoundingUnused(t.(fingerprints := table), x, table)
    ensures !Safe(t, Shadow([x], 0))
  {
    assert [x][..0] == [] && AssignedAll(t.fingerprints, [x]) == table;
    assert GroupedAll(t.(fingerprints := table), [], table, 0) == t.(fingerprints := table);
    assert !FoundingsUnused(t.(fingerprints := table), [x], table, 0);
  }

  /** The last call of a run breaks maps that were inverse up to it. */
  ghost predicate Breaks(calls: seq<Call>) {
    calls != [] && PartitionThroughout(calls[..|calls| - 1]) && !Partition(Run(calls))
  }

  lemma OneMore(calls: seq<Call>, call: Call)
    requires PartitionThroughout(calls)
    ensures Run(calls + [call]) == Step(Run(calls), call)
    ensures Safe(Run(calls), call) ==> PartitionThroughout(calls + [call])
    ensures !Safe(Run(calls), call) ==> Breaks(calls + [call])
  {
    assert (calls + [call])[..|calls|] == calls;
    PartitionAtEnd(calls);
    StepKeepsPartitionIff(Run(calls), call);
  }

  lemma PartitionAtEnd(calls: seq<Call>)
    requires PartitionThroughout(calls)
    ensures Partition(Run(calls))
  {
  }

  lemma Extends(calls: seq<Call>, call: Call)
    requires PartitionThroughout(calls) && Partition(Step(Run(calls), call))
    ensures PartitionThroughout(calls + [call]) && Run(calls + [call]) == Step(Run(calls), call)
  {
    assert (calls + [call])[..|calls|] == calls;
  }

  lemma ThreeTogether(w: Scene) returns (calls: seq<Call>)
    requires w.Distinct()
    ensures calls == [Shadow([w.X()], 0)] + [Shadow([w.Y()], 0)] + [Shadow([w.Z()], 0)]
    ensures PartitionThroughout(calls) && Holds(Run(calls), w.E(), {w.a, w.b, w.c}) && Run(calls).fingerprints == [w.X(), w.Y(), w.Z()]
  {
    var c1, c2 := [Shadow([w.X()], 0)], [Shadow([w.X()], 0)] + [Shadow([w.Y()], 0)];
    First(w);
    assert [] + c1 == c1 && PartitionThroughout([]);
    Extends([], Shadow([w.X()], 0));
    Second(w, Run(c1));
    Extends(c1, Shadow([w.Y()], 0));
    Third(w, Run(c2));
    Extends(c2, Shadow([w.Z()], 0));
    calls := c2 + [Shadow([w.Z()], 0)];
  }

  /**
   With manual removals the derived id can be in use: the first two found an Event, the third joins, the first two are
   removed, and the first is grouped again. It founds the Event again with the second, over the third.
   */
  lemma RefoundingOrphans(w: Scene) returns (calls: seq<Call>)
    requires w.Distinct()
    ensures calls == [Shadow([w.X()], 0)] + [Shadow([w.Y()], 0)] + [Shadow([w.Z()], 0)] + [Remove(w.a)] + [Remove(w.b)] + [Shadow([w.X()], 0)]
    ensures Breaks(calls)
  {
    var c3 := ThreeTogether(w);
    var c4 := c3 + [Remove(w.a)];
    var c5 := c4 + [Remove(w.b)];
    calls := c5 + [Shadow([w.X()], 0)];
    OneMore(c3, Remove(w.a));
    OneMore(c4, Remove(w.b));
    FoundersLeave(w, Run(c3));
    FoundedAgain(w, Run(c5));
    OneMore(c5, Shadow([w.X()], 0));
  }
}
