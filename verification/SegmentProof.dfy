/**
 The Segment maps stay exact inverses under every operation. Three operations write to an id without looking whether it
 is in use, and one drops a Segment it moves an update onto; each keeps the partition exactly when its condition holds.
 */
module SegmentProof {
  import opened Common
  import opened EventTimeline

  /** Segments and memberships are inverse, agree on the Event, and no Segment is empty. */
  ghost predicate Partition(t: Timeline) {
    && (forall s :: s in t.segments ==> t.segments[s].members != {})
    && (forall s, u :: s in t.segments && u in t.segments[s].members ==>
          u in t.memberships && t.memberships[u].segmentId == s && t.memberships[u].eventId == t.segments[s].eventId)
    && (forall u :: u in t.memberships ==>
          t.memberships[u].segmentId in t.segments && u in t.segments[t.memberships[u].segmentId].members)
  }

  /** Every membership is of the Event its update is in now. */
  ghost predicate UpToDate(t: Timeline) {
    forall u :: u in t.memberships ==> u in t.eventOf && t.eventOf[u] == t.memberships[u].eventId
  }

  // ---------------------------------------------------------------- matching

  /** An attaching match never bridges content timestamps more than two minutes apart, and never crosses Events. */
  lemma AttachingAgreesOnTime(x: Fingerprint, y: Fingerprint, containers: set<string>)
    requires x.id != y.id && Moment(x, y, containers).same
    ensures x.eventId == y.eventId
    ensures BothSome(x.timestamp, y.timestamp) ==> Distance(x.timestamp.value, y.timestamp.value) <= 120
  {
    var signals := Signals(x, y, containers);
    var conflicts := Conflicts(x, y, signals);
    if BothSome(x.timestamp, y.timestamp) && Distance(x.timestamp.value, y.timestamp.value) > 120 {
      MismatchWhenApart(x, y, signals);
      MismatchNeverAttaches(Score(x, y, signals, conflicts), signals, conflicts);
    }
  }

  /** A shared quote, medium, timestamp, clip or question makes one moment when nothing speaks against it. */
  lemma AnchoredMomentsAttach(x: Fingerprint, y: Fingerprint, containers: set<string>)
    requires x.id != y.id && x.eventId == y.eventId
    requires Anchored(Signals(x, y, containers)) && Conflicts(x, y, Signals(x, y, containers)) == {}
    ensures Moment(x, y, containers).relationship == SameMoment && Moment(x, y, containers).same
  {
    AnchoredScore(x, y, Signals(x, y, containers));
  }

  lemma AnchoredScore(x: Fingerprint, y: Fingerprint, signals: set<Signal>)
    requires Anchored(signals)
    ensures Score(x, y, signals, {}) >= 78
  {
    var s :| s in signals * {SharedQuote, SharedMedia, SameTimestamp, SharedClip, SameQuestion};
    assert Topics(x, y) >= 0;
  }

  lemma MismatchNeverAttaches(score: int, signals: set<Signal>, conflicts: set<Conflict>)
    requires TimestampMismatch in conflicts
    ensures !Attaches(Relate(score, signals, conflicts))
  {
  }

  lemma MismatchWhenApart(x: Fingerprint, y: Fingerprint, signals: set<Signal>)
    requires BothSome(x.timestamp, y.timestamp) && Distance(x.timestamp.value, y.timestamp.value) > 120
    ensures TimestampMismatch in Conflicts(x, y, signals)
  {
  }

  // ---------------------------------------------------------------- reconciliation

  lemma ReconcilingKeeps(t: Timeline)
    requires Partition(t)
    ensures Partition(Reconciled(t)) && UpToDate(Reconciled(t))
    ensures forall u :: u in Reconciled(t).memberships <==> u in t.memberships && u in t.eventOf && t.eventOf[u] == t.memberships[u].eventId
    ensures forall u :: u in Reconciled(t).memberships ==> Reconciled(t).memberships[u] == t.memberships[u]
  {
    var r, dropped := Reconciled(t), Stale(t);
    forall u | u in r.memberships
      ensures r.memberships[u].segmentId in r.segments && u in r.segments[r.memberships[u].segmentId].members
    {
      assert u in MembersAfter(t, t.memberships[u].segmentId, dropped);
    }
    forall s, u | s in r.segments && u in r.segments[s].members ensures u in r.memberships {
      assert t.memberships[u].segmentId == s;
    }
  }

  /** Reconciliation changes nothing but stale relations when every membership is up to date. */
  lemma ReconcilingIsIdle(t: Timeline)
    requires Partition(t) && UpToDate(t)
    ensures Reconciled(t).segments == t.segments && Reconciled(t).memberships == t.memberships
  {
    assert Stale(t) == {};
    forall s | s in t.segments ensures MembersAfter(t, s, {}) == t.segments[s].members && t.segments[s].members != {} {
    }
  }

  // ---------------------------------------------------------------- the unguarded writes

  /** Seeding an unassigned update keeps the partition exactly when the derived id is unused. */
  lemma SeedingKeepsPartitionIff(t: Timeline, event: string, u: string)
    requires Partition(t) && u !in t.memberships
    ensures Partition(Seeded(t, event, u)) <==> SegmentId(event, {u}) !in t.segments
  {
    var id, next := SegmentId(event, {u}), Seeded(t, event, u);
    if id in t.segments {
      var v :| v in t.segments[id].members;
      assert v in next.memberships && next.memberships[v].segmentId == id && v !in next.segments[id].members;
    } else {
      assert u in next.segments[id].members;
      forall v | v in next.memberships
        ensures next.memberships[v].segmentId in next.segments && v in next.segments[next.memberships[v].segmentId].members
      {
        if v != u { assert t.memberships[v].segmentId in t.segments; }
      }
    }
  }

  lemma AttachingKeeps(t: Timeline, s: SegmentId, x: Fingerprint, c: Candidate)
    requires Partition(t) && s in t.segments && x.id !in t.memberships && x.eventId == t.segments[s].eventId
    ensures Partition(Attached(t, s, x, c))
  {
    var next := Attached(t, s, x, c);
    assert x.id in next.segments[s].members;
    forall r, u | r in next.segments && u in next.segments[r].members
      ensures u in next.memberships && next.memberships[u].segmentId == r && next.memberships[u].eventId == next.segments[r].eventId
    {
      assert u in t.segments[r].members || (u == x.id && r == s);
    }
  }

  /** Reclassification keeps the partition exactly when it is not onto the update's own singleton. */
  lemma ReclassifyingKeepsPartitionIff(t: Timeline, u: string, target: SegmentId, confidence: int)
    requires Partition(t)
    requires MayMove(Reconciled(t), u, target)
    ensures Partition(Reclassified(t, u, target, confidence)) <==> Reconciled(t).segments[target].members != {u}
  {
    ReconcilingKeeps(t);
    RelocatingKeepsPartitionIff(Reconciled(t), u, target, confidence);
  }

  lemma RelocatingKeepsPartitionIff(r: Timeline, u: string, target: SegmentId, confidence: int)
    requires Partition(r) && target in r.segments
    ensures Partition(Relocated(r, u, target, confidence)) <==> r.segments[target].members != {u}
  {
    var next, w := Relocated(r, u, target, confidence), WithoutMember(r, u);
    if r.segments[target].members == {u} {
      assert u in r.segments[target].members;
      assert target !in w && next.segments == w;
      assert u in next.memberships && next.memberships[u].segmentId == target;
    } else {
      TargetSurvives(r, u, target);
      assert next.segments == w[target := w[target].(members := w[target].members + {u})];
      ReclassifiedIsPartition(r, next, u, target);
    }
  }

  lemma TargetSurvives(r: Timeline, u: string, target: SegmentId)
    requires Partition(r) && target in r.segments && r.segments[target].members != {u}
    ensures var w := WithoutMember(r, u);
            && target in w
            && (forall s :: s in w ==> s in r.segments && w[s].eventId == r.segments[s].eventId
                                       && w[s].members == r.segments[s].members - {u} && w[s].members != {})
            && (forall s :: s in r.segments && s !in w ==> r.segments[s].members == {u})
  {
    var w := WithoutMember(r, u);
    forall s | s in r.segments && (u !in r.memberships || r.memberships[u].segmentId != s)
      ensures r.segments[s].members - {u} == r.segments[s].members
    {
    }
    if u in r.memberships {
      var from := r.memberships[u].segmentId;
      assert u in r.segments[from].members;
      assert r.segments[from].members - {u} == {} ==> r.segments[from].members == {u};
    }
  }

  /** The partition after one update moved to `target`, from the members of each Segment. */
  lemma ReclassifiedIsPartition(r: Timeline, next: Timeline, u: string, target: SegmentId)
    requires Partition(r) && target in next.segments
    requires forall s :: s in next.segments ==>
               && s in r.segments && next.segments[s].eventId == r.segments[s].eventId && next.segments[s].members != {}
               && next.segments[s].members == (if s == target then r.segments[s].members - {u} + {u} else r.segments[s].members - {u})
    requires forall s :: s in r.segments && s !in next.segments ==> r.segments[s].members == {u}
    requires u in next.memberships && next.memberships[u].segmentId == target && next.memberships[u].eventId == r.segments[target].eventId
    requires next.memberships.Keys == r.memberships.Keys + {u}
    requires forall v :: v in r.memberships && v != u ==> next.memberships[v] == r.memberships[v]
    ensures Partition(next)
  {
    forall s, v | s in next.segments && v in next.segments[s].members
      ensures v in next.memberships && next.memberships[v].segmentId == s && next.memberships[v].eventId == next.segments[s].eventId
    {
      MemberPointsBack(r, next, u, target, s, v);
    }
    forall v | v in next.memberships
      ensures next.memberships[v].segmentId in next.segments && v in next.segments[next.memberships[v].segmentId].members
    {
      if v != u { assert v in r.segments[r.memberships[v].segmentId].members; }
    }
  }

  lemma MemberPointsBack(r: Timeline, next: Timeline, u: string, target: SegmentId, s: SegmentId, v: string)
    requires Partition(r) && target in next.segments && target in r.segments && s in next.segments && s in r.segments
    requires next.segments[s].eventId == r.segments[s].eventId && v in next.segments[s].members
    requires next.segments[s].members == (if s == target then r.segments[s].members - {u} + {u} else r.segments[s].members - {u})
    requires u in next.memberships && next.memberships[u].segmentId == target && next.memberships[u].eventId == r.segments[target].eventId
    requires next.memberships.Keys == r.memberships.Keys + {u}
    requires v in r.memberships && v != u ==> next.memberships[v] == r.memberships[v]
    ensures v in next.memberships && next.memberships[v].segmentId == s && next.memberships[v].eventId == next.segments[s].eventId
  {
    if v != u { assert v in r.segments[s].members; }
  }

  /** The partition after a set of updates of one Event became the members of one Segment. */
  lemma RegroupedIsPartition(r: Timeline, next: Timeline, us: set<string>, id: SegmentId, origin: Origin)
    requires Partition(r) && us != {} && us <= r.memberships.Keys && next.memberships == Moved(r, us, id, origin)
    requires id in next.segments && next.segments[id].members == us
    requires forall u :: u in us ==> r.memberships[u].eventId == next.segments[id].eventId
    requires forall s :: s in next.segments && s != id ==>
               && s in r.segments && next.segments[s].eventId == r.segments[s].eventId && next.segments[s].members != {}
               && next.segments[s].members == r.segments[s].members - us
    requires forall s :: s in r.segments && (s !in next.segments || s == id) ==> r.segments[s].members <= us
    ensures Partition(next)
  {
    forall s, u | s in next.segments && u in next.segments[s].members
      ensures u in next.memberships && next.memberships[u].segmentId == s && next.memberships[u].eventId == next.segments[s].eventId
    {
      MovedAt(r, us, id, origin, u);
      if s != id { assert u in r.segments[s].members; }
    }
    forall v | v in next.memberships
      ensures next.memberships[v].segmentId in next.segments && v in next.segments[next.memberships[v].segmentId].members
    {
      MovedAt(r, us, id, origin, v);
      if v !in us { assert v in r.segments[r.memberships[v].segmentId].members; }
    }
  }

  lemma MovedAt(r: Timeline, us: set<string>, id: SegmentId, origin: Origin, u: string)
    ensures var moved := Moved(r, us, id, origin);
      && (u in moved <==> u in r.memberships)
      && (u in moved && u in us ==> moved[u].segmentId == id && moved[u].eventId == r.memberships[u].eventId)
      && (u in moved && u !in us ==> moved[u] == r.memberships[u])
  {
  }

  /** The members of two Segments are disjoint. */
  lemma SegmentsDisjoint(r: Timeline, s: SegmentId, us: set<string>, d: SegmentId)
    requires Partition(r) && s in r.segments && d in r.segments && s != d && us <= r.segments[s].members
    ensures r.segments[d].members - us == r.segments[d].members
  {
    assert forall u :: u in r.segments[d].members ==> r.memberships[u].segmentId == d;
  }

  /** Splitting keeps the partition exactly when the id derived from the moved updates is unused. */
  lemma SplittingKeepsPartitionIff(t: Timeline, s: SegmentId, moved: set<string>)
    requires Partition(t) && MaySplit(Reconciled(t), s, moved)
    ensures Partition(Split(t, s, moved)) <==> SegmentId(Reconciled(t).segments[s].eventId, moved) !in Reconciled(t).segments
  {
    ReconcilingKeeps(t);
    var r := Reconciled(t);
    var id := SegmentId(r.segments[s].eventId, moved);
    if id in r.segments {
      var v :| v in r.segments[id].members;
      assert r.memberships[v].segmentId == id && v !in moved;
      var next := Split(t, s, moved);
      assert v in next.memberships && next.memberships[v].segmentId == id && v !in next.segments[id].members;
    } else {
      FreshSplitKeeps(t, s, moved);
    }
  }

  lemma FreshSplitKeeps(t: Timeline, s: SegmentId, moved: set<string>)
    requires Partition(Reconciled(t)) && MaySplit(Reconciled(t), s, moved)
    requires SegmentId(Reconciled(t).segments[s].eventId, moved) !in Reconciled(t).segments
    ensures Partition(Split(t, s, moved))
  {
    var r, next := Reconciled(t), Split(t, s, moved);
    assert r.segments[s].members - moved != {} by {
      var v :| v in r.segments[s].members && v !in moved;
      assert v in r.segments[s].members - moved;
    }
    forall d | d in r.segments && d != s ensures r.segments[d].members - moved == r.segments[d].members {
      SegmentsDisjoint(r, s, moved, d);
    }
    RegroupedIsPartition(r, next, moved, SegmentId(r.segments[s].eventId, moved), SplitOff);
  }

  /** Merging keeps the partition exactly when the id derived from the union is unused or one of the two. */
  lemma MergingKeepsPartitionIff(t: Timeline, left: SegmentId, right: SegmentId)
    requires Partition(t) && MayMerge(Reconciled(t), left, right)
    ensures Partition(Merged(t, left, right))
            <==> MergedId(Reconciled(t), left, right) in {left, right} || MergedId(Reconciled(t), left, right) !in Reconciled(t).segments
  {
    ReconcilingKeeps(t);
    var r, next := Reconciled(t), Merged(t, left, right);
    var id, members := MergedId(r, left, right), r.segments[left].members + r.segments[right].members;
    if id in r.segments && id != left && id != right {
      var v :| v in r.segments[id].members;
      assert r.memberships[v].segmentId == id && v !in members;
      assert v in next.memberships && next.memberships[v].segmentId == id && v !in next.segments[id].members;
    } else {
      MergedIsPartition(r, next, left, right);
    }
  }

  lemma MergedIsPartition(r: Timeline, next: Timeline, left: SegmentId, right: SegmentId)
    requires Partition(r) && MayMerge(r, left, right)
    requires MergedId(r, left, right) in {left, right} || MergedId(r, left, right) !in r.segments
    requires var id, members := MergedId(r, left, right), r.segments[left].members + r.segments[right].members;
             && next.segments.Keys == r.segments.Keys - {left, right} + {id}
             && next.segments[id].members == members && next.segments[id].eventId == id.eventId
             && (forall s :: s in r.segments && s != left && s != right ==> next.segments[s] == r.segments[s])
             && next.memberships == Moved(r, members, id, MergedIn)
    ensures Partition(next)
  {
    var id, members := MergedId(r, left, right), r.segments[left].members + r.segments[right].members;
    MergedMembers(r, left, right);
    RegroupedIsPartition(r, next, members, id, MergedIn);
  }

  lemma MergedMembers(r: Timeline, left: SegmentId, right: SegmentId)
    requires Partition(r) && MayMerge(r, left, right)
    ensures var members := r.segments[left].members + r.segments[right].members;
      && members != {} && members <= r.memberships.Keys
      && (forall u :: u in members ==> r.memberships[u].eventId == r.segments[left].eventId)
      && (forall s :: s in r.segments && s != left && s != right ==> r.segments[s].members - members == r.segments[s].members)
  {
    var members := r.segments[left].members + r.segments[right].members;
    assert members != {} by { var v :| v in r.segments[left].members; assert v in members; }
    forall s | s in r.segments && s != left && s != right ensures r.segments[s].members - members == r.segments[s].members {
      SegmentsDisjoint(r, left, r.segments[left].members, s);
      SegmentsDisjoint(r, right, r.segments[right].members, s);
    }
  }

  lemma PruningKeeps(t: Timeline, kept: set<SegmentId>, keptRelations: set<RelationId>)
    requires Partition(t)
    ensures Partition(Pruned(t, kept, keptRelations)) && (UpToDate(t) ==> UpToDate(Pruned(t, kept, keptRelations)))
    ensures forall u :: u in t.memberships ==> (u in Pruned(t, kept, keptRelations).memberships <==> t.memberships[u].segmentId in kept)
  {
  }

  // ---------------------------------------------------------------- split then merge

  predicate Together(t: Timeline, u: string, v: string) {
    u in t.memberships && v in t.memberships && t.memberships[u].segmentId == t.memberships[v].segmentId
  }

  lemma SplitKeepsUpToDate(t: Timeline, s: SegmentId, moved: set<string>)
    requires Partition(t) && MaySplit(Reconciled(t), s, moved)
    ensures UpToDate(Split(t, s, moved))
  {
    ReconcilingKeeps(t);
  }

  /** Merging the two parts of a split restores the partition of updates, whatever Segments there are besides. */
  lemma SplitThenMergeRestores(t: Timeline, s: SegmentId, moved: set<string>)
    requires Partition(t) && UpToDate(t) && MaySplit(t, s, moved)
    requires var event, members := t.segments[s].eventId, t.segments[s].members;
             && SegmentId(event, moved) !in t.segments
             && (SegmentId(event, members) == s || SegmentId(event, members) !in t.segments)
    ensures var part := SegmentId(t.segments[s].eventId, moved);
            var whole := Merged(Split(t, s, moved), s, part);
            && Partition(whole)
            && whole.memberships.Keys == t.memberships.Keys
            && (forall u, v :: Together(whole, u, v) <==> Together(t, u, v))
            && SegmentId(t.segments[s].eventId, t.segments[s].members) in whole.segments
            && whole.segments[SegmentId(t.segments[s].eventId, t.segments[s].members)].members == t.segments[s].members
  {
    var part, split := SegmentId(t.segments[s].eventId, moved), Split(t, s, moved);
    SplitShape(t, s, moved);
    ReconcilingIsIdle(split);
    MergingKeepsPartitionIff(split, s, part);
    var whole, id := Merged(split, s, part), SegmentId(t.segments[s].eventId, t.segments[s].members);
    assert MergedId(Reconciled(split), s, part) == id;
    MergedShape(split, s, part);
    assert split.memberships == Moved(t, moved, part, SplitOff);
    assert whole.memberships == Moved(split, t.segments[s].members, id, MergedIn);
    MovedTwice(t, s, moved, split.memberships, whole.memberships, part, id);
  }

  lemma MovedTwice(t: Timeline, s: SegmentId, moved: set<string>, split: map<string, Membership>, whole: map<string, Membership>,
                   part: SegmentId, id: SegmentId)
    requires Partition(t) && s in t.segments && moved <= t.segments[s].members
    requires split == Moved(t, moved, part, SplitOff)
    requires whole == Moved(t.(memberships := split), t.segments[s].members, id, MergedIn)
    requires id == s || id !in t.segments
    ensures whole.Keys == t.memberships.Keys
    ensures forall u, v :: u in whole && v in whole ==>
              (whole[u].segmentId == whole[v].segmentId <==> t.memberships[u].segmentId == t.memberships[v].segmentId)
  {
    forall u | u in t.memberships
      ensures whole[u].segmentId == if t.memberships[u].segmentId == s then id else t.memberships[u].segmentId
    {
      assert u in t.segments[t.memberships[u].segmentId].members;
    }
  }

  lemma SplitShape(t: Timeline, s: SegmentId, moved: set<string>)
    requires Partition(t) && UpToDate(t) && MaySplit(t, s, moved) && SegmentId(t.segments[s].eventId, moved) !in t.segments
    ensures var part, split := SegmentId(t.segments[s].eventId, moved), Split(t, s, moved);
            && Partition(split) && UpToDate(split) && MayMerge(split, s, part)
            && split.segments.Keys == t.segments.Keys + {part}
            && split.segments[s].members + split.segments[part].members == t.segments[s].members
            && split.segments[s].eventId == t.segments[s].eventId
            && split.memberships == Moved(t, moved, part, SplitOff)
  {
    ReconcilingIsIdle(t);
    assert Reconciled(t).eventOf == t.eventOf;
    assert MaySplit(Reconciled(t), s, moved);
    SplittingKeepsPartitionIff(t, s, moved);
    SplitKeepsUpToDate(t, s, moved);
  }

  lemma MergedShape(t: Timeline, left: SegmentId, right: SegmentId)
    requires MayMerge(Reconciled(t), left, right) && Reconciled(t).segments == t.segments && Reconciled(t).memberships == t.memberships
    ensures var id, members := MergedId(t, left, right), t.segments[left].members + t.segments[right].members;
            && Merged(t, left, right).memberships == Moved(t, members, id, MergedIn)
            && id in Merged(t, left, right).segments && Merged(t, left, right).segments[id].members == members
  {
  }
}
