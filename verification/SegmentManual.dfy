/** What the manual operations on Segments do to who is together with whom. */
module SegmentManual {
  import opened Common
  import opened EventTimeline
  import opened SegmentProof

  /** After a split exactly the pairs of which one was moved and the other was not are apart. */
  lemma SplitMeans(t: Timeline, s: SegmentId, moved: set<string>, u: string, v: string)
    requires Partition(t) && UpToDate(t) && s in t.segments && moved != {} && moved < t.segments[s].members
    requires SegmentId(t.segments[s].eventId, moved) !in t.segments
    ensures Together(Split(t, s, moved), u, v)
            <==> Together(t, u, v) && (t.memberships[u].segmentId == s ==> (u in moved <==> v in moved))
  {
    assert MaySplit(t, s, moved);
    SplitShape(t, s, moved);
    MovedTells(t, s, moved, u);
    MovedTells(t, s, moved, v);
  }

  lemma MovedTells(t: Timeline, s: SegmentId, moved: set<string>, u: string)
    requires Partition(t) && s in t.segments && moved <= t.segments[s].members
    ensures u in moved ==> u in t.memberships && t.memberships[u].segmentId == s
    ensures u in t.memberships ==> t.memberships[u].segmentId in t.segments
  {
  }

  /** After a merge exactly the pairs that were together, or both in the merged Segments, are. */
  lemma MergeMeans(t: Timeline, left: SegmentId, right: SegmentId, u: string, v: string)
    requires Partition(t) && UpToDate(t) && left in t.segments && right in t.segments
    requires t.segments[left].eventId == t.segments[right].eventId
    requires MergedId(t, left, right) in {left, right} || MergedId(t, left, right) !in t.segments
    ensures Together(Merged(t, left, right), u, v)
            <==> u in t.memberships && v in t.memberships
                 && (Together(t, u, v) || {t.memberships[u].segmentId, t.memberships[v].segmentId} <= {left, right})
  {
    ReconcilingIsIdle(t);
    MergedShape(t, left, right);
    if u in t.memberships && v in t.memberships {
      MergedTells(t, left, right, u);
      MergedTells(t, left, right, v);
    }
  }

  lemma MergedTells(t: Timeline, left: SegmentId, right: SegmentId, u: string)
    requires Partition(t) && left in t.segments && right in t.segments && u in t.memberships
    ensures t.memberships[u].segmentId in t.segments
    ensures u in t.segments[left].members + t.segments[right].members <==> t.memberships[u].segmentId in {left, right}
  {
  }

  /** A move puts the update into the target and nobody else anywhere. */
  lemma MoveMeans(t: Timeline, u: string, target: SegmentId, confidence: int)
    requires Partition(t) && UpToDate(t) && target in t.segments && u in t.eventOf && t.eventOf[u] == t.segments[target].eventId
    ensures var next := Reclassified(t, u, target, confidence);
      && u in next.memberships && next.memberships[u].segmentId == target && next.memberships[u].eventId == t.segments[target].eventId
      && (forall v :: v != u ==> (v in next.memberships <==> v in t.memberships))
      && (forall v :: v != u && v in t.memberships ==> next.memberships[v] == t.memberships[v])
  {
    ReconcilingIsIdle(t);
  }
}
