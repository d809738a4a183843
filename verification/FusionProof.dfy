/**
 The Event maps stay exact inverses. Over runs of shadow grouping this follows from a seed invariant: every
 live Event holds both updates its id is derived from. Manual removal breaks that invariant, and with it the
 freshness that founding an Event relies on; the exact condition is stated.
 */
module FusionProof {
  import opened Common
  import opened EventFusion

  /** Events and memberships are inverse maps, and no Event is empty. */
  ghost predicate Partition(t: Tables) {
    && (forall e :: e in t.events ==> t.events[e].members != {})
    && (forall e, u :: e in t.events && u in t.events[e].members ==> u in t.memberships && t.memberships[u] == e)
    && (forall u :: u in t.memberships ==> t.memberships[u] in t.events && u in t.events[t.memberships[u]].members)
  }

  ghost predicate Seeded(t: Tables) {
    forall e :: e in t.events ==> |e.seeds| == 2 && e.seeds <= t.events[e].members
  }

  /** Live Events and memberships persist; Events only gain members. */
  ghost predicate Grows(t: Tables, next: Tables) {
    && (forall e :: e in t.events ==> e in next.events && t.events[e].members <= next.events[e].members)
    && (forall u :: u in t.memberships ==> u in next.memberships && next.memberships[u] == t.memberships[u])
  }

  lemma NoUpdateInTwoEvents(t: Tables, u: string, d: EventId, e: EventId)
    requires Partition(t) && d in t.events && e in t.events && u in t.events[d].members && u in t.events[e].members
    ensures d == e
  {
    assert t.memberships[u] == d;
  }

  /** Founding an Event on two unassigned updates keeps the maps inverse exactly when its derived id is not in use. */
  lemma FoundingKeepsPartitionIff(t: Tables, x: Fingerprint, y: Fingerprint, c: Candidate, now: Time)
    requires Partition(t) && x.id != y.id && x.id !in t.memberships && y.id !in t.memberships
    ensures Partition(Created(t, x, y, c, now)) <==> EventId({x.id, y.id}) !in t.events
  {
    var id, next := EventId({x.id, y.id}), Created(t, x, y, c, now);
    if id in t.events {
      var u :| u in t.events[id].members;
      assert t.memberships[u] == id;
      assert u in next.memberships && next.memberships[u] == id && u !in next.events[id].members;
    } else {
      forall e, u | e in next.events && u in next.events[e].members ensures u in next.memberships && next.memberships[u] == e {
        if e != id { assert t.memberships[u] == e; }
      }
      forall u | u in next.memberships ensures next.memberships[u] in next.events && u in next.events[next.memberships[u]].members {
        if u != x.id && u != y.id { assert t.memberships[u] in t.events; }
      }
      assert next.events[id].members != {} by { assert x.id in next.events[id].members; }
    }
  }

  /** The freshness is free while every live Event holds its seeds. */
  lemma SeedsMakeFresh(t: Tables, x: Fingerprint, y: Fingerprint)
    requires Partition(t) && Seeded(t) && x.id !in t.memberships
    ensures EventId({x.id, y.id}) !in t.events
  {
    var id := EventId({x.id, y.id});
    assert forall e :: e in t.events && x.id in e.seeds ==> x.id in t.events[e].members;
    assert x.id in id.seeds;
  }

  lemma AttachingKeeps(t: Tables, id: EventId, x: Fingerprint, c: Candidate, now: Time)
    requires Partition(t) && id in t.events && x.id !in t.memberships
    ensures Partition(Attached(t, id, x, c, now)) && Grows(t, Attached(t, id, x, c, now))
    ensures Seeded(t) ==> Seeded(Attached(t, id, x, c, now))
  {
    var next := Attached(t, id, x, c, now);
    assert x.id in next.events[id].members;
    forall e, u | e in next.events && u in next.events[e].members ensures u in next.memberships && next.memberships[u] == e {
      assert u in t.events[e].members || (u == x.id && e == id);
    }
  }

  lemma {:induction false} BestIsOther(x: Fingerprint, others: seq<Fingerprint>)
    ensures Best(x, others).Some? ==> Best(x, others).value in others && Best(x, others).value.id != x.id
  {
    if others != [] { BestIsOther(x, others[..|others| - 1]); }
  }

  /** The chosen match is unbeaten, and none is missed. */
  lemma {:induction false} BestIsUnbeaten(x: Fingerprint, others: seq<Fingerprint>, y: Fingerprint)
    requires y in others && y.id != x.id
    ensures Best(x, others).Some? && !Worse(Match(x, Best(x, others).value), Best(x, others).value, Match(x, y), y)
  {
    var last, init := others[|others| - 1], others[..|others| - 1];
    BestIsOther(x, init);
    if y in init {
      BestIsUnbeaten(x, init, y);
      var b := Best(x, init).value;
      if last.id != x.id && Worse(Match(x, b), b, Match(x, last), last) {
        UnbeatenChain(x, b, last, y);
      }
    } else {
      assert y == last;
      BeforeTotal(y.id, y.id);
      if Best(x, init).Some? {
        BeforeTotal(Best(x, init).value.id, y.id);
      }
    }
  }

  lemma UnbeatenChain(x: Fingerprint, b: Fingerprint, last: Fingerprint, y: Fingerprint)
    requires Worse(Match(x, b), b, Match(x, last), last) && !Worse(Match(x, b), b, Match(x, y), y)
    ensures !Worse(Match(x, last), last, Match(x, y), y)
  {
    if Rank(Match(x, b)) == Rank(Match(x, y)) && Match(x, b).confidence == Match(x, y).confidence
       && Rank(Match(x, b)) == Rank(Match(x, last)) && Match(x, b).confidence == Match(x, last).confidence
       && Before(last.id, y.id) {
      BeforeTransitive(b.id, last.id, y.id);
    }
  }

  lemma GroupingOneKeeps(t: Tables, x: Fingerprint, others: seq<Fingerprint>, now: Time)
    requires Partition(t) && Seeded(t)
    ensures Partition(GroupedOne(t, x, others, now)) && Seeded(GroupedOne(t, x, others, now)) && Grows(t, GroupedOne(t, x, others, now))
  {
    BestIsOther(x, others);
    if GroupedOne(t, x, others, now) != t {
      var y := Best(x, others).value;
      if y.id in t.memberships {
        AttachingKeeps(t, t.memberships[y.id], x, Match(x, y), now);
      } else {
        SeedsMakeFresh(t, x, y);
        FoundingKeeps(t, x, y, Match(x, y), now);
      }
    }
  }

  lemma FoundingKeeps(t: Tables, x: Fingerprint, y: Fingerprint, c: Candidate, now: Time)
    requires Partition(t) && Seeded(t) && x.id != y.id && x.id !in t.memberships && y.id !in t.memberships
    requires EventId({x.id, y.id}) !in t.events
    ensures Partition(Created(t, x, y, c, now)) && Seeded(Created(t, x, y, c, now)) && Grows(t, Created(t, x, y, c, now))
  {
    FoundingKeepsPartitionIff(t, x, y, c, now);
    assert |{x.id, y.id}| == 2;
  }

  lemma {:induction false} GroupingAllKeeps(t: Tables, xs: seq<Fingerprint>, others: seq<Fingerprint>, now: Time)
    requires Partition(t) && Seeded(t)
    ensures Partition(GroupedAll(t, xs, others, now)) && Seeded(GroupedAll(t, xs, others, now)) && Grows(t, GroupedAll(t, xs, others, now))
  {
    if xs != [] {
      GroupingAllKeeps(t, xs[..|xs| - 1], others, now);
      GroupingOneKeeps(GroupedAll(t, xs[..|xs| - 1], others, now), Current(others, xs[|xs| - 1]), others, now);
    }
  }

  /** Eviction drops whole Events with all their memberships and touches no other. */
  lemma PruningKeeps(t: Tables, kept: set<EventId>, prints: set<string>)
    requires Partition(t)
    ensures Partition(Pruned(t, kept, prints)) && (Seeded(t) ==> Seeded(Pruned(t, kept, prints)))
    ensures forall e :: e in t.events ==> if e in kept then e in Pruned(t, kept, prints).events && Pruned(t, kept, prints).events[e] == t.events[e]
                                          else e !in Pruned(t, kept, prints).events
    ensures forall u :: u in t.memberships ==> (u in Pruned(t, kept, prints).memberships <==> t.memberships[u] in kept)
  {
  }

  // ---------------------------------------------------------------- manual correction

  lemma RemovingKeeps(t: Tables, u: string)
    requires Partition(t)
    ensures Partition(Removed(t, u)) && u !in Removed(t, u).memberships
    ensures forall v :: v in t.memberships && v != u ==> v in Removed(t, u).memberships && Removed(t, u).memberships[v] == t.memberships[v]
  {
    if u in t.memberships {
      var id, next := t.memberships[u], Removed(t, u);
      forall v | v in next.memberships ensures next.memberships[v] in next.events && v in next.events[next.memberships[v]].members {
        assert v in t.events[t.memberships[v]].members;
        if t.memberships[v] == id { assert v in t.events[id].members - {u}; }
      }
    }
  }

  /** Reclassification keeps the partition whatever the target; it lands the update there unless the target was its own singleton. */
  lemma ReclassifyingKeeps(t: Tables, u: string, target: EventId)
    requires Partition(t)
    ensures Partition(Reclassified(t, u, target))
    ensures var next := Reclassified(t, u, target);
            (u in next.memberships && next.memberships[u] == target)
            <==> (target in t.events && t.events[target].members != {u})
  {
    RemovingKeeps(t, u);
    var without, next := Removed(t, u), Reclassified(t, u, target);
    if target in t.events {
      if target in without.events {
        assert u in next.events[target].members;
        if u in t.memberships && t.memberships[u] == target {
          assert t.events[target].members - {u} != {};
        } else {
          assert u !in t.events[target].members;
        }
        forall e, v | e in next.events && v in next.events[e].members ensures v in next.memberships && next.memberships[v] == e {
          if v == u { assert e != target ==> u in without.events[e].members; }
        }
      } else {
        assert t.events[target].members - {u} == {};
        var v :| v in t.events[target].members;
        assert t.events[target].members == {u};
      }
    } else if u in t.memberships {
      assert t.memberships[u] in t.events;
    }
  }
}
