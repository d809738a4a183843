/** What an Event match means in terms of the fingerprints, and which updates end up in one Event. */
module FusionMatching {
  import opened Common
  import opened EventFusion
  import opened FusionProof

  // ---------------------------------------------------------------- pairs

  predicate Answers(x: Fingerprint, y: Fingerprint) {
    y.id != "" && x.replyTo == y.id
  }

  predicate InReply(x: Fingerprint, y: Fingerprint) {
    Answers(x, y) || Answers(y, x)
  }

  predicate ShareQuote(x: Fingerprint, y: Fingerprint) {
    (x.quoted != "" && x.quoted in {y.id, y.quoted}) || (y.quoted != "" && y.quoted in {x.id, x.quoted})
  }

  predicate Conversing(x: Fingerprint, y: Fingerprint) {
    x.conversation != "" && x.conversation == y.conversation && x.conversation != x.id && y.conversation != y.id
  }

  /** One answers or quotes the other, or both quote, refer to, or belong to the same. */
  predicate Linked(x: Fingerprint, y: Fingerprint) {
    InReply(x, y) || ShareQuote(x, y) || Conversing(x, y) || x.references * y.references != {}
  }

  predicate Concrete(eventType: string) {
    eventType !in {"unknown", "official_content", "social_update", "other"}
  }

  predicate TypesDiffer(x: Fingerprint, y: Fingerprint) {
    Concrete(x.eventType) && Concrete(y.eventType) && x.eventType != y.eventType
  }

  predicate Within(x: Fingerprint, y: Fingerprint, hours: nat) {
    x.created - y.created <= hours * HOUR && y.created - x.created <= hours * HOUR
  }

  lemma LinkedTells(x: Fingerprint, y: Fingerprint)
    ensures StronglyLinked(x, y) <==> Linked(x, y)
    ensures DirectReply in Signals(x, y) <==> InReply(x, y)
  {
  }

  lemma ConflictsTell(x: Fingerprint, y: Fingerprint)
    ensures LargeGap in Conflicts(x, y) <==> !Within(x, y, 7 * 24)
    ensures Gap in Conflicts(x, y) <==> Within(x, y, 7 * 24) && !Within(x, y, 72)
    ensures TypeConflict in Conflicts(x, y) <==> TypesDiffer(x, y)
    ensures Conflicts(x, y) == {} <==> Within(x, y, 72) && !TypesDiffer(x, y)
  {
    assert Gapped(x, y) <= 72 * HOUR <==> Within(x, y, 72);
    assert Gapped(x, y) <= 7 * 24 * HOUR <==> Within(x, y, 7 * 24);
    if Within(x, y, 72) && !TypesDiffer(x, y) {
      assert Conflicts(x, y) == {};
    }
  }

  /** Confident exactly when the two are linked, at most three days apart, and of no two concrete types. */
  lemma ConfidentMeans(x: Fingerprint, y: Fingerprint)
    requires x.id != y.id
    ensures Match(x, y).decision == Confident <==> Linked(x, y) && Within(x, y, 72) && !TypesDiffer(x, y)
  {
    ConfidentIff(x, y);
    LinkedTells(x, y);
    ConflictsTell(x, y);
  }

  lemma LinkScores(signals: set<Signal>, conflicts: set<Conflict>, topics: nat, delta: int)
    requires signals * STRONG != {} && LargeGap !in conflicts && !(Gap in conflicts && TypeConflict in conflicts)
    ensures Scored(signals, conflicts, topics, delta) >= 65
  {
    var s :| s in signals * STRONG;
  }

  lemma LinkDecides(score: int, signals: set<Signal>, conflicts: set<Conflict>)
    requires signals * STRONG != {} && score >= 65
    ensures Joins(Decide(score, signals, conflicts))
  {
  }

  /** A link joins within a week, unless it is both more than three days old and between two concrete types. */
  lemma LinksJoin(x: Fingerprint, y: Fingerprint)
    requires x.id != y.id && Linked(x, y) && Within(x, y, 7 * 24) && (Within(x, y, 72) || !TypesDiffer(x, y))
    ensures Joins(Match(x, y).decision)
  {
    StrongSignals(x, y);
    LinkedTells(x, y);
    ConflictsTell(x, y);
    LinkScores(Signals(x, y), Conflicts(x, y), TopicWeight(|x.topics * y.topics|, |x.topics + y.topics|), Gapped(x, y));
    LinkDecides(Score(x, y), Signals(x, y), Conflicts(x, y));
  }

  lemma ReplyScores(signals: set<Signal>, conflicts: set<Conflict>, topics: nat, delta: int)
    requires DirectReply in signals && !(LargeGap in conflicts && Gap in conflicts) && TypeConflict !in conflicts
    ensures Scored(signals, conflicts, topics, delta) >= 65
  {
  }

  /** A reply joins however late it comes, unless it is between two concrete types. */
  lemma LateRepliesJoin(x: Fingerprint, y: Fingerprint)
    requires x.id != y.id && InReply(x, y) && !TypesDiffer(x, y)
    ensures Joins(Match(x, y).decision)
  {
    StrongSignals(x, y);
    LinkedTells(x, y);
    ConflictsTell(x, y);
    assert DirectReply in Signals(x, y) * STRONG;
    ReplyScores(Signals(x, y), Conflicts(x, y), TopicWeight(|x.topics * y.topics|, |x.topics + y.topics|), Gapped(x, y));
    LinkDecides(Score(x, y), Signals(x, y), Conflicts(x, y));
  }

  /** At least two topics in common, and 22 in a hundred of all. */
  predicate TopicsOverlap(x: Fingerprint, y: Fingerprint) {
    |x.topics * y.topics| >= 2 && 100 * |x.topics * y.topics| >= 22 * |x.topics + y.topics|
  }

  lemma HintsTell(x: Fingerprint, y: Fingerprint)
    ensures SharedAnchor in Signals(x, y) <==> x.anchors * y.anchors != {}
    ensures TopicOverlap in Signals(x, y) <==> TopicWeight(|x.topics * y.topics|, |x.topics + y.topics|) > 0
    ensures SharedParticipants in Signals(x, y) <==> x.participants * y.participants != {}
  {
  }

  lemma WeakScores(signals: set<Signal>, conflicts: set<Conflict>, topics: nat, delta: int)
    requires signals * STRONG == {} && topics <= 30 && (SharedAnchor !in signals || topics == 0)
    ensures Scored(signals, conflicts, topics, delta) < 72
  {
    assert DirectReply in signals ==> DirectReply in signals * STRONG;
    assert SameConversation in signals ==> SameConversation in signals * STRONG;
    assert SharedQuote in signals ==> SharedQuote in signals * STRONG;
    assert SharedReference in signals ==> SharedReference in signals * STRONG;
  }

  /** Without a link, joining takes a shared anchor and overlapping topics, and no two concrete types; and it is never confident. */
  lemma UnlinkedJoinNeeds(x: Fingerprint, y: Fingerprint)
    requires x.id != y.id && !Linked(x, y) && Joins(Match(x, y).decision)
    ensures x.anchors * y.anchors != {} && TopicsOverlap(x, y) && !TypesDiffer(x, y) && Match(x, y).decision == Probable
  {
    StrongSignals(x, y);
    LinkedTells(x, y);
    ConflictsTell(x, y);
    HintsTell(x, y);
    var topics := TopicWeight(|x.topics * y.topics|, |x.topics + y.topics|);
    if x.anchors * y.anchors == {} || topics == 0 {
      WeakScores(Signals(x, y), Conflicts(x, y), topics, Gapped(x, y));
    }
  }

  /** It suffices with shared participants, three topics and 28 in a hundred in common, within three days. */
  lemma UnlinkedJoinSuffices(x: Fingerprint, y: Fingerprint)
    requires x.id != y.id && x.anchors * y.anchors != {} && x.participants * y.participants != {}
    requires |x.topics * y.topics| >= 3 && 100 * |x.topics * y.topics| >= 28 * |x.topics + y.topics|
    requires Within(x, y, 72) && !TypesDiffer(x, y)
    ensures Joins(Match(x, y).decision)
  {
    ConflictsTell(x, y);
    HintsTell(x, y);
    TopicsCount(x, y);
    var signals := Signals(x, y);
    RichScores(signals, Gapped(x, y));
    RichDecides(Score(x, y), signals);
  }

  lemma TopicsCount(x: Fingerprint, y: Fingerprint)
    requires |x.topics * y.topics| >= 3 && 100 * |x.topics * y.topics| >= 28 * |x.topics + y.topics|
    ensures TopicWeight(|x.topics * y.topics|, |x.topics + y.topics|) == 30
  {
    assert |x.topics + y.topics| >= 1 by { assert x.topics + y.topics != {}; }
  }

  lemma RichScores(signals: set<Signal>, delta: int)
    requires SharedAnchor in signals && SharedParticipants in signals
    ensures Scored(signals, {}, 30, delta) >= 72
  {
  }

  lemma RichDecides(score: int, signals: set<Signal>)
    requires score >= 72 && SharedAnchor in signals && SharedParticipants in signals && TopicOverlap in signals
    ensures Joins(Decide(score, signals, {}))
  {
    assert signals * {SharedAnchor, TopicOverlap, SharedParticipants} == {SharedAnchor, TopicOverlap, SharedParticipants};
  }

  // ---------------------------------------------------------------- company

  predicate Joinable(x: Fingerprint, others: seq<Fingerprint>, y: Fingerprint) {
    y in others && y.id != x.id && Joins(Match(x, y).decision)
  }

  /** All the placed updates it could join are in one Event. */
  ghost predicate Uncontested(t: Tables, x: Fingerprint, others: seq<Fingerprint>) {
    forall y, z :: Joinable(x, others, y) && Joinable(x, others, z) && y.id in t.memberships && z.id in t.memberships
                   ==> t.memberships[y.id] == t.memberships[z.id]
  }

  lemma {:induction false} PlausibleMember(memberships: map<string, EventId>, x: Fingerprint, others: seq<Fingerprint>, e: EventId)
    ensures e in Plausible(memberships, x, others)
            <==> exists y :: Joinable(x, others, y) && y.id in memberships && memberships[y.id] == e
  {
    if others != [] {
      var init, last := others[..|others| - 1], others[|others| - 1];
      PlausibleMember(memberships, x, init, e);
      assert forall y :: y in others <==> y in init || y == last;
      assert forall y :: Joinable(x, others, y) <==> Joinable(x, init, y) || (y == last && y.id != x.id && Joins(Match(x, y).decision));
    }
  }

  lemma PlausibleCount(t: Tables, x: Fingerprint, others: seq<Fingerprint>)
    ensures |Plausible(t.memberships, x, others)| <= 1 <==> Uncontested(t, x, others)
  {
    var events := Plausible(t.memberships, x, others);
    forall e ensures e in events <==> exists y :: Joinable(x, others, y) && y.id in t.memberships && t.memberships[y.id] == e {
      PlausibleMember(t.memberships, x, others, e);
    }
    AtMostOneIff(events);
    if |events| <= 1 {
      forall y, z | Joinable(x, others, y) && Joinable(x, others, z) && y.id in t.memberships && z.id in t.memberships
        ensures t.memberships[y.id] == t.memberships[z.id]
      {
        assert t.memberships[y.id] in events && t.memberships[z.id] in events;
      }
    }
  }

  lemma AtMostOneIff(s: set<EventId>)
    ensures |s| <= 1 <==> forall d, e :: d in s && e in s ==> d == e
  {
    if d :| d in s {
      assert |s - {d}| == |s| - 1;
      if |s| <= 1 {
        assert s == {d};
      } else {
        var e :| e in s - {d};
      }
    }
  }

  lemma BestJoinsIff(x: Fingerprint, others: seq<Fingerprint>)
    ensures (exists y :: Joinable(x, others, y)) <==> Best(x, others).Some? && Joinable(x, others, Best(x, others).value)
  {
    BestIsOther(x, others);
    if y :| Joinable(x, others, y) {
      BestIsUnbeaten(x, others, y);
      JoinsRank(Match(x, Best(x, others).value), Best(x, others).value, Match(x, y), y);
    }
  }

  lemma JoinsRank(c: Candidate, x: Fingerprint, d: Candidate, y: Fingerprint)
    requires !Worse(c, x, d, y) && Joins(d.decision)
    ensures Joins(c.decision)
  {
  }

  /**
   Grouping an unassigned update puts it into an Event if and only if some fingerprint joins it and those that do are
   not in two Events; and then into the Event of one that joins it.
   */
  lemma GroupedIff(t: Tables, x: Fingerprint, others: seq<Fingerprint>, now: Time)
    requires Partition(t) && x.id !in t.memberships
    ensures var next := GroupedOne(t, x, others, now);
      && (x.id in next.memberships <==> (exists y :: Joinable(x, others, y)) && Uncontested(t, x, others))
      && (x.id in next.memberships ==>
            exists y :: Joinable(x, others, y) && y.id in next.memberships && next.memberships[y.id] == next.memberships[x.id])
  {
    PlausibleCount(t, x, others);
    BestJoinsIff(x, others);
    BestIsOther(x, others);
    if x.id in GroupedOne(t, x, others, now).memberships {
      var y := Best(x, others).value;
      assert Joinable(x, others, y);
      JoinedShares(t, x, y, Match(x, y), now);
    }
  }

  lemma JoinedShares(t: Tables, x: Fingerprint, y: Fingerprint, c: Candidate, now: Time)
    requires Partition(t) && x.id !in t.memberships && x.id != y.id
    ensures var next := Joined(t, x, y, c, now);
      x.id in next.memberships && y.id in next.memberships && next.memberships[y.id] == next.memberships[x.id]
  {
  }

  /** The update was in no Event when its turn came, and could join others that are not in two Events. */
  ghost predicate FindsEvent(t: Tables, xs: seq<Fingerprint>, others: seq<Fingerprint>, now: Time, k: nat)
    requires k < |xs|
  {
    var before, x := GroupedAll(t, xs[..k], others, now), Current(others, xs[k]);
    x.id !in before.memberships && (exists y :: Joinable(x, others, y)) && Uncontested(before, x, others)
  }

  predicate SameEvent(t: Tables, u: string, v: string) {
    u in t.memberships && v in t.memberships && t.memberships[u] == t.memberships[v]
  }

  /** Whoever finds an Event in a shadow call is in one with an update that joins it after the call. */
  lemma BatchGathers(t: Tables, xs: seq<Fingerprint>, others: seq<Fingerprint>, now: Time, k: nat) returns (y: Fingerprint)
    requires Partition(t) && Seeded(t) && k < |xs| && FindsEvent(t, xs, others, now, k)
    ensures Joinable(Current(others, xs[k]), others, y)
    ensures SameEvent(GroupedAll(t, xs, others, now), Current(others, xs[k]).id, y.id)
  {
    GroupingAllKeeps(t, xs[..k], others, now);
    y := GroupGathers(GroupedAll(t, xs[..k], others, now), Current(others, xs[k]), others, now);
    GroupedSnoc(t, xs, others, now, k);
    SameEventStays(t, xs, others, now, k + 1, Current(others, xs[k]).id, y.id);
  }

  lemma GroupedSnoc(t: Tables, xs: seq<Fingerprint>, others: seq<Fingerprint>, now: Time, k: nat)
    requires k < |xs|
    ensures GroupedAll(t, xs[..k + 1], others, now) == GroupedOne(GroupedAll(t, xs[..k], others, now), Current(others, xs[k]), others, now)
  {
    assert xs[..k + 1][..k] == xs[..k];
  }

  lemma {:induction false} SameEventStays(t: Tables, xs: seq<Fingerprint>, others: seq<Fingerprint>, now: Time, m: nat, u: string, v: string)
    requires Partition(t) && Seeded(t) && m <= |xs| && SameEvent(GroupedAll(t, xs[..m], others, now), u, v)
    ensures SameEvent(GroupedAll(t, xs, others, now), u, v)
    decreases |xs|
  {
    if m == |xs| {
      assert xs[..m] == xs;
    } else {
      var n := |xs| - 1;
      assert xs[..n][..m] == xs[..m];
      SameEventStays(t, xs[..n], others, now, m, u, v);
      GroupingAllKeeps(t, xs[..n], others, now);
      GroupingOneKeeps(GroupedAll(t, xs[..n], others, now), Current(others, xs[n]), others, now);
    }
  }

  lemma GroupGathers(t: Tables, x: Fingerprint, others: seq<Fingerprint>, now: Time) returns (y: Fingerprint)
    requires Partition(t) && x.id !in t.memberships && (exists y :: Joinable(x, others, y)) && Uncontested(t, x, others)
    ensures Joinable(x, others, y) && SameEvent(GroupedOne(t, x, others, now), x.id, y.id)
  {
    GroupedIff(t, x, others, now);
    var next := GroupedOne(t, x, others, now);
    y :| Joinable(x, others, y) && y.id in next.memberships && next.memberships[y.id] == next.memberships[x.id];
  }

  // ---------------------------------------------------------------- the table of fingerprints

  /** Storing a fingerprint makes it the current one of its id, and of no other. */
  lemma {:induction false} StoringIs(table: seq<Fingerprint>, x: Fingerprint, z: Fingerprint)
    ensures Current(Assigned(table, x), z) == if z.id == x.id then x else Current(table, z)
  {
    if table != [] && table[0].id != x.id {
      StoringIs(table[1..], x, z);
      assert Assigned(table, x)[1..] == Assigned(table[1..], x);
    } else if table != [] {
      assert ([x] + table[1..])[1..] == table[1..];
    }
  }

  /** Of a batch the last fingerprint of an id is the current one. */
  lemma {:induction false} LastStoredIsCurrent(table: seq<Fingerprint>, xs: seq<Fingerprint>, k: nat)
    requires k < |xs| && forall j :: k < j < |xs| ==> xs[j].id != xs[k].id
    ensures Current(AssignedAll(table, xs), xs[k]) == xs[k]
    decreases |xs|
  {
    var n := |xs| - 1;
    StoringIs(AssignedAll(table, xs[..n]), xs[n], xs[k]);
    if k < n {
      LastStoredIsCurrent(table, xs[..n], k);
    }
  }

  /** The updates of a shadow call are taken from the oldest on, equally old ones by id. */
  lemma OldestFirst(xs: seq<Fingerprint>, i: nat, j: nat)
    requires Ordered(xs) && i < j < |xs|
    ensures xs[i].created < xs[j].created || (xs[i].created == xs[j].created && (xs[i].id == xs[j].id || Before(xs[i].id, xs[j].id)))
  {
    BeforeTotal(xs[i].id, xs[j].id);
  }

  // ---------------------------------------------------------------- types

  /** An Event that was generic takes the type of the update that joins it; its confidence is that of its weakest match. */
  lemma JoiningTells(t: Tables, id: EventId, x: Fingerprint, c: Candidate, now: Time)
    requires id in t.events
    ensures var before, after := t.events[id], Attached(t, id, x, c, now).events[id];
      && (Concrete(before.eventType) || !Concrete(x.eventType) ==> after.eventType == before.eventType)
      && (!Concrete(before.eventType) && Concrete(x.eventType) ==> after.eventType == x.eventType)
      && after.confidence <= before.confidence && after.confidence <= c.confidence && after.confidence in {before.confidence, c.confidence}
      && after.updated == now
  {
  }

  /** A concrete type prevails over a generic one, and two concrete ones only agree when they are equal. */
  lemma MergedTypeIs(x: string, y: string)
    ensures MergedType(x, y) == MergedType(y, x) || (!Concrete(x) && !Concrete(y))
    ensures Concrete(MergedType(x, y)) <==> (Concrete(x) || Concrete(y)) && (Concrete(x) && Concrete(y) ==> x == y)
    ensures Concrete(MergedType(x, y)) ==> MergedType(x, y) == if Concrete(x) then x else y
  {
  }
}
