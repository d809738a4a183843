/**
 Event Fusion: grouping updates into Events under two hand-kept maps, Event to members and update to Event.

 An Event id is a hash of its two seed ids; the hash is taken to be injective, so the id is modelled as
 the seed set itself. Scores are whole hundredths. The fingerprint table is an insertion-ordered
 dictionary. The spec of a call is `Grouped`; the class keeps the same maps as fields.
 */
module EventFusion {
  import opened Common

  datatype EventId = EventId(seeds: set<string>)

  datatype Fingerprint = Fingerprint(
    id: string, source: string, created: Time, eventType: string, conversation: string, replyTo: string, quoted: string,
    references: set<string>, topics: set<string>, anchors: set<string>, participants: set<string>)

  datatype Signal = DirectReply | SameConversation | SharedQuote | SharedReference | SharedAnchor | TopicOverlap
                  | SharedParticipants | CompatibleType | Proximity | SameIdentity

  datatype Conflict = LargeGap | Gap | TypeConflict | CompetingEvents

  datatype Decision = Separate | Ambiguous | Probable | Confident

  datatype Candidate = Candidate(confidence: int, signals: set<Signal>, conflicts: set<Conflict>, decision: Decision)

  const HOUR := 3600 * 1_000_000

  predicate Generic(eventType: string) {
    eventType in {"unknown", "official_content", "social_update", "other"}
  }

  // ---------------------------------------------------------------- matching

  predicate Threaded(fp: Fingerprint) {
    fp.conversation != "" && fp.conversation != fp.id
  }

  predicate ReplyRelated(x: Fingerprint, y: Fingerprint) {
    (x.replyTo != "" && x.replyTo == y.id) || (y.replyTo != "" && y.replyTo == x.id)
  }

  predicate QuoteRelated(x: Fingerprint, y: Fingerprint) {
    (x.quoted != "" && (x.quoted == y.quoted || x.quoted == y.id)) || (y.quoted != "" && y.quoted == x.id)
  }

  /** Overlap weight: enough shared topics, and a large enough share of all topics. */
  function TopicWeight(shared: nat, union: nat): nat {
    if shared >= 3 && 100 * shared >= 28 * Max(1, union) then 30
    else if shared >= 2 && 100 * shared >= 22 * Max(1, union) then 22
    else 0
  }

  function Gapped(x: Fingerprint, y: Fingerprint): nat {
    if x.created >= y.created then x.created - y.created else y.created - x.created
  }

  function Clamp(score: int): int {
    Max(0, Min(100, score))
  }

  /** What a signal says of a pair. */
  predicate Shows(signal: Signal, x: Fingerprint, y: Fingerprint) {
    match signal
    case DirectReply => ReplyRelated(x, y)
    case SameConversation => Threaded(x) && Threaded(y) && x.conversation == y.conversation
    case SharedQuote => QuoteRelated(x, y)
    case SharedReference => x.references * y.references != {}
    case SharedAnchor => x.anchors * y.anchors != {}
    case TopicOverlap => TopicWeight(|x.topics * y.topics|, |x.topics + y.topics|) > 0
    case SharedParticipants => x.participants * y.participants != {}
    case CompatibleType => x.eventType == y.eventType && !Generic(x.eventType)
    case Proximity => Gapped(x, y) <= 24 * HOUR
    case SameIdentity => false
  }

  function Signals(x: Fingerprint, y: Fingerprint): set<Signal> {
    set signal: Signal | Shows(signal, x, y)
  }

  /** What a conflict says of a pair. */
  predicate Opposes(conflict: Conflict, x: Fingerprint, y: Fingerprint) {
    match conflict
    case LargeGap => Gapped(x, y) > 7 * 24 * HOUR
    case Gap => 72 * HOUR < Gapped(x, y) <= 7 * 24 * HOUR
    case TypeConflict => !Generic(x.eventType) && !Generic(y.eventType) && x.eventType != y.eventType
    case CompetingEvents => false
  }

  function Conflicts(x: Fingerprint, y: Fingerprint): set<Conflict> {
    set conflict: Conflict | Opposes(conflict, x, y)
  }

  function Score(x: Fingerprint, y: Fingerprint): int {
    Scored(Signals(x, y), Conflicts(x, y), TopicWeight(|x.topics * y.topics|, |x.topics + y.topics|), Gapped(x, y))
  }

  function Scored(signals: set<Signal>, conflicts: set<Conflict>, topics: int, delta: int): int {
    Clamp(Weight(DirectReply in signals, 96) + Weight(SameConversation in signals, 94) + Weight(SharedQuote in signals, 92)
          + Weight(SharedReference in signals, 88) + Weight(SharedAnchor in signals, 35) + topics
          + Weight(SharedParticipants in signals, 12) + Weight(CompatibleType in signals, 6)
          + (if delta <= 2 * HOUR then 10 else if delta <= 8 * HOUR then 6 else if delta <= 24 * HOUR then 3 else 0)
          - Weight(LargeGap in conflicts, 30) - Weight(Gap in conflicts, 18) - Weight(TypeConflict in conflicts, 20))
  }

  const STRONG := {DirectReply, SameConversation, SharedQuote, SharedReference}

  function Decide(score: int, signals: set<Signal>, conflicts: set<Conflict>): Decision {
    var strong := signals * STRONG != {};
    var semantic := |signals * {SharedAnchor, TopicOverlap, SharedParticipants}|;
    if strong && score >= 85 && conflicts == {} then Confident
    else if strong && score >= 65 then Probable
    else if score >= 72 && semantic >= 2 && TypeConflict !in conflicts then Probable
    else if score >= 45 then Ambiguous
    else Separate
  }

  function Match(x: Fingerprint, y: Fingerprint): Candidate {
    if x.id == y.id then Candidate(100, {SameIdentity}, {}, Confident)
    else
      var signals, conflicts, score := Signals(x, y), Conflicts(x, y), Score(x, y);
      Candidate(score, signals, conflicts, Decide(score, signals, conflicts))
  }

  predicate Joins(decision: Decision) {
    decision.Confident? || decision.Probable?
  }

  lemma SignalsSymmetric(x: Fingerprint, y: Fingerprint)
    ensures Signals(x, y) == Signals(y, x)
  {
    assert x.references * y.references == y.references * x.references && x.anchors * y.anchors == y.anchors * x.anchors;
    assert x.participants * y.participants == y.participants * x.participants;
    TopicsSymmetric(x, y);
    assert forall signal :: Shows(signal, x, y) <==> Shows(signal, y, x);
  }

  lemma TopicsSymmetric(x: Fingerprint, y: Fingerprint)
    ensures TopicWeight(|x.topics * y.topics|, |x.topics + y.topics|) == TopicWeight(|y.topics * x.topics|, |y.topics + x.topics|)
  {
    assert x.topics * y.topics == y.topics * x.topics;
    assert x.topics + y.topics == y.topics + x.topics;
  }

  lemma ConflictsSymmetric(x: Fingerprint, y: Fingerprint)
    ensures Conflicts(x, y) == Conflicts(y, x)
  {
    assert Gapped(x, y) == Gapped(y, x);
  }

  /** Matching does not depend on which update came first. */
  lemma MatchIsSymmetric(x: Fingerprint, y: Fingerprint)
    ensures Match(x, y) == Match(y, x)
  {
    SignalsSymmetric(x, y);
    ConflictsSymmetric(x, y);
    TopicsSymmetric(x, y);
    assert Gapped(x, y) == Gapped(y, x);
  }

  predicate StronglyLinked(x: Fingerprint, y: Fingerprint) {
    || ReplyRelated(x, y) || QuoteRelated(x, y) || x.references * y.references != {}
    || (Threaded(x) && Threaded(y) && x.conversation == y.conversation)
  }

  /** Confidence is exactly a strong link without any conflict: no sum of weak signals reaches it. */
  lemma ConfidentIff(x: Fingerprint, y: Fingerprint)
    requires x.id != y.id
    ensures Match(x, y).decision == Confident <==> StronglyLinked(x, y) && Conflicts(x, y) == {}
  {
    StrongSignals(x, y);
    ConfidentNeeds(Score(x, y), Signals(x, y), Conflicts(x, y));
    if Signals(x, y) * STRONG != {} && Conflicts(x, y) == {} {
      StrongPairScores(x, y);
    }
  }

  lemma ConfidentNeeds(score: int, signals: set<Signal>, conflicts: set<Conflict>)
    ensures Decide(score, signals, conflicts) == Confident <==> signals * STRONG != {} && score >= 85 && conflicts == {}
  {
  }

  lemma StrongPairScores(x: Fingerprint, y: Fingerprint)
    requires Signals(x, y) * STRONG != {} && Conflicts(x, y) == {}
    ensures Score(x, y) >= 85
  {
    var s :| s in Signals(x, y) * STRONG;
    StrongScore(Signals(x, y), s, TopicWeight(|x.topics * y.topics|, |x.topics + y.topics|), Gapped(x, y));
  }

  lemma StrongSignals(x: Fingerprint, y: Fingerprint)
    ensures Signals(x, y) * STRONG != {} <==> StronglyLinked(x, y)
  {
    var links := Signals(x, y) * STRONG;
    assert ReplyRelated(x, y) ==> DirectReply in links;
    assert QuoteRelated(x, y) ==> SharedQuote in links;
    assert x.references * y.references != {} ==> SharedReference in links;
    assert Threaded(x) && Threaded(y) && x.conversation == y.conversation ==> SameConversation in links;
    if s :| s in links {
      assert Shows(s, x, y);
    }
  }

  lemma StrongScore(signals: set<Signal>, s: Signal, topics: nat, delta: int)
    requires s in signals && s in STRONG
    ensures Scored(signals, {}, topics, delta) >= 85
  {
  }

  /** Two updates of conflicting concrete types only join on a strong link. */
  lemma TypeConflictNeedsStrongLink(x: Fingerprint, y: Fingerprint)
    requires x.id != y.id && TypeConflict in Conflicts(x, y) && Joins(Match(x, y).decision)
    ensures StronglyLinked(x, y)
  {
    StrongSignals(x, y);
  }

  // ---------------------------------------------------------------- the tables

  datatype Event = Event(members: set<string>, eventType: string, confidence: int, updated: Time)

  datatype Tables = Tables(events: map<EventId, Event>, memberships: map<string, EventId>, fingerprints: seq<Fingerprint>)

  const EMPTY := Tables(map[], map[], [])

  function MergedType(x: string, y: string): string {
    if x == y then x
    else if Generic(x) && !Generic(y) then y
    else if Generic(y) && !Generic(x) then x
    else "unknown"
  }

  function Created(t: Tables, x: Fingerprint, y: Fingerprint, c: Candidate, now: Time): Tables {
    var id := EventId({x.id, y.id});
    t.(events := t.events[id := Event({x.id, y.id}, MergedType(x.eventType, y.eventType), c.confidence, now)],
       memberships := t.memberships[x.id := id][y.id := id])
  }

  function Attached(t: Tables, id: EventId, x: Fingerprint, c: Candidate, now: Time): Tables
    requires id in t.events
  {
    var event := t.events[id];
    t.(events := t.events[id := Event(event.members + {x.id},
                                      if Generic(event.eventType) && !Generic(x.eventType) then x.eventType else event.eventType,
                                      Min(event.confidence, c.confidence), now)],
       memberships := t.memberships[x.id := id])
  }

  /** Joins `x` to the Event of `other`, or founds one with it. */
  function Joined(t: Tables, x: Fingerprint, other: Fingerprint, c: Candidate, now: Time): Tables {
    if other.id in t.memberships && t.memberships[other.id] in t.events
    then Attached(t, t.memberships[other.id], x, c, now)
    else Created(t, x, other, c, now)
  }

  function Rank(c: Candidate): nat {
    match c.decision
    case Confident => 3
    case Probable => 2
    case Ambiguous => 1
    case Separate => 0
  }

  /** The order matches are sorted in: decision, then confidence, then the other update's id. */
  predicate Worse(c: Candidate, x: Fingerprint, d: Candidate, y: Fingerprint) {
    Rank(c) < Rank(d)
    || (Rank(c) == Rank(d) && (c.confidence < d.confidence || (c.confidence == d.confidence && Before(x.id, y.id))))
  }

  /** The best match of an update among the others. */
  function Best(x: Fingerprint, others: seq<Fingerprint>): Option<Fingerprint> {
    if others == [] then None
    else
      var last, best := others[|others| - 1], Best(x, others[..|others| - 1]);
      if last.id == x.id then best
      else if best.None? || Worse(Match(x, best.value), best.value, Match(x, last), last) then Some(last)
      else best
  }

  /** The Events some plausible match belongs to. */
  function Plausible(memberships: map<string, EventId>, x: Fingerprint, others: seq<Fingerprint>): set<EventId> {
    if others == [] then {}
    else
      var last, rest := others[|others| - 1], Plausible(memberships, x, others[..|others| - 1]);
      if last.id != x.id && last.id in memberships && Joins(Match(x, last).decision) then rest + {memberships[last.id]} else rest
  }

  function GroupedOne(t: Tables, x: Fingerprint, others: seq<Fingerprint>, now: Time): Tables {
    if x.id in t.memberships then t
    else
      match Best(x, others)
      case None => t
      case Some(other) =>
        if |Plausible(t.memberships, x, others)| <= 1 && Joins(Match(x, other).decision) then Joined(t, x, other, Match(x, other), now) else t
  }

  /** The stored fingerprint of an update: the latest one, when a batch repeats an id. */
  function Current(table: seq<Fingerprint>, x: Fingerprint): Fingerprint {
    if table == [] then x else if table[0].id == x.id then table[0] else Current(table[1..], x)
  }

  function GroupedAll(t: Tables, xs: seq<Fingerprint>, others: seq<Fingerprint>, now: Time): Tables {
    if xs == [] then t
    else GroupedOne(GroupedAll(t, xs[..|xs| - 1], others, now), Current(others, xs[|xs| - 1]), others, now)
  }

  /** Dictionary assignment: an existing key keeps its place. */
  function Assigned(table: seq<Fingerprint>, x: Fingerprint): seq<Fingerprint> {
    if table == [] then [x]
    else if table[0].id == x.id then [x] + table[1..]
    else [table[0]] + Assigned(table[1..], x)
  }

  function AssignedAll(table: seq<Fingerprint>, xs: seq<Fingerprint>): seq<Fingerprint> {
    if xs == [] then table else Assigned(AssignedAll(table, xs[..|xs| - 1]), xs[|xs| - 1])
  }

  /** The fingerprints of these updates. */
  function Trimmed(table: seq<Fingerprint>, ids: set<string>): seq<Fingerprint> {
    if table == [] then []
    else
      var rest := Trimmed(table[..|table| - 1], ids);
      if table[|table| - 1].id in ids then rest + [table[|table| - 1]] else rest
  }

  /** Eviction: whole Events with their memberships, and fingerprints. */
  function Pruned(t: Tables, kept: set<EventId>, prints: set<string>): Tables {
    t.(events := map e | e in t.events && e in kept :: t.events[e],
       memberships := map u | u in t.memberships && t.memberships[u] in kept :: t.memberships[u],
       fingerprints := Trimmed(t.fingerprints, prints))
  }

  /** One shadow call over the allowed updates, before eviction. */
  function Grouped(t: Tables, xs: seq<Fingerprint>, now: Time): Tables {
    var table := AssignedAll(t.fingerprints, xs);
    GroupedAll(t.(fingerprints := table), xs, table, now)
  }

  // ---------------------------------------------------------------- manual correction

  function Removed(t: Tables, u: string): Tables {
    if u !in t.memberships then t
    else
      var id := t.memberships[u];
      var rest := t.(memberships := t.memberships - {u});
      if id !in t.events then rest
      else
        var members := t.events[id].members - {u};
        if members == {} then rest.(events := t.events - {id})
        else rest.(events := t.events[id := t.events[id].(members := members)])
  }

  /** Reclassification; a target that vanishes with the removal (the update's own singleton) raises after the removal. */
  function Reclassified(t: Tables, u: string, target: EventId): Tables {
    if target !in t.events then t
    else
      var without := Removed(t, u);
      if target !in without.events then without
      else without.(events := without.events[target := without.events[target].(members := without.events[target].members + {u})],
                    memberships := without.memberships[u := target])
  }

  // ---------------------------------------------------------------- the order of a batch

  predicate NotAfter(x: Fingerprint, y: Fingerprint) {
    x.created < y.created || (x.created == y.created && !Before(y.id, x.id))
  }

  predicate Ordered(xs: seq<Fingerprint>) {
    forall i, j :: 0 <= i < j < |xs| ==> NotAfter(xs[i], xs[j])
  }

  function Allowed(xs: seq<Fingerprint>, allowed: set<string>): seq<Fingerprint> {
    if xs == [] then []
    else
      var rest := Allowed(xs[..|xs| - 1], allowed);
      if xs[|xs| - 1].source in allowed then rest + [xs[|xs| - 1]] else rest
  }

  lemma {:induction false} AllowedCounts(xs: seq<Fingerprint>, allowed: set<string>, x: Fingerprint)
    ensures multiset(Allowed(xs, allowed))[x] == if x.source in allowed then multiset(xs)[x] else 0
  {
    if xs != [] {
      AllowedCounts(xs[..|xs| - 1], allowed, x);
      assert xs == xs[..|xs| - 1] + [xs[|xs| - 1]];
    }
  }

  lemma AllowedIs(xs: seq<Fingerprint>, ys: seq<Fingerprint>, allowed: set<string>)
    requires multiset(xs) == multiset(ys)
    ensures multiset(Allowed(xs, allowed)) == multiset(Allowed(ys, allowed))
    ensures forall x :: x in Allowed(ys, allowed) <==> x in xs && x.source in allowed
  {
    forall x ensures multiset(Allowed(xs, allowed))[x] == multiset(Allowed(ys, allowed))[x] {
      AllowedCounts(xs, allowed, x);
      AllowedCounts(ys, allowed, x);
    }
    forall x ensures x in Allowed(ys, allowed) <==> x in xs && x.source in allowed {
      AllowedCounts(ys, allowed, x);
      assert x in Allowed(ys, allowed) <==> multiset(Allowed(ys, allowed))[x] > 0;
      assert x in xs <==> multiset(ys)[x] > 0;
    }
  }

  lemma {:induction false} AllowedOrdered(xs: seq<Fingerprint>, allowed: set<string>)
    requires Ordered(xs)
    ensures Ordered(Allowed(xs, allowed)) && forall x :: x in Allowed(xs, allowed) ==> x in xs
  {
    if xs != [] {
      var init, last := xs[..|xs| - 1], xs[|xs| - 1];
      AllowedOrdered(init, allowed);
      var rest := Allowed(init, allowed);
      forall k | 0 <= k < |rest| ensures NotAfter(rest[k], last) {
        assert rest[k] in init;
      }
    }
  }

  lemma NotAfterTotal(x: Fingerprint, y: Fingerprint)
    ensures NotAfter(x, y) || NotAfter(y, x)
  {
    BeforeTotal(x.id, y.id);
  }

  lemma NotAfterTransitive(x: Fingerprint, y: Fingerprint, z: Fingerprint)
    requires NotAfter(x, y) && NotAfter(y, z)
    ensures NotAfter(x, z)
  {
    if x.created == y.created && y.created == z.created {
      BeforeTotal(x.id, y.id);
      BeforeTotal(y.id, z.id);
      BeforeTotal(x.id, z.id);
      if x.id != y.id && y.id != z.id {
        BeforeTransitive(x.id, y.id, z.id);
      }
    }
  }

  method Allow(xs: seq<Fingerprint>, allowed: set<string>) returns (configured: seq<Fingerprint>)
    requires Ordered(xs)
    ensures configured == Allowed(xs, allowed) && Ordered(configured)
  {
    configured := [];
    for i := 0 to |xs|
      invariant configured == Allowed(xs[..i], allowed)
    {
      assert xs[..i + 1][..i] == xs[..i];
      if xs[i].source in allowed {
        configured := configured + [xs[i]];
      }
    }
    assert xs[..|xs|] == xs;
    AllowedOrdered(xs, allowed);
  }

  /** Stable insertion sort. */
  method SortUpdates(xs: seq<Fingerprint>) returns (sorted: seq<Fingerprint>)
    ensures Ordered(sorted) && multiset(sorted) == multiset(xs)
  {
    sorted := [];
    for n := 0 to |xs|
      invariant Ordered(sorted) && multiset(sorted) == multiset(xs[..n])
    {
      assert xs[..n + 1] == xs[..n] + [xs[n]];
      sorted := InsertUpdate(sorted, xs[n]);
    }
    assert xs[..|xs|] == xs;
  }

  method InsertUpdate(sorted: seq<Fingerprint>, x: Fingerprint) returns (longer: seq<Fingerprint>)
    requires Ordered(sorted)
    ensures Ordered(longer) && multiset(longer) == multiset(sorted) + multiset{x}
  {
    var i := |sorted|;
    while i > 0 && !NotAfter(sorted[i - 1], x)
      invariant 0 <= i <= |sorted|
      invariant forall k :: i <= k < |sorted| ==> NotAfter(x, sorted[k])
    {
      NotAfterTotal(sorted[i - 1], x);
      i := i - 1;
    }
    longer := sorted[..i] + [x] + sorted[i..];
    assert sorted == sorted[..i] + sorted[i..];
    forall k | 0 <= k < i ensures NotAfter(sorted[k], x) {
      if k < i - 1 {
        NotAfterTransitive(sorted[k], sorted[i - 1], x);
      }
    }
    InsertedOrdered(sorted, i, x, longer);
  }

  lemma InsertedOrdered(sorted: seq<Fingerprint>, i: nat, x: Fingerprint, longer: seq<Fingerprint>)
    requires i <= |sorted| && longer == sorted[..i] + [x] + sorted[i..] && Ordered(sorted)
    requires forall k :: 0 <= k < i ==> NotAfter(sorted[k], x)
    requires forall k :: i <= k < |sorted| ==> NotAfter(x, sorted[k])
    ensures Ordered(longer)
  {
    assert forall k :: 0 <= k < |longer| ==> longer[k] == if k < i then sorted[k] else if k == i then x else sorted[k - 1];
  }

  // ---------------------------------------------------------------- the store

  class Store {
    var events: map<EventId, Event>
    var memberships: map<string, EventId>
    var fingerprints: seq<Fingerprint>

    ghost function Value(): Tables
      reads this
    {
      Tables(events, memberships, fingerprints)
    }

    constructor ()
      ensures Value() == EMPTY
    {
      events, memberships, fingerprints := map[], map[], [];
    }

    /** Groups the updates of allowed sources, in order of creation and id. */
    method ShadowGroup(updates: seq<Fingerprint>, allowed: set<string>, now: Time) returns (configured: seq<Fingerprint>)
      modifies this
      ensures Ordered(configured)
      ensures forall x :: x in configured <==> x in updates && x.source in allowed
      ensures multiset(configured) == multiset(Allowed(updates, allowed))
      ensures Value() == Grouped(old(Value()), configured, now)
    {
      var incoming := SortUpdates(updates);
      configured := Allow(incoming, allowed);
      AllowedIs(updates, incoming, allowed);
      AssignEach(configured);
      GroupEach(configured, now);
    }

    method AssignEach(configured: seq<Fingerprint>)
      modifies this`fingerprints
      ensures fingerprints == AssignedAll(old(fingerprints), configured)
    {
      for i := 0 to |configured|
        invariant fingerprints == AssignedAll(old(fingerprints), configured[..i])
      {
        assert configured[..i + 1][..i] == configured[..i];
        fingerprints := Assigned(fingerprints, configured[i]);
      }
      assert configured[..|configured|] == configured;
    }

    method GroupEach(configured: seq<Fingerprint>, now: Time)
      modifies this`events, this`memberships
      ensures Value() == GroupedAll(old(Value()), configured, fingerprints, now)
    {
      ghost var base := Value();
      for i := 0 to |configured|
        invariant Value() == GroupedAll(base, configured[..i], fingerprints, now)
        invariant fingerprints == base.fingerprints
      {
        assert configured[..i + 1][..i] == configured[..i];
        GroupOne(Current(fingerprints, configured[i]), now);
      }
      assert configured[..|configured|] == configured;
    }

    method GroupOne(x: Fingerprint, now: Time)
      modifies this`events, this`memberships
      ensures Value() == GroupedOne(old(Value()), x, fingerprints, now)
    {
      if x.id in memberships {
        return;
      }
      var best, plausible := BestOf(x, fingerprints, memberships);
      if best.None? || |plausible| > 1 {
        return;
      }
      var c := Match(x, best.value);
      if Joins(c.decision) {
        Join(x, best.value, c, now);
      }
    }

    /** Joins the Event of the match, or founds one with it. */
    method Join(x: Fingerprint, y: Fingerprint, c: Candidate, now: Time)
      modifies this`events, this`memberships
      ensures Value() == Joined(old(Value()), x, y, c, now)
    {
      if y.id in memberships && memberships[y.id] in events {
        Attach(memberships[y.id], x, c, now);
      } else {
        Create(x, y, c, now);
      }
    }

    method Create(x: Fingerprint, y: Fingerprint, c: Candidate, now: Time)
      modifies this`events, this`memberships
      ensures Value() == Created(old(Value()), x, y, c, now)
    {
      var id := EventId({x.id, y.id});
      events := events[id := Event({x.id, y.id}, MergedType(x.eventType, y.eventType), c.confidence, now)];
      memberships := memberships[x.id := id];
      memberships := memberships[y.id := id];
    }

    method Attach(id: EventId, x: Fingerprint, c: Candidate, now: Time)
      requires id in events
      modifies this`events, this`memberships
      ensures Value() == Attached(old(Value()), id, x, c, now)
    {
      var event := events[id];
      event := event.(members := event.members + {x.id}, updated := now, confidence := Min(event.confidence, c.confidence));
      if Generic(event.eventType) && !Generic(x.eventType) {
        event := event.(eventType := x.eventType);
      }
      events := events[id := event];
      memberships := memberships[x.id := id];
    }

    method Remove(u: string) returns (removed: bool)
      modifies this`events, this`memberships
      ensures Value() == Removed(old(Value()), u)
      ensures removed == (u in old(memberships))
    {
      if u !in memberships {
        return false;
      }
      var id := memberships[u];
      memberships := memberships - {u};
      if id in events {
        var event := events[id].(members := events[id].members - {u});
        events := events[id := event];
        if event.members == {} {
          ghost var before := old(events);
          assert events - {id} == before - {id};
          events := events - {id};
        }
      }
      removed := true;
    }

    method Reclassify(u: string, target: EventId) returns (ok: bool)
      modifies this`events, this`memberships
      ensures Value() == Reclassified(old(Value()), u, target)
      ensures ok <==> target in old(events) && target in Removed(old(Value()), u).events
    {
      if target !in events {
        return false;
      }
      var removed := Remove(u);
      if target !in events {
        return false;
      }
      events := events[target := events[target].(members := events[target].members + {u})];
      memberships := memberships[u := target];
      ok := true;
    }
  }

  method BestOf(x: Fingerprint, others: seq<Fingerprint>, memberships: map<string, EventId>)
    returns (best: Option<Fingerprint>, plausible: set<EventId>)
    ensures best == Best(x, others)
    ensures plausible == Plausible(memberships, x, others)
  {
    best, plausible := None, {};
    for i := 0 to |others|
      invariant best == Best(x, others[..i])
      invariant plausible == Plausible(memberships, x, others[..i])
    {
      assert others[..i + 1][..i] == others[..i];
      var y := others[i];
      if y.id != x.id {
        var c := Match(x, y);
        if best.None? || Worse(Match(x, best.value), best.value, c, y) {
          best := Some(y);
        }
        if Joins(c.decision) && y.id in memberships {
          plausible := plausible + {memberships[y.id]};
        }
      }
    }
    assert others[..|others|] == others;
  }
}
