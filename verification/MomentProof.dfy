/**
 What a moment match means in terms of the fingerprints, which updates end up together, and how Segments are ordered.
 */
module MomentProof {
  import opened Common
  import opened EventTimeline
  import opened SegmentProof
  import opened SegmentRuns

  // ---------------------------------------------------------------- pairs

  predicate Answers(x: Fingerprint, y: Fingerprint) {
    y.id != "" && x.replyTo == y.id
  }

  predicate InReply(x: Fingerprint, y: Fingerprint) {
    Answers(x, y) || Answers(y, x)
  }

  /** One quotes the other, or both quote the same. */
  predicate ShareQuote(x: Fingerprint, y: Fingerprint) {
    (x.quoted != "" && x.quoted in {y.id, y.quoted}) || (y.quoted != "" && y.quoted in {x.id, x.quoted})
  }

  /** Both are about the same thing: a quote, a medium, a content time, a clip outside the containers, a question. */
  predicate SharesAnchor(x: Fingerprint, y: Fingerprint, containers: set<string>) {
    || ShareQuote(x, y) || x.media * y.media != {} || x.references * y.references - containers != {} || x.questions * y.questions != {}
    || (x.timestamp.Some? && y.timestamp.Some? && Distance(x.timestamp.value, y.timestamp.value) <= 15)
  }

  predicate TimesApart(x: Fingerprint, y: Fingerprint) {
    x.timestamp.Some? && y.timestamp.Some? && Distance(x.timestamp.value, y.timestamp.value) > 120
  }

  predicate AsksOther(x: Fingerprint, y: Fingerprint) {
    x.questions != {} && y.questions != {} && x.questions * y.questions == {}
  }

  predicate FactsDisagree(x: Fingerprint, y: Fingerprint) {
    x.facts != {} && y.facts != {} && x.facts * y.facts == {}
  }

  /** Nothing in the two speaks against their being one moment. */
  predicate Compatible(x: Fingerprint, y: Fingerprint) {
    && !TimesApart(x, y) && !AsksOther(x, y) && !FactsDisagree(x, y) && x.negated == y.negated
    && !(x.part.Some? && y.part.Some? && Distance(x.part.value, y.part.value) > 2)
    && Distance(x.created, y.created) <= 24 * 60 * MINUTE
  }

  predicate Conversing(x: Fingerprint, y: Fingerprint) {
    x.conversation != "" && x.conversation == y.conversation && x.conversation != x.id && y.conversation != y.id
  }

  predicate PartsAdjoin(x: Fingerprint, y: Fingerprint) {
    x.part.Some? && y.part.Some? && Distance(x.part.value, y.part.value) == 1
  }

  lemma AnchorTells(x: Fingerprint, y: Fingerprint, containers: set<string>)
    ensures Anchored(Signals(x, y, containers)) <==> SharesAnchor(x, y, containers)
  {
    SignalsTell(x, y, containers);
    AnchoredSignals(Signals(x, y, containers));
  }

  lemma SignalsTell(x: Fingerprint, y: Fingerprint, containers: set<string>)
    ensures var s := Signals(x, y, containers);
      && (DirectReply in s <==> InReply(x, y)) && (SharedQuote in s <==> ShareQuote(x, y)) && (SharedMedia in s <==> x.media * y.media != {})
      && (SharedClip in s <==> x.references * y.references - containers != {}) && (SameQuestion in s <==> x.questions * y.questions != {})
      && (SameTimestamp in s <==> x.timestamp.Some? && y.timestamp.Some? && Distance(x.timestamp.value, y.timestamp.value) <= 15)
      && (AdjacentPart in s <==> PartsAdjoin(x, y)) && (SameConversation in s <==> Conversing(x, y))
      && (SamePart in s <==> x.part.Some? && x.part == y.part) && (Proximity in s <==> Distance(x.created, y.created) <= 120 * MINUTE)
  {
  }

  lemma ConflictsTell(x: Fingerprint, y: Fingerprint, signals: set<Signal>)
    ensures var s := Conflicts(x, y, signals);
      && (TimestampMismatch in s <==> TimesApart(x, y)) && (DifferentQuestion in s <==> AsksOther(x, y))
      && (FactConflict in s <==> Anchored(signals) && FactsDisagree(x, y))
      && (PolarityConflict in s ==> Anchored(signals) && x.negated != y.negated)
      && (Compatible(x, y) ==> s == {})
  {
  }

  lemma AnchoredSignals(signals: set<Signal>)
    ensures Anchored(signals) <==> SharedQuote in signals || SharedMedia in signals || SameTimestamp in signals || SharedClip in signals || SameQuestion in signals
  {
    var strong := signals * {SharedQuote, SharedMedia, SameTimestamp, SharedClip, SameQuestion};
    assert SharedQuote in signals ==> SharedQuote in strong;
    assert SharedMedia in signals ==> SharedMedia in strong;
    assert SameTimestamp in signals ==> SameTimestamp in strong;
    assert SharedClip in signals ==> SharedClip in strong;
    assert SameQuestion in signals ==> SameQuestion in strong;
  }

  lemma CompatibleRelate(score: int, signals: set<Signal>)
    requires DirectReply in signals || Anchored(signals)
    requires Anchored(signals) ==> score >= 78
    requires DirectReply in signals ==> score >= 80
    ensures Relate(score, signals, {}) == if Anchored(signals) then SameMoment else Continuation
  {
  }

  lemma ReplyScore(x: Fingerprint, y: Fingerprint, signals: set<Signal>)
    requires DirectReply in signals
    ensures Score(x, y, signals, {}) >= 80
  {
  }

  /** Two updates of one Event with nothing against it: a shared anchor makes one moment, a reply a continuation. */
  lemma LinkedMomentsAttach(x: Fingerprint, y: Fingerprint, containers: set<string>)
    requires x.id != y.id && x.eventId == y.eventId && Compatible(x, y)
    requires SharesAnchor(x, y, containers) || InReply(x, y)
    ensures Moment(x, y, containers).same
    ensures Moment(x, y, containers).relationship == if SharesAnchor(x, y, containers) then SameMoment else Continuation
  {
    var signals := Signals(x, y, containers);
    AnchorTells(x, y, containers);
    SignalsTell(x, y, containers);
    ConflictsTell(x, y, signals);
    if Anchored(signals) { AnchoredScore(x, y, signals); }
    if DirectReply in signals { ReplyScore(x, y, signals); }
    CompatibleRelate(Score(x, y, signals, {}), signals);
  }

  lemma SequelScore(x: Fingerprint, y: Fingerprint, signals: set<Signal>)
    requires SameConversation in signals && Proximity in signals && (SamePart in signals || AdjacentPart in signals)
    ensures Score(x, y, signals, {}) >= 82
  {
  }

  lemma SequelRelate(score: int, signals: set<Signal>)
    requires SameConversation in signals && Proximity in signals && score >= 82
    ensures Attaches(Relate(score, signals, {}))
  {
    assert signals * {DirectReply, AdjacentPart, SameConversation} != {} by { assert SameConversation in signals * {DirectReply, AdjacentPart, SameConversation}; }
    assert Proximity in signals * {TopicOverlap, SharedParticipants, Proximity, SpokenAnchor, SamePart};
  }

  /** So does the same or the next part of one conversation within two hours. */
  lemma SequelsAttach(x: Fingerprint, y: Fingerprint, containers: set<string>)
    requires x.id != y.id && x.eventId == y.eventId && Compatible(x, y) && Conversing(x, y)
    requires x.part.Some? && y.part.Some? && Distance(x.part.value, y.part.value) <= 1
    requires Distance(x.created, y.created) <= 120 * MINUTE
    ensures Moment(x, y, containers).same
  {
    var signals := Signals(x, y, containers);
    SignalsTell(x, y, containers);
    ConflictsTell(x, y, signals);
    SequelScore(x, y, signals);
    SequelRelate(Score(x, y, signals, {}), signals);
  }

  lemma AttachingRelates(score: int, signals: set<Signal>, conflicts: set<Conflict>)
    requires Attaches(Relate(score, signals, conflicts))
    ensures TimestampMismatch !in conflicts
    ensures Anchored(signals) || DirectReply in signals || AdjacentPart in signals || SameConversation in signals
    ensures DifferentQuestion in conflicts ==> DirectReply in signals || FactConflict in conflicts || PolarityConflict in conflicts
  {
    var continuing, unresolved := signals * {DirectReply, AdjacentPart, SameConversation}, conflicts * {FactConflict, PolarityConflict};
    if s :| s in continuing {
      assert s in signals;
    }
    if c :| c in unresolved {
      assert c in conflicts;
    }
  }

  /**
   Nothing else attaches: not without an anchor, a reply, a shared conversation or adjoining parts; not across content
   times; and two answers to different questions only by a reply, or when anchored accounts disagree.
   */
  lemma AttachingNeedsLink(x: Fingerprint, y: Fingerprint, containers: set<string>)
    requires x.id != y.id && Moment(x, y, containers).same
    ensures x.eventId == y.eventId && !TimesApart(x, y)
    ensures SharesAnchor(x, y, containers) || InReply(x, y) || Conversing(x, y) || PartsAdjoin(x, y)
    ensures AsksOther(x, y) ==> InReply(x, y) || (SharesAnchor(x, y, containers) && (FactsDisagree(x, y) || x.negated != y.negated))
  {
    var signals := Signals(x, y, containers);
    var conflicts := Conflicts(x, y, signals);
    AttachingRelates(Score(x, y, signals, conflicts), signals, conflicts);
    AnchorTells(x, y, containers);
    SignalsTell(x, y, containers);
    ConflictsTell(x, y, signals);
  }

  lemma DisagreementRelates(score: int, signals: set<Signal>, conflicts: set<Conflict>)
    requires Anchored(signals) && FactConflict in conflicts && TimestampMismatch !in conflicts
    ensures Relate(score, signals, conflicts) == Conflicting
  {
    assert FactConflict in conflicts * {FactConflict, PolarityConflict};
  }

  /** Accounts of one anchored moment whose facts disagree stay together, marked as conflicting. */
  lemma DisagreementsStayTogether(x: Fingerprint, y: Fingerprint, containers: set<string>)
    requires x.id != y.id && x.eventId == y.eventId && SharesAnchor(x, y, containers) && !TimesApart(x, y) && FactsDisagree(x, y)
    ensures Moment(x, y, containers).same && Moment(x, y, containers).relationship == Conflicting
  {
    var signals := Signals(x, y, containers);
    var conflicts := Conflicts(x, y, signals);
    AnchorTells(x, y, containers);
    ConflictsTell(x, y, signals);
    DisagreementRelates(Score(x, y, signals, conflicts), signals, conflicts);
  }

  lemma WeakScore(x: Fingerprint, y: Fingerprint, signals: set<Signal>, conflicts: set<Conflict>)
    requires !Anchored(signals) && DirectReply !in signals && !(SameConversation in signals && AdjacentPart in signals)
    requires SamePart !in signals && NearTimestamp !in signals && SharedContainer !in signals && SpokenAnchor !in signals && Topics(x, y) == 0
    ensures Score(x, y, signals, conflicts) <= 70
  {
    AnchoredSignals(signals);
  }

  /** A shared conversation alone, or adjoining parts alone, are not enough: with nothing in common besides, nothing attaches. */
  lemma SequenceAloneDoesNotAttach(x: Fingerprint, y: Fingerprint, containers: set<string>)
    requires x.id != y.id && !SharesAnchor(x, y, containers) && !InReply(x, y) && !(Conversing(x, y) && PartsAdjoin(x, y))
    requires x.topics * y.topics == {} && x.anchors * y.anchors == {} && x.references * y.references == {}
    requires x.timestamp.None? && (x.part.Some? ==> x.part != y.part)
    ensures !Moment(x, y, containers).same
  {
    var signals := Signals(x, y, containers);
    var conflicts := Conflicts(x, y, signals);
    NothingInCommon(x, y, containers);
    WeakScore(x, y, signals, conflicts);
    WeakRelate(Score(x, y, signals, conflicts), signals, conflicts);
  }

  lemma NothingInCommon(x: Fingerprint, y: Fingerprint, containers: set<string>)
    requires !SharesAnchor(x, y, containers) && !InReply(x, y) && !(Conversing(x, y) && PartsAdjoin(x, y))
    requires x.topics * y.topics == {} && x.anchors * y.anchors == {} && x.references * y.references == {}
    requires x.timestamp.None? && (x.part.Some? ==> x.part != y.part)
    ensures var signals := Signals(x, y, containers);
      && !Anchored(signals) && DirectReply !in signals && !(SameConversation in signals && AdjacentPart in signals)
      && SamePart !in signals && NearTimestamp !in signals && SharedContainer !in signals && SpokenAnchor !in signals && Topics(x, y) == 0
  {
    SignalsTell(x, y, containers);
    AnchorTells(x, y, containers);
  }

  lemma WeakRelate(score: int, signals: set<Signal>, conflicts: set<Conflict>)
    requires !Anchored(signals) && DirectReply !in signals && score <= 70
    ensures !Attaches(Relate(score, signals, conflicts))
  {
  }

  // ---------------------------------------------------------------- company

  /** A fingerprinted member of some Segment of the Event whose match with the update attaches. */
  ghost predicate AttachesTo(t: Timeline, event: string, fps: map<string, Fingerprint>, containers: set<string>, x: Fingerprint, v: string) {
    && v in fps && v != x.id && v in t.memberships && t.memberships[v].eventId == event
    && Moment(x, fps[v], containers).same
  }

  lemma AttachableIsOffered(t: Timeline, event: string, fps: map<string, Fingerprint>, containers: set<string>, x: Fingerprint, v: string)
    requires Partition(t) && AttachesTo(t, event, fps, containers, x, v)
    ensures Offered(t, event, fps, containers, x, Choice(t.memberships[v].segmentId, v, Moment(x, fps[v], containers)))
  {
  }

  lemma OfferedIsMember(t: Timeline, event: string, fps: map<string, Fingerprint>, containers: set<string>, x: Fingerprint, c: Choice)
    requires Partition(t) && Offered(t, event, fps, containers, x, c)
    ensures c.other in t.memberships && t.memberships[c.other].segmentId == c.segment && t.memberships[c.other].eventId == event
    ensures c.candidate.same ==> AttachesTo(t, event, fps, containers, x, c.other)
  {
  }

  /** Placing an update puts it together with somebody if and only if somebody attaches to it. */
  lemma PlacedTogetherIff(t: Timeline, event: string, fps: map<string, Fingerprint>, containers: set<string>, x: Fingerprint, choice: Option<Choice>)
    requires Partition(t) && LegalOne(t, event, fps, containers, x, choice) && SeedUnused(t, event, x, choice) && x.id !in t.memberships
    ensures (exists v :: v != x.id && Together(Placed(t, event, x, choice), x.id, v))
            <==> (exists v :: AttachesTo(t, event, fps, containers, x, v))
    ensures forall v :: v in t.memberships && !AttachesTo(t, event, fps, containers, x, v) && Together(Placed(t, event, x, choice), x.id, v)
              ==> exists w :: AttachesTo(t, event, fps, containers, x, w) && Together(t, w, v)
  {
    if v :| AttachesTo(t, event, fps, containers, x, v) {
      AttachableIsOffered(t, event, fps, containers, x, v);
      var best := choice.value;
      assert best.candidate.same;
      OfferedIsMember(t, event, fps, containers, x, best);
      assert Together(Placed(t, event, x, choice), x.id, best.other);
    } else {
      NobodyAttaches(t, event, fps, containers, x, choice);
    }
  }

  lemma NobodyAttaches(t: Timeline, event: string, fps: map<string, Fingerprint>, containers: set<string>, x: Fingerprint, choice: Option<Choice>)
    requires Partition(t) && LegalOne(t, event, fps, containers, x, choice) && SeedUnused(t, event, x, choice) && x.id !in t.memberships
    requires forall v :: !AttachesTo(t, event, fps, containers, x, v)
    ensures forall v :: v != x.id ==> !Together(Placed(t, event, x, choice), x.id, v)
  {
    if choice.Some? {
      OfferedIsMember(t, event, fps, containers, x, choice.value);
    }
    forall v | v != x.id && v in t.memberships ensures t.memberships[v].segmentId != SegmentId(event, {x.id}) {
    }
  }

  /**
   The strongest of what is offered is chosen: an attaching match before any other; of those an account that disagrees,
   then the same moment, then a continuation; and of equal ones the most confident.
   */
  lemma StrongestIsChosen(t: Timeline, event: string, fps: map<string, Fingerprint>, containers: set<string>, x: Fingerprint, best: Choice, c: Choice)
    requires Legal(t, event, fps, containers, x, Some(best)) && Offered(t, event, fps, containers, x, c) && c.candidate.same
    ensures best.candidate.same
    ensures c.candidate.relationship == Conflicting ==> best.candidate.relationship == Conflicting
    ensures c.candidate.relationship == SameMoment ==> best.candidate.relationship in {Conflicting, SameMoment}
    ensures c.candidate.relationship == best.candidate.relationship ==> c.candidate.confidence <= best.candidate.confidence
  {
    assert !Weaker(best.candidate, c.candidate);
  }

  /** A Segment is as certain as its weakest match. */
  lemma JoiningTells(t: Timeline, event: string, x: Fingerprint, c: Choice)
    requires x.id !in t.memberships && c.segment in t.segments && c.candidate.same
    ensures var before, after := t.segments[c.segment], Placed(t, event, x, Some(c)).segments[c.segment];
      && after.members == before.members + {x.id} && after.eventId == before.eventId
      && after.confidence <= before.confidence && after.confidence <= c.candidate.confidence
      && after.confidence in {before.confidence, c.candidate.confidence}
  {
  }

  /** A match is remembered, whether it attaches or not: between whom, what it is, and the Segments the two are in then. */
  lemma MatchIsRemembered(t: Timeline, event: string, x: Fingerprint, c: Choice)
    requires x.id !in t.memberships && c.segment in t.segments && c.other in t.memberships
    ensures var next, id := Placed(t, event, x, Some(c)), RelationId(x.eventId, {x.id, c.other});
      && id in next.relations && {next.relations[id].left, next.relations[id].right} == {x.id, c.other}
      && next.relations[id].relationship == c.candidate.relationship
      && next.relations[id].rightSegment == Some(t.memberships[c.other].segmentId)
      && next.relations[id].leftSegment == Some(if c.candidate.same then c.segment else SegmentId(event, {x.id}))
      && forall r :: r in t.relations && r != id ==> r in next.relations && next.relations[r] == t.relations[r]
  {
  }

  /** The update was not placed when its turn came, and some fingerprinted update placed by then attaches to it. */
  ghost predicate FindsCompany(t: Timeline, event: string, fps: map<string, Fingerprint>, containers: set<string>,
                               xs: seq<Fingerprint>, choices: seq<Option<Choice>>, k: nat)
    requires k < |xs| == |choices|
  {
    var before := PlacedAll(t, event, xs[..k], choices[..k]);
    xs[k].id !in before.memberships && exists v :: AttachesTo(before, event, fps, containers, xs[k], v)
  }

  /** Whoever finds somebody to attach to in a pass is not alone after it. */
  lemma {:induction false} PassGathers(t: Timeline, event: string, fps: map<string, Fingerprint>, containers: set<string>,
                                       xs: seq<Fingerprint>, choices: seq<Option<Choice>>, k: nat) returns (v: string)
    requires Partition(t) && UpToDate(t) && LegalPass(t, event, fps, containers, xs, choices) && SeedsUnused(t, event, xs, choices)
    requires k < |xs| && FindsCompany(t, event, fps, containers, xs, choices, k)
    ensures v != xs[k].id && Together(PlacedAll(t, event, xs, choices), xs[k].id, v)
    decreases |xs|
  {
    var n := |xs| - 1;
    if k < n {
      FindsCompanyBefore(t, event, fps, containers, xs, choices, k);
      v := PassGathers(t, event, fps, containers, xs[..n], choices[..n], k);
      LastKeepsCompany(t, event, fps, containers, xs, choices, xs[k].id, v);
    } else {
      v := LastGathers(t, event, fps, containers, xs, choices);
    }
  }

  lemma FindsCompanyBefore(t: Timeline, event: string, fps: map<string, Fingerprint>, containers: set<string>,
                           xs: seq<Fingerprint>, choices: seq<Option<Choice>>, k: nat)
    requires LegalPass(t, event, fps, containers, xs, choices) && SeedsUnused(t, event, xs, choices) && k < |xs| - 1
    requires FindsCompany(t, event, fps, containers, xs, choices, k)
    ensures var n := |xs| - 1;
      && LegalPass(t, event, fps, containers, xs[..n], choices[..n]) && SeedsUnused(t, event, xs[..n], choices[..n])
      && FindsCompany(t, event, fps, containers, xs[..n], choices[..n], k) && xs[..n][k] == xs[k]
  {
    LegalPrefix(t, event, fps, containers, xs, choices);
    assert xs[..|xs| - 1][..k] == xs[..k] && choices[..|xs| - 1][..k] == choices[..k];
  }

  lemma LastKeepsCompany(t: Timeline, event: string, fps: map<string, Fingerprint>, containers: set<string>,
                         xs: seq<Fingerprint>, choices: seq<Option<Choice>>, u: string, v: string)
    requires Partition(t) && UpToDate(t) && LegalPass(t, event, fps, containers, xs, choices) && SeedsUnused(t, event, xs, choices) && xs != []
    requires Together(PlacedAll(t, event, xs[..|xs| - 1], choices[..|xs| - 1]), u, v)
    ensures Together(PlacedAll(t, event, xs, choices), u, v)
  {
    LastPlacing(t, event, fps, containers, xs, choices);
    var n := |xs| - 1;
    StaysTogether(PlacedAll(t, event, xs[..n], choices[..n]), event, fps, containers, xs[n], choices[n], u, v);
  }

  lemma LastGathers(t: Timeline, event: string, fps: map<string, Fingerprint>, containers: set<string>,
                    xs: seq<Fingerprint>, choices: seq<Option<Choice>>) returns (v: string)
    requires Partition(t) && UpToDate(t) && LegalPass(t, event, fps, containers, xs, choices) && SeedsUnused(t, event, xs, choices) && xs != []
    requires FindsCompany(t, event, fps, containers, xs, choices, |xs| - 1)
    ensures v != xs[|xs| - 1].id && Together(PlacedAll(t, event, xs, choices), xs[|xs| - 1].id, v)
  {
    LastPlacing(t, event, fps, containers, xs, choices);
    var n := |xs| - 1;
    v := Gathers(PlacedAll(t, event, xs[..n], choices[..n]), event, fps, containers, xs[n], choices[n]);
  }

  /** The last placing of a pass is a legal one, from a state as good as the first. */
  lemma LastPlacing(t: Timeline, event: string, fps: map<string, Fingerprint>, containers: set<string>,
                    xs: seq<Fingerprint>, choices: seq<Option<Choice>>)
    requires Partition(t) && UpToDate(t) && LegalPass(t, event, fps, containers, xs, choices) && SeedsUnused(t, event, xs, choices) && xs != []
    ensures var n := |xs| - 1;
      var before := PlacedAll(t, event, xs[..n], choices[..n]);
      && Partition(before) && UpToDate(before) && LegalOne(before, event, fps, containers, xs[n], choices[n])
      && SeedUnused(before, event, xs[n], choices[n])
  {
    var n := |xs| - 1;
    LegalPrefix(t, event, fps, containers, xs, choices);
    PassPlaces(t, event, fps, containers, xs[..n], choices[..n]);
    PassKeepsPartitionIff(t, event, fps, containers, xs[..n], choices[..n]);
  }

  lemma StaysTogether(t: Timeline, event: string, fps: map<string, Fingerprint>, containers: set<string>, x: Fingerprint, choice: Option<Choice>,
                      u: string, v: string)
    requires UpToDate(t) && LegalOne(t, event, fps, containers, x, choice) && Together(t, u, v)
    ensures Together(Placed(t, event, x, choice), u, v)
  {
    PlacingPlaces(t, event, fps, containers, x, choice);
  }

  lemma Gathers(t: Timeline, event: string, fps: map<string, Fingerprint>, containers: set<string>, x: Fingerprint, choice: Option<Choice>)
    returns (v: string)
    requires Partition(t) && LegalOne(t, event, fps, containers, x, choice) && SeedUnused(t, event, x, choice) && x.id !in t.memberships
    requires exists u :: AttachesTo(t, event, fps, containers, x, u)
    ensures v != x.id && Together(Placed(t, event, x, choice), x.id, v)
  {
    PlacedTogetherIff(t, event, fps, containers, x, choice);
    v :| v != x.id && Together(Placed(t, event, x, choice), x.id, v);
  }

  /**
   A reply is not left alone: an update without a Segment that replies to a placed and fingerprinted one of its Event,
   with nothing against it, shares a Segment with somebody after the pass.
   */
  lemma RepliesFindCompany(t: Timeline, event: string, fps: map<string, Fingerprint>, containers: set<string>,
                           xs: seq<Fingerprint>, choices: seq<Option<Choice>>, k: nat, u: string) returns (v: string)
    requires Partition(t) && UpToDate(t) && LegalPass(t, event, fps, containers, xs, choices) && SeedsUnused(t, event, xs, choices)
    requires k < |xs| && xs[k].id !in PlacedAll(t, event, xs[..k], choices[..k]).memberships
    requires u in fps && u != xs[k].id && u in t.memberships && t.memberships[u].eventId == event && fps[u].eventId == event
    requires Answers(xs[k], fps[u]) && Compatible(xs[k], fps[u])
    ensures v != xs[k].id && Together(PlacedAll(t, event, xs, choices), xs[k].id, v)
  {
    assert OfEvent(t, event, xs[k]) && fps[u].id == u;
    LinkedMomentsAttach(xs[k], fps[u], containers);
    PrefixPlaces(t, event, fps, containers, xs, choices, k);
    assert AttachesTo(PlacedAll(t, event, xs[..k], choices[..k]), event, fps, containers, xs[k], u);
    v := PassGathers(t, event, fps, containers, xs, choices, k);
  }

  lemma PrefixPlaces(t: Timeline, event: string, fps: map<string, Fingerprint>, containers: set<string>,
                     xs: seq<Fingerprint>, choices: seq<Option<Choice>>, k: nat)
    requires UpToDate(t) && LegalPass(t, event, fps, containers, xs, choices) && k <= |xs|
    ensures var before := PlacedAll(t, event, xs[..k], choices[..k]);
      forall u :: u in t.memberships ==> u in before.memberships && before.memberships[u] == t.memberships[u]
    decreases |xs|
  {
    if k == |xs| {
      assert xs[..k] == xs && choices[..k] == choices;
      PassPlaces(t, event, fps, containers, xs, choices);
    } else {
      var n := |xs| - 1;
      LegalPrefix(t, event, fps, containers, xs, choices);
      assert xs[..n][..k] == xs[..k] && choices[..n][..k] == choices[..k];
      PrefixPlaces(t, event, fps, containers, xs[..n], choices[..n], k);
    }
  }

  // ---------------------------------------------------------------- order

  predicate TimedAt(segment: Segment, fps: map<string, Fingerprint>, u: string, at: nat) {
    u in segment.members && u in fps && fps[u].timestamp == Some(at)
  }

  predicate PartAt(segment: Segment, fps: map<string, Fingerprint>, u: string, part: nat) {
    u in segment.members && u in fps && fps[u].part == Some(part)
  }

  predicate DatedAt(segment: Segment, fps: map<string, Fingerprint>, u: string, at: Time) {
    u in segment.members && u in fps && fps[u].created == at
  }

  lemma KeyIs(segment: Segment, fps: map<string, Fingerprint>)
    ensures var key := KeyOf(segment, fps);
      && (key.grade == 0 <==> exists u, at :: TimedAt(segment, fps, u, at))
      && (forall u, at :: TimedAt(segment, fps, u, at) ==> key.value <= at)
      && (key.grade == 0 ==> exists u, at :: TimedAt(segment, fps, u, at) && key.value == at)
  {
    var timestamps := set u | u in segment.members && u in fps && fps[u].timestamp.Some? :: fps[u].timestamp.value as int;
    assert forall u, at :: TimedAt(segment, fps, u, at) ==> at as int in timestamps;
    if timestamps != {} {
      var least := Least(timestamps);
      var u :| u in segment.members && u in fps && fps[u].timestamp.Some? && fps[u].timestamp.value as int == least;
      assert TimedAt(segment, fps, u, fps[u].timestamp.value);
    }
  }

  lemma PartKeyIs(segment: Segment, fps: map<string, Fingerprint>)
    requires forall u, at :: !TimedAt(segment, fps, u, at)
    ensures var key := KeyOf(segment, fps);
      && key.grade >= 1 && (key.grade == 1 <==> exists u, part :: PartAt(segment, fps, u, part))
      && (forall u, part :: PartAt(segment, fps, u, part) ==> key.value <= part)
      && (key.grade == 1 ==> exists u, part :: PartAt(segment, fps, u, part) && key.value == part)
  {
    KeyIs(segment, fps);
    var parts := set u | u in segment.members && u in fps && fps[u].part.Some? :: fps[u].part.value as int;
    assert forall u, part :: PartAt(segment, fps, u, part) ==> part as int in parts;
    if parts != {} {
      var least := Least(parts);
      var u :| u in segment.members && u in fps && fps[u].part.Some? && fps[u].part.value as int == least;
      assert PartAt(segment, fps, u, fps[u].part.value);
    }
  }

  lemma DateKeyIs(segment: Segment, fps: map<string, Fingerprint>)
    requires (forall u, at :: !TimedAt(segment, fps, u, at)) && forall u, part :: !PartAt(segment, fps, u, part)
    ensures var key := KeyOf(segment, fps);
      && key.grade >= 2 && (key.grade == 2 <==> exists u, at :: DatedAt(segment, fps, u, at))
      && (forall u, at :: DatedAt(segment, fps, u, at) ==> key.value <= at)
      && (key.grade == 2 ==> exists u, at :: DatedAt(segment, fps, u, at) && key.value == at)
  {
    PartKeyIs(segment, fps);
    var dates := set u | u in segment.members && u in fps :: fps[u].created;
    assert forall u, at :: DatedAt(segment, fps, u, at) ==> at in dates;
    if dates != {} {
      var least := Least(dates);
      var u :| u in segment.members && u in fps && fps[u].created == least;
      assert DatedAt(segment, fps, u, least);
    }
  }

  /** Segments go by content time first: one with an earlier time than any of another's, or with one at all, comes first. */
  lemma EarlierTimeGoesFirst(order: seq<SegmentId>, segments: map<SegmentId, Segment>, fps: map<string, Fingerprint>, i: nat, j: nat, u: string, at: nat)
    requires (forall s :: s in order ==> s in segments) && SortedSegments(order, segments, fps)
    requires i < |order| && j < |order| && TimedAt(segments[order[i]], fps, u, at)
    requires forall v, b :: TimedAt(segments[order[j]], fps, v, b) ==> at < b
    ensures i < j
  {
    KeyIs(segments[order[i]], fps);
    KeyIs(segments[order[j]], fps);
    assert !NotAfter(KeyOf(segments[order[j]], fps), KeyOf(segments[order[i]], fps));
  }

  /** Without content times they go by part number: one with a lower part than any of another's, or with one at all, comes first. */
  lemma LowerPartGoesFirst(order: seq<SegmentId>, segments: map<SegmentId, Segment>, fps: map<string, Fingerprint>, i: nat, j: nat, u: string, part: nat)
    requires (forall s :: s in order ==> s in segments) && SortedSegments(order, segments, fps)
    requires i < |order| && j < |order| && PartAt(segments[order[i]], fps, u, part)
    requires forall s, v, at :: s in order ==> !TimedAt(segments[s], fps, v, at)
    requires forall v, b :: PartAt(segments[order[j]], fps, v, b) ==> part < b
    ensures i < j
  {
    PartKeyIs(segments[order[i]], fps);
    PartKeyIs(segments[order[j]], fps);
    assert !NotAfter(KeyOf(segments[order[j]], fps), KeyOf(segments[order[i]], fps));
  }

  /** And without either by source date. */
  lemma EarlierDateGoesFirst(order: seq<SegmentId>, segments: map<SegmentId, Segment>, fps: map<string, Fingerprint>, i: nat, j: nat, u: string, at: Time)
    requires (forall s :: s in order ==> s in segments) && SortedSegments(order, segments, fps)
    requires i < |order| && j < |order| && DatedAt(segments[order[i]], fps, u, at)
    requires forall s, v, b :: s in order ==> !TimedAt(segments[s], fps, v, b) && !PartAt(segments[s], fps, v, b)
    requires forall v, b :: DatedAt(segments[order[j]], fps, v, b) ==> at < b
    ensures i < j
  {
    DateKeyIs(segments[order[i]], fps);
    DateKeyIs(segments[order[j]], fps);
    assert !NotAfter(KeyOf(segments[order[j]], fps), KeyOf(segments[order[i]], fps));
  }
}
