/**
 Traversals by example: a read that meets every hypothesis of the soundness theorem, cursor entries, an overlap
 and a pin included, and a read whose terminal proof misses a post.
 */
module TraversalExamples {
  import opened Common
  import opened Evidence
  import opened TraversalProof

  // ---------------------------------------------------------------- reading a page

  lemma {:induction false} LastParsed(tweets: seq<Tweet>, k: nat, source: string)
    requires k < |tweets| && tweets[k].id != "" && tweets[k].author == source
    requires forall j :: k < j < |tweets| ==> tweets[j].id != tweets[k].id
    ensures Resolve(ById(tweets), source, tweets[k].id) == tweets[k].created
  {
    if k < |tweets| - 1 {
      LastParsed(tweets[..|tweets| - 1], k, source);
    }
  }

  lemma PairsOfTwo(byId: map<string, Tweet>, source: string, a: Entry, b: Entry)
    requires Resolve(byId, source, a.id) == Some(a.at) && Resolve(byId, source, b.id) == Some(b.at)
    ensures Pairs(byId, source, [a.id, b.id]) == [a, b]
  {
    assert [a.id, b.id][..1] == [a.id] && [a.id][..0] == [];
    assert Pairs(byId, source, [a.id]) == [a];
  }

  lemma FreshOfTwo(a: Entry, b: Entry, seen: set<string>)
    requires b.id !in seen
    ensures FreshPairs([a, b], seen) == if a.id in seen then [b] else [a, b]
  {
    assert [a, b][..1] == [a] && [a][..0] == [];
    assert FreshPairs([a], seen) == if a.id in seen then [] else [a];
  }

  /** Two posts and a cursor entry, as the instructions list them. */
  lemma ListedTwo(a: string, b: string, pinned: set<string>)
    requires a != "" && b != "" && a !in pinned && b !in pinned
    ensures Kept([a, b, ""], pinned) == [a, b]
  {
    assert [a, b, ""][..2] == [a, b] && [a, b][..1] == [a] && [a][..0] == [];
    assert Kept([a], pinned) == [a] && Kept([a, b], pinned) == [a, b];
  }

  lemma Instructed(pin: string, ids: seq<string>)
    ensures EntryIds([AddEntries(ids)]) == ids && PinnedIds([AddEntries(ids)]) == {}
    ensures EntryIds([PinEntry(pin), AddEntries(ids)]) == ids
    ensures pin != "" ==> PinnedIds([PinEntry(pin), AddEntries(ids)]) == {pin}
  {
    assert [AddEntries(ids)][..0] == [];
    assert [PinEntry(pin), AddEntries(ids)][..1] == [PinEntry(pin)] && [PinEntry(pin)][..0] == [];
    assert EntryIds([PinEntry(pin)]) == [];
    assert [PinEntry(pin), AddEntries(ids)][0] == PinEntry(pin);
  }

  /** The evidence after a page of two posts in order, of which the second is new. */
  lemma TwoPostPage(ev: Record, page: ProviderPage, a: Entry, b: Entry)
    requires ev.WellFormed() && ev.orderValid && ShapeValid(page)
    requires InputOf(page).ordered == [a.id, b.id] && a.at >= b.at && b.id !in ev.seen
    requires Resolve(ById(page.tweets), ev.source, a.id) == Some(a.at) && Resolve(ById(page.tweets), ev.source, b.id) == Some(b.at)
    requires ev.previousOldest.Some? ==> (if a.id in ev.seen then b.at else a.at) <= ev.previousOldest.value
    ensures PageValid(ev, page)
    ensures var next := AfterProviderPage(ev, page);
      && next.source == ev.source && next.windowStart == ev.windowStart && next.windowEnd == ev.windowEnd && next.orderValid
      && next.seen == ev.seen + {a.id, b.id} && next.previousOldest == Some(b.at)
      && next.expected <= ev.expected + {a.id, b.id} + InputOf(page).pinned
      && (b.at < ev.windowStart.value ==> next.lowerBoundaryProven)
      && next.validResponse == (ev.pages == 0 || ev.validResponse) && next.pages == ev.pages + 1
      && next.observations == ev.observations + page.observed
  {
    TwoPairs(ev, page, a, b);
    AfterPageFields(ev, InputOf(page));
  }

  lemma TwoPairs(ev: Record, page: ProviderPage, a: Entry, b: Entry)
    requires ev.WellFormed() && InputOf(page).ordered == [a.id, b.id] && a.at >= b.at && b.id !in ev.seen
    requires Resolve(ById(page.tweets), ev.source, a.id) == Some(a.at) && Resolve(ById(page.tweets), ev.source, b.id) == Some(b.at)
    requires ev.previousOldest.Some? ==> (if a.id in ev.seen then b.at else a.at) <= ev.previousOldest.value
    ensures var pairs := OrderedPairs(ev, InputOf(page));
      && |pairs| == 2 && KeepsOrder(ev, pairs) && Ids(pairs) == {a.id, b.id}
      && FreshPairs(pairs, ev.seen) == (if a.id in ev.seen then [b] else [a, b])
      && InWindowIds(pairs, ev.windowStart.value, ev.windowEnd.value) <= {a.id, b.id}
      && (b.at < ev.windowStart.value ==> Reaches(pairs, ev.windowStart.value))
  {
    PairsOfTwo(ById(page.tweets), ev.source, a, b);
    TwoInOrder(ev, OrderedPairs(ev, InputOf(page)), a, b);
  }

  lemma TwoInOrder(ev: Record, pairs: seq<Entry>, a: Entry, b: Entry)
    requires ev.WellFormed() && pairs == [a, b] && a.at >= b.at && b.id !in ev.seen
    requires ev.previousOldest.Some? ==> (if a.id in ev.seen then b.at else a.at) <= ev.previousOldest.value
    ensures KeepsOrder(ev, pairs) && Ids(pairs) == {a.id, b.id} && FreshPairs(pairs, ev.seen) == (if a.id in ev.seen then [b] else [a, b])
    ensures InWindowIds(pairs, ev.windowStart.value, ev.windowEnd.value) <= {a.id, b.id}
    ensures b.at < ev.windowStart.value ==> Reaches(pairs, ev.windowStart.value)
  {
    FreshOfTwo(a, b, ev.seen);
    assert pairs[1] == b;
  }

  // ---------------------------------------------------------------- an honest read

  const ALPHA := "alpha"

  /** The posts of a source, newest first; the last one is pinned and never reached. */
  const TIMELINE := [Entry("30", 8), Entry("20", 5), Entry("12", -3), Entry("10", -100)]

  const FIRST := ProviderPage(
    [PinEntry("10"), AddEntries(["30", "20", ""])],
    [Tweet("10", ALPHA, Some(-100)), Tweet("30", ALPHA, Some(8)), Tweet("20", ALPHA, Some(5))],
    "bottom-1", false, {"10", "30", "20"})

  const SECOND := ProviderPage(
    [AddEntries(["20", "12", ""])],
    [Tweet("20", ALPHA, Some(5)), Tweet("12", ALPHA, Some(-3))],
    "bottom-2", false, {"20", "12"})

  const START := Fresh(ALPHA, Some(0), Some(10))

  lemma FirstRead()
    ensures Posts(FIRST) == ["30", "20"] && PageValid(START, FIRST)
    ensures var ev := AfterProviderPage(START, FIRST);
      && ev.WellFormed() && ev.source == ALPHA && ev.windowStart == Some(0) && ev.windowEnd == Some(10) && ev.orderValid
      && ev.seen == {"30", "20"} && ev.previousOldest == Some(5) && ev.expected <= {"30", "20", "10"}
      && ev.validResponse && ev.pages == 1 && ev.observations == {"10", "30", "20"}
  {
    Instructed("10", ["30", "20", ""]);
    ListedTwo("30", "20", {"10"});
    ListedTwo("30", "20", {});
    LastParsed(FIRST.tweets, 1, ALPHA);
    LastParsed(FIRST.tweets, 2, ALPHA);
    assert FIRST.instructions[1].AddEntries?;
    TwoPostPage(START, FIRST, Entry("30", 8), Entry("20", 5));
  }

  lemma SecondRead(ev: Record)
    requires ev.WellFormed() && ev.source == ALPHA && ev.windowStart == Some(0) && ev.windowEnd == Some(10) && ev.orderValid
    requires ev.seen == {"30", "20"} && ev.previousOldest == Some(5) && ev.expected <= {"30", "20", "10"}
    requires ev.validResponse && ev.pages == 1 && ev.observations == {"10", "30", "20"}
    ensures Posts(SECOND) == ["20", "12"] && PageValid(ev, SECOND)
    ensures var next := AfterProviderPage(ev, SECOND);
      && next.source == ALPHA && next.orderValid && next.lowerBoundaryProven && next.validResponse && next.pages == 2
      && next.expected <= {"30", "20", "10", "12"} && next.observations == {"10", "30", "20", "12"}
  {
    Instructed("", ["20", "12", ""]);
    ListedTwo("20", "12", {});
    LastParsed(SECOND.tweets, 0, ALPHA);
    LastParsed(SECOND.tweets, 1, ALPHA);
    assert SECOND.instructions[0].AddEntries?;
    TwoPostPage(ev, SECOND, Entry("20", 5), Entry("12", -3));
  }

  const PAGES := [FIRST, SECOND]

  const SLICES := [Slice(0, 2), Slice(1, 3)]

  lemma TwoPagesFromTop(timeline: seq<Entry>, p: ProviderPage, q: ProviderPage, slices: seq<Slice>)
    requires slices == [Slice(0, 2), Slice(1, 3)] && |timeline| >= 3
    requires NonIncreasing(timeline) && forall i :: 0 <= i < |timeline| ==> timeline[i].id != ""
    requires Honest(timeline, p, slices[0]) && Honest(timeline, q, slices[1])
    ensures HonestTraversal(timeline, [p, q], slices) && Frontier(slices) == 3
  {
    assert slices[..0] == [] && slices[..1] == [slices[0]] && [slices[0]][..0] == [];
    assert Frontier([slices[0]]) == 2;
  }

  /** The parsed post is the timeline's m-th one. */
  predicate ParsedFrom(timeline: seq<Entry>, t: Tweet, m: nat) {
    m < |timeline| && t.id == timeline[m].id && t.created == Some(timeline[m].at)
  }

  ghost predicate AllParsed(timeline: seq<Entry>, tweets: seq<Tweet>) {
    forall k :: 0 <= k < |tweets| ==> exists m: nat :: ParsedFrom(timeline, tweets[k], m)
  }

  lemma HonestTwo(timeline: seq<Entry>, page: ProviderPage, lo: nat)
    requires lo + 2 <= |timeline| && Posts(page) == [timeline[lo].id, timeline[lo + 1].id]
    requires forall i, j :: 0 <= i < j < |timeline| ==> timeline[i].id != timeline[j].id
    requires AllParsed(timeline, page.tweets)
    ensures Honest(timeline, page, Slice(lo, lo + 2))
  {
    forall t, i | t in page.tweets && 0 <= i < |timeline| && t.id == timeline[i].id ensures t.created == Some(timeline[i].at) {
      var k :| 0 <= k < |page.tweets| && page.tweets[k] == t;
      var m: nat :| ParsedFrom(timeline, page.tweets[k], m);
      assert timeline[Min(i, m)].id == timeline[Max(i, m)].id;
    }
  }

  lemma TimelineIsOrdered()
    ensures NonIncreasing(TIMELINE) && forall i :: 0 <= i < |TIMELINE| ==> TIMELINE[i].id != ""
    ensures forall i, j :: 0 <= i < j < |TIMELINE| ==> TIMELINE[i].id != TIMELINE[j].id
  {
  }

  lemma FirstIsHonest()
    ensures Honest(TIMELINE, FIRST, Slice(0, 2))
  {
    TimelineIsOrdered();
    FirstRead();
    FirstParsed();
    HonestTwo(TIMELINE, FIRST, 0);
  }

  lemma FirstParsed()
    ensures AllParsed(TIMELINE, FIRST.tweets)
  {
    assert ParsedFrom(TIMELINE, FIRST.tweets[0], 3);
    assert ParsedFrom(TIMELINE, FIRST.tweets[1], 0);
    assert ParsedFrom(TIMELINE, FIRST.tweets[2], 1);
  }

  lemma SecondIsHonest()
    ensures Honest(TIMELINE, SECOND, Slice(1, 3))
  {
    TimelineIsOrdered();
    SecondListed();
    SecondParsed();
    HonestTwo(TIMELINE, SECOND, 1);
  }

  lemma SecondListed()
    ensures Posts(SECOND) == [TIMELINE[1].id, TIMELINE[2].id]
  {
    Instructed("", ["20", "12", ""]);
    ListedTwo("20", "12", {});
  }

  lemma SecondParsed()
    ensures AllParsed(TIMELINE, SECOND.tweets)
  {
    assert ParsedFrom(TIMELINE, SECOND.tweets[0], 1);
    assert ParsedFrom(TIMELINE, SECOND.tweets[1], 2);
  }

  lemma PagesAreHonest()
    ensures HonestTraversal(TIMELINE, PAGES, SLICES) && Frontier(SLICES) == 3
  {
    TimelineIsOrdered();
    FirstIsHonest();
    SecondIsHonest();
    TwoPagesFromTop(TIMELINE, FIRST, SECOND, SLICES);
  }

  /** What the two pages leave behind, closed as the collector closes a read that crossed the lower boundary. */
  function ReadEvidence(): Record {
    Close(Traverse(START, PAGES), true, "bottom-2", false, true)
  }

  /** The read is valid, not resumed and not exhausted; its proof is terminal, by the lower boundary. */
  lemma HonestRead()
    ensures HonestTraversal(TIMELINE, PAGES, SLICES) && Frontier(SLICES) == 3
    ensures ReadEvidence().validResponse && ReadEvidence().pages == 2 && !ReadEvidence().resumed && !ReadEvidence().exhausted
    ensures ProofInputs(ReadEvidence(), false).1.terminalProven && !ProofInputs(ReadEvidence(), false).0.lowerBoundary
  {
    FirstRead();
    SecondRead(AfterProviderPage(START, FIRST));
    PagesAreHonest();
    assert PAGES[..1] == [FIRST] && [FIRST][..0] == [];
    assert Traverse(START, [FIRST]) == AfterProviderPage(START, FIRST);
    assert ReadEvidence().expected - {""} <= ReadEvidence().observations - {""};
  }

  lemma ReadPostsAreAccounted()
    ensures Accounted(ALPHA, PAGES, "30") && Accounted(ALPHA, PAGES, "20")
  {
    Instructed("10", ["30", "20", ""]);
    ListedTwo("30", "20", {"10"});
    assert InputOf(FIRST).ordered == ["30", "20"];
    assert Accounts(ALPHA, PAGES[0], "30") && Accounts(ALPHA, PAGES[0], "20");
  }

  lemma WindowPosts()
    ensures Accounted(ALPHA, PAGES, "30") && Accounted(ALPHA, PAGES, "20")
    ensures TIMELINE[0] == Entry("30", 8) && TIMELINE[1] == Entry("20", 5)
    ensures forall j :: 0 <= j < |TIMELINE| && 0 <= TIMELINE[j].at < 10 ==> Accounted(ALPHA, PAGES, TIMELINE[j].id)
  {
    ReadPostsAreAccounted();
    forall j | 0 <= j < |TIMELINE| && 0 <= TIMELINE[j].at < 10 ensures TIMELINE[j].id in ["30", "20"] {
    }
  }

  lemma WindowIsAccounted()
    ensures forall j :: 0 <= j < |TIMELINE| && 0 <= TIMELINE[j].at < 10 ==> Accounted(ALPHA, PAGES, TIMELINE[j].id)
  {
    WindowPosts();
  }

  /** Every hypothesis of `TerminalProofIsSound` holds of this read, for each of the two window posts. */
  lemma SoundnessApplies()
    ensures "30" in Traverse(START, PAGES).observations && "20" in Traverse(START, PAGES).observations
  {
    SoundnessAppliesTo(0);
    SoundnessAppliesTo(1);
    WindowPosts();
  }

  lemma SoundnessAppliesTo(i: nat)
    requires i < |TIMELINE| && 0 <= TIMELINE[i].at < 10
    ensures TIMELINE[i].id in Traverse(START, PAGES).observations
  {
    HonestRead();
    WindowIsAccounted();
    TerminalProofIsSound(TIMELINE, ALPHA, 0, 10, PAGES, SLICES, true, "bottom-2", false, true, false, i);
  }

  // ---------------------------------------------------------------- later reads

  /** The timeline after one more post. */
  const LATER := [Entry("40", 15)] + TIMELINE

  const NEWEST := ProviderPage(
    [AddEntries(["40", "30", ""])],
    [Tweet("40", ALPHA, Some(15)), Tweet("30", ALPHA, Some(8))],
    "bottom-3", false, {"40", "30"})

  const RESTART := Fresh(ALPHA, Some(10), Some(20))

  lemma NewestRead()
    ensures Posts(NEWEST) == ["40", "30"] && PageValid(RESTART, NEWEST)
    ensures var ev := AfterProviderPage(RESTART, NEWEST);
      && ev.orderValid && ev.lowerBoundaryProven && ev.validResponse && ev.pages == 1
      && ev.expected <= {"40", "30"} && ev.observations == {"40", "30"}
  {
    Instructed("", ["40", "30", ""]);
    ListedTwo("40", "30", {});
    LastParsed(NEWEST.tweets, 0, ALPHA);
    LastParsed(NEWEST.tweets, 1, ALPHA);
    assert NEWEST.instructions[0].AddEntries?;
    TwoPostPage(RESTART, NEWEST, Entry("40", 15), Entry("30", 8));
  }

  function LaterEvidence(): Record {
    Close(Traverse(RESTART, [NEWEST]), true, "bottom-3", false, true)
  }

  /** A read of the later window, from the top of the longer timeline, with a terminal proof. */
  lemma LaterRead()
    ensures HonestTraversal(LATER, [NEWEST], [Slice(0, 2)]) && Frontier([Slice(0, 2)]) == 2
    ensures LaterEvidence().validResponse && LaterEvidence().pages == 1 && !LaterEvidence().resumed && !LaterEvidence().exhausted
    ensures ProofInputs(LaterEvidence(), false).1.terminalProven && !ProofInputs(LaterEvidence(), false).0.lowerBoundary
  {
    NewestRead();
    NewestIsHonest();
    OneFromTop(LATER, NEWEST, [Slice(0, 2)]);
    assert [NEWEST][..0] == [];
    assert Traverse(RESTART, [NEWEST]) == AfterProviderPage(RESTART, NEWEST);
    assert LaterEvidence().expected - {""} <= LaterEvidence().observations - {""};
  }

  lemma OneFromTop(timeline: seq<Entry>, page: ProviderPage, slices: seq<Slice>)
    requires slices == [Slice(0, 2)] && |timeline| >= 2
    requires NonIncreasing(timeline) && forall i :: 0 <= i < |timeline| ==> timeline[i].id != ""
    requires Honest(timeline, page, slices[0])
    ensures HonestTraversal(timeline, [page], slices) && Frontier(slices) == 2
  {
    assert slices[..0] == [];
  }

  lemma LaterIsOrdered()
    ensures NonIncreasing(LATER) && forall i :: 0 <= i < |LATER| ==> LATER[i].id != ""
    ensures forall i, j :: 0 <= i < j < |LATER| ==> LATER[i].id != LATER[j].id
  {
    TimelineIsOrdered();
  }

  lemma NewestIsHonest()
    ensures Honest(LATER, NEWEST, Slice(0, 2)) && NonIncreasing(LATER) && forall i :: 0 <= i < |LATER| ==> LATER[i].id != ""
  {
    LaterIsOrdered();
    NewestListed();
    NewestParsed();
    HonestTwo(LATER, NEWEST, 0);
  }

  lemma NewestListed()
    ensures |LATER| == 5 && Posts(NEWEST) == [LATER[0].id, LATER[1].id]
  {
    NewestRead();
  }

  lemma NewestParsed()
    ensures AllParsed(LATER, NEWEST.tweets)
  {
    assert ParsedFrom(LATER, NEWEST.tweets[0], 0);
    assert ParsedFrom(LATER, NEWEST.tweets[1], 1);
  }

  lemma LaterWindowIsAccounted()
    ensures forall j :: 0 <= j < |LATER| && 10 <= LATER[j].at < 20 ==> Accounted(ALPHA, [NEWEST], LATER[j].id)
  {
    Instructed("", ["40", "30", ""]);
    ListedTwo("40", "30", {});
    assert Accounts(ALPHA, [NEWEST][0], "40");
    forall j | 0 <= j < |LATER| && 10 <= LATER[j].at < 20 ensures LATER[j].id == "40" {
    }
  }

  /** A read of the later window that goes on where an interrupted one stopped, in the middle of the timeline. */
  function ResumedEvidence(): Record {
    Close(Traverse(RESTART, [SECOND]), true, "bottom-2", true, true)
  }

  lemma SecondAgain()
    ensures var ev := AfterProviderPage(RESTART, SECOND);
      && ev.orderValid && ev.lowerBoundaryProven && ev.validResponse
      && ev.expected <= {"20", "12"} && ev.observations == {"20", "12"}
  {
    Instructed("", ["20", "12", ""]);
    ListedTwo("20", "12", {});
    LastParsed(SECOND.tweets, 0, ALPHA);
    LastParsed(SECOND.tweets, 1, ALPHA);
    assert SECOND.instructions[0].AddEntries?;
    TwoPostPage(RESTART, SECOND, Entry("20", 5), Entry("12", -3));
  }

  lemma Counted(ev: Record, page: ProviderPage)
    ensures AfterProviderPage(ev, page).rawCount == ev.rawCount + |page.tweets|
  {
  }

  /** Its structure proves the boundary of a window it did not read, yet being resumed it is never complete. */
  lemma ResumedRead()
    ensures ResumedEvidence().resumed && ResumedEvidence().rawCount == 2 && ResumedEvidence().validResponse
    ensures ProofInputs(ResumedEvidence(), false).1.terminalProven && "40" !in ResumedEvidence().observations
  {
    OnePage(RESTART, SECOND);
    SecondAgain();
    Counted(RESTART, SECOND);
    ResumedCloses(AfterProviderPage(RESTART, SECOND));
  }

  lemma ResumedCloses(read: Record)
    requires read.orderValid && read.lowerBoundaryProven && read.expected <= {"20", "12"} && read.observations == {"20", "12"}
    ensures var ev := Close(read, true, "bottom-2", true, true);
      ev.resumed && ev.rawCount == read.rawCount && ev.validResponse == read.validResponse
      && ProofInputs(ev, false).1.terminalProven && "40" !in ev.observations
  {
  }

  // ---------------------------------------------------------------- a post that is missed

  /**
   A page that both lists and pins a post it failed to parse is valid, yet the post is neither ordered
   nor expected: with exhaustion the proof is terminal and the window's only post was never observed.
   */
  lemma PinnedButUnparsed() returns (timeline: seq<Entry>, pages: seq<ProviderPage>, slices: seq<Slice>)
    ensures HonestTraversal(timeline, pages, slices) && Frontier(slices) == |timeline| == |pages| == 1
    ensures var read := Traverse(Fresh("haniwadda", Some(0), Some(10)), pages);
            && read.validResponse
            && ProofInputs(Close(read, true, "", false, false), false).1.terminalProven
            && 0 <= timeline[0].at < 10
            && timeline[0].id !in read.observations
            && !Accounted("haniwadda", pages, timeline[0].id)
  {
    var instructions := [PinEntry("7"), AddEntries(["7"])];
    timeline, slices := [Entry("7", 5)], [Slice(0, 1)];
    var page := ProviderPage(instructions, [], "", false, {});
    pages := [page];
    var ev := Fresh("haniwadda", Some(0), Some(10));
    UnparsedPinAddsNothing(ev, instructions, page);
    OnePage(ev, page);
    OneSlice(timeline, page, slices);
    EmptyReadIsTerminal(ev.(pages := 1, validResponse := true));
  }

  lemma OnePage(ev: Record, page: ProviderPage)
    ensures Traverse(ev, [page]) == AfterProviderPage(ev, page)
    ensures forall source, id :: Accounted(source, [page], id) ==> Accounts(source, page, id)
  {
    assert [page][..0] == [];
  }

  lemma OneSlice(timeline: seq<Entry>, page: ProviderPage, slices: seq<Slice>)
    requires |timeline| == 1 && timeline[0].id != "" && slices == [Slice(0, 1)]
    requires Posts(page) == [timeline[0].id] && page.tweets == []
    ensures HonestTraversal(timeline, [page], slices) && Frontier(slices) == 1
  {
    assert slices[..0] == [];
    assert Honest(timeline, page, slices[0]);
  }

  lemma EmptyReadIsTerminal(ev: Record)
    requires ev == Fresh("haniwadda", Some(0), Some(10)).(pages := 1, validResponse := true)
    ensures ProofInputs(Close(ev, true, "", false, false), false).1.terminalProven
    ensures ev.observations == {}
  {
  }

  lemma UnparsedPinAddsNothing(ev: Record, instructions: seq<Instruction>, page: ProviderPage)
    requires instructions == [PinEntry("7"), AddEntries(["7"])]
    requires ev == Fresh("haniwadda", Some(0), Some(10))
    requires page == ProviderPage(instructions, [], "", false, {})
    ensures Posts(page) == ["7"]
    ensures !Accounts(ev.source, page, "7")
    ensures AfterProviderPage(ev, page) == ev.(pages := 1, validResponse := true)
  {
    UnparsedInput(instructions, page);
    NothingToProve(ev, InputOf(page));
    assert instructions[1].AddEntries?;
    EmptyPage(ev, page);
    NotAccounted(ev.source, page);
  }

  lemma EmptyPage(ev: Record, page: ProviderPage)
    requires ShapeValid(page) && StructureValid(ev, InputOf(page)) && AfterPage(ev, InputOf(page)) == ev
    requires ev.pages == 0 && page.tweets == [] && page.observed == {}
    ensures AfterProviderPage(ev, page) == ev.(pages := 1, validResponse := true)
  {
  }

  lemma NotAccounted(source: string, page: ProviderPage)
    requires InputOf(page) == PageInput([], [], {"7"}) && page.tweets == []
    ensures !Accounts(source, page, "7")
  {
  }

  lemma UnparsedInput(instructions: seq<Instruction>, page: ProviderPage)
    requires instructions == [PinEntry("7"), AddEntries(["7"])] && page == ProviderPage(instructions, [], "", false, {})
    ensures Posts(page) == ["7"] && InputOf(page) == PageInput([], [], {"7"})
  {
    Instructed("7", ["7"]);
    assert ["7"][..0] == [];
    assert Kept(["7"], {"7"}) == [] && Kept(["7"], {}) == ["7"];
  }

  lemma NothingToProve(ev: Record, page: PageInput)
    requires ev.WellFormed() && ev.orderValid && page == PageInput([], [], {"7"})
    ensures StructureValid(ev, page) && AfterPage(ev, page) == ev
  {
    assert OrderedPairs(ev, page) == [];
    assert ExpectedFrom(ev, page) == {};
    assert Ids([]) == {};
  }
}
