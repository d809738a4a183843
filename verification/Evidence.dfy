/**
 The attempt-local traversal evidence and the page fold that fills it.

 A provider page contributes the post ids of its top-level timeline entries, the ids
 of its pinned entries, and the parsed posts. The fold keeps, across pages, the ids
 seen so far, whether the order of newly seen posts is still non-increasing in time,
 and a sticky flag saying that a post older than the window has been reached.
 */
module Evidence {
  import opened Common

  /** A parsed post: `author` is normalised; `created` is absent when it has no usable date. */
  datatype Tweet = Tweet(id: string, author: string, created: Option<Time>)

  /** One timeline instruction; an entry that is not a post has the empty id. */
  datatype Instruction =
    | PinEntry(postId: string)
    | Terminate(bottom: bool)
    | AddEntries(postIds: seq<string>)
    | OtherInstruction

  /** A top-level post whose author and date were resolved. */
  datatype Entry = Entry(id: string, at: Time)

  /** The value of an evidence record. Absent times stand for the empty string. */
  datatype Record = Record(
    source: string,
    windowStart: Option<Time>,
    windowEnd: Option<Time>,
    pages: nat,
    rawCount: nat,
    observations: set<string>,
    expected: set<string>,
    exhausted: bool,
    validResponse: bool,
    resumed: bool,
    lowerBoundary: bool,
    lowerBoundaryProven: bool,
    orderValid: bool,
    newest: Option<Time>,
    oldest: Option<Time>,
    previousOldest: Option<Time>,
    seen: set<string>
  ) {
    predicate WellFormed() {
      source != "" && windowStart.Some? && windowEnd.Some? && windowStart.value < windowEnd.value
    }

    predicate InWindow(t: Time)
      requires WellFormed()
    {
      windowStart.value <= t < windowEnd.value
    }
  }

  /** The record an attempt begins with. */
  function Fresh(source: string, start: Option<Time>, end: Option<Time>): Record {
    Record(source, start, end, 0, 0, {}, {}, false, false, false, false, false, true, None, None, None, {})
  }

  // ---------------------------------------------------------------- timeline structure

  /** Every pinned post id, wherever in the payload its instruction stands. */
  function PinnedIds(instructions: seq<Instruction>): set<string> {
    set i | 0 <= i < |instructions| && instructions[i].PinEntry? && instructions[i].postId != ""
      :: instructions[i].postId
  }

  function Kept(ids: seq<string>, pinned: set<string>): seq<string> {
    if ids == [] then []
    else
      var rest := Kept(ids[..|ids| - 1], pinned);
      var last := ids[|ids| - 1];
      if last != "" && last !in pinned then rest + [last] else rest
  }

  lemma {:induction false} KeptMembers(ids: seq<string>, pinned: set<string>, id: string)
    ensures id in Kept(ids, pinned) <==> id in ids && id != "" && id !in pinned
  {
    if ids != [] {
      assert ids == ids[..|ids| - 1] + [ids[|ids| - 1]];
      KeptMembers(ids[..|ids| - 1], pinned, id);
    }
  }

  function EntryIds(instructions: seq<Instruction>): seq<string> {
    if instructions == [] then []
    else
      var last := instructions[|instructions| - 1];
      EntryIds(instructions[..|instructions| - 1]) + (if last.AddEntries? then last.postIds else [])
  }

  predicate TerminatesBottom(instructions: seq<Instruction>) {
    exists i :: 0 <= i < |instructions| && instructions[i].Terminate? && instructions[i].bottom
  }

  predicate HasAddEntries(instructions: seq<Instruction>) {
    exists i :: 0 <= i < |instructions| && instructions[i].AddEntries?
  }

  lemma {:induction false} KeptAppend(a: seq<string>, b: seq<string>, pinned: set<string>)
    ensures Kept(a + b, pinned) == Kept(a, pinned) + Kept(b, pinned)
  {
    if b == [] {
      assert a + b == a;
    } else {
      var init := b[..|b| - 1];
      assert (a + b)[..|a + b| - 1] == a + init;
      KeptAppend(a, init, pinned);
    }
  }

  /** The ordered normal ids (pins removed), the pinned ids, and bottom termination. */
  method TimelineStructure(instructions: seq<Instruction>)
    returns (ordered: seq<string>, pinned: set<string>, terminatedBottom: bool)
    ensures pinned == PinnedIds(instructions)
    ensures ordered == Kept(EntryIds(instructions), pinned)
    ensures terminatedBottom == TerminatesBottom(instructions)
  {
    pinned, terminatedBottom := ScanPins(instructions);
    ordered := [];
    for i := 0 to |instructions|
      invariant ordered == Kept(EntryIds(instructions[..i]), pinned)
    {
      assert instructions[..i + 1][..i] == instructions[..i];
      if instructions[i].AddEntries? {
        var kept := KeepNormal(instructions[i].postIds, pinned);
        KeptAppend(EntryIds(instructions[..i]), instructions[i].postIds, pinned);
        ordered := ordered + kept;
      } else {
        assert EntryIds(instructions[..i + 1]) == EntryIds(instructions[..i]);
      }
    }
    assert instructions[..|instructions|] == instructions;
  }

  method KeepNormal(ids: seq<string>, pinned: set<string>) returns (kept: seq<string>)
    ensures kept == Kept(ids, pinned)
  {
    kept := [];
    for k := 0 to |ids|
      invariant kept == Kept(ids[..k], pinned)
    {
      assert ids[..k + 1][..k] == ids[..k];
      if ids[k] != "" && ids[k] !in pinned {
        kept := kept + [ids[k]];
      }
    }
    assert ids[..|ids|] == ids;
  }

  method ScanPins(instructions: seq<Instruction>) returns (pinned: set<string>, terminatedBottom: bool)
    ensures pinned == PinnedIds(instructions)
    ensures terminatedBottom == TerminatesBottom(instructions)
  {
    pinned, terminatedBottom := {}, false;
    for i := 0 to |instructions|
      invariant forall id :: id in pinned <==>
                             exists k :: 0 <= k < i && instructions[k].PinEntry? && instructions[k].postId != "" && instructions[k].postId == id
      invariant terminatedBottom <==> exists k :: 0 <= k < i && instructions[k].Terminate? && instructions[k].bottom
    {
      var instruction := instructions[i];
      if instruction.PinEntry? {
        if instruction.postId != "" {
          pinned := pinned + {instruction.postId};
        }
      } else if instruction.Terminate? && instruction.bottom {
        terminatedBottom := true;
      }
    }
  }

  // ---------------------------------------------------------------- one page, as values

  /** Last parsed post with each non-empty id. */
  function ById(tweets: seq<Tweet>): map<string, Tweet> {
    if tweets == [] then map[]
    else
      var last := tweets[|tweets| - 1];
      var m := ById(tweets[..|tweets| - 1]);
      if last.id != "" then m[last.id := last] else m
  }

  lemma {:induction false} ByIdParsed(tweets: seq<Tweet>, id: string)
    requires id in ById(tweets)
    ensures ById(tweets)[id] in tweets && ById(tweets)[id].id == id
  {
    var last := tweets[|tweets| - 1];
    if last.id != id || id == "" { ByIdParsed(tweets[..|tweets| - 1], id); }
  }

  /** The date of a post, when it was parsed, is by the source and has one. */
  function Resolve(byId: map<string, Tweet>, source: string, id: string): Option<Time> {
    if id in byId && byId[id].author == source then byId[id].created else None
  }

  function Pairs(byId: map<string, Tweet>, source: string, ids: seq<string>): (r: seq<Entry>)
    ensures |r| <= |ids|
  {
    if ids == [] then []
    else
      var last := ids[|ids| - 1];
      var rest := Pairs(byId, source, ids[..|ids| - 1]);
      match Resolve(byId, source, last)
      case Some(t) => rest + [Entry(last, t)]
      case None => rest
  }

  /** The pairs are exactly the resolved ids, with their dates. */
  lemma {:induction false} PairsMember(byId: map<string, Tweet>, source: string, ids: seq<string>, e: Entry)
    ensures e in Pairs(byId, source, ids) <==> e.id in ids && Resolve(byId, source, e.id) == Some(e.at)
  {
    if ids != [] {
      assert ids == ids[..|ids| - 1] + [ids[|ids| - 1]];
      PairsMember(byId, source, ids[..|ids| - 1], e);
    }
  }

  lemma {:induction false} AllResolved(byId: map<string, Tweet>, source: string, ids: seq<string>, id: string)
    requires |Pairs(byId, source, ids)| == |ids| && id in ids
    ensures Resolve(byId, source, id).Some?
  {
    if ids[|ids| - 1] != id {
      assert ids == ids[..|ids| - 1] + [ids[|ids| - 1]];
      AllResolved(byId, source, ids[..|ids| - 1], id);
    }
  }

  function FreshPairs(pairs: seq<Entry>, seen: set<string>): seq<Entry> {
    if pairs == [] then []
    else
      var last := pairs[|pairs| - 1];
      var rest := FreshPairs(pairs[..|pairs| - 1], seen);
      if last.id !in seen then rest + [last] else rest
  }

  lemma {:induction false} FreshMember(pairs: seq<Entry>, seen: set<string>, e: Entry)
    ensures e in FreshPairs(pairs, seen) <==> e in pairs && e.id !in seen
  {
    if pairs != [] {
      assert pairs == pairs[..|pairs| - 1] + [pairs[|pairs| - 1]];
      FreshMember(pairs[..|pairs| - 1], seen, e);
    }
  }

  predicate AdjacentNonIncreasing(s: seq<Entry>) {
    forall i :: 0 <= i < |s| - 1 ==> s[i].at >= s[i + 1].at
  }

  ghost predicate NonIncreasing(s: seq<Entry>) {
    forall i, j :: 0 <= i < j < |s| ==> s[i].at >= s[j].at
  }

  function Ids(s: seq<Entry>): set<string> {
    set e | e in s :: e.id
  }

  function Newest(s: seq<Entry>): Time
    requires s != []
  {
    if |s| == 1 then s[0].at else Max(Newest(s[..|s| - 1]), s[|s| - 1].at)
  }

  function Oldest(s: seq<Entry>): Time
    requires s != []
  {
    if |s| == 1 then s[0].at else Min(Oldest(s[..|s| - 1]), s[|s| - 1].at)
  }

  /** The newest and the oldest date bound the others and are attained. */
  lemma {:induction false} SpanOf(s: seq<Entry>) returns (newest: nat, oldest: nat)
    requires s != []
    ensures newest < |s| && s[newest].at == Newest(s)
    ensures oldest < |s| && s[oldest].at == Oldest(s)
    ensures forall i :: 0 <= i < |s| ==> Oldest(s) <= s[i].at <= Newest(s)
  {
    newest, oldest := 0, 0;
    if |s| > 1 {
      newest, oldest := SpanOf(s[..|s| - 1]);
      if s[|s| - 1].at > s[newest].at { newest := |s| - 1; }
      if s[|s| - 1].at < s[oldest].at { oldest := |s| - 1; }
    }
  }

  /** What reaches the structural proof from one provider page. */
  datatype PageInput = PageInput(tweets: seq<Tweet>, ordered: seq<string>, pinned: set<string>)

  function OrderedPairs(ev: Record, page: PageInput): seq<Entry> {
    Pairs(ById(page.tweets), ev.source, page.ordered)
  }

  function InWindowIds(pairs: seq<Entry>, start: Time, end: Time): set<string> {
    set e | e in pairs && start <= e.at < end :: e.id
  }

  /** The in-window pinned posts that were parsed and dated. */
  function InWindowPins(byId: map<string, Tweet>, source: string, pinned: set<string>, start: Time, end: Time): set<string> {
    set id | id in pinned && Resolve(byId, source, id).Some? && start <= Resolve(byId, source, id).value < end
  }

  function ExpectedFrom(ev: Record, page: PageInput): set<string>
    requires ev.WellFormed()
  {
    InWindowIds(OrderedPairs(ev, page), ev.windowStart.value, ev.windowEnd.value) +
    InWindowPins(ById(page.tweets), ev.source, page.pinned, ev.windowStart.value, ev.windowEnd.value)
  }

  /** Some post of the page is older than the instant. */
  predicate Reaches(pairs: seq<Entry>, start: Time) {
    exists e :: e in pairs && e.at < start
  }

  predicate CrossesBack(added: seq<Entry>, previousOldest: Option<Time>) {
    added != [] && previousOldest.Some? && added[0].at > previousOldest.value
  }

  /** The page respects the order: it is non-increasing and starts no later than the traversal stands. */
  predicate KeepsOrder(ev: Record, pairs: seq<Entry>) {
    AdjacentNonIncreasing(pairs) && !CrossesBack(FreshPairs(pairs, ev.seen), ev.previousOldest)
  }

  predicate StructureValid(ev: Record, page: PageInput) {
    var pairs := OrderedPairs(ev, page);
    ev.WellFormed() && |pairs| == |page.ordered| && KeepsOrder(ev, pairs)
  }

  /** The span of dates seen, after the dated pairs of a page. */
  function AfterSpan(ev: Record, pairs: seq<Entry>): Record {
    if pairs == [] then ev
    else
      ev.(newest := if ev.newest.None? || Newest(pairs) > ev.newest.value then Some(Newest(pairs)) else ev.newest,
          oldest := if ev.oldest.None? || Oldest(pairs) < ev.oldest.value then Some(Oldest(pairs)) else ev.oldest)
  }

  /** The order facts of the evidence, after the dated pairs of a page. */
  function AfterOrder(ev: Record, pairs: seq<Entry>): Record
    requires ev.WellFormed()
  {
    var added := FreshPairs(pairs, ev.seen);
    var order := ev.orderValid && KeepsOrder(ev, pairs);
    ev.(orderValid := order,
        previousOldest := if AdjacentNonIncreasing(pairs) && added != [] then Some(added[|added| - 1].at) else ev.previousOldest,
        seen := ev.seen + Ids(pairs),
        lowerBoundaryProven := ev.lowerBoundaryProven || (order && Reaches(pairs, ev.windowStart.value)))
  }

  /** The evidence after a page. */
  function AfterPage(ev: Record, page: PageInput): Record {
    if ev.WellFormed() then
      var pairs := OrderedPairs(ev, page);
      AfterOrder(AfterSpan(ev.(expected := ev.expected + ExpectedFrom(ev, page)), pairs), pairs)
    else ev
  }

  function AfterRecordPage(ev: Record, count: nat, valid: bool): Record {
    ev.(validResponse := if ev.pages == 0 then valid else ev.validResponse && valid,
        pages := ev.pages + 1,
        rawCount := ev.rawCount + count)
  }

  // ---------------------------------------------------------------- the mutable record

  class TraversalEvidence {
    const source: string
    const windowStart: Option<Time>
    const windowEnd: Option<Time>
    var pages: nat
    var rawCount: nat
    var observations: set<string>
    var expected: set<string>
    var exhausted: bool
    var validResponse: bool
    var resumed: bool
    var lowerBoundary: bool
    var lowerBoundaryProven: bool
    var orderValid: bool
    var newest: Option<Time>
    var oldest: Option<Time>
    var previousOldest: Option<Time>
    var seen: set<string>

    ghost function Value(): Record
      reads this
    {
      Record(source, windowStart, windowEnd, pages, rawCount, observations, expected, exhausted, validResponse,
             resumed, lowerBoundary, lowerBoundaryProven, orderValid, newest, oldest, previousOldest, seen)
    }

    constructor (source: string, windowStart: Option<Time>, windowEnd: Option<Time>)
      ensures Value() == Fresh(source, windowStart, windowEnd)
    {
      this.source, this.windowStart, this.windowEnd := source, windowStart, windowEnd;
      pages, rawCount, observations, expected := 0, 0, {}, {};
      exhausted, validResponse, resumed := false, false, false;
      lowerBoundary, lowerBoundaryProven, orderValid := false, false, true;
      newest, oldest, previousOldest, seen := None, None, None, {};
    }

    /** Folds one page into the evidence; the result says whether the page is structurally valid. */
    method RecordStructuralProof(page: PageInput) returns (structureValid: bool)
      modifies this
      ensures Value() == AfterPage(old(Value()), page)
      ensures structureValid == StructureValid(old(Value()), page)
    {
      if source == "" || windowStart.None? || windowEnd.None? || windowStart.value >= windowEnd.value {
        return false;
      }
      var start, end := windowStart.value, windowEnd.value;
      var byId := IndexById(page.tweets);
      var pairs, inWindow;
      structureValid, pairs, inWindow := ResolveOrdered(byId, source, page.ordered, start, end);
      expected := expected + (inWindow + InWindowPins(byId, source, page.pinned, start, end));
      RecordSpan(pairs);
      var kept := RecordOrder(pairs);
      structureValid := structureValid && kept;
    }

    method RecordSpan(pairs: seq<Entry>)
      modifies this`newest, this`oldest
      ensures Value() == AfterSpan(old(Value()), pairs)
    {
      if pairs != [] {
        var high, low := Newest(pairs), Oldest(pairs);
        if newest.None? || high > newest.value { newest := Some(high); }
        if oldest.None? || low < oldest.value { oldest := Some(low); }
      }
    }

    /** The ordering half of the fold; the result says whether the order was kept. */
    method RecordOrder(pairs: seq<Entry>) returns (kept: bool)
      requires Value().WellFormed()
      modifies this`orderValid, this`previousOldest, this`seen, this`lowerBoundaryProven
      ensures Value() == AfterOrder(old(Value()), pairs)
      ensures kept == KeepsOrder(old(Value()), pairs)
    {
      kept := true;
      var monotone := AdjacentNonIncreasing(pairs);
      if pairs != [] && !monotone {
        orderValid, kept := false, false;
      }
      var added := FreshPairs(pairs, seen);
      if monotone && added != [] && previousOldest.Some? && added[0].at > previousOldest.value {
        orderValid, kept := false, false;
      }
      if monotone && added != [] {
        previousOldest := Some(added[|added| - 1].at);
      }
      seen := seen + Ids(pairs);
      if pairs != [] && monotone && orderValid && Reaches(pairs, windowStart.value) {
        lowerBoundaryProven := true;
      }
    }

    method RecordPage(count: nat, valid: bool)
      modifies this
      ensures Value() == AfterRecordPage(old(Value()), count, valid)
    {
      validResponse := if pages == 0 then valid else validResponse && valid;
      pages := pages + 1;
      rawCount := rawCount + count;
    }

    method RecordObservation(postId: string)
      modifies this`observations
      ensures Value() == old(Value()).(observations := old(observations) + {postId})
    {
      observations := observations + {postId};
    }
  }

  /** The dated pairs of the ordered ids, whether all resolved, and the ids inside the window. */
  method ResolveOrdered(byId: map<string, Tweet>, source: string, ordered: seq<string>, start: Time, end: Time)
    returns (allResolved: bool, pairs: seq<Entry>, inWindow: set<string>)
    ensures pairs == Pairs(byId, source, ordered)
    ensures allResolved == (|pairs| == |ordered|)
    ensures inWindow == InWindowIds(pairs, start, end)
  {
    allResolved, pairs, inWindow := true, [], {};
    for i := 0 to |ordered|
      invariant pairs == Pairs(byId, source, ordered[..i])
      invariant allResolved == (|pairs| == i)
      invariant forall id :: id in inWindow <==> exists e :: e in pairs && start <= e.at < end && e.id == id
    {
      assert ordered[..i + 1][..i] == ordered[..i];
      var id := ordered[i];
      if id !in byId || byId[id].author != source || byId[id].created.None? {
        allResolved := false;
      } else {
        var entry := Entry(id, byId[id].created.value);
        assert forall e :: e in pairs + [entry] <==> e in pairs || e == entry;
        pairs := pairs + [entry];
        if start <= entry.at < end {
          inWindow := inWindow + {id};
        }
      }
    }
    assert ordered[..|ordered|] == ordered;
  }

  method IndexById(tweets: seq<Tweet>) returns (m: map<string, Tweet>)
    ensures m == ById(tweets)
  {
    m := map[];
    for i := 0 to |tweets|
      invariant m == ById(tweets[..i])
    {
      assert tweets[..i + 1][..i] == tweets[..i];
      if tweets[i].id != "" {
        m := m[tweets[i].id := tweets[i]];
      }
    }
    assert tweets[..|tweets|] == tweets;
  }
}
