/**
 What the page fold and `proof_inputs` establish about the timeline that was read.

 `AfterPages` is the fold of the structural proof alone; it carries the boundary theorem,
 which assumes nothing of the provider but that a post has one date. `Traverse` is the
 whole page path (structure, validity, counters, observations); it carries the end-to-end
 theorem about a timeline that really is non-increasing and is read from the top.
 */
module TraversalProof {
  import opened Common
  import opened Evidence

  // ---------------------------------------------------------------- proof inputs

  datatype Proof = Proof(
    pages: nat, rawCount: nat, validResponse: bool, exhausted: bool,
    resumed: bool, lowerBoundary: bool, failed: bool)

  datatype Detail = Detail(
    providerExhausted: bool, lowerBoundaryProven: bool, orderValid: bool,
    expected: set<string>, missing: set<string>, coverageComplete: bool, terminalProven: bool)

  function ProofInputs(ev: Record, failed: bool): (Proof, Detail) {
    var expected := ev.expected - {""};
    var missing := expected - (ev.observations - {""});
    var coverageComplete := missing == {};
    var orderedBoundary := ev.lowerBoundaryProven && ev.orderValid && coverageComplete;
    var terminalProven := ev.orderValid && coverageComplete && (ev.exhausted || orderedBoundary);
    (Proof(ev.pages, ev.rawCount, ev.validResponse, terminalProven, ev.resumed,
           ev.lowerBoundary && !orderedBoundary, failed),
     Detail(ev.exhausted, ev.lowerBoundaryProven, ev.orderValid, expected, missing, coverageComplete, terminalProven))
  }

  // ---------------------------------------------------------------- the boundary theorem

  function AfterPages(ev: Record, pages: seq<PageInput>): Record {
    if pages == [] then ev else AfterPage(AfterPages(ev, pages[..|pages| - 1]), pages[|pages| - 1])
  }

  /** The newly seen posts of every page, concatenated in reading order. */
  ghost function Trail(ev: Record, pages: seq<PageInput>): seq<Entry> {
    if pages == [] then []
    else
      var before := AfterPages(ev, pages[..|pages| - 1]);
      Trail(ev, pages[..|pages| - 1]) + FreshPairs(OrderedPairs(before, pages[|pages| - 1]), before.seen)
  }

  /** Dates are a function of the id. */
  ghost predicate DatedBy(page: PageInput, date: string -> Time) {
    forall t :: t in page.tweets && t.created.Some? ==> t.created.value == date(t.id)
  }

  lemma {:induction false} AdjacentIsGlobal(s: seq<Entry>)
    requires AdjacentNonIncreasing(s)
    ensures NonIncreasing(s)
  {
    if |s| > 1 {
      var init := s[..|s| - 1];
      AdjacentIsGlobal(init);
      forall i | 0 <= i < |s| - 1 ensures s[i].at >= s[|s| - 1].at {
        assert init[i].at >= init[|s| - 2].at;
        assert s[|s| - 2].at >= s[|s| - 1].at;
      }
    }
  }

  lemma {:induction false} FreshKeepsOrder(pairs: seq<Entry>, seen: set<string>)
    requires NonIncreasing(pairs)
    ensures NonIncreasing(FreshPairs(pairs, seen))
  {
    if pairs != [] {
      var init := pairs[..|pairs| - 1];
      FreshKeepsOrder(init, seen);
      forall e | e in FreshPairs(init, seen) ensures e.at >= pairs[|pairs| - 1].at {
        FreshMember(init, seen, e);
        var i :| 0 <= i < |init| && init[i] == e;
        assert pairs[i] == e;
      }
    }
  }

  /** While the order holds, the evidence is exactly what the trail says. */
  ghost predicate OrderInvariant(ev: Record, trail: seq<Entry>, date: string -> Time) {
    && ev.WellFormed()
    && NonIncreasing(trail)
    && ev.previousOldest == (if trail == [] then None else Some(trail[|trail| - 1].at))
    && ev.seen == Ids(trail)
    && (forall e :: e in trail ==> e.at == date(e.id))
    && (forall e :: e in trail && ev.InWindow(e.at) ==> e.id in ev.expected)
    && (ev.lowerBoundaryProven ==> trail != [] && trail[|trail| - 1].at < ev.windowStart.value)
  }

  lemma PairsDated(ev: Record, page: PageInput, date: string -> Time)
    requires DatedBy(page, date)
    ensures forall e :: e in OrderedPairs(ev, page) ==> e.at == date(e.id)
  {
    forall e | e in OrderedPairs(ev, page) ensures e.at == date(e.id) {
      PairsMember(ById(page.tweets), ev.source, page.ordered, e);
      ByIdParsed(page.tweets, e.id);
    }
  }

  lemma OrderInvariantStep(ev: Record, trail: seq<Entry>, page: PageInput, date: string -> Time)
    requires OrderInvariant(ev, trail, date) && DatedBy(page, date)
    requires AfterPage(ev, page).orderValid
    ensures OrderInvariant(AfterPage(ev, page), trail + FreshPairs(OrderedPairs(ev, page), ev.seen), date)
  {
    var pairs := OrderedPairs(ev, page);
    PairsDated(ev, page, date);
    AfterPageFields(ev, page);
    AdjacentIsGlobal(pairs);
    FreshKeepsOrder(pairs, ev.seen);
    TrailStep(ev, trail, pairs, AfterPage(ev, page), date);
  }

  /** The fields of the evidence after a page, one by one. */
  lemma AfterPageFields(ev: Record, page: PageInput)
    requires ev.WellFormed()
    ensures var pairs, next := OrderedPairs(ev, page), AfterPage(ev, page);
            var added := FreshPairs(pairs, ev.seen);
            && next.source == ev.source && next.windowStart == ev.windowStart && next.windowEnd == ev.windowEnd
            && next.orderValid == (ev.orderValid && KeepsOrder(ev, pairs))
            && next.previousOldest == (if AdjacentNonIncreasing(pairs) && added != [] then Some(added[|added| - 1].at) else ev.previousOldest)
            && next.seen == ev.seen + Ids(pairs)
            && next.expected == ev.expected + ExpectedFrom(ev, page)
            && next.lowerBoundaryProven == (ev.lowerBoundaryProven || (next.orderValid && Reaches(pairs, ev.windowStart.value)))
  {
    var pairs := OrderedPairs(ev, page);
    var widened := ev.(expected := ev.expected + ExpectedFrom(ev, page));
    var spanned := AfterSpan(widened, pairs);
    assert spanned == widened.(newest := spanned.newest, oldest := spanned.oldest);
    assert AfterPage(ev, page) == AfterOrder(spanned, pairs);
  }

  lemma TrailStep(ev: Record, trail: seq<Entry>, pairs: seq<Entry>, next: Record, date: string -> Time)
    requires OrderInvariant(ev, trail, date)
    requires forall e :: e in pairs ==> e.at == date(e.id)
    requires NonIncreasing(FreshPairs(pairs, ev.seen)) && KeepsOrder(ev, pairs)
    requires next.source == ev.source && next.windowStart == ev.windowStart && next.windowEnd == ev.windowEnd
    requires var added := FreshPairs(pairs, ev.seen);
             next.previousOldest == (if added != [] then Some(added[|added| - 1].at) else ev.previousOldest)
    requires next.seen == ev.seen + Ids(pairs)
    requires ev.expected + InWindowIds(pairs, ev.windowStart.value, ev.windowEnd.value) <= next.expected
    requires next.lowerBoundaryProven ==> ev.lowerBoundaryProven || Reaches(pairs, ev.windowStart.value)
    ensures OrderInvariant(next, trail + FreshPairs(pairs, ev.seen), date)
  {
    var added := FreshPairs(pairs, ev.seen);
    LongerTrailNonIncreasing(ev, trail, added);
    SeenIsTrail(ev, trail, pairs, date);
    TrailIsExpected(ev, trail, pairs, next, date);
    if next.lowerBoundaryProven {
      BoundaryBehindTrail(ev, trail, pairs, date);
    }
    assert (trail + added == []) <==> trail == [] && added == [];
    assert added != [] ==> (trail + added)[|trail + added| - 1] == added[|added| - 1];
    assert added == [] ==> trail + added == trail;
  }

  lemma TrailIsExpected(ev: Record, trail: seq<Entry>, pairs: seq<Entry>, next: Record, date: string -> Time)
    requires OrderInvariant(ev, trail, date) && next.WellFormed()
    requires forall e :: e in pairs ==> e.at == date(e.id)
    requires next.windowStart == ev.windowStart && next.windowEnd == ev.windowEnd
    requires ev.expected + InWindowIds(pairs, ev.windowStart.value, ev.windowEnd.value) <= next.expected
    ensures forall e :: e in trail + FreshPairs(pairs, ev.seen) ==> e.at == date(e.id) && (next.InWindow(e.at) ==> e.id in next.expected)
  {
    forall e | e in trail + FreshPairs(pairs, ev.seen)
      ensures e.at == date(e.id) && (next.InWindow(e.at) ==> e.id in next.expected)
    {
      if e !in trail {
        FreshMember(pairs, ev.seen, e);
      }
    }
  }

  lemma LongerTrailNonIncreasing(ev: Record, trail: seq<Entry>, added: seq<Entry>)
    requires NonIncreasing(trail) && NonIncreasing(added)
    requires ev.previousOldest == (if trail == [] then None else Some(trail[|trail| - 1].at))
    requires added != [] && ev.previousOldest.Some? ==> added[0].at <= ev.previousOldest.value
    ensures NonIncreasing(trail + added)
  {
    var s := trail + added;
    forall i, j | 0 <= i < j < |s| ensures s[i].at >= s[j].at {
      if i < |trail| <= j {
        assert trail[i].at >= trail[|trail| - 1].at >= added[0].at >= added[j - |trail|].at;
      }
    }
  }

  lemma SeenIsTrail(ev: Record, trail: seq<Entry>, pairs: seq<Entry>, date: string -> Time)
    requires ev.seen == Ids(trail)
    requires forall e :: e in trail ==> e.at == date(e.id)
    requires forall e :: e in pairs ==> e.at == date(e.id)
    ensures ev.seen + Ids(pairs) == Ids(trail + FreshPairs(pairs, ev.seen))
    ensures forall e :: e in pairs ==> e in trail + FreshPairs(pairs, ev.seen)
  {
    var longer := trail + FreshPairs(pairs, ev.seen);
    forall e | e in pairs ensures e in longer {
      if e.id in ev.seen {
        var f :| f in trail && f.id == e.id;
        assert f == e;
      } else {
        FreshMember(pairs, ev.seen, e);
      }
    }
    forall e | e in longer ensures e.id in ev.seen + Ids(pairs) {
      if e !in trail {
        FreshMember(pairs, ev.seen, e);
      }
    }
  }

  lemma BoundaryBehindTrail(ev: Record, trail: seq<Entry>, pairs: seq<Entry>, date: string -> Time)
    requires OrderInvariant(ev, trail, date)
    requires forall e :: e in pairs ==> e.at == date(e.id)
    requires NonIncreasing(trail + FreshPairs(pairs, ev.seen))
    requires ev.lowerBoundaryProven || Reaches(pairs, ev.windowStart.value)
    ensures var longer := trail + FreshPairs(pairs, ev.seen);
            longer != [] && longer[|longer| - 1].at < ev.windowStart.value
  {
    SeenIsTrail(ev, trail, pairs, date);
    var longer := trail + FreshPairs(pairs, ev.seen);
    if ev.lowerBoundaryProven {
      LastIsOldest(longer, trail[|trail| - 1]);
    } else {
      var p :| p in pairs && p.at < ev.windowStart.value;
      LastIsOldest(longer, p);
    }
  }

  lemma LastIsOldest(s: seq<Entry>, e: Entry)
    requires NonIncreasing(s) && e in s
    ensures s != [] && s[|s| - 1].at <= e.at
  {
    var i :| 0 <= i < |s| && s[i] == e;
    assert i < |s| - 1 ==> s[i].at >= s[|s| - 1].at;
  }

  lemma {:induction false} AfterPagesKeepWindow(ev: Record, pages: seq<PageInput>)
    ensures var after := AfterPages(ev, pages);
            after.source == ev.source && after.windowStart == ev.windowStart && after.windowEnd == ev.windowEnd
  {
    if pages != [] { AfterPagesKeepWindow(ev, pages[..|pages| - 1]); }
  }

  /** Newly seen posts, across every page of a traversal, never go forward in time while the order flag holds. */
  lemma {:induction false} TrailIsOrdered(source: string, start: Time, end: Time, pages: seq<PageInput>, date: string -> Time)
    requires source != "" && start < end
    requires forall k :: 0 <= k < |pages| ==> DatedBy(pages[k], date)
    requires AfterPages(Fresh(source, Some(start), Some(end)), pages).orderValid
    ensures OrderInvariant(AfterPages(Fresh(source, Some(start), Some(end)), pages),
                           Trail(Fresh(source, Some(start), Some(end)), pages), date)
  {
    if pages != [] {
      var ev0, init := Fresh(source, Some(start), Some(end)), pages[..|pages| - 1];
      AfterPagesKeepWindow(ev0, init);
      AfterPageFields(AfterPages(ev0, init), pages[|pages| - 1]);
      TrailIsOrdered(source, start, end, init, date);
      assert DatedBy(pages[|pages| - 1], date);
      OrderInvariantStep(AfterPages(ev0, init), Trail(ev0, init), pages[|pages| - 1], date);
    }
  }

  /**
   Once the lower boundary is proven, a further page that keeps the order adds nothing to the
   expected posts except through its pins: no later page can hold an unseen post of the window.
   */
  lemma BoundaryStop(source: string, start: Time, end: Time, pages: seq<PageInput>, next: PageInput, date: string -> Time)
    requires source != "" && start < end
    requires forall k :: 0 <= k < |pages| ==> DatedBy(pages[k], date)
    requires DatedBy(next, date)
    requires AfterPages(Fresh(source, Some(start), Some(end)), pages).lowerBoundaryProven
    requires AfterPage(AfterPages(Fresh(source, Some(start), Some(end)), pages), next).orderValid
    ensures var before := AfterPages(Fresh(source, Some(start), Some(end)), pages);
            forall id :: id in AfterPage(before, next).expected && id !in before.expected ==> id in next.pinned
  {
    var before := AfterPages(Fresh(source, Some(start), Some(end)), pages);
    var trail := Trail(Fresh(source, Some(start), Some(end)), pages);
    AfterPagesKeepWindow(Fresh(source, Some(start), Some(end)), pages);
    AfterPageFields(before, next);
    TrailIsOrdered(source, start, end, pages, date);
    NothingNewBehindBoundary(before, trail, next, date);
  }

  lemma NothingNewBehindBoundary(ev: Record, trail: seq<Entry>, page: PageInput, date: string -> Time)
    requires OrderInvariant(ev, trail, date) && ev.lowerBoundaryProven && DatedBy(page, date)
    requires AfterPage(ev, page).orderValid
    ensures forall id :: id in AfterPage(ev, page).expected && id !in ev.expected ==> id in page.pinned
  {
    var pairs := OrderedPairs(ev, page);
    AfterPageFields(ev, page);
    OrderInvariantStep(ev, trail, page, date);
    PairsDated(ev, page, date);
    forall e | e in pairs && ev.InWindow(e.at) ensures e.id in ev.expected {
      WindowPostIsOld(ev, trail, pairs, e, date);
    }
  }

  /** Behind a proven boundary, an ordered post of the window has been seen and was expected already. */
  lemma WindowPostIsOld(ev: Record, trail: seq<Entry>, pairs: seq<Entry>, e: Entry, date: string -> Time)
    requires OrderInvariant(ev, trail, date) && ev.lowerBoundaryProven
    requires NonIncreasing(trail + FreshPairs(pairs, ev.seen))
    requires e in pairs && e.at == date(e.id) && ev.InWindow(e.at)
    ensures e.id in ev.expected
  {
    var added := FreshPairs(pairs, ev.seen);
    var longer := trail + added;
    FreshMember(pairs, ev.seen, e);
    assert forall k :: 0 <= k < |added| ==> longer[|trail| - 1].at >= longer[|trail| + k].at == added[k].at;
    assert e.id in ev.seen;
    var f :| f in trail && f.id == e.id;
    assert f == e;
  }

  /** The recorded span is the exact range of dates of the posts seen, whatever the order. */
  ghost predicate SpanExact(ev: Record, date: string -> Time) {
    && (ev.seen == {} <==> ev.newest.None?)
    && (ev.seen == {} <==> ev.oldest.None?)
    && (forall id :: id in ev.seen ==> ev.oldest.value <= date(id) <= ev.newest.value)
    && (ev.seen != {} ==> (exists id :: id in ev.seen && date(id) == ev.oldest.value)
                          && exists id :: id in ev.seen && date(id) == ev.newest.value)
  }

  lemma SpanIsExact(ev: Record, page: PageInput, date: string -> Time)
    requires ev.WellFormed() && DatedBy(page, date) && SpanExact(ev, date)
    ensures SpanExact(AfterPage(ev, page), date)
  {
    PairsDated(ev, page, date);
    AfterPageSpan(ev, page);
    SpanStep(ev, OrderedPairs(ev, page), AfterPage(ev, page), date);
  }

  lemma AfterPageSpan(ev: Record, page: PageInput)
    requires ev.WellFormed()
    ensures var pairs, next := OrderedPairs(ev, page), AfterPage(ev, page);
            && next.seen == ev.seen + Ids(pairs)
            && next.newest == AfterSpan(ev, pairs).newest && next.oldest == AfterSpan(ev, pairs).oldest
  {
    SpanThenOrder(ev, ev.expected + ExpectedFrom(ev, page), OrderedPairs(ev, page));
  }

  lemma SpanThenOrder(ev: Record, expected: set<string>, pairs: seq<Entry>)
    requires ev.WellFormed()
    ensures var spanned := AfterSpan(ev.(expected := expected), pairs);
            && spanned.WellFormed()
            && AfterOrder(spanned, pairs).seen == ev.seen + Ids(pairs)
            && AfterOrder(spanned, pairs).newest == AfterSpan(ev, pairs).newest
            && AfterOrder(spanned, pairs).oldest == AfterSpan(ev, pairs).oldest
  {
    SpanOnly(ev.(expected := expected), pairs);
    SpanIgnoresExpected(ev, expected, pairs);
    OrderOnly(AfterSpan(ev.(expected := expected), pairs), pairs);
  }

  lemma SpanIgnoresExpected(ev: Record, expected: set<string>, pairs: seq<Entry>)
    ensures AfterSpan(ev.(expected := expected), pairs).newest == AfterSpan(ev, pairs).newest
    ensures AfterSpan(ev.(expected := expected), pairs).oldest == AfterSpan(ev, pairs).oldest
  {
  }

  lemma SpanOnly(ev: Record, pairs: seq<Entry>)
    ensures var next := AfterSpan(ev, pairs); next.seen == ev.seen && (ev.WellFormed() ==> next.WellFormed())
  {
  }

  lemma OrderOnly(ev: Record, pairs: seq<Entry>)
    requires ev.WellFormed()
    ensures var next := AfterOrder(ev, pairs); next.newest == ev.newest && next.oldest == ev.oldest && next.seen == ev.seen + Ids(pairs)
  {
  }

  lemma SpanStep(ev: Record, pairs: seq<Entry>, next: Record, date: string -> Time)
    requires SpanExact(ev, date)
    requires forall e :: e in pairs ==> e.at == date(e.id)
    requires next.seen == ev.seen + Ids(pairs)
    requires next.newest == AfterSpan(ev, pairs).newest && next.oldest == AfterSpan(ev, pairs).oldest
    ensures SpanExact(next, date)
  {
    if pairs == [] {
      assert next.seen == ev.seen;
    } else {
      var high, low := SpanOf(pairs);
      assert pairs[high].id in Ids(pairs) && pairs[low].id in Ids(pairs);
    }
  }

  // ---------------------------------------------------------------- provider pages

  /** A provider response: its instructions, parsed posts, bottom cursor ("" for none) and error mark;
      `observed` are the ids that reached the raw observation path while the page was consumed. */
  datatype ProviderPage = ProviderPage(
    instructions: seq<Instruction>, tweets: seq<Tweet>, nextCursor: string, hasErrors: bool, observed: set<string>)

  function InputOf(page: ProviderPage): PageInput {
    var pinned := PinnedIds(page.instructions);
    PageInput(page.tweets, Kept(EntryIds(page.instructions), pinned), pinned)
  }

  predicate ShapeValid(page: ProviderPage) {
    !page.hasErrors && (HasAddEntries(page.instructions) || TerminatesBottom(page.instructions))
  }

  predicate PageValid(ev: Record, page: ProviderPage) {
    ShapeValid(page) && StructureValid(ev, InputOf(page))
  }

  function AfterProviderPage(ev: Record, page: ProviderPage): Record {
    var proved := if ShapeValid(page) then AfterPage(ev, InputOf(page)) else ev;
    var counted := AfterRecordPage(proved, |page.tweets|, PageValid(ev, page));
    counted.(observations := counted.observations + page.observed)
  }

  function Traverse(ev: Record, pages: seq<ProviderPage>): Record {
    if pages == [] then ev else AfterProviderPage(Traverse(ev, pages[..|pages| - 1]), pages[|pages| - 1])
  }

  /** The flags the collector sets when a traversal returns. */
  function Close(ev: Record, lastValid: bool, nextCursor: string, resumed: bool, crossed: bool): Record {
    ev.(resumed := resumed, lowerBoundary := crossed, exhausted := lastValid && nextCursor == "")
  }

  /** A provider that yields nothing counts as a page without posts that is not valid. */
  const NO_RESPONSE := ProviderPage([], [], "", true, {})

  /** Consumes one provider response, if any, in the collector's order: structure, page counters, observations. */
  method ConsumePage(evidence: TraversalEvidence, response: Option<ProviderPage>, observed: seq<string>)
    returns (valid: bool, exhausted: bool)
    requires Elements(observed) == response.GetOr(NO_RESPONSE).observed
    modifies evidence
    ensures evidence.Value() == AfterProviderPage(old(evidence.Value()), response.GetOr(NO_RESPONSE))
    ensures valid == PageValid(old(evidence.Value()), response.GetOr(NO_RESPONSE))
    ensures exhausted <==> response.None? || (valid && (TerminatesBottom(response.value.instructions) || response.value.nextCursor == ""))
  {
    if response.None? {
      evidence.RecordPage(0, false);
      RecordObservations(evidence, observed);
      return false, true;
    }
    var page := response.value;
    var ordered, pinned, terminatedBottom := TimelineStructure(page.instructions);
    var hasAdd := HasAddEntries(page.instructions);
    valid := !page.hasErrors && (hasAdd || terminatedBottom);
    if valid {
      valid := evidence.RecordStructuralProof(PageInput(page.tweets, ordered, pinned));
    }
    exhausted := valid && (terminatedBottom || page.nextCursor == "");
    evidence.RecordPage(|page.tweets|, valid);
    RecordObservations(evidence, observed);
  }

  method RecordObservations(evidence: TraversalEvidence, observed: seq<string>)
    modifies evidence`observations
    ensures evidence.Value() == old(evidence.Value()).(observations := old(evidence.observations) + Elements(observed))
  {
    for i := 0 to |observed|
      invariant evidence.observations == old(evidence.observations) + Elements(observed[..i])
    {
      assert observed[..i + 1] == observed[..i] + [observed[i]];
      evidence.RecordObservation(observed[i]);
    }
    assert observed[..|observed|] == observed;
  }

  // ---------------------------------------------------------------- the real timeline

  /** A run of consecutive timeline posts, newest first. */
  datatype Slice = Slice(lo: nat, hi: nat)

  ghost function Frontier(slices: seq<Slice>): nat {
    if slices == [] then 0
    else Max(Frontier(slices[..|slices| - 1]), slices[|slices| - 1].hi)
  }

  /** Slices of the timeline that leave no gap below the top; they may overlap. */
  ghost predicate ReadFromTop(timeline: seq<Entry>, slices: seq<Slice>) {
    forall k :: 0 <= k < |slices| ==>
      && slices[k].lo <= slices[k].hi <= |timeline|
      && slices[k].lo <= Frontier(slices[..k])
  }

  /** The posts a page lists, pinned or not; its cursors, modules and promotions are no posts. */
  function Posts(page: ProviderPage): seq<string> {
    Kept(EntryIds(page.instructions), {})
  }

  /** The posts the page lists are that slice, and its parsed posts carry the timeline's dates. */
  ghost predicate Honest(timeline: seq<Entry>, page: ProviderPage, slice: Slice)
    requires slice.lo <= slice.hi <= |timeline|
  {
    && |Posts(page)| == slice.hi - slice.lo
    && (forall i :: slice.lo <= i < slice.hi ==> Posts(page)[i - slice.lo] == timeline[i].id)
    && (forall t, i :: t in page.tweets && 0 <= i < |timeline| && t.id == timeline[i].id && t.created.Some?
          ==> t.created.value == timeline[i].at)
  }

  ghost predicate HonestTraversal(timeline: seq<Entry>, pages: seq<ProviderPage>, slices: seq<Slice>) {
    && |pages| == |slices|
    && ReadFromTop(timeline, slices)
    && NonIncreasing(timeline)
    && (forall i :: 0 <= i < |timeline| ==> timeline[i].id != "")
    && (forall k :: 0 <= k < |pages| ==> Honest(timeline, pages[k], slices[k]))
  }

  /** A page accounts for an id when it orders it, or pins it and its post was parsed, by the source, with a date. */
  predicate Accounts(source: string, page: ProviderPage, id: string) {
    || id in InputOf(page).ordered
    || (id in PinnedIds(page.instructions) && Resolve(ById(page.tweets), source, id).Some?)
  }

  ghost predicate Accounted(source: string, pages: seq<ProviderPage>, id: string) {
    exists k :: 0 <= k < |pages| && Accounts(source, pages[k], id)
  }

  lemma HonestDrop(timeline: seq<Entry>, pages: seq<ProviderPage>, slices: seq<Slice>)
    requires HonestTraversal(timeline, pages, slices) && pages != []
    ensures HonestTraversal(timeline, pages[..|pages| - 1], slices[..|slices| - 1])
  {
    ReadDrop(timeline, slices);
  }

  lemma ReadDrop(timeline: seq<Entry>, slices: seq<Slice>)
    requires ReadFromTop(timeline, slices) && slices != []
    ensures ReadFromTop(timeline, slices[..|slices| - 1])
  {
    var fewer := slices[..|slices| - 1];
    forall k | 0 <= k < |fewer| ensures fewer[k].lo <= Frontier(fewer[..k]) {
      assert fewer[..k] == slices[..k];
    }
  }

  lemma {:induction false} TraverseKeepsWindow(ev: Record, pages: seq<ProviderPage>)
    ensures var after := Traverse(ev, pages);
            && after.source == ev.source && after.windowStart == ev.windowStart && after.windowEnd == ev.windowEnd
            && after.pages == ev.pages + |pages|
  {
    if pages != [] { TraverseKeepsWindow(ev, pages[..|pages| - 1]); }
  }

  lemma ValidSoFar(ev: Record, pages: seq<ProviderPage>)
    requires ev.pages == 0 && pages != [] && Traverse(ev, pages).validResponse
    ensures PageValid(Traverse(ev, pages[..|pages| - 1]), pages[|pages| - 1])
    ensures |pages| > 1 ==> Traverse(ev, pages[..|pages| - 1]).validResponse
  {
    TraverseKeepsWindow(ev, pages[..|pages| - 1]);
  }

  /** One valid honest page: exactly which timeline posts of the window it adds. */
  lemma PageExpects(timeline: seq<Entry>, ev: Record, page: ProviderPage, i: nat)
    requires i < |timeline| && ev.WellFormed() && ev.InWindow(timeline[i].at)
    requires PageValid(ev, page)
    requires forall t :: t in page.tweets && t.id == timeline[i].id && t.created.Some? ==> t.created.value == timeline[i].at
    ensures timeline[i].id in AfterProviderPage(ev, page).expected
            <==> timeline[i].id in ev.expected || Accounts(ev.source, page, timeline[i].id)
  {
    AfterPageFields(ev, InputOf(page));
    AddsAccounted(timeline[i], ev, page);
  }

  lemma AddsAccounted(post: Entry, ev: Record, page: ProviderPage)
    requires ev.WellFormed() && ev.InWindow(post.at) && PageValid(ev, page)
    requires forall t :: t in page.tweets && t.id == post.id && t.created.Some? ==> t.created.value == post.at
    ensures post.id in ExpectedFrom(ev, InputOf(page)) <==> Accounts(ev.source, page, post.id)
  {
    var id, byId := post.id, ById(page.tweets);
    if id in byId { ByIdParsed(page.tweets, id); }
    assert Resolve(byId, ev.source, id).Some? ==> Resolve(byId, ev.source, id).value == post.at;
    if id in InputOf(page).ordered {
      OrderedIsExpected(post, ev, page);
    } else {
      forall e | e in OrderedPairs(ev, InputOf(page)) ensures e.id != id {
        PairsMember(byId, ev.source, InputOf(page).ordered, e);
      }
    }
  }

  lemma OrderedIsExpected(post: Entry, ev: Record, page: ProviderPage)
    requires ev.WellFormed() && ev.InWindow(post.at) && PageValid(ev, page) && post.id in InputOf(page).ordered
    requires var found := Resolve(ById(page.tweets), ev.source, post.id); found.Some? ==> found.value == post.at
    ensures post.id in InWindowIds(OrderedPairs(ev, InputOf(page)), ev.windowStart.value, ev.windowEnd.value)
  {
    AllResolved(ById(page.tweets), ev.source, InputOf(page).ordered, post.id);
    PairsMember(ById(page.tweets), ev.source, InputOf(page).ordered, post);
    assert post in OrderedPairs(ev, InputOf(page));
  }

  /** Over a whole valid traversal, a window post is expected exactly when some page accounts for it. */
  lemma {:induction false} ExpectedIffAccounted(
    timeline: seq<Entry>, source: string, start: Time, end: Time,
    pages: seq<ProviderPage>, slices: seq<Slice>, i: nat)
    requires source != "" && start < end
    requires HonestTraversal(timeline, pages, slices)
    requires pages != [] ==> Traverse(Fresh(source, Some(start), Some(end)), pages).validResponse
    requires i < |timeline| && start <= timeline[i].at < end
    ensures timeline[i].id in Traverse(Fresh(source, Some(start), Some(end)), pages).expected
            <==> Accounted(source, pages, timeline[i].id)
  {
    if pages != [] {
      var ev0, init, last := Fresh(source, Some(start), Some(end)), pages[..|pages| - 1], pages[|pages| - 1];
      HonestDrop(timeline, pages, slices);
      ValidSoFar(ev0, pages);
      ExpectedIffAccounted(timeline, source, start, end, init, slices[..|slices| - 1], i);
      TraverseKeepsWindow(ev0, init);
      assert Honest(timeline, last, slices[|slices| - 1]);
      PageExpects(timeline, Traverse(ev0, init), last, i);
      AccountedSnoc(source, pages, timeline[i].id);
    }
  }

  lemma AccountedSnoc(source: string, pages: seq<ProviderPage>, id: string)
    requires pages != []
    ensures Accounted(source, pages, id)
            <==> Accounted(source, pages[..|pages| - 1], id) || Accounts(source, pages[|pages| - 1], id)
  {
    var init := pages[..|pages| - 1];
    if Accounted(source, init, id) {
      var k :| 0 <= k < |init| && Accounts(source, init[k], id);
      assert Accounts(source, pages[k], id);
    }
    if Accounted(source, pages, id) {
      var k :| 0 <= k < |pages| && Accounts(source, pages[k], id);
      if k < |init| { assert Accounts(source, init[k], id); }
    }
  }

  /** The boundary flag of a valid traversal is witnessed by a post that was read and is older than the window. */
  lemma {:induction false} BoundaryWasRead(
    timeline: seq<Entry>, source: string, start: Time, end: Time, pages: seq<ProviderPage>, slices: seq<Slice>)
    requires source != "" && start < end
    requires HonestTraversal(timeline, pages, slices)
    requires pages != [] ==> Traverse(Fresh(source, Some(start), Some(end)), pages).validResponse
    requires Traverse(Fresh(source, Some(start), Some(end)), pages).lowerBoundaryProven
    ensures Frontier(slices) <= |timeline|
    ensures exists i :: 0 <= i < Frontier(slices) && timeline[i].at < start
  {
    var ev0 := Fresh(source, Some(start), Some(end));
    FrontierInTimeline(timeline, slices);
    if pages != [] {
      var init, last, slice := pages[..|pages| - 1], pages[|pages| - 1], slices[|slices| - 1];
      HonestDrop(timeline, pages, slices);
      ValidSoFar(ev0, pages);
      var before := Traverse(ev0, init);
      TraverseKeepsWindow(ev0, init);
      if before.lowerBoundaryProven {
        BoundaryWasRead(timeline, source, start, end, init, slices[..|slices| - 1]);
      } else {
        BoundaryOnPage(timeline, before, last, slice);
      }
    }
  }

  /** A page that first reaches below the window lists a post of the timeline that is older than it. */
  lemma BoundaryOnPage(timeline: seq<Entry>, before: Record, page: ProviderPage, slice: Slice)
    requires before.WellFormed() && before.windowStart.Some? && slice.lo <= slice.hi <= |timeline| && Honest(timeline, page, slice)
    requires !before.lowerBoundaryProven && AfterProviderPage(before, page).lowerBoundaryProven
    ensures exists i :: slice.lo <= i < slice.hi && timeline[i].at < before.windowStart.value
  {
    AfterPageFields(before, InputOf(page));
    var e :| e in OrderedPairs(before, InputOf(page)) && e.at < before.windowStart.value;
    PairsMember(ById(page.tweets), before.source, InputOf(page).ordered, e);
    ByIdParsed(page.tweets, e.id);
    KeptMembers(EntryIds(page.instructions), PinnedIds(page.instructions), e.id);
    KeptMembers(EntryIds(page.instructions), {}, e.id);
    var k :| 0 <= k < |Posts(page)| && Posts(page)[k] == e.id;
    assert Posts(page)[slice.lo + k - slice.lo] == timeline[slice.lo + k].id;
    assert timeline[slice.lo + k].at == e.at;
  }

  lemma {:induction false} FrontierInTimeline(timeline: seq<Entry>, slices: seq<Slice>)
    requires ReadFromTop(timeline, slices)
    ensures Frontier(slices) <= |timeline|
  {
    if slices != [] {
      ReadDrop(timeline, slices);
      FrontierInTimeline(timeline, slices[..|slices| - 1]);
    }
  }

  /** Everything above the frontier lies in a slice that was read. */
  lemma {:induction false} ReadSliceOf(timeline: seq<Entry>, slices: seq<Slice>, i: nat) returns (k: nat)
    requires ReadFromTop(timeline, slices) && i < Frontier(slices)
    ensures k < |slices| && slices[k].lo <= i < slices[k].hi
  {
    var fewer := slices[..|slices| - 1];
    if i < Frontier(fewer) {
      ReadDrop(timeline, slices);
      k := ReadSliceOf(timeline, fewer, i);
    } else {
      k := |slices| - 1;
      assert slices[..k] == fewer;
    }
  }

  /** A read post whose pins were all parsed is accounted for: the condition a caller can check page by page. */
  lemma ParsedPinsAccount(timeline: seq<Entry>, source: string, pages: seq<ProviderPage>, slices: seq<Slice>, i: nat)
    requires HonestTraversal(timeline, pages, slices) && i < Frontier(slices) <= |timeline|
    requires forall k, id :: 0 <= k < |pages| && id in PinnedIds(pages[k].instructions)
                             ==> Resolve(ById(pages[k].tweets), source, id).Some?
    ensures Accounted(source, pages, timeline[i].id)
  {
    var k := ReadSliceOf(timeline, slices, i);
    ListedHere(timeline, pages[k], slices[k], i);
    ParsedPinsAccountHere(source, pages[k], timeline[i].id);
  }

  lemma ListedHere(timeline: seq<Entry>, page: ProviderPage, slice: Slice, i: nat)
    requires slice.lo <= i < slice.hi <= |timeline| && Honest(timeline, page, slice)
    ensures timeline[i].id in Posts(page)
  {
    assert Posts(page)[i - slice.lo] == timeline[i].id;
  }

  lemma ParsedPinsAccountHere(source: string, page: ProviderPage, id: string)
    requires id in Posts(page)
    requires id in PinnedIds(page.instructions) ==> Resolve(ById(page.tweets), source, id).Some?
    ensures Accounts(source, page, id)
  {
    KeptMembers(EntryIds(page.instructions), {}, id);
    KeptMembers(EntryIds(page.instructions), PinnedIds(page.instructions), id);
  }

  /**
   End-to-end soundness. The timeline is non-increasing and read from the top, all pages valid,
   exhaustion means everything was read: a terminal proof puts every post of the window among the
   observations, provided the window's read posts are accounted for.
   */
  lemma TerminalProofIsSound(
    timeline: seq<Entry>, source: string, start: Time, end: Time,
    pages: seq<ProviderPage>, slices: seq<Slice>,
    lastValid: bool, nextCursor: string, resumed: bool, crossed: bool, failed: bool, i: nat)
    requires source != "" && start < end && pages != []
    requires HonestTraversal(timeline, pages, slices)
    requires var read := Traverse(Fresh(source, Some(start), Some(end)), pages);
             read.validResponse && ProofInputs(Close(read, lastValid, nextCursor, resumed, crossed), failed).1.terminalProven
    requires lastValid && nextCursor == "" ==> Frontier(slices) == |timeline|
    requires forall j :: 0 <= j < Min(Frontier(slices), |timeline|) && start <= timeline[j].at < end
                         ==> Accounted(source, pages, timeline[j].id)
    requires i < |timeline| && start <= timeline[i].at < end
    ensures timeline[i].id in Traverse(Fresh(source, Some(start), Some(end)), pages).observations
  {
    var read := Traverse(Fresh(source, Some(start), Some(end)), pages);
    FrontierInTimeline(timeline, slices);
    if !(lastValid && nextCursor == "") {
      assert read.lowerBoundaryProven;
      BoundaryWasRead(timeline, source, start, end, pages, slices);
      var b :| 0 <= b < Frontier(slices) && timeline[b].at < start;
      assert forall j :: b < j < |timeline| ==> timeline[b].at >= timeline[j].at;
    }
    assert i < Frontier(slices);
    ExpectedIffAccounted(timeline, source, start, end, pages, slices, i);
    assert timeline[i].id in read.expected - {""};
  }

  /**
   The accounting condition is needed, and is exact: over a valid traversal that read the whole
   timeline, the expected posts cover the window if and only if every window post is accounted for.
   */
  lemma WindowExpectedIffAccounted(
    timeline: seq<Entry>, source: string, start: Time, end: Time, pages: seq<ProviderPage>, slices: seq<Slice>)
    requires source != "" && start < end && pages != []
    requires HonestTraversal(timeline, pages, slices)
    requires Traverse(Fresh(source, Some(start), Some(end)), pages).validResponse
    ensures (forall i :: 0 <= i < |timeline| && start <= timeline[i].at < end
               ==> timeline[i].id in Traverse(Fresh(source, Some(start), Some(end)), pages).expected)
            <==> (forall i :: 0 <= i < |timeline| && start <= timeline[i].at < end
                    ==> Accounted(source, pages, timeline[i].id))
  {
    forall i: nat | i < |timeline| && start <= timeline[i].at < end
      ensures timeline[i].id in Traverse(Fresh(source, Some(start), Some(end)), pages).expected
              <==> Accounted(source, pages, timeline[i].id)
    {
      ExpectedIffAccounted(timeline, source, start, end, pages, slices, i);
    }
  }

  // ---------------------------------------------------------------- exactly when posts are missed

  /** The same pages, had these posts reached the observation path. */
  function Reobserved(pages: seq<ProviderPage>, observed: set<string>): seq<ProviderPage> {
    if pages == [] then []
    else Reobserved(pages[..|pages| - 1], observed) + [pages[|pages| - 1].(observed := observed)]
  }

  lemma SpanIgnoresObservations(ev: Record, pairs: seq<Entry>, observed: set<string>)
    ensures AfterSpan(ev.(observations := observed), pairs) == AfterSpan(ev, pairs).(observations := observed)
  {
    if pairs != [] {
      var newest, oldest := AfterSpan(ev, pairs).newest, AfterSpan(ev, pairs).oldest;
      assert AfterSpan(ev, pairs) == ev.(newest := newest, oldest := oldest);
      assert AfterSpan(ev.(observations := observed), pairs) == ev.(observations := observed, newest := newest, oldest := oldest);
    }
  }

  lemma OrderIgnoresObservations(ev: Record, pairs: seq<Entry>, observed: set<string>)
    requires ev.WellFormed()
    ensures AfterOrder(ev.(observations := observed), pairs) == AfterOrder(ev, pairs).(observations := observed)
  {
  }

  lemma PageIgnoresObservations(ev: Record, page: PageInput, observed: set<string>)
    ensures AfterPage(ev.(observations := observed), page) == AfterPage(ev, page).(observations := observed)
  {
    if ev.WellFormed() {
      var pairs, widened := OrderedPairs(ev, page), ev.(expected := ev.expected + ExpectedFrom(ev, page));
      SpanIgnoresObservations(widened, pairs, observed);
      SpanOnly(widened, pairs);
      OrderIgnoresObservations(AfterSpan(widened, pairs), pairs, observed);
    }
  }

  lemma CountIgnoresObservations(ev: Record, count: nat, valid: bool, observed: set<string>)
    ensures AfterRecordPage(ev.(observations := observed), count, valid) == AfterRecordPage(ev, count, valid).(observations := observed)
  {
  }

  lemma ProviderPageIgnoresObservations(ev: Record, page: ProviderPage, before: set<string>, observed: set<string>)
    ensures AfterProviderPage(ev.(observations := before), page.(observed := observed))
            == AfterProviderPage(ev, page).(observations := before + observed)
  {
    PageIgnoresObservations(ev, InputOf(page), before);
    var proved := if ShapeValid(page) then AfterPage(ev, InputOf(page)) else ev;
    CountIgnoresObservations(proved, |page.tweets|, PageValid(ev, page), before);
    assert PageValid(ev.(observations := before), page.(observed := observed)) == PageValid(ev, page);
  }

  /** What reaches the observation path changes nothing else in the evidence. */
  lemma {:induction false} ReobservedReads(ev: Record, pages: seq<ProviderPage>, observed: set<string>)
    requires ev.observations == {}
    ensures Traverse(ev, Reobserved(pages, observed)) == Traverse(ev, pages).(observations := if pages == [] then {} else observed)
  {
    if pages != [] {
      var init, last := pages[..|pages| - 1], pages[|pages| - 1];
      ReobservedReads(ev, init, observed);
      var before := if init == [] then {} else observed;
      assert before + observed == observed;
      var again := TraverseSnoc(ev, Reobserved(init, observed), last.(observed := observed));
      var read := TraverseSnoc(ev, init, last);
      assert init + [last] == pages;
      ProviderPageIgnoresObservations(Traverse(ev, init), last, before, observed);
    }
  }

  lemma TraverseSnoc(ev: Record, pages: seq<ProviderPage>, page: ProviderPage) returns (read: Record)
    ensures read == Traverse(ev, pages + [page]) == AfterProviderPage(Traverse(ev, pages), page)
  {
    read := Traverse(ev, pages + [page]);
    assert (pages + [page])[..|pages|] == pages;
  }

  lemma {:induction false} ValidKeepsOrder(ev: Record, pages: seq<ProviderPage>)
    requires ev.pages == 0 && ev.orderValid && pages != [] && Traverse(ev, pages).validResponse
    ensures Traverse(ev, pages).orderValid
  {
    var init, last := pages[..|pages| - 1], pages[|pages| - 1];
    ValidSoFar(ev, pages);
    if init != [] {
      ValidKeepsOrder(ev, init);
    }
    AfterPageFields(Traverse(ev, init), InputOf(last));
  }

  ghost predicate WindowIn(timeline: seq<Entry>, start: Time, end: Time, ids: set<string>) {
    forall i :: 0 <= i < |timeline| && start <= timeline[i].at < end ==> timeline[i].id in ids
  }

  /** A read whose proof is terminal observed the window. */
  ghost predicate ProofCovers(timeline: seq<Entry>, start: Time, end: Time, ev: Record, failed: bool) {
    ProofInputs(ev, failed).1.terminalProven ==> WindowIn(timeline, start, end, ev.observations)
  }

  lemma ExpectedCovers(timeline: seq<Entry>, start: Time, end: Time, ev: Record, failed: bool)
    requires WindowIn(timeline, start, end, ev.expected) && forall i :: 0 <= i < |timeline| ==> timeline[i].id != ""
    ensures ProofCovers(timeline, start, end, ev, failed)
  {
    if ProofInputs(ev, failed).1.terminalProven {
      assert ev.expected - {""} - (ev.observations - {""}) == {};
      forall i | 0 <= i < |timeline| && start <= timeline[i].at < end ensures timeline[i].id in ev.observations {
        assert timeline[i].id in ev.expected - {""};
      }
    }
  }

  /**
   Exactly when a terminal proof can miss a post. For a valid traversal that exhausted the timeline or proved its
   boundary: whatever reaches the observation path, a terminal proof means the whole window was observed, if and
   only if every post of the window is accounted for.
   */
  lemma ObservedIffAccounted(
    timeline: seq<Entry>, source: string, start: Time, end: Time, pages: seq<ProviderPage>, slices: seq<Slice>,
    lastValid: bool, nextCursor: string, resumed: bool, crossed: bool, failed: bool)
    requires source != "" && start < end && pages != []
    requires HonestTraversal(timeline, pages, slices)
    requires Traverse(Fresh(source, Some(start), Some(end)), pages).validResponse
    requires if lastValid && nextCursor == "" then Frontier(slices) == |timeline|
             else Traverse(Fresh(source, Some(start), Some(end)), pages).lowerBoundaryProven
    ensures (forall observed: set<string> ::
               var read := Traverse(Fresh(source, Some(start), Some(end)), Reobserved(pages, observed));
               ProofCovers(timeline, start, end, Close(read, lastValid, nextCursor, resumed, crossed), failed))
            <==> (forall i :: 0 <= i < |timeline| && start <= timeline[i].at < end ==> Accounted(source, pages, timeline[i].id))
  {
    var ev0 := Fresh(source, Some(start), Some(end));
    var read := Traverse(ev0, pages);
    WindowExpectedIffAccounted(timeline, source, start, end, pages, slices);
    ValidKeepsOrder(ev0, pages);
    if WindowIn(timeline, start, end, read.expected) {
      forall observed: set<string>
        ensures ProofCovers(timeline, start, end, Close(Traverse(ev0, Reobserved(pages, observed)), lastValid, nextCursor, resumed, crossed), failed)
      {
        ReobservedReads(ev0, pages, observed);
        ExpectedCovers(timeline, start, end, Close(read.(observations := observed), lastValid, nextCursor, resumed, crossed), failed);
      }
    } else {
      ReobservedReads(ev0, pages, read.expected);
      ExpectedAloneMisses(timeline, start, end, read, lastValid, nextCursor, resumed, crossed, failed);
    }
  }

  /** Observing just what is expected makes the proof terminal, and covers no more. */
  lemma ExpectedAloneMisses(timeline: seq<Entry>, start: Time, end: Time, read: Record,
                            lastValid: bool, nextCursor: string, resumed: bool, crossed: bool, failed: bool)
    requires !WindowIn(timeline, start, end, read.expected) && read.orderValid
    requires (lastValid && nextCursor == "") || read.lowerBoundaryProven
    ensures !ProofCovers(timeline, start, end, Close(read.(observations := read.expected), lastValid, nextCursor, resumed, crossed), failed)
  {
    assert read.expected - {""} - (read.expected - {""}) == {};
  }
}
