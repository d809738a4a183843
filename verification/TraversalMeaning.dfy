/** What a valid read was served, and where everything it expects comes from, in terms of the provider's pages. */
module TraversalMeaning {
  import opened Common
  import opened Evidence
  import opened TraversalProof

  /** The page lists the post as an entry of its timeline. */
  predicate Lists(page: ProviderPage, id: string) {
    exists i :: 0 <= i < |page.instructions| && page.instructions[i].AddEntries? && id in page.instructions[i].postIds
  }

  predicate Pins(page: ProviderPage, id: string) {
    exists i :: 0 <= i < |page.instructions| && page.instructions[i] == PinEntry(id)
  }

  /** The page brought the post, by the source and with a date. */
  predicate Brings(page: ProviderPage, source: string, id: string, at: Time) {
    exists k :: 0 <= k < |page.tweets| && page.tweets[k] == Tweet(id, source, Some(at))
  }

  lemma {:induction false} ListedIds(instructions: seq<Instruction>, id: string)
    ensures id in EntryIds(instructions)
            <==> exists i :: 0 <= i < |instructions| && instructions[i].AddEntries? && id in instructions[i].postIds
  {
    if instructions != [] {
      var n := |instructions| - 1;
      ListedIds(instructions[..n], id);
      assert forall i :: 0 <= i < n ==> instructions[..n][i] == instructions[i];
    }
  }

  lemma ResolvedIsBrought(page: ProviderPage, source: string, id: string)
    requires Resolve(ById(page.tweets), source, id).Some?
    ensures Brings(page, source, id, Resolve(ById(page.tweets), source, id).value)
  {
    ByIdParsed(page.tweets, id);
    var t := ById(page.tweets)[id];
    var k :| 0 <= k < |page.tweets| && page.tweets[k] == t;
    assert page.tweets[k] == Tweet(id, source, Some(Resolve(ById(page.tweets), source, id).value));
  }

  /** A page served without errors, with entries or the end of the timeline, whose every listed post was brought. */
  ghost predicate WellServed(page: ProviderPage, source: string) {
    && !page.hasErrors
    && (exists i :: 0 <= i < |page.instructions| && (page.instructions[i].AddEntries? || page.instructions[i] == Terminate(true)))
    && (forall id :: Lists(page, id) && id != "" && !Pins(page, id) ==> exists at :: Brings(page, source, id, at))
  }

  lemma ValidPageIsWellServed(ev: Record, page: ProviderPage)
    requires PageValid(ev, page)
    ensures WellServed(page, ev.source)
  {
    forall id | Lists(page, id) && id != "" && !Pins(page, id) ensures exists at :: Brings(page, ev.source, id, at) {
      ListedIds(page.instructions, id);
      KeptMembers(EntryIds(page.instructions), PinnedIds(page.instructions), id);
      AllResolved(ById(page.tweets), ev.source, InputOf(page).ordered, id);
      ResolvedIsBrought(page, ev.source, id);
    }
  }

  /** In a valid read every page was well served. */
  lemma {:induction false} ValidReadWasWellServed(ev: Record, pages: seq<ProviderPage>, page: ProviderPage)
    requires ev.pages == 0 && page in pages && Traverse(ev, pages).validResponse
    ensures WellServed(page, ev.source)
  {
    var n := |pages| - 1;
    ValidSoFar(ev, pages);
    if page == pages[n] {
      LastWasWellServed(ev, pages[..n], page);
    } else {
      InInit(pages, page);
      ValidReadWasWellServed(ev, pages[..n], page);
    }
  }

  lemma InInit<T>(s: seq<T>, x: T)
    requires x in s && x != s[|s| - 1]
    ensures x in s[..|s| - 1] && |s| > 1
  {
  }

  lemma LastWasWellServed(ev: Record, before: seq<ProviderPage>, page: ProviderPage)
    requires PageValid(Traverse(ev, before), page)
    ensures WellServed(page, ev.source)
  {
    TraverseKeepsWindow(ev, before);
    ValidPageIsWellServed(Traverse(ev, before), page);
  }

  /** Some page brought the post, by the source and dated in the window, and listed or pinned it. */
  predicate Due(ev: Record, page: ProviderPage, id: string) {
    ev.WellFormed() && (Lists(page, id) || Pins(page, id))
    && exists k :: 0 <= k < |page.tweets| && page.tweets[k].id == id && page.tweets[k].author == ev.source
                   && page.tweets[k].created.Some? && ev.windowStart.value <= page.tweets[k].created.value < ev.windowEnd.value
  }

  lemma PageExpectsOnlyDue(ev: Record, page: ProviderPage, id: string)
    requires id in AfterProviderPage(ev, page).expected && id !in ev.expected
    ensures Due(ev, page, id)
  {
    AfterPageFields(ev, InputOf(page));
    var byId := ById(page.tweets);
    if e :| e in OrderedPairs(ev, InputOf(page)) && e.id == id && ev.windowStart.value <= e.at < ev.windowEnd.value {
      PairsMember(byId, ev.source, InputOf(page).ordered, e);
      KeptMembers(EntryIds(page.instructions), PinnedIds(page.instructions), id);
      ListedIds(page.instructions, id);
      ResolvedIsBrought(page, ev.source, id);
    } else {
      assert id in InWindowPins(byId, ev.source, InputOf(page).pinned, ev.windowStart.value, ev.windowEnd.value);
      ResolvedIsBrought(page, ev.source, id);
    }
  }

  /** Nothing is expected that is not the source's own post of the window, brought by some page. */
  lemma {:induction false} ExpectedIsDue(ev: Record, pages: seq<ProviderPage>, id: string) returns (k: nat)
    requires ev.expected == {} && id in Traverse(ev, pages).expected
    ensures k < |pages| && Due(ev, pages[k], id)
  {
    var n := |pages| - 1;
    var before := Traverse(ev, pages[..n]);
    TraverseKeepsWindow(ev, pages[..n]);
    if id in before.expected {
      k := ExpectedIsDue(ev, pages[..n], id);
    } else {
      PageExpectsOnlyDue(before, pages[n], id);
      k := n;
    }
  }
}
