/** The media plan of a package: exact duplicates suppressed, and what is left delivered in the fewest albums. */
module MediaPlan {
  import opened Common

  const ALBUM := 10

  /** A media item of an update: the identity the delivery ledger derives for it, and its kind. */
  datatype Media = Media(identity: string, kind: string)

  datatype Item = Item(id: string, kind: string, order: nat, album: bool, duplicateOf: string, suppressed: bool)

  // ---------------------------------------------------------------- duplicate suppression

  function Flat(updates: seq<seq<Media>>): seq<Media> {
    if updates == [] then [] else Flat(updates[..|updates| - 1]) + updates[|updates| - 1]
  }

  /** Already known to duplicate something else. */
  predicate Mapped(duplicates: map<string, string>, id: string) {
    id in duplicates && duplicates[id] != ""
  }

  ghost predicate SeenBefore(media: seq<Media>, k: nat)
    requires k < |media|
  {
    exists j :: 0 <= j < k && media[j].identity == media[k].identity
  }

  /** What the plan says of the k-th item. */
  ghost predicate Plans(item: Item, media: seq<Media>, k: nat, duplicates: map<string, string>)
    requires k < |media|
  {
    && item.id == media[k].identity && item.kind == media[k].kind && item.order == k
    && (item.album <==> item.kind in {"photo", "video"})
    && (item.suppressed <==> item.duplicateOf != "")
    && item.duplicateOf == if Mapped(duplicates, item.id) then duplicates[item.id] else if SeenBefore(media, k) then item.id else ""
  }

  ghost predicate PlansAll(items: seq<Item>, media: seq<Media>, duplicates: map<string, string>) {
    |items| == |media| && forall k :: 0 <= k < |items| ==> Plans(items[k], media, k, duplicates)
  }

  /** Items of every update in turn; an identity met before, or mapped as a duplicate, is marked. */
  method PlanMedia(updates: seq<seq<Media>>, duplicates: map<string, string>) returns (items: seq<Item>)
    requires forall m :: m in Flat(updates) ==> m.identity != ""
    ensures PlansAll(items, Flat(updates), duplicates)
  {
    items := [];
    var first: map<string, string> := map[];
    for u := 0 to |updates|
      invariant PlansAll(items, Flat(updates[..u]), duplicates)
      invariant Firsts(first, Flat(updates[..u]))
    {
      assert updates[..u + 1][..u] == updates[..u];
      FlatWithin(updates, u);
      items, first := AddMedia(items, first, Flat(updates[..u]), updates[u], duplicates);
    }
    assert updates[..|updates|] == updates;
  }

  lemma {:induction false} FlatWithin(updates: seq<seq<Media>>, u: nat)
    requires u < |updates|
    ensures forall m :: m in updates[u] ==> m in Flat(updates)
    decreases |updates|
  {
    if u < |updates| - 1 {
      FlatWithin(updates[..|updates| - 1], u);
    }
  }

  ghost predicate Firsts(first: map<string, string>, media: seq<Media>) {
    && (forall id :: id in first ==> first[id] == id && exists j :: 0 <= j < |media| && media[j].identity == id)
    && forall j :: 0 <= j < |media| ==> media[j].identity in first
  }

  method AddMedia(known: seq<Item>, seen: map<string, string>, ghost before: seq<Media>, more: seq<Media>, duplicates: map<string, string>)
    returns (items: seq<Item>, first: map<string, string>)
    requires PlansAll(known, before, duplicates) && Firsts(seen, before)
    requires forall m :: m in more ==> m.identity != ""
    ensures PlansAll(items, before + more, duplicates) && Firsts(first, before + more)
  {
    items, first := known, seen;
    assert before + more[..0] == before;
    for i := 0 to |more|
      invariant PlansAll(items, before + more[..i], duplicates) && Firsts(first, before + more[..i])
    {
      ghost var media := before + more[..i];
      assert before + more[..i + 1] == media + [more[i]];
      var id, kind := more[i].identity, more[i].kind;
      SeenIffFirst(first, media, more[i]);
      var duplicateOf := if Mapped(duplicates, id) then duplicates[id] else if id in first then first[id] else "";
      items := items + [Item(id, kind, |items|, kind in {"photo", "video"}, duplicateOf, duplicateOf != "")];
      first := if id in first then first else first[id := id];
      PlanOneMore(items, media, more[i], duplicates);
      FirstsOneMore(first, media, more[i]);
    }
    assert more[..|more|] == more;
  }

  lemma SeenIffFirst(first: map<string, string>, media: seq<Media>, m: Media)
    requires Firsts(first, media)
    ensures m.identity in first <==> SeenBefore(media + [m], |media|)
  {
    assert forall j :: 0 <= j < |media| ==> (media + [m])[j] == media[j];
    assert (media + [m])[|media|] == m;
  }

  lemma SeenInPrefix(media: seq<Media>, m: Media, k: nat)
    requires k < |media|
    ensures SeenBefore(media + [m], k) <==> SeenBefore(media, k)
  {
    assert forall j :: 0 <= j <= k ==> (media + [m])[j] == media[j];
  }

  lemma PlanOneMore(items: seq<Item>, media: seq<Media>, m: Media, duplicates: map<string, string>)
    requires items != [] && PlansAll(items[..|items| - 1], media, duplicates)
    requires Plans(items[|items| - 1], media + [m], |media|, duplicates)
    ensures PlansAll(items, media + [m], duplicates)
  {
    forall k | 0 <= k < |media| ensures Plans(items[k], media + [m], k, duplicates) {
      assert Plans(items[..|items| - 1][k], media, k, duplicates);
      SeenInPrefix(media, m, k);
    }
  }

  lemma FirstsOneMore(first: map<string, string>, media: seq<Media>, m: Media)
    requires m.identity in first && first[m.identity] == m.identity
    requires forall id :: id in first && id != m.identity ==> first[id] == id && exists j :: 0 <= j < |media| && media[j].identity == id
    requires forall j :: 0 <= j < |media| ==> media[j].identity in first
    ensures Firsts(first, media + [m])
  {
    var longer := media + [m];
    forall id | id in first ensures first[id] == id && exists j :: 0 <= j < |longer| && longer[j].identity == id {
      if id == m.identity {
        assert longer[|media|].identity == id;
      } else {
        var j :| 0 <= j < |media| && media[j].identity == id;
        assert longer[j].identity == id;
      }
    }
  }

  // ---------------------------------------------------------------- eligible media

  function Eligible(items: seq<Item>): seq<Item> {
    if items == [] then []
    else
      var last, rest := items[|items| - 1], Eligible(items[..|items| - 1]);
      if last.duplicateOf != "" || last.suppressed then rest else rest + [last]
  }

  function Refs(items: seq<Item>): seq<string> {
    seq(|items|, i requires 0 <= i < |items| => items[i].id)
  }

  function Suppressed(items: seq<Item>): seq<string> {
    if items == [] then []
    else
      var last, rest := items[|items| - 1], Suppressed(items[..|items| - 1]);
      if last.duplicateOf != "" || last.suppressed then rest + [last.id] else rest
  }

  /** What is left when duplicates are suppressed, and their ids; the items come in package order. */
  method EligibleMedia(items: seq<Item>) returns (eligible: seq<Item>, suppressed: seq<string>)
    ensures eligible == Eligible(items) && suppressed == Suppressed(items)
  {
    eligible, suppressed := [], [];
    for k := 0 to |items|
      invariant eligible == Eligible(items[..k]) && suppressed == Suppressed(items[..k])
    {
      assert items[..k + 1][..k] == items[..k];
      if items[k].duplicateOf != "" || items[k].suppressed {
        suppressed := suppressed + [items[k].id];
      } else {
        eligible := eligible + [items[k]];
      }
    }
    assert items[..|items|] == items;
  }

  /** Every item is eligible or suppressed, and the suppressed ids are exactly those of marked items. */
  lemma {:induction false} SuppressedAre(items: seq<Item>)
    ensures |Eligible(items)| + |Suppressed(items)| == |items|
    ensures forall id :: id in Suppressed(items) <==> exists i :: i in items && i.id == id && (i.duplicateOf != "" || i.suppressed)
  {
    if items != [] {
      var init, last := items[..|items| - 1], items[|items| - 1];
      SuppressedAre(init);
      assert items == init + [last];
      assert forall i :: i in items <==> i in init || i == last;
    }
  }

  /**
   The eligible items are the first occurrences of the identities not mapped as duplicates, each once,
   in their first order.
   */
  ghost predicate FirstOccurrences(refs: seq<string>, media: seq<Media>, duplicates: map<string, string>) {
    && NoDuplicates(refs)
    && (forall id :: id in refs <==> (exists m :: m in media && m.identity == id) && !Mapped(duplicates, id))
    && forall a, b :: 0 <= a < b < |refs| ==> Leads(media, refs[a], refs[b])
  }

  /** Some item of the first identity comes before every item of the second. */
  ghost predicate Leads(media: seq<Media>, id: string, later: string) {
    exists j :: 0 <= j < |media| && media[j].identity == id && forall k :: 0 <= k <= j ==> media[k].identity != later
  }

  lemma {:induction false} LeadsStays(media: seq<Media>, m: Media, id: string, later: string)
    requires Leads(media, id, later)
    ensures Leads(media + [m], id, later)
  {
    var j :| 0 <= j < |media| && media[j].identity == id && forall k :: 0 <= k <= j ==> media[k].identity != later;
    assert (media + [m])[..|media|] == media;
    assert forall k :: 0 <= k <= j ==> (media + [m])[k] == media[k];
  }

  lemma LeadsNewcomer(media: seq<Media>, m: Media, id: string)
    requires (exists n :: n in media && n.identity == id) && forall k :: 0 <= k < |media| ==> media[k].identity != m.identity
    ensures Leads(media + [m], id, m.identity)
  {
    var n :| n in media && n.identity == id;
    var j :| 0 <= j < |media| && media[j] == n;
    assert (media + [m])[j].identity == id;
    assert forall k :: 0 <= k <= j ==> (media + [m])[k] == media[k];
  }

  lemma {:induction false} EligibleAreFirst(items: seq<Item>, media: seq<Media>, duplicates: map<string, string>)
    requires PlansAll(items, media, duplicates) && forall m :: m in media ==> m.identity != ""
    ensures FirstOccurrences(Refs(Eligible(items)), media, duplicates)
  {
    if items != [] {
      var n := |items| - 1;
      var init := media[..n];
      assert media == init + [media[n]];
      forall k | 0 <= k < n ensures Plans(items[..n][k], init, k, duplicates) {
        assert Plans(items[k], media, k, duplicates);
        SeenInPrefix(init, media[n], k);
      }
      EligibleAreFirst(items[..n], init, duplicates);
      EligibleOneMore(items, init, media[n], duplicates);
    }
  }

  /** Neither mapped as a duplicate nor met before. */
  ghost predicate Kept(init: seq<Media>, m: Media, duplicates: map<string, string>) {
    !Mapped(duplicates, m.identity) && forall k :: 0 <= k < |init| ==> init[k].identity != m.identity
  }

  lemma EligibleOneMore(items: seq<Item>, init: seq<Media>, m: Media, duplicates: map<string, string>)
    requires items != [] && |items| == |init| + 1 && m.identity != ""
    requires FirstOccurrences(Refs(Eligible(items[..|items| - 1])), init, duplicates)
    requires Plans(items[|items| - 1], init + [m], |init|, duplicates)
    ensures FirstOccurrences(Refs(Eligible(items)), init + [m], duplicates)
  {
    var known, refs := Refs(Eligible(items[..|items| - 1])), Refs(Eligible(items));
    var kept := Kept(init, m, duplicates);
    KeptIffUnmarked(items[|items| - 1], init, m, duplicates);
    assert refs == if kept then known + [m.identity] else known;
    RefsMembers(known, refs, init, m, duplicates, kept);
    RefsOrder(known, refs, init, m, duplicates, kept);
  }

  lemma RefsOrder(known: seq<string>, refs: seq<string>, init: seq<Media>, m: Media, duplicates: map<string, string>, kept: bool)
    requires FirstOccurrences(known, init, duplicates)
    requires refs == if kept then known + [m.identity] else known
    requires kept ==> forall k :: 0 <= k < |init| ==> init[k].identity != m.identity
    ensures forall a, b :: 0 <= a < b < |refs| ==> Leads(init + [m], refs[a], refs[b])
  {
    forall a, b | 0 <= a < b < |refs| ensures Leads(init + [m], refs[a], refs[b]) {
      assert refs[a] == known[a] && refs[a] in known;
      if b < |known| {
        LeadsStays(init, m, refs[a], refs[b]);
      } else {
        LeadsNewcomer(init, m, refs[a]);
      }
    }
  }

  lemma KeptIffUnmarked(item: Item, init: seq<Media>, m: Media, duplicates: map<string, string>)
    requires m.identity != "" && Plans(item, init + [m], |init|, duplicates)
    ensures item.duplicateOf == "" <==> Kept(init, m, duplicates)
  {
    assert SeenBefore(init + [m], |init|) <==> exists k :: 0 <= k < |init| && (init + [m])[k].identity == m.identity;
    assert forall k :: 0 <= k < |init| ==> (init + [m])[k] == init[k];
  }

  lemma RefsMembers(known: seq<string>, refs: seq<string>, init: seq<Media>, m: Media, duplicates: map<string, string>, kept: bool)
    requires FirstOccurrences(known, init, duplicates)
    requires refs == if kept then known + [m.identity] else known
    requires kept <==> Kept(init, m, duplicates)
    ensures NoDuplicates(refs)
    ensures forall id :: id in refs <==> (exists n :: n in init + [m] && n.identity == id) && !Mapped(duplicates, id)
  {
    assert forall n :: n in init + [m] <==> n in init || n == m;
    if kept {
      assert m.identity !in known;
    }
    forall id ensures id in refs <==> (exists n :: n in init + [m] && n.identity == id) && !Mapped(duplicates, id) {
      if id == m.identity && !kept && !Mapped(duplicates, id) {
        var k :| 0 <= k < |init| && init[k].identity == id;
        assert init[k] in init;
      } else if id == m.identity {
        assert m in init + [m];
      }
    }
  }

  // ---------------------------------------------------------------- albums

  predicate Compatible(item: Item) {
    item.album && item.kind in {"photo", "video"}
  }

  /** What one message can carry: any single item, or an album of up to ten photos and videos. */
  ghost predicate Sendable(part: seq<Item>) {
    |part| == 1 || (1 < |part| <= ALBUM && forall i :: i in part ==> Compatible(i))
  }

  /** An album is of two to ten photos and videos of a plan; everything else goes alone. */
  lemma SendableMeans(part: seq<Item>)
    requires forall i :: i in part ==> (i.album <==> i.kind == "photo" || i.kind == "video")
    ensures Sendable(part) <==> |part| == 1 || (2 <= |part| <= 10 && forall i :: i in part ==> i.kind == "photo" || i.kind == "video")
  {
  }

  function Concat<T>(parts: seq<seq<T>>): seq<T> {
    if parts == [] then [] else parts[0] + Concat(parts[1..])
  }

  ghost predicate Splits(parts: seq<seq<Item>>, items: seq<Item>) {
    Concat(parts) == items && forall p :: p in parts ==> Sendable(p)
  }

  /** How many photos and videos lead. */
  function Run(items: seq<Item>): nat {
    if items == [] || !Compatible(items[0]) then 0 else 1 + Run(items[1..])
  }

  /** How far the next message reaches. */
  function Reach(items: seq<Item>): nat
    requires items != []
  {
    if Compatible(items[0]) then Min(Run(items), ALBUM) else 1
  }

  lemma {:induction false} RunIs(items: seq<Item>)
    ensures Run(items) <= |items|
    ensures forall k :: 0 <= k < Run(items) ==> Compatible(items[k])
    ensures Run(items) < |items| ==> !Compatible(items[Run(items)])
  {
    if items != [] && Compatible(items[0]) {
      RunIs(items[1..]);
      assert items == [items[0]] + items[1..];
    }
  }

  /** The number of messages when every one reaches as far as it can. */
  function Greedy(items: seq<Item>): nat {
    if items == [] then 0
    else RunIs(items); 1 + Greedy(items[Reach(items)..])
  }

  /** Fewer items never need more messages. */
  lemma {:induction false} GreedyShrinks(items: seq<Item>, k: nat)
    requires k <= |items|
    ensures Greedy(items[k..]) <= Greedy(items)
    decreases |items|
  {
    if k == 0 {
      assert items[k..] == items;
    } else if k < |items| {
      RunIs(items);
      var reach := Reach(items);
      var end := if k >= reach then k else k + Reach(items[k..]);
      NextFrom(items, k, end);
      GreedyShrinks(items[reach..], end - reach);
    }
  }

  /** Messages starting at k reach the end given, and from there on compare with those after the first message. */
  lemma NextFrom(items: seq<Item>, k: nat, end: nat)
    requires k < |items| && Reach(items) <= |items|
    requires end == if k >= Reach(items) then k else k + Reach(items[k..])
    ensures Reach(items) <= end <= |items| && items[Reach(items)..][end - Reach(items)..] == items[end..]
    ensures Greedy(items[k..]) <= 1 + Greedy(items[end..])
    ensures k >= Reach(items) ==> Greedy(items[k..]) == Greedy(items[end..])
  {
    if k < Reach(items) {
      ReachFrom(items, k);
      Tail(items, k, end);
    }
    Tail(items, Reach(items), end);
  }

  lemma Tail(items: seq<Item>, n: nat, r: nat)
    requires n <= r <= |items|
    ensures items[n..][r - n..] == items[r..]
  {
  }

  lemma ReachFrom(items: seq<Item>, k: nat)
    requires items != [] && k < Reach(items) <= |items|
    ensures Reach(items) <= k + Reach(items[k..]) <= |items|
  {
    RunIs(items);
    RunIs(items[k..]);
    var r := Reach(items[k..]);
    assert forall n :: 0 <= n < |items| - k ==> items[k..][n] == items[k + n];
    assert k > 0 ==> Compatible(items[0]) && Compatible(items[k]);
  }

  /** No split into sendable messages, in the same order, has fewer of them than the greedy one. */
  lemma {:induction false} GreedyIsLeast(parts: seq<seq<Item>>, items: seq<Item>)
    requires Splits(parts, items)
    ensures Greedy(items) <= |parts|
  {
    if parts != [] {
      var p := parts[0];
      assert Sendable(p) && items[..|p|] == p && items[|p|..] == Concat(parts[1..]);
      GreedyIsLeast(parts[1..], items[|p|..]);
      SendableFits(items, p);
      GreedyReachesFurther(items, |p|);
    }
  }

  lemma GreedyReachesFurther(items: seq<Item>, n: nat)
    requires items != [] && n <= Reach(items) <= |items|
    ensures Greedy(items) <= 1 + Greedy(items[n..])
  {
    var r := Reach(items);
    Tail(items, n, r);
    GreedyShrinks(items[n..], r - n);
  }

  lemma SendableFits(items: seq<Item>, p: seq<Item>)
    requires Sendable(p) && |p| <= |items| && items[..|p|] == p
    ensures |p| <= Reach(items) <= |items|
  {
    RunIs(items);
    if |p| > 1 {
      assert forall k :: 0 <= k < |p| ==> items[k] == p[k] && p[k] in p;
    }
  }
}
