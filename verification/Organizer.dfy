/** Grouping collected updates into events: one best version per id, live posts clustered by gaps, threads kept. */
module Organizer {
  import opened Common

  const HOUR: Time := 3_600_000_000
  const GAP: Time := 4 * HOUR

  /** An update with its category, its UTC day as text, and the digest of its text; the author in lower case. */
  datatype Update = Update(id: string, author: string, created: Time, day: string, conversation: string, replyTo: string,
                           category: string, digest: string, media: nat, text: nat, priority: int)

  datatype Group = Group(key: string, start: Time, members: seq<Update>)

  // ---------------------------------------------------------------- one version per id

  /** More media, then more text, then a smaller source priority. */
  predicate Outscores(a: Update, b: Update) {
    a.media > b.media || (a.media == b.media && (a.text > b.text || (a.text == b.text && a.priority < b.priority)))
  }

  /** The earliest of the best-scoring versions of its id. */
  ghost predicate IsBest(updates: seq<Update>, u: Update) {
    exists k :: 0 <= k < |updates| && IsBestAt(updates, k) && updates[k] == u
  }

  ghost predicate IsBestAt(updates: seq<Update>, k: nat)
    requires k < |updates|
  {
    forall j :: 0 <= j < |updates| && updates[j].id == updates[k].id ==>
      !Outscores(updates[j], updates[k]) && (j < k ==> Outscores(updates[k], updates[j]))
  }

  ghost predicate DistinctIds(updates: seq<Update>) {
    forall i, j :: 0 <= i < j < |updates| ==> updates[i].id != updates[j].id
  }

  function IdsOf(updates: seq<Update>): set<string> {
    set u | u in updates :: u.id
  }

  /** The best version has the most media; of those the most text; and of those comes from the source that goes first. */
  lemma BestHasMost(updates: seq<Update>, u: Update, v: Update)
    requires IsBest(updates, u) && v in updates && v.id == u.id
    ensures v.media <= u.media
    ensures v.media == u.media ==> v.text <= u.text
    ensures v.media == u.media && v.text == u.text ==> u.priority <= v.priority
  {
    var k :| 0 <= k < |updates| && IsBestAt(updates, k) && updates[k] == u;
    var j :| 0 <= j < |updates| && updates[j] == v;
  }

  lemma {:induction false} BestExtends(updates: seq<Update>, u: Update, w: Update)
    requires IsBest(updates, u)
    ensures w.id != u.id || !Outscores(w, u) ==> IsBest(updates + [w], u)
    ensures w.id == u.id && Outscores(w, u) ==> IsBest(updates + [w], w)
  {
    var k :| 0 <= k < |updates| && IsBestAt(updates, k) && updates[k] == u;
    var longer := updates + [w];
    if w.id != u.id || !Outscores(w, u) {
      assert IsBestAt(longer, k) && longer[k] == u;
    } else {
      assert IsBestAt(longer, |updates|) && longer[|updates|] == w;
    }
  }

  lemma {:induction false} FirstOfItsId(updates: seq<Update>, w: Update)
    requires w.id !in IdsOf(updates)
    ensures IsBest(updates + [w], w)
  {
    assert IsBestAt(updates + [w], |updates|);
  }

  /** One best version per id. */
  method Deduplicate(updates: seq<Update>) returns (clean: seq<Update>)
    ensures DistinctIds(clean) && IdsOf(clean) == IdsOf(updates)
    ensures forall u :: u in clean ==> IsBest(updates, u)
  {
    clean := [];
    for i := 0 to |updates|
      invariant DistinctIds(clean) && IdsOf(clean) == IdsOf(updates[..i])
      invariant forall k :: 0 <= k < |clean| ==> IsBest(updates[..i], clean[k])
    {
      assert updates[..i + 1] == updates[..i] + [updates[i]];
      clean := Choose(updates[..i], clean, updates[i]);
    }
    assert updates[..|updates|] == updates;
  }

  /** The chosen version of an id keeps its place when a better one replaces it. */
  method Choose(ghost seen: seq<Update>, chosen: seq<Update>, u: Update) returns (clean: seq<Update>)
    requires DistinctIds(chosen) && IdsOf(chosen) == IdsOf(seen)
    requires forall k :: 0 <= k < |chosen| ==> IsBest(seen, chosen[k])
    ensures DistinctIds(clean) && IdsOf(clean) == IdsOf(seen + [u])
    ensures forall k :: 0 <= k < |clean| ==> IsBest(seen + [u], clean[k])
  {
    forall k | 0 <= k < |chosen| ensures chosen[k].id != u.id || !Outscores(u, chosen[k]) ==> IsBest(seen + [u], chosen[k]) {
      BestExtends(seen, chosen[k], u);
    }
    var i := 0;
    while i < |chosen| && chosen[i].id != u.id
      invariant 0 <= i <= |chosen| && forall k :: 0 <= k < i ==> chosen[k].id != u.id
    {
      i := i + 1;
    }
    if i == |chosen| {
      FirstOfItsId(seen, u);
      clean := chosen + [u];
    } else if Outscores(u, chosen[i]) {
      BestExtends(seen, chosen[i], u);
      clean := chosen[i := u];
    } else {
      clean := chosen;
    }
    SameIds(seen, chosen, u, clean);
  }

  lemma SameIds(seen: seq<Update>, chosen: seq<Update>, u: Update, clean: seq<Update>)
    requires IdsOf(chosen) == IdsOf(seen)
    requires clean == chosen + [u] || (clean == chosen && u.id in IdsOf(chosen)) || exists i :: 0 <= i < |chosen| && chosen[i].id == u.id && clean == chosen[i := u]
    ensures IdsOf(clean) == IdsOf(seen + [u])
  {
    assert IdsOf(seen + [u]) == IdsOf(seen) + {u.id};
    if clean == chosen + [u] {
      assert IdsOf(clean) == IdsOf(chosen) + {u.id};
    } else if clean != chosen {
      var i :| 0 <= i < |chosen| && chosen[i].id == u.id && clean == chosen[i := u];
      forall x | x in IdsOf(chosen) ensures x in IdsOf(clean) {
        var k :| 0 <= k < |chosen| && chosen[k].id == x;
        assert clean[k].id == x;
      }
    }
  }

  // ---------------------------------------------------------------- keys

  predicate Threaded(u: Update) {
    u.replyTo != "" || (u.conversation != "" && u.conversation != u.id)
  }

  predicate Standalone(u: Update) {
    u.category == "live" && !Threaded(u)
  }

  function LiveKey(author: string, day: string, cluster: nat): string {
    "live:" + author + ":" + day + ":" + Decimal(cluster)
  }

  function InitialKey(u: Update): string {
    if u.conversation != "" && u.conversation != u.id then "conversation:" + u.conversation
    else if u.replyTo != "" then "conversation:" + if u.conversation != "" then u.conversation else u.replyTo
    else if u.category == "live" then LiveKey(u.author, u.day, (u.created / HOUR) % 24 / 4)
    else if u.category in {"jeonghan_instagram", "member_instagram"} then
      "instagram:" + u.author + ":" + u.day + ":" + if u.conversation != "" then u.conversation else u.id
    else if u.category in {"brand", "fansign", "airport"} then u.category + ":" + u.day + ":" + u.digest
    else "single:" + u.id
  }

  /** A key splits at its last colon in one way. */
  lemma {:induction false} LastColon(a: string, x: string, b: string, y: string)
    requires a + ":" + x == b + ":" + y && ':' !in x && ':' !in y
    ensures a == b && x == y
  {
    var s := a + ":" + x;
    NoColonAfter(a, x);
    NoColonAfter(b, y);
    assert s[|a|] == ':' && s[|b|] == ':';
    assert a == s[..|a|] == b;
    assert x == s[|a| + 1..] == y;
  }

  lemma NoColonAfter(a: string, x: string)
    requires ':' !in x
    ensures forall k :: |a| < k < |a + ":" + x| ==> (a + ":" + x)[k] != ':'
  {
    assert forall k :: |a| < k < |a + ":" + x| ==> (a + ":" + x)[k] == x[k - |a| - 1];
  }

  lemma LiveKeyIsInjective(a: string, d: string, m: nat, b: string, e: string, n: nat)
    requires ':' !in d && ':' !in e && LiveKey(a, d, m) == LiveKey(b, e, n)
    ensures a == b && d == e && m == n
  {
    DecimalLast(m);
    DecimalLast(n);
    LastColon("live:" + a + ":" + d, Decimal(m), "live:" + b + ":" + e, Decimal(n));
    DecimalIsInjective(m, n);
    LastColon("live:" + a, d, "live:" + b, e);
    assert a == ("live:" + a)[5..] && b == ("live:" + b)[5..];
  }

  /** Only standalone live posts have keys of the live kind to begin with. */
  lemma OtherKeys(u: Update, author: string, day: string, cluster: nat)
    requires !Standalone(u)
    ensures InitialKey(u) != LiveKey(author, day, cluster)
  {
    assert LiveKey(author, day, cluster)[..2] == "li";
    assert InitialKey(u)[0] != 'l';
  }

  /** The root of a thread. */
  function Root(u: Update): string {
    if u.conversation != "" then u.conversation else u.replyTo
  }

  /** Threaded updates share a key exactly when they share a root, and never with an update outside threads. */
  lemma ThreadKeys(u: Update, v: Update)
    requires Threaded(u)
    ensures InitialKey(u) == InitialKey(v) <==> Threaded(v) && Root(u) == Root(v)
  {
    assert "conversation:"[0] == 'c';
    if Threaded(v) {
      assert InitialKey(u)[13..] == Root(u) && InitialKey(v)[13..] == Root(v);
    } else {
      assert InitialKey(v)[0] != 'c';
    }
  }

  predicate OnInstagram(u: Update) {
    u.category == "jeonghan_instagram" || u.category == "member_instagram"
  }

  predicate Appearance(u: Update) {
    u.category == "brand" || u.category == "fansign" || u.category == "airport"
  }

  /** Outside threads and lives, appearances of one kind, day and text belong together, and nothing else does. */
  predicate SameOccasion(u: Update, v: Update) {
    if Appearance(u) || Appearance(v) then u.category == v.category && u.day == v.day && u.digest == v.digest
    else if OnInstagram(u) || OnInstagram(v) then OnInstagram(u) && OnInstagram(v) && u.author == v.author && u.day == v.day && u.id == v.id
    else u.id == v.id
  }

  lemma AppearanceKeys(u: Update, v: Update)
    requires !Threaded(u) && !Threaded(v) && Appearance(u) && Appearance(v)
    requires ':' !in u.day && ':' !in v.day && ':' !in u.digest && ':' !in v.digest
    ensures InitialKey(u) == InitialKey(v) <==> u.category == v.category && u.day == v.day && u.digest == v.digest
  {
    if InitialKey(u) == InitialKey(v) {
      LastColon(u.category + ":" + u.day, u.digest, v.category + ":" + v.day, v.digest);
      LastColon(u.category, u.day, v.category, v.day);
    }
  }

  lemma InstagramKeys(u: Update, v: Update)
    requires !Threaded(u) && !Threaded(v) && OnInstagram(u) && OnInstagram(v)
    requires ':' !in u.day && ':' !in v.day && ':' !in u.id && ':' !in v.id
    ensures InitialKey(u) == InitialKey(v) <==> u.author == v.author && u.day == v.day && u.id == v.id
  {
    assert InitialKey(u) == "instagram:" + u.author + ":" + u.day + ":" + u.id;
    assert InitialKey(v) == "instagram:" + v.author + ":" + v.day + ":" + v.id;
    if InitialKey(u) == InitialKey(v) {
      LastColon("instagram:" + u.author + ":" + u.day, u.id, "instagram:" + v.author + ":" + v.day, v.id);
      LastColon("instagram:" + u.author, u.day, "instagram:" + v.author, v.day);
      assert u.author == ("instagram:" + u.author)[10..] && v.author == ("instagram:" + v.author)[10..];
    }
  }

  lemma KindsApart(u: Update)
    requires !Threaded(u) && u.category != "live"
    ensures Appearance(u) ==> InitialKey(u)[0] in {'b', 'f', 'a'}
    ensures OnInstagram(u) ==> InitialKey(u)[0] == 'i'
    ensures !Appearance(u) && !OnInstagram(u) ==> InitialKey(u) == "single:" + u.id && InitialKey(u)[0] == 's'
  {
  }

  lemma OccasionKeys(u: Update, v: Update)
    requires !Threaded(u) && !Threaded(v) && u.category != "live" && v.category != "live"
    requires ':' !in u.day && ':' !in v.day && ':' !in u.digest && ':' !in v.digest && ':' !in u.id && ':' !in v.id
    ensures InitialKey(u) == InitialKey(v) <==> SameOccasion(u, v)
  {
    KindsApart(u);
    KindsApart(v);
    if Appearance(u) && Appearance(v) {
      AppearanceKeys(u, v);
    } else if OnInstagram(u) && OnInstagram(v) {
      InstagramKeys(u, v);
    } else if !Appearance(u) && !OnInstagram(u) && !Appearance(v) && !OnInstagram(v) {
      assert u.id == ("single:" + u.id)[7..] && v.id == ("single:" + v.id)[7..];
    }
  }

  // ---------------------------------------------------------------- live clusters

  predicate InBucket(u: Update, author: string, day: string) {
    Standalone(u) && u.author == author && u.day == day
  }

  function Bucket(clean: seq<Update>, author: string, day: string): seq<Update> {
    if clean == [] then []
    else
      var last, rest := clean[|clean| - 1], Bucket(clean[..|clean| - 1], author, day);
      if InBucket(last, author, day) then rest + [last] else rest
  }

  lemma {:induction false} BucketIs(clean: seq<Update>, author: string, day: string)
    ensures forall u :: u in Bucket(clean, author, day) <==> u in clean && InBucket(u, author, day)
    ensures DistinctIds(clean) ==> DistinctIds(Bucket(clean, author, day))
  {
    if clean != [] {
      var init := clean[..|clean| - 1];
      BucketIs(init, author, day);
      assert clean == init + [clean[|clean| - 1]];
      assert DistinctIds(clean) ==> forall u :: u in init ==> u.id != clean[|clean| - 1].id;
    }
  }

  function TimesOf(items: seq<Update>): set<Time> {
    set u | u in items :: u.created
  }

  /** Every instant from the earlier one up to the later one has a follower within four hours. */
  ghost predicate Bridged(times: set<Time>, from: Time, to: Time) {
    forall c :: c in times && from <= c < to ==> exists d :: d in times && c < d <= c + GAP
  }

  ghost predicate Together(times: set<Time>, s: Time, t: Time) {
    Bridged(times, Min(s, t), Max(s, t))
  }

  predicate InOrder(items: seq<Update>) {
    forall i, j :: 0 <= i < j < |items| ==> items[i].created <= items[j].created
  }

  /** How many gaps of more than four hours precede an item. */
  function Cluster(items: seq<Update>, i: nat): nat
    requires i < |items|
  {
    if i == 0 then 0 else Cluster(items, i - 1) + if Break(items, i) then 1 else 0
  }

  predicate Break(items: seq<Update>, k: nat)
    requires 0 < k < |items|
  {
    items[k].created - items[k - 1].created > GAP
  }

  /** A new cluster begins after more than four hours, in microseconds, without a post. */
  lemma BreakMeans(items: seq<Update>, k: nat)
    requires 0 < k < |items|
    ensures Break(items, k) <==> items[k].created > items[k - 1].created + 14_400_000_000
    ensures Cluster(items, k) == Cluster(items, k - 1) + (if Break(items, k) then 1 else 0)
  {
  }

  lemma {:induction false} ClusterGrows(items: seq<Update>, i: nat, j: nat)
    requires i <= j < |items|
    ensures Cluster(items, i) <= Cluster(items, j)
    ensures Cluster(items, i) == Cluster(items, j) <==> forall k :: i < k <= j ==> !Break(items, k)
    decreases j
  {
    if i < j {
      ClusterGrows(items, i, j - 1);
    }
  }

  /** Two posts share a cluster exactly when no gap between them is longer than four hours. */
  lemma {:induction false} ClustersAreBridged(items: seq<Update>, i: nat, j: nat)
    requires InOrder(items) && i <= j < |items|
    ensures Cluster(items, i) == Cluster(items, j) <==> Bridged(TimesOf(items), items[i].created, items[j].created)
  {
    ClusterGrows(items, i, j);
    if Cluster(items, i) == Cluster(items, j) {
      NoBreakBridges(items, i, j);
    } else {
      var k :| i < k <= j && Break(items, k);
      BreakBlocks(items, i, j, k);
    }
  }

  lemma BreakBlocks(items: seq<Update>, i: nat, j: nat, k: nat)
    requires InOrder(items) && i < k <= j < |items| && Break(items, k)
    ensures !Bridged(TimesOf(items), items[i].created, items[j].created)
  {
    BreakHere(items, k);
    assert items[i].created <= items[k - 1].created by {
      assert i == k - 1 || i < k - 1;
    }
    assert items[k].created <= items[j].created by {
      assert k == j || k < j;
    }
  }

  lemma NoBreakBridges(items: seq<Update>, i: nat, j: nat)
    requires InOrder(items) && i <= j < |items|
    requires forall k :: i < k <= j ==> !Break(items, k)
    ensures Bridged(TimesOf(items), items[i].created, items[j].created)
  {
    var times := TimesOf(items);
    forall c | c in times && items[i].created <= c < items[j].created ensures exists d :: d in times && c < d <= c + GAP {
      var k := LastUpTo(items, i, j, c);
      var d := items[k + 1].created;
      assert !Break(items, k + 1);
      assert d in times && c < d <= c + GAP;
    }
  }

  lemma BreakHere(items: seq<Update>, k: nat)
    requires InOrder(items) && 0 < k < |items| && Break(items, k)
    ensures items[k - 1].created in TimesOf(items)
    ensures !exists d :: d in TimesOf(items) && items[k - 1].created < d <= items[k - 1].created + GAP
  {
    forall m | 0 <= m < |items| ensures items[m].created <= items[k - 1].created || items[m].created > items[k - 1].created + GAP {
      assert m < k - 1 || m == k - 1 || m == k || k < m;
    }
  }

  /** The last of the items at an instant that is reached before item j. */
  lemma {:induction false} LastUpTo(items: seq<Update>, i: nat, j: nat, c: Time) returns (k: nat)
    requires InOrder(items) && i < j < |items| && c in TimesOf(items) && items[i].created <= c < items[j].created
    ensures i <= k < j && items[k].created == c < items[k + 1].created
  {
    k := j - 1;
    while items[k].created > c
      invariant i <= k < j && items[k + 1].created > c
      decreases k
    {
      k := k - 1;
    }
    assert forall n :: k < n < |items| ==> items[k + 1].created <= items[n].created;
    var m :| 0 <= m < |items| && items[m].created == c;
    assert items[m].created <= items[k].created;
  }

  /** Stable insertion sort by time of creation. */
  method SortByTime(items: seq<Update>) returns (sorted: seq<Update>)
    requires DistinctIds(items)
    ensures InOrder(sorted) && DistinctIds(sorted) && forall u :: u in sorted <==> u in items
  {
    sorted := [];
    for n := 0 to |items|
      invariant InOrder(sorted) && DistinctIds(sorted)
      invariant forall u :: u in sorted <==> u in items[..n]
    {
      assert items[..n + 1] == items[..n] + [items[n]];
      var i := |sorted|;
      while i > 0 && sorted[i - 1].created > items[n].created
        invariant 0 <= i <= |sorted|
        invariant forall k :: i <= k < |sorted| ==> sorted[k].created > items[n].created
      {
        i := i - 1;
      }
      InsertInOrder(sorted, i, items[n], items[..n]);
      sorted := sorted[..i] + [items[n]] + sorted[i..];
    }
    assert items[..|items|] == items;
  }

  lemma InsertInOrder(sorted: seq<Update>, i: nat, u: Update, seen: seq<Update>)
    requires InOrder(sorted) && DistinctIds(sorted) && i <= |sorted|
    requires forall w :: w in sorted <==> w in seen
    requires forall w :: w in seen ==> w.id != u.id
    requires i > 0 ==> sorted[i - 1].created <= u.created
    requires forall k :: i <= k < |sorted| ==> sorted[k].created > u.created
    ensures InOrder(sorted[..i] + [u] + sorted[i..]) && DistinctIds(sorted[..i] + [u] + sorted[i..])
    ensures forall w :: w in sorted[..i] + [u] + sorted[i..] <==> w in seen + [u]
  {
    var longer := sorted[..i] + [u] + sorted[i..];
    InsertedOrder(sorted, i, u, longer);
    InsertedDistinct(sorted, i, u, longer);
    assert sorted == sorted[..i] + sorted[i..];
  }

  lemma InsertedOrder(sorted: seq<Update>, i: nat, u: Update, longer: seq<Update>)
    requires i <= |sorted| && longer == sorted[..i] + [u] + sorted[i..] && InOrder(sorted)
    requires i > 0 ==> sorted[i - 1].created <= u.created
    requires forall k :: i <= k < |sorted| ==> sorted[k].created > u.created
    ensures InOrder(longer)
  {
    InsertedAt(sorted, i, u, longer);
    assert forall k :: 0 <= k < i ==> sorted[k].created <= u.created;
  }

  lemma InsertedAt(sorted: seq<Update>, i: nat, u: Update, longer: seq<Update>)
    requires i <= |sorted| && longer == sorted[..i] + [u] + sorted[i..]
    ensures |longer| == |sorted| + 1 && forall k :: 0 <= k < |longer| ==> longer[k] == if k < i then sorted[k] else if k == i then u else sorted[k - 1]
  {
  }

  lemma InsertedDistinct(sorted: seq<Update>, i: nat, u: Update, longer: seq<Update>)
    requires i <= |sorted| && longer == sorted[..i] + [u] + sorted[i..] && DistinctIds(sorted)
    requires forall w :: w in sorted ==> w.id != u.id
    ensures DistinctIds(longer)
  {
    InsertedAt(sorted, i, u, longer);
    assert forall k :: 0 <= k < |sorted| ==> sorted[k] in sorted;
  }

  /** The keys once the first k posts have theirs. */
  function Numbered(keys: map<string, string>, items: seq<Update>, k: nat, author: string, day: string): map<string, string>
    requires k <= |items|
  {
    if k == 0 then keys
    else Numbered(keys, items, k - 1, author, day)[items[k - 1].id := LiveKey(author, day, Cluster(items, k - 1))]
  }

  lemma {:induction false} NumberedAt(keys: map<string, string>, items: seq<Update>, k: nat, author: string, day: string, m: nat)
    requires m < k <= |items| && DistinctIds(items)
    ensures var n := Numbered(keys, items, k, author, day);
      items[m].id in n && n[items[m].id] == LiveKey(author, day, Cluster(items, m))
  {
    if m < k - 1 {
      NumberedAt(keys, items, k - 1, author, day, m);
    }
  }

  lemma {:induction false} NumberedElsewhere(keys: map<string, string>, items: seq<Update>, k: nat, author: string, day: string, id: string)
    requires k <= |items| && forall m :: 0 <= m < k ==> items[m].id != id
    ensures var n := Numbered(keys, items, k, author, day);
      (id in n <==> id in keys) && (id in keys ==> n[id] == keys[id])
  {
    if k > 0 {
      NumberedElsewhere(keys, items, k - 1, author, day, id);
    }
  }

  /** Numbers the posts of one author and day, counting up at every gap of more than four hours. */
  method AssignBucket(keys: map<string, string>, bucket: seq<Update>, author: string, day: string)
    returns (keys': map<string, string>, items: seq<Update>)
    requires DistinctIds(bucket)
    ensures InOrder(items) && DistinctIds(items) && (forall u :: u in items <==> u in bucket)
    ensures keys' == Numbered(keys, items, |items|, author, day)
  {
    items := SortByTime(bucket);
    keys' := keys;
    var cluster, previous := 0, None;
    for k := 0 to |items|
      invariant previous == if k == 0 then None else Some(items[k - 1].created)
      invariant cluster == if k == 0 then 0 else Cluster(items, k - 1)
      invariant keys' == Numbered(keys, items, k, author, day)
    {
      if previous.Some? && items[k].created - previous.value > GAP {
        cluster := cluster + 1;
      }
      keys' := keys'[items[k].id := LiveKey(author, day, cluster)];
      previous := Some(items[k].created);
    }
  }

  // ---------------------------------------------------------------- groups

  /** When two updates belong together. */
  ghost predicate SameEvent(clean: seq<Update>, u: Update, v: Update) {
    if Standalone(u) && Standalone(v) then
      u.author == v.author && u.day == v.day && Together(TimesOf(Bucket(clean, u.author, u.day)), u.created, v.created)
    else !Standalone(u) && !Standalone(v) && InitialKey(u) == InitialKey(v)
  }

  /** The keys tell events apart. */
  ghost predicate KeysFit(clean: seq<Update>, keys: map<string, string>) {
    && (forall u :: u in clean ==> u.id in keys)
    && forall u, v :: u in clean && v in clean ==> (keys[u.id] == keys[v.id] <==> SameEvent(clean, u, v))
  }

  ghost predicate KeyOk(keys: map<string, string>, u: Update) {
    u.id in keys && if Standalone(u) then exists n: nat :: keys[u.id] == LiveKey(u.author, u.day, n) else keys[u.id] == InitialKey(u)
  }

  /** Within one author and day, keys agree exactly within a cluster. */
  ghost predicate BucketFits(clean: seq<Update>, keys: map<string, string>, author: string, day: string) {
    forall u, v :: u in Bucket(clean, author, day) && v in Bucket(clean, author, day) ==>
      && KeyOk(keys, u) && KeyOk(keys, v)
      && (keys[u.id] == keys[v.id] <==> Together(TimesOf(Bucket(clean, author, day)), u.created, v.created))
  }

  /** What assigning a bucket does to two of its posts. */
  lemma {:induction false} NumberedTogether(keys: map<string, string>, items: seq<Update>, author: string, day: string, i: nat, j: nat)
    requires InOrder(items) && DistinctIds(items) && i <= j < |items| && ':' !in day
    ensures var n := Numbered(keys, items, |items|, author, day);
      && items[i].id in n && items[j].id in n
      && (n[items[i].id] == n[items[j].id] <==> Together(TimesOf(items), items[i].created, items[j].created))
  {
    NumberedAt(keys, items, |items|, author, day, i);
    NumberedAt(keys, items, |items|, author, day, j);
    ClustersAreBridged(items, i, j);
    if LiveKey(author, day, Cluster(items, i)) == LiveKey(author, day, Cluster(items, j)) {
      LiveKeyIsInjective(author, day, Cluster(items, i), author, day, Cluster(items, j));
    }
  }

  lemma NumberedFits(clean: seq<Update>, keys: map<string, string>, items: seq<Update>, author: string, day: string)
    requires InOrder(items) && DistinctIds(items) && ':' !in day
    requires forall u :: u in items <==> u in Bucket(clean, author, day)
    ensures BucketFits(clean, Numbered(keys, items, |items|, author, day), author, day)
  {
    var n := Numbered(keys, items, |items|, author, day);
    BucketIs(clean, author, day);
    assert TimesOf(items) == TimesOf(Bucket(clean, author, day));
    forall u | u in items ensures KeyOk(n, u) {
      var i :| 0 <= i < |items| && items[i] == u;
      NumberedAt(keys, items, |items|, author, day, i);
    }
    forall u, v | u in items && v in items
      ensures n[u.id] == n[v.id] <==> Together(TimesOf(items), u.created, v.created)
    {
      var i :| 0 <= i < |items| && items[i] == u;
      var j :| 0 <= j < |items| && items[j] == v;
      if i <= j {
        NumberedTogether(keys, items, author, day, i, j);
      } else {
        NumberedTogether(keys, items, author, day, j, i);
      }
    }
  }

  lemma {:induction false} NumberedLeaves(clean: seq<Update>, keys: map<string, string>, items: seq<Update>, author: string, day: string, u: Update)
    requires DistinctIds(clean) && u in clean && !InBucket(u, author, day)
    requires forall w :: w in items <==> w in Bucket(clean, author, day)
    ensures var n := Numbered(keys, items, |items|, author, day); (u.id in n <==> u.id in keys) && (u.id in keys ==> n[u.id] == keys[u.id])
  {
    BucketIs(clean, author, day);
    forall m | 0 <= m < |items| ensures items[m].id != u.id {
      assert items[m] in clean;
    }
    NumberedElsewhere(keys, items, |items|, author, day, u.id);
  }

  /** Everything has a key, and what is not a standalone live post has its initial one. */
  ghost predicate KeysStart(clean: seq<Update>, keys: map<string, string>) {
    forall u :: u in clean ==> u.id in keys && (!Standalone(u) ==> keys[u.id] == InitialKey(u))
  }

  lemma NumberingKeepsStart(clean: seq<Update>, keys: map<string, string>, items: seq<Update>, author: string, day: string)
    requires DistinctIds(clean) && DistinctIds(items) && KeysStart(clean, keys)
    requires forall w :: w in items <==> w in Bucket(clean, author, day)
    ensures KeysStart(clean, Numbered(keys, items, |items|, author, day))
  {
    BucketIs(clean, author, day);
    forall u | u in clean
      ensures u.id in Numbered(keys, items, |items|, author, day)
      ensures !Standalone(u) ==> Numbered(keys, items, |items|, author, day)[u.id] == InitialKey(u)
    {
      if InBucket(u, author, day) {
        var i :| 0 <= i < |items| && items[i] == u;
        NumberedAt(keys, items, |items|, author, day, i);
      } else {
        NumberedLeaves(clean, keys, items, author, day, u);
      }
    }
  }

  lemma NumberingKeepsOthers(clean: seq<Update>, keys: map<string, string>, items: seq<Update>, author: string, day: string, a: string, d: string)
    requires DistinctIds(clean) && (a, d) != (author, day) && BucketFits(clean, keys, a, d)
    requires forall w :: w in items <==> w in Bucket(clean, author, day)
    ensures BucketFits(clean, Numbered(keys, items, |items|, author, day), a, d)
  {
    var n := Numbered(keys, items, |items|, author, day);
    BucketIs(clean, a, d);
    forall u | u in Bucket(clean, a, d) ensures KeyOk(keys, u) && u.id in n && n[u.id] == keys[u.id] {
      assert KeyOk(keys, u);
      NumberedLeaves(clean, keys, items, author, day, u);
    }
  }

  /** The buckets done so far fit. */
  ghost predicate AllFit(clean: seq<Update>, keys: map<string, string>, done: set<(string, string)>) {
    forall b :: b in done ==> BucketFits(clean, keys, b.0, b.1)
  }

  lemma NumberingFitsOneMore(clean: seq<Update>, keys: map<string, string>, items: seq<Update>, b: (string, string), done: set<(string, string)>)
    requires DistinctIds(clean) && DistinctIds(items) && InOrder(items) && ':' !in b.1 && AllFit(clean, keys, done) && b !in done
    requires forall w :: w in items <==> w in Bucket(clean, b.0, b.1)
    ensures AllFit(clean, Numbered(keys, items, |items|, b.0, b.1), done + {b})
  {
    NumberedFits(clean, keys, items, b.0, b.1);
    forall c | c in done ensures BucketFits(clean, Numbered(keys, items, |items|, b.0, b.1), c.0, c.1) {
      assert c == (c.0, c.1) && b == (b.0, b.1);
      NumberingKeepsOthers(clean, keys, items, b.0, b.1, c.0, c.1);
    }
  }

  method InitialKeys(clean: seq<Update>) returns (keys: map<string, string>)
    requires DistinctIds(clean)
    ensures KeysStart(clean, keys)
  {
    keys := map u | u in clean :: u.id := InitialKey(u);
  }

  method NumberOneMore(clean: seq<Update>, keys: map<string, string>, b: (string, string), ghost done: set<(string, string)>)
    returns (keys': map<string, string>)
    requires DistinctIds(clean) && KeysStart(clean, keys) && AllFit(clean, keys, done)
    requires b !in done && ':' !in b.1
    ensures KeysStart(clean, keys') && AllFit(clean, keys', done + {b})
  {
    BucketIs(clean, b.0, b.1);
    var items;
    keys', items := AssignBucket(keys, Bucket(clean, b.0, b.1), b.0, b.1);
    NumberingKeepsStart(clean, keys, items, b.0, b.1);
    NumberingFitsOneMore(clean, keys, items, b, done);
  }

  /** Every key, once the buckets are all numbered. */
  method AssignKeys(clean: seq<Update>) returns (keys: map<string, string>)
    requires DistinctIds(clean) && forall u :: u in clean ==> ':' !in u.day
    ensures KeysFit(clean, keys)
  {
    keys := InitialKeys(clean);
    var pending := LiveBuckets(clean);
    ghost var done := {};
    while pending != {}
      invariant done + pending == LiveBuckets(clean) && done !! pending
      invariant KeysStart(clean, keys) && AllFit(clean, keys, done)
      decreases pending
    {
      var b :| b in pending;
      keys := NumberOneMore(clean, keys, b, done);
      pending, done := pending - {b}, done + {b};
    }
    KeysAreFit(clean, keys);
  }

  function LiveBuckets(clean: seq<Update>): set<(string, string)> {
    set u | u in clean && Standalone(u) :: (u.author, u.day)
  }

  lemma KeysAreFit(clean: seq<Update>, keys: map<string, string>)
    requires KeysStart(clean, keys) && forall u :: u in clean ==> ':' !in u.day
    requires AllFit(clean, keys, LiveBuckets(clean))
    ensures KeysFit(clean, keys)
  {
    forall u | u in clean ensures KeyOk(keys, u) {
      BucketIs(clean, u.author, u.day);
    }
    forall u, v | u in clean && v in clean ensures keys[u.id] == keys[v.id] <==> SameEvent(clean, u, v) {
      if Standalone(u) && Standalone(v) {
        assert (u.author, u.day) in LiveBuckets(clean);
        LivePair(clean, keys, u, v);
      } else if Standalone(u) {
        MixedPair(keys, u, v);
      } else if Standalone(v) {
        MixedPair(keys, v, u);
      }
    }
  }

  lemma MixedPair(keys: map<string, string>, u: Update, v: Update)
    requires Standalone(u) && !Standalone(v) && KeyOk(keys, u) && KeyOk(keys, v)
    ensures keys[u.id] != keys[v.id]
  {
    var n: nat :| keys[u.id] == LiveKey(u.author, u.day, n);
    OtherKeys(v, u.author, u.day, n);
  }

  lemma LivePair(clean: seq<Update>, keys: map<string, string>, u: Update, v: Update)
    requires Standalone(u) && Standalone(v) && u in clean && v in clean && KeyOk(keys, u) && KeyOk(keys, v)
    requires ':' !in u.day && ':' !in v.day && BucketFits(clean, keys, u.author, u.day)
    ensures keys[u.id] == keys[v.id] <==> SameEvent(clean, u, v)
  {
    BucketIs(clean, u.author, u.day);
    var m: nat :| keys[u.id] == LiveKey(u.author, u.day, m);
    var n: nat :| keys[v.id] == LiveKey(v.author, v.day, n);
    if keys[u.id] == keys[v.id] {
      LiveKeyIsInjective(u.author, u.day, m, v.author, v.day, n);
    }
  }

  // ---------------------------------------------------------------- the groups

  function InKey(clean: seq<Update>, keys: map<string, string>, key: string): seq<Update> {
    if clean == [] then []
    else
      var last, rest := clean[|clean| - 1], InKey(clean[..|clean| - 1], keys, key);
      if last.id in keys && keys[last.id] == key then rest + [last] else rest
  }

  lemma {:induction false} InKeyIs(clean: seq<Update>, keys: map<string, string>, key: string)
    ensures forall u :: u in InKey(clean, keys, key) <==> u in clean && u.id in keys && keys[u.id] == key
    ensures DistinctIds(clean) ==> DistinctIds(InKey(clean, keys, key))
  {
    if clean != [] {
      var init := clean[..|clean| - 1];
      InKeyIs(init, keys, key);
      assert clean == init + [clean[|clean| - 1]];
      assert DistinctIds(clean) ==> forall u :: u in init ==> u.id != clean[|clean| - 1].id;
    }
  }

  /** Exactly the updates with the group's key, and the time of the first of them. */
  ghost predicate IsGroup(clean: seq<Update>, keys: map<string, string>, g: Group) {
    && g.members == InKey(clean, keys, g.key)
    && (exists u :: u in g.members && u.created == g.start)
    && forall u :: u in g.members ==> g.start <= u.created
  }

  predicate Precedes(g: Group, h: Group) {
    g.start < h.start || (g.start == h.start && Before(g.key, h.key))
  }

  ghost predicate Sorted(groups: seq<Group>) {
    forall i, j :: 0 <= i < j < |groups| ==> Precedes(groups[i], groups[j])
  }

  method StartOf(members: seq<Update>) returns (start: Time)
    requires members != []
    ensures (exists u :: u in members && u.created == start) && forall u :: u in members ==> start <= u.created
  {
    start := members[0].created;
    for i := 1 to |members|
      invariant exists k :: 0 <= k < i && members[k].created == start
      invariant forall k :: 0 <= k < i ==> start <= members[k].created
    {
      start := Min(start, members[i].created);
    }
  }

  lemma PrecedesTotal(g: Group, h: Group)
    requires g.key != h.key
    ensures Precedes(g, h) || Precedes(h, g)
  {
    BeforeTotal(g.key, h.key);
  }

  lemma PrecedesTransitive(g: Group, h: Group, k: Group)
    requires Precedes(g, h) && Precedes(h, k)
    ensures Precedes(g, k)
  {
    if g.start == h.start && h.start == k.start {
      BeforeTransitive(g.key, h.key, k.key);
    }
  }

  /** Inserts a group before the first one it precedes. */
  method Insert(groups: seq<Group>, g: Group) returns (longer: seq<Group>)
    requires Sorted(groups) && forall h :: h in groups ==> h.key != g.key
    ensures Sorted(longer) && forall h :: h in longer <==> h in groups || h == g
  {
    var i := 0;
    while i < |groups| && !Precedes(g, groups[i])
      invariant 0 <= i <= |groups| && forall k :: 0 <= k < i ==> Precedes(groups[k], g)
    {
      PrecedesTotal(g, groups[i]);
      i := i + 1;
    }
    longer := groups[..i] + [g] + groups[i..];
    InsertMembers(groups, i, g, longer);
    forall k | i <= k < |groups| ensures Precedes(g, groups[k]) {
      if i < k {
        PrecedesTransitive(g, groups[i], groups[k]);
      }
    }
    InsertSorted(groups, i, g, longer);
  }

  lemma InsertMembers(groups: seq<Group>, i: nat, g: Group, longer: seq<Group>)
    requires i <= |groups| && longer == groups[..i] + [g] + groups[i..]
    ensures forall h :: h in longer <==> h in groups || h == g
  {
    assert groups == groups[..i] + groups[i..];
  }

  lemma InsertSorted(groups: seq<Group>, i: nat, g: Group, longer: seq<Group>)
    requires i <= |groups| && longer == groups[..i] + [g] + groups[i..] && Sorted(groups)
    requires forall k :: 0 <= k < i ==> Precedes(groups[k], g)
    requires forall k :: i <= k < |groups| ==> Precedes(g, groups[k])
    ensures Sorted(longer)
  {
    assert forall k :: 0 <= k < |longer| ==> longer[k] == if k < i then groups[k] else if k == i then g else groups[k - 1];
  }

  /** Groups come by their first update; of those that begin together by key. */
  lemma EarlierGroupsFirst(groups: seq<Group>, i: nat, j: nat)
    requires Sorted(groups) && i < j < |groups|
    ensures groups[i].start < groups[j].start || (groups[i].start == groups[j].start && Before(groups[i].key, groups[j].key))
  {
    assert Precedes(groups[i], groups[j]);
  }

  /** The groups partition the chosen updates into events. */
  ghost predicate Partitioned(clean: seq<Update>, groups: seq<Group>) {
    && (forall g :: g in groups ==> WithinClean(clean, g))
    && (forall u :: u in clean ==> exists g :: g in groups && u in g.members)
    && forall g :: g in groups ==> IsEvent(clean, g)
  }

  ghost predicate WithinClean(clean: seq<Update>, g: Group) {
    g.members != [] && DistinctIds(g.members) && forall u :: u in g.members ==> u in clean
  }

  /** Whoever shares an event with a member is a member, and nobody else. */
  ghost predicate IsEvent(clean: seq<Update>, g: Group) {
    forall u, v :: u in g.members && v in clean ==> (v in g.members <==> SameEvent(clean, u, v))
  }

  lemma GroupIsEvent(clean: seq<Update>, keys: map<string, string>, g: Group)
    requires DistinctIds(clean) && KeysFit(clean, keys) && IsGroup(clean, keys, g)
    ensures WithinClean(clean, g) && IsEvent(clean, g)
    ensures forall u :: u in clean && keys[u.id] == g.key ==> u in g.members
  {
    InKeyIs(clean, keys, g.key);
  }

  method GroupFor(clean: seq<Update>, keys: map<string, string>, key: string) returns (g: Group)
    requires exists u :: u in clean && u.id in keys && keys[u.id] == key
    ensures g.key == key && IsGroup(clean, keys, g)
  {
    var members := InKey(clean, keys, key);
    InKeyIs(clean, keys, key);
    var start := StartOf(members);
    g := Group(key, start, members);
  }

  /** One group for every key, by start and key. */
  method GroupUp(clean: seq<Update>, keys: map<string, string>) returns (groups: seq<Group>)
    requires forall u :: u in clean ==> u.id in keys
    ensures Sorted(groups)
    ensures forall g :: g in groups ==> IsGroup(clean, keys, g)
    ensures forall u :: u in clean ==> exists g :: g in groups && g.key == keys[u.id]
  {
    groups := [];
    var pending := set u | u in clean :: keys[u.id];
    ghost var done := {};
    while pending != {}
      invariant done + pending == (set u | u in clean :: keys[u.id]) && done !! pending && Sorted(groups)
      invariant forall g :: g in groups ==> IsGroup(clean, keys, g) && g.key in done
      invariant forall k :: k in done ==> exists g :: g in groups && g.key == k
      decreases pending
    {
      var key :| key in pending;
      var g := GroupFor(clean, keys, key);
      ghost var before := groups;
      groups := Insert(groups, g);
      assert g in groups && forall h :: h in before ==> h in groups;
      pending, done := pending - {key}, done + {key};
    }
    forall u | u in clean ensures exists g :: g in groups && g.key == keys[u.id] {
      assert keys[u.id] in done;
    }
  }

  /** Groups the updates: the best version of each id, one group an event, in order of start and key. */
  method Organize(updates: seq<Update>) returns (groups: seq<Group>, ghost clean: seq<Update>)
    requires forall u :: u in updates ==> ':' !in u.day
    ensures DistinctIds(clean) && IdsOf(clean) == IdsOf(updates) && forall u :: u in clean ==> IsBest(updates, u)
    ensures Partitioned(clean, groups) && Sorted(groups)
    ensures forall g :: g in groups ==> (exists u :: u in g.members && u.created == g.start) && forall u :: u in g.members ==> g.start <= u.created
  {
    var chosen := Deduplicate(updates);
    clean := chosen;
    forall u | u in chosen ensures ':' !in u.day {
      assert IsBest(updates, u);
    }
    var keys := AssignKeys(chosen);
    groups := GroupUp(chosen, keys);
    forall g | g in groups ensures WithinClean(clean, g) && IsEvent(clean, g) {
      GroupIsEvent(clean, keys, g);
    }
    forall u | u in clean ensures exists g :: g in groups && u in g.members {
      var g :| g in groups && g.key == keys[u.id];
      GroupIsEvent(clean, keys, g);
    }
  }
}
