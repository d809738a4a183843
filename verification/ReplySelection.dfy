/**
 Selecting the updates of a dated request: for a live topic, the seed threads closed under explicit
 same-author replies, found by a worklist over a growing set; then one update per id, in publication order.
 */
module ReplySelection {
  import opened Common

  /** `live` and `birthday` say whether the update's text names them; `author` is case-folded. */
  datatype Update = Update(
    id: string, author: string, conversation: string, replyTo: string, created: Time, live: bool, birthday: bool)

  datatype Topic = All | Live | BirthdayLive

  type Key = (string, string)

  function KeyOf(u: Update): Key { (u.author, u.id) }

  predicate Seed(u: Update, topic: Topic) {
    u.live && (topic.BirthdayLive? ==> u.birthday)
  }

  predicate InSeedThread(updates: seq<Update>, topic: Topic, u: Update) {
    exists s :: s in updates && Seed(s, topic) && s.author == u.author && s.conversation == u.conversation
  }

  predicate RepliesTo(child: Update, parent: Key) {
    child.replyTo != "" && (child.author, child.replyTo) == parent
  }

  /** A chain of same-author replies that starts in a seed thread. */
  ghost predicate Chain(updates: seq<Update>, topic: Topic, p: seq<Update>) {
    && p != []
    && (forall i :: 0 <= i < |p| ==> p[i] in updates)
    && InSeedThread(updates, topic, p[0])
    && (forall i :: 0 <= i < |p| - 1 ==> RepliesTo(p[i + 1], KeyOf(p[i])))
  }

  ghost predicate ChainTo(updates: seq<Update>, topic: Topic, p: seq<Update>, k: Key) {
    Chain(updates, topic, p) && KeyOf(p[|p| - 1]) == k
  }

  ghost predicate Reachable(updates: seq<Update>, topic: Topic, k: Key) {
    exists p :: ChainTo(updates, topic, p, k)
  }

  /** Which updates the topic asks for. */
  ghost predicate Wanted(updates: seq<Update>, topic: Topic, u: Update) {
    u in updates && (topic.All? || Reachable(updates, topic, KeyOf(u)))
  }

  lemma ThreadReachable(updates: seq<Update>, topic: Topic, u: Update)
    requires u in updates && InSeedThread(updates, topic, u)
    ensures Reachable(updates, topic, KeyOf(u))
  {
    assert ChainTo(updates, topic, [u], KeyOf(u));
  }

  lemma ReplyReachable(updates: seq<Update>, topic: Topic, parent: Key, child: Update)
    requires child in updates && RepliesTo(child, parent) && Reachable(updates, topic, parent)
    ensures Reachable(updates, topic, KeyOf(child))
  {
    var p :| ChainTo(updates, topic, p, parent);
    var q := p + [child];
    forall i | 0 <= i < |q| - 1 ensures RepliesTo(q[i + 1], KeyOf(q[i])) {
      if i < |p| - 1 { assert q[i] == p[i] && q[i + 1] == p[i + 1]; }
    }
    assert ChainTo(updates, topic, q, KeyOf(child));
  }

  ghost predicate HoldsThreads(updates: seq<Update>, topic: Topic, included: set<Key>) {
    forall u {:trigger InSeedThread(updates, topic, u)} :: u in updates && InSeedThread(updates, topic, u) ==> KeyOf(u) in included
  }

  ghost predicate ClosedAt(updates: seq<Update>, included: set<Key>, visited: set<Key>) {
    forall u, k {:trigger RepliesTo(u, k)} :: u in updates && k in visited && RepliesTo(u, k) ==> KeyOf(u) in included
  }

  ghost predicate OnlyReachable(updates: seq<Update>, topic: Topic, included: set<Key>) {
    forall k :: k in included ==> Reachable(updates, topic, k)
  }

  function AllKeys(updates: seq<Update>): set<Key> {
    set u | u in updates :: KeyOf(u)
  }

  /** What the worklist keeps: only reachable keys, all threads, and every visited key has its replies. */
  ghost predicate Working(updates: seq<Update>, topic: Topic, included: set<Key>, queue: set<Key>) {
    && queue <= included <= AllKeys(updates)
    && HoldsThreads(updates, topic, included)
    && ClosedAt(updates, included, included - queue)
    && OnlyReachable(updates, topic, included)
  }

  /** A set that holds the seed threads and is closed under replies holds everything reachable. */
  lemma {:induction false} ClosedHoldsChain(updates: seq<Update>, topic: Topic, included: set<Key>, p: seq<Update>)
    requires Chain(updates, topic, p)
    requires HoldsThreads(updates, topic, included) && ClosedAt(updates, included, included)
    ensures KeyOf(p[|p| - 1]) in included
  {
    if |p| > 1 {
      var init := p[..|p| - 1];
      ClosedHoldsChain(updates, topic, included, init);
      assert RepliesTo(p[|p| - 2 + 1], KeyOf(p[|p| - 2]));
    }
  }

  lemma ClosedHoldsReachable(updates: seq<Update>, topic: Topic, included: set<Key>, k: Key)
    requires HoldsThreads(updates, topic, included) && ClosedAt(updates, included, included) && Reachable(updates, topic, k)
    ensures k in included
  {
    var p :| ChainTo(updates, topic, p, k);
    ClosedHoldsChain(updates, topic, included, p);
  }

  method SeedKeys(updates: seq<Update>, topic: Topic) returns (keys: set<Key>)
    ensures Working(updates, topic, keys, keys)
  {
    keys := set u | u in updates && InSeedThread(updates, topic, u) :: KeyOf(u);
    forall k | k in keys ensures Reachable(updates, topic, k) {
      var u :| u in updates && InSeedThread(updates, topic, u) && KeyOf(u) == k;
      ThreadReachable(updates, topic, u);
    }
  }

  /** The worklist: exactly the reachable keys, on any graph of replies, cyclic or not. */
  method Closure(updates: seq<Update>, topic: Topic) returns (included: set<Key>)
    ensures forall k :: k in included <==> Reachable(updates, topic, k)
  {
    included := SeedKeys(updates, topic);
    var queue := included;
    while queue != {}
      invariant Working(updates, topic, included, queue)
      decreases AllKeys(updates) - included, queue
    {
      included, queue := VisitNext(updates, topic, included, queue);
    }
    DoneIsClosed(updates, topic, included);
  }

  /** With nothing left in the queue the set is exactly what is reachable. */
  lemma DoneIsClosed(updates: seq<Update>, topic: Topic, included: set<Key>)
    requires Working(updates, topic, included, {})
    ensures forall k :: k in included <==> Reachable(updates, topic, k)
  {
    assert included - {} == included;
    forall k | Reachable(updates, topic, k) ensures k in included {
      ClosedHoldsReachable(updates, topic, included, k);
    }
  }

  method VisitNext(updates: seq<Update>, topic: Topic, seen: set<Key>, waiting: set<Key>) returns (included: set<Key>, queue: set<Key>)
    requires Working(updates, topic, seen, waiting) && waiting != {}
    ensures Working(updates, topic, included, queue)
    ensures (included == seen && queue < waiting) || AllKeys(updates) - included < AllKeys(updates) - seen
  {
    var parent :| parent in waiting;
    included, queue := VisitReplies(updates, topic, parent, seen, waiting);
  }

  /** Takes one key off the queue and adds its unseen replies to the set and to the queue. */
  method VisitReplies(updates: seq<Update>, topic: Topic, parent: Key, seen: set<Key>, waiting: set<Key>)
    returns (included: set<Key>, queue: set<Key>)
    requires Working(updates, topic, seen, waiting) && parent in waiting
    ensures Working(updates, topic, included, queue)
    ensures (included == seen && queue < waiting) || AllKeys(updates) - included < AllKeys(updates) - seen
  {
    var added := NewReplies(updates, topic, parent, seen);
    included, queue := seen + added, waiting - {parent} + added;
    assert included - queue == seen - waiting + {parent};
    VisitedIsClosed(updates, parent, seen, waiting, included, queue);
    if added != {} {
      FewerLeft(AllKeys(updates), seen, included);
    }
  }

  /** The keys of the unseen replies to a key. */
  method NewReplies(updates: seq<Update>, topic: Topic, parent: Key, seen: set<Key>) returns (added: set<Key>)
    requires Reachable(updates, topic, parent)
    ensures added !! seen && added <= AllKeys(updates) && OnlyReachable(updates, topic, added)
    ensures forall j :: 0 <= j < |updates| && RepliesTo(updates[j], parent) ==> KeyOf(updates[j]) in seen + added
  {
    added := {};
    for i := 0 to |updates|
      invariant added !! seen && added <= AllKeys(updates) && OnlyReachable(updates, topic, added)
      invariant forall j :: 0 <= j < i && RepliesTo(updates[j], parent) ==> KeyOf(updates[j]) in seen + added
    {
      var reply := updates[i];
      if RepliesTo(reply, parent) && KeyOf(reply) !in seen {
        ReplyReachable(updates, topic, parent, reply);
        added := added + {KeyOf(reply)};
      }
    }
  }

  lemma FewerLeft(all: set<Key>, seen: set<Key>, included: set<Key>)
    requires seen <= included <= all && included != seen
    ensures all - included < all - seen
  {
    var k :| k in included && k !in seen;
    assert k in all - seen && k !in all - included;
  }

  lemma VisitedIsClosed(updates: seq<Update>, parent: Key, seen: set<Key>, waiting: set<Key>, included: set<Key>, queue: set<Key>)
    requires ClosedAt(updates, seen, seen - waiting) && seen <= included
    requires included - queue == seen - waiting + {parent}
    requires forall j :: 0 <= j < |updates| && RepliesTo(updates[j], parent) ==> KeyOf(updates[j]) in included
    ensures ClosedAt(updates, included, included - queue)
  {
  }

  // ---------------------------------------------------------------- one per id, in order

  predicate Earlier(u: Update, v: Update) {
    u.created < v.created || (u.created == v.created && Before(u.id, v.id))
  }

  ghost predicate Sorted(s: seq<Update>) {
    forall i, j :: 0 <= i < j < |s| ==> Earlier(s[i], s[j])
  }

  lemma EarlierTransitive(u: Update, v: Update, w: Update)
    requires Earlier(u, v) && Earlier(v, w)
    ensures Earlier(u, w)
  {
    if u.created == v.created == w.created { BeforeTransitive(u.id, v.id, w.id); }
  }

  /** The last update with each id. */
  function ById(s: seq<Update>): map<string, Update> {
    if s == [] then map[] else ById(s[..|s| - 1])[s[|s| - 1].id := s[|s| - 1]]
  }

  lemma {:induction false} ByIdHolds(s: seq<Update>)
    ensures forall id :: id in ById(s) ==> ById(s)[id] in s && ById(s)[id].id == id
    ensures forall u :: u in s ==> u.id in ById(s)
  {
    if s != [] {
      ByIdHolds(s[..|s| - 1]);
      assert s == s[..|s| - 1] + [s[|s| - 1]];
    }
  }

  /** Puts an update of a new id in its place. */
  method Insert(s: seq<Update>, u: Update) returns (r: seq<Update>)
    requires Sorted(s) && forall v :: v in s ==> v.id != u.id
    ensures Sorted(r) && forall v :: v in r <==> v in s || v == u
  {
    var i := 0;
    while i < |s| && Earlier(s[i], u)
      invariant 0 <= i <= |s|
      invariant forall k :: 0 <= k < i ==> Earlier(s[k], u)
    {
      i := i + 1;
    }
    r := s[..i] + [u] + s[i..];
    assert s == s[..i] + s[i..];
    if i < |s| {
      BeforeTotal(s[i].id, u.id);
      forall k | i < k < |s| ensures Earlier(u, s[k]) {
        EarlierTransitive(u, s[i], s[k]);
      }
    }
    InsertedSorted(s, i, u);
  }

  lemma InsertedSorted(s: seq<Update>, i: nat, u: Update)
    requires Sorted(s) && i <= |s|
    requires forall k :: 0 <= k < i ==> Earlier(s[k], u)
    requires forall k :: i <= k < |s| ==> Earlier(u, s[k])
    ensures Sorted(s[..i] + [u] + s[i..])
  {
    var r := s[..i] + [u] + s[i..];
    assert forall k :: 0 <= k < |r| ==> r[k] == if k < i then s[k] else if k == i then u else s[k - 1];
  }

  /** The selection: wanted updates, one per id (the last of its id), sorted by date then id. */
  method Select(updates: seq<Update>, topic: Topic) returns (selected: seq<Update>, ghost included: set<Key>, ghost wanted: seq<Update>)
    ensures forall k :: k in included <==> Reachable(updates, topic, k)
    ensures wanted == if topic.All? then updates else KeptIn(updates, included)
    ensures forall u :: u in wanted <==> Wanted(updates, topic, u)
    ensures Sorted(selected)
    ensures forall i, j :: 0 <= i < j < |selected| ==> selected[i].id != selected[j].id
    ensures forall u :: u in selected <==> u.id in ById(wanted) && ById(wanted)[u.id] == u
  {
    var kept := updates;
    var keys := Closure(updates, topic);
    if !topic.All? {
      kept := Filter(updates, keys);
      KeptInHolds(updates, keys);
    }
    included, wanted := keys, kept;
    var byId := map[];
    for i := 0 to |kept|
      invariant byId == ById(kept[..i])
    {
      assert kept[..i + 1][..i] == kept[..i];
      byId := byId[kept[i].id := kept[i]];
    }
    assert kept[..|kept|] == kept;
    ByIdHolds(kept);
    selected := [];
    var ids := byId.Keys;
    while ids != {}
      invariant ids <= byId.Keys
      invariant Sorted(selected)
      invariant forall u :: u in selected <==> u.id in byId && u.id !in ids && byId[u.id] == u
      decreases ids
    {
      var id :| id in ids;
      ids := ids - {id};
      selected := Insert(selected, byId[id]);
    }
    forall i, j | 0 <= i < j < |selected| ensures selected[i].id != selected[j].id {
      assert Earlier(selected[i], selected[j]);
      BeforeTotal(selected[i].id, selected[j].id);
      assert selected[i] in selected && selected[j] in selected;
    }
  }

  function KeptIn(updates: seq<Update>, included: set<Key>): seq<Update> {
    if updates == [] then []
    else
      var last := updates[|updates| - 1];
      KeptIn(updates[..|updates| - 1], included) + (if KeyOf(last) in included then [last] else [])
  }

  lemma {:induction false} KeptInHolds(updates: seq<Update>, included: set<Key>)
    ensures forall u :: u in KeptIn(updates, included) <==> u in updates && KeyOf(u) in included
  {
    if updates != [] {
      KeptInHolds(updates[..|updates| - 1], included);
      assert updates == updates[..|updates| - 1] + [updates[|updates| - 1]];
    }
  }

  method Filter(updates: seq<Update>, included: set<Key>) returns (kept: seq<Update>)
    ensures kept == KeptIn(updates, included)
  {
    kept := [];
    for i := 0 to |updates|
      invariant kept == KeptIn(updates[..i], included)
    {
      assert updates[..i + 1][..i] == updates[..i];
      if KeyOf(updates[i]) in included {
        kept := kept + [updates[i]];
      }
    }
    assert updates[..|updates|] == updates;
  }

  /** The ids selected are exactly the ids of wanted updates. */
  lemma SelectedIdsAreWanted(updates: seq<Update>, topic: Topic, selected: seq<Update>, wanted: seq<Update>, id: string)
    requires forall u :: u in wanted <==> Wanted(updates, topic, u)
    requires forall u :: u in selected <==> u.id in ById(wanted) && ById(wanted)[u.id] == u
    ensures (exists u :: u in selected && u.id == id) <==> (exists u :: Wanted(updates, topic, u) && u.id == id)
  {
    ByIdHolds(wanted);
    if exists u :: Wanted(updates, topic, u) && u.id == id {
      var u :| Wanted(updates, topic, u) && u.id == id;
      assert u in wanted;
      assert ById(wanted)[id] in selected;
    }
  }

  /** Replies never lead to another author: everything reachable is by the author of a seed. */
  lemma {:induction false} ChainKeepsAuthor(updates: seq<Update>, topic: Topic, p: seq<Update>)
    requires Chain(updates, topic, p)
    ensures exists s :: s in updates && Seed(s, topic) && s.author == p[|p| - 1].author
  {
    if |p| > 1 {
      ChainKeepsAuthor(updates, topic, p[..|p| - 1]);
      assert RepliesTo(p[|p| - 2 + 1], KeyOf(p[|p| - 2]));
    }
  }

  /** For a live topic, what is wanted goes back, by replies of one author, to a thread in which that author names the topic. */
  lemma WantedGoesBack(updates: seq<Update>, topic: Topic, u: Update) returns (p: seq<Update>, seed: Update)
    requires Wanted(updates, topic, u) && !topic.All?
    ensures p != [] && p[|p| - 1].id == u.id && forall i :: 0 <= i < |p| ==> p[i] in updates && p[i].author == u.author
    ensures forall i :: 0 < i < |p| ==> p[i].replyTo != "" && p[i].replyTo == p[i - 1].id
    ensures seed in updates && seed.author == u.author && seed.conversation == p[0].conversation && seed.live
    ensures topic.BirthdayLive? ==> seed.birthday
  {
    p :| ChainTo(updates, topic, p, KeyOf(u));
    seed :| seed in updates && Seed(seed, topic) && seed.author == p[0].author && seed.conversation == p[0].conversation;
    forall i | 0 < i < |p| ensures p[i].replyTo != "" && p[i].replyTo == p[i - 1].id {
      assert RepliesTo(p[i - 1 + 1], KeyOf(p[i - 1]));
    }
    OneAuthor(updates, topic, p, |p| - 1);
    forall i | 0 <= i < |p| ensures p[i].author == u.author {
      OneAuthor(updates, topic, p, i);
    }
  }

  lemma {:induction false} OneAuthor(updates: seq<Update>, topic: Topic, p: seq<Update>, i: nat)
    requires Chain(updates, topic, p) && i < |p|
    ensures p[i].author == p[0].author
  {
    if i > 0 {
      OneAuthor(updates, topic, p, i - 1);
      assert RepliesTo(p[i - 1 + 1], KeyOf(p[i - 1]));
    }
  }
}
