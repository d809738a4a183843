/**
 The persisted packages: updates grouped by segment, and a store in which a package gives way to any later one
 that holds one of its updates. Incoming updates are in order of creation and id.
 */
module PackageStore {
  import opened Common

  const CAP := 2000

  /** The segment an update belongs to; a membership lacking either part counts as none. */
  datatype Membership = Membership(event: string, segment: string)

  datatype Key = InSegment(event: string, segment: string) | Standalone(id: string)

  /** The hash of a package's context and its members, empty ids aside. */
  datatype PackageId = PackageId(segment: bool, context: string, members: set<string>)

  datatype Group = Group(key: Key, members: seq<string>)

  datatype Package = Package(id: PackageId, members: seq<string>)

  function KeyOf(id: string, memberships: map<string, Membership>): Key {
    if id in memberships && memberships[id].segment != "" && memberships[id].event != ""
    then InSegment(memberships[id].event, memberships[id].segment) else Standalone(id)
  }

  // ---------------------------------------------------------------- grouping

  function WithMember(groups: seq<Group>, key: Key, id: string): seq<Group> {
    if groups == [] then [Group(key, [id])]
    else if groups[0].key == key then [Group(key, groups[0].members + [id])] + groups[1..]
    else [groups[0]] + WithMember(groups[1..], key, id)
  }

  function Grouped(incoming: seq<string>, memberships: map<string, Membership>): seq<Group> {
    if incoming == [] then []
    else
      var id := incoming[|incoming| - 1];
      WithMember(Grouped(incoming[..|incoming| - 1], memberships), KeyOf(id, memberships), id)
  }

  ghost predicate DistinctKeys(groups: seq<Group>) {
    forall i, j :: 0 <= i < j < |groups| ==> groups[i].key != groups[j].key
  }

  ghost predicate Holds(groups: seq<Group>, key: Key, id: string) {
    exists g :: g in groups && g.key == key && id in g.members
  }

  lemma {:induction false} WithMemberIs(groups: seq<Group>, key: Key, id: string)
    requires DistinctKeys(groups)
    ensures DistinctKeys(WithMember(groups, key, id))
    ensures forall g :: g in WithMember(groups, key, id) ==> g.key == key || g in groups
    ensures forall k, x :: Holds(WithMember(groups, key, id), k, x) <==> Holds(groups, k, x) || (k == key && x == id)
  {
    if groups == [] {
      assert WithMember(groups, key, id) == [Group(key, [id])];
    } else if groups[0].key == key {
      assert WithMember(groups, key, id)[1..] == groups[1..];
    } else {
      WithMemberIs(groups[1..], key, id);
      assert WithMember(groups, key, id)[1..] == WithMember(groups[1..], key, id);
    }
    forall k, x ensures Holds(WithMember(groups, key, id), k, x) <==> Holds(groups, k, x) || (k == key && x == id) {
      HoldsFirst(WithMember(groups, key, id), k, x);
      if groups != [] {
        HoldsFirst(groups, k, x);
      }
    }
  }

  lemma HoldsFirst(groups: seq<Group>, key: Key, id: string)
    requires groups != []
    ensures Holds(groups, key, id) <==> (groups[0].key == key && id in groups[0].members) || Holds(groups[1..], key, id)
  {
    assert forall g :: g in groups <==> g == groups[0] || g in groups[1..];
  }

  /** An incoming id is in the group of its own key, and in no other. */
  lemma {:induction false} GroupedIs(incoming: seq<string>, memberships: map<string, Membership>)
    ensures DistinctKeys(Grouped(incoming, memberships))
    ensures forall k, x :: Holds(Grouped(incoming, memberships), k, x) <==> x in incoming && k == KeyOf(x, memberships)
  {
    if incoming != [] {
      var init, id := incoming[..|incoming| - 1], incoming[|incoming| - 1];
      GroupedIs(init, memberships);
      WithMemberIs(Grouped(init, memberships), KeyOf(id, memberships), id);
      assert incoming == init + [id];
    }
  }

  lemma {:induction false} GroupsHaveMembers(incoming: seq<string>, memberships: map<string, Membership>)
    ensures forall g :: g in Grouped(incoming, memberships) ==> g.members != []
  {
    if incoming != [] {
      var init, id := incoming[..|incoming| - 1], incoming[|incoming| - 1];
      GroupsHaveMembers(init, memberships);
      NewMembers(Grouped(init, memberships), KeyOf(id, memberships), id);
    }
  }

  lemma {:induction false} NewMembers(groups: seq<Group>, key: Key, id: string)
    requires forall g :: g in groups ==> g.members != []
    ensures forall g :: g in WithMember(groups, key, id) ==> g.members != []
  {
    if groups != [] && groups[0].key != key {
      NewMembers(groups[1..], key, id);
    }
  }

  // ---------------------------------------------------------------- packages

  /** Planning raises an error when a package would have no canonical id. */
  predicate Packable(g: Group) {
    exists id :: id in g.members && id != ""
  }

  function PackageOf(g: Group): Package
    requires g.members != []
  {
    var context := if g.key.InSegment? then g.key.segment else g.members[0];
    Package(PackageId(g.key.InSegment?, context, Elements(g.members) - {""}), g.members)
  }

  function PackagesOf(groups: seq<Group>): (packages: seq<Package>)
    requires forall g :: g in groups ==> g.members != []
  {
    seq(|groups|, i requires 0 <= i < |groups| => PackageOf(groups[i]))
  }

  predicate Touches(p: Package, ids: set<string>) {
    exists id :: id in p.members && id in ids
  }

  function Retained(packages: seq<Package>, ids: set<string>): seq<Package> {
    if packages == [] then []
    else
      var last, rest := packages[|packages| - 1], Retained(packages[..|packages| - 1], ids);
      if Touches(last, ids) then rest else rest + [last]
  }

  lemma {:induction false} RetainedIs(packages: seq<Package>, ids: set<string>)
    ensures forall p :: p in Retained(packages, ids) <==> p in packages && !Touches(p, ids)
  {
    if packages != [] {
      var init := packages[..|packages| - 1];
      RetainedIs(init, ids);
      assert packages == init + [packages[|packages| - 1]];
    }
  }

  lemma {:induction false} RetainedIsDisjoint(packages: seq<Package>, ids: set<string>)
    requires Disjoint(packages)
    ensures Disjoint(Retained(packages, ids))
  {
    if packages != [] {
      var init, last := packages[..|packages| - 1], packages[|packages| - 1];
      RetainedIsDisjoint(init, ids);
      RetainedIs(init, ids);
      var rest := Retained(init, ids);
      forall i | 0 <= i < |rest| ensures Apart(rest[i], last) {
        assert rest[i] in init;
        var k :| 0 <= k < |init| && init[k] == rest[i];
        assert Apart(packages[k], packages[|packages| - 1]);
      }
    }
  }

  predicate Apart(p: Package, q: Package) {
    forall id :: id in p.members ==> id !in q.members
  }

  /** No update is in two packages. */
  ghost predicate Disjoint(packages: seq<Package>) {
    forall i, j :: 0 <= i < j < |packages| ==> Apart(packages[i], packages[j])
  }

  function Latest(packages: seq<Package>): seq<Package> {
    if |packages| > CAP then packages[|packages| - CAP..] else packages
  }

  ghost predicate Packaged(packages: seq<Package>, id: string) {
    exists p :: p in packages && id in p.members
  }

  /** What one call of the planner brings: who came in, and who belonged to which segment at that time. */
  datatype Call = Call(incoming: seq<string>, memberships: map<string, Membership>, persist: bool)

  predicate Fails(call: Call) {
    exists g :: g in Grouped(call.incoming, call.memberships) && !Packable(g)
  }

  function Fresh(call: Call): seq<Package> {
    GroupsHaveMembers(call.incoming, call.memberships);
    PackagesOf(Grouped(call.incoming, call.memberships))
  }

  /** The packages before old ones beyond the cap are evicted. */
  function Joined(packages: seq<Package>, call: Call): seq<Package> {
    Retained(packages, Elements(call.incoming)) + Fresh(call)
  }

  function After(packages: seq<Package>, call: Call): seq<Package> {
    if Fails(call) || !call.persist then packages else Latest(Joined(packages, call))
  }

  function Run(calls: seq<Call>): seq<Package> {
    if calls == [] then [] else After(Run(calls[..|calls| - 1]), calls[|calls| - 1])
  }

  // ---------------------------------------------------------------- the store

  class Store {
    var packages: seq<Package>

    constructor ()
      ensures packages == []
    {
      packages := [];
    }

    /** Packages the incoming updates; persisting them drops every package that shares an update with them. */
    method Plan(call: Call) returns (planned: Option<seq<Package>>)
      modifies this
      ensures planned == if Fails(call) then None else Some(Fresh(call))
      ensures packages == After(old(packages), call)
    {
      var groups := GroupUp(call.incoming, call.memberships);
      GroupsHaveMembers(call.incoming, call.memberships);
      planned := PackAll(groups);
      if planned.Some? && call.persist {
        var kept := KeepUntouched(Elements(call.incoming));
        packages := Latest(kept + planned.value);
      }
    }

    /** The packages of the groups, or none when one of them cannot be packed. */
    method PackAll(groups: seq<Group>) returns (planned: Option<seq<Package>>)
      requires forall g :: g in groups ==> g.members != []
      ensures planned == if exists g :: g in groups && !Packable(g) then None else Some(PackagesOf(groups))
    {
      var all := [];
      for i := 0 to |groups|
        invariant all == PackagesOf(groups[..i])
        invariant forall k :: 0 <= k < i ==> Packable(groups[k])
      {
        if !Packable(groups[i]) {
          return None;
        }
        all := all + [PackageOf(groups[i])];
      }
      assert groups[..|groups|] == groups;
      planned := Some(all);
    }

    method GroupUp(incoming: seq<string>, memberships: map<string, Membership>) returns (groups: seq<Group>)
      ensures groups == Grouped(incoming, memberships)
    {
      groups := [];
      for i := 0 to |incoming|
        invariant groups == Grouped(incoming[..i], memberships)
      {
        assert incoming[..i + 1][..i] == incoming[..i];
        groups := WithMember(groups, KeyOf(incoming[i], memberships), incoming[i]);
      }
      assert incoming[..|incoming|] == incoming;
    }

    method KeepUntouched(ids: set<string>) returns (kept: seq<Package>)
      ensures kept == Retained(packages, ids)
    {
      kept := [];
      for i := 0 to |packages|
        invariant kept == Retained(packages[..i], ids)
      {
        assert packages[..i + 1][..i] == packages[..i];
        if !Touches(packages[i], ids) {
          kept := kept + [packages[i]];
        }
      }
      assert packages[..|packages|] == packages;
    }
  }

  // ---------------------------------------------------------------- what the store keeps

  /** The fresh packages hold exactly the incoming updates, no update twice. */
  lemma FreshAre(call: Call)
    ensures Disjoint(Fresh(call))
    ensures forall id :: Packaged(Fresh(call), id) <==> id in call.incoming
  {
    GroupsHaveMembers(call.incoming, call.memberships);
    forall i, j | 0 <= i < j < |Fresh(call)| ensures Apart(Fresh(call)[i], Fresh(call)[j]) {
      GroupsApart(call.incoming, call.memberships, i, j);
    }
    forall id ensures Packaged(Fresh(call), id) <==> id in call.incoming {
      FreshHolds(call, id);
    }
  }

  lemma MemberHeld(groups: seq<Group>, i: nat, id: string)
    requires i < |groups| && id in groups[i].members
    ensures Holds(groups, groups[i].key, id)
  {
  }

  lemma GroupsApart(incoming: seq<string>, memberships: map<string, Membership>, i: nat, j: nat)
    requires i < j < |Grouped(incoming, memberships)|
    ensures var groups := Grouped(incoming, memberships); forall id :: id in groups[i].members ==> id !in groups[j].members
  {
    var groups := Grouped(incoming, memberships);
    GroupedIs(incoming, memberships);
    forall id | id in groups[i].members ensures id !in groups[j].members {
      MemberHeld(groups, i, id);
      if id in groups[j].members {
        MemberHeld(groups, j, id);
        assert false;
      }
    }
  }

  lemma FreshHolds(call: Call, id: string)
    ensures Packaged(Fresh(call), id) <==> id in call.incoming
  {
    var groups := Grouped(call.incoming, call.memberships);
    GroupedIs(call.incoming, call.memberships);
    GroupsHaveMembers(call.incoming, call.memberships);
    if id in call.incoming {
      assert Holds(groups, KeyOf(id, call.memberships), id);
      var i :| 0 <= i < |groups| && id in groups[i].members;
      assert Fresh(call)[i] == PackageOf(groups[i]);
    }
    if Packaged(Fresh(call), id) {
      var i :| 0 <= i < |groups| && id in Fresh(call)[i].members;
      MemberHeld(groups, i, id);
    }
  }

  lemma JoinedIsDisjoint(packages: seq<Package>, call: Call)
    requires Disjoint(packages)
    ensures Disjoint(Joined(packages, call))
  {
    var kept, added := Retained(packages, Elements(call.incoming)), Fresh(call);
    RetainedIs(packages, Elements(call.incoming));
    RetainedIsDisjoint(packages, Elements(call.incoming));
    FreshAre(call);
    forall p, q | p in kept && q in added ensures Apart(p, q) {
      forall id | id in p.members ensures id !in q.members {
        assert id in q.members ==> Packaged(added, id);
      }
    }
  }

  /** Persisting keeps packages disjoint, whatever the memberships are by now. */
  lemma AfterIsDisjoint(packages: seq<Package>, call: Call)
    requires Disjoint(packages)
    ensures Disjoint(After(packages, call))
  {
    JoinedIsDisjoint(packages, call);
  }

  /** Over any calls with any memberships, no update is ever in two persisted packages, and the cap holds. */
  lemma {:induction false} RunIsDisjoint(calls: seq<Call>)
    ensures Disjoint(Run(calls)) && |Run(calls)| <= 2000
  {
    if calls != [] {
      RunIsDisjoint(calls[..|calls| - 1]);
      AfterIsDisjoint(Run(calls[..|calls| - 1]), calls[|calls| - 1]);
    }
  }

  /**
   A persisting call leaves every incoming update packaged exactly when the fresh packages fit the cap; and every
   untouched package in place when all of them do.
   */
  lemma IncomingArePackagedIff(packages: seq<Package>, call: Call)
    requires call.persist && !Fails(call)
    ensures (forall id :: id in call.incoming ==> Packaged(After(packages, call), id)) <==> |Fresh(call)| <= 2000
    ensures |Joined(packages, call)| <= 2000 ==>
      forall p :: p in packages && !Touches(p, Elements(call.incoming)) ==> p in After(packages, call)
  {
    FreshAre(call);
    RetainedIs(packages, Elements(call.incoming));
    if |Fresh(call)| <= CAP {
      forall id | id in call.incoming ensures Packaged(After(packages, call), id) {
        var p :| p in Fresh(call) && id in p.members;
        FreshSurvive(packages, call, p);
      }
    } else {
      FirstFreshGoes(packages, call);
    }
  }

  lemma FreshSurvive(packages: seq<Package>, call: Call, p: Package)
    requires call.persist && !Fails(call) && |Fresh(call)| <= CAP && p in Fresh(call)
    ensures p in After(packages, call)
  {
    var kept, all := Retained(packages, Elements(call.incoming)), Joined(packages, call);
    var k :| 0 <= k < |Fresh(call)| && Fresh(call)[k] == p;
    assert all[|kept| + k] == p;
    if |all| > CAP {
      assert Latest(all)[|kept| + k - (|all| - CAP)] == p;
    }
  }

  /** With more fresh packages than fit, the first one's updates are in none. */
  lemma FirstFreshGoes(packages: seq<Package>, call: Call)
    requires call.persist && !Fails(call) && |Fresh(call)| > CAP
    ensures exists id :: id in call.incoming && !Packaged(After(packages, call), id)
  {
    var fresh', all := Fresh(call), Joined(packages, call);
    FreshAre(call);
    FreshAreIdentified(call);
    assert fresh'[0] in fresh' && Identified(fresh'[0]);
    var id :| id in fresh'[0].id.members;
    assert id in fresh'[0].members && Packaged(fresh', id);
    LatestAreLast(Retained(packages, Elements(call.incoming)), fresh', id);
  }

  lemma LatestAreLast(kept: seq<Package>, fresh': seq<Package>, id: string)
    requires |fresh'| > CAP && Disjoint(fresh') && id in fresh'[0].members
    ensures !Packaged(Latest(kept + fresh'), id)
  {
    LatestOfMany(kept, fresh');
    var last := fresh'[|fresh'| - CAP..];
    forall i | 0 <= i < |last| ensures id !in last[i].members {
      assert Apart(fresh'[0], fresh'[|fresh'| - CAP + i]);
    }
  }

  lemma LatestOfMany(kept: seq<Package>, fresh': seq<Package>)
    requires |fresh'| > CAP
    ensures Latest(kept + fresh') == fresh'[|fresh'| - CAP..]
  {
  }

  /**
   An update already packaged stays packaged, below the cap, exactly when it comes in again or no update of its
   package does: a package that gives way takes along the members that did not come in.
   */
  lemma StaysPackagedIff(packages: seq<Package>, call: Call, p: Package, id: string)
    requires Disjoint(packages) && p in packages && id in p.members
    requires call.persist && !Fails(call) && |Joined(packages, call)| <= CAP
    ensures Packaged(After(packages, call), id) <==> id in call.incoming || !Touches(p, Elements(call.incoming))
  {
    IncomingArePackagedIff(packages, call);
    FreshAre(call);
    RetainedIs(packages, Elements(call.incoming));
    if Packaged(After(packages, call), id) && id !in call.incoming {
      var q :| q in After(packages, call) && id in q.members;
      assert q in Fresh(call) ==> Packaged(Fresh(call), id);
      assert q in packages;
      SamePackage(packages, p, q, id);
    }
  }

  lemma SamePackage(packages: seq<Package>, p: Package, q: Package, id: string)
    requires Disjoint(packages) && p in packages && q in packages && id in p.members && id in q.members
    ensures p == q
  {
    var i :| 0 <= i < |packages| && packages[i] == p;
    var j :| 0 <= j < |packages| && packages[j] == q;
  }

  /** A package of two segment members is lost for the one that does not come in again. */
  lemma LeftBehind() returns (first: Call, second: Call)
    ensures Packaged(Run([first]), "b") && !Packaged(Run([first, second]), "b")
  {
    var segment := Membership("e", "s");
    first := Call(["a", "b"], map["a" := segment, "b" := segment], true);
    second := Call(["a"], map["a" := segment, "b" := segment], true);
    GroupsOfTwo(first);
    GroupsOfOne(second);
    OnlyCall(first);
    var p := PackageOf(Group(InSegment("e", "s"), ["a", "b"]));
    assert Run([first]) == [p] && "a" in p.members && "b" in p.members;
    assert Touches(p, Elements(second.incoming));
    assert [first, second][..1] == [first];
    assert Retained([p], Elements(second.incoming)) == [];
    assert Joined([p], second) == Fresh(second) && |Fresh(second)| == 1;
    StaysPackagedIff([p], second, p, "b");
  }

  lemma OnlyCall(call: Call)
    requires call.persist && !Fails(call) && |Fresh(call)| <= CAP
    ensures Run([call]) == Fresh(call)
  {
    assert [call][..0] == [];
    assert Joined([], call) == Fresh(call);
  }

  lemma GroupsOfTwo(call: Call)
    requires call.incoming == ["a", "b"] && call.memberships == map["a" := Membership("e", "s"), "b" := Membership("e", "s")]
    ensures Grouped(call.incoming, call.memberships) == [Group(InSegment("e", "s"), ["a", "b"])] && !Fails(call)
  {
    var key := InSegment("e", "s");
    GroupsOfOne(call.(incoming := ["a"]));
    assert call.incoming[..1] == ["a"];
    assert Grouped(call.incoming, call.memberships) == WithMember(Grouped(["a"], call.memberships), KeyOf("b", call.memberships), "b");
    assert WithMember([Group(key, ["a"])], key, "b") == [Group(key, ["a"] + ["b"])];
    assert ["a"] + ["b"] == ["a", "b"];
    assert "a" in Group(key, ["a", "b"]).members;
  }

  lemma GroupsOfOne(call: Call)
    requires call.incoming == ["a"] && call.memberships == map["a" := Membership("e", "s"), "b" := Membership("e", "s")]
    ensures Grouped(call.incoming, call.memberships) == [Group(InSegment("e", "s"), ["a"])] && !Fails(call)
  {
    assert ["a"][..0] == [];
    assert "a" in Group(InSegment("e", "s"), ["a"]).members;
  }

  // ---------------------------------------------------------------- package ids

  /** A package's id tells its members, and there is at least one. */
  ghost predicate Identified(p: Package) {
    p.id.members == Elements(p.members) - {""} && p.id.members != {}
  }

  ghost predicate AllIdentified(packages: seq<Package>) {
    forall p :: p in packages ==> Identified(p)
  }

  /** Ids never clash, so keeping packages in a table by id loses none of them. */
  lemma IdsAreDistinct(packages: seq<Package>)
    requires Disjoint(packages) && AllIdentified(packages)
    ensures forall i, j :: 0 <= i < j < |packages| ==> packages[i].id != packages[j].id
  {
    forall i, j | 0 <= i < j < |packages| ensures packages[i].id != packages[j].id {
      assert Identified(packages[i]) && Identified(packages[j]) && Apart(packages[i], packages[j]);
      var id :| id in packages[i].id.members;
      assert id in packages[i].members && id !in packages[j].members;
    }
  }

  lemma FreshAreIdentified(call: Call)
    requires !Fails(call)
    ensures AllIdentified(Fresh(call))
  {
    var groups := Grouped(call.incoming, call.memberships);
    GroupsHaveMembers(call.incoming, call.memberships);
    forall i | 0 <= i < |groups| ensures Identified(PackageOf(groups[i])) {
      assert groups[i] in groups && Packable(groups[i]);
      var id :| id in groups[i].members && id != "";
      assert id in PackageOf(groups[i]).id.members;
    }
  }

  /** Over any calls, the table of packages by id holds each of them. */
  lemma {:induction false} RunIdsAreDistinct(calls: seq<Call>)
    ensures AllIdentified(Run(calls))
    ensures forall i, j :: 0 <= i < j < |Run(calls)| ==> Run(calls)[i].id != Run(calls)[j].id
  {
    if calls != [] {
      var before, call := Run(calls[..|calls| - 1]), calls[|calls| - 1];
      RunIdsAreDistinct(calls[..|calls| - 1]);
      if !Fails(call) {
        FreshAreIdentified(call);
        RetainedIs(before, Elements(call.incoming));
        assert AllIdentified(Joined(before, call));
      }
    }
    RunIsDisjoint(calls);
    IdsAreDistinct(Run(calls));
  }

  // ---------------------------------------------------------------- who is packaged together

  /** Both are in the same segment of the same Event. */
  predicate SameSegment(memberships: map<string, Membership>, u: string, v: string) {
    && u in memberships && v in memberships
    && memberships[u].event != "" && memberships[u].event == memberships[v].event
    && memberships[u].segment != "" && memberships[u].segment == memberships[v].segment
  }

  /** Two incoming updates share a fresh package if and only if they are in the same segment. */
  lemma PackagedTogetherIff(call: Call, u: string, v: string)
    requires u in call.incoming && v in call.incoming && u != v
    ensures (exists p :: p in Fresh(call) && u in p.members && v in p.members) <==> SameSegment(call.memberships, u, v)
  {
    var groups := Grouped(call.incoming, call.memberships);
    GroupedIs(call.incoming, call.memberships);
    GroupsHaveMembers(call.incoming, call.memberships);
    if p :| p in Fresh(call) && u in p.members && v in p.members {
      var i :| 0 <= i < |groups| && Fresh(call)[i] == p;
      MemberHeld(groups, i, u);
      MemberHeld(groups, i, v);
    }
    if SameSegment(call.memberships, u, v) {
      var key := KeyOf(u, call.memberships);
      assert Holds(groups, key, u) && Holds(groups, key, v);
      var i :| 0 <= i < |groups| && groups[i].key == key && u in groups[i].members;
      var j :| 0 <= j < |groups| && groups[j].key == key && v in groups[j].members;
      assert i == j;
      assert Fresh(call)[i] in Fresh(call) && Fresh(call)[i].members == groups[i].members;
    }
  }
}
