/** The sidebar list: a layout flattened, and the instances put in that order. */
module LayoutFlat {
  import opened Common
  import opened Layout
  import opened LayoutValidation
  import opened LayoutNormal
  import opened LayoutTheorems

  // ---- Flattening ----

  /** A later group of the same id replaces an earlier one. */
  function ListsOf(groups: seq<Group>): map<string, seq<string>> {
    if groups == [] then map[]
    else ListsOf(groups[..|groups| - 1])[groups[|groups| - 1].id := Items(groups[|groups| - 1].members)]
  }

  function Entry(id: string, lists: map<string, seq<string>>, ungrouped: seq<string>): seq<string> {
    if id == UNGROUPED then ungrouped else if id in lists then lists[id] else []
  }

  function Flat(order: seq<string>, lists: map<string, seq<string>>, ungrouped: seq<string>): seq<string> {
    if order == [] then []
    else Flat(order[..|order| - 1], lists, ungrouped) + Entry(order[|order| - 1], lists, ungrouped)
  }

  function Flattened(l: Layout): seq<string> {
    Flat(Items(l.groupOrder), ListsOf(Items(l.groups)), Items(l.ungrouped))
  }

  method FlattenConnectionInstanceLayout(l: Layout) returns (ids: seq<string>)
    ensures ids == Flattened(l)
  {
    var order, saved := Items(l.groupOrder), Items(l.groups);
    var groups: map<string, seq<string>> := map[];
    for i := 0 to |saved|
      invariant groups == ListsOf(saved[..i])
    {
      assert saved[..i + 1][..i] == saved[..i];
      groups := groups[saved[i].id := Items(saved[i].members)];
    }
    assert saved[..|saved|] == saved;
    ids := [];
    for i := 0 to |order|
      invariant ids == Flat(order[..i], groups, Items(l.ungrouped))
    {
      assert order[..i + 1][..i] == order[..i];
      if order[i] == UNGROUPED {
        ids := ids + Items(l.ungrouped);
      } else {
        ids := ids + if order[i] in groups then groups[order[i]] else [];
      }
    }
    assert order[..|order|] == order;
  }

  lemma {:induction false} ListGiven(groups: seq<Group>, i: nat)
    requires i < |groups| && NoDup(IdsOf(groups))
    ensures groups[i].id in ListsOf(groups) && ListsOf(groups)[groups[i].id] == Items(groups[i].members)
  {
    var n := |groups| - 1;
    assert groups == groups[..n] + [groups[n]];
    MembersSnoc(groups[..n], groups[n]);
    SnocNoDup(IdsOf(groups[..n]), groups[n].id);
    if i < n {
      assert IdsOf(groups)[i] != IdsOf(groups)[n];
      ListGiven(groups[..n], i);
    }
  }

  /** One entry adds its list to what the earlier entries gave. */
  lemma FlatEntry(order: seq<string>, groups: seq<Group>, rest: seq<string>, m: nat, k: nat)
    requires m < |order| && NoDup(IdsOf(groups)) && k <= |groups|
    requires order[m] != UNGROUPED ==> k < |groups| && groups[k].id == order[m]
    ensures multiset(Flat(order[..m + 1], ListsOf(groups), rest)) == multiset(Flat(order[..m], ListsOf(groups), rest))
      + multiset(if order[m] == UNGROUPED then rest else Items(groups[k].members))
    ensures order[m] != UNGROUPED ==> multiset(MembersOf(groups[..k + 1])) == multiset(MembersOf(groups[..k])) + multiset(Items(groups[k].members))
  {
    assert order[..m + 1][..m] == order[..m];
    hide NoDup, ListsOf;
    if order[m] != UNGROUPED {
      ListGiven(groups, k);
      assert groups[..k + 1] == groups[..k] + [groups[k]];
      MembersSnoc(groups[..k], groups[k]);
    }
  }

  ghost predicate FlatIs(l: Layout, n: nat, k: nat)
    requires l.groupOrder.Some? && l.groups.Some? && n <= |l.groupOrder.value|
  {
    var order, groups, rest := l.groupOrder.value, l.groups.value, Items(l.ungrouped);
    && k <= |groups|
    && multiset(Flat(order[..n], ListsOf(groups), rest))
       == multiset(MembersOf(groups[..k])) + (if UNGROUPED in order[..n] then multiset(rest) else multiset{})
  }

  lemma FlatReserved(l: Layout, m: nat, k: nat)
    requires l.groupOrder.Some? && l.groups.Some? && m < |l.groupOrder.value| && NoDup(IdsOf(l.groups.value))
    requires l.groupOrder.value[m] == UNGROUPED && UNGROUPED !in l.groupOrder.value[..m]
    requires FlatIs(l, m, k)
    ensures FlatIs(l, m + 1, k)
  {
    hide NoDup, Flat, ListsOf, MembersOf, IdsOf;
    FlatEntry(l.groupOrder.value, l.groups.value, Items(l.ungrouped), m, k);
  }

  lemma FlatGroup(l: Layout, m: nat, k: nat)
    requires l.groupOrder.Some? && l.groups.Some? && m < |l.groupOrder.value| && NoDup(IdsOf(l.groups.value))
    requires l.groupOrder.value[m] != UNGROUPED && k < |l.groups.value| && l.groups.value[k].id == l.groupOrder.value[m]
    requires FlatIs(l, m, k)
    ensures FlatIs(l, m + 1, k + 1)
  {
    var order, groups, rest := l.groupOrder.value, l.groups.value, Items(l.ungrouped);
    hide NoDup, Flat, ListsOf, MembersOf, IdsOf;
    FlatEntry(order, groups, rest, m, k);
    Exchange(multiset(MembersOf(groups[..k])), if UNGROUPED in order[..m] then multiset(rest) else multiset{}, multiset(Items(groups[k].members)));
    assert UNGROUPED in order[..m + 1] <==> UNGROUPED in order[..m];
  }

  lemma FlatStep(l: Layout, instances: seq<string>, m: nat)
    requires Settled(l, instances) && m < |l.groupOrder.value|
    requires FlatIs(l, m, |Grouped(l.groupOrder.value[..m])|)
    ensures FlatIs(l, m + 1, |Grouped(l.groupOrder.value[..m + 1])|)
  {
    var order := l.groupOrder.value;
    var k := |Grouped(order[..m])|;
    EntryFacts(l, instances, m);
    DistinctGroups(l, instances);
    hide NoDup, Settled, Grouped, FlatIs, IdsOf;
    if order[m] == UNGROUPED {
      assert UNGROUPED !in SetOf(order[..m]);
      FlatReserved(l, m, k);
    } else {
      FlatGroup(l, m, k);
    }
  }

  lemma DistinctGroups(l: Layout, instances: seq<string>)
    requires Settled(l, instances)
    ensures NoDup(IdsOf(l.groups.value))
  {
    GroupedFacts(l.groupOrder.value);
  }

  lemma Exchange(a: multiset<string>, b: multiset<string>, c: multiset<string>)
    ensures (a + b) + c == (a + c) + b
  {}

  /** The first entries give the members of the first groups, and the others once the reserved id is met. */
  lemma {:induction false} FlatSoFar(l: Layout, instances: seq<string>, n: nat)
    requires Settled(l, instances) && n <= |l.groupOrder.value|
    ensures FlatIs(l, n, |Grouped(l.groupOrder.value[..n])|)
  {
    if n == 0 {
      assert l.groupOrder.value[..0] == [] && l.groups.value[..0] == [];
    } else {
      hide FlatIs, Settled, Grouped;
      FlatSoFar(l, instances, n - 1);
      FlatStep(l, instances, n - 1);
    }
  }

  /** Flattening a layout in normal form lists every member of every list once. */
  lemma FlattenedIsAll(l: Layout, instances: seq<string>)
    requires Settled(l, instances)
    ensures multiset(Flattened(l)) == multiset(AllMembers(l))
    ensures NoDup(Flattened(l)) && SetOf(Flattened(l)) == SetOf(instances)
  {
    var order, groups := l.groupOrder.value, l.groups.value;
    FlatSoFar(l, instances, |order|);
    assert order[..|order|] == order;
    assert |Grouped(order)| == |groups| && groups[..|groups|] == groups;
    SameElements(Flattened(l), AllMembers(l));
  }

  lemma {:induction false} CountOnce<T(!new)>(s: seq<T>, x: T)
    requires NoDup(s)
    ensures multiset(s)[x] == if x in s then 1 else 0
  {
    if s != [] {
      var n := |s| - 1;
      CountOnce(s[..n], x);
      assert s == s[..n] + [s[n]];
      assert s[n] !in s[..n];
    }
  }

  lemma {:induction false} CountTwice<T(!new)>(s: seq<T>, i: nat, j: nat)
    requires i < j < |s| && s[i] == s[j]
    ensures multiset(s)[s[i]] >= 2
  {
    assert s == s[..i + 1] + s[i + 1..];
    assert s[i] in s[..i + 1] && s[i + 1..][j - i - 1] == s[j];
    assert multiset(s) == multiset(s[..i + 1]) + multiset(s[i + 1..]);
  }

  lemma SameElements(a: seq<string>, b: seq<string>)
    requires multiset(a) == multiset(b) && NoDup(b)
    ensures NoDup(a) && SetOf(a) == SetOf(b)
  {
    forall i, j | 0 <= i < j < |a| ensures a[i] != a[j] {
      if a[i] == a[j] {
        CountTwice(a, i, j);
        CountOnce(b, a[i]);
        assert false;
      }
    }
    forall x ensures x in a <==> x in b {
      assert x in a <==> x in multiset(a);
      assert x in b <==> x in multiset(b);
    }
  }

  // ---- Putting the instances in order ----

  datatype Instance<T> = Instance(id: string, summary: T)

  function InstanceIds<T>(instances: seq<Instance<T>>): (r: seq<string>)
    ensures |r| == |instances| && forall i :: 0 <= i < |r| ==> r[i] == instances[i].id
  {
    seq(|instances|, i requires 0 <= i < |instances| => instances[i].id)
  }

  lemma IdsJoin<T>(a: seq<Instance<T>>, b: seq<Instance<T>>)
    ensures InstanceIds(a + b) == InstanceIds(a) + InstanceIds(b)
  {}

  function InstancesById<T>(instances: seq<Instance<T>>): map<string, Instance<T>> {
    if instances == [] then map[]
    else InstancesById(instances[..|instances| - 1])[instances[|instances| - 1].id := instances[|instances| - 1]]
  }

  function Picked<T>(order: seq<string>, byId: map<string, Instance<T>>): seq<Instance<T>> {
    if order == [] then []
    else Picked(order[..|order| - 1], byId) + (if order[|order| - 1] in byId then [byId[order[|order| - 1]]] else [])
  }

  function Others<T>(instances: seq<Instance<T>>, seen: set<string>): seq<Instance<T>> {
    if instances == [] then []
    else Others(instances[..|instances| - 1], seen) + (if instances[|instances| - 1].id in seen then [] else [instances[|instances| - 1]])
  }

  /** Fewer than two instances or no order: the instances as they are. */
  function InOrder<T>(instances: seq<Instance<T>>, order: seq<string>): seq<Instance<T>> {
    if |instances| < 2 || order == [] then instances
    else Picked(order, InstancesById(instances)) + Others(instances, SetOf(order))
  }

  method OrderConnectionInstances<T>(instances: seq<Instance<T>>, order: seq<string>) returns (result: seq<Instance<T>>)
    ensures result == InOrder(instances, order)
  {
    if |instances| < 2 || |order| == 0 {
      return instances;
    }
    var byID: map<string, Instance<T>> := map[];
    for i := 0 to |instances|
      invariant byID == InstancesById(instances[..i])
    {
      assert instances[..i + 1][..i] == instances[..i];
      byID := byID[instances[i].id := instances[i]];
    }
    assert instances[..|instances|] == instances;
    result := [];
    var seen: set<string> := {};
    for i := 0 to |order|
      invariant result == Picked(order[..i], byID)
      invariant seen == SetOf(order[..i]) * byID.Keys
    {
      assert order[..i + 1] == order[..i] + [order[i]];
      SnocNoDup(order[..i], order[i]);
      if order[i] in byID {
        result, seen := result + [byID[order[i]]], seen + {order[i]};
      }
    }
    assert order[..|order|] == order;
    InstanceKeys(instances);
    result := AppendOthers(result, instances, seen, SetOf(order));
  }

  /** The instances that the order left out follow, as they come. */
  method AppendOthers<T>(picked: seq<Instance<T>>, instances: seq<Instance<T>>, seen: set<string>, ghost named: set<string>) returns (result: seq<Instance<T>>)
    requires seen == named * SetOf(InstanceIds(instances))
    ensures result == picked + Others(instances, named)
  {
    result := picked;
    assert picked + [] == picked;
    for i := 0 to |instances|
      invariant result == picked + Others(instances[..i], named)
    {
      assert instances[..i + 1][..i] == instances[..i];
      assert InstanceIds(instances)[i] in SetOf(InstanceIds(instances));
      if instances[i].id !in seen {
        result := result + [instances[i]];
      }
    }
    assert instances[..|instances|] == instances;
  }

  lemma {:induction false} InstanceFound<T>(instances: seq<Instance<T>>, i: nat)
    requires i < |instances|
    ensures instances[i].id in InstancesById(instances)
    ensures NoDup(InstanceIds(instances)) ==> InstancesById(instances)[instances[i].id] == instances[i]
  {
    var n := |instances| - 1;
    if i < n {
      InstanceFound(instances[..n], i);
      if NoDup(InstanceIds(instances)) {
        assert InstanceIds(instances)[i] != InstanceIds(instances)[n];
        assert InstanceIds(instances[..n]) == InstanceIds(instances)[..n];
      }
    }
  }

  lemma {:induction false} InstanceKept<T>(instances: seq<Instance<T>>, id: string) returns (i: nat)
    requires id in InstancesById(instances)
    ensures i < |instances| && InstancesById(instances)[id] == instances[i] && instances[i].id == id
  {
    var n := |instances| - 1;
    if instances[n].id == id {
      i := n;
    } else {
      i := InstanceKept(instances[..n], id);
    }
  }

  lemma InstanceKeys<T>(instances: seq<Instance<T>>)
    ensures InstancesById(instances).Keys == SetOf(InstanceIds(instances))
  {
    forall id | id in InstancesById(instances) ensures id in InstanceIds(instances) {
      var i := InstanceKept(instances, id);
      assert InstanceIds(instances)[i] == id;
    }
    forall id | id in InstanceIds(instances) ensures id in InstancesById(instances) {
      var i :| 0 <= i < |instances| && InstanceIds(instances)[i] == id;
      InstanceFound(instances, i);
    }
  }

  lemma {:induction false} PickedIds<T>(order: seq<string>, instances: seq<Instance<T>>)
    ensures InstanceIds(Picked(order, InstancesById(instances))) == Known(order, SetOf(InstanceIds(instances)))
    ensures forall x :: x in Picked(order, InstancesById(instances)) ==> x in instances
  {
    InstanceKeys(instances);
    if order != [] {
      var n := |order| - 1;
      PickedIds(order[..n], instances);
      if order[n] in InstancesById(instances) {
        var i := InstanceKept(instances, order[n]);
      }
    }
  }

  lemma {:induction false} OthersIds<T>(instances: seq<Instance<T>>, seen: set<string>)
    ensures InstanceIds(Others(instances, seen)) == Without(InstanceIds(instances), seen)
  {
    if instances == [] {
      assert InstanceIds(instances) == [];
      return;
    }
    var n := |instances| - 1;
    var x := instances[n];
    var last := if x.id in seen then [] else [x];
    var ids := InstanceIds(instances);
    IdsInit(instances);
    assert InstanceIds(last) == if x.id in seen then [] else [x.id];
    hide InstanceIds;
    OthersIds(instances[..n], seen);
    IdsJoin(Others(instances[..n], seen), last);
    assert Others(instances, seen) == Others(instances[..n], seen) + last;
    assert Without(ids, seen) == Without(ids[..n], seen) + (if ids[n] in seen then [] else [ids[n]]);
  }

  lemma IdsInit<T>(instances: seq<Instance<T>>)
    requires instances != []
    ensures var ids, n := InstanceIds(instances), |instances| - 1;
      |ids| == n + 1 && ids[..n] == InstanceIds(instances[..n]) && ids[n] == instances[n].id
  {}

  lemma {:induction false} OthersMembers<T>(instances: seq<Instance<T>>, seen: set<string>)
    ensures forall x :: x in Others(instances, seen) <==> x in instances && x.id !in seen
  {
    if instances != [] {
      var n := |instances| - 1;
      OthersMembers(instances[..n], seen);
      assert instances == instances[..n] + [instances[n]];
    }
  }

  /** Two instances with distinct ids are distinct. */
  lemma IdsTell<T(!new)>(instances: seq<Instance<T>>)
    requires NoDup(InstanceIds(instances))
    ensures NoDup(instances)
  {
    forall i, j | 0 <= i < j < |instances| ensures instances[i] != instances[j] {
      assert InstanceIds(instances)[i] != InstanceIds(instances)[j];
    }
  }

  lemma InOrderIds<T>(instances: seq<Instance<T>>, order: seq<string>)
    requires |instances| >= 2 && order != []
    ensures InstanceIds(InOrder(instances, order)) == Known(order, SetOf(InstanceIds(instances))) + Without(InstanceIds(instances), SetOf(order))
  {
    PickedIds(order, instances);
    OthersIds(instances, SetOf(order));
    IdsJoin(Picked(order, InstancesById(instances)), Others(instances, SetOf(order)));
    hide InstanceIds, Known, Without, Picked, Others, InstancesById;
  }

  /** Ordering keeps every instance exactly once precisely when the order repeats no known id. */
  lemma PermutationIff<T(!new)>(instances: seq<Instance<T>>, order: seq<string>)
    requires NoDup(InstanceIds(instances))
    ensures multiset(InOrder(instances, order)) == multiset(instances)
      <==> |instances| < 2 || NoDup(Known(order, SetOf(InstanceIds(instances))))
  {
    IdsTell(instances);
    if |instances| >= 2 && order != [] {
      var ids, r := InstanceIds(instances), InOrder(instances, order);
      var known, rest := Known(order, SetOf(ids)), Without(ids, SetOf(order));
      InOrderIds(instances, order);
      if NoDup(known) {
        KeepsAll(instances, order);
      } else {
        var i, j :| 0 <= i < j < |known| && known[i] == known[j];
        PickedIds(order, instances);
        var picked := Picked(order, InstancesById(instances));
        assert InstanceIds(picked)[i] == InstanceIds(picked)[j];
        SameId(instances, picked[i], picked[j]);
        CountTwice(r, i, j);
        CountOnce(instances, r[i]);
      }
    }
  }

  lemma SameId<T>(instances: seq<Instance<T>>, a: Instance<T>, b: Instance<T>)
    requires NoDup(InstanceIds(instances)) && a in instances && b in instances && a.id == b.id
    ensures a == b
  {
    var i :| 0 <= i < |instances| && instances[i] == a;
    var j :| 0 <= j < |instances| && instances[j] == b;
    assert InstanceIds(instances)[i] == InstanceIds(instances)[j];
  }

  lemma KeepsAll<T(!new)>(instances: seq<Instance<T>>, order: seq<string>)
    requires |instances| >= 2 && order != [] && NoDup(InstanceIds(instances))
    requires NoDup(Known(order, SetOf(InstanceIds(instances))))
    ensures multiset(InOrder(instances, order)) == multiset(instances)
  {
    var ids, r := InstanceIds(instances), InOrder(instances, order);
    InOrderIds(instances, order);
    KnownFacts(order, SetOf(ids));
    WithoutNoDup(ids, SetOf(order));
    JoinNoDup(Known(order, SetOf(ids)), Without(ids, SetOf(order)));
    IdsTell(r);
    IdsTell(instances);
    forall x ensures x in r <==> x in instances {
      InBoth(instances, order, x);
    }
    forall x ensures multiset(r)[x] == multiset(instances)[x] {
      CountOnce(r, x);
      CountOnce(instances, x);
    }
  }

  lemma InBoth<T>(instances: seq<Instance<T>>, order: seq<string>, x: Instance<T>)
    requires |instances| >= 2 && order != [] && NoDup(InstanceIds(instances))
    ensures x in InOrder(instances, order) <==> x in instances
  {
    var ids := InstanceIds(instances);
    var picked, others := Picked(order, InstancesById(instances)), Others(instances, SetOf(order));
    PickedIds(order, instances);
    OthersMembers(instances, SetOf(order));
    if x in instances && x.id in order {
      var i :| 0 <= i < |instances| && instances[i] == x;
      assert ids[i] == x.id;
      KnownFacts(order, SetOf(ids));
      assert x.id in InstanceIds(picked);
      var j :| 0 <= j < |picked| && InstanceIds(picked)[j] == x.id;
      SameId(instances, picked[j], x);
    }
  }

  lemma {:induction false} WithoutAll(ids: seq<string>, gone: set<string>)
    requires forall x :: x in ids ==> x in gone
    ensures Without(ids, gone) == []
  {
    if ids != [] {
      WithoutAll(ids[..|ids| - 1], gone);
    }
  }

  /** The sidebar shows the instances exactly in the order of the flattened layout. */
  lemma SidebarFollowsLayout<T(!new)>(l: Layout, instances: seq<Instance<T>>)
    requires NoDup(InstanceIds(instances)) && Settled(l, InstanceIds(instances))
    ensures InstanceIds(InOrder(instances, Flattened(l))) == Flattened(l)
    ensures multiset(InOrder(instances, Flattened(l))) == multiset(instances)
  {
    var ids, flat := InstanceIds(instances), Flattened(l);
    FlattenedIsAll(l, ids);
    hide Settled, Flattened, Flat;
    OrderByAll(instances, flat);
  }

  lemma OrderByAll<T(!new)>(instances: seq<Instance<T>>, flat: seq<string>)
    requires NoDup(InstanceIds(instances)) && NoDup(flat) && SetOf(flat) == SetOf(InstanceIds(instances))
    ensures InstanceIds(InOrder(instances, flat)) == flat
    ensures multiset(InOrder(instances, flat)) == multiset(instances)
  {
    var ids := InstanceIds(instances);
    FlatIsKnown(ids, flat);
    PermutationIff(instances, flat);
    if |instances| >= 2 && flat != [] {
      InOrderIds(instances, flat);
    }
  }

  lemma FlatIsKnown(ids: seq<string>, flat: seq<string>)
    requires NoDup(ids) && NoDup(flat) && SetOf(flat) == SetOf(ids)
    ensures Known(flat, SetOf(ids)) == flat && Without(ids, SetOf(flat)) == []
    ensures |ids| < 2 || flat == [] ==> ids == flat
  {
    assert forall x :: x in flat <==> x in SetOf(flat);
    assert forall x :: x in ids <==> x in SetOf(ids);
    hide NoDup;
    KnownKeeps(flat, SetOf(ids));
    WithoutAll(ids, SetOf(flat));
    SizeOfList(ids);
    SizeOfList(flat);
    if |ids| == 1 {
      assert flat[0] in ids;
    }
  }

  /** Together: whatever was saved, unless a group holds the reserved id unnamed by the order. */
  lemma SidebarAfterNormalising<T(!new)>(saved: Layout, instances: seq<Instance<T>>)
    requires NoDup(InstanceIds(instances)) && !ReservedGroup(saved)
    ensures var l := Normal(saved, InstanceIds(instances));
      && InstanceIds(InOrder(instances, Flattened(l))) == Flattened(l)
      && multiset(InOrder(instances, Flattened(l))) == multiset(instances)
  {
    NormalSettles(saved, InstanceIds(instances));
    SidebarFollowsLayout(Normal(saved, InstanceIds(instances)), instances);
  }

  /** A group of the reserved id that the order does not name: the second pass loses it. */
  lemma ReservedGroupIsLost()
    ensures var saved := Layout(1, Some([]), Some([Group(UNGROUPED, "x", Some(["a"]))]), Some([])); var out := Normal(saved, ["a"]);
      && UNGROUPED in IdsOf(Items(out.groups)) && UNGROUPED !in IdsOf(Items(Normal(out, ["a"]).groups))
  {
    var g := Group(UNGROUPED, "x", Some(["a"]));
    var saved := Layout(1, Some([]), Some([g]), Some([]));
    assert IdsOf([g])[0] == UNGROUPED;
    var out := Normal(saved, ["a"]);
    assert ReservedGroup(saved);
    OrderComplete(saved, ["a"]);
    OrderComplete(out, ["a"]);
    hide Normal, IdsOf, NoDup;
    assert UNGROUPED in SetOf(Items(out.groupOrder));
  }
}
