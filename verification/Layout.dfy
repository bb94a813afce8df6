/** The sidebar layout: groups of connection instances, their order, and the instances in no group.
    A missing list and an empty one differ, so lists are optional. */
module Layout {
  import opened Common

  type Ids = Option<seq<string>>

  datatype Group = Group(id: string, name: string, members: Ids)

  datatype Layout = Layout(revision: nat, groupOrder: Ids, groups: Option<seq<Group>>, ungrouped: Ids)

  const UNGROUPED := "ungrouped"

  function Items<T>(list: Option<seq<T>>): seq<T> {
    if list.Some? then list.value else []
  }

  // ---- Lists ----

  ghost predicate NoDup<T(!new)>(s: seq<T>) {
    forall i, j :: 0 <= i < j < |s| ==> s[i] != s[j]
  }

  function SetOf(s: seq<string>): set<string> {
    set x | x in s
  }

  /** A list with some elements left out, the others in order. */
  predicate Subsequence(a: seq<string>, b: seq<string>)
    decreases |b|
  {
    if a == [] then true
    else if b == [] then false
    else if a[|a| - 1] == b[|b| - 1] then Subsequence(a[..|a| - 1], b[..|b| - 1])
    else Subsequence(a, b[..|b| - 1])
  }

  lemma SnocNoDup(s: seq<string>, x: string)
    ensures NoDup(s + [x]) <==> NoDup(s) && x !in s
    ensures SetOf(s + [x]) == SetOf(s) + {x}
  {
    assert forall i :: 0 <= i < |s| ==> (s + [x])[i] == s[i];
    if x in s {
      var i :| 0 <= i < |s| && s[i] == x;
      assert (s + [x])[i] == (s + [x])[|s|];
    }
    if NoDup(s + [x]) {
      forall i, j | 0 <= i < j < |s| ensures s[i] != s[j] {
        assert (s + [x])[i] != (s + [x])[j];
      }
    }
  }

  lemma NoDupEmpty()
    ensures NoDup<string>([])
  {}

  lemma {:induction false} SubsequenceShorter(a: seq<string>, b: seq<string>)
    requires Subsequence(a, b) && a != []
    ensures Subsequence(a[..|a| - 1], b)
    decreases |b|
  {
    var m, n := |a| - 1, |b| - 1;
    if a[m] == b[n] {
      if m > 0 && a[m - 1] == b[n] {
        SubsequenceShorter(a[..m], b[..n]);
      }
    } else {
      SubsequenceShorter(a, b[..n]);
      if m > 0 && a[m - 1] == b[n] {
        SubsequenceShorter(a[..m], b[..n]);
      }
    }
  }

  lemma {:induction false} SubsequenceLonger(a: seq<string>, b: seq<string>, x: string)
    requires Subsequence(a, b)
    ensures Subsequence(a, b + [x])
    ensures Subsequence(a + [x], b + [x])
  {
    assert (b + [x])[..|b|] == b && (a + [x])[..|a|] == a;
    if a != [] && a[|a| - 1] == x {
      SubsequenceShorter(a, b);
    }
  }

  lemma EmptySubsequence(s: seq<string>)
    ensures Subsequence([], s)
  {}

  /** The available ids of a list, each at most once and none that was seen before. */
  function Clean(ids: seq<string>, available: set<string>, seen: set<string>): (r: seq<string>)
    ensures |r| <= |ids|
  {
    if ids == [] then []
    else
      var n := |ids| - 1;
      var r := Clean(ids[..n], available, seen);
      if ids[n] in available && ids[n] !in seen && ids[n] !in r then r + [ids[n]] else r
  }

  lemma {:induction false} CleanFacts(ids: seq<string>, available: set<string>, seen: set<string>)
    ensures var r := Clean(ids, available, seen);
      && NoDup(r)
      && (forall x :: x in r <==> x in ids && x in available && x !in seen)
      && Subsequence(r, ids)
  {
    hide NoDup, Subsequence;
    if ids != [] {
      var n := |ids| - 1;
      CleanFacts(ids[..n], available, seen);
      assert ids == ids[..n] + [ids[n]];
      var r := Clean(ids[..n], available, seen);
      SnocNoDup(r, ids[n]);
      SubsequenceLonger(r, ids[..n], ids[n]);
    } else {
      NoDupEmpty();
      EmptySubsequence(ids);
    }
  }

  /** Nothing to leave out: the list stays. */
  lemma {:induction false} CleanKeeps(ids: seq<string>, available: set<string>, seen: set<string>)
    requires NoDup(ids) && forall x :: x in ids ==> x in available && x !in seen
    ensures Clean(ids, available, seen) == ids
  {
    hide NoDup;
    if ids != [] {
      var n := |ids| - 1;
      assert ids == ids[..n] + [ids[n]];
      SnocNoDup(ids[..n], ids[n]);
      CleanKeeps(ids[..n], available, seen);
    }
  }

  function CleanIds(ids: Ids, available: set<string>, seen: set<string>): Ids {
    if ids.None? then None else Some(Clean(ids.value, available, seen))
  }

  /** The available ids of a list, repeated ones included. */
  function Known(ids: seq<string>, available: set<string>): (r: seq<string>)
    ensures |r| <= |ids|
  {
    if ids == [] then []
    else
      var n := |ids| - 1;
      Known(ids[..n], available) + (if ids[n] in available then [ids[n]] else [])
  }

  lemma {:induction false} CleanKnown(ids: seq<string>, available: set<string>, seen: set<string>)
    ensures Clean(Known(ids, available), available, seen) == Clean(ids, available, seen)
  {
    if ids != [] {
      var n := |ids| - 1;
      CleanKnown(ids[..n], available, seen);
      var known := Known(ids[..n], available);
      if ids[n] in available {
        assert Known(ids, available) == known + [ids[n]];
        assert (known + [ids[n]])[..|known|] == known;
      } else {
        assert Known(ids, available) == known;
      }
    }
  }

  // ---- The methods of the source that work on lists ----

  /** Without a seen set nothing is remembered and repeated ids stay. */
  method CleanInstanceIDs(ids: Ids, available: set<string>, seen: Option<set<string>>) returns (cleaned: Ids, seen': Option<set<string>>)
    ensures seen.None? ==> seen'.None? && cleaned == (if ids.None? then None else Some(Known(ids.value, available)))
    ensures seen.Some? ==> cleaned == CleanIds(ids, available, seen.value) && seen' == Some(seen.value + SetOf(Items(cleaned)))
  {
    seen' := seen;
    if ids.None? {
      if seen.Some? {
        assert seen.value + SetOf([]) == seen.value;
      }
      return None, seen;
    }
    var list: seq<string> := [];
    if seen.Some? {
      assert seen.value + SetOf(list) == seen.value;
    }
    for i := 0 to |ids.value|
      invariant seen.None? ==> seen'.None? && list == Known(ids.value[..i], available)
      invariant seen.Some? ==> list == Clean(ids.value[..i], available, seen.value) && seen' == Some(seen.value + SetOf(list))
    {
      var id := ids.value[i];
      assert ids.value[..i + 1][..i] == ids.value[..i];
      if seen.Some? {
        CleanFacts(ids.value[..i], available, seen.value);
      }
      if id in available && (seen'.None? || id !in seen'.value) {
        if seen'.Some? {
          assert SetOf(list + [id]) == SetOf(list) + {id};
          assert seen.value + SetOf(list + [id]) == seen'.value + {id};
          seen' := Some(seen'.value + {id});
        }
        list := list + [id];
      }
    }
    assert ids.value[..|ids.value|] == ids.value;
    cleaned := Some(list);
  }

  // ---- Placing the groups ----

  /** The groups placed so far, their order, and what has been seen. */
  datatype Placed = Placed(groups: seq<Group>, order: seq<string>, seenGroups: set<string>, seen: set<string>)

  const NOTHING := Placed([], [], {}, {})

  /** A later group of the same id replaces an earlier one. */
  function ById(groups: seq<Group>, available: set<string>): map<string, Group> {
    if groups == [] then map[]
    else
      var g := groups[|groups| - 1];
      ById(groups[..|groups| - 1], available)[g.id := g.(members := if g.members.None? then None else Some(Known(g.members.value, available)))]
  }

  function PlaceGroup(g: Group, available: set<string>, p: Placed): Placed {
    var members := CleanIds(g.members, available, p.seen);
    Placed(p.groups + [g.(members := members)], p.order + [g.id], p.seenGroups + {g.id}, p.seen + SetOf(Items(members)))
  }

  /** One entry of the group order. */
  function PlaceEntry(id: string, byId: map<string, Group>, available: set<string>, p: Placed): Placed {
    if id in p.seenGroups then p
    else if id == UNGROUPED then p.(order := p.order + [id], seenGroups := p.seenGroups + {id})
    else if id !in byId then p
    else PlaceGroup(byId[id], available, p)
  }

  function PlaceOrder(ids: seq<string>, byId: map<string, Group>, available: set<string>): Placed {
    if ids == [] then NOTHING
    else PlaceEntry(ids[|ids| - 1], byId, available, PlaceOrder(ids[..|ids| - 1], byId, available))
  }

  /** The groups the order does not mention. */
  function PlaceRest(groups: seq<Group>, byId: map<string, Group>, available: set<string>, p: Placed): Placed {
    if groups == [] then p
    else
      var q := PlaceRest(groups[..|groups| - 1], byId, available, p);
      var id := groups[|groups| - 1].id;
      if id in q.seenGroups || id !in byId then q else PlaceGroup(byId[id], available, q)
  }

  /** The instances that nothing has placed, in the order they come. */
  function Missing(instances: seq<string>, seen: set<string>): seq<string> {
    if instances == [] then []
    else
      var n := |instances| - 1;
      var r := Missing(instances[..n], seen);
      if instances[n] in seen || instances[n] in r then r else r + [instances[n]]
  }

  function AddMissing(ids: Ids, missing: seq<string>): Ids {
    if missing == [] then ids else Some(Items(ids) + missing)
  }

  function Placing(saved: Layout, instances: seq<string>): Placed {
    var available := SetOf(instances);
    var byId := ById(Items(saved.groups), available);
    PlaceRest(Items(saved.groups), byId, available, PlaceOrder(Items(saved.groupOrder), byId, available))
  }

  /** The normal form of a saved layout against the instances there are. */
  function Normal(saved: Layout, instances: seq<string>): Layout {
    var p := Placing(saved, instances);
    var cleaned := CleanIds(saved.ungrouped, SetOf(instances), p.seen);
    Layout(
      if saved.revision == 0 then 1 else saved.revision,
      Some(if UNGROUPED in p.seenGroups then p.order else p.order + [UNGROUPED]),
      Some(p.groups),
      AddMissing(cleaned, Missing(instances, p.seen + SetOf(Items(cleaned)))))
  }

  lemma {:induction false} ByIdKeys(groups: seq<Group>, available: set<string>, id: string)
    requires id in ById(groups, available)
    ensures ById(groups, available)[id].id == id
  {
    if groups != [] && groups[|groups| - 1].id != id {
      ByIdKeys(groups[..|groups| - 1], available, id);
    }
  }

  lemma {:induction false} ByIdHas(groups: seq<Group>, available: set<string>, i: nat)
    requires i < |groups|
    ensures groups[i].id in ById(groups, available)
  {
    if i < |groups| - 1 {
      ByIdHas(groups[..|groups| - 1], available, i);
    }
  }
}
