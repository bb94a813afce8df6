/** Normalising a saved layout: a partition of the instances, in the saved order, valid when the
    saved one was, and a fixpoint unless a group carries the reserved id. */
module LayoutNormal {
  import opened Common
  import opened Layout
  import opened LayoutValidation

  // ---- The flat order of earlier versions ----

  function Without(s: seq<string>, gone: set<string>): (r: seq<string>)
    ensures forall x :: x in r <==> x in s && x !in gone
  {
    if s == [] then []
    else
      var n := |s| - 1;
      assert s == s[..n] + [s[n]];
      Without(s[..n], gone) + (if s[n] in gone then [] else [s[n]])
  }

  /** The known ids of a valid order and then the other instances; an invalid order is dropped. */
  ghost function LegacyOrder(order: seq<string>, instances: Ids): Ids {
    if ValidOrder(order)
    then Some(Known(order, SetOf(Items(instances))) + Without(Items(instances), SetOf(order)))
    else instances
  }

  method NormalizeConnectionInstanceOrder(order: seq<string>, instances: seq<string>) returns (normalized: seq<string>, ok: bool)
    ensures ok <==> ValidOrder(order)
    ensures ok ==> normalized == Known(order, SetOf(instances)) + Without(instances, SetOf(order))
  {
    ok := ValidateConnectionInstanceOrder(order);
    if !ok {
      return [], false;
    }
    hide ValidOrder;
    var available := SetOf(instances);
    normalized := [];
    var seen: set<string> := {};
    for i := 0 to |order|
      invariant normalized == Known(order[..i], available)
      invariant seen == SetOf(order[..i]) * available
    {
      assert order[..i + 1][..i] == order[..i];
      assert SetOf(order[..i + 1]) == SetOf(order[..i]) + {order[i]};
      if order[i] in available {
        normalized, seen := normalized + [order[i]], seen + {order[i]};
      }
    }
    assert order[..|order|] == order;
    ghost var known := normalized;
    assert known + [] == known;
    for i := 0 to |instances|
      invariant normalized == known + Without(instances[..i], SetOf(order))
    {
      assert instances[..i + 1][..i] == instances[..i];
      assert instances[i] in available;
      if instances[i] !in seen {
        normalized := normalized + [instances[i]];
      }
    }
    assert instances[..|instances|] == instances;
  }

  lemma {:induction false} KnownFacts(ids: seq<string>, available: set<string>)
    ensures forall x :: x in Known(ids, available) <==> x in ids && x in available
    ensures NoDup(ids) ==> NoDup(Known(ids, available))
  {
    hide NoDup;
    if ids != [] {
      var n := |ids| - 1;
      KnownFacts(ids[..n], available);
      assert ids == ids[..n] + [ids[n]];
      var r := Known(ids[..n], available);
      SnocNoDup(ids[..n], ids[n]);
      SnocNoDup(r, ids[n]);
      assert r + [] == r;
    } else {
      NoDupEmpty();
    }
  }

  lemma {:induction false} KnownKeeps(ids: seq<string>, available: set<string>)
    requires forall x :: x in ids ==> x in available
    ensures Known(ids, available) == ids
  {
    if ids != [] {
      var n := |ids| - 1;
      assert forall x :: x in ids[..n] ==> x in ids;
      KnownKeeps(ids[..n], available);
      assert ids == ids[..n] + [ids[n]];
    }
  }

  lemma {:induction false} WithoutNoDup(s: seq<string>, gone: set<string>)
    requires NoDup(s)
    ensures NoDup(Without(s, gone))
  {
    if s != [] {
      var n := |s| - 1;
      assert s == s[..n] + [s[n]];
      SnocNoDup(s[..n], s[n]);
      WithoutNoDup(s[..n], gone);
      SnocNoDup(Without(s[..n], gone), s[n]);
      assert Without(s[..n], gone) + [] == Without(s[..n], gone);
    }
  }

  lemma JoinNoDup(a: seq<string>, b: seq<string>)
    ensures NoDup(a + b) <==> NoDup(a) && NoDup(b) && (forall x :: x in a ==> x !in b)
    ensures SetOf(a + b) == SetOf(a) + SetOf(b)
  {
    var s := a + b;
    assert forall i :: 0 <= i < |a| ==> s[i] == a[i];
    assert forall j :: 0 <= j < |b| ==> s[|a| + j] == b[j];
    if NoDup(s) {
      forall i, j | 0 <= i < |a| && 0 <= j < |b| ensures a[i] != b[j] {
        assert s[i] != s[|a| + j];
      }
      forall i, j | 0 <= i < j < |b| ensures b[i] != b[j] {
        assert s[|a| + i] != s[|a| + j];
      }
      forall i, j | 0 <= i < j < |a| ensures a[i] != a[j] {
        assert s[i] != s[j];
      }
    }
    if NoDup(a) && NoDup(b) && forall x :: x in a ==> x !in b {
      forall i, j | 0 <= i < j < |s| ensures s[i] != s[j] {
        if i < |a| <= j {
          assert s[i] in a && s[j] == b[j - |a|];
        } else if |a| <= i {
          assert s[i] == b[i - |a|] && s[j] == b[j - |a|];
        }
      }
    }
  }

  /** A layout made from the flat order holds each instance once. */
  lemma LegacyOrderIsComplete(order: seq<string>, instances: Ids)
    requires NoDup(Items(instances))
    ensures NoDup(Items(LegacyOrder(order, instances)))
    ensures SetOf(Items(LegacyOrder(order, instances))) == SetOf(Items(instances))
  {
    if ValidOrder(order) {
      var ids := Items(instances);
      KnownFacts(order, SetOf(ids));
      WithoutNoDup(ids, SetOf(order));
      JoinNoDup(Known(order, SetOf(ids)), Without(ids, SetOf(order)));
    }
  }

  // ---- The normalisation with its loops ----

  method NormalizeConnectionInstanceLayout(saved: Layout, present: bool, legacyOrder: seq<string>, instances: Ids) returns (next: Layout, changed: bool)
    ensures present ==> next == Normal(saved, Items(instances)) && changed == (saved != next)
    ensures !present ==> changed && next == Layout(1, Some([UNGROUPED]), Some([]), LegacyOrder(legacyOrder, instances))
  {
    var ids := Items(instances);
    var available := SetOf(ids);
    if !present {
      var order, ok := NormalizeConnectionInstanceOrder(legacyOrder, ids);
      return Layout(1, Some([UNGROUPED]), Some([]), if ok then Some(order) else instances), true;
    }
    hide Known, Clean;
    var groups, groupOrder := Items(saved.groups), Items(saved.groupOrder);
    var groupByID: map<string, Group> := map[];
    for i := 0 to |groups|
      invariant groupByID == ById(groups[..i], available)
    {
      assert groups[..i + 1][..i] == groups[..i];
      var members, _ := CleanInstanceIDs(groups[i].members, available, None);
      groupByID := groupByID[groups[i].id := groups[i].(members := members)];
    }
    assert groups[..|groups|] == groups;
    var placed: seq<Group>, order: seq<string>, seenGroups: set<string> := [], [], {};
    var seen: Option<set<string>> := Some({});
    for i := 0 to |groupOrder|
      invariant seen.Some? && Placed(placed, order, seenGroups, seen.value) == PlaceOrder(groupOrder[..i], groupByID, available)
    {
      var id := groupOrder[i];
      assert groupOrder[..i + 1][..i] == groupOrder[..i];
      if id == UNGROUPED {
        if id !in seenGroups {
          order, seenGroups := order + [id], seenGroups + {id};
        }
      } else if id in groupByID && id !in seenGroups {
        var members;
        members, seen := CleanInstanceIDs(groupByID[id].members, available, seen);
        ByIdKeys(groups, available, id);
        placed, order, seenGroups := placed + [groupByID[id].(members := members)], order + [id], seenGroups + {id};
      }
    }
    assert groupOrder[..|groupOrder|] == groupOrder;
    ghost var p := Placed(placed, order, seenGroups, seen.value);
    for i := 0 to |groups|
      invariant seen.Some? && Placed(placed, order, seenGroups, seen.value) == PlaceRest(groups[..i], groupByID, available, p)
    {
      var id := groups[i].id;
      assert groups[..i + 1][..i] == groups[..i];
      ByIdHas(groups, available, i);
      if id !in seenGroups {
        var members;
        members, seen := CleanInstanceIDs(groupByID[id].members, available, seen);
        ByIdKeys(groups, available, id);
        placed, order, seenGroups := placed + [groupByID[id].(members := members)], order + [id], seenGroups + {id};
      }
    }
    assert groups[..|groups|] == groups;
    ghost var q := Placed(placed, order, seenGroups, seen.value);
    assert q == Placing(saved, ids);
    if UNGROUPED !in seenGroups {
      order := order + [UNGROUPED];
    }
    var ungrouped, seenNow := CleanInstanceIDs(saved.ungrouped, available, seen);
    ungrouped := AppendMissing(ungrouped, ids, seenNow.value);
    next := Layout(if saved.revision == 0 then 1 else saved.revision, Some(order), Some(placed), ungrouped);
    changed := saved != next;
  }

  /** The instances nothing has placed go to the end. */
  method AppendMissing(cleaned: Ids, instances: seq<string>, placed: set<string>) returns (ungrouped: Ids)
    ensures ungrouped == AddMissing(cleaned, Missing(instances, placed))
  {
    ungrouped := cleaned;
    var seen := placed;
    for i := 0 to |instances|
      invariant seen == placed + SetOf(Missing(instances[..i], placed))
      invariant ungrouped == AddMissing(cleaned, Missing(instances[..i], placed))
    {
      assert instances[..i + 1][..i] == instances[..i];
      ghost var missing := Missing(instances[..i], placed);
      assert missing == [] ==> missing + [instances[i]] == [instances[i]];
      if instances[i] !in seen {
        ungrouped := Some(Items(ungrouped) + [instances[i]]);
        seen := seen + {instances[i]};
        assert SetOf(missing + [instances[i]]) == SetOf(missing) + {instances[i]};
        assert Items(cleaned) + missing + [instances[i]] == Items(cleaned) + (missing + [instances[i]]);
      }
    }
    assert instances[..|instances|] == instances;
  }
}
