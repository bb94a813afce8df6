/** What normalising does to every layout: a partition of the instances, the relative order kept,
    validity kept, and when a second pass changes nothing. */
module LayoutTheorems {
  import opened Common
  import T = SshText
  import opened Layout
  import opened LayoutValidation
  import opened LayoutNormal

  // ---- What holds of the groups placed so far ----

  ghost predicate From(g: Group, byId: map<string, Group>) {
    && g.id in byId && g.name == byId[g.id].name
    && g.members.Some? == byId[g.id].members.Some?
    && Subsequence(Items(g.members), Items(byId[g.id].members))
  }

  /** The ids of an order, without the reserved one. */
  function Grouped(order: seq<string>): seq<string> {
    if order == [] then []
    else Grouped(order[..|order| - 1]) + (if order[|order| - 1] == UNGROUPED then [] else [order[|order| - 1]])
  }

  ghost predicate Disjoint(p: Placed, available: set<string>) {
    NoDup(MembersOf(p.groups)) && p.seen == SetOf(MembersOf(p.groups)) && p.seen <= available
  }

  ghost predicate Ordered(p: Placed) {
    && NoDup(p.order) && p.seenGroups == SetOf(p.order)
    && NoDup(IdsOf(p.groups)) && SetOf(IdsOf(p.groups)) <= p.seenGroups
    && (UNGROUPED !in IdsOf(p.groups) ==> IdsOf(p.groups) == Grouped(p.order))
  }

  ghost predicate AllFrom(p: Placed, byId: map<string, Group>) {
    forall i :: 0 <= i < |p.groups| ==> From(p.groups[i], byId)
  }

  ghost predicate Well(p: Placed, byId: map<string, Group>, available: set<string>) {
    Disjoint(p, available) && Ordered(p) && AllFrom(p, byId)
  }

  ghost predicate Keyed(byId: map<string, Group>) {
    forall id :: id in byId ==> byId[id].id == id
  }

  lemma MembersSnoc(groups: seq<Group>, g: Group)
    ensures MembersOf(groups + [g]) == MembersOf(groups) + Items(g.members)
    ensures IdsOf(groups + [g]) == IdsOf(groups) + [g.id]
  {
    assert (groups + [g])[..|groups|] == groups;
  }

  lemma GroupedSnoc(order: seq<string>, id: string)
    ensures Grouped(order + [id]) == Grouped(order) + (if id == UNGROUPED then [] else [id])
  {
    assert (order + [id])[..|order|] == order;
  }

  lemma PlacedDisjoint(g: Group, available: set<string>, p: Placed)
    requires Disjoint(p, available)
    ensures Disjoint(PlaceGroup(g, available, p), available)
  {
    hide Clean;
    var c := CleanIds(g.members, available, p.seen);
    if g.members.Some? {
      CleanFacts(g.members.value, available, p.seen);
    }
    MembersSnoc(p.groups, g.(members := c));
    JoinNoDup(MembersOf(p.groups), Items(c));
  }

  lemma PlacedOrdered(g: Group, available: set<string>, p: Placed)
    requires Ordered(p) && g.id !in p.seenGroups
    ensures Ordered(PlaceGroup(g, available, p))
  {
    hide NoDup, CleanIds, Grouped;
    var c := CleanIds(g.members, available, p.seen);
    MembersSnoc(p.groups, g.(members := c));
    GroupedSnoc(p.order, g.id);
    SnocNoDup(p.order, g.id);
    SnocNoDup(IdsOf(p.groups), g.id);
    assert g.id !in SetOf(IdsOf(p.groups));
    var q := PlaceGroup(g, available, p);
    if UNGROUPED !in IdsOf(q.groups) {
      assert IdsOf(q.groups)[|p.groups|] == g.id;
      assert IdsOf(p.groups) <= IdsOf(q.groups);
    }
  }

  lemma PlacedWell(g: Group, byId: map<string, Group>, available: set<string>, p: Placed)
    requires Well(p, byId, available) && g.id !in p.seenGroups && g.id in byId && byId[g.id] == g
    ensures Well(PlaceGroup(g, available, p), byId, available)
  {
    PlacedDisjoint(g, available, p);
    PlacedOrdered(g, available, p);
    hide Disjoint, Ordered, Clean;
    if g.members.Some? {
      CleanFacts(g.members.value, available, p.seen);
    }
  }

  lemma ReservedWell(byId: map<string, Group>, available: set<string>, p: Placed)
    requires Well(p, byId, available) && UNGROUPED !in p.seenGroups
    ensures Well(p.(order := p.order + [UNGROUPED], seenGroups := p.seenGroups + {UNGROUPED}), byId, available)
  {
    hide NoDup, Grouped;
    GroupedSnoc(p.order, UNGROUPED);
    SnocNoDup(p.order, UNGROUPED);
    assert Grouped(p.order) + [] == Grouped(p.order);
  }

  /** Placing a group adds its id at the end of both lists. */
  lemma GroupPlaced(g: Group, available: set<string>, p: Placed)
    ensures var q := PlaceGroup(g, available, p);
      && q.seenGroups == p.seenGroups + {g.id} && q.order == p.order + [g.id]
      && IdsOf(q.groups) == IdsOf(p.groups) + [g.id]
      && p.groups <= q.groups
  {
    MembersSnoc(p.groups, g.(members := CleanIds(g.members, available, p.seen)));
  }

  lemma EntryWell(id: string, byId: map<string, Group>, available: set<string>, p: Placed)
    requires Keyed(byId) && Well(p, byId, available) && UNGROUPED !in IdsOf(p.groups)
    ensures var q := PlaceEntry(id, byId, available, p);
      && Well(q, byId, available) && UNGROUPED !in IdsOf(q.groups)
      && q.seenGroups == (if id in byId || id == UNGROUPED then p.seenGroups + {id} else p.seenGroups)
      && p.order <= q.order
  {
    hide Well, PlaceGroup, IdsOf;
    if id !in p.seenGroups {
      if id == UNGROUPED {
        ReservedWell(byId, available, p);
      } else if id in byId {
        PlacedWell(byId[id], byId, available, p);
        GroupPlaced(byId[id], available, p);
      }
    }
  }

  lemma NothingWell(byId: map<string, Group>, available: set<string>)
    ensures Well(NOTHING, byId, available) && UNGROUPED !in IdsOf(NOTHING.groups)
  {
    NoDupEmpty();
    assert MembersOf(NOTHING.groups) == [] && IdsOf(NOTHING.groups) == [];
    assert NOTHING.seen == SetOf(MembersOf(NOTHING.groups));
    assert NOTHING.seenGroups == SetOf(NOTHING.order);
  }

  lemma {:induction false} OrderWell(ids: seq<string>, byId: map<string, Group>, available: set<string>)
    requires Keyed(byId)
    ensures var p := PlaceOrder(ids, byId, available);
      && Well(p, byId, available) && UNGROUPED !in IdsOf(p.groups)
      && p.seenGroups == SetOf(ids) * (byId.Keys + {UNGROUPED})
  {
    hide Well, PlaceEntry, IdsOf, Keyed, NoDup;
    if ids != [] {
      var n := |ids| - 1;
      OrderWell(ids[..n], byId, available);
      assert ids == ids[..n] + [ids[n]];
      SnocNoDup(ids[..n], ids[n]);
      EntryWell(ids[n], byId, available, PlaceOrder(ids[..n], byId, available));
    } else {
      NothingWell(byId, available);
    }
  }

  /** One group of the second loop. */
  function PlaceLeft(id: string, byId: map<string, Group>, available: set<string>, p: Placed): Placed {
    if id in p.seenGroups || id !in byId then p else PlaceGroup(byId[id], available, p)
  }

  /** What the second loop has added after meeting these ids. */
  ghost predicate Grown(p: Placed, q: Placed, ids: set<string>, byId: map<string, Group>) {
    && p.order <= q.order && p.groups <= q.groups
    && q.seenGroups == p.seenGroups + ids * byId.Keys
    && (UNGROUPED in IdsOf(q.groups) <==> UNGROUPED in IdsOf(p.groups) || UNGROUPED in q.seenGroups - p.seenGroups)
  }

  lemma GrownFurther(p: Placed, q: Placed, r: Placed, ids: set<string>, id: string, byId: map<string, Group>)
    requires Grown(p, q, ids, byId) && Grown(q, r, {id}, byId)
    ensures Grown(p, r, ids + {id}, byId)
  {
    hide IdsOf;
  }

  lemma LeftWell(id: string, byId: map<string, Group>, available: set<string>, p: Placed)
    requires Keyed(byId) && Well(p, byId, available)
    ensures var q := PlaceLeft(id, byId, available, p); Well(q, byId, available) && Grown(p, q, {id}, byId)
  {
    hide Well, PlaceGroup, IdsOf;
    if id !in p.seenGroups && id in byId {
      PlacedWell(byId[id], byId, available, p);
      GroupPlaced(byId[id], available, p);
    }
  }

  lemma {:induction false} RestWell(groups: seq<Group>, byId: map<string, Group>, available: set<string>, p: Placed)
    requires Keyed(byId) && Well(p, byId, available)
    ensures var q := PlaceRest(groups, byId, available, p);
      Well(q, byId, available) && Grown(p, q, SetOf(IdsOf(groups)), byId)
  {
    if groups == [] {
      assert SetOf(IdsOf(groups)) == {};
      return;
    }
    var n := |groups| - 1;
    assert groups == groups[..n] + [groups[n]];
    MembersSnoc(groups[..n], groups[n]);
    hide Well, PlaceGroup, IdsOf, Keyed, NoDup, Grown, SetOf;
    RestWell(groups[..n], byId, available, p);
    SnocNoDup(IdsOf(groups[..n]), groups[n].id);
    var q := PlaceRest(groups[..n], byId, available, p);
    LeftWell(groups[n].id, byId, available, q);
    GrownFurther(p, q, PlaceLeft(groups[n].id, byId, available, q), SetOf(IdsOf(groups[..n])), groups[n].id, byId);
  }

  lemma KeyedById(groups: seq<Group>, available: set<string>)
    ensures Keyed(ById(groups, available))
    ensures ById(groups, available).Keys == SetOf(IdsOf(groups))
  {
    forall id | id in ById(groups, available) ensures ById(groups, available)[id].id == id {
      ByIdKeys(groups, available, id);
    }
    KeysById(groups, available);
  }

  lemma {:induction false} KeysById(groups: seq<Group>, available: set<string>)
    ensures ById(groups, available).Keys == SetOf(IdsOf(groups))
  {
    if groups != [] {
      var n := |groups| - 1;
      KeysById(groups[..n], available);
      assert groups == groups[..n] + [groups[n]];
      MembersSnoc(groups[..n], groups[n]);
      SnocNoDup(IdsOf(groups[..n]), groups[n].id);
    }
  }

  /** A group carries the reserved id and the order does not mention that id. */
  predicate ReservedGroup(l: Layout) {
    UNGROUPED in IdsOf(Items(l.groups)) && UNGROUPED !in Items(l.groupOrder)
  }

  lemma PlacingWell(saved: Layout, instances: seq<string>)
    ensures var p := Placing(saved, instances); var ids := SetOf(IdsOf(Items(saved.groups)));
      && Well(p, ById(Items(saved.groups), SetOf(instances)), SetOf(instances))
      && p.seenGroups == ids + SetOf(Items(saved.groupOrder)) * {UNGROUPED}
      && (UNGROUPED in IdsOf(p.groups) <==> ReservedGroup(saved))
  {
    var available := SetOf(instances);
    var byId := ById(Items(saved.groups), available);
    KeyedById(Items(saved.groups), available);
    hide Well, ById, IdsOf;
    OrderWell(Items(saved.groupOrder), byId, available);
    RestWell(Items(saved.groups), byId, available, PlaceOrder(Items(saved.groupOrder), byId, available));
  }

  // ---- Subsequences ----

  lemma {:induction false} SubsequenceTransitive(a: seq<string>, b: seq<string>, c: seq<string>)
    requires Subsequence(a, b) && Subsequence(b, c)
    ensures Subsequence(a, c)
    decreases |c|
  {
    if a != [] {
      var l, m, n := |a| - 1, |b| - 1, |c| - 1;
      if b[m] == c[n] {
        if a[l] == b[m] {
          SubsequenceTransitive(a[..l], b[..m], c[..n]);
        } else {
          SubsequenceTransitive(a, b[..m], c[..n]);
        }
      } else {
        SubsequenceTransitive(a, b, c[..n]);
        if a[l] == c[n] {
          SubsequenceShorter(a, c[..n]);
        }
      }
    }
  }

  lemma {:induction false} KnownSubsequence(ids: seq<string>, available: set<string>)
    ensures Subsequence(Known(ids, available), ids)
  {
    if ids != [] {
      var n := |ids| - 1;
      KnownSubsequence(ids[..n], available);
      assert ids == ids[..n] + [ids[n]];
      SubsequenceLonger(Known(ids[..n], available), ids[..n], ids[n]);
      assert Known(ids[..n], available) + [] == Known(ids[..n], available);
    }
  }

  lemma {:induction false} MissingFacts(instances: seq<string>, seen: set<string>)
    ensures var r := Missing(instances, seen);
      && NoDup(r) && (forall x :: x in r <==> x in instances && x !in seen) && Subsequence(r, instances)
  {
    hide NoDup, Subsequence;
    if instances != [] {
      var n := |instances| - 1;
      MissingFacts(instances[..n], seen);
      assert instances == instances[..n] + [instances[n]];
      var r := Missing(instances[..n], seen);
      SnocNoDup(r, instances[n]);
      SubsequenceLonger(r, instances[..n], instances[n]);
    } else {
      NoDupEmpty();
      EmptySubsequence(instances);
    }
  }

  // ---- A partition of the instances ----

  lemma UngroupedParts(saved: Layout, instances: seq<string>)
    ensures var p := Placing(saved, instances); var cleaned := CleanIds(saved.ungrouped, SetOf(instances), p.seen);
      && Items(Normal(saved, instances).ungrouped) == Items(cleaned) + Missing(instances, p.seen + SetOf(Items(cleaned)))
  {
    hide Placing, CleanIds;
    var p := Placing(saved, instances);
    var cleaned := CleanIds(saved.ungrouped, SetOf(instances), p.seen);
    assert Items(cleaned) + [] == Items(cleaned);
  }

  /** Whatever was saved: every instance is in exactly one list, and nothing else is in any. */
  lemma Partition(saved: Layout, instances: seq<string>)
    ensures var out := Normal(saved, instances);
      NoDup(AllMembers(out)) && SetOf(AllMembers(out)) == SetOf(instances)
  {
    var available := SetOf(instances);
    var p := Placing(saved, instances);
    PlacingWell(saved, instances);
    UngroupedParts(saved, instances);
    hide Placing, NoDup, Ordered, AllFrom, Subsequence, Missing, Clean;
    var cleaned := CleanIds(saved.ungrouped, available, p.seen);
    if saved.ungrouped.Some? {
      CleanFacts(saved.ungrouped.value, available, p.seen);
    } else {
      NoDupEmpty();
    }
    var missing := Missing(instances, p.seen + SetOf(Items(cleaned)));
    MissingFacts(instances, p.seen + SetOf(Items(cleaned)));
    JoinNoDup(Items(cleaned), missing);
    JoinNoDup(MembersOf(p.groups), Items(cleaned) + missing);
  }

  // ---- The group order ----

  lemma {:induction false} GroupedFacts(order: seq<string>)
    ensures forall x :: x in Grouped(order) <==> x in order && x != UNGROUPED
    ensures NoDup(order) ==> NoDup(Grouped(order))
  {
    hide NoDup;
    if order != [] {
      var n := |order| - 1;
      GroupedFacts(order[..n]);
      assert order == order[..n] + [order[n]];
      SnocNoDup(order[..n], order[n]);
      SnocNoDup(Grouped(order[..n]), order[n]);
      assert Grouped(order[..n]) + [] == Grouped(order[..n]);
    } else {
      NoDupEmpty();
    }
  }

  /** The order names every saved group and the reserved id, each once; the groups come in that order
      and none is lost, unless the saved ones hold a group of the reserved id. */
  lemma OrderComplete(saved: Layout, instances: seq<string>)
    ensures var out := Normal(saved, instances); var ids := SetOf(IdsOf(Items(saved.groups)));
      && NoDup(Items(out.groupOrder)) && SetOf(Items(out.groupOrder)) == ids + {UNGROUPED}
      && NoDup(IdsOf(Items(out.groups)))
      && (!ReservedGroup(saved) ==> IdsOf(Items(out.groups)) == Grouped(Items(out.groupOrder)) && SetOf(IdsOf(Items(out.groups))) == ids - {UNGROUPED})
      && (UNGROUPED in IdsOf(Items(out.groups)) <==> ReservedGroup(saved))
  {
    PlacingWell(saved, instances);
    var p := Placing(saved, instances);
    hide Placing, NoDup, Disjoint, AllFrom, IdsOf, CleanIds, Grouped;
    SnocNoDup(p.order, UNGROUPED);
    GroupedSnoc(p.order, UNGROUPED);
    GroupedFacts(p.order);
    assert Grouped(p.order) + [] == Grouped(p.order);
  }

  lemma {:induction false} OrderKept(ids: seq<string>, byId: map<string, Group>, available: set<string>)
    requires Keyed(byId)
    ensures Subsequence(PlaceOrder(ids, byId, available).order, ids)
  {
    if ids != [] {
      var n := |ids| - 1;
      OrderKept(ids[..n], byId, available);
      assert ids == ids[..n] + [ids[n]];
      hide Subsequence;
      SubsequenceLonger(PlaceOrder(ids[..n], byId, available).order, ids[..n], ids[n]);
    }
  }

  // ---- The relative order ----

  /** The saved group of an id: the last one that carries it. */
  predicate LastOf(groups: seq<Group>, i: nat) {
    i < |groups| && forall j :: i < j < |groups| ==> groups[j].id != groups[i].id
  }

  lemma {:induction false} ByIdIsLast(groups: seq<Group>, available: set<string>, id: string) returns (i: nat)
    requires id in ById(groups, available)
    ensures LastOf(groups, i) && groups[i].id == id
    ensures ById(groups, available)[id] == groups[i].(members := if groups[i].members.None? then None else Some(Known(groups[i].members.value, available)))
  {
    var n := |groups| - 1;
    if groups[n].id == id {
      i := n;
    } else {
      i := ByIdIsLast(groups[..n], available, id);
      assert forall j :: i < j < n ==> groups[..n][j] == groups[j];
    }
  }

  /** What became of a group: its name, and its members with some left out. */
  ghost predicate Keeps(g: Group, saved: Group) {
    && g.id == saved.id && g.name == saved.name && g.members.Some? == saved.members.Some?
    && Subsequence(Items(g.members), Items(saved.members))
  }

  lemma FromKeeps(g: Group, groups: seq<Group>, available: set<string>) returns (i: nat)
    requires From(g, ById(groups, available))
    ensures LastOf(groups, i) && Keeps(g, groups[i])
  {
    i := ByIdIsLast(groups, available, g.id);
    hide Subsequence;
    if groups[i].members.Some? {
      KnownSubsequence(groups[i].members.value, available);
      SubsequenceTransitive(Items(g.members), Known(groups[i].members.value, available), groups[i].members.value);
    }
  }

  ghost predicate KeepsOne(g: Group, saved: seq<Group>) {
    exists j: nat :: j < |saved| && LastOf(saved, j) && Keeps(g, saved[j])
  }

  /** The new order starts with the entries of the saved one that name a group or the reserved id. */
  ghost predicate OrderStarts(kept: seq<string>, saved: Layout, out: Layout) {
    && Subsequence(kept, Items(saved.groupOrder)) && kept <= Items(out.groupOrder)
    && forall x :: x in kept <==> x in Items(saved.groupOrder) && (x == UNGROUPED || x in IdsOf(Items(saved.groups)))
  }

  /** Outside the groups: some of the saved ids, then instances that were nowhere. */
  ghost predicate UngroupedGrew(kept: seq<string>, added: seq<string>, saved: Layout, out: Layout, instances: seq<string>) {
    && Items(out.ungrouped) == kept + added
    && Subsequence(kept, Items(saved.ungrouped)) && Subsequence(added, instances)
    && forall x :: x in added ==> x !in Items(saved.ungrouped) && x !in MembersOf(Items(out.groups))
  }

  /** No list is reordered: groups keep their name and the relative order of their members, the order
      of the groups starts with the saved one, and only unplaced instances are added, at the end. */
  lemma RelativeOrder(saved: Layout, instances: seq<string>)
    ensures var out := Normal(saved, instances);
      && (forall i :: 0 <= i < |Items(out.groups)| ==> KeepsOne(Items(out.groups)[i], Items(saved.groups)))
      && (exists kept :: OrderStarts(kept, saved, out))
      && (exists kept, added :: UngroupedGrew(kept, added, saved, out, instances))
  {
    hide *;
    KeptGroups(saved, instances);
    KeptOrder(saved, instances);
    KeptUngrouped(saved, instances);
  }

  lemma KeptGroups(saved: Layout, instances: seq<string>)
    ensures var out := Normal(saved, instances);
      forall i :: 0 <= i < |Items(out.groups)| ==> KeepsOne(Items(out.groups)[i], Items(saved.groups))
  {
    PlacingWell(saved, instances);
    var p := Placing(saved, instances);
    hide Placing, Disjoint, Ordered, Keeps, From, CleanIds;
    forall i | 0 <= i < |p.groups| ensures KeepsOne(p.groups[i], Items(saved.groups)) {
      var j := FromKeeps(p.groups[i], Items(saved.groups), SetOf(instances));
    }
  }

  lemma KeptOrder(saved: Layout, instances: seq<string>)
    ensures exists kept :: OrderStarts(kept, saved, Normal(saved, instances))
  {
    var groups, ids, available := Items(saved.groups), Items(saved.groupOrder), SetOf(instances);
    var byId := ById(groups, available);
    KeyedById(groups, available);
    var first := PlaceOrder(ids, byId, available);
    var p := Placing(saved, instances);
    hide ById, PlaceOrder, PlaceRest, Disjoint, AllFrom, Keyed, Subsequence, NoDup, CleanIds, IdsOf;
    OrderWell(ids, byId, available);
    RestWell(groups, byId, available, first);
    OrderKept(ids, byId, available);
    assert forall x :: x in first.order <==> x in SetOf(first.order);
    assert forall x :: x in IdsOf(groups) <==> x in SetOf(IdsOf(groups));
    assert OrderStarts(first.order, saved, Normal(saved, instances));
  }

  lemma KeptUngrouped(saved: Layout, instances: seq<string>)
    ensures exists kept, added :: UngroupedGrew(kept, added, saved, Normal(saved, instances), instances)
  {
    PlacingWell(saved, instances);
    UngroupedParts(saved, instances);
    var p := Placing(saved, instances);
    var available := SetOf(instances);
    hide Placing, Ordered, AllFrom, Subsequence, Missing, Clean, NoDup;
    var cleaned := CleanIds(saved.ungrouped, available, p.seen);
    if saved.ungrouped.Some? {
      CleanFacts(saved.ungrouped.value, available, p.seen);
    } else {
      EmptySubsequence([]);
    }
    var missing := Missing(instances, p.seen + SetOf(Items(cleaned)));
    MissingFacts(instances, p.seen + SetOf(Items(cleaned)));
    assert UngroupedGrew(Items(cleaned), missing, saved, Normal(saved, instances), instances);
  }

  // ---- Validity ----

  lemma NameKept(saved: Layout, out: Layout, i: nat) returns (j: nat)
    requires i < |Items(out.groups)| && KeepsOne(Items(out.groups)[i], Items(saved.groups))
    ensures j < |Items(saved.groups)| && Keeps(Items(out.groups)[i], Items(saved.groups)[j])
  {
    j :| j < |Items(saved.groups)| && LastOf(Items(saved.groups), j) && Keeps(Items(out.groups)[i], Items(saved.groups)[j]);
  }

  lemma {:induction false} SubsequenceLength(a: seq<string>, b: seq<string>)
    requires Subsequence(a, b)
    ensures |a| <= |b|
    decreases |b|
  {
    if a != [] {
      if a[|a| - 1] == b[|b| - 1] {
        SubsequenceLength(a[..|a| - 1], b[..|b| - 1]);
      } else {
        SubsequenceLength(a, b[..|b| - 1]);
      }
    }
  }

  lemma GroupsStayValid(saved: Layout, instances: seq<string>)
    requires ValidLayout(saved)
    ensures ValidGroups(Items(Normal(saved, instances).groups))
  {
    var out := Normal(saved, instances);
    var groups, news := Items(saved.groups), Items(out.groups);
    UngroupedIsNoUuid(groups);
    OrderComplete(saved, instances);
    RelativeOrder(saved, instances);
    hide Normal, IsUuid, ValidName, NoDup, IdsOf, NamesOf, Grouped, Subsequence, KeepsOne, OrderStarts, UngroupedGrew, AllMembers;
    assert UNGROUPED !in IdsOf(groups) by {
      assert UNGROUPED !in SetOf(IdsOf(groups));
    }
    SameCount(news, groups);
    forall i | 0 <= i < |news| ensures IsUuid(news[i].id) && ValidName(news[i].name) && |Items(news[i].members)| <= MAX_MEMBERS {
      var j := NameKept(saved, out, i);
      SubsequenceLength(Items(news[i].members), Items(groups[j].members));
    }
    NamesStayDistinct(saved, out);
  }

  lemma SameCount(a: seq<Group>, b: seq<Group>)
    requires NoDup(IdsOf(a)) && NoDup(IdsOf(b)) && SetOf(IdsOf(a)) == SetOf(IdsOf(b)) - {UNGROUPED}
    ensures |a| <= |b|
  {
    SizeOfList(IdsOf(a));
    SizeOfList(IdsOf(b));
    SubsetSize(SetOf(IdsOf(a)), SetOf(IdsOf(b)));
  }

  lemma NamesStayDistinct(saved: Layout, out: Layout)
    requires NoDup(IdsOf(Items(out.groups))) && NoDup(NamesOf(Items(saved.groups)))
    requires forall i :: 0 <= i < |Items(out.groups)| ==> KeepsOne(Items(out.groups)[i], Items(saved.groups))
    ensures NoDup(NamesOf(Items(out.groups)))
  {
    var groups, news := Items(saved.groups), Items(out.groups);
    hide KeepsOne, T.Lower, Subsequence;
    forall i, k | 0 <= i < k < |news| ensures NamesOf(news)[i] != NamesOf(news)[k] {
      var j := NameKept(saved, out, i);
      var l := NameKept(saved, out, k);
      assert IdsOf(news)[i] != IdsOf(news)[k];
      assert NamesOf(groups)[j] != NamesOf(groups)[l];
    }
  }

  /** A valid layout stays valid while there are at most as many instances as a layout may hold. */
  lemma ValidityKept(saved: Layout, instances: seq<string>)
    requires ValidLayout(saved)
    requires |SetOf(instances)| <= MAX_INSTANCES && forall x :: x in instances ==> IsUuid(x)
    ensures ValidLayout(Normal(saved, instances))
  {
    var out := Normal(saved, instances);
    var order, members := Items(out.groupOrder), AllMembers(out);
    GroupsStayValid(saved, instances);
    UngroupedIsNoUuid(Items(saved.groups));
    OrderComplete(saved, instances);
    Partition(saved, instances);
    hide Normal, IsUuid, ValidName, NoDup, IdsOf, NamesOf, Grouped, AllMembers;
    assert UNGROUPED !in IdsOf(Items(saved.groups)) by {
      assert UNGROUPED !in SetOf(IdsOf(Items(saved.groups)));
    }
    SizeOfList(members);
    OrderSize(order, Items(out.groups));
    assert forall i :: 0 <= i < |members| ==> members[i] in SetOf(members);
  }

  lemma OrderSize(order: seq<string>, groups: seq<Group>)
    requires NoDup(order) && SetOf(order) == SetOf(IdsOf(groups)) + {UNGROUPED} && NoDup(IdsOf(groups))
    ensures |order| <= |groups| + 1
  {
    SizeOfList(order);
    SizeOfList(IdsOf(groups));
  }

  // ---- The fixpoint ----

  /** A layout in normal form for these instances. */
  ghost predicate Settled(l: Layout, instances: seq<string>) {
    && l.revision > 0 && l.groupOrder.Some? && l.groups.Some?
    && NoDup(l.groupOrder.value) && UNGROUPED in l.groupOrder.value
    && IdsOf(l.groups.value) == Grouped(l.groupOrder.value)
    && NoDup(AllMembers(l)) && SetOf(AllMembers(l)) == SetOf(instances)
  }

  lemma NormalSettles(saved: Layout, instances: seq<string>)
    requires !ReservedGroup(saved)
    ensures Settled(Normal(saved, instances), instances)
  {
    OrderComplete(saved, instances);
    Partition(saved, instances);
    hide Placing, NoDup, IdsOf, Grouped, AllMembers;
    var order := Items(Normal(saved, instances).groupOrder);
    assert UNGROUPED in SetOf(order);
  }

  lemma {:induction false} ByIdGives(groups: seq<Group>, available: set<string>, i: nat)
    requires i < |groups| && NoDup(IdsOf(groups))
    ensures groups[i].id in ById(groups, available)
    ensures ById(groups, available)[groups[i].id] == groups[i].(members := if groups[i].members.None? then None else Some(Known(groups[i].members.value, available)))
  {
    var n := |groups| - 1;
    assert groups == groups[..n] + [groups[n]];
    MembersSnoc(groups[..n], groups[n]);
    SnocNoDup(IdsOf(groups[..n]), groups[n].id);
    if i < n {
      assert IdsOf(groups)[i] != IdsOf(groups)[n];
      ByIdGives(groups[..n], available, i);
    }
  }

  /** The members of one group of a settled layout: known, distinct, and in no earlier group. */
  lemma MembersStay(groups: seq<Group>, rest: seq<string>, k: nat, available: set<string>)
    requires k < |groups| && NoDup(MembersOf(groups) + rest) && SetOf(MembersOf(groups) + rest) <= available
    ensures var m := groups[k].members;
      && CleanIds(m, available, SetOf(MembersOf(groups[..k]))) == m
      && (m.Some? ==> Known(m.value, available) == m.value)
      && MembersOf(groups[..k + 1]) == MembersOf(groups[..k]) + Items(m)
  {
    var members := Items(groups[k].members);
    assert groups[..k + 1] == groups[..k] + [groups[k]];
    MembersSnoc(groups[..k], groups[k]);
    MembersPrefix(groups, k + 1, rest);
    JoinNoDup(MembersOf(groups[..k]), members);
    var all := MembersOf(groups) + rest;
    forall x | x in members ensures x in available && x !in SetOf(MembersOf(groups[..k])) {
      assert x in MembersOf(groups[..k + 1]);
      assert x in all;
      assert x in SetOf(all);
    }
    CleanKeeps(members, available, SetOf(MembersOf(groups[..k])));
    KnownKeeps(members, available);
  }

  lemma {:induction false} GroupedPrefix(order: seq<string>, n: nat)
    requires n <= |order|
    ensures Grouped(order[..n]) <= Grouped(order)
    decreases |order| - n
  {
    if n < |order| {
      GroupedPrefix(order, n + 1);
      assert order[..n + 1] == order[..n] + [order[n]];
      GroupedSnoc(order[..n], order[n]);
    } else {
      assert order[..n] == order;
    }
  }

  /** The first loop rebuilds a settled layout entry by entry. */
  lemma {:induction false} OrderRebuilds(l: Layout, instances: seq<string>, n: nat)
    requires Settled(l, instances) && n <= |l.groupOrder.value|
    ensures var order, groups := l.groupOrder.value, l.groups.value; var k := |Grouped(order[..n])|;
      && k <= |groups|
      && PlaceOrder(order[..n], ById(groups, SetOf(instances)), SetOf(instances)) == Rebuilt(order[..n], groups[..k])
  {
    var order, groups, available := l.groupOrder.value, l.groups.value, SetOf(instances);
    GroupedPrefix(order, n);
    if n > 0 {
      var m := n - 1;
      OrderRebuilds(l, instances, m);
      EntryRebuilds(l, instances, m);
      assert order[..n][..m] == order[..m];
    } else {
      assert order[..n] == [] && groups[..0] == [];
    }
  }

  /** What the first loop has rebuilt after some entries and some groups. */
  ghost function Rebuilt(order: seq<string>, groups: seq<Group>): Placed {
    Placed(groups, order, SetOf(order), SetOf(MembersOf(groups)))
  }

  /** Entry m of a settled layout: a new id, and the next group unless it is the reserved one. */
  lemma EntryFacts(l: Layout, instances: seq<string>, m: nat)
    requires Settled(l, instances) && m < |l.groupOrder.value|
    ensures var order, groups, available := l.groupOrder.value, l.groups.value, SetOf(instances);
      var k := |Grouped(order[..m])|;
      && order[m] !in SetOf(order[..m]) && order[..m + 1] == order[..m] + [order[m]]
      && k <= |groups|
      && (order[m] == UNGROUPED ==> |Grouped(order[..m + 1])| == k)
      && (order[m] != UNGROUPED ==> |Grouped(order[..m + 1])| == k + 1 && k < |groups| && groups[k].id == order[m])
  {
    var order, groups := l.groupOrder.value, l.groups.value;
    assert NoDup(order) && IdsOf(groups) == Grouped(order);
    hide Settled, NoDup, Grouped, SetOf;
    GroupedPrefix(order, m);
    GroupedPrefix(order, m + 1);
    assert order[..m + 1] == order[..m] + [order[m]];
    GroupedSnoc(order[..m], order[m]);
    PrefixNoDup(order, m + 1);
    SnocNoDup(order[..m], order[m]);
    InSet(order[..m], order[m]);
    var k := |Grouped(order[..m])|;
    if order[m] != UNGROUPED {
      assert Grouped(order)[k] == order[m];
      assert IdsOf(groups)[k] == groups[k].id;
    }
  }

  lemma InSet(s: seq<string>, x: string)
    ensures x in SetOf(s) <==> x in s
  {}

  lemma EntryRebuilds(l: Layout, instances: seq<string>, m: nat)
    requires Settled(l, instances) && m < |l.groupOrder.value|
    ensures var order, groups, available := l.groupOrder.value, l.groups.value, SetOf(instances);
      var k, k' := |Grouped(order[..m])|, |Grouped(order[..m + 1])|;
      && k <= k' <= |groups|
      && PlaceEntry(order[m], ById(groups, available), available, Rebuilt(order[..m], groups[..k])) == Rebuilt(order[..m + 1], groups[..k'])
  {
    EntryFacts(l, instances, m);
    var order, groups, available := l.groupOrder.value, l.groups.value, SetOf(instances);
    var k := |Grouped(order[..m])|;
    SnocNoDup(order[..m], order[m]);
    GroupedFacts(order);
    hide NoDup, Grouped, ById, MembersOf, Clean, Known, PlaceGroup;
    if order[m] != UNGROUPED {
      ByIdGives(groups, available, k);
      MembersStay(groups, Items(l.ungrouped), k, available);
      GroupRebuilds(order[..m], groups, k, available);
      assert ById(groups, available)[order[m]] == groups[k];
    }
  }

  lemma GroupRebuilds(order: seq<string>, groups: seq<Group>, k: nat, available: set<string>)
    requires k < |groups| && CleanIds(groups[k].members, available, SetOf(MembersOf(groups[..k]))) == groups[k].members
    requires MembersOf(groups[..k + 1]) == MembersOf(groups[..k]) + Items(groups[k].members)
    ensures PlaceGroup(groups[k], available, Rebuilt(order, groups[..k])) == Rebuilt(order + [groups[k].id], groups[..k + 1])
  {
    hide NoDup, MembersOf, Clean;
    JoinNoDup(MembersOf(groups[..k]), Items(groups[k].members));
    SnocNoDup(order, groups[k].id);
    assert groups[..k + 1] == groups[..k] + [groups[k]];
    assert groups[k].(members := groups[k].members) == groups[k];
  }

  lemma PrefixNoDup(s: seq<string>, n: nat)
    requires n <= |s| && NoDup(s)
    ensures NoDup(s[..n])
  {}

  lemma {:induction false} RestAddsNothing(groups: seq<Group>, byId: map<string, Group>, available: set<string>, p: Placed)
    requires forall i :: 0 <= i < |groups| ==> groups[i].id in p.seenGroups
    ensures PlaceRest(groups, byId, available, p) == p
  {
    if groups != [] {
      RestAddsNothing(groups[..|groups| - 1], byId, available, p);
    }
  }

  /** Normalising a layout in normal form returns it unchanged. */
  lemma SettledStays(l: Layout, instances: seq<string>)
    requires Settled(l, instances)
    ensures Normal(l, instances) == l
  {
    var order, groups, available := l.groupOrder.value, l.groups.value, SetOf(instances);
    OrderRebuilds(l, instances, |order|);
    assert order[..|order|] == order;
    assert |Grouped(order)| == |groups| && groups[..|groups|] == groups;
    GroupedFacts(order);
    forall i | 0 <= i < |groups| ensures groups[i].id in SetOf(order) {
      assert IdsOf(groups)[i] in Grouped(order);
    }
    var byId := ById(groups, available);
    var p := Rebuilt(order, groups);
    RestAddsNothing(groups, byId, available, p);
    var rest := Items(l.ungrouped);
    JoinNoDup(MembersOf(groups), rest);
    forall x | x in rest ensures x in available && x !in p.seen {
      assert x in SetOf(AllMembers(l));
    }
    CleanKeeps(rest, available, p.seen);
    NothingMissing(instances, p.seen + SetOf(rest));
  }

  lemma NothingMissing(instances: seq<string>, seen: set<string>)
    requires SetOf(instances) <= seen
    ensures Missing(instances, seen) == []
  {
    MissingFacts(instances, seen);
    forall x | x in instances ensures x in seen {
      assert x in SetOf(instances);
    }
  }

  /** Normalisation reports no change for exactly the layouts in normal form. */
  lemma UnchangedIff(l: Layout, instances: seq<string>)
    ensures Normal(l, instances) == l <==> Settled(l, instances)
  {
    if Normal(l, instances) == l {
      OrderComplete(l, instances);
      assert UNGROUPED in SetOf(Items(l.groupOrder));
      NormalSettles(l, instances);
    }
    if Settled(l, instances) {
      SettledStays(l, instances);
    }
  }

  /** Normalising twice is normalising once, unless a group carries the reserved id and the order does
      not name it: then that group is placed by the first pass and dropped by the second. */
  lemma FixpointIff(saved: Layout, instances: seq<string>)
    ensures Normal(Normal(saved, instances), instances) == Normal(saved, instances) <==> !ReservedGroup(saved)
  {
    var out := Normal(saved, instances);
    UnchangedIff(out, instances);
    if ReservedGroup(saved) {
      OrderComplete(saved, instances);
      GroupedFacts(Items(out.groupOrder));
    } else {
      NormalSettles(saved, instances);
    }
  }

  /** A valid layout never has such a group. */
  lemma ValidHasNoReservedGroup(saved: Layout)
    requires ValidLayout(saved)
    ensures !ReservedGroup(saved)
  {
    UngroupedIsNoUuid(Items(saved.groups));
    assert forall x :: x in IdsOf(Items(saved.groups)) <==> x in SetOf(IdsOf(Items(saved.groups)));
  }

  /** The layout made from the flat order is in normal form when no two instances share an id. */
  lemma LegacySettles(order: seq<string>, instances: Ids)
    requires NoDup(Items(instances))
    ensures Settled(Layout(1, Some([UNGROUPED]), Some([]), LegacyOrder(order, instances)), Items(instances))
  {
    LegacyOrderIsComplete(order, instances);
    var l := Layout(1, Some([UNGROUPED]), Some([]), LegacyOrder(order, instances));
    assert AllMembers(l) == Items(LegacyOrder(order, instances));
  }
}
