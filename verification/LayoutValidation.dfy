/** What a stored order and a stored layout must satisfy, and the validators that check it. */
module LayoutValidation {
  import T = SshText
  import opened Layout

  const MAX_INSTANCES := 256
  const MAX_GROUPS := 256
  const MAX_MEMBERS := 10
  const MAX_NAME := 64

  predicate IsHex(c: char) {
    '0' <= c <= '9' || 'a' <= c <= 'f'
  }

  /** A lower-case version 4 identifier. */
  predicate IsUuid(s: string) {
    && |s| == 36
    && (forall i :: 0 <= i < 36 ==> if i in {8, 13, 18, 23} then s[i] == '-' else IsHex(s[i]))
    && s[14] == '4' && s[19] in {'8', '9', 'a', 'b'}
  }

  // ---- What the patterns stand for ----

  predicate HexText(s: string, n: nat) {
    |s| == n && forall i :: 0 <= i < n ==> IsHex(s[i])
  }

  function Dashed(a: string, b: string, c: string, d: string, e: string): string {
    a + "-" + b + "-4" + c + "-" + d + "-" + e
  }

  predicate Parts(a: string, b: string, c: string, d: string, e: string) {
    HexText(a, 8) && HexText(b, 4) && HexText(c, 3) && HexText(d, 4) && d[0] in {'8', '9', 'a', 'b'} && HexText(e, 12)
  }

  /** Five groups of hexadecimal digits, the third with the version in front. */
  lemma UuidIff(s: string)
    ensures IsUuid(s) <==> exists a, b, c, d, e :: s == Dashed(a, b, c, d, e) && Parts(a, b, c, d, e)
  {
    if IsUuid(s) {
      UuidSplits(s);
    }
    forall a, b, c, d, e | s == Dashed(a, b, c, d, e) && Parts(a, b, c, d, e) ensures IsUuid(s) {
      DashedIsUuid(a, b, c, d, e);
    }
  }

  lemma UuidSplits(s: string)
    requires IsUuid(s)
    ensures s == Dashed(s[..8], s[9..13], s[15..18], s[19..23], s[24..]) && Parts(s[..8], s[9..13], s[15..18], s[19..23], s[24..])
  {
    hide IsHex;
    assert s == s[..8] + "-" + s[9..13] + "-4" + s[15..18] + "-" + s[19..23] + "-" + s[24..];
  }

  lemma DashedIsUuid(a: string, b: string, c: string, d: string, e: string)
    requires Parts(a, b, c, d, e)
    ensures IsUuid(Dashed(a, b, c, d, e))
  {
    assert IsHex('4');
    hide IsHex;
    var s := Dashed(a, b, c, d, e);
    assert s[..8] == a && s[9..13] == b && s[15..18] == c && s[19..23] == d && s[24..] == e;
    forall i | 0 <= i < 36 ensures if i in {8, 13, 18, 23} then s[i] == '-' else IsHex(s[i]) {
      if i < 8 {
        assert s[i] == a[i];
      } else if 9 <= i < 13 {
        assert s[i] == b[i - 9];
      } else if 15 <= i < 18 {
        assert s[i] == c[i - 15];
      } else if 19 <= i < 23 {
        assert s[i] == d[i - 19];
      } else if 24 <= i {
        assert s[i] == e[i - 24];
      }
    }
  }

  lemma HexIs(c: char)
    ensures IsHex(c) <==> c in "0123456789abcdef"
  {
    var digits := "0123456789abcdef";
    if '0' <= c <= '9' {
      assert digits[(c - '0') as int] == c;
    } else if 'a' <= c <= 'f' {
      assert digits[10 + (c - 'a') as int] == c;
    }
  }

  predicate NameChar(c: char) {
    ' ' <= c && c != '\U{7f}'
  }

  predicate ValidName(name: string) {
    && name != "" && !T.IsSpace(name[0]) && !T.IsSpace(name[|name| - 1])
    && T.Lower(name) != UNGROUPED && |name| <= MAX_NAME
    && forall i :: 0 <= i < |name| ==> NameChar(name[i])
  }

  /** A name is one to sixty-four visible characters and blanks, with no blank around it, that does not read "ungrouped". */
  lemma NameIff(name: string)
    ensures ValidName(name) <==>
      && 1 <= |name| <= 64 && name[0] != ' ' && name[|name| - 1] != ' '
      && (forall c :: c in name ==> c == ' ' || '!' <= c <= '~' || c > '\U{7f}')
      && (|name| == |UNGROUPED| ==> exists i :: 0 <= i < |UNGROUPED| && name[i] != UNGROUPED[i] && name[i] as int != UNGROUPED[i] as int - 32)
  {
    T.LowerIs(name);
    assert forall i :: 0 <= i < |name| ==> name[i] in name;
    ReadsUngrouped(name);
  }

  lemma ReadsUngrouped(name: string)
    ensures T.Lower(name) == UNGROUPED <==>
      |name| == |UNGROUPED| && forall i :: 0 <= i < |UNGROUPED| ==> name[i] == UNGROUPED[i] || name[i] as int == UNGROUPED[i] as int - 32
  {
    T.LowerIs(name);
    assert forall i :: 0 <= i < |UNGROUPED| ==> 'a' <= UNGROUPED[i] <= 'z';
    hide T.Lower;
    if |name| == |UNGROUPED| && forall i :: 0 <= i < |UNGROUPED| ==> name[i] == UNGROUPED[i] || name[i] as int == UNGROUPED[i] as int - 32 {
      forall i | 0 <= i < |UNGROUPED| ensures T.Lower(name)[i] == UNGROUPED[i] {
        assert T.Lower(name)[i] as int == UNGROUPED[i] as int;
      }
      assert T.Lower(name) == UNGROUPED;
    }
  }

  ghost predicate ValidOrder(order: seq<string>) {
    |order| <= MAX_INSTANCES && (forall i :: 0 <= i < |order| ==> IsUuid(order[i])) && NoDup(order)
  }

  function IdsOf(groups: seq<Group>): (r: seq<string>)
    ensures |r| == |groups| && forall i :: 0 <= i < |r| ==> r[i] == groups[i].id
  {
    seq(|groups|, i requires 0 <= i < |groups| => groups[i].id)
  }

  function NamesOf(groups: seq<Group>): (r: seq<string>)
    ensures |r| == |groups| && forall i :: 0 <= i < |r| ==> r[i] == T.Lower(groups[i].name)
  {
    seq(|groups|, i requires 0 <= i < |groups| => T.Lower(groups[i].name))
  }

  /** The members of all groups, one list after the other. */
  function MembersOf(groups: seq<Group>): seq<string> {
    if groups == [] then [] else MembersOf(groups[..|groups| - 1]) + Items(groups[|groups| - 1].members)
  }

  function AllMembers(l: Layout): seq<string> {
    MembersOf(Items(l.groups)) + Items(l.ungrouped)
  }

  ghost predicate ValidGroups(groups: seq<Group>) {
    && |groups| <= MAX_GROUPS
    && (forall i :: 0 <= i < |groups| ==> IsUuid(groups[i].id) && ValidName(groups[i].name) && |Items(groups[i].members)| <= MAX_MEMBERS)
    && NoDup(IdsOf(groups)) && NoDup(NamesOf(groups))
  }

  ghost predicate ValidLayout(l: Layout) {
    && ValidGroups(Items(l.groups))
    && |Items(l.groupOrder)| <= MAX_GROUPS + 1
    && NoDup(Items(l.groupOrder))
    && SetOf(Items(l.groupOrder)) == SetOf(IdsOf(Items(l.groups))) + {UNGROUPED}
    && NoDup(AllMembers(l)) && |AllMembers(l)| <= MAX_INSTANCES
    && forall i :: 0 <= i < |AllMembers(l)| ==> IsUuid(AllMembers(l)[i])
  }

  /** The order of a valid layout lists each group and the reserved id, each at one place, and nothing else. */
  lemma OrderListsGroups(l: Layout)
    requires ValidLayout(l)
    ensures var order, groups := Items(l.groupOrder), Items(l.groups);
      && (forall i, j :: 0 <= i < |order| && 0 <= j < |order| && order[i] == order[j] ==> i == j)
      && (forall i :: 0 <= i < |order| ==> order[i] == "ungrouped" || exists g :: 0 <= g < |groups| && groups[g].id == order[i])
      && (forall g :: 0 <= g < |groups| ==> exists i :: 0 <= i < |order| && order[i] == groups[g].id)
      && exists i :: 0 <= i < |order| && order[i] == "ungrouped"
  {
    hide IsUuid, ValidName, T.Lower, AllMembers;
    var order, groups := Items(l.groupOrder), Items(l.groups);
    var ids := IdsOf(groups);
    assert UNGROUPED in SetOf(order);
    forall i | 0 <= i < |order| ensures order[i] == UNGROUPED || exists g :: 0 <= g < |groups| && groups[g].id == order[i] {
      assert order[i] in SetOf(order);
      if order[i] != UNGROUPED {
        var g :| 0 <= g < |ids| && ids[g] == order[i];
      }
    }
    forall g | 0 <= g < |groups| ensures exists i :: 0 <= i < |order| && order[i] == groups[g].id {
      assert ids[g] in SetOf(ids);
      assert groups[g].id in SetOf(order);
    }
  }

  // ---- The validators ----

  method ValidateConnectionInstanceOrder(order: seq<string>) returns (ok: bool)
    ensures ok <==> ValidOrder(order)
  {
    hide IsUuid;
    if |order| > MAX_INSTANCES {
      return false;
    }
    var seen: set<string> := {};
    for i := 0 to |order|
      invariant seen == set j | 0 <= j < i :: order[j]
      invariant forall j :: 0 <= j < i ==> IsUuid(order[j])
      invariant forall j, k :: 0 <= j < k < i ==> order[j] != order[k]
    {
      if !IsUuid(order[i]) {
        return false;
      }
      if order[i] in seen {
        return false;
      }
      seen := seen + {order[i]};
    }
    return true;
  }

  method ValidateGroupName(name: string) returns (ok: bool)
    ensures ok <==> ValidName(name)
  {
    hide T.Lower, T.IsSpace;
    if name == "" || T.IsSpace(name[0]) || T.IsSpace(name[|name| - 1]) || T.Lower(name) == UNGROUPED {
      return false;
    }
    if |name| > MAX_NAME {
      return false;
    }
    for i := 0 to |name|
      invariant forall j :: 0 <= j < i ==> NameChar(name[j])
    {
      if name[i] < ' ' || name[i] == '\U{7f}' {
        return false;
      }
    }
    return true;
  }

  /** What the loop over the groups has checked. */
  ghost predicate GroupsChecked(groups: seq<Group>, n: nat, ids: set<string>, names: set<string>)
    requires n <= |groups|
  {
    && ids == SetOf(IdsOf(groups[..n])) && names == SetOf(NamesOf(groups[..n]))
    && (forall i :: 0 <= i < n ==> IsUuid(groups[i].id) && ValidName(groups[i].name) && |Items(groups[i].members)| <= MAX_MEMBERS)
    && NoDup(IdsOf(groups[..n])) && NoDup(NamesOf(groups[..n]))
  }

  lemma GroupChecked(groups: seq<Group>, n: nat, ids: set<string>, names: set<string>)
    requires n < |groups| && GroupsChecked(groups, n, ids, names)
    requires IsUuid(groups[n].id) && ValidName(groups[n].name) && |Items(groups[n].members)| <= MAX_MEMBERS
    requires groups[n].id !in ids && T.Lower(groups[n].name) !in names
    ensures GroupsChecked(groups, n + 1, ids + {groups[n].id}, names + {T.Lower(groups[n].name)})
  {
    hide IsUuid, ValidName, T.Lower;
    assert IdsOf(groups[..n + 1]) == IdsOf(groups[..n]) + [groups[n].id];
    assert NamesOf(groups[..n + 1]) == NamesOf(groups[..n]) + [T.Lower(groups[n].name)];
    SnocNoDup(IdsOf(groups[..n]), groups[n].id);
    SnocNoDup(NamesOf(groups[..n]), T.Lower(groups[n].name));
  }

  method ValidateGroups(groups: seq<Group>) returns (ok: bool, ids: set<string>)
    requires |groups| <= MAX_GROUPS
    ensures ok <==> ValidGroups(groups)
    ensures ok ==> ids == SetOf(IdsOf(groups))
  {
    hide IsUuid, ValidName, T.Lower, GroupsChecked;
    ids := {};
    var names: set<string> := {};
    NothingChecked(groups);
    for i := 0 to |groups|
      invariant GroupsChecked(groups, i, ids, names)
    {
      GroupFails(groups, i, ids, names);
      if !IsUuid(groups[i].id) {
        return false, {};
      }
      if groups[i].id in ids {
        return false, {};
      }
      var named := ValidateGroupName(groups[i].name);
      if !named {
        return false, {};
      }
      var nameKey := T.Lower(groups[i].name);
      if nameKey in names {
        return false, {};
      }
      if |Items(groups[i].members)| > MAX_MEMBERS {
        return false, {};
      }
      GroupChecked(groups, i, ids, names);
      ids, names := ids + {groups[i].id}, names + {nameKey};
    }
    AllChecked(groups, ids, names);
    return true, ids;
  }

  lemma NothingChecked(groups: seq<Group>)
    ensures GroupsChecked(groups, 0, {}, {})
  {}

  lemma AllChecked(groups: seq<Group>, ids: set<string>, names: set<string>)
    requires GroupsChecked(groups, |groups|, ids, names) && |groups| <= MAX_GROUPS
    ensures ValidGroups(groups) && ids == SetOf(IdsOf(groups))
  {
    assert groups[..|groups|] == groups;
  }

  lemma GroupFails(groups: seq<Group>, n: nat, ids: set<string>, names: set<string>)
    requires n < |groups| && GroupsChecked(groups, n, ids, names)
    ensures ValidGroups(groups) ==>
      && IsUuid(groups[n].id) && ValidName(groups[n].name) && |Items(groups[n].members)| <= MAX_MEMBERS
      && groups[n].id !in ids && T.Lower(groups[n].name) !in names
  {
    hide IsUuid, ValidName, T.Lower;
    if ValidGroups(groups) {
      var a, b := IdsOf(groups), NamesOf(groups);
      assert a[n] == groups[n].id && b[n] == T.Lower(groups[n].name);
      forall i | 0 <= i < n ensures IdsOf(groups[..n])[i] != a[n] && NamesOf(groups[..n])[i] != b[n] {
        assert IdsOf(groups[..n])[i] == a[i] && NamesOf(groups[..n])[i] == b[i];
      }
    }
  }

  method ValidateGroupOrder(order: seq<string>, ids: set<string>) returns (ok: bool)
    requires UNGROUPED !in ids
    ensures ok <==> NoDup(order) && SetOf(order) == ids + {UNGROUPED}
  {
    var seenOrder: set<string>, ungrouped := {}, false;
    for i := 0 to |order|
      invariant seenOrder == SetOf(order[..i]) && NoDup(order[..i])
      invariant ungrouped == (UNGROUPED in seenOrder)
      invariant seenOrder <= ids + {UNGROUPED}
    {
      assert order[..i + 1] == order[..i] + [order[i]];
      SnocNoDup(order[..i], order[i]);
      OrderFails(order, i, ids);
      if order[i] == UNGROUPED {
        if ungrouped {
          return false;
        }
        ungrouped := true;
      } else if order[i] !in ids {
        return false;
      }
      if order[i] in seenOrder {
        return false;
      }
      seenOrder := seenOrder + {order[i]};
    }
    assert order[..|order|] == order;
    SubsetSize(seenOrder, ids + {UNGROUPED});
    return ungrouped && |seenOrder| == |ids| + 1;
  }

  lemma OrderFails(order: seq<string>, i: nat, ids: set<string>)
    requires i < |order|
    ensures NoDup(order) && SetOf(order) == ids + {UNGROUPED} ==> order[i] !in order[..i] && order[i] in ids + {UNGROUPED}
  {
    if NoDup(order) && SetOf(order) == ids + {UNGROUPED} {
      assert order[i] in SetOf(order);
      forall j | 0 <= j < i ensures order[..i][j] != order[i] {
      }
    }
  }

  lemma {:induction false} SubsetSize(a: set<string>, b: set<string>)
    requires a <= b
    ensures |a| <= |b| && (|a| == |b| ==> a == b)
  {
    if a != {} {
      var x :| x in a;
      SubsetSize(a - {x}, b - {x});
      if |a| == |b| {
        assert a == (a - {x}) + {x} && b == (b - {x}) + {x};
      }
    } else if |b| == 0 {
      assert b == {};
    }
  }

  /** Members of any list: identifiers that were not seen before. */
  method ValidateMembers(ids: seq<string>, instances: set<string>, ghost before: seq<string>) returns (ok: bool, seen: set<string>)
    requires instances == SetOf(before) && NoDup(before) && forall i :: 0 <= i < |before| ==> IsUuid(before[i])
    ensures ok <==> NoDup(before + ids) && forall i :: 0 <= i < |before + ids| ==> IsUuid((before + ids)[i])
    ensures ok ==> seen == SetOf(before + ids)
  {
    hide IsUuid;
    seen := instances;
    assert before + ids[..0] == before;
    for i := 0 to |ids|
      invariant seen == SetOf(before + ids[..i]) && NoDup(before + ids[..i])
      invariant forall j :: 0 <= j < |before + ids[..i]| ==> IsUuid((before + ids[..i])[j])
    {
      assert before + ids[..i + 1] == before + ids[..i] + [ids[i]];
      SnocNoDup(before + ids[..i], ids[i]);
      MemberFails(before, ids, i);
      if !IsUuid(ids[i]) {
        return false, {};
      }
      if ids[i] in seen {
        return false, {};
      }
      seen := seen + {ids[i]};
    }
    assert before + ids[..|ids|] == before + ids;
    return true, seen;
  }

  lemma MemberFails(before: seq<string>, ids: seq<string>, i: nat)
    requires i < |ids|
    ensures NoDup(before + ids) && (forall k :: 0 <= k < |before + ids| ==> IsUuid((before + ids)[k])) ==>
      IsUuid(ids[i]) && ids[i] !in before + ids[..i]
  {
    hide IsUuid;
    var all, first := before + ids, before + ids[..i];
    if NoDup(all) && forall k :: 0 <= k < |all| ==> IsUuid(all[k]) {
      assert all[|before| + i] == ids[i];
      forall k | 0 <= k < |first| ensures first[k] != ids[i] {
        assert first[k] == all[k];
      }
    }
  }

  method ValidateConnectionInstanceLayout(l: Layout) returns (ok: bool)
    ensures ok <==> ValidLayout(l)
  {
    hide IsUuid, ValidName, ValidGroups, T.Lower, MembersOf;
    NoMembers(Items(l.groups)[..0]);
    var groups, order := Items(l.groups), Items(l.groupOrder);
    if |groups| > MAX_GROUPS || |order| > MAX_GROUPS + 1 {
      TooMany(l);
      return false;
    }
    var groupsOk, groupIDs := ValidateGroups(groups);
    if !groupsOk {
      return false;
    }
    UngroupedIsNoUuid(groups);
    var orderOk := ValidateGroupOrder(order, groupIDs);
    if !orderOk {
      return false;
    }
    var instances: set<string> := {};
    for i := 0 to |groups|
      invariant instances == SetOf(MembersOf(groups[..i])) && NoDup(MembersOf(groups[..i]))
      invariant forall j :: 0 <= j < |MembersOf(groups[..i])| ==> IsUuid(MembersOf(groups[..i])[j])
    {
      MembersOneMore(groups, i);
      var members := Items(groups[i].members);
      MembersPrefix(groups, i + 1, Items(l.ungrouped));
      var membersOk, seen := ValidateMembers(members, instances, MembersOf(groups[..i]));
      if !membersOk {
        return false;
      }
      instances := seen;
    }
    assert groups[..|groups|] == groups;
    var restOk, seen := ValidateMembers(Items(l.ungrouped), instances, MembersOf(groups));
    if !restOk {
      return false;
    }
    SizeOfList(AllMembers(l));
    return |seen| <= MAX_INSTANCES;
  }

  lemma NoMembers(groups: seq<Group>)
    requires groups == []
    ensures MembersOf(groups) == []
  {}

  lemma MembersOneMore(groups: seq<Group>, i: nat)
    requires i < |groups|
    ensures MembersOf(groups[..i + 1]) == MembersOf(groups[..i]) + Items(groups[i].members)
  {
    assert groups[..i + 1][..i] == groups[..i];
  }

  lemma TooMany(l: Layout)
    requires |Items(l.groups)| > MAX_GROUPS || |Items(l.groupOrder)| > MAX_GROUPS + 1
    ensures !ValidLayout(l)
  {}

  lemma UngroupedIsNoUuid(groups: seq<Group>)
    requires ValidGroups(groups)
    ensures UNGROUPED !in SetOf(IdsOf(groups))
  {
    assert !IsUuid(UNGROUPED);
  }

  lemma {:induction false} SizeOfList(s: seq<string>)
    requires NoDup(s)
    ensures |SetOf(s)| == |s|
  {
    if s != [] {
      var n := |s| - 1;
      SizeOfList(s[..n]);
      assert s == s[..n] + [s[n]];
      SnocNoDup(s[..n], s[n]);
    }
  }

  /** The members of the first groups come first in the whole list. */
  lemma {:induction false} MembersPrefix(groups: seq<Group>, n: nat, rest: seq<string>)
    requires n <= |groups|
    ensures MembersOf(groups[..n]) <= MembersOf(groups)
    ensures NoDup(MembersOf(groups) + rest) ==> NoDup(MembersOf(groups[..n]))
    ensures (forall i :: 0 <= i < |MembersOf(groups) + rest| ==> IsUuid((MembersOf(groups) + rest)[i])) ==>
      forall i :: 0 <= i < |MembersOf(groups[..n])| ==> IsUuid(MembersOf(groups[..n])[i])
    decreases |groups| - n
  {
    hide IsUuid;
    if n < |groups| {
      MembersPrefix(groups, n + 1, rest);
      assert groups[..n + 1][..n] == groups[..n];
    } else {
      assert groups[..n] == groups;
    }
    var all, some := MembersOf(groups) + rest, MembersOf(groups[..n]);
    assert forall i :: 0 <= i < |some| ==> some[i] == all[i];
  }
}
