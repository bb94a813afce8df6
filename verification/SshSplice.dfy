/** Byte-range replacements: splicing them one after the other, from the back of the
    file to the front, is one simultaneous substitution. */
module SshSplice {
  import opened Common

  datatype Replacement = Replacement(start: nat, end: nat, data: string)

  // ---- Simultaneous substitution ----

  /** The texts put in at position p; of several insertions at one point the later come first. */
  function PutIn(reps: seq<Replacement>, p: nat): string {
    if reps == [] then ""
    else PutIn(reps[1..], p) + (if reps[0].start == p then reps[0].data else "")
  }

  /** Position p is cut out by some replacement. */
  predicate CutOut(reps: seq<Replacement>, p: nat) {
    exists i :: 0 <= i < |reps| && reps[i].start <= p < reps[i].end
  }

  /** The byte at p, unless it is cut out. */
  function KeptByte(data: string, reps: seq<Replacement>, p: nat): string
    requires p < |data|
  {
    if CutOut(reps, p) then "" else [data[p]]
  }

  /** What positions lo up to hi become when all replacements apply at once. */
  function Emit(data: string, reps: seq<Replacement>, lo: nat, hi: nat): string
    requires lo <= hi <= |data|
    decreases hi - lo
  {
    if lo == hi then ""
    else PutIn(reps, lo) + KeptByte(data, reps, lo) + Emit(data, reps, lo + 1, hi)
  }

  function Substitute(data: string, reps: seq<Replacement>): string {
    Emit(data, reps, 0, |data|) + PutIn(reps, |data|)
  }

  ghost predicate InRange(data: string, reps: seq<Replacement>) {
    forall i :: 0 <= i < |reps| ==> reps[i].start <= reps[i].end <= |data|
  }

  /** Two replacements do not touch the same bytes, and one starts where the other
      does only if both insert. */
  predicate Apart(a: Replacement, b: Replacement) {
    && (a.end <= b.start || b.end <= a.start)
    && (a.start == b.start ==> a.end == a.start && b.end == b.start)
  }

  ghost predicate Disjoint(reps: seq<Replacement>) {
    forall i, j :: 0 <= i < j < |reps| ==> Apart(reps[i], reps[j])
  }

  // ---- Emit piece by piece ----

  lemma EmitUnfold(data: string, reps: seq<Replacement>, lo: nat, hi: nat)
    requires lo < hi <= |data|
    ensures Emit(data, reps, lo, hi) == PutIn(reps, lo) + KeptByte(data, reps, lo) + Emit(data, reps, lo + 1, hi)
  {}

  lemma EmitEmpty(data: string, reps: seq<Replacement>, p: nat)
    requires p <= |data|
    ensures Emit(data, reps, p, p) == ""
  {}

  lemma NothingBefore(a: string)
    ensures "" + a == a
  {}

  lemma {:induction false} EmitConcat(data: string, reps: seq<Replacement>, lo: nat, mid: nat, hi: nat)
    requires lo <= mid <= hi <= |data|
    ensures Emit(data, reps, lo, hi) == Emit(data, reps, lo, mid) + Emit(data, reps, mid, hi)
    decreases mid - lo
  {
    hide *;
    if lo == mid {
      EmitEmpty(data, reps, mid);
      NothingBefore(Emit(data, reps, mid, hi));
    } else {
      EmitConcat(data, reps, lo + 1, mid, hi);
      EmitUnfold(data, reps, lo, hi);
      EmitUnfold(data, reps, lo, mid);
      Associate(PutIn(reps, lo) + KeptByte(data, reps, lo), Emit(data, reps, lo + 1, mid), Emit(data, reps, mid, hi));
    }
  }

  /** Two lists of replacements do the same between lo and hi. */
  ghost predicate Agree(a: seq<Replacement>, b: seq<Replacement>, lo: nat, hi: nat) {
    forall p: nat :: lo <= p < hi ==> PutIn(a, p) == PutIn(b, p) && CutOut(a, p) == CutOut(b, p)
  }

  lemma {:induction false} EmitAgree(data: string, a: seq<Replacement>, b: seq<Replacement>, lo: nat, hi: nat)
    requires lo <= hi <= |data|
    requires Agree(a, b, lo, hi)
    ensures Emit(data, a, lo, hi) == Emit(data, b, lo, hi)
    decreases hi - lo
  {
    hide PutIn, CutOut;
    if lo < hi {
      EmitAgree(data, a, b, lo + 1, hi);
    }
  }

  /** Nothing happens where no replacement starts or reaches. */
  lemma {:induction false} EmitNothing(data: string, lo: nat, hi: nat)
    requires lo <= hi <= |data|
    ensures Emit(data, [], lo, hi) == data[lo..hi]
    decreases hi - lo
  {
    if lo < hi {
      EmitNothing(data, lo + 1, hi);
      assert data[lo..hi] == [data[lo]] + data[lo + 1..hi];
    }
  }

  lemma {:induction false} PutInAppend(a: seq<Replacement>, b: seq<Replacement>, p: nat)
    ensures PutIn(a + b, p) == PutIn(b, p) + PutIn(a, p)
  {
    if a == [] {
      assert a + b == b;
      assert PutIn(b, p) + "" == PutIn(b, p);
    } else {
      assert (a + b)[1..] == a[1..] + b;
      PutInAppend(a[1..], b, p);
      var here := if a[0].start == p then a[0].data else "";
      assert PutIn(b, p) + PutIn(a[1..], p) + here == PutIn(b, p) + (PutIn(a[1..], p) + here);
    }
  }

  lemma CutOutAppend(a: seq<Replacement>, b: seq<Replacement>, p: nat)
    ensures CutOut(a + b, p) == (CutOut(a, p) || CutOut(b, p))
  {
    var ab := a + b;
    if CutOut(ab, p) {
      var i :| 0 <= i < |ab| && ab[i].start <= p < ab[i].end;
      assert ab[i] == if i < |a| then a[i] else b[i - |a|];
    }
    if CutOut(a, p) {
      var i :| 0 <= i < |a| && a[i].start <= p < a[i].end;
      assert ab[i] == a[i];
    }
    if CutOut(b, p) {
      var i :| 0 <= i < |b| && b[i].start <= p < b[i].end;
      assert ab[|a| + i] == b[i];
    }
  }

  /** Replacements that all start at or after hi, or end at or before lo and start before it, do not matter between. */
  ghost predicate Away(reps: seq<Replacement>, lo: nat, hi: nat) {
    forall i :: 0 <= i < |reps| ==> hi <= reps[i].start || (reps[i].start < lo && reps[i].end <= lo)
  }

  lemma {:induction false} AwayPutsNothing(reps: seq<Replacement>, lo: nat, hi: nat, p: nat)
    requires Away(reps, lo, hi) && lo <= p < hi
    ensures PutIn(reps, p) == "" && !CutOut(reps, p)
  {
    if reps != [] {
      assert Away(reps[1..], lo, hi) by {
        forall i | 0 <= i < |reps[1..]|
          ensures hi <= reps[1..][i].start || (reps[1..][i].start < lo && reps[1..][i].end <= lo)
        {
          assert reps[1..][i] == reps[i + 1];
        }
      }
      AwayPutsNothing(reps[1..], lo, hi, p);
    }
  }

  /** Between lo and hi only the middle of a list matters when the rest stays away. */
  lemma AgreeMiddle(a: seq<Replacement>, b: seq<Replacement>, c: seq<Replacement>, lo: nat, hi: nat)
    requires Away(a, lo, hi) && Away(c, lo, hi)
    ensures Agree(a + b + c, b, lo, hi)
  {
    forall p | lo <= p < hi
      ensures PutIn(a + b + c, p) == PutIn(b, p) && CutOut(a + b + c, p) == CutOut(b, p)
    {
      AwayPutsNothing(a, lo, hi, p);
      AwayPutsNothing(c, lo, hi, p);
      PutInAppend(a + b, c, p);
      PutInAppend(a, b, p);
      CutOutAppend(a + b, c, p);
      CutOutAppend(a, b, p);
      assert "" + (PutIn(b, p) + "") == PutIn(b, p);
    }
  }

  /** `all` does what `reps` does and, before that, what r does. */
  ghost predicate Extends(all: seq<Replacement>, reps: seq<Replacement>, r: Replacement) {
    && (forall p: nat :: PutIn(all, p) == (if p == r.start then r.data else "") + PutIn(reps, p))
    && (forall p: nat :: CutOut(all, p) <==> CutOut(reps, p) || r.start <= p < r.end)
  }

  lemma SnocExtends(reps: seq<Replacement>, r: Replacement)
    ensures Extends(reps + [r], reps, r)
  {
    var all := reps + [r];
    forall p: nat
      ensures PutIn(all, p) == (if p == r.start then r.data else "") + PutIn(reps, p)
      ensures CutOut(all, p) <==> CutOut(reps, p) || r.start <= p < r.end
    {
      PutInAppend(reps, [r], p);
      CutOutAppend(reps, [r], p);
      OneEffect(r, p);
    }
  }

  lemma OneEffect(r: Replacement, p: nat)
    ensures PutIn([r], p) == if r.start == p then r.data else ""
    ensures CutOut([r], p) <==> r.start <= p < r.end
  {
    assert [r][1..] == [] && [r][0] == r;
    assert PutIn([r][1..], p) == "";
    assert "" + r.data == r.data;
  }

  lemma Regroup(a: string, b: string, c: string, d: string)
    ensures (a + b) + c + d == a + (b + c + d)
    ensures a + "" + ("" + d) == a + d
    ensures "" + a == a && a + "" == a
  {
    assert (a + b) + c + d == a + (b + c + d);
    assert a + "" + ("" + d) == a + d;
  }

  /** From where r starts, r's text comes first and then what the others leave after r's range. */
  lemma EmitExtends(data: string, all: seq<Replacement>, reps: seq<Replacement>, r: Replacement, hi: nat)
    requires r.start <= r.end <= hi <= |data| && r.start < hi
    requires Extends(all, reps, r)
    requires forall i :: 0 <= i < |reps| ==> r.end <= reps[i].start && Apart(reps[i], r)
    ensures Emit(data, all, r.start, hi) == r.data + Emit(data, reps, r.end, hi)
  {
    hide *;
    if r.start == r.end {
      EmitInsertion(data, all, reps, r, hi);
    } else {
      EmitRange(data, all, reps, r, hi);
    }
  }

  lemma EmitInsertion(data: string, all: seq<Replacement>, reps: seq<Replacement>, r: Replacement, hi: nat)
    requires r.start == r.end < hi <= |data|
    requires Extends(all, reps, r)
    ensures Emit(data, all, r.start, hi) == r.data + Emit(data, reps, r.end, hi)
  {
    hide PutIn, CutOut, Emit;
    var n := r.start;
    EmitUnfold(data, all, n, hi);
    EmitUnfold(data, reps, n, hi);
    AgreeAfter(data, all, reps, r, n + 1, hi);
    assert KeptByte(data, all, n) == KeptByte(data, reps, n);
    Regroup(r.data, PutIn(reps, n), KeptByte(data, reps, n), Emit(data, reps, n + 1, hi));
  }

  lemma EmitRange(data: string, all: seq<Replacement>, reps: seq<Replacement>, r: Replacement, hi: nat)
    requires r.start < r.end <= hi <= |data|
    requires Extends(all, reps, r)
    requires forall i :: 0 <= i < |reps| ==> r.end <= reps[i].start
    ensures Emit(data, all, r.start, hi) == r.data + Emit(data, reps, r.end, hi)
  {
    hide *;
    var n := r.start;
    RangeStart(data, all, reps, r);
    EmitUnfold(data, all, n, hi);
    EmitConcat(data, all, n + 1, r.end, hi);
    CutStretch(data, all, reps, r, n + 1);
    AgreeAfter(data, all, reps, r, r.end, hi);
    var rest := Emit(data, reps, r.end, hi);
    assert Emit(data, all, n + 1, hi) == "" + rest;
    JoinRange(r.data, rest);
  }

  lemma JoinRange(a: string, b: string)
    ensures a + "" + ("" + b) == a + b
  {}

  lemma RangeStart(data: string, all: seq<Replacement>, reps: seq<Replacement>, r: Replacement)
    requires r.start < r.end <= |data|
    requires Extends(all, reps, r)
    requires forall i :: 0 <= i < |reps| ==> r.end <= reps[i].start
    ensures PutIn(all, r.start) == r.data && KeptByte(data, all, r.start) == ""
  {
    hide PutIn, CutOut;
    AwayPutsNothing(reps, r.start, r.end, r.start);
    assert r.data + "" == r.data;
  }

  lemma AgreeAfter(data: string, all: seq<Replacement>, reps: seq<Replacement>, r: Replacement, lo: nat, hi: nat)
    requires Extends(all, reps, r)
    requires r.start < lo && r.end <= lo <= hi <= |data|
    ensures Emit(data, all, lo, hi) == Emit(data, reps, lo, hi)
  {
    hide PutIn, CutOut, Emit;
    forall p: nat | lo <= p < hi ensures PutIn(all, p) == PutIn(reps, p) && CutOut(all, p) == CutOut(reps, p) {
      assert "" + PutIn(reps, p) == PutIn(reps, p);
    }
    EmitAgree(data, all, reps, lo, hi);
  }

  lemma {:induction false} CutStretch(data: string, all: seq<Replacement>, reps: seq<Replacement>, r: Replacement, lo: nat)
    requires r.start < lo <= r.end <= |data|
    requires Extends(all, reps, r)
    requires forall i :: 0 <= i < |reps| ==> r.end <= reps[i].start
    ensures Emit(data, all, lo, r.end) == ""
    decreases r.end - lo
  {
    hide PutIn, CutOut;
    if lo < r.end {
      CutStretch(data, all, reps, r, lo + 1);
      AwayPutsNothing(reps, r.start, r.end, lo);
    }
  }

  /** One replacement inside a stretch rewrites just its range. */
  lemma EmitOne(data: string, r: Replacement, lo: nat, hi: nat)
    requires lo <= r.start <= r.end <= hi <= |data|
    requires r.start < hi
    ensures Emit(data, [r], lo, hi) == data[lo..r.start] + r.data + data[r.end..hi]
  {
    hide PutIn, CutOut;
    EmitConcat(data, [r], lo, r.start, hi);
    SnocExtends([], r);
    assert [] + [r] == [r];
    forall p: nat | lo <= p < r.start ensures PutIn([r], p) == PutIn([], p) && CutOut([r], p) == CutOut([], p) {
      assert "" + PutIn([], p) == PutIn([], p);
    }
    EmitAgree(data, [r], [], lo, r.start);
    EmitNothing(data, lo, r.start);
    EmitExtends(data, [r], [], r, hi);
    EmitNothing(data, r.end, hi);
  }

  // ---- Back to front ----

  function Splice(data: string, r: Replacement): string
    requires r.start <= r.end <= |data|
  {
    data[..r.start] + r.data + data[r.end..]
  }

  /** Starts never grow along the list. */
  ghost predicate Descending(reps: seq<Replacement>) {
    forall i, j :: 0 <= i < j < |reps| ==> reps[i].start >= reps[j].start
  }

  lemma UntouchedPrefix(data: string, reps: seq<Replacement>, m: nat)
    requires m <= |data|
    requires forall i :: 0 <= i < |reps| ==> m <= reps[i].start
    ensures Emit(data, reps, 0, m) == data[..m]
  {
    forall p: nat | 0 <= p < m ensures PutIn(reps, p) == PutIn([], p) && CutOut(reps, p) == CutOut([], p) {
      AwayPutsNothing(reps, 0, m, p);
      AwayPutsNothing([], 0, m, p);
    }
    EmitAgree(data, reps, [], 0, m);
    EmitNothing(data, 0, m);
    assert data[0..m] == data[..m];
  }

  /** Bytes before every replacement survive, and what follows is the rest emitted. */
  lemma SubstituteTail(data: string, reps: seq<Replacement>, m: nat)
    requires m <= |data|
    requires forall i :: 0 <= i < |reps| ==> m <= reps[i].start
    ensures Substitute(data, reps) == data[..m] + (Emit(data, reps, m, |data|) + PutIn(reps, |data|))
  {
    hide PutIn, CutOut, Emit;
    UntouchedPrefix(data, reps, m);
    EmitConcat(data, reps, 0, m, |data|);
    Associate(data[..m], Emit(data, reps, m, |data|), PutIn(reps, |data|));
  }

  lemma SpliceStep(data: string, reps: seq<Replacement>, r: Replacement)
    requires InRange(data, reps) && r.start <= r.end <= |data|
    requires forall i :: 0 <= i < |reps| ==> r.start <= reps[i].start && Apart(reps[i], r)
    ensures r.end <= |Substitute(data, reps)|
    ensures Splice(Substitute(data, reps), r) == Substitute(data, reps + [r])
  {
    hide Emit, PutIn, Substitute;
    forall i | 0 <= i < |reps| ensures r.end <= reps[i].start {
      assert Apart(reps[i], r);
    }
    var n := |data|;
    SubstituteTail(data, reps, r.end);
    var tail := Emit(data, reps, r.end, n) + PutIn(reps, n);
    var all := reps + [r];
    SubstituteTail(data, all, r.start);
    assert Emit(data, all, r.start, n) + PutIn(all, n) == r.data + tail by {
      EmitWithFirst(data, reps, r);
    }
    assert Substitute(data, reps)[..r.start] == data[..r.start];
    assert Substitute(data, reps)[r.end..] == tail;
  }

  lemma EmitWithFirst(data: string, reps: seq<Replacement>, r: Replacement)
    requires r.start <= r.end <= |data|
    requires forall i :: 0 <= i < |reps| ==> r.end <= reps[i].start && Apart(reps[i], r)
    ensures var all, n := reps + [r], |data|;
      Emit(data, all, r.start, n) + PutIn(all, n) == r.data + (Emit(data, reps, r.end, n) + PutIn(reps, n))
  {
    hide PutIn, CutOut, Emit;
    var all, n := reps + [r], |data|;
    SnocExtends(reps, r);
    var atEnd := PutIn(reps, n);
    if r.start < n {
      EmitExtends(data, all, reps, r, n);
      Regroup(atEnd, "", "", "");
      Regroup(r.data, Emit(data, reps, r.end, n), atEnd, "");
    } else {
      EmitEmpty(data, all, n);
      EmitEmpty(data, reps, n);
      Regroup(r.data + atEnd, "", "", "");
      Regroup(atEnd, "", "", "");
    }
  }

  // ---- The order of the replacements ----

  /** The replacements do the same at every position. */
  ghost predicate SameEffect(a: seq<Replacement>, b: seq<Replacement>) {
    forall p: nat :: PutIn(a, p) == PutIn(b, p) && CutOut(a, p) == CutOut(b, p)
  }

  lemma SameEffectSubstitutes(data: string, a: seq<Replacement>, b: seq<Replacement>)
    requires SameEffect(a, b)
    ensures Substitute(data, a) == Substitute(data, b)
  {
    EmitAgree(data, a, b, 0, |data|);
  }

  function Swap(reps: seq<Replacement>, j: nat): seq<Replacement>
    requires 0 < j < |reps|
  {
    reps[j := reps[j - 1]][j - 1 := reps[j]]
  }

  /** Exchanging two neighbours that start at different places changes nothing. */
  lemma SwapKeepsEffect(reps: seq<Replacement>, j: nat)
    requires 0 < j < |reps| && reps[j].start != reps[j - 1].start
    ensures SameEffect(Swap(reps, j), reps)
  {
    var x, y := reps[j - 1], reps[j];
    var a, c := reps[..j - 1], reps[j + 1..];
    assert reps == a + [x, y] + c;
    assert Swap(reps, j) == a + [y, x] + c;
    forall p: nat
      ensures PutIn(Swap(reps, j), p) == PutIn(reps, p) && CutOut(Swap(reps, j), p) == CutOut(reps, p)
    {
      PutInAppend(a + [x, y], c, p);
      PutInAppend(a, [x, y], p);
      PutInAppend(a + [y, x], c, p);
      PutInAppend(a, [y, x], p);
      CutOutAppend(a + [x, y], c, p);
      CutOutAppend(a, [x, y], p);
      CutOutAppend(a + [y, x], c, p);
      CutOutAppend(a, [y, x], p);
      PutInTwo(x, y, p);
      PutInTwo(y, x, p);
    }
  }

  lemma PutInTwo(x: Replacement, y: Replacement, p: nat)
    requires x.start != y.start
    ensures PutIn([x, y], p) == if x.start == p then x.data else if y.start == p then y.data else ""
    ensures CutOut([x, y], p) <==> x.start <= p < x.end || y.start <= p < y.end
  {
    assert [x, y][1..] == [y] && [y][1..] == [];
    assert [x, y][0] == x && [x, y][1] == y;
    assert PutIn([y][1..], p) == "";
    assert PutIn([y], p) == if y.start == p then y.data else "";
    assert PutIn([x, y], p) == PutIn([y], p) + (if x.start == p then x.data else "");
    assert "" + x.data == x.data && "" + "" == "" && y.data + "" == y.data;
  }

  lemma {:induction false} PermutationKeepsApart(a: seq<Replacement>, b: seq<Replacement>, j: nat)
    requires 0 < j < |a| && b == Swap(a, j)
    requires Disjoint(a)
    ensures Disjoint(b)
  {
    forall m, n | 0 <= m < n < |b| ensures Apart(b[m], b[n]) {
      var m' := if m == j then j - 1 else if m == j - 1 then j else m;
      var n' := if n == j then j - 1 else if n == j - 1 then j else n;
      assert b[m] == a[m'] && b[n] == a[n'];
      if m' < n' {
        assert Apart(a[m'], a[n']);
      } else {
        assert Apart(a[n'], a[m']);
      }
    }
  }

  // ---- The splicing of the source ----

  /** The insertion sort: by descending start, stable. */
  method SortByStart(data: string, replacements: array<Replacement>)
    requires InRange(data, replacements[..]) && Disjoint(replacements[..])
    modifies replacements
    ensures Descending(replacements[..])
    ensures Kept(data, replacements[..], old(replacements[..]))
  {
    hide SameEffect, Kept, Disjoint, InRange;
    ghost var given := replacements[..];
    KeptStart(data, given);
    var i := 1;
    while i < replacements.Length
      invariant 1 <= i
      invariant Kept(data, replacements[..], given)
      invariant forall m, n :: 0 <= m < n < i && n < replacements.Length ==> replacements[m].start >= replacements[n].start
    {
      var j := i;
      while j > 0 && replacements[j].start > replacements[j - 1].start
        invariant 0 <= j <= i < replacements.Length
        invariant Kept(data, replacements[..], given)
        invariant forall m, n :: 0 <= m < n <= i && n != j ==> replacements[m].start >= replacements[n].start
      {
        ghost var before := replacements[..];
        replacements[j], replacements[j - 1] := replacements[j - 1], replacements[j];
        assert replacements[..] == Swap(before, j);
        KeptSwap(data, before, given, j);
        j := j - 1;
      }
      i := i + 1;
    }
  }

  /** Sorts the replacements in place and splices them from the back of the text to the front. */
  method ApplyReplacements(data: string, replacements: array<Replacement>) returns (result: string)
    requires InRange(data, replacements[..]) && Disjoint(replacements[..])
    modifies replacements
    ensures result == Substitute(data, old(replacements[..]))
    ensures multiset(replacements[..]) == multiset(old(replacements[..]))
  {
    hide Kept, Substitute, Disjoint;
    ghost var given := replacements[..];
    SortByStart(data, replacements);
    ghost var sorted := replacements[..];
    KeptEnd(data, sorted, given);
    result := data;
    SubstituteNothing(data);
    assert sorted[..0] == [];
    for k := 0 to replacements.Length
      invariant replacements[..] == sorted
      invariant result == Substitute(data, sorted[..k])
    {
      var item := replacements[k];
      assert sorted[..k + 1] == sorted[..k] + [item];
      SpliceSorted(data, sorted, k);
      result := result[..item.start] + item.data + result[item.end..];
    }
    assert sorted[..replacements.Length] == sorted;
  }

  /** The sorted list is the given one in another order with the same effect. */
  ghost predicate Kept(data: string, now: seq<Replacement>, given: seq<Replacement>) {
    SameEffect(now, given) && InRange(data, now) && Disjoint(now) && multiset(now) == multiset(given)
  }

  lemma KeptStart(data: string, given: seq<Replacement>)
    requires InRange(data, given) && Disjoint(given)
    ensures Kept(data, given, given)
  {}

  lemma KeptEnd(data: string, now: seq<Replacement>, given: seq<Replacement>)
    requires Kept(data, now, given)
    ensures InRange(data, now) && Disjoint(now) && multiset(now) == multiset(given)
    ensures Substitute(data, now) == Substitute(data, given)
  {
    SameEffectSubstitutes(data, now, given);
  }

  lemma KeptSwap(data: string, now: seq<Replacement>, given: seq<Replacement>, j: nat)
    requires Kept(data, now, given)
    requires 0 < j < |now| && now[j].start != now[j - 1].start
    ensures Kept(data, Swap(now, j), given)
  {
    SwapKeepsEffect(now, j);
    PermutationKeepsApart(now, Swap(now, j), j);
  }

  lemma SubstituteNothing(data: string)
    ensures Substitute(data, []) == data
  {
    EmitNothing(data, 0, |data|);
    assert data[0..|data|] == data;
  }

  lemma SpliceSorted(data: string, sorted: seq<Replacement>, k: nat)
    requires InRange(data, sorted) && Disjoint(sorted) && Descending(sorted) && k < |sorted|
    ensures sorted[k].start <= sorted[k].end <= |Substitute(data, sorted[..k])|
    ensures Splice(Substitute(data, sorted[..k]), sorted[k]) == Substitute(data, sorted[..k] + [sorted[k]])
  {
    forall i | 0 <= i < |sorted[..k]|
      ensures sorted[k].start <= sorted[..k][i].start && Apart(sorted[..k][i], sorted[k])
    {
      assert sorted[..k][i] == sorted[i];
    }
    SpliceStep(data, sorted[..k], sorted[k]);
  }

  /** The order in which the replacements are listed does not matter, except among insertions at one point:
      any rearrangement that keeps what goes in at each place substitutes the same. */
  lemma OrderDoesNotMatter(data: string, a: seq<Replacement>, b: seq<Replacement>)
    requires multiset(a) == multiset(b)
    requires forall p: nat :: PutIn(a, p) == PutIn(b, p)
    ensures Substitute(data, a) == Substitute(data, b)
  {
    forall p: nat ensures CutOut(a, p) == CutOut(b, p) {
      CutOutByMembers(a, b, p);
      CutOutByMembers(b, a, p);
    }
    SameEffectSubstitutes(data, a, b);
  }

  lemma CutOutByMembers(a: seq<Replacement>, b: seq<Replacement>, p: nat)
    requires multiset(a) == multiset(b)
    ensures CutOut(a, p) ==> CutOut(b, p)
  {
    if CutOut(a, p) {
      var i :| 0 <= i < |a| && a[i].start <= p < a[i].end;
      assert a[i] in multiset(b);
      assert a[i] in b;
    }
  }
}
