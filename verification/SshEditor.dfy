/** The editor of the source: it turns an edit into byte-range replacements and splices them.
    The result is the edited file of SshPatch. */
module SshEditor {
  import opened Common
  import opened SshText
  import opened SshParse
  import opened SshDefinition
  import opened SshSplice
  import opened SshPatch
  import opened SshScan

  // ---- The replacements of a list of directives ----

  predicate ManagedToken(d: Directive) {
    KeywordOf(d.keyword) == IdentityFile && d.words != [] && ManagedIdentity(d.words[0]).Some?
  }

  function DirectiveReps(d: Directive, desired: map<Keyword, string>, ids: Option<seq<string>>, inserted: bool, newline: string): (r: seq<Replacement>)
    requires d.lineStart <= d.lineEnd
    ensures |r| <= 1
  {
    if ManagedToken(d) then
      if ids.None? then []
      else [Replacement(d.lineStart, d.lineEnd, if inserted then "" else RenderIdentities(ids.value, newline))]
    else if KeywordOf(d.keyword) in desired && d.words != [] then
      [Replacement(d.valueStart, d.valueStart + |d.words[0]|, desired[KeywordOf(d.keyword)])]
    else []
  }

  function Reps(ds: seq<Directive>, desired: map<Keyword, string>, ids: Option<seq<string>>, inserted: bool, newline: string): seq<Replacement>
    requires forall i :: 0 <= i < |ds| ==> ds[i].lineStart <= ds[i].lineEnd
  {
    if ds == [] then []
    else DirectiveReps(ds[0], desired, ids, inserted, newline)
         + Reps(ds[1..], desired, ids, inserted || (ids.Some? && ManagedToken(ds[0])), newline)
  }

  lemma {:induction false} RepsAppend(a: seq<Directive>, b: seq<Directive>, desired: map<Keyword, string>, ids: Option<seq<string>>, inserted: bool, newline: string)
    requires |a| <= 1
    requires forall i :: 0 <= i < |a| ==> a[i].lineStart <= a[i].lineEnd
    requires forall i :: 0 <= i < |b| ==> b[i].lineStart <= b[i].lineEnd
    ensures Reps(a + b, desired, ids, inserted, newline)
         == Reps(a, desired, ids, inserted, newline)
            + Reps(b, desired, ids, inserted || (ids.Some? && a != [] && ManagedToken(a[0])), newline)
  {
    hide DirectiveReps, ManagedToken;
    if a == [] {
      assert a + b == b;
    } else {
      assert (a + b)[1..] == b && a[1..] == [];
      assert Reps(a[1..], desired, ids, inserted || (ids.Some? && ManagedToken(a[0])), newline) == [];
    }
  }

  /** Replacements in ascending, disjoint ranges between lo and hi. */
  ghost predicate Ascending(reps: seq<Replacement>, lo: nat, hi: nat) {
    && (forall i :: 0 <= i < |reps| ==> lo <= reps[i].start < hi && reps[i].start <= reps[i].end <= hi)
    && (forall i, j :: 0 <= i < j < |reps| ==> reps[i].end <= reps[j].start && reps[i].start < reps[j].start)
  }

  lemma AscendingJoin(a: seq<Replacement>, b: seq<Replacement>, lo: nat, mid: nat, hi: nat)
    requires lo <= mid <= hi && Ascending(a, lo, mid) && Ascending(b, mid, hi)
    ensures Ascending(a + b, lo, hi)
  {}

  lemma PlacedLines(lines: seq<string>, offset: nat, no: nat)
    ensures var ds := PlaceBody(lines, offset, no);
      forall i :: 0 <= i < |ds| ==>
        && offset <= ds[i].lineStart <= ds[i].lineEnd <= offset + |Flatten(lines)|
        && ds[i].lineStart < offset + |Flatten(lines)|
  {
    hide ScanLine;
    if lines != [] {
      PlacedLines(lines[1..], offset + |lines[0]|, no + 1);
      PlacedNonempty(lines[0], offset, no);
    }
  }

  lemma PlacedNonempty(line: string, offset: nat, no: nat)
    ensures PlaceLine(line, offset, no) != [] ==> line != ""
  {}

  /** A line is patched by one replacement inside it, or not at all. */
  ghost predicate Rewrites(line: string, offset: nat, reps: seq<Replacement>, result: string) {
    if reps == [] then result == line
    else
      && |reps| == 1
      && offset <= reps[0].start <= reps[0].end <= offset + |line| && reps[0].start < offset + |line|
      && result == line[..reps[0].start - offset] + reps[0].data + line[reps[0].end - offset..]
  }

  lemma ManagedRewrites(line: string, offset: nat, text: string)
    requires Content(line) != ""
    ensures Rewrites(line, offset, [Replacement(offset, offset + |Content(line)|, text)], text + Ending(line))
  {
    assert line[..0] + text == text;
    assert line[|Content(line)|..] == Ending(line);
  }

  lemma ValueRewrites(line: string, offset: nat, value: string, d: Scan)
    requires ScanLine(Content(line)) == Some(d) && d.words != []
    ensures Rewrites(line, offset, [Replacement(offset + d.at, offset + d.at + |d.words[0]|, value)], WithFirstWord(line, value))
  {
    hide ScanLine, WithFirstWord, Words;
    WithFirstWordSlices(line, value, d);
    FirstWordNonempty(line, d);
  }

  lemma FirstWordNonempty(line: string, d: Scan)
    requires ScanLine(Content(line)) == Some(d) && d.words != []
    ensures d.words[0] != ""
  {
    hide Words;
    FirstNonempty(d.value);
  }

  lemma LineRewrites(line: string, offset: nat, no: nat, desired: map<Keyword, string>, ids: Option<seq<string>>, inserted: bool, newline: string)
    ensures Rewrites(line, offset, Reps(PlaceLine(line, offset, no), desired, ids, inserted, newline),
                     PatchLine(line, desired, ids, inserted, newline))
  {
    hide ScanLine, WithFirstWord, RenderIdentities, ManagedIdentity, KeywordOf, Rewrites, Reps;
    var ds := PlaceLine(line, offset, no);
    if ds == [] {
      NoReps(desired, ids, inserted, newline);
      NoRewrite(line, offset);
    } else {
      var d := ScanLine(Content(line)).value;
      SingleReps(ds, desired, ids, inserted, newline);
      if IsManaged(d) {
        if ids.None? {
          NoRewrite(line, offset);
        } else {
          ContentNonempty(line);
          ManagedRewrites(line, offset, if inserted then "" else RenderIdentities(ids.value, newline));
        }
      } else if Key(d) in desired && d.words != [] {
        ValueRewrites(line, offset, desired[Key(d)], d);
      } else {
        NoRewrite(line, offset);
      }
    }
  }

  lemma NoRewrite(line: string, offset: nat)
    ensures Rewrites(line, offset, [], line)
  {}

  lemma ContentNonempty(line: string)
    requires ScanLine(Content(line)).Some?
    ensures Content(line) != ""
  {}

  /** What lies between lo and hi. */
  ghost predicate TextAt(data: string, lo: nat, hi: nat, text: string) {
    lo <= hi <= |data| && data[lo..hi] == text
  }

  lemma RewriteEmits(data: string, line: string, offset: nat, reps: seq<Replacement>, result: string)
    requires TextAt(data, offset, offset + |line|, line)
    requires Rewrites(line, offset, reps, result)
    ensures Ascending(reps, offset, offset + |line|)
    ensures Emit(data, reps, offset, offset + |line|) == result
  {
    hide *;
    RewritesIs(line, offset, reps, result);
    if reps == [] {
      NothingRewritten(data, line, offset);
    } else {
      OneRewrite(data, line, offset, reps[0]);
    }
  }

  lemma NothingRewritten(data: string, line: string, offset: nat)
    requires TextAt(data, offset, offset + |line|, line)
    ensures Ascending([], offset, offset + |line|) && Emit(data, [], offset, offset + |line|) == line
  {
    NoneAscend(offset, offset + |line|);
    EmitNothing(data, offset, offset + |line|);
  }

  lemma RewritesIs(line: string, offset: nat, reps: seq<Replacement>, result: string)
    requires Rewrites(line, offset, reps, result)
    ensures reps == [] ==> result == line
    ensures reps != [] ==>
      && reps == [reps[0]]
      && offset <= reps[0].start <= reps[0].end <= offset + |line| && reps[0].start < offset + |line|
      && result == line[..reps[0].start - offset] + reps[0].data + line[reps[0].end - offset..]
  {}

  lemma OneRewrite(data: string, line: string, offset: nat, r: Replacement)
    requires TextAt(data, offset, offset + |line|, line)
    requires offset <= r.start <= r.end <= offset + |line| && r.start < offset + |line|
    ensures Ascending([r], offset, offset + |line|)
    ensures Emit(data, [r], offset, offset + |line|) == line[..r.start - offset] + r.data + line[r.end - offset..]
  {
    hide Emit, Ascending;
    OneAscends(r, offset, offset + |line|);
    EmitOne(data, r, offset, offset + |line|);
    SliceOf(data, line, offset, r.start - offset, r.end - offset);
  }

  lemma OneAscends(r: Replacement, lo: nat, hi: nat)
    requires lo <= r.start <= r.end <= hi && r.start < hi
    ensures Ascending([r], lo, hi)
  {}

  lemma NoneAscend(lo: nat, hi: nat)
    ensures Ascending([], lo, hi)
  {}

  /** The replacement for one line rewrites the line as SshPatch says. */
  lemma LineEmits(data: string, line: string, offset: nat, no: nat, desired: map<Keyword, string>, ids: Option<seq<string>>, inserted: bool, newline: string)
    requires offset + |line| <= |data| && data[offset..offset + |line|] == line
    ensures forall i :: 0 <= i < |PlaceLine(line, offset, no)| ==> PlaceLine(line, offset, no)[i].lineStart <= PlaceLine(line, offset, no)[i].lineEnd
    ensures var reps := Reps(PlaceLine(line, offset, no), desired, ids, inserted, newline);
      && Ascending(reps, offset, offset + |line|)
      && Emit(data, reps, offset, offset + |line|) == PatchLine(line, desired, ids, inserted, newline)
  {
    hide PlaceLine, Reps, Emit, PatchLine;
    OnePlaced(line, offset, no);
    LineRewrites(line, offset, no, desired, ids, inserted, newline);
    RewriteEmits(data, line, offset, Reps(PlaceLine(line, offset, no), desired, ids, inserted, newline),
                 PatchLine(line, desired, ids, inserted, newline));
  }

  lemma SingleReps(ds: seq<Directive>, desired: map<Keyword, string>, ids: Option<seq<string>>, inserted: bool, newline: string)
    requires |ds| == 1 && ds[0].lineStart <= ds[0].lineEnd
    ensures Reps(ds, desired, ids, inserted, newline) == DirectiveReps(ds[0], desired, ids, inserted, newline)
  {
    hide DirectiveReps;
    assert ds[1..] == [];
  }

  lemma SliceOf(data: string, line: string, offset: nat, i: nat, j: nat)
    requires offset + |line| <= |data| && data[offset..offset + |line|] == line
    requires i <= j <= |line|
    ensures data[offset..offset + i] == line[..i] && data[offset + j..offset + |line|] == line[j..]
  {}

  lemma WithFirstWordSlices(line: string, value: string, d: Scan)
    requires ScanLine(Content(line)) == Some(d) && d.words != []
    ensures |d.words[0]| <= |d.value| && d.at + |d.words[0]| <= |line|
    ensures WithFirstWord(line, value) == line[..d.at] + value + line[d.at + |d.words[0]|..]
  {
    hide Words;
    FirstWordFits(d.value);
    var c, n := Content(line), d.at + |d.words[0]|;
    assert c[..d.at] == line[..d.at];
    assert c[n..] + Ending(line) == line[n..];
    assert c[..d.at] + value + c[n..] + Ending(line) == c[..d.at] + value + (c[n..] + Ending(line));
  }

  lemma AscendingAway(reps: seq<Replacement>, lo: nat, hi: nat, from: nat, to: nat)
    requires lo <= hi && Ascending(reps, lo, hi)
    requires to <= lo || hi <= from
    ensures Away(reps, from, to)
  {}

  /** Between lo and hi only the middle of a list acts when the rest stays away. */
  lemma EmitMiddle(data: string, a: seq<Replacement>, b: seq<Replacement>, c: seq<Replacement>, lo: nat, hi: nat)
    requires lo <= hi <= |data|
    requires Away(a, lo, hi) && Away(c, lo, hi)
    ensures Emit(data, a + b + c, lo, hi) == Emit(data, b, lo, hi)
  {
    hide *;
    AgreeMiddle(a, b, c, lo, hi);
    EmitAgree(data, a + b + c, b, lo, hi);
  }

  lemma Pad<T>(a: seq<T>, b: seq<T>)
    ensures [] + a + b == a + b && a + b + [] == a + b
  {}

  /** Two ascending lists, one after the other, each act on their own stretch. */
  lemma EmitTwo(data: string, a: seq<Replacement>, b: seq<Replacement>, lo: nat, mid: nat, hi: nat)
    requires lo <= mid <= hi <= |data|
    requires Ascending(a, lo, mid) && Ascending(b, mid, hi)
    ensures Ascending(a + b, lo, hi)
    ensures Emit(data, a + b, lo, hi) == Emit(data, a, lo, mid) + Emit(data, b, mid, hi)
  {
    hide *;
    AscendingJoin(a, b, lo, mid, hi);
    EmitConcat(data, a + b, lo, mid, hi);
    NothingAway(lo, mid);
    NothingAway(mid, hi);
    AscendingAway(b, mid, hi, lo, mid);
    AscendingAway(a, lo, mid, mid, hi);
    EmitMiddle(data, [], a, b, lo, mid);
    EmitMiddle(data, a, b, [], mid, hi);
    Pad(a, b);
  }

  lemma NothingAway(lo: nat, hi: nat)
    ensures Away([], lo, hi)
  {}

  lemma FlattenParts(lines: seq<string>)
    requires lines != []
    ensures Flatten(lines)[..|lines[0]|] == lines[0] && Flatten(lines)[|lines[0]|..] == Flatten(lines[1..])
    ensures |Flatten(lines)| == |lines[0]| + |Flatten(lines[1..])|
  {}

  lemma {:induction false} BodyEmits(data: string, lines: seq<string>, offset: nat, no: nat, desired: map<Keyword, string>, ids: Option<seq<string>>, inserted: bool, newline: string)
    requires offset + |Flatten(lines)| <= |data| && data[offset..offset + |Flatten(lines)|] == Flatten(lines)
    ensures forall i :: 0 <= i < |PlaceBody(lines, offset, no)| ==> PlaceBody(lines, offset, no)[i].lineStart <= PlaceBody(lines, offset, no)[i].lineEnd
    ensures var reps := Reps(PlaceBody(lines, offset, no), desired, ids, inserted, newline);
      && Ascending(reps, offset, offset + |Flatten(lines)|)
      && Emit(data, reps, offset, offset + |Flatten(lines)|) == PatchBody(lines, desired, ids, inserted, newline)
  {
    hide PlaceLine, PatchLine, Emit, Reps, IsManagedLine, ManagedToken, Flatten, Ascending;
    PlacedLines(lines, offset, no);
    if lines == [] {
      NoReps(desired, ids, inserted, newline);
      NoLines(data, offset);
    } else {
      var line, rest := lines[0], lines[1..];
      FlattenParts(lines);
      var mid, hi := offset + |line|, offset + |Flatten(lines)|;
      SliceOf(data, Flatten(lines), offset, |line|, |line|);
      var here, later := PlaceLine(line, offset, no), PlaceBody(rest, mid, no + 1);
      var inserted' := inserted || (ids.Some? && IsManagedLine(line));
      assert PlaceBody(lines, offset, no) == here + later;
      assert PatchBody(lines, desired, ids, inserted, newline)
          == PatchLine(line, desired, ids, inserted, newline) + PatchBody(rest, desired, ids, inserted', newline);
      hide PlaceBody, PatchBody;
      PlacedLines(rest, mid, no + 1);
      OnePlaced(line, offset, no);
      LineEmits(data, line, offset, no, desired, ids, inserted, newline);
      BodyEmits(data, rest, mid, no + 1, desired, ids, inserted', newline);
      RepsAppend(here, later, desired, ids, inserted, newline);
      EmitTwo(data, Reps(here, desired, ids, inserted, newline), Reps(later, desired, ids, inserted', newline), offset, mid, hi);
    }
  }

  lemma NoLines(data: string, offset: nat)
    requires offset <= |data|
    ensures Flatten([]) == "" && Ascending([], offset, offset) && Emit(data, [], offset, offset) == ""
  {}

  lemma NoReps(desired: map<Keyword, string>, ids: Option<seq<string>>, inserted: bool, newline: string)
    ensures Reps([], desired, ids, inserted, newline) == []
  {}

  lemma OnePlaced(line: string, offset: nat, no: nat)
    ensures |PlaceLine(line, offset, no)| <= 1
    ensures forall i :: 0 <= i < |PlaceLine(line, offset, no)| ==> PlaceLine(line, offset, no)[i].lineStart <= PlaceLine(line, offset, no)[i].lineEnd
    ensures (PlaceLine(line, offset, no) != [] && ManagedToken(PlaceLine(line, offset, no)[0])) <==> IsManagedLine(line)
  {
    hide ScanLine;
  }

  // ---- The whole file ----

  /** The insertions at one point. */
  ghost predicate AllAt(reps: seq<Replacement>, p: nat) {
    forall i :: 0 <= i < |reps| ==> reps[i].start == p && reps[i].end == p
  }

  lemma {:induction false} InsertionEffect(reps: seq<Replacement>, p: nat, q: nat)
    requires AllAt(reps, p)
    ensures !CutOut(reps, q)
    ensures q != p ==> PutIn(reps, q) == ""
  {
    if reps != [] {
      assert AllAt(reps[1..], p) by {
        forall i | 0 <= i < |reps[1..]| ensures reps[1..][i].start == p && reps[1..][i].end == p {
          assert reps[1..][i] == reps[i + 1];
        }
      }
      InsertionEffect(reps[1..], p, q);
    }
  }

  /** Where only insertions at lo reach, their texts come first and the data follows. */
  lemma EmitInsertions(data: string, reps: seq<Replacement>, lo: nat)
    requires lo <= |data| && AllAt(reps, lo)
    ensures Emit(data, reps, lo, |data|) + PutIn(reps, |data|) == PutIn(reps, lo) + data[lo..]
  {
    hide PutIn, CutOut, Emit;
    var n := |data|;
    if lo < n {
      EmitUnfold(data, reps, lo, n);
      InsertionEffect(reps, lo, lo);
      InsertionEffect(reps, lo, n);
      forall p: nat | lo < p < n ensures PutIn(reps, p) == PutIn([], p) && CutOut(reps, p) == CutOut([], p) {
        InsertionEffect(reps, lo, p);
        InsertionEffect([], lo, p);
      }
      EmitAgree(data, reps, [], lo + 1, n);
      EmitNothing(data, lo + 1, n);
      assert data[lo..] == [data[lo]] + data[lo + 1..n];
      assert PutIn(reps, lo) + [data[lo]] + data[lo + 1..n] + "" == PutIn(reps, lo) + ([data[lo]] + data[lo + 1..n]);
    } else {
      EmitEmpty(data, reps, lo);
      assert data[lo..] == "";
      assert "" + PutIn(reps, lo) == PutIn(reps, lo) + "";
    }
  }

  /** Body replacements, insertions at the end of the block and a replacement in the header line:
      each acts on its own part of the file. */
  lemma AssembleFile(data: string, body: seq<Replacement>, added: seq<Replacement>, head: seq<Replacement>, start: nat, bodyStart: nat, end: nat)
    requires start < bodyStart <= end <= |data|
    requires Ascending(head, start, bodyStart) && |head| <= 1
    requires Ascending(body, bodyStart, end)
    requires AllAt(added, end)
    ensures var reps := body + added + head;
      && InRange(data, reps) && Disjoint(reps)
      && Substitute(data, reps)
         == data[..start] + Emit(data, head, start, bodyStart) + Emit(data, body, bodyStart, end) + PutIn(added, end) + data[end..]
  {
    AssembledApart(data, body, added, head, start, bodyStart, end);
    AssembledStretches(data, body, added, head, start, bodyStart, end);
    AtTheEnd(data, body, added, head, start, bodyStart, end);
    hide *;
    var reps, n := body + added + head, |data|;
    SubstituteParts(data, reps, start, bodyStart, end);
    var a, b, c, d := data[..start], Emit(data, head, start, bodyStart), Emit(data, body, bodyStart, end), PutIn(added, end);
    FiveParts(a, b, c, d, data[end..]);
  }

  lemma SubstituteParts(data: string, reps: seq<Replacement>, start: nat, bodyStart: nat, end: nat)
    requires start <= bodyStart <= end <= |data|
    ensures Substitute(data, reps)
         == Emit(data, reps, 0, start) + (Emit(data, reps, start, bodyStart) + Emit(data, reps, bodyStart, end))
            + (Emit(data, reps, end, |data|) + PutIn(reps, |data|))
  {
    hide Emit, PutIn;
    EmitConcat(data, reps, 0, end, |data|);
    EmitConcat(data, reps, 0, start, end);
    EmitConcat(data, reps, start, bodyStart, end);
  }

  lemma FiveParts(a: string, b: string, c: string, d: string, e: string)
    ensures a + (b + c) + (d + e) == a + b + c + d + e
  {}

  lemma AssembledApart(data: string, body: seq<Replacement>, added: seq<Replacement>, head: seq<Replacement>, start: nat, bodyStart: nat, end: nat)
    requires start < bodyStart <= end <= |data|
    requires Ascending(head, start, bodyStart) && |head| <= 1
    requires Ascending(body, bodyStart, end)
    requires AllAt(added, end)
    ensures InRange(data, body + added + head) && Disjoint(body + added + head)
  {
    var reps := body + added + head;
    forall i, j | 0 <= i < j < |reps| ensures Apart(reps[i], reps[j]) {
      ApartCases(body, added, head, start, bodyStart, end, i, j);
    }
  }

  lemma InsertionsAway(reps: seq<Replacement>, p: nat, from: nat, to: nat)
    requires AllAt(reps, p) && to <= p
    ensures Away(reps, from, to)
  {}

  lemma AwayJoin(a: seq<Replacement>, b: seq<Replacement>, lo: nat, hi: nat)
    requires Away(a, lo, hi) && Away(b, lo, hi)
    ensures Away(a + b, lo, hi)
  {}

  lemma PadThree<T>(a: seq<T>, b: seq<T>, c: seq<T>)
    ensures [] + [] + (a + b + c) == a + b + c && [] + a + (b + c) == a + b + c && a + b + c + [] == a + b + c
  {}

  lemma AssembledStretches(data: string, body: seq<Replacement>, added: seq<Replacement>, head: seq<Replacement>, start: nat, bodyStart: nat, end: nat)
    requires start < bodyStart <= end <= |data|
    requires Ascending(head, start, bodyStart) && Ascending(body, bodyStart, end) && AllAt(added, end)
    ensures var reps := body + added + head;
      && Emit(data, reps, 0, start) == data[..start]
      && Emit(data, reps, start, bodyStart) == Emit(data, head, start, bodyStart)
      && Emit(data, reps, bodyStart, end) == Emit(data, body, bodyStart, end)
  {
    hide *;
    PadThree(body, added, head);
    NothingAway(0, start);
    NothingAway(start, bodyStart);
    NothingAway(bodyStart, end);
    InsertionsAway(added, end, 0, start);
    InsertionsAway(added, end, start, bodyStart);
    InsertionsAway(added, end, bodyStart, end);
    AscendingAway(body, bodyStart, end, 0, start);
    AscendingAway(body, bodyStart, end, start, bodyStart);
    AscendingAway(head, start, bodyStart, 0, start);
    AscendingAway(head, start, bodyStart, bodyStart, end);
    AwayJoin(body, added, 0, start);
    AwayJoin(body + added, head, 0, start);
    EmitMiddle(data, body + added + head, [], [], 0, start);
    Pad(body + added + head, []);
    EmitNothing(data, 0, start);
    AwayJoin(body, added, start, bodyStart);
    EmitMiddle(data, body + added, head, [], start, bodyStart);
    AwayJoin(added, head, bodyStart, end);
    EmitMiddle(data, [], body, added + head, bodyStart, end);
  }

  lemma ApartCases(body: seq<Replacement>, added: seq<Replacement>, head: seq<Replacement>, start: nat, bodyStart: nat, end: nat, i: nat, j: nat)
    requires start < bodyStart <= end
    requires Ascending(head, start, bodyStart) && |head| <= 1
    requires Ascending(body, bodyStart, end)
    requires AllAt(added, end)
    requires i < j < |body + added + head|
    ensures Apart((body + added + head)[i], (body + added + head)[j])
  {
    var m, k := |body|, |body| + |added|;
    var reps := body + added + head;
    if j < m {
    } else if j < k {
      assert reps[j] == added[j - m];
      if i >= m {
        assert reps[i] == added[i - m];
      }
    } else {
      assert reps[j] == head[j - k];
      if i < m {
      } else if i < k {
        assert reps[i] == added[i - m];
      }
    }
  }

  lemma AtTheEnd(data: string, body: seq<Replacement>, added: seq<Replacement>, head: seq<Replacement>, start: nat, bodyStart: nat, end: nat)
    requires start < bodyStart <= end <= |data|
    requires Ascending(head, start, bodyStart)
    requires Ascending(body, bodyStart, end)
    requires AllAt(added, end)
    ensures var reps := body + added + head;
      Emit(data, reps, end, |data|) + PutIn(reps, |data|) == PutIn(added, end) + data[end..]
  {
    hide PutIn, CutOut, Emit;
    var n := |data|;
    var reps := body + added + head;
    AgreeMiddle(body, added, head, end, n + 1);
    EmitAgree(data, reps, added, end, n);
    EmitInsertions(data, added, end);
  }

  // ---- What the directives of a block say about its lines ----

  function Count(ds: seq<Directive>, key: Keyword): nat {
    if ds == [] then 0
    else Count(ds[..|ds| - 1], key) + (if KeywordOf(ds[|ds| - 1].keyword) == key then 1 else 0)
  }

  predicate Names(ds: seq<Directive>, key: Keyword) {
    exists i :: 0 <= i < |ds| && KeywordOf(ds[i].keyword) == key
  }

  predicate SomeManaged(ds: seq<Directive>) {
    exists i :: 0 <= i < |ds| && ManagedToken(ds[i])
  }

  lemma {:induction false} CountAppend(a: seq<Directive>, b: seq<Directive>, key: Keyword)
    ensures Count(a + b, key) == Count(a, key) + Count(b, key)
  {
    if b == [] {
      assert a + b == a;
    } else {
      var n := |b| - 1;
      assert (a + b)[..|a + b| - 1] == a + b[..n];
      CountAppend(a, b[..n], key);
    }
  }

  lemma PlacedLineSays(line: string, offset: nat, no: nat, key: Keyword)
    ensures var ds := PlaceLine(line, offset, no);
      && |ds| <= 1
      && Count(ds, key) == (if LineKey(line) == Some(key) then 1 else 0)
      && (Names(ds, key) <==> LineKey(line) == Some(key))
      && (SomeManaged(ds) <==> IsManagedLine(line))
  {
    hide ScanLine, KeywordOf, ManagedIdentity;
    var ds := PlaceLine(line, offset, no);
    if ds != [] {
      assert ds[..0] == [] && Count(ds[..0], key) == 0;
      assert ds[0] == Place(ScanLine(Content(line)).value, Content(line), offset, no);
    }
  }

  lemma JoinSays(a: seq<Directive>, b: seq<Directive>, key: Keyword)
    ensures Names(a + b, key) <==> Names(a, key) || Names(b, key)
    ensures SomeManaged(a + b) <==> SomeManaged(a) || SomeManaged(b)
  {
    hide KeywordOf, ManagedToken;
    var ab := a + b;
    assert forall i :: 0 <= i < |a| ==> ab[i] == a[i];
    assert forall i :: 0 <= i < |b| ==> ab[|a| + i] == b[i];
  }

  lemma LinesSay(lines: seq<string>, key: Keyword)
    requires lines != []
    ensures Mentions(lines, key) <==> LineKey(lines[0]) == Some(key) || Mentions(lines[1..], key)
    ensures HasManaged(lines) <==> IsManagedLine(lines[0]) || HasManaged(lines[1..])
  {
    hide LineKey, IsManagedLine;
    var rest := lines[1..];
    assert forall i :: 0 <= i < |rest| ==> rest[i] == lines[i + 1];
    assert forall i :: 0 < i < |lines| ==> lines[i] == rest[i - 1];
  }

  lemma {:induction false} PlacedBodySays(lines: seq<string>, offset: nat, no: nat, key: Keyword)
    ensures var ds := PlaceBody(lines, offset, no);
      && Count(ds, key) == Occurrences(lines, key)
      && (Names(ds, key) <==> Mentions(lines, key))
      && (SomeManaged(ds) <==> HasManaged(lines))
  {
    hide PlaceLine, LineKey, IsManagedLine, KeywordOf, ManagedToken;
    if lines != [] {
      var here, rest := PlaceLine(lines[0], offset, no), PlaceBody(lines[1..], offset + |lines[0]|, no + 1);
      PlacedLineSays(lines[0], offset, no, key);
      PlacedBodySays(lines[1..], offset + |lines[0]|, no + 1, key);
      CountAppend(here, rest, key);
      JoinSays(here, rest, key);
      LinesSay(lines, key);
    }
  }

  // ---- The steps of the editor ----

  method CheckAlias(alias: string) returns (ok: bool)
    ensures ok == ValidAlias(alias)
  {
    if |alias| < 1 || |alias| > 255 {
      return false;
    }
    for i := 0 to |alias|
      invariant i > 0 ==> IsLetter(alias[0])
      invariant forall j :: 0 <= j < i ==> AliasChar(alias[j])
    {
      if i == 0 {
        if !IsLetter(alias[i]) {
          return false;
        }
      } else if !IsLetter(alias[i]) && !IsDigit(alias[i]) && alias[i] != '.' && alias[i] != '_' && alias[i] != '-' {
        return false;
      }
    }
    return true;
  }

  lemma BlockAliasIs(data: string, k: nat)
    requires k < |Blocks(data)|
    ensures |DocumentOf(data).blocks| == |Blocks(data)|
    ensures DocumentOf(data).blocks[k].alias == HeadAlias(Blocks(data)[k].head)
    ensures DocumentOf(data).blocks[k].alias != "" ==> DocumentOf(data).blocks[k].kind == HostBlock
  {
    hide Blocks, DocumentOf, IsHeader, ScanLine, KeywordOf;
    BlockPlaced(data, k);
  }

  /** The first Host block of an alias. */
  method FindBlock(doc: Document, alias: string) returns (r: Option<nat>)
    requires doc == DocumentOf(doc.bytes) && alias != ""
    ensures r == Target(doc.bytes, alias)
    ensures |doc.blocks| == |Blocks(doc.bytes)|
  {
    hide Blocks, DocumentOf, HeadAlias, IsHeader;
    SameBlocks(doc.bytes);
    TargetIsFirst(doc.bytes, alias);
    for i := 0 to |doc.blocks|
      invariant |doc.blocks| == |Blocks(doc.bytes)|
      invariant forall j :: 0 <= j < i ==> HeadAlias(Blocks(doc.bytes)[j].head) != alias
    {
      BlockAliasIs(doc.bytes, i);
      if doc.blocks[i].kind == HostBlock && doc.blocks[i].alias == alias {
        return Some(i);
      }
    }
    return None;
  }

  lemma WithEntry(m: map<Keyword, string>, key: Keyword, value: Option<string>)
    ensures m + Entry(key, value) == if value.Some? then m[key := value.value] else m
  {}

  method Wanted(edit: Edit) returns (desired: map<Keyword, string>)
    ensures desired == Desired(edit)
  {
    hide Entry;
    desired := map[];
    WithEntry(desired, HostName, edit.hostName);
    StartEntries(edit.hostName);
    if edit.hostName.Some? {
      desired := desired[HostName := edit.hostName.value];
    }
    WithEntry(desired, User, edit.user);
    if edit.user.Some? {
      desired := desired[User := edit.user.value];
    }
    WithEntry(desired, Port, Numeral(edit.port));
    if edit.port.Some? {
      desired := desired[Port := Decimal(edit.port.value)];
    }
    WithEntry(desired, IdentitiesOnly, edit.identitiesOnly);
    if edit.identitiesOnly.Some? {
      desired := desired[IdentitiesOnly := edit.identitiesOnly.value];
    }
    WithEntry(desired, StrictHostKeyChecking, edit.strictHostKeyChecking);
    if edit.strictHostKeyChecking.Some? {
      desired := desired[StrictHostKeyChecking := edit.strictHostKeyChecking.value];
    }
    WithEntry(desired, UserKnownHostsFile, edit.userKnownHostsFile);
    if edit.userKnownHostsFile.Some? {
      desired := desired[UserKnownHostsFile := edit.userKnownHostsFile.value];
    }
    WithEntry(desired, ServerAliveInterval, Numeral(edit.serverAliveInterval));
    if edit.serverAliveInterval.Some? {
      desired := desired[ServerAliveInterval := Decimal(edit.serverAliveInterval.value)];
    }
  }

  lemma StartEntries(value: Option<string>)
    ensures map[] + Entry(HostName, value) == Entry(HostName, value)
  {}

  /** No supported key but IdentityFile occurs twice. */
  method Editable(ds: seq<Directive>) returns (ok: bool)
    ensures ok <==> forall key :: Supported(key) && key != IdentityFile ==> Count(ds, key) <= 1
  {
    hide KeywordOf;
    var counts: map<Keyword, nat> := map[];
    for i := 0 to |ds|
      invariant forall key :: key in counts <==> Supported(key) && Count(ds[..i], key) > 0
      invariant forall key :: key in counts ==> counts[key] == Count(ds[..i], key)
    {
      assert ds[..i + 1][..i] == ds[..i];
      var key := KeywordOf(ds[i].keyword);
      if Supported(key) {
        counts := counts[key := (if key in counts then counts[key] else 0) + 1];
      }
    }
    assert ds[..|ds|] == ds;
    var rest := counts.Keys;
    while rest != {}
      invariant rest <= counts.Keys
      invariant forall key :: key in counts && key !in rest && key != IdentityFile ==> counts[key] <= 1
      decreases |rest|
    {
      var key :| key in rest;
      if key != IdentityFile && counts[key] > 1 {
        return false;
      }
      rest := rest - {key};
    }
    return true;
  }

  /** The replacements for the directives of a block, the keys seen and whether identity lines were replaced. */
  method BodyReplacements(block: Block, desired: map<Keyword, string>, ids: Option<seq<string>>, newline: string)
    returns (replacements: seq<Replacement>, seen: set<Keyword>, inserted: bool)
    requires forall i :: 0 <= i < |block.directives| ==>
      var d := block.directives[i];
      block.start <= d.lineStart <= d.lineEnd && d.lineStart < block.end && !IsHeaderKey(KeywordOf(d.keyword))
    requires forall key :: key in desired ==> Supported(key) && key != IdentityFile
    ensures replacements == Reps(block.directives, desired, ids, false, newline)
    ensures forall key :: key in seen <==> key in desired && Names(block.directives, key)
    ensures inserted <==> ids.Some? && SomeManaged(block.directives)
  {
    hide KeywordOf, RenderIdentities, ManagedToken, Reps, Names, SomeManaged;
    NothingNamed(desired, ids, newline);
    replacements, seen, inserted := [], {}, false;
    var ds := block.directives;
    assert ds[0..] == ds;
    for i := 0 to |ds|
      invariant replacements + Reps(ds[i..], desired, ids, inserted, newline) == Reps(ds, desired, ids, false, newline)
      invariant forall key :: key in seen <==> key in desired && Names(ds[..i], key)
      invariant inserted <==> ids.Some? && SomeManaged(ds[..i])
    {
      var directive := ds[i];
      var key := KeywordOf(directive.keyword);
      RepsStep(ds, i, desired, ids, inserted, newline);
      NamesSnoc(ds, i);
      ManagedKey(directive);
      if !IsHeaderKey(key) && block.start <= directive.lineStart < block.end {
        if key == IdentityFile && ManagedToken(directive) {
          if ids.Some? {
            if !inserted {
              replacements := replacements + [Replacement(directive.lineStart, directive.lineEnd, RenderIdentities(ids.value, newline))];
              inserted := true;
            } else {
              replacements := replacements + [Replacement(directive.lineStart, directive.lineEnd, "")];
            }
          }
        } else if key in desired {
          seen := seen + {key};
          if |directive.words| > 0 {
            var end := directive.valueStart + |directive.words[0]|;
            replacements := replacements + [Replacement(directive.valueStart, end, desired[key])];
          }
        }
      }
    }
    assert ds[|ds|..] == [] && ds[..|ds|] == ds;
  }

  lemma ManagedKey(d: Directive)
    ensures ManagedToken(d) ==> KeywordOf(d.keyword) == IdentityFile
  {
    hide KeywordOf, ManagedIdentity;
  }

  lemma NothingNamed(desired: map<Keyword, string>, ids: Option<seq<string>>, newline: string)
    ensures Reps([], desired, ids, false, newline) == [] && Reps([], desired, ids, true, newline) == []
    ensures forall key :: !Names([], key)
    ensures !SomeManaged([])
  {}

  lemma RepsStep(ds: seq<Directive>, i: nat, desired: map<Keyword, string>, ids: Option<seq<string>>, inserted: bool, newline: string)
    requires i < |ds| && forall i :: 0 <= i < |ds| ==> ds[i].lineStart <= ds[i].lineEnd
    ensures Reps(ds[i..], desired, ids, inserted, newline)
         == DirectiveReps(ds[i], desired, ids, inserted, newline)
            + Reps(ds[i + 1..], desired, ids, inserted || (ids.Some? && ManagedToken(ds[i])), newline)
  {
    hide DirectiveReps, ManagedToken;
    assert ds[i..][1..] == ds[i + 1..] && ds[i..][0] == ds[i];
  }

  lemma NamesSnoc(ds: seq<Directive>, i: nat)
    requires i < |ds|
    ensures forall key :: Names(ds[..i + 1], key) <==> Names(ds[..i], key) || KeywordOf(ds[i].keyword) == key
    ensures SomeManaged(ds[..i + 1]) <==> SomeManaged(ds[..i]) || ManagedToken(ds[i])
  {
    assert ds[..i + 1] == ds[..i] + [ds[i]];
    forall key ensures Names(ds[..i + 1], key) <==> Names(ds[..i], key) || KeywordOf(ds[i].keyword) == key {
      JoinSays(ds[..i], [ds[i]], key);
      OneSays(ds[i], key);
    }
    JoinSays(ds[..i], [ds[i]], IdentityFile);
    OneSays(ds[i], IdentityFile);
  }

  lemma OneSays(d: Directive, key: Keyword)
    ensures Names([d], key) <==> KeywordOf(d.keyword) == key
    ensures SomeManaged([d]) <==> ManagedToken(d)
  {
    hide KeywordOf, ManagedToken;
    assert [d][0] == d;
  }

  /** Insertions at one point that put the listed keys before what was there. */
  ghost predicate Adds(added: seq<Replacement>, order: seq<Keyword>, keys: set<Keyword>, desired: map<Keyword, string>, given: seq<Replacement>, at: nat, newline: string) {
    && AllAt(added, at)
    && Lists(order, keys)
    && (forall i :: 0 <= i < |order| ==> order[i] in desired && Supported(order[i]))
    && PutIn(added, at) == RenderKeys(order, desired, newline) + PutIn(given, at)
  }

  lemma AddsNothing(desired: map<Keyword, string>, given: seq<Replacement>, at: nat, newline: string)
    requires AllAt(given, at)
    ensures Adds(given, [], {}, desired, given, at, newline)
  {
    hide PutIn;
    Regroup(PutIn(given, at), "", "", "");
  }

  lemma AddsOne(added: seq<Replacement>, order: seq<Keyword>, keys: set<Keyword>, desired: map<Keyword, string>, given: seq<Replacement>, at: nat, newline: string, key: Keyword)
    requires Adds(added, order, keys, desired, given, at, newline)
    requires key in desired && Supported(key) && key !in keys
    ensures Adds(added + [Replacement(at, at, RenderDirective(key, desired[key], newline))], [key] + order, keys + {key},
                 desired, given, at, newline)
  {
    hide PutIn, RenderDirective, RenderKeys, CutOut;
    var r := Replacement(at, at, RenderDirective(key, desired[key], newline));
    SnocExtends(added, r);
    RenderOneMore(key, order, desired, newline);
    Associate(r.data, RenderKeys(order, desired, newline), PutIn(given, at));
  }

  /** The keys no directive mentions, each rendered at the end of the block; the last to be listed comes out first. */
  method AddMissing(desired: map<Keyword, string>, seen: set<Keyword>, given: seq<Replacement>, at: nat, newline: string)
    returns (added: seq<Replacement>)
    requires forall key :: key in desired ==> Supported(key)
    requires AllAt(given, at)
    ensures exists order :: Adds(added, order, desired.Keys - seen, desired, given, at, newline)
  {
    hide RenderDirective, Adds, AllAt, Supported;
    added := given;
    ghost var order: seq<Keyword> := [];
    AddsNothing(desired, given, at, newline);
    var rest := desired.Keys;
    assert desired.Keys - seen - rest == {};
    while rest != {}
      invariant rest <= desired.Keys
      invariant Adds(added, order, desired.Keys - seen - rest, desired, given, at, newline)
      decreases |rest|
    {
      var key :| key in rest;
      assert desired.Keys - seen - (rest - {key}) == (desired.Keys - seen - rest) + (if key in seen then {} else {key});
      if key !in seen {
        AddsOne(added, order, desired.Keys - seen - rest, desired, given, at, newline, key);
        added, order := added + [Replacement(at, at, RenderDirective(key, desired[key], newline))], [key] + order;
      }
      rest := rest - {key};
    }
    assert desired.Keys - seen - {} == desired.Keys - seen;
  }

  lemma RenderOneMore(key: Keyword, order: seq<Keyword>, desired: map<Keyword, string>, newline: string)
    requires forall i :: 0 <= i < |order| ==> order[i] in desired && Supported(order[i])
    requires key in desired && Supported(key)
    ensures RenderKeys([key] + order, desired, newline) == RenderDirective(key, desired[key], newline) + RenderKeys(order, desired, newline)
  {
    hide RenderDirective;
    assert ([key] + order)[1..] == order;
  }

  // ---- The editor ----

  /** A block of the document placed in the text `before + head + body + after`. */
  ghost predicate Lies(data: string, before: string, head: string, body: string, after: string, block: Block) {
    var mid := block.start + |head|;
    && head != ""
    && TextAt(data, 0, block.start, before)
    && TextAt(data, block.start, mid, head)
    && TextAt(data, mid, block.end, body)
    && TextAt(data, block.end, |data|, after)
  }

  /** The header and the directives of a block are those of its lines. */
  ghost predicate Holds(block: Block, b: RawBlock, no: nat) {
    && block.directives == PlaceBody(b.body, block.start + |b.head|, no + 1)
    && ScanLine(Content(b.head)).Some?
    && block.header == Place(ScanLine(Content(b.head)).value, Content(b.head), block.start, no)
  }

  function HeadNo(data: string, k: nat): nat
    requires k < |Blocks(data)|
  {
    1 + |Preamble(data)| + |Ungroup(Blocks(data)[..k])|
  }

  lemma BlockLies(data: string, k: nat)
    requires k < |Blocks(data)|
    ensures k < |DocumentOf(data).blocks|
    ensures var b := Blocks(data)[k];
      Lies(data, Before(data, k), b.head, Flatten(b.body), After(data, k), DocumentOf(data).blocks[k])
    ensures Holds(DocumentOf(data).blocks[k], Blocks(data)[k], HeadNo(data, k))
  {
    hide Blocks, DocumentOf, IsHeader, ScanLine, KeywordOf, Before, After, Flatten, PlaceBody, Preamble, Ungroup;
    var b := Blocks(data)[k];
    BlockText(data, k);
    BlockPlaced(data, k);
    HeaderNonempty(b.head);
    HeaderScans(b.head);
    FlattenBlock(b);
    LiesAt(data, Before(data, k), b.head, Flatten(b.body), After(data, k), DocumentOf(data).blocks[k]);
  }

  lemma HeaderScans(head: string)
    requires IsHeader(head)
    ensures ScanLine(Content(head)).Some?
  {}

  lemma LiesAt(data: string, before: string, head: string, body: string, after: string, block: Block)
    requires data == before + (head + body) + after && head != ""
    requires block.start == |before| && block.end == |before| + |head + body|
    ensures Lies(data, before, head, body, after, block)
  {
    ThreeParts(before, head, body + after);
    ThreeParts(before + head, body, after);
    assert data == before + head + (body + after);
    assert data == before + head + body + after;
    assert data[0..block.start] == data[..block.start];
    assert data[block.end..|data|] == data[block.end..];
  }

  lemma FlattenBlock(b: RawBlock)
    ensures Flatten(BlockLines(b)) == b.head + Flatten(b.body)
  {
    assert BlockLines(b)[1..] == b.body;
  }

  lemma HeadEmits(data: string, b: RawBlock, block: Block, no: nat, alias: string, newAlias: string, head: seq<Replacement>)
    requires TextAt(data, block.start, block.start + |b.head|, b.head) && Holds(block, b, no)
    requires IsHeader(b.head) && HeadAlias(b.head) == alias && alias != "" && block.header.words != []
    requires head == if newAlias == alias then []
                     else [Replacement(block.header.valueStart, block.header.valueStart + |block.header.words[0]|, newAlias)]
    ensures Ascending(head, block.start, block.start + |b.head|)
    ensures Emit(data, head, block.start, block.start + |b.head|) == PatchHead(b.head, alias, newAlias)
  {
    hide ScanLine, KeywordOf, Rewrites, WithFirstWord, Ascending, Emit, PlaceBody;
    if newAlias == alias {
      NoRewrite(b.head, block.start);
    } else {
      ValueRewrites(b.head, block.start, newAlias, ScanLine(Content(b.head)).value);
    }
    RewriteEmits(data, b.head, block.start, head, PatchHead(b.head, alias, newAlias));
  }

  lemma HeaderHasAlias(b: RawBlock, block: Block, no: nat)
    requires Holds(block, b, no) && IsHeader(b.head) && HeadAlias(b.head) != ""
    ensures block.header.words != []
  {
    hide ScanLine, KeywordOf, PlaceBody;
  }

  lemma DirectivesInside(b: RawBlock, block: Block, no: nat)
    requires Holds(block, b, no) && block.end == block.start + |b.head| + |Flatten(b.body)|
    requires NoHeader(b.body)
    ensures forall i :: 0 <= i < |block.directives| ==>
      var d := block.directives[i];
      block.start <= d.lineStart <= d.lineEnd && d.lineStart < block.end && !IsHeaderKey(KeywordOf(d.keyword))
  {
    hide ScanLine, KeywordOf, PlaceBody, Flatten, IsHeaderKey, IsHeader;
    PlacedLines(b.body, block.start + |b.head|, no + 1);
    BodyKeys(b.body, block.start + |b.head|, no + 1);
    forall i | 0 <= i < |block.directives|
      ensures var d := block.directives[i];
        block.start <= d.lineStart <= d.lineEnd && d.lineStart < block.end && !IsHeaderKey(KeywordOf(d.keyword))
    {
      assert block.directives[i] == PlaceBody(b.body, block.start + |b.head|, no + 1)[i];
    }
  }

  lemma {:induction false} BodyKeys(lines: seq<string>, offset: nat, no: nat)
    requires NoHeader(lines)
    ensures forall i :: 0 <= i < |PlaceBody(lines, offset, no)| ==> !IsHeaderKey(KeywordOf(PlaceBody(lines, offset, no)[i].keyword))
  {
    hide ScanLine, KeywordOf;
    if lines != [] {
      assert !IsHeader(lines[0]);
      BodyKeys(lines[1..], offset + |lines[0]|, no + 1);
    }
  }

  lemma BlockBodies(data: string, k: nat)
    requires k < |Blocks(data)|
    ensures NoHeader(Blocks(data)[k].body)
  {
    GroupWellFormed(Lines(data));
  }

  lemma BlockSays(b: RawBlock, block: Block, no: nat)
    requires Holds(block, b, no)
    ensures forall key :: Count(block.directives, key) == Occurrences(b.body, key)
    ensures forall key :: Names(block.directives, key) <==> Mentions(b.body, key)
    ensures SomeManaged(block.directives) <==> HasManaged(b.body)
  {
    hide PlaceBody, Count, Names, SomeManaged, Occurrences, Mentions, HasManaged, ScanLine;
    forall key
      ensures Count(block.directives, key) == Occurrences(b.body, key)
      ensures Names(block.directives, key) <==> Mentions(b.body, key)
    {
      PlacedBodySays(b.body, block.start + |b.head|, no + 1, key);
    }
    PlacedBodySays(b.body, block.start + |b.head|, no + 1, IdentityFile);
  }

  /** The identity lines to add at the end of the block. */
  ghost predicate IdentityInsertion(given: seq<Replacement>, b: RawBlock, ids: Option<seq<string>>, at: nat, newline: string) {
    given == if ids.Some? && !HasManaged(b.body) && |ids.value| > 0
             then [Replacement(at, at, RenderIdentities(ids.value, newline))] else []
  }

  lemma AddedText(b: RawBlock, desired: map<Keyword, string>, ids: Option<seq<string>>, given: seq<Replacement>, added: seq<Replacement>, order: seq<Keyword>, at: nat, newline: string)
    requires IdentityInsertion(given, b, ids, at, newline)
    requires Adds(added, order, MissingKeys(b.body, desired), desired, given, at, newline)
    ensures PutIn(added, at) == Added(b.body, desired, ids, order, newline)
  {
    hide HasManaged, RenderDirective, RenderKeys, MissingKeys;
    if given != [] {
      OneEffect(given[0], at);
      assert given == [given[0]];
    }
  }

  /** The replacements of an edit substitute to the edited block in its place. */
  lemma ReplacementsPatch(
    data: string, before: string, b: RawBlock, after: string, block: Block, no: nat, alias: string, edit: Edit, newline: string,
    body: seq<Replacement>, given: seq<Replacement>, added: seq<Replacement>, head: seq<Replacement>, order: seq<Keyword>)
    requires Lies(data, before, b.head, Flatten(b.body), after, block) && Holds(block, b, no)
    requires IsHeader(b.head) && HeadAlias(b.head) == alias && alias != "" && block.header.words != []
    requires forall i :: 0 <= i < |block.directives| ==> block.directives[i].lineStart <= block.directives[i].lineEnd
    requires body == Reps(block.directives, Desired(edit), edit.identityFileNames, false, newline)
    requires IdentityInsertion(given, b, edit.identityFileNames, block.end, newline)
    requires Adds(added, order, MissingKeys(b.body, Desired(edit)), Desired(edit), given, block.end, newline)
    requires head == if NewAlias(alias, edit) == alias then []
                     else [Replacement(block.header.valueStart, block.header.valueStart + |block.header.words[0]|, NewAlias(alias, edit))]
    ensures InRange(data, body + added + head) && Disjoint(body + added + head)
    ensures Addition(b, edit, order)
    ensures Substitute(data, body + added + head) == before + PatchedBlock(b, alias, edit, order, newline) + after
  {
    hide *;
    var ids, mid := edit.identityFileNames, block.start + |b.head|;
    LiesBounds(data, before, b.head, Flatten(b.body), after, block);
    AddsListed(added, order, b, edit, given, block.end, newline);
    HeldDirectives(block, b, no);
    BodyEmits(data, b.body, mid, no + 1, Desired(edit), ids, false, newline);
    HeadEmits(data, b, block, no, alias, NewAlias(alias, edit), head);
    AtMostOne(head);
    AddedText(b, Desired(edit), ids, given, added, order, block.end, newline);
    AssembleFile(data, body, added, head, block.start, mid, block.end);
    PatchedBlockIs(b, alias, edit, order, newline);
    FiveParts(before, PatchHead(b.head, alias, NewAlias(alias, edit)), PatchBody(b.body, Desired(edit), ids, false, newline),
              Added(b.body, Desired(edit), ids, order, newline), after);
    MiddleParts(before, PatchHead(b.head, alias, NewAlias(alias, edit)), PatchBody(b.body, Desired(edit), ids, false, newline),
                Added(b.body, Desired(edit), ids, order, newline), after);
  }

  lemma AtMostOne<T>(s: seq<T>)
    requires s == [] || |s| == 1
    ensures |s| <= 1
  {}

  lemma MiddleParts(a: string, b: string, c: string, d: string, e: string)
    ensures a + (b + c + d) + e == a + b + c + d + e
  {}

  lemma HeldDirectives(block: Block, b: RawBlock, no: nat)
    requires Holds(block, b, no)
    ensures block.directives == PlaceBody(b.body, block.start + |b.head|, no + 1)
  {
    hide ScanLine, PlaceBody;
  }

  lemma LiesBounds(data: string, before: string, head: string, body: string, after: string, block: Block)
    requires Lies(data, before, head, body, after, block)
    ensures block.start < block.start + |head| <= block.end <= |data|
    ensures block.end == block.start + |head| + |body|
    ensures TextAt(data, block.start, block.start + |head|, head)
    ensures data[block.start + |head|..block.start + |head| + |body|] == body
    ensures data[..block.start] == before && data[block.end..] == after
  {
    assert |data[block.start + |head|..block.end]| == |body|;
    assert data[0..block.start] == data[..block.start];
    assert data[block.end..|data|] == data[block.end..];
  }

  lemma PatchedBlockIs(b: RawBlock, alias: string, edit: Edit, order: seq<Keyword>, newline: string)
    requires IsHeader(b.head) && HeadAlias(b.head) == alias && alias != ""
    requires Addition(b, edit, order)
    requires forall i :: 0 <= i < |order| ==> order[i] in Desired(edit) && Supported(order[i])
    ensures PatchedBlock(b, alias, edit, order, newline)
         == PatchHead(b.head, alias, NewAlias(alias, edit))
            + PatchBody(b.body, Desired(edit), edit.identityFileNames, false, newline)
            + Added(b.body, Desired(edit), edit.identityFileNames, order, newline)
  {
    hide PatchHead, PatchBody, Added, Desired, Addition, HeadAlias, IsHeader;
  }

  lemma AddsListed(added: seq<Replacement>, order: seq<Keyword>, b: RawBlock, edit: Edit, given: seq<Replacement>, at: nat, newline: string)
    requires Adds(added, order, MissingKeys(b.body, Desired(edit)), Desired(edit), given, at, newline)
    ensures AllAt(added, at) && Addition(b, edit, order)
    ensures forall i :: 0 <= i < |order| ==> order[i] in Desired(edit) && Supported(order[i])
  {
    hide MissingKeys, PutIn, RenderKeys, Desired;
    DesiredKeys(edit);
  }

  /** The editor: the error the edit deserves, or the edited file. The missing keys come in the order
      the map of wanted values happens to be traversed. */
  method PatchBlock(doc: Document, alias: string, edit: Edit) returns (r: Result<string, EditError>)
    requires doc == DocumentOf(doc.bytes) && alias != ""
    ensures match PatchOutcome(doc.bytes, alias, edit)
      case Failure(e) => r == Failure(e)
      case Success(k) => r.Success? && IsPatched(doc.bytes, alias, edit, r.value)
  {
    hide DocumentOf, Blocks, IsHeader, HeadAlias, ScanLine, Lies, Holds, HeadNo, Flatten, Before, After, PatchedBlock, Addition, Adds, AllAt, Disjoint, InRange, Substitute, Reps,
         Names, SomeManaged, Mentions, HasManaged, KeywordOf, Desired, ValidAlias, Target, MissingKeys, RenderIdentities, NewlineOf, Count, Occurrences;
    var data := doc.bytes;
    var index := FindBlock(doc, alias);
    if index.None? {
      return Failure(NotFound);
    }
    var k := index.value;
    var block := doc.blocks[k];
    BlockLies(data, k);
    ghost var b := Blocks(data)[k];
    ghost var no := HeadNo(data, k);
    var newAlias := edit.hostAlias;
    if newAlias == "" {
      newAlias := alias;
    }
    var valid := CheckAlias(newAlias);
    if !valid {
      return Failure(InvalidAlias);
    }
    if newAlias != alias {
      var taken := FindBlock(doc, newAlias);
      if taken.Some? {
        return Failure(AliasExists);
      }
    }
    var desired := Wanted(edit);
    BlockSays(b, block, no);
    var editable := Editable(block.directives);
    assert !editable <==> Ambiguous(b.body);
    if !editable {
      return Failure(NotEditable);
    }
    assert PatchOutcome(data, alias, edit) == Success(k);
    BlockBodies(data, k);
    LiesBounds(data, Before(data, k), b.head, Flatten(b.body), After(data, k), block);
    DirectivesInside(b, block, no);
    DesiredKeys(edit);
    var newline := doc.newline;
    DocumentNewline(data);
    var body, seen, inserted := BodyReplacements(block, desired, edit.identityFileNames, newline);
    var given: seq<Replacement> := [];
    if edit.identityFileNames.Some? && !inserted && |edit.identityFileNames.value| > 0 {
      given := [Replacement(block.end, block.end, RenderIdentities(edit.identityFileNames.value, newline))];
    }
    GivenAt(given, block.end);
    var added := AddMissing(desired, seen, given, block.end, newline);
    ghost var order :| Adds(added, order, desired.Keys - seen, desired, given, block.end, newline);
    MissingAre(b.body, desired, seen);
    var head: seq<Replacement> := [];
    HeaderHasAlias(b, block, no);
    if newAlias != alias {
      var d := block.header;
      head := [Replacement(d.valueStart, d.valueStart + |d.words[0]|, newAlias)];
    }
    ReplacementsPatch(data, Before(data, k), b, After(data, k), block, no, alias, edit, newline, body, given, added, head, order);
    var replacements := body + added + head;
    var list := new Replacement[|replacements|](i requires 0 <= i < |replacements| => replacements[i]);
    assert list[..] == replacements;
    var text := ApplyReplacements(data, list);
    assert Addition(Blocks(data)[k], edit, order) && text == Patched(data, alias, edit, order);
    r := Success(text);
  }

  lemma DocumentNewline(data: string)
    ensures DocumentOf(data).newline == NewlineOf(data)
  {}

  lemma GivenAt(given: seq<Replacement>, at: nat)
    requires |given| <= 1
    requires forall i :: 0 <= i < |given| ==> given[i].start == at && given[i].end == at
    ensures AllAt(given, at)
  {}

  lemma MissingAre(lines: seq<string>, desired: map<Keyword, string>, seen: set<Keyword>)
    requires forall key :: key in seen <==> key in desired && Mentions(lines, key)
    ensures desired.Keys - seen == MissingKeys(lines, desired)
  {
    hide Mentions;
  }
}
