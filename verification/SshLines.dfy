/** The lines of an edited block. Editing a block is compositional: whatever the block
    holds, every other block of the file keeps its lines. */
module SshLines {
  import opened Common
  import opened SshText
  import opened SshParse
  import opened SshDefinition
  import opened SshPatch
  import opened SshScan

  // ---- The values of an edit ----

  /** An edit whose values are single clean words. */
  ghost predicate CleanEdit(edit: Edit) {
    && (forall key :: key in Desired(edit) ==> CleanValue(Desired(edit)[key]))
    && (edit.identityFileNames.Some? ==> CleanNames(edit.identityFileNames.value))
  }

  ghost predicate CleanNames(names: seq<string>) {
    forall i :: 0 <= i < |names| ==> AllPlain(names[i])
  }

  lemma CleanIdentity(name: string)
    requires AllPlain(name)
    ensures CleanValue(KEY_DIR + name)
  {
    var v := KEY_DIR + name;
    assert forall i :: 0 <= i < |v| ==> v[i] == if i < |KEY_DIR| then KEY_DIR[i] else name[i - |KEY_DIR|];
  }

  lemma CleanAlias(alias: string)
    requires ValidAlias(alias)
    ensures CleanValue(alias) && ConcreteAlias(alias)
  {
    assert forall i :: 0 <= i < |alias| ==> AliasChar(alias[i]);
  }

  // ---- The lines ----

  function IdentityLines(names: seq<string>, newline: string): seq<string> {
    if names == [] then []
    else [RenderDirective(IdentityFile, KEY_DIR + names[0], newline)] + IdentityLines(names[1..], newline)
  }

  function KeyLines(keys: seq<Keyword>, desired: map<Keyword, string>, newline: string): seq<string>
    requires forall i :: 0 <= i < |keys| ==> keys[i] in desired && Supported(keys[i])
  {
    if keys == [] then []
    else [RenderDirective(keys[0], desired[keys[0]], newline)] + KeyLines(keys[1..], desired, newline)
  }

  function PatchLines(line: string, desired: map<Keyword, string>, ids: Option<seq<string>>, inserted: bool, newline: string): seq<string> {
    if IsManagedLine(line) && ids.Some? then
      (if inserted then [] else IdentityLines(ids.value, newline)) + (if Ending(line) == "" then [] else [Ending(line)])
    else [PatchLine(line, desired, ids, inserted, newline)]
  }

  function EditedBody(lines: seq<string>, desired: map<Keyword, string>, ids: Option<seq<string>>, inserted: bool, newline: string): seq<string> {
    if lines == [] then []
    else PatchLines(lines[0], desired, ids, inserted, newline)
         + EditedBody(lines[1..], desired, ids, inserted || (ids.Some? && IsManagedLine(lines[0])), newline)
  }

  function AddedLines(lines: seq<string>, desired: map<Keyword, string>, ids: Option<seq<string>>, order: seq<Keyword>, newline: string): seq<string>
    requires forall i :: 0 <= i < |order| ==> order[i] in desired && Supported(order[i])
  {
    KeyLines(order, desired, newline)
    + (if ids.Some? && !HasManaged(lines) then IdentityLines(ids.value, newline) else [])
  }

  /** Lines put after others: the first joins a last line that does not end. */
  function Join(lines: seq<string>, added: seq<string>): seq<string>
    requires lines != []
  {
    var n := |lines| - 1;
    if added == [] || Terminated(lines[n]) then lines + added
    else lines[..n] + [lines[n] + added[0]] + added[1..]
  }

  // ---- Their text ----

  lemma {:induction false} FlattenIdentityLines(names: seq<string>, newline: string)
    ensures Flatten(IdentityLines(names, newline)) == RenderIdentities(names, newline)
  {
    hide RenderDirective;
    if names != [] {
      FlattenIdentityLines(names[1..], newline);
    }
  }

  lemma {:induction false} FlattenKeyLines(keys: seq<Keyword>, desired: map<Keyword, string>, newline: string)
    requires forall i :: 0 <= i < |keys| ==> keys[i] in desired && Supported(keys[i])
    ensures Flatten(KeyLines(keys, desired, newline)) == RenderKeys(keys, desired, newline)
  {
    hide RenderDirective;
    if keys != [] {
      FlattenKeyLines(keys[1..], desired, newline);
    }
  }

  lemma ManagedPatch(line: string, desired: map<Keyword, string>, ids: Option<seq<string>>, inserted: bool, newline: string)
    requires IsManagedLine(line) && ids.Some?
    ensures PatchLine(line, desired, ids, inserted, newline) == (if inserted then "" else RenderIdentities(ids.value, newline)) + Ending(line)
  {
    hide ScanLine, RenderIdentities, Ending;
  }

  lemma FlattenPatchLines(line: string, desired: map<Keyword, string>, ids: Option<seq<string>>, inserted: bool, newline: string)
    ensures Flatten(PatchLines(line, desired, ids, inserted, newline)) == PatchLine(line, desired, ids, inserted, newline)
  {
    hide PatchLine, Ending, IsManagedLine, RenderIdentities;
    if IsManagedLine(line) && ids.Some? {
      ManagedPatch(line, desired, ids, inserted, newline);
      var first := if inserted then [] else IdentityLines(ids.value, newline);
      var last := if Ending(line) == "" then [] else [Ending(line)];
      FlattenIdentityLines(ids.value, newline);
      FlattenAppend(first, last);
      FlattenOne(Ending(line));
    } else {
      FlattenOne(PatchLine(line, desired, ids, inserted, newline));
    }
  }

  lemma {:induction false} FlattenEditedBody(lines: seq<string>, desired: map<Keyword, string>, ids: Option<seq<string>>, inserted: bool, newline: string)
    ensures Flatten(EditedBody(lines, desired, ids, inserted, newline)) == PatchBody(lines, desired, ids, inserted, newline)
  {
    hide PatchLine, PatchLines, IsManagedLine;
    if lines != [] {
      var inserted' := inserted || (ids.Some? && IsManagedLine(lines[0]));
      FlattenPatchLines(lines[0], desired, ids, inserted, newline);
      FlattenEditedBody(lines[1..], desired, ids, inserted', newline);
      FlattenAppend(PatchLines(lines[0], desired, ids, inserted, newline), EditedBody(lines[1..], desired, ids, inserted', newline));
    }
  }

  lemma FlattenAddedLines(lines: seq<string>, desired: map<Keyword, string>, ids: Option<seq<string>>, order: seq<Keyword>, newline: string)
    requires forall i :: 0 <= i < |order| ==> order[i] in desired && Supported(order[i])
    ensures Flatten(AddedLines(lines, desired, ids, order, newline)) == Added(lines, desired, ids, order, newline)
  {
    hide HasManaged, RenderKeys, RenderIdentities, KeyLines, IdentityLines;
    FlattenKeyLines(order, desired, newline);
    if ids.Some? {
      FlattenIdentityLines(ids.value, newline);
    }
    var identities := if ids.Some? && !HasManaged(lines) then IdentityLines(ids.value, newline) else [];
    FlattenAppend(KeyLines(order, desired, newline), identities);
  }

  lemma FlattenJoin(lines: seq<string>, added: seq<string>)
    requires lines != []
    ensures Flatten(Join(lines, added)) == Flatten(lines) + Flatten(added)
  {
    hide Terminated;
    var n := |lines| - 1;
    FlattenAppend(lines, added);
    if added != [] && !Terminated(lines[n]) {
      var last, first := lines[n], added[0];
      assert lines == lines[..n] + [last] && added == [first] + added[1..];
      FlattenAppend(lines[..n], [last]);
      FlattenThree(lines[..n], [last + first], added[1..]);
      FlattenOne(last);
      FlattenOne(last + first);
      AssociateMiddle(Flatten(lines[..n]), last, first, Flatten(added[1..]));
    }
  }

  // ---- They are lines ----

  /** A newline only as the last character. */
  ghost predicate LineLike(line: string) {
    line != "" && forall i :: 0 <= i < |line| - 1 ==> line[i] != '\n'
  }

  ghost predicate AllLines(lines: seq<string>) {
    forall k :: 0 <= k < |lines| ==> LineLike(lines[k])
  }

  ghost predicate AllTerminated(lines: seq<string>) {
    forall k :: 0 <= k < |lines| ==> Terminated(lines[k])
  }

  /** Lines of which only the last may lack its newline. */
  ghost predicate Proper(lines: seq<string>) {
    AllLines(lines) && (lines != [] ==> AllTerminated(lines[..|lines| - 1]))
  }

  lemma ProperIsWellFormed(lines: seq<string>)
    ensures Proper(lines) <==> WellFormedLines(lines)
  {
    if Proper(lines) {
      forall k | 0 <= k < |lines| - 1 ensures Terminated(lines[k]) {
        assert lines[k] == lines[..|lines| - 1][k];
      }
      assert forall k :: 0 <= k < |lines| ==> LineLike(lines[k]);
    }
  }

  lemma ProperJoin(a: seq<string>, b: seq<string>)
    requires Proper(a) && Proper(b) && (b == [] || AllTerminated(a))
    ensures Proper(a + b)
  {
    hide LineLike, Terminated;
    if b == [] {
      assert a + b == a;
    } else {
      assert (a + b)[..|a + b| - 1] == a + b[..|b| - 1];
    }
  }

  lemma TerminatedProper(lines: seq<string>)
    requires AllLines(lines) && AllTerminated(lines)
    ensures Proper(lines)
  {}

  lemma RenderedIsLine(key: Keyword, v: string, newline: string)
    requires Supported(key) && CleanValue(v) && IsNewline(newline)
    ensures LineLike(RenderDirective(key, v, newline)) && Terminated(RenderDirective(key, v, newline))
  {
    CanonicalReadsBack(key);
    hide Canonical, KeywordOf;
    var w := Canonical(key);
    var s := "  " + w + " " + v;
    forall i | 0 <= i < |s| ensures s[i] != '\n' {
      if 2 <= i < 2 + |w| {
        assert s[i] == w[i - 2];
        assert 'a' <= LowerChar(w[i - 2]) <= 'z';
      } else if i >= 3 + |w| {
        assert s[i] == v[i - 3 - |w|];
        assert IsPlain(v[i - 3 - |w|]);
      }
    }
    var line := RenderDirective(key, v, newline);
    assert line == s + newline;
    assert line[|line| - 1] == newline[|newline| - 1];
  }

  lemma {:induction false} IdentityLinesAreLines(names: seq<string>, newline: string)
    requires CleanNames(names) && IsNewline(newline)
    ensures AllLines(IdentityLines(names, newline)) && AllTerminated(IdentityLines(names, newline))
  {
    hide RenderDirective, LineLike, Terminated, CleanValue, AllPlain;
    if names != [] {
      CleanIdentity(names[0]);
      RenderedIsLine(IdentityFile, KEY_DIR + names[0], newline);
      IdentityLinesAreLines(names[1..], newline);
    }
  }

  lemma {:induction false} KeyLinesAreLines(keys: seq<Keyword>, desired: map<Keyword, string>, newline: string)
    requires forall i :: 0 <= i < |keys| ==> keys[i] in desired && Supported(keys[i])
    requires (forall key :: key in desired ==> CleanValue(desired[key])) && IsNewline(newline)
    ensures AllLines(KeyLines(keys, desired, newline)) && AllTerminated(KeyLines(keys, desired, newline))
  {
    hide RenderDirective, LineLike, Terminated, CleanValue;
    if keys != [] {
      RenderedIsLine(keys[0], desired[keys[0]], newline);
      KeyLinesAreLines(keys[1..], desired, newline);
    }
  }

  lemma EndingIsLine(line: string)
    requires LineLike(line) && Ending(line) != ""
    ensures LineLike(Ending(line))
    ensures Terminated(line) ==> Terminated(Ending(line))
  {
    EndingForms(line);
    if Terminated(line) {
      assert line[|line| - 1] == Ending(line)[|Ending(line)| - 1];
    }
  }

  lemma ReplacedIsLine(line: string, v: string)
    requires LineLike(line) && ScanLine(Content(line)).Some? && ScanLine(Content(line)).value.words != [] && CleanValue(v)
    ensures LineLike(WithFirstWord(line, v))
    ensures Terminated(line) ==> Terminated(WithFirstWord(line, v))
  {
    hide ScanLine, Words, CleanValue;
    var d := ScanLine(Content(line)).value;
    FirstWordFits(d.value);
    ReplacedChars(line, d.at, |d.words[0]|, v);
  }

  lemma ReplacedChars(line: string, a: nat, n: nat, v: string)
    requires LineLike(line) && CleanValue(v) && a + n <= |Content(line)|
    ensures var r := Content(line)[..a] + v + Content(line)[a + n..] + Ending(line);
      LineLike(r) && (Terminated(line) ==> Terminated(r))
  {
    var c, e := Content(line), Ending(line);
    EndingForms(line);
    var r := c[..a] + v + c[a + n..] + e;
    assert IsPlain(v[|v| - 1]);
    forall i | 0 <= i < |r| - 1 ensures r[i] != '\n' {
      if i < a {
        assert r[i] == line[i];
      } else if i < a + |v| {
        assert r[i] == v[i - a] && IsPlain(v[i - a]);
      } else {
        assert r[i] == line[i - |v| + n];
      }
    }
    if Terminated(line) {
      assert ContentEnd(line) < |line|;
      assert r[|r| - 1] == e[|e| - 1] == line[|line| - 1];
    }
  }

  ghost predicate EditsLine(line: string, desired: map<Keyword, string>) {
    var d := ScanLine(Content(line));
    d.Some? && Key(d.value) in desired && d.value.words != []
  }

  /** A line that is not replaced by identity lines is kept, or gets another first word. */
  lemma OtherPatch(line: string, desired: map<Keyword, string>, ids: Option<seq<string>>, inserted: bool, newline: string)
    requires !(IsManagedLine(line) && ids.Some?)
    requires IdentityFile !in desired
    ensures EditsLine(line, desired) ==>
      PatchLine(line, desired, ids, inserted, newline) == WithFirstWord(line, desired[Key(ScanLine(Content(line)).value)])
    ensures !EditsLine(line, desired) ==> PatchLine(line, desired, ids, inserted, newline) == line
  {
    hide ScanLine, KeywordOf, ManagedIdentity, WithFirstWord;
  }

  lemma PatchLinesAreLines(line: string, desired: map<Keyword, string>, ids: Option<seq<string>>, inserted: bool, newline: string)
    requires LineLike(line) && IsNewline(newline) && IdentityFile !in desired
    requires forall key :: key in desired ==> CleanValue(desired[key])
    requires ids.Some? ==> CleanNames(ids.value)
    ensures Proper(PatchLines(line, desired, ids, inserted, newline))
    ensures Terminated(line) ==> AllTerminated(PatchLines(line, desired, ids, inserted, newline))
  {
    hide PatchLine, Ending, ScanLine, IsManagedLine, LineLike, Terminated, CleanValue, KeywordOf, WithFirstWord, IdentityLines;
    if IsManagedLine(line) && ids.Some? {
      var first := if inserted then [] else IdentityLines(ids.value, newline);
      IdentityLinesAreLines(ids.value, newline);
      TerminatedProper(first);
      var last := if Ending(line) == "" then [] else [Ending(line)];
      if last != [] {
        EndingIsLine(line);
      }
      ProperJoin(first, last);
    } else {
      OtherPatch(line, desired, ids, inserted, newline);
      if EditsLine(line, desired) {
        ReplacedIsLine(line, desired[Key(ScanLine(Content(line)).value)]);
      }
    }
  }

  lemma {:induction false} EditedBodyIsProper(lines: seq<string>, desired: map<Keyword, string>, ids: Option<seq<string>>, inserted: bool, newline: string)
    requires Proper(lines) && IsNewline(newline) && IdentityFile !in desired
    requires forall key :: key in desired ==> CleanValue(desired[key])
    requires ids.Some? ==> CleanNames(ids.value)
    ensures Proper(EditedBody(lines, desired, ids, inserted, newline))
    ensures AllTerminated(lines) ==> AllTerminated(EditedBody(lines, desired, ids, inserted, newline))
  {
    hide PatchLines, IsManagedLine, LineLike, Terminated, CleanValue, CleanNames;
    if lines != [] {
      var line, rest := lines[0], lines[1..];
      var inserted' := inserted || (ids.Some? && IsManagedLine(line));
      ProperTail(lines);
      PatchLinesAreLines(line, desired, ids, inserted, newline);
      EditedBodyIsProper(rest, desired, ids, inserted', newline);
      var a, b := PatchLines(line, desired, ids, inserted, newline), EditedBody(rest, desired, ids, inserted', newline);
      if rest == [] {
        assert b == [];
      }
      ProperJoin(a, b);
    }
  }

  lemma ProperTail(lines: seq<string>)
    requires Proper(lines) && lines != []
    ensures LineLike(lines[0]) && Proper(lines[1..])
    ensures |lines| > 1 ==> Terminated(lines[0])
    ensures AllTerminated(lines) ==> AllTerminated(lines[1..])
  {
    hide LineLike, Terminated;
    if |lines| > 1 {
      assert lines[..|lines| - 1][0] == lines[0];
      assert lines[1..][..|lines| - 2] == lines[..|lines| - 1][1..];
    }
  }

  // ---- Headers stay headers ----

  lemma EditedKeepsKey(line: string, v: string)
    requires ScanLine(Content(line)).Some? && ScanLine(Content(line)).value.words != [] && CleanValue(v)
    ensures LineKey(WithFirstWord(line, v)) == LineKey(line)
    ensures IsHeader(WithFirstWord(line, v)) == IsHeader(line)
  {
    hide ScanLine, WithFirstWord, KeywordOf, Leftover, Following, Content, CleanValue;
    EditedLineScans(line, v);
  }

  lemma RenderedIsNoHeader(key: Keyword, v: string, newline: string)
    requires Supported(key) && CleanValue(v) && IsNewline(newline)
    ensures LineKey(RenderDirective(key, v, newline)) == Some(key)
    ensures !IsHeader(RenderDirective(key, v, newline))
  {
    hide ScanLine, RenderDirective, KeywordOf, CleanValue, Content, LineReading;
    RenderedScans(key, v, newline);
  }

  lemma EndingIsBlank(line: string)
    ensures Content(Ending(line)) == "" && LineKey(Ending(line)) == None
    ensures !IsHeader(Ending(line)) && LineReading(Ending(line)) == []
  {
    EndingForms(line);
    var e := Ending(line);
    assert "" + e == e;
    assert IsEnding("", e) by {
      if e == "\n" || e == "" {}
    }
    ContentOf("", e);
    BlankLine(e);
  }

  lemma {:induction false} IdentityLinesNoHeader(names: seq<string>, newline: string)
    requires CleanNames(names) && IsNewline(newline)
    ensures NoHeader(IdentityLines(names, newline))
  {
    hide RenderDirective, CleanValue, AllPlain, IsHeader, LineKey;
    if names != [] {
      CleanIdentity(names[0]);
      RenderedIsNoHeader(IdentityFile, KEY_DIR + names[0], newline);
      IdentityLinesNoHeader(names[1..], newline);
    }
  }

  lemma {:induction false} KeyLinesNoHeader(keys: seq<Keyword>, desired: map<Keyword, string>, newline: string)
    requires forall i :: 0 <= i < |keys| ==> keys[i] in desired && Supported(keys[i])
    requires (forall key :: key in desired ==> CleanValue(desired[key])) && IsNewline(newline)
    ensures NoHeader(KeyLines(keys, desired, newline))
  {
    hide RenderDirective, CleanValue, IsHeader, LineKey;
    if keys != [] {
      RenderedIsNoHeader(keys[0], desired[keys[0]], newline);
      KeyLinesNoHeader(keys[1..], desired, newline);
    }
  }

  lemma PatchLinesNoHeader(line: string, desired: map<Keyword, string>, ids: Option<seq<string>>, inserted: bool, newline: string)
    requires !IsHeader(line) && IsNewline(newline) && IdentityFile !in desired
    requires forall key :: key in desired ==> CleanValue(desired[key])
    requires ids.Some? ==> CleanNames(ids.value)
    ensures NoHeader(PatchLines(line, desired, ids, inserted, newline))
  {
    hide PatchLine, ScanLine, IsManagedLine, CleanValue, KeywordOf, WithFirstWord, IdentityLines, IsHeader, LineKey, LineReading, Ending;
    if IsManagedLine(line) && ids.Some? {
      IdentityLinesNoHeader(ids.value, newline);
      EndingIsBlank(line);
    } else {
      OtherPatch(line, desired, ids, inserted, newline);
      if EditsLine(line, desired) {
        EditedKeepsKey(line, desired[Key(ScanLine(Content(line)).value)]);
      }
    }
  }

  lemma {:induction false} EditedBodyNoHeader(lines: seq<string>, desired: map<Keyword, string>, ids: Option<seq<string>>, inserted: bool, newline: string)
    requires NoHeader(lines) && IsNewline(newline) && IdentityFile !in desired
    requires forall key :: key in desired ==> CleanValue(desired[key])
    requires ids.Some? ==> CleanNames(ids.value)
    ensures NoHeader(EditedBody(lines, desired, ids, inserted, newline))
  {
    hide PatchLines, IsManagedLine, CleanValue, IsHeader;
    if lines != [] {
      PatchLinesNoHeader(lines[0], desired, ids, inserted, newline);
      EditedBodyNoHeader(lines[1..], desired, ids, inserted || (ids.Some? && IsManagedLine(lines[0])), newline);
    }
  }

  // ---- A rendered line after a line that does not end ----

  predicate Blank(line: string) {
    SkipSpace(line, 0) == |line|
  }

  /** The keyword of a line reaches from its first non-blank to the next separator. */
  lemma KeywordScans(s: string, k: nat, e: nat)
    requires k < e <= |s|
    requires forall j :: 0 <= j < k ==> IsSpace(s[j])
    requires !IsSpace(s[k]) && s[k] != '#'
    requires forall j :: k <= j < e ==> !IsSeparator(s[j])
    requires e == |s| || IsSeparator(s[e])
    ensures ScanLine(s).Some? && ScanLine(s).value.keyword == s[k..e]
  {
    hide IsSpace, IsSeparator, Words;
    SkipSpaceIs(s, 0, k);
    SkipKeywordIs(s, k, e);
  }

  lemma NoKeywordScans(s: string, k: nat)
    requires k < |s|
    requires forall j :: 0 <= j < k ==> IsSpace(s[j])
    requires !IsSpace(s[k]) && (s[k] == '#' || s[k] == '=')
    ensures ScanLine(s) == None
  {
    assert s[k] == '=' ==> IsSeparator(s[k]);
    hide IsSpace, IsSeparator, Words;
    SkipSpaceIs(s, 0, k);
    if s[k] == '=' {
      SkipKeywordIs(s, k, k);
    }
  }

  /** Two texts that agree up to a separator after the keyword scan to the same keyword. */
  lemma SameKeyword(s: string, t: string, n: nat)
    requires n <= |s| && n <= |t| && s[..n] == t[..n]
    requires SkipSpace(s, 0) < n
    requires n == |s| || IsSeparator(s[n])
    requires n == |t| || IsSeparator(t[n])
    ensures ScanLine(s).Some? == ScanLine(t).Some?
    ensures ScanLine(s).Some? ==> ScanLine(s).value.keyword == ScanLine(t).value.keyword
  {
    hide *;
    var k := SkipSpace(s, 0);
    SkippedSpace(s, 0);
    AgreeUpTo(s, t, n);
    if s[k] == '#' || s[k] == '=' {
      NoKeywordScans(s, k);
      NoKeywordScans(t, k);
    } else {
      KeywordStart(s, k);
      SkippedKeyword(s, k);
      var e := if SkipKeyword(s, k) <= n then SkipKeyword(s, k) else n;
      KeywordScans(s, k, e);
      KeywordScans(t, k, e);
      SliceWithin(s, t, n, k, e);
    }
  }

  lemma AgreeUpTo(s: string, t: string, n: nat)
    requires n <= |s| && n <= |t| && s[..n] == t[..n]
    ensures forall j :: 0 <= j < n ==> s[j] == t[j]
  {
    assert forall j :: 0 <= j < n ==> s[j] == s[..n][j] && t[j] == t[..n][j];
  }

  lemma SliceWithin(s: string, t: string, n: nat, k: nat, e: nat)
    requires n <= |s| && n <= |t| && s[..n] == t[..n] && k <= e <= n
    ensures s[k..e] == t[k..e]
  {
    assert s[k..e] == s[..n][k..e] && t[k..e] == t[..n][k..e];
  }

  lemma KeywordStart(s: string, k: nat)
    requires k < |s| && !IsSpace(s[k]) && s[k] != '='
    ensures k < SkipKeyword(s, k) && !IsSeparator(s[k])
  {}

  lemma JoinedContent(line: string, key: Keyword, v: string, newline: string)
    requires Supported(key) && CleanValue(v) && IsNewline(newline)
    ensures Content(line + RenderDirective(key, v, newline)) == line + ("  " + Canonical(key) + " " + v)
  {
    hide Canonical, Content;
    var s := "  " + Canonical(key) + " " + v;
    var c := line + s;
    assert IsPlain(v[|v| - 1]);
    assert c[|c| - 1] == v[|v| - 1];
    ContentOf(c, newline);
    assert c + newline == line + RenderDirective(key, v, newline);
  }

  /** Joined to a line that is not blank, a rendered directive is not read as one: the line keeps its key. */
  lemma JoinedKeepsKey(line: string, key: Keyword, v: string, newline: string)
    requires LineLike(line) && !Terminated(line) && !Blank(line)
    requires Supported(key) && CleanValue(v) && IsNewline(newline)
    ensures LineKey(line + RenderDirective(key, v, newline)) == LineKey(line)
    ensures IsHeader(line + RenderDirective(key, v, newline)) == IsHeader(line)
  {
    var s := "  " + Canonical(key) + " " + v;
    hide ScanLine, Canonical, RenderDirective, KeywordOf, CleanValue;
    JoinedContent(line, key, v, newline);
    UnterminatedContent(line);
    var n := ContentEnd(line);
    var joined := line + s;
    assert joined[..n] == line[..n] == Content(line);
    assert joined[n] == if n < |line| then line[n] else s[0];
    assert IsSeparator(joined[n]);
    BlankContent(line);
    SameKeyword(Content(line), joined, n);
  }

  lemma UnterminatedContent(line: string)
    requires line != "" && !Terminated(line)
    ensures ContentEnd(line) == |line| || (ContentEnd(line) == |line| - 1 && line[|line| - 1] == '\r')
  {}

  lemma BlankContent(line: string)
    requires line != "" && !Terminated(line) && !Blank(line)
    ensures SkipSpace(Content(line), 0) < |Content(line)|
  {
    UnterminatedContent(line);
    var k := SkipSpace(line, 0);
    SkippedSpace(line, 0);
    assert k < ContentEnd(line);
    hide IsSpace;
    SkipSpaceIs(Content(line), 0, k);
  }

  /** Joined to a blank line it reads as on its own. */
  lemma JoinedToBlank(line: string, key: Keyword, v: string, newline: string)
    requires Blank(line)
    requires Supported(key) && CleanValue(v) && IsNewline(newline)
    ensures LineReading(line + RenderDirective(key, v, newline)) == [Reading(key, v)]
    ensures LineKey(line + RenderDirective(key, v, newline)) == Some(key)
    ensures !IsHeader(line + RenderDirective(key, v, newline))
  {
    BlankIsSpace(line);
    hide *;
    JoinedContent(line, key, v, newline);
    RenderedCut(key, v);
    IndentedScans(line, "  " + Canonical(key) + " " + v, key, v);
    CanonicalReadsBack(key);
    ReadsAs(line + RenderDirective(key, v, newline), key, v);
  }

  lemma BlankIsSpace(line: string)
    requires Blank(line)
    ensures forall j :: 0 <= j < |line| ==> IsSpace(line[j])
  {
    SkippedSpace(line, 0);
  }

  lemma IndentedScans(line: string, s: string, key: Keyword, v: string)
    requires forall j :: 0 <= j < |line| ==> IsSpace(line[j])
    requires Supported(key) && CleanValue(v)
    requires var m := |Canonical(key)|;
      Cut(s, 2, 2 + m, 3 + m, |s|) && s[2..2 + m] == Canonical(key) && s[3 + m..] == v
    ensures var r := ScanLine(line + s);
      r.Some? && r.value.keyword == Canonical(key) && r.value.words == [v]
  {
    hide *;
    var m, n := |Canonical(key)|, |line|;
    BlankBefore(line, s, 2, 2 + m, 3 + m, |s|);
    CutBounds(s, 2, 2 + m, 3 + m, |s|);
    ScanOfCut(line + s, n + 2, n + 2 + m, n + 3 + m, n + |s|);
    SliceShift(line, s, 2, 2 + m);
    SliceShift(line, s, 3 + m, |s|);
    assert s[3 + m..|s|] == s[3 + m..];
    OneWord(v);
  }

  lemma SliceShift(a: string, b: string, i: nat, j: nat)
    requires i <= j <= |b|
    ensures (a + b)[|a| + i..|a| + j] == b[i..j]
  {}

  lemma OneWord(v: string)
    requires CleanValue(v)
    ensures Words(v) == [v]
  {
    WordsOfReplaced(v, "");
    assert v + "" == v;
  }

  lemma ReadsAs(line: string, key: Keyword, v: string)
    requires ScanLine(Content(line)).Some?
    requires KeywordOf(ScanLine(Content(line)).value.keyword) == key && Supported(key)
    requires ScanLine(Content(line)).value.words == [v]
    ensures LineReading(line) == [Reading(key, v)] && LineKey(line) == Some(key) && !IsHeader(line)
  {
    hide ScanLine, KeywordOf;
  }

  lemma BlankBefore(line: string, s: string, k: nat, e: nat, a: nat, t: nat)
    requires forall j :: 0 <= j < |line| ==> IsSpace(line[j])
    requires Cut(s, k, e, a, t)
    ensures Cut(line + s, |line| + k, |line| + e, |line| + a, |line| + t)
  {
    hide IsSpace, IsSeparator;
    var c, n := line + s, |line|;
    assert forall j :: 0 <= j < n ==> c[j] == line[j];
    assert forall j :: n <= j < |c| ==> c[j] == s[j - n];
  }
}
