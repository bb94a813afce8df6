/** The edit theorem: an edit reads back as asked exactly when the block is written plainly
    and leaves room for the lines to add. */
module SshTheorem {
  import opened Common
  import opened SshText
  import opened SshParse
  import opened SshDefinition
  import opened SshPatch
  import opened SshScan
  import opened SshLines
  import opened SshEffect
  import opened SshReadBack
  import opened SshEdited

  // ---- The header ----

  /** The header is written so that a new alias in place of its first word stands alone. */
  predicate PlainHead(head: string) {
    ScanWords(head);
    var d := ScanLine(Content(head));
    d.Some? && d.value.words != [] && Silent(d.value.value[|d.value.words[0]|..]) && Following(d.value) == []
  }

  lemma RenamedHead(head: string, alias: string, newAlias: string)
    requires IsHeader(head) && HeadAlias(head) == alias && alias != ""
    requires newAlias != alias && ValidAlias(newAlias)
    ensures IsHeader(PatchHead(head, alias, newAlias))
    ensures HeadAlias(PatchHead(head, alias, newAlias)) == newAlias <==> PlainHead(head)
  {
    CleanAlias(newAlias);
    hide ScanLine, WithFirstWord, KeywordOf, Extension, Silent, Following, ValidAlias, CleanValue, ConcreteAlias, Content;
    EditedLineScans(head, newAlias);
    ScanWords(head);
    var d := ScanLine(Content(head)).value;
    NothingLeftIff(d.value[|d.words[0]|..]);
    SameLength(newAlias, Leftover(d));
  }

  lemma SameLength(a: string, b: string)
    ensures a + b == a <==> b == ""
  {
    if a + b == a {
      assert |b| == 0;
    }
  }

  // ---- The condition ----

  /** What the editor needs of a block. A caller can check it before the edit. */
  ghost predicate CanEdit(b: RawBlock, alias: string, edit: Edit) {
    && Ready(b, edit)
    && (NewAlias(alias, edit) != alias ==> PlainHead(b.head))
    && forall key :: key in Desired(edit) ==> PlainKey(b.body, key)
  }

  /** The edited block e of b reads as the edit asks: its alias, exactly one value for every wanted key,
      and the wanted identity files in place of the managed ones. */
  ghost predicate ReadsAsAsked(e: RawBlock, b: RawBlock, alias: string, edit: Edit)
    requires IsHeader(e.head)
  {
    && HeadAlias(e.head) == NewAlias(alias, edit)
    && (forall key :: key in Desired(edit) ==> Values(Readings(e.body), key) == [Desired(edit)[key]])
    && (edit.identityFileNames.Some? ==>
          Values(Readings(e.body), IdentityFile)
          == AskedIdentities(Values(Readings(b.body), IdentityFile), IdentityValues(edit.identityFileNames.value)))
  }

  /** A block, the edit of it, and the order in which missing keys are added. */
  ghost predicate Editing(b: RawBlock, alias: string, edit: Edit, order: seq<Keyword>, newline: string) {
    && IsHeader(b.head) && HeadAlias(b.head) == alias && alias != ""
    && Proper(BlockLines(b)) && NoHeader(b.body) && !Ambiguous(b.body)
    && ValidAlias(NewAlias(alias, edit)) && CleanEdit(edit) && IsNewline(newline)
    && Addition(b, edit, order)
  }

  lemma ReadyReadsAsAsked(b: RawBlock, alias: string, edit: Edit, order: seq<Keyword>, newline: string)
    requires Editing(b, alias, edit, order, newline) && Ready(b, edit)
    ensures IsHeader(EditedBlock(b, alias, edit, order, newline).head)
    ensures ReadsAsAsked(EditedBlock(b, alias, edit, order, newline), b, alias, edit) <==> CanEdit(b, alias, edit)
    ensures forall key :: key !in Desired(edit) && !(key == IdentityFile && edit.identityFileNames.Some?) ==>
      Values(Readings(EditedBlock(b, alias, edit, order, newline).body), key) == Values(Readings(b.body), key)
  {
    hide IsHeader, HeadAlias, PatchHead, EditedReadings, MoreLines, Proper, CleanEdit, ValidAlias, Desired, Addition, Ambiguous, Ready,
         EditedBlock, PlainKey, PlainHead, Values, AskedIdentities, IdentityValues, NoHeader, IsNewline, Readings;
    EditedBlockIsBlock(b, alias, edit, order, newline);
    EditedBlockReads(b, alias, edit, order, newline);
    EditedValues(b, edit, order, newline, Readings(EditedBlock(b, alias, edit, order, newline).body));
    if NewAlias(alias, edit) != alias {
      RenamedHead(b.head, alias, NewAlias(alias, edit));
    } else {
      SameHead(b.head, alias);
    }
  }

  lemma SameHead(head: string, alias: string)
    requires IsHeader(head) && HeadAlias(head) == alias && alias != ""
    ensures PatchHead(head, alias, alias) == head
  {}

  // ---- Lines added to a block that has no room for them ----

  /** Blanks and then a character that begins a word. */
  ghost predicate Gap(w: string, p: nat) {
    0 < p < |w| && (forall j :: 0 <= j < p ==> IsSpace(w[j])) && IsPlain(w[p]) && w[p] != '#' && w[p] != '='
  }

  ghost predicate Spaces(w: string, p: nat) {
    Gap(w, p) && w[p] == 'I'
  }

  predicate SpaceOrI(words: seq<string>) {
    words == [] || (words[0] != "" && (IsSpace(words[0][0]) || words[0][0] == 'I'))
  }

  lemma FirstOfWord(s: string, q: char, esc: bool, c: char)
    ensures WordsFrom(s, q, esc, [c]) != [] && WordsFrom(s, q, esc, [c])[0] != "" && WordsFrom(s, q, esc, [c])[0][0] == c
  {
    WordSplits(s, q, esc, [c]);
  }

  lemma {:induction false} GluedToNothing(w: string, p: nat, q: char, esc: bool)
    requires Spaces(w, p) && (q == NO_QUOTE || IsQuote(q))
    ensures SpaceOrI(WordsFrom(w, q, esc, ""))
    decreases p
  {
    assert IsSpace(w[0]) && !IsQuote(w[0]) && w[0] != '\\';
    var rest := w[1..];
    if esc || q != NO_QUOTE {
      assert "" + [w[0]] == [w[0]];
      FirstOfWord(rest, q, false, w[0]);
    } else if p == 1 {
      assert rest[0] == 'I' && "" + ['I'] == ['I'];
      FirstOfWord(rest[1..], NO_QUOTE, false, 'I');
    } else {
      assert Spaces(rest, p - 1);
      GluedToNothing(rest, p - 1, NO_QUOTE, false);
    }
  }

  /** A text without words, glued to blanks and a word that starts with I, starts a word with a blank or that I. */
  lemma {:induction false} Glued(s: string, w: string, p: nat, q: char, esc: bool)
    requires WordsFrom(s, q, esc, "") == [] && Spaces(w, p) && (q == NO_QUOTE || IsQuote(q))
    ensures SpaceOrI(WordsFrom(s + w, q, esc, ""))
    decreases |s|
  {
    if s == "" {
      assert s + w == w;
      GluedToNothing(w, p, q, esc);
    } else {
      var c, rest := s[0], s[1..];
      assert (s + w)[0] == c && (s + w)[1..] == rest + w;
      FirstOfWord(rest, q, false, c);
      assert "" + [c] == [c];
      if !esc && c == '\\' && q != '\'' {
        Glued(rest, w, p, q, true);
      } else if !esc && q != NO_QUOTE && c == q {
        Glued(rest, w, p, NO_QUOTE, false);
      } else if !esc && q == NO_QUOTE && IsQuote(c) {
        Glued(rest, w, p, c, false);
      } else if !esc && q == NO_QUOTE && IsSpace(c) {
        Glued(rest, w, p, NO_QUOTE, false);
      }
    }
  }

  lemma NotTheName(words: seq<string>, name: string)
    requires SpaceOrI(words) && words != []
    ensures words[0] != KEY_DIR + name
  {
    assert (KEY_DIR + name)[0] == '~';
  }

  /** What a cut line becomes when blanks and a word are glued to it. */
  lemma GluedCut(c: string, g: string, p: nat, k: nat, e: nat, a: nat, t: nat)
    requires Cut(c, k, e, a, t) && Gap(g, p) && !IsSpace(g[|g| - 1])
    ensures a == |c| ==> Cut(c + g, k, e, |c| + p, |c + g|) && (c + g)[|c| + p] == g[p]
    ensures a < |c| ==> Cut(c + g, k, e, a, |c + g|)
  {
    var m := c + g;
    assert forall j :: 0 <= j < |c| ==> m[j] == c[j];
    assert forall j :: |c| <= j < |m| ==> m[j] == g[j - |c|];
    assert forall j :: 0 <= j < p ==> IsSeparator(g[j]);
    assert !IsSeparator(g[p]);
    hide IsSpace, IsSeparator, IsPlain;
  }

  lemma GluedRest(c: string, g: string, p: nat, k: nat, e: nat, a: nat, t: nat)
    requires Cut(c, k, e, a, t) && Gap(g, p)
    ensures (c + g)[a..] == c[a..t] + (c[t..] + g)
    ensures Gap(c[t..] + g, |c| - t + p) && (c[t..] + g)[|c| - t + p] == g[p]
  {
    hide IsSpace, IsSeparator, IsPlain;
    var w := c[t..] + g;
    assert forall j :: 0 <= j < |c| - t ==> w[j] == c[t + j];
    assert forall j :: |c| - t <= j < |w| ==> w[j] == g[j - (|c| - t)];
  }

  /** An unterminated line with a rendered directive: content, a gap, and the directive. */
  lemma GluedParts(line: string, key: Keyword, v: string) returns (g: string, p: nat)
    requires line != "" && !Terminated(line) && Supported(key) && CleanValue(v)
    ensures line + ("  " + Canonical(key) + " " + v) == Content(line) + g
    ensures Gap(g, p) && g[p] == Canonical(key)[0] && !IsSpace(g[|g| - 1])
  {
    CanonicalStart(key);
    assert IsPlain(v[|v| - 1]);
    hide Canonical, Content, IsSpace, Terminated, IsPlain, Gap;
    var s := "  " + Canonical(key) + " " + v;
    assert s[0] == s[1] == ' ' && s[2] == Canonical(key)[0] && s[|s| - 1] == v[|v| - 1];
    PlainIsNoSpace(v[|v| - 1]);
    g, p := GapAfter(line, s);
  }

  lemma PlainIsNoSpace(c: char)
    requires IsPlain(c)
    ensures !IsSpace(c)
  {}

  lemma GapAfter(line: string, s: string) returns (g: string, p: nat)
    requires line != "" && !Terminated(line) && |s| > 2 && s[0] == s[1] == ' ' && IsPlain(s[2]) && s[2] != '#' && s[2] != '='
    ensures line + s == Content(line) + g && Gap(g, p) && g[p] == s[2] && g[|g| - 1] == s[|s| - 1]
  {
    UnterminatedContent(line);
    var n := ContentEnd(line);
    hide IsPlain;
    g, p := line[n..] + s, |line| - n + 2;
    assert forall j :: |line| - n <= j < |g| ==> g[j] == s[j - (|line| - n)];
    assert n < |line| ==> g[0] == '\r';
  }

  lemma CanonicalStart(key: Keyword)
    requires Supported(key)
    ensures Canonical(key) != "" && var c := Canonical(key)[0]; IsPlain(c) && c != '#' && c != '='
  {}

  lemma WordsOfI(value: string)
    requires value != "" && value[0] == 'I'
    ensures SpaceOrI(Words(value))
  {
    FirstOfWord(value[1..], NO_QUOTE, false, 'I');
    assert "" + ['I'] == ['I'];
  }

  lemma WordsGlued(value: string, w: string, p: nat)
    requires Words(value) == [] && Spaces(w, p)
    ensures SpaceOrI(Words(value + w))
  {
    Glued(value, w, p, NO_QUOTE, false);
  }

  /** Glued to an IdentityFile line without words, an identity line is not read as written. */
  lemma GluedIdentity(line: string, name: string, newline: string)
    requires LineLike(line) && !Terminated(line) && LineKey(line) == Some(IdentityFile) && LineReading(line) == []
    requires AllPlain(name) && IsNewline(newline)
    ensures LineReading(line + RenderDirective(IdentityFile, KEY_DIR + name, newline)) != [Reading(IdentityFile, KEY_DIR + name)]
  {
    hide *;
    var v := KEY_DIR + name;
    CleanIdentity(name);
    SupportedIdentity();
    NonemptyLine(line);
    JoinedContent(line, IdentityFile, v, newline);
    HasDirective(line);
    var k, e, t := CutOfScan(Content(line));
    CanonicalIdentity();
    var g, p := GluedParts(line, IdentityFile, v);
    GapBeforeI(g, p);
    GluedWords(Content(line), g, p, k, e, t);
    NotTheReading(line + RenderDirective(IdentityFile, v, newline), Content(line) + g, name);
  }

  lemma NonemptyLine(line: string)
    requires LineLike(line)
    ensures line != ""
  {}

  lemma SupportedIdentity()
    ensures Supported(IdentityFile)
  {}

  lemma NotTheReading(line: string, content: string, name: string)
    requires Content(line) == content && ScanLine(content).Some? && SpaceOrI(ScanLine(content).value.words)
    ensures LineReading(line) != [Reading(IdentityFile, KEY_DIR + name)]
  {
    hide ScanLine, Content, SpaceOrI;
    ReadingOf(line, content);
    if ScanLine(content).value.words != [] {
      NotTheName(ScanLine(content).value.words, name);
    }
  }

  lemma CanonicalIdentity()
    ensures Canonical(IdentityFile) == "IdentityFile"
  {}

  lemma HasDirective(line: string)
    requires LineKey(line) == Some(IdentityFile) && LineReading(line) == []
    ensures ScanLine(Content(line)).Some? && ScanLine(Content(line)).value.words == []
  {
    hide ScanLine, KeywordOf;
  }

  lemma GluedToGap(c: string, g: string, p: nat, k: nat, e: nat, t: nat)
    requires Cut(c, k, e, |c|, t) && Spaces(g, p) && !IsSpace(g[|g| - 1])
    ensures ScanLine(c + g).Some? && SpaceOrI(ScanLine(c + g).value.words)
  {
    hide *;
    var m := c + g;
    GapBound(g, p);
    GluedCut(c, g, p, k, e, |c|, t);
    CutBounds(m, k, e, |c| + p, |m|);
    ScanOfCut(m, k, e, |c| + p, |m|);
    assert m[|c| + p..|m|][0] == 'I';
    WordsOfI(m[|c| + p..|m|]);
  }

  lemma GluedToValue(c: string, g: string, p: nat, k: nat, e: nat, a: nat, t: nat)
    requires Cut(c, k, e, a, t) && a < |c| && Words(c[a..t]) == [] && Spaces(g, p) && !IsSpace(g[|g| - 1])
    ensures ScanLine(c + g).Some? && SpaceOrI(ScanLine(c + g).value.words)
  {
    hide *;
    var m := c + g;
    CutBounds(c, k, e, a, t);
    GapBound(g, p);
    GluedCut(c, g, p, k, e, a, t);
    GluedRest(c, g, p, k, e, a, t);
    GapBeforeI(c[t..] + g, |c| - t + p);
    CutBounds(m, k, e, a, |m|);
    ScanOfCut(m, k, e, a, |m|);
    assert m[a..|m|] == m[a..];
    WordsGlued(c[a..t], c[t..] + g, |c| - t + p);
  }

  lemma GluedWords(c: string, g: string, p: nat, k: nat, e: nat, t: nat)
    requires ScanLine(c).Some? && ScanLine(c).value.words == []
    requires var d := ScanLine(c).value; Cut(c, k, e, d.at, t) && d.value == c[d.at..t] && d.words == Words(d.value)
    requires Spaces(g, p) && !IsSpace(g[|g| - 1])
    ensures ScanLine(c + g).Some? && SpaceOrI(ScanLine(c + g).value.words)
  {
    hide *;
    var a := ScanLine(c).value.at;
    CutBounds(c, k, e, a, t);
    if a == |c| {
      GluedToGap(c, g, p, k, e, t);
    } else {
      GluedToValue(c, g, p, k, e, a, t);
    }
  }

  lemma GapBound(g: string, p: nat)
    requires Spaces(g, p)
    ensures p < |g| && Gap(g, p) && g[p] == 'I'
  {}

  lemma GapBeforeI(w: string, p: nat)
    requires Gap(w, p) && w[p] == 'I'
    ensures Spaces(w, p)
  {}

  lemma ReadingOf(line: string, content: string)
    requires Content(line) == content && ScanLine(content).Some?
    ensures LineReading(line) != [] ==> ScanLine(content).value.words != [] && LineReading(line)[0].value == ScanLine(content).value.words[0]
  {
    hide ScanLine, Content;
  }

  lemma {:induction false} EditedMentions(lines: seq<string>, desired: map<Keyword, string>, ids: Option<seq<string>>, inserted: bool, newline: string, key: Keyword)
    requires IsNewline(newline) && IdentityFile !in desired && key != IdentityFile
    requires forall k :: k in desired ==> CleanValue(desired[k])
    requires ids.Some? ==> CleanNames(ids.value)
    requires !Mentions(lines, key)
    ensures !Mentions(EditedBody(lines, desired, ids, inserted, newline), key)
  {
    hide PatchLines, IsManagedLine, CleanValue, CleanNames, LineKey;
    if lines != [] {
      var line, rest := lines[0], lines[1..];
      assert forall i :: 0 <= i < |rest| ==> rest[i] == lines[i + 1];
      assert LineKey(line) != Some(key);
      PatchedKeys(line, desired, ids, inserted, newline, key);
      EditedMentions(rest, desired, ids, inserted || (ids.Some? && IsManagedLine(line)), newline, key);
    }
  }

  lemma {:induction false} IdentityLinesKeys(names: seq<string>, newline: string, key: Keyword)
    requires CleanNames(names) && IsNewline(newline) && key != IdentityFile
    ensures !Mentions(IdentityLines(names, newline), key)
  {
    hide RenderDirective, CleanValue, AllPlain, LineKey, IsHeader;
    if names != [] {
      CleanIdentity(names[0]);
      RenderedIsNoHeader(IdentityFile, KEY_DIR + names[0], newline);
      IdentityLinesKeys(names[1..], newline, key);
    }
  }

  lemma PatchedKeys(line: string, desired: map<Keyword, string>, ids: Option<seq<string>>, inserted: bool, newline: string, key: Keyword)
    requires IsNewline(newline) && IdentityFile !in desired && key != IdentityFile
    requires forall k :: k in desired ==> CleanValue(desired[k])
    requires ids.Some? ==> CleanNames(ids.value)
    requires LineKey(line) != Some(key)
    ensures !Mentions(PatchLines(line, desired, ids, inserted, newline), key)
  {
    hide PatchLine, ScanLine, IsManagedLine, CleanValue, KeywordOf, WithFirstWord, IdentityLines, IsHeader, LineKey, LineReading, Ending;
    if IsManagedLine(line) && ids.Some? {
      IdentityLinesKeys(ids.value, newline, key);
      EndingIsBlank(line);
    } else {
      OtherPatch(line, desired, ids, inserted, newline);
      if EditsLine(line, desired) {
        EditedKeepsKey(line, desired[Key(ScanLine(Content(line)).value)]);
      }
    }
  }

  lemma LastSplits(lines: seq<string>, key: Keyword)
    requires lines != []
    ensures var n := |lines| - 1;
      Values(Readings(lines), key) == Values(Readings(lines[..n]), key) + Values(LineReading(lines[n]), key)
  {
    hide LineReading, Values;
    var n := |lines| - 1;
    assert lines == lines[..n] + [lines[n]];
    ReadingsAppend(lines[..n], [lines[n]]);
    OneLineReads(lines[n]);
    ValuesAppend(Readings(lines[..n]), LineReading(lines[n]), key);
  }

  lemma FirstSplits(lines: seq<string>, key: Keyword)
    requires lines != []
    ensures Values(Readings(lines), key) == Values(LineReading(lines[0]), key) + Values(Readings(lines[1..]), key)
  {
    hide LineReading, Values;
    ValuesAppend(LineReading(lines[0]), Readings(lines[1..]), key);
  }

  /** The values of a body whose last line has been glued to the first added line. */
  lemma GluedValues(body: seq<string>, more: seq<string>, key: Keyword)
    requires body != [] && more != []
    ensures var n := |body| - 1;
      Values(Readings(body[..n] + [body[n] + more[0]] + more[1..]), key)
      == Values(Readings(body[..n]), key) + Values(LineReading(body[n] + more[0]), key) + Values(Readings(more[1..]), key)
  {
    hide LineReading, Values;
    var n := |body| - 1;
    ReadingsThree(body[..n], [body[n] + more[0]], more[1..]);
    OneLineReads(body[n] + more[0]);
    ValuesAppend(Readings(body[..n]) + LineReading(body[n] + more[0]), Readings(more[1..]), key);
    ValuesAppend(Readings(body[..n]), LineReading(body[n] + more[0]), key);
  }

  /** The body of an edited block that had no room: its last line and the first added one are one line. */
  lemma GluedBody(b: RawBlock, alias: string, edit: Edit, order: seq<Keyword>, newline: string)
    requires Editing(b, alias, edit, order, newline) && !Ready(b, edit)
    ensures var body, more := EditedBody(b.body, Desired(edit), edit.identityFileNames, false, newline), MoreLines(b, edit, order, newline);
      && more != [] && AllRendered(more, newline)
      && EditedBlock(b, alias, edit, order, newline).body
         == (if body == [] then more[1..] else body[..|body| - 1] + [body[|body| - 1] + more[0]] + more[1..])
      && (body != [] ==> var last := body[|body| - 1]; LineLike(last) && !Terminated(last) && !Blank(last))
  {
    hide IsHeader, HeadAlias, PatchHead, EditedBody, MoreLines, Desired, CleanEdit, ValidAlias, NeedsMore, InsertionReady, IsNewline, Addition,
         AllRendered, LineLike, Terminated, Blank, NoHeader;
    var body, more := EditedBody(b.body, Desired(edit), edit.identityFileNames, false, newline), MoreLines(b, edit, order, newline);
    var lines := EditedLines(b, alias, edit, newline);
    EditedLinesAreProper(b, alias, edit, newline);
    MoreLinesRendered(b, edit, order, newline);
    MoreNeeded(b, edit, order, newline);
    EditedLinesFollow(b, alias, edit, newline);
    var n := |lines| - 1;
    assert !Terminated(lines[n]) && !Blank(lines[n]);
    assert lines[1..] == body;
    if body != [] {
      assert lines[n] == body[n - 1];
      assert lines[..n][1..] == body[..n - 1];
    }
  }

  function Glue(body: seq<string>, more: seq<string>): seq<string>
    requires more != []
  {
    if body == [] then more[1..] else body[..|body| - 1] + [body[|body| - 1] + more[0]] + more[1..]
  }

  /** A key that only the first added line has is lost when that line is glued to another. */
  lemma LostInGlue(body: seq<string>, more: seq<string>, key: Keyword, newline: string)
    requires more != [] && IsRendered(more[0], newline) && IsNewline(newline)
    requires |Values(Readings(more), key)| == 1 && |Values(LineReading(more[0]), key)| == 1
    requires Values(Readings(body), key) == [] && !Mentions(body, key)
    requires body != [] ==> var last := body[|body| - 1]; LineLike(last) && !Terminated(last) && !Blank(last)
    ensures Values(Readings(Glue(body, more)), key) == []
  {
    hide LineLike, Terminated, Blank, Values, Readings, LineReading, Mentions, IsRendered;
    FirstSplits(more, key);
    RestIsEmpty(Values(LineReading(more[0]), key), Values(Readings(more[1..]), key));
    if body != [] {
      LastSplits(body, key);
      GluedValues(body, more, key);
      NotInLast(body, key);
      GluedKey(body[|body| - 1], more[0], newline, key);
    }
  }

  lemma LostKey(b: RawBlock, alias: string, edit: Edit, order: seq<Keyword>, newline: string)
    requires Editing(b, alias, edit, order, newline) && !Ready(b, edit) && order != []
    ensures order[0] in Desired(edit)
    ensures Values(Readings(EditedBlock(b, alias, edit, order, newline).body), order[0]) == []
  {
    hide IsHeader, HeadAlias, PatchHead, EditedBody, MoreLines, Desired, CleanEdit, ValidAlias, NeedsMore, InsertionReady, Addition,
         LineLike, Terminated, Blank, NoHeader, Values, Readings, EditedBlock, Ambiguous, Proper, Mentions;
    var key, ids := order[0], edit.identityFileNames;
    var body, more := EditedBody(b.body, Desired(edit), ids, false, newline), MoreLines(b, edit, order, newline);
    DesiredKeys(edit);
    MoreStartsWithKey(b, edit, order, newline);
    OrderIsMissing(b, edit, order, key);
    OccursIfMentioned(b.body, key);
    GluedBody(b, alias, edit, order, newline);
    MoreValues(b, edit, order, newline, key);
    CleanParts(edit);
    hide *;
    EditedBodyReads(b.body, Desired(edit), ids, false, newline);
    UnmentionedValues(b.body, Desired(edit), ids, false, key);
    EditedMentions(b.body, Desired(edit), ids, false, newline, key);
    LostInGlue(body, more, key, newline);
    GlueIs(body, more);
  }

  lemma GlueIs(body: seq<string>, more: seq<string>)
    requires more != []
    ensures Glue(body, more) == if body == [] then more[1..] else body[..|body| - 1] + [body[|body| - 1] + more[0]] + more[1..]
  {}

  lemma CleanParts(edit: Edit)
    requires CleanEdit(edit)
    ensures forall key :: key in Desired(edit) ==> CleanValue(Desired(edit)[key])
    ensures edit.identityFileNames.Some? ==> CleanNames(edit.identityFileNames.value)
  {}

  lemma RestIsEmpty(a: seq<string>, b: seq<string>)
    ensures |a + b| == 1 && |a| == 1 ==> b == []
  {}

  lemma NotInLast(body: seq<string>, key: Keyword)
    requires body != [] && !Mentions(body, key)
    ensures LineKey(body[|body| - 1]) != Some(key)
  {
    hide LineKey;
  }

  lemma GluedKey(line: string, added: string, newline: string, key: Keyword)
    requires LineLike(line) && !Terminated(line) && !Blank(line)
    requires IsRendered(added, newline) && IsNewline(newline)
    ensures LineKey(line) != Some(key) ==> Values(LineReading(line + added), key) == []
    ensures LineKey(line + added) == LineKey(line)
  {
    hide RenderDirective, Terminated, Blank, LineKey, LineReading, CleanValue, IsHeader, EditedReading;
    var k, v :| Supported(k) && CleanValue(v) && added == RenderDirective(k, v, newline);
    JoinedKeepsKey(line, k, v, newline);
    ReadingKey(line + added, map[]);
    OneValue(LineReading(line + added), key);
  }

  lemma MoreStartsWithKey(b: RawBlock, edit: Edit, order: seq<Keyword>, newline: string)
    requires Addition(b, edit, order) && CleanEdit(edit) && IsNewline(newline) && order != []
    ensures order[0] in Desired(edit) && Supported(order[0])
    ensures MoreLines(b, edit, order, newline) != []
    ensures Values(LineReading(MoreLines(b, edit, order, newline)[0]), order[0]) == [Desired(edit)[order[0]]]
    ensures IsRendered(MoreLines(b, edit, order, newline)[0], newline)
  {
    AdditionIsDesired(b, edit, order);
    hide RenderDirective, Desired, HasManaged, LineReading, CleanValue, Addition;
    RenderedScans(order[0], Desired(edit)[order[0]], newline);
    OneValue([Reading(order[0], Desired(edit)[order[0]])], order[0]);
  }

  lemma {:induction false} IdentityValuesLength(names: seq<string>)
    ensures |IdentityValues(names)| == |names|
    ensures names != [] ==> IdentityValues(names) == [KEY_DIR + names[0]] + IdentityValues(names[1..])
  {
    if names != [] {
      IdentityValuesLength(names[1..]);
    }
  }

  lemma CancelLeft<T>(a: seq<T>, b: seq<T>, c: seq<T>)
    ensures a + b == a + c ==> b == c
  {
    if a + b == a + c {
      assert (a + b)[|a|..] == b && (a + c)[|a|..] == c;
    }
  }

  lemma CancelRight<T>(a: seq<T>, b: seq<T>, c: seq<T>)
    ensures a + c == b + c ==> a == b
  {
    if a + c == b + c {
      assert |a| == |b|;
      assert (a + c)[..|a|] == a && (b + c)[..|b|] == b;
    }
  }

  /** Identity lines glued to a block do not all read as written. */
  lemma LostInIdentityGlue(body: seq<string>, names: seq<string>, newline: string)
    requires names != [] && CleanNames(names) && IsNewline(newline)
    requires body != [] ==> var last := body[|body| - 1]; LineLike(last) && !Terminated(last) && !Blank(last)
    ensures Values(Readings(Glue(body, IdentityLines(names, newline))), IdentityFile)
         != Values(Readings(body), IdentityFile) + IdentityValues(names)
  {
    hide LineLike, Terminated, Blank, Values, Readings, LineReading, IdentityReadings, IdentityValues, RenderDirective, LineKey, IsRendered;
    var more := IdentityLines(names, newline);
    IdentityValuesLength(names);
    IdentityValuesLength(names[1..]);
    assert CleanNames(names[1..]);
    IdentityLinesRead(names[1..], newline);
    IdentityValuesAre(names[1..]);
    var later := IdentityValues(names[1..]);
    if body == [] {
      GlueIs(body, more);
      NoValuesOfNothing();
    } else {
      var n := |body| - 1;
      LastSplits(body, IdentityFile);
      GluedValues(body, more, IdentityFile);
      var first := Values(Readings(body[..n]), IdentityFile);
      var was, now := Values(LineReading(body[n]), IdentityFile), Values(LineReading(body[n] + more[0]), IdentityFile);
      if first + now + later == first + was + IdentityValues(names) {
        AssociateMiddle(first, was, [KEY_DIR + names[0]], later);
        CancelRight(first + now, first + (was + [KEY_DIR + names[0]]), later);
        CancelLeft(first, now, was + [KEY_DIR + names[0]]);
        GluedLineValue(body[n], names[0], newline, was, now);
      }
    }
  }

  lemma NoValuesOfNothing()
    ensures Values(Readings([]), IdentityFile) == []
  {}

  lemma IdentityValuesAre(names: seq<string>)
    ensures Values(IdentityReadings(names), IdentityFile) == IdentityValues(names)
  {}

  lemma GluedLineValue(line: string, name: string, newline: string, was: seq<string>, now: seq<string>)
    requires LineLike(line) && !Terminated(line) && !Blank(line) && AllPlain(name) && IsNewline(newline)
    requires was == Values(LineReading(line), IdentityFile)
    requires now == Values(LineReading(line + RenderDirective(IdentityFile, KEY_DIR + name, newline)), IdentityFile)
    ensures now != was + [KEY_DIR + name]
  {
    hide LineLike, Terminated, Blank, LineReading, RenderDirective, LineKey, Values, CleanValue, EditedReading, IsHeader;
    var v := KEY_DIR + name;
    var glued := line + RenderDirective(IdentityFile, v, newline);
    CleanIdentity(name);
    JoinedKeepsKey(line, IdentityFile, v, newline);
    ReadingKey(line, map[]);
    ReadingKey(glued, map[]);
    OneValue(LineReading(line), IdentityFile);
    OneValue(LineReading(glued), IdentityFile);
    assert was == [] ==> was + [v] == [v];
    assert now == [v] ==> LineReading(glued) == [Reading(IdentityFile, v)];
    if LineKey(line) == Some(IdentityFile) && LineReading(line) == [] {
      GluedIdentity(line, name, newline);
    }
  }

  lemma LostIdentity(b: RawBlock, alias: string, edit: Edit, newline: string)
    requires Editing(b, alias, edit, [], newline) && !Ready(b, edit)
    ensures edit.identityFileNames.Some?
    ensures Values(Readings(EditedBlock(b, alias, edit, [], newline).body), IdentityFile)
         != AskedIdentities(Values(Readings(b.body), IdentityFile), IdentityValues(edit.identityFileNames.value))
  {
    var desired, ids := Desired(edit), edit.identityFileNames;
    var body, more := EditedBody(b.body, desired, ids, false, newline), MoreLines(b, edit, [], newline);
    NothingMissing(b, edit);
    DesiredKeys(edit);
    CleanParts(edit);
    GluedBody(b, alias, edit, [], newline);
    OnlyIdentities(b, edit, newline);
    var values := Values(Readings(b.body), IdentityFile);
    hide *;
    EditedBodyReads(b.body, desired, ids, false, newline);
    EditedIdentityValues(b.body, desired, ids, false);
    ManagedValues(b.body);
    NothingReplaced(values, IdentityValues(ids.value), false);
    Unasked(values, IdentityValues(ids.value));
    GlueIs(body, more);
    LostInIdentityGlue(body, ids.value, newline);
  }

  lemma Unasked(values: seq<string>, wanted: seq<string>)
    requires !AnyManaged(values)
    ensures AskedIdentities(values, wanted) == values + wanted
  {}

  lemma NothingMissing(b: RawBlock, edit: Edit)
    requires Addition(b, edit, []) && NeedsMore(b, edit)
    ensures edit.identityFileNames.Some? && edit.identityFileNames.value != [] && !HasManaged(b.body)
  {
    hide HasManaged, Desired;
    var missing := MissingKeys(b.body, Desired(edit));
    assert forall key :: key in missing <==> key in [];
    assert missing == {};
  }

  lemma OnlyIdentities(b: RawBlock, edit: Edit, newline: string)
    requires Addition(b, edit, []) && edit.identityFileNames.Some? && !HasManaged(b.body)
    ensures MoreLines(b, edit, [], newline) == IdentityLines(edit.identityFileNames.value, newline)
  {
    hide HasManaged, IdentityLines, Desired;
  }

  // ---- The theorem ----

  /** An edited block reads as asked exactly when the block can be edited. */
  lemma EditedReadsAsAsked(b: RawBlock, alias: string, edit: Edit, order: seq<Keyword>, newline: string)
    requires Editing(b, alias, edit, order, newline)
    ensures IsHeader(EditedBlock(b, alias, edit, order, newline).head)
    ensures ReadsAsAsked(EditedBlock(b, alias, edit, order, newline), b, alias, edit) <==> CanEdit(b, alias, edit)
  {
    EditedBlockIsBlock(b, alias, edit, order, newline);
    if Ready(b, edit) {
      ReadyReadsAsAsked(b, alias, edit, order, newline);
    } else {
      hide IsHeader, HeadAlias, EditedBlock, CleanEdit, ValidAlias, Desired, Addition, Ambiguous, Values, Readings, AskedIdentities, IdentityValues, NeedsMore, InsertionReady;
      if order != [] {
        LostKey(b, alias, edit, order, newline);
      } else {
        LostIdentity(b, alias, edit, newline);
      }
    }
  }

  lemma TargetIsEditing(data: string, alias: string, edit: Edit, order: seq<Keyword>)
    requires alias != "" && PatchOutcome(data, alias, edit).Success? && CleanEdit(edit)
    requires Addition(Blocks(data)[PatchOutcome(data, alias, edit).value], edit, order)
    ensures Editing(Blocks(data)[PatchOutcome(data, alias, edit).value], alias, edit, order, NewlineOf(data))
  {
    hide IsHeader, HeadAlias, Blocks, CleanEdit, ValidAlias, Desired, Addition, Ambiguous, Proper, Target, NoHeader;
    var k := PatchOutcome(data, alias, edit).value;
    BlockIsProper(data, k);
    NewlineForms(data);
  }

  /** After a successful edit the file, parsed again, has the alias, the values and the identity files the edit asks for
      if and only if the block is written plainly where it is edited and ends a line where lines are added. */
  lemma EditReadsBack(data: string, alias: string, edit: Edit, order: seq<Keyword>)
    requires alias != "" && PatchOutcome(data, alias, edit).Success? && CleanEdit(edit)
    requires Addition(Blocks(data)[PatchOutcome(data, alias, edit).value], edit, order)
    ensures var k := PatchOutcome(data, alias, edit).value;
      && |Blocks(Patched(data, alias, edit, order))| == |Blocks(data)|
      && (ReadsAsAsked(Blocks(Patched(data, alias, edit, order))[k], Blocks(data)[k], alias, edit)
          <==> CanEdit(Blocks(data)[k], alias, edit))
  {
    hide IsHeader, HeadAlias, Blocks, CleanEdit, Addition, Patched, PatchOutcome, ReadsAsAsked, CanEdit, EditedBlock, Editing;
    BlocksAfterEdit(data, alias, edit, order);
    TargetIsEditing(data, alias, edit, order);
    EditedReadsAsAsked(Blocks(data)[PatchOutcome(data, alias, edit).value], alias, edit, order, NewlineOf(data));
  }
}
