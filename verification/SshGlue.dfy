/** What an edit does to the keys it does not name, also where the added lines have no room and the first is glued to
    the last line of the block. */
module SshGlue {
  import opened Common
  import opened SshText
  import opened SshParse
  import opened SshDefinition
  import opened SshPatch
  import opened SshScan
  import opened SshLines
  import opened SshEffect
  import opened SshReadBack
  import opened SshEdited
  import opened SshTheorem

  // ---- The first word of a text that goes on ----

  /** Nothing after the text can change its first word: the word is over, or complete up to a blank, or a comment has begun. */
  predicate Settled(s: string, q: char, esc: bool, begun: bool) {
    if s == "" then q == NO_QUOTE && !esc && begun
    else
      var c, rest := s[0], s[1..];
      if esc then Settled(rest, q, false, true)
      else if c == '\\' && q != '\'' then Settled(rest, q, true, begun)
      else if q != NO_QUOTE then
        if c == q then Settled(rest, NO_QUOTE, false, begun) else Settled(rest, q, false, true)
      else if IsQuote(c) then Settled(rest, c, false, begun)
      else if IsSpace(c) then begun || Settled(rest, NO_QUOTE, false, false)
      else (c == '#' && !begun) || Settled(rest, NO_QUOTE, false, true)
  }

  function FirstOf(words: seq<string>): seq<string> {
    if words == [] then [] else [words[0]]
  }

  /** Blanks and a word after an unfinished word lengthen it; after no word they begin one. */
  lemma {:induction false} GapReads(w: string, p: nat, q: char, esc: bool, cur: string)
    requires Gap(w, p) && (q == NO_QUOTE || IsQuote(q))
    ensures FirstOf(WordsFrom(w, q, esc, cur)) == FirstOf(Finish(cur)) <==> q == NO_QUOTE && !esc && cur != ""
    decreases p
  {
    var c, rest := w[0], w[1..];
    assert IsSpace(c) && !IsQuote(c) && c != '\\';
    if esc || q != NO_QUOTE {
      WordSplits(rest, q, false, cur + [c]);
    } else if cur == "" {
      if p == 1 {
        assert rest[0] == w[1];
        WordSplits(rest[1..], NO_QUOTE, false, cur + [rest[0]]);
      } else {
        assert Gap(rest, p - 1);
        GapReads(rest, p - 1, NO_QUOTE, false, "");
      }
    }
  }

  lemma {:induction false} SettledIff(s: string, w: string, p: nat, q: char, esc: bool, cur: string)
    requires Gap(w, p) && (q == NO_QUOTE || IsQuote(q))
    ensures FirstOf(WordsFrom(s + w, q, esc, cur)) == FirstOf(WordsFrom(s, q, esc, cur)) <==> Settled(s, q, esc, cur != "")
    decreases |s|
  {
    hide Gap;
    if s == "" {
      assert s + w == w;
      GapReads(w, p, q, esc, cur);
    } else {
      var c, rest := s[0], s[1..];
      assert (s + w)[0] == c && (s + w)[1..] == rest + w;
      if esc || (q != NO_QUOTE && c != q && !(c == '\\' && q != '\'')) {
        SettledIff(rest, w, p, q, false, cur + [c]);
      } else if c == '\\' && q != '\'' {
        SettledIff(rest, w, p, q, true, cur);
      } else if q != NO_QUOTE {
        SettledIff(rest, w, p, NO_QUOTE, false, cur);
      } else if IsQuote(c) {
        SettledIff(rest, w, p, c, false, cur);
      } else if IsSpace(c) {
        SettledIff(rest, w, p, NO_QUOTE, false, "");
      } else if !(c == '#' && cur == "") {
        SettledIff(rest, w, p, NO_QUOTE, false, cur + [c]);
      }
    }
  }

  // ---- A line that goes on ----

  /** A line whose reading no text glued to it changes. */
  predicate Stands(line: string) {
    var d := ScanLine(Content(line));
    d.None? || Settled(d.value.value, NO_QUOTE, false, false)
  }

  lemma GluedScan(c: string, g: string, p: nat)
    requires ScanLine(c).Some? && Gap(g, p) && !IsSpace(g[|g| - 1])
    ensures ScanLine(c + g).Some?
    ensures FirstOf(ScanLine(c + g).value.words) == FirstOf(ScanLine(c).value.words)
        <==> Settled(ScanLine(c).value.value, NO_QUOTE, false, false)
  {
    hide *;
    var k, e, t := CutOfScan(c);
    var a, m := ScanLine(c).value.at, c + g;
    CutBounds(c, k, e, a, t);
    GapInside(g, p);
    GluedCut(c, g, p, k, e, a, t);
    if a == |c| {
      CutBounds(m, k, e, |c| + p, |m|);
      ScanOfCut(m, k, e, |c| + p, |m|);
      assert c[a..t] == "";
      NothingSettled();
      WordStarts(m[|c| + p..|m|]);
    } else {
      CutBounds(m, k, e, a, |m|);
      ScanOfCut(m, k, e, a, |m|);
      GluedRest(c, g, p, k, e, a, t);
      assert m[a..|m|] == m[a..];
      WordsSettle(c[a..t], c[t..] + g, |c| - t + p);
    }
  }

  lemma GapInside(g: string, p: nat)
    requires Gap(g, p)
    ensures p < |g| && IsPlain(g[p]) && g[p] != '#'
  {}

  lemma NothingSettled()
    ensures !Settled("", NO_QUOTE, false, false) && FirstOf(Words("")) == []
  {}

  lemma WordStarts(value: string)
    requires value != "" && IsPlain(value[0]) && value[0] != '#'
    ensures FirstOf(Words(value)) != []
  {
    WordSplits(value[1..], NO_QUOTE, false, "" + [value[0]]);
  }

  lemma WordsSettle(value: string, w: string, p: nat)
    requires Gap(w, p)
    ensures FirstOf(Words(value + w)) == FirstOf(Words(value)) <==> Settled(value, NO_QUOTE, false, false)
  {
    SettledIff(value, w, p, NO_QUOTE, false, "");
  }

  lemma ReadingsByFirst(line: string, glued: string)
    requires LineKey(line) == LineKey(glued) && LineKey(line).Some?
    ensures var d, r := ScanLine(Content(line)).value, ScanLine(Content(glued)).value;
      LineReading(line) == LineReading(glued) <==> FirstOf(d.words) == FirstOf(r.words)
  {
    hide ScanLine, KeywordOf, Content;
  }

  /** A directive with a rendered line glued to it reads as before exactly when its first word was settled. */
  lemma GluedReading(line: string, added: string, newline: string)
    requires LineLike(line) && !Terminated(line) && !Blank(line)
    requires IsRendered(added, newline) && IsNewline(newline)
    ensures LineKey(line + added) == LineKey(line)
    ensures LineReading(line + added) == LineReading(line) <==> Stands(line)
  {
    hide RenderDirective, CleanValue, LineKey, LineReading, Stands, Blank, Terminated, LineLike, Supported;
    var key, v :| Supported(key) && CleanValue(v) && added == RenderDirective(key, v, newline);
    GluedDirective(line, key, v, newline);
  }

  lemma GluedDirective(line: string, key: Keyword, v: string, newline: string)
    requires LineLike(line) && !Terminated(line) && !Blank(line)
    requires Supported(key) && CleanValue(v) && IsNewline(newline)
    ensures var glued := line + RenderDirective(key, v, newline);
      LineKey(glued) == LineKey(line) && (LineReading(glued) == LineReading(line) <==> Stands(line))
  {
    hide *;
    JoinedKeepsKey(line, key, v, newline);
    JoinedContent(line, key, v, newline);
    NonemptyLine(line);
    var g, p := GluedParts(line, key, v);
    var glued := line + RenderDirective(key, v, newline);
    if LineKey(line).None? {
      NoKeyNoReading(line);
      NoKeyNoReading(glued);
    } else {
      KeyIsScan(line);
      GluedScan(Content(line), g, p);
      ReadingsByFirst(line, glued);
      StandsIff(line);
    }
  }

  lemma KeyIsScan(line: string)
    ensures LineKey(line).Some? <==> ScanLine(Content(line)).Some?
  {}

  lemma StandsIff(line: string)
    requires ScanLine(Content(line)).Some?
    ensures Stands(line) <==> Settled(ScanLine(Content(line)).value.value, NO_QUOTE, false, false)
  {}

  lemma NoKeyNoReading(line: string)
    requires LineKey(line).None?
    ensures LineReading(line) == [] && Stands(line)
  {
    hide ScanLine;
  }

  // ---- The last line of an edited block ----

  lemma {:induction false} EditedLast(lines: seq<string>, desired: map<Keyword, string>, ids: Option<seq<string>>, inserted: bool, newline: string)
    requires lines != [] && !(ids.Some? && IsManagedLine(lines[|lines| - 1])) && IdentityFile !in desired
    requires forall key :: key in desired ==> CleanValue(desired[key])
    ensures var was, r := lines[|lines| - 1], EditedBody(lines, desired, ids, inserted, newline);
      && r != [] && LineKey(r[|r| - 1]) == LineKey(was)
      && (LineKey(was).None? || LineKey(was).value !in desired ==> r[|r| - 1] == was)
  {
    hide PatchLines, IsManagedLine, LineKey, CleanValue;
    var line, rest := lines[0], lines[1..];
    var inserted' := inserted || (ids.Some? && IsManagedLine(line));
    var a, b := PatchLines(line, desired, ids, inserted, newline), EditedBody(rest, desired, ids, inserted', newline);
    if rest == [] {
      assert b == [] && a + b == a;
      PatchedLast(line, desired, ids, inserted, newline);
    } else {
      EditedLast(rest, desired, ids, inserted', newline);
      assert (a + b)[|a + b| - 1] == b[|b| - 1];
    }
  }

  lemma PatchedLast(line: string, desired: map<Keyword, string>, ids: Option<seq<string>>, inserted: bool, newline: string)
    requires !(ids.Some? && IsManagedLine(line)) && IdentityFile !in desired
    requires forall key :: key in desired ==> CleanValue(desired[key])
    ensures var r := PatchLines(line, desired, ids, inserted, newline);
      |r| == 1 && LineKey(r[0]) == LineKey(line) && (LineKey(line).None? || LineKey(line).value !in desired ==> r[0] == line)
  {
    hide PatchLine, ScanLine, IsManagedLine, CleanValue, KeywordOf, WithFirstWord, IsHeader;
    OtherPatch(line, desired, ids, inserted, newline);
    if EditsLine(line, desired) {
      EditedKeepsKey(line, desired[Key(ScanLine(Content(line)).value)]);
    }
  }

  // ---- The condition ----

  /** The last line of the block has the key and what is glued to it changes its value. */
  ghost predicate Spoilt(b: RawBlock, edit: Edit, key: Keyword) {
    !Ready(b, edit) && b.body != [] && LineKey(b.body[|b.body| - 1]) == Some(key) && !Stands(b.body[|b.body| - 1])
  }

  ghost predicate Unnamed(edit: Edit, key: Keyword) {
    key !in Desired(edit) && !(key == IdentityFile && edit.identityFileNames.Some?)
  }

  lemma UnreadyLast(b: RawBlock, edit: Edit)
    requires !Ready(b, edit) && b.body != []
    ensures !(edit.identityFileNames.Some? && IsManagedLine(b.body[|b.body| - 1]))
  {
    hide IsManagedLine, NeedsMore, Follows;
    var lines := BlockLines(b);
    assert lines[|lines| - 1] == b.body[|b.body| - 1];
  }

  lemma UnnamedValues(b: RawBlock, edit: Edit, key: Keyword)
    requires Unnamed(edit, key)
    ensures Values(EditedReadings(b.body, Desired(edit), edit.identityFileNames, false), key) == Values(Readings(b.body), key)
  {
    DesiredKeys(edit);
    hide EditedReadings, Readings, Desired, Values, ReplaceManaged;
    if key == IdentityFile {
      EditedIdentityValues(b.body, Desired(edit), edit.identityFileNames, false);
    } else {
      OtherValues(b.body, Desired(edit), edit.identityFileNames, false, key);
    }
  }

  lemma UnnamedMore(b: RawBlock, edit: Edit, order: seq<Keyword>, newline: string, key: Keyword)
    requires Addition(b, edit, order) && CleanEdit(edit) && IsNewline(newline) && Unnamed(edit, key)
    ensures var more := MoreLines(b, edit, order, newline);
      more != [] ==> Values(Readings(more[1..]), key) == []
  {
    hide MoreLines, CleanEdit, Addition, Desired, Values, Readings, LineReading;
    MoreValues(b, edit, order, newline, key);
    var more := MoreLines(b, edit, order, newline);
    if more != [] {
      FirstSplits(more, key);
    }
  }

  /** The values of a key before and after a line has been glued to the last one. */
  lemma GluedUnnamed(body: seq<string>, more: seq<string>, key: Keyword, newline: string)
    requires body != [] && more != [] && IsRendered(more[0], newline) && IsNewline(newline)
    requires var last := body[|body| - 1]; LineLike(last) && !Terminated(last) && !Blank(last)
    requires Values(Readings(more[1..]), key) == []
    ensures Values(Readings(Glue(body, more)), key) == Values(Readings(body), key)
        <==> LineKey(body[|body| - 1]) != Some(key) || Stands(body[|body| - 1])
  {
    hide *;
    var n := |body| - 1;
    var last, glued := body[n], body[n] + more[0];
    GlueIs(body, more);
    LastSplits(body, key);
    GluedValues(body, more, key);
    GluedReading(last, more[0], newline);
    var first := Values(Readings(body[..n]), key);
    var was, now := Values(LineReading(last), key), Values(LineReading(glued), key);
    assert first + now + [] == first + now;
    if first + now == first + was {
      CancelLeft(first, now, was);
    }
    SameValues(last, glued, key);
  }

  lemma SameValues(line: string, glued: string, key: Keyword)
    requires LineKey(line) == LineKey(glued)
    ensures LineKey(line) != Some(key) ==> Values(LineReading(line), key) == Values(LineReading(glued), key)
    ensures LineKey(line) == Some(key) ==>
      (Values(LineReading(line), key) == Values(LineReading(glued), key) <==> LineReading(line) == LineReading(glued))
  {
    hide LineKey, LineReading, EditedReading, Values;
    ReadingKey(line, map[]);
    ReadingKey(glued, map[]);
    OneValue(LineReading(line), key);
    OneValue(LineReading(glued), key);
  }

  /** The body of an edited block without room: the edited lines with the added ones glued to them. */
  lemma UnreadyShape(b: RawBlock, alias: string, edit: Edit, order: seq<Keyword>, newline: string) returns (body: seq<string>, more: seq<string>)
    requires Editing(b, alias, edit, order, newline) && !Ready(b, edit)
    ensures body == EditedBody(b.body, Desired(edit), edit.identityFileNames, false, newline) && more == MoreLines(b, edit, order, newline)
    ensures more != [] && AllRendered(more, newline) && EditedBlock(b, alias, edit, order, newline).body == Glue(body, more)
    ensures body == [] <==> b.body == []
    ensures body != [] ==> var was, last := b.body[|b.body| - 1], body[|body| - 1];
      && LineLike(last) && !Terminated(last) && !Blank(last) && LineKey(last) == LineKey(was)
      && (LineKey(was).None? || LineKey(was).value !in Desired(edit) ==> last == was)
  {
    hide IsHeader, HeadAlias, PatchHead, EditedBody, MoreLines, Desired, CleanEdit, ValidAlias, NeedsMore, InsertionReady, IsNewline, Addition,
         LineLike, Terminated, Blank, NoHeader, EditedBlock, IsRendered, CleanValue, CleanNames, Ready, LineKey, Ambiguous, Proper;
    var desired, ids := Desired(edit), edit.identityFileNames;
    body, more := EditedBody(b.body, desired, ids, false, newline), MoreLines(b, edit, order, newline);
    DesiredKeys(edit);
    CleanParts(edit);
    GluedBody(b, alias, edit, order, newline);
    GlueIs(body, more);
    if b.body == [] {
      NothingEdited(desired, ids, newline);
    } else {
      UnreadyLast(b, edit);
      EditedLast(b.body, desired, ids, false, newline);
    }
  }

  lemma UnnamedBody(b: RawBlock, edit: Edit, newline: string, key: Keyword)
    requires CleanEdit(edit) && IsNewline(newline) && Unnamed(edit, key)
    ensures Values(Readings(EditedBody(b.body, Desired(edit), edit.identityFileNames, false, newline)), key) == Values(Readings(b.body), key)
  {
    DesiredKeys(edit);
    CleanParts(edit);
    hide *;
    EditedBodyReads(b.body, Desired(edit), edit.identityFileNames, false, newline);
    UnnamedValues(b, edit, key);
  }

  /** Without room, the values of a key the edit does not name stay exactly when the last line does not spoil them. */
  lemma UnreadyKeeps(b: RawBlock, alias: string, edit: Edit, order: seq<Keyword>, newline: string, key: Keyword)
    requires Editing(b, alias, edit, order, newline) && !Ready(b, edit) && Unnamed(edit, key)
    ensures Values(Readings(EditedBlock(b, alias, edit, order, newline).body), key) == Values(Readings(b.body), key) <==> !Spoilt(b, edit, key)
  {
    hide IsHeader, HeadAlias, EditedBody, MoreLines, Desired, CleanEdit, ValidAlias, IsNewline, Addition, LineLike, Terminated, Blank, NoHeader,
         Values, Readings, EditedBlock, IsRendered, Spoilt, Ready, Unnamed, Stands, LineKey, Ambiguous, Proper, Glue;
    var body, more := UnreadyShape(b, alias, edit, order, newline);
    assert IsRendered(more[0], newline);
    UnnamedMore(b, edit, order, newline, key);
    UnnamedBody(b, edit, newline, key);
    SpoiltIff(b, edit, key);
    UnnamedKey(edit, key);
    if body == [] {
      GlueIs(body, more);
      NoValues(key);
    } else {
      GluedUnnamed(body, more, key, newline);
    }
  }

  lemma UnnamedKey(edit: Edit, key: Keyword)
    requires Unnamed(edit, key)
    ensures key !in Desired(edit)
  {}

  lemma SpoiltIff(b: RawBlock, edit: Edit, key: Keyword)
    requires !Ready(b, edit)
    ensures Spoilt(b, edit, key) <==>
      b.body != [] && LineKey(b.body[|b.body| - 1]) == Some(key) && !Stands(b.body[|b.body| - 1])
  {
    hide LineKey, Stands, Ready;
  }

  lemma NoValues(key: Keyword)
    ensures Values(Readings([]), key) == []
  {}

  // ---- The theorem ----

  /** Keys the edit does not name keep their values, except where the added lines have no room and the last line of the
      block gives the key a value that is not settled. */
  lemma EditKeepsOtherKeys(data: string, alias: string, edit: Edit, order: seq<Keyword>, key: Keyword)
    requires alias != "" && PatchOutcome(data, alias, edit).Success? && CleanEdit(edit)
    requires Addition(Blocks(data)[PatchOutcome(data, alias, edit).value], edit, order)
    requires Unnamed(edit, key)
    ensures var k := PatchOutcome(data, alias, edit).value;
      && |Blocks(Patched(data, alias, edit, order))| == |Blocks(data)|
      && (Values(Readings(Blocks(Patched(data, alias, edit, order))[k].body), key) == Values(Readings(Blocks(data)[k].body), key)
          <==> !Spoilt(Blocks(data)[k], edit, key))
  {
    hide IsHeader, HeadAlias, Blocks, CleanEdit, Addition, Patched, PatchOutcome, Ready, EditedBlock, Editing, Values, Readings, Desired,
         Stands, LineKey;
    BlocksAfterEdit(data, alias, edit, order);
    TargetIsEditing(data, alias, edit, order);
    var b := Blocks(data)[PatchOutcome(data, alias, edit).value];
    if Ready(b, edit) {
      ReadyReadsAsAsked(b, alias, edit, order, NewlineOf(data));
    } else {
      UnreadyKeeps(b, alias, edit, order, NewlineOf(data), key);
    }
  }
}
