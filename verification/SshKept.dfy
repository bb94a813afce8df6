/** What an edit keeps byte for byte, and how a word must be written to be replaceable. */
module SshKept {
  import opened Common
  import opened SshText
  import opened SshParse
  import opened SshDefinition
  import opened SshPatch
  import opened SshScan
  import opened SshLines
  import opened SshEffect
  import opened SshEdited
  import opened SshTheorem
  import opened SshGlue

  // ---- Lines an edit does not address ----

  /** One of the identity lines an edit writes, possibly after blanks. */
  ghost predicate Written(line: string, edit: Edit, newline: string) {
    edit.identityFileNames.Some? &&
      exists w :: w in IdentityLines(edit.identityFileNames.value, newline) && AfterBlanks(line, w)
  }

  predicate AfterBlanks(line: string, w: string) {
    |w| <= |line| && line[|line| - |w|..] == w && Blank(line[..|line| - |w|])
  }

  /** A comment or a directive, of another key than the wanted ones, neither a managed identity to replace
      nor a line of the edit. */
  ghost predicate Untouched(line: string, edit: Edit, newline: string) {
    && !Blank(line)
    && !(edit.identityFileNames.Some? && IsManagedLine(line))
    && !(LineKey(line).Some? && LineKey(line).value in Desired(edit))
    && !Written(line, edit, newline)
  }

  ghost function Keep(lines: seq<string>, edit: Edit, newline: string): seq<string> {
    if lines == [] then []
    else (if Untouched(lines[0], edit, newline) then [lines[0]] else []) + Keep(lines[1..], edit, newline)
  }

  lemma {:induction false} KeepAppend(a: seq<string>, b: seq<string>, edit: Edit, newline: string)
    ensures Keep(a + b, edit, newline) == Keep(a, edit, newline) + Keep(b, edit, newline)
  {
    hide Untouched;
    if a == [] {
      assert a + b == b;
    } else {
      assert (a + b)[1..] == a[1..] + b;
      KeepAppend(a[1..], b, edit, newline);
    }
  }

  lemma KeepOne(line: string, edit: Edit, newline: string)
    ensures Keep([line], edit, newline) == if Untouched(line, edit, newline) then [line] else []
  {
    hide Untouched;
    assert [line][1..] == [];
    assert Keep([line][1..], edit, newline) == [];
  }

  lemma {:induction false} KeepNone(lines: seq<string>, edit: Edit, newline: string)
    requires forall i :: 0 <= i < |lines| ==> !Untouched(lines[i], edit, newline)
    ensures Keep(lines, edit, newline) == []
  {
    hide Untouched;
    if lines != [] {
      KeepNone(lines[1..], edit, newline);
    }
  }

  lemma {:induction false} KeptAreLines(lines: seq<string>, edit: Edit, newline: string)
    ensures forall x :: x in Keep(lines, edit, newline) <==> x in lines && Untouched(x, edit, newline)
  {
    hide Untouched;
    if lines != [] {
      KeptAreLines(lines[1..], edit, newline);
      assert forall x :: x in lines <==> x == lines[0] || x in lines[1..];
    }
  }

  lemma WrittenItself(line: string, edit: Edit, newline: string)
    requires edit.identityFileNames.Some? && line in IdentityLines(edit.identityFileNames.value, newline)
    ensures Written(line, edit, newline)
  {
    assert line[..0] == "" && line[0..] == line;
    assert AfterBlanks(line, line);
  }

  lemma IdentityLinesUnkept(edit: Edit, newline: string)
    requires edit.identityFileNames.Some?
    ensures Keep(IdentityLines(edit.identityFileNames.value, newline), edit, newline) == []
  {
    hide Written, Blank, IsManagedLine, LineKey, Desired, IdentityLines;
    var lines := IdentityLines(edit.identityFileNames.value, newline);
    forall i | 0 <= i < |lines| ensures !Untouched(lines[i], edit, newline) {
      WrittenItself(lines[i], edit, newline);
    }
    KeepNone(lines, edit, newline);
  }

  lemma {:induction false} KeyLinesUnkept(keys: seq<Keyword>, edit: Edit, newline: string)
    requires forall i :: 0 <= i < |keys| ==> keys[i] in Desired(edit) && Supported(keys[i])
    requires CleanEdit(edit) && IsNewline(newline)
    ensures Keep(KeyLines(keys, Desired(edit), newline), edit, newline) == []
  {
    CleanParts(edit);
    hide RenderDirective, IsManagedLine, LineKey, Blank, Desired, CleanEdit, CleanValue, IsHeader, Written;
    if keys != [] {
      RenderedIsNoHeader(keys[0], Desired(edit)[keys[0]], newline);
      KeyLinesUnkept(keys[1..], edit, newline);
    }
  }

  lemma PatchLinesKeep(line: string, edit: Edit, inserted: bool, newline: string)
    requires CleanEdit(edit) && IsNewline(newline)
    ensures Keep(PatchLines(line, Desired(edit), edit.identityFileNames, inserted, newline), edit, newline) == Keep([line], edit, newline)
  {
    CleanParts(edit);
    DesiredKeys(edit);
    hide PatchLine, ScanLine, IsManagedLine, CleanValue, KeywordOf, WithFirstWord, IdentityLines, IsHeader, LineKey, LineReading, Ending, Desired, Blank,
         Written, Keep;
    KeepOne(line, edit, newline);
    var ids := edit.identityFileNames;
    if IsManagedLine(line) && ids.Some? {
      IdentityLinesUnkept(edit, newline);
      EndingUnkept(line, edit, newline);
      var first := if inserted then [] else IdentityLines(ids.value, newline);
      var last := if Ending(line) == "" then [] else [Ending(line)];
      NothingKept(edit, newline);
      KeepAppend(first, last, edit, newline);
    } else {
      OtherPatch(line, Desired(edit), ids, inserted, newline);
      if EditsLine(line, Desired(edit)) {
        var v := Desired(edit)[Key(ScanLine(Content(line)).value)];
        EditedKeepsKey(line, v);
        KeyOfScan(line);
        KeepOne(WithFirstWord(line, v), edit, newline);
      }
    }
  }

  lemma KeyOfScan(line: string)
    requires ScanLine(Content(line)).Some?
    ensures LineKey(line) == Some(Key(ScanLine(Content(line)).value))
  {}

  lemma EndingUnkept(line: string, edit: Edit, newline: string)
    ensures Keep(if Ending(line) == "" then [] else [Ending(line)], edit, newline) == []
  {
    hide Untouched, Ending;
    EndingIsAllBlank(line);
    KeepOne(Ending(line), edit, newline);
    BlankUnkept(Ending(line), edit, newline);
  }

  lemma BlankUnkept(line: string, edit: Edit, newline: string)
    requires Blank(line)
    ensures !Untouched(line, edit, newline)
  {}

  lemma EndingIsAllBlank(line: string)
    ensures Blank(Ending(line))
  {
    var e := Ending(line);
    EndingChars(line);
    hide Ending, IsSpace;
    SkipSpaceIs(e, 0, |e|);
  }

  lemma EndingChars(line: string)
    ensures forall j :: 0 <= j < |Ending(line)| ==> IsSpace(Ending(line)[j])
  {
    hide Ending;
    EndingForms(line);
    assert IsSpace('\r') && IsSpace('\n');
  }

  lemma {:induction false} EditedBodyKeeps(lines: seq<string>, edit: Edit, inserted: bool, newline: string)
    requires CleanEdit(edit) && IsNewline(newline)
    ensures Keep(EditedBody(lines, Desired(edit), edit.identityFileNames, inserted, newline), edit, newline) == Keep(lines, edit, newline)
  {
    hide PatchLines, IsManagedLine, Untouched, Desired, CleanEdit;
    if lines != [] {
      var inserted' := inserted || (edit.identityFileNames.Some? && IsManagedLine(lines[0]));
      PatchLinesKeep(lines[0], edit, inserted, newline);
      EditedBodyKeeps(lines[1..], edit, inserted', newline);
      KeepAppend(PatchLines(lines[0], Desired(edit), edit.identityFileNames, inserted, newline),
                 EditedBody(lines[1..], Desired(edit), edit.identityFileNames, inserted', newline), edit, newline);
      assert lines == [lines[0]] + lines[1..];
      KeepAppend([lines[0]], lines[1..], edit, newline);
    }
  }

  lemma MoreKeeps(b: RawBlock, edit: Edit, order: seq<Keyword>, newline: string)
    requires Addition(b, edit, order) && CleanEdit(edit) && IsNewline(newline)
    ensures Keep(MoreLines(b, edit, order, newline), edit, newline) == []
  {
    AdditionIsDesired(b, edit, order);
    CleanParts(edit);
    hide Keep, HasManaged, Desired, KeyLines, IdentityLines, CleanEdit, Addition, CleanNames;
    KeyLinesUnkept(order, edit, newline);
    NothingKept(edit, newline);
    var identities := if edit.identityFileNames.Some? && !HasManaged(b.body) then IdentityLines(edit.identityFileNames.value, newline) else [];
    if edit.identityFileNames.Some? {
      IdentityLinesUnkept(edit, newline);
    }
    KeepAppend(KeyLines(order, Desired(edit), newline), identities, edit, newline);
  }

  lemma NothingKept(edit: Edit, newline: string)
    ensures Keep([], edit, newline) == []
  {}

  // ---- Room for the added lines ----

  lemma WrittenAfterBlank(line: string, added: string, edit: Edit, newline: string)
    requires Blank(line) && Written(added, edit, newline)
    ensures Written(line + added, edit, newline)
  {
    hide IdentityLines, Blank;
    var w :| w in IdentityLines(edit.identityFileNames.value, newline) && AfterBlanks(added, w);
    var all, n := line + added, |added| - |w|;
    assert all[|all| - |w|..] == added[n..];
    assert all[..|all| - |w|] == line + added[..n];
    BlankJoined(line, added[..n]);
    assert AfterBlanks(all, w);
  }

  lemma BlankJoined(a: string, b: string)
    requires Blank(a) && Blank(b)
    ensures Blank(a + b)
  {
    BlankIsSpace(a);
    BlankIsSpace(b);
    hide IsSpace, Blank;
    var s := a + b;
    assert forall j :: 0 <= j < |s| ==> IsSpace(s[j]);
    AllSpaceIsBlank(s);
  }

  lemma AllSpaceIsBlank(s: string)
    requires forall j :: 0 <= j < |s| ==> IsSpace(s[j])
    ensures Blank(s)
  {
    hide IsSpace;
    SkipSpaceIs(s, 0, |s|);
  }

  /** A blank line joined to a rendered one is scanned as the rendered one. */
  lemma BlankJoinUnkept(line: string, added: string, edit: Edit, newline: string)
    requires Blank(line) && IsRendered(added, newline) && IsNewline(newline) && !Untouched(added, edit, newline)
    ensures !Untouched(line + added, edit, newline)
  {
    hide RenderDirective, CleanValue, LineReading, LineKey, IsHeader, Desired, IsManagedLine, Written;
    var key, v :| Supported(key) && CleanValue(v) && added == RenderDirective(key, v, newline);
    RenderedScans(key, v, newline);
    RenderedIsNoHeader(key, v, newline);
    JoinedToBlank(line, key, v, newline);
    ManagedByReading(added);
    ManagedByReading(line + added);
    BlankByContent(added);
    if Written(added, edit, newline) {
      WrittenAfterBlank(line, added, edit, newline);
    }
  }

  lemma ManagedByReading(line: string)
    ensures IsManagedLine(line) <==> LineReading(line) != [] && LineReading(line)[0].key == IdentityFile && ManagedIdentity(LineReading(line)[0].value).Some?
  {
    hide ScanLine, KeywordOf, ManagedIdentity;
  }

  lemma JoinKeeps(head: string, body: seq<string>, added: seq<string>, edit: Edit, newline: string)
    requires IsHeader(head) && IsNewline(newline) && AllRendered(added, newline)
    requires added != [] ==> LastFollows([head] + body)
    requires Keep(added, edit, newline) == []
    ensures Keep(Join([head] + body, added)[1..], edit, newline) == Keep(body, edit, newline)
  {
    hide Terminated, IsHeader, IsRendered, Blank, Untouched, Keep;
    var lines := [head] + body;
    var n := |lines| - 1;
    var joined := Join(lines, added);
    if added == [] || Terminated(lines[n]) {
      assert joined[1..] == body + added;
      KeepAppend(body, added, edit, newline);
    } else {
      HeaderNotBlank(head);
      assert body != [] && Blank(body[n - 1]);
      assert IsRendered(added[0], newline);
      var init, last := body[..n - 1], body[n - 1];
      assert body == init + [last] && added == [added[0]] + added[1..];
      KeepAppend(init, [last], edit, newline);
      KeepAppend([added[0]], added[1..], edit, newline);
      KeepOne(last, edit, newline);
      BlankUnkept(last, edit, newline);
      KeepOne(added[0], edit, newline);
      BlankJoinUnkept(last, added[0], edit, newline);
      KeepOne(last + added[0], edit, newline);
      assert joined[1..] == init + [last + added[0]] + added[1..];
      KeepAppend(init + [last + added[0]], added[1..], edit, newline);
      KeepAppend(init, [last + added[0]], edit, newline);
    }
  }

  lemma ReadyKeepsLines(b: RawBlock, alias: string, edit: Edit, order: seq<Keyword>, newline: string)
    requires Editing(b, alias, edit, order, newline) && Ready(b, edit)
    ensures Keep(EditedBlock(b, alias, edit, order, newline).body, edit, newline) == Keep(b.body, edit, newline)
  {
    hide IsHeader, HeadAlias, PatchHead, EditedBody, MoreLines, ValidAlias, Desired, Proper, Join, NeedsMore, CleanEdit,
         InsertionReady, AllRendered, Addition, Keep, NoHeader, Ambiguous, IsNewline;
    var ids := edit.identityFileNames;
    var head, body := PatchHead(b.head, alias, NewAlias(alias, edit)), EditedBody(b.body, Desired(edit), ids, false, newline);
    var more := MoreLines(b, edit, order, newline);
    EditedLinesAreProper(b, alias, edit, newline);
    MoreLinesRendered(b, edit, order, newline);
    MoreNeeded(b, edit, order, newline);
    EditedLinesFollow(b, alias, edit, newline);
    EditedBodyKeeps(b.body, edit, false, newline);
    MoreKeeps(b, edit, order, newline);
    JoinKeeps(head, body, more, edit, newline);
  }

  // ---- No room for them ----

  /** The last line of the block is one the edit does not address, and the first added line is glued to it. */
  ghost predicate Swallows(b: RawBlock, edit: Edit, newline: string) {
    !Ready(b, edit) && b.body != [] && Untouched(b.body[|b.body| - 1], edit, newline)
  }

  lemma RenderedTerminated(line: string, newline: string)
    requires IsRendered(line, newline) && IsNewline(newline)
    ensures LineLike(line) && Terminated(line)
  {
    hide RenderDirective, CleanValue, LineLike, Terminated, Supported;
    var key, v :| Supported(key) && CleanValue(v) && line == RenderDirective(key, v, newline);
    RenderedIsLine(key, v, newline);
  }

  /** After gluing every line ends with a newline. */
  lemma GluedTerminated(body: seq<string>, more: seq<string>, newline: string)
    requires Proper(body) && more != [] && AllRendered(more, newline) && IsNewline(newline)
    ensures forall x :: x in Glue(body, more) ==> Terminated(x)
  {
    hide IsRendered, LineLike;
    var r := Glue(body, more);
    forall i | 0 <= i < |more| ensures Terminated(more[i]) {
      RenderedTerminated(more[i], newline);
    }
    forall x | x in r ensures Terminated(x) {
      if body != [] && x !in more[1..] {
        var n := |body| - 1;
        assert x in body[..n] || x == body[n] + more[0];
        if x == body[n] + more[0] {
          assert x[|x| - 1] == more[0][|more[0]| - 1];
        }
      }
    }
  }

  /** The line that is glued to is lost if the edit does not address it. */
  lemma SwallowedLine(body: seq<string>, more: seq<string>, edit: Edit, newline: string)
    requires Proper(body) && body != [] && more != [] && AllRendered(more, newline) && IsNewline(newline)
    requires !Terminated(body[|body| - 1]) && Untouched(body[|body| - 1], edit, newline)
    ensures Keep(Glue(body, more), edit, newline) != Keep(body, edit, newline)
  {
    hide Terminated, Untouched, Proper, AllRendered, Glue, Keep;
    var last := body[|body| - 1];
    GluedTerminated(body, more, newline);
    KeptAreLines(body, edit, newline);
    KeptAreLines(Glue(body, more), edit, newline);
    assert last in body;
    assert last in Keep(body, edit, newline);
    assert last !in Keep(Glue(body, more), edit, newline);
  }

  /** A line with a wanted key keeps its key when something is glued to it. */
  lemma AddressedLine(body: seq<string>, more: seq<string>, edit: Edit, newline: string)
    requires body != [] && more != [] && IsRendered(more[0], newline) && IsNewline(newline)
    requires var last := body[|body| - 1];
      LineLike(last) && !Terminated(last) && !Blank(last) && LineKey(last).Some? && LineKey(last).value in Desired(edit)
    requires Keep(more, edit, newline) == []
    ensures Keep(Glue(body, more), edit, newline) == Keep(body, edit, newline)
  {
    hide Terminated, Untouched, Keep, LineLike, Blank, LineKey, Desired, IsRendered, Stands, LineReading;
    var n := |body| - 1;
    var last, glued := body[n], body[n] + more[0];
    GluedReading(last, more[0], newline);
    AddressedUnkept(last, edit, newline);
    AddressedUnkept(glued, edit, newline);
    assert body == body[..n] + [last] && more == [more[0]] + more[1..];
    KeepAppend([more[0]], more[1..], edit, newline);
    KeepAppend(body[..n], [last], edit, newline);
    KeepOne(last, edit, newline);
    KeepOne(glued, edit, newline);
    KeepAppend(body[..n] + [glued], more[1..], edit, newline);
    KeepAppend(body[..n], [glued], edit, newline);
  }

  lemma AddressedUnkept(line: string, edit: Edit, newline: string)
    requires LineKey(line).Some? && LineKey(line).value in Desired(edit)
    ensures !Untouched(line, edit, newline)
  {}

  lemma TailKept(more: seq<string>, edit: Edit, newline: string)
    requires more != [] && Keep(more, edit, newline) == []
    ensures Keep(more[1..], edit, newline) == []
  {
    hide Untouched;
  }

  lemma WrittenIsTerminated(line: string, edit: Edit, newline: string)
    requires Written(line, edit, newline) && CleanEdit(edit) && IsNewline(newline)
    ensures Terminated(line)
  {
    CleanParts(edit);
    hide Blank, IdentityLines, CleanNames, CleanEdit;
    var w :| w in IdentityLines(edit.identityFileNames.value, newline) && AfterBlanks(line, w);
    IdentityLinesAreLines(edit.identityFileNames.value, newline);
    assert Terminated(w);
    assert w[|w| - 1] == line[|line| - 1];
  }

  /** A line without its newline that cannot be followed is addressed by its key or not at all. */
  lemma AddressedByKey(line: string, edit: Edit, newline: string)
    requires !Terminated(line) && !Blank(line) && !(edit.identityFileNames.Some? && IsManagedLine(line))
    requires CleanEdit(edit) && IsNewline(newline)
    ensures Untouched(line, edit, newline) <==> !(LineKey(line).Some? && LineKey(line).value in Desired(edit))
  {
    hide Blank, IsManagedLine, LineKey, Desired, CleanEdit, Terminated, Written;
    assert !Written(line, edit, newline) by {
      if Written(line, edit, newline) {
        WrittenIsTerminated(line, edit, newline);
      }
    }
  }

  lemma UnreadyKeepsLines(b: RawBlock, alias: string, edit: Edit, order: seq<Keyword>, newline: string)
    requires Editing(b, alias, edit, order, newline) && !Ready(b, edit)
    ensures Keep(EditedBlock(b, alias, edit, order, newline).body, edit, newline) == Keep(b.body, edit, newline)
        <==> !Swallows(b, edit, newline)
  {
    hide IsHeader, HeadAlias, PatchHead, EditedBody, MoreLines, Desired, CleanEdit, ValidAlias, IsNewline, Addition, Glue,
         LineLike, Terminated, Blank, NoHeader, EditedBlock, IsRendered, Ready, Untouched, Keep, LineKey, Ambiguous, Proper;
    var body, more := UnreadyShape(b, alias, edit, order, newline);
    assert IsRendered(more[0], newline);
    MoreKeeps(b, edit, order, newline);
    EditedBodyKeeps(b.body, edit, false, newline);
    if body == [] {
      GlueIs(body, more);
      TailKept(more, edit, newline);
      NothingKept(edit, newline);
    } else {
      EditedIsProper(b, edit, newline);
      LastAddressed(b, edit, body, newline);
      if Untouched(body[|body| - 1], edit, newline) {
        SwallowedLine(body, more, edit, newline);
      } else {
        AddressedLine(body, more, edit, newline);
      }
    }
  }

  lemma EditedIsProper(b: RawBlock, edit: Edit, newline: string)
    requires Proper(BlockLines(b)) && CleanEdit(edit) && IsNewline(newline)
    ensures Proper(EditedBody(b.body, Desired(edit), edit.identityFileNames, false, newline))
  {
    DesiredKeys(edit);
    CleanParts(edit);
    hide *;
    BodyIsProper(b);
    EditedBodyIsProper(b.body, Desired(edit), edit.identityFileNames, false, newline);
  }

  lemma BodyIsProper(b: RawBlock)
    requires Proper(BlockLines(b))
    ensures Proper(b.body)
  {
    hide LineLike, Terminated;
    ProperTail(BlockLines(b));
    assert BlockLines(b)[1..] == b.body;
  }

  /** The last line before and after the edit is addressed in the same way. */
  lemma LastAddressed(b: RawBlock, edit: Edit, body: seq<string>, newline: string)
    requires !Ready(b, edit) && b.body != [] && body != [] && CleanEdit(edit) && IsNewline(newline)
    requires var was, last := b.body[|b.body| - 1], body[|body| - 1];
      && !Terminated(last) && !Blank(last) && LineKey(last) == LineKey(was)
      && (LineKey(was).None? || LineKey(was).value !in Desired(edit) ==> last == was)
    ensures var was, last := b.body[|b.body| - 1], body[|body| - 1];
      && (Untouched(last, edit, newline) <==> Untouched(was, edit, newline))
      && (Untouched(last, edit, newline) <==> !(LineKey(last).Some? && LineKey(last).value in Desired(edit)))
  {
    UnreadyLast(b, edit);
    hide Ready, Terminated, Blank, LineKey, Desired, Untouched, IsManagedLine, CleanEdit, IsNewline;
    var was, last := b.body[|b.body| - 1], body[|body| - 1];
    if LineKey(was).Some? && LineKey(was).value in Desired(edit) {
      AddressedUnkept(was, edit, newline);
      AddressedUnkept(last, edit, newline);
    } else {
      AddressedByKey(last, edit, newline);
    }
  }

  /** Comments, directives of other keys and unmanaged identity files stay in the block byte for byte and in order,
      except a last line that the first added line is glued to. */
  lemma EditKeepsLines(b: RawBlock, alias: string, edit: Edit, order: seq<Keyword>, newline: string)
    requires Editing(b, alias, edit, order, newline)
    ensures Keep(EditedBlock(b, alias, edit, order, newline).body, edit, newline) == Keep(b.body, edit, newline)
        <==> !Swallows(b, edit, newline)
  {
    hide Editing, Ready, EditedBlock, Keep, Untouched;
    if Ready(b, edit) {
      ReadyKeepsLines(b, alias, edit, order, newline);
    } else {
      UnreadyKeepsLines(b, alias, edit, order, newline);
    }
  }

  // ---- Quoted and unquoted words ----

  lemma {:induction false} ExtensionOfPlain(w: string, rest: string)
    requires AllPlain(w)
    ensures Extension(w + rest, NO_QUOTE, false) == w + Extension(rest, NO_QUOTE, false)
  {
    if w == "" {
      assert w + rest == rest;
    } else {
      assert (w + rest)[1..] == w[1..] + rest;
      ExtensionOfPlain(w[1..], rest);
    }
  }

  lemma {:induction false} QuotedWords(w: string, q: char, cur: string)
    requires AllPlain(w) && IsQuote(q) && cur + w != ""
    ensures WordsFrom(w + [q], q, false, cur) == [cur + w]
  {
    if w == "" {
      assert w + [q] == [q] && cur + w == cur;
      assert [q][1..] == "";
    } else {
      assert (w + [q])[1..] == w[1..] + [q];
      assert cur + [w[0]] + w[1..] == cur + w;
      QuotedWords(w[1..], q, cur + [w[0]]);
    }
  }

  /** A word written between quotes is never replaced cleanly: the editor cuts as many bytes as the word has
      without its quotes, so the last letter and a quote stay behind. */
  lemma QuotedLeavesTheLastLetter(w: string, q: char)
    requires w != "" && AllPlain(w) && IsQuote(q)
    ensures Words([q] + w + [q]) == [w]
    ensures Extension(([q] + w + [q])[|w|..], NO_QUOTE, false) == [w[|w| - 1]]
  {
    var value := [q] + w + [q];
    assert value[1..] == w + [q];
    QuotedWords(w, q, "");
    assert "" + w == w;
    var last := [w[|w| - 1]];
    assert value[|w|..] == last + [q];
    ExtensionOfPlain(last, [q]);
    assert [q][1..] == "";
    assert Extension([q], NO_QUOTE, false) == "";
    assert last + "" == last;
  }

  /** A word written without quotes or escapes and followed by a blank or nothing is replaced cleanly. */
  lemma UnquotedIsPlain(w: string, rest: string)
    requires CleanWord(w) && (rest == "" || IsSpace(rest[0]))
    ensures Words(w + rest) != [] && Words(w + rest)[0] == w
    ensures Extension((w + rest)[|w|..], NO_QUOTE, false) == ""
  {
    PlainPrefix(w, rest, "");
    assert "" + w == w;
    WordSplits(rest, NO_QUOTE, false, w);
    assert (w + rest)[|w|..] == rest;
    assert w + "" == w;
  }
}
