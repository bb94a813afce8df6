/** What an edit does to the blocks of the file: one block changes, the others stay. */
module SshEffect {
  import opened Common
  import opened SshText
  import opened SshParse
  import opened SshDefinition
  import opened SshPatch
  import opened SshScan
  import opened SshLines

  // ---- The edited block ----

  function EditedLines(b: RawBlock, alias: string, edit: Edit, newline: string): (r: seq<string>)
    requires IsHeader(b.head) && HeadAlias(b.head) == alias && alias != ""
    ensures r != []
  {
    [PatchHead(b.head, alias, NewAlias(alias, edit))]
    + EditedBody(b.body, Desired(edit), edit.identityFileNames, false, newline)
  }

  ghost function MoreLines(b: RawBlock, edit: Edit, order: seq<Keyword>, newline: string): seq<string>
    requires Addition(b, edit, order)
  {
    AdditionIsDesired(b, edit, order);
    AddedLines(b.body, Desired(edit), edit.identityFileNames, order, newline)
  }

  ghost function EditedBlock(b: RawBlock, alias: string, edit: Edit, order: seq<Keyword>, newline: string): RawBlock
    requires IsHeader(b.head) && HeadAlias(b.head) == alias && alias != ""
    requires Addition(b, edit, order)
  {
    var lines := Join(EditedLines(b, alias, edit, newline), MoreLines(b, edit, order, newline));
    RawBlock(lines[0], lines[1..])
  }

  // ---- The added lines ----

  ghost predicate IsRendered(line: string, newline: string) {
    exists key, v :: Supported(key) && CleanValue(v) && line == RenderDirective(key, v, newline)
  }

  ghost predicate AllRendered(lines: seq<string>, newline: string) {
    forall i :: 0 <= i < |lines| ==> IsRendered(lines[i], newline)
  }

  lemma {:induction false} IdentityLinesRendered(names: seq<string>, newline: string)
    requires CleanNames(names)
    ensures AllRendered(IdentityLines(names, newline), newline)
  {
    hide RenderDirective, CleanValue, AllPlain;
    if names != [] {
      CleanIdentity(names[0]);
      IdentityLinesRendered(names[1..], newline);
    }
  }

  lemma {:induction false} KeyLinesRendered(keys: seq<Keyword>, desired: map<Keyword, string>, newline: string)
    requires forall i :: 0 <= i < |keys| ==> keys[i] in desired && Supported(keys[i])
    requires forall key :: key in desired ==> CleanValue(desired[key])
    ensures AllRendered(KeyLines(keys, desired, newline), newline)
  {
    hide RenderDirective, CleanValue;
    if keys != [] {
      KeyLinesRendered(keys[1..], desired, newline);
    }
  }

  lemma RenderedLines(lines: seq<string>, newline: string)
    requires AllRendered(lines, newline) && IsNewline(newline)
    ensures AllLines(lines) && AllTerminated(lines) && NoHeader(lines)
  {
    hide RenderDirective, CleanValue, LineLike, Terminated, IsHeader, LineKey;
    forall i | 0 <= i < |lines| ensures LineLike(lines[i]) && Terminated(lines[i]) && !IsHeader(lines[i]) {
      assert IsRendered(lines[i], newline);
      var key, v :| Supported(key) && CleanValue(v) && lines[i] == RenderDirective(key, v, newline);
      RenderedIsLine(key, v, newline);
      RenderedIsNoHeader(key, v, newline);
    }
  }

  lemma MoreLinesRendered(b: RawBlock, edit: Edit, order: seq<Keyword>, newline: string)
    requires Addition(b, edit, order) && CleanEdit(edit)
    ensures AllRendered(MoreLines(b, edit, order, newline), newline)
  {
    hide IsRendered, HasManaged, Desired, KeyLines, IdentityLines;
    AdditionIsDesired(b, edit, order);
    KeyLinesRendered(order, Desired(edit), newline);
    if edit.identityFileNames.Some? {
      IdentityLinesRendered(edit.identityFileNames.value, newline);
    }
  }

  // ---- Joining ----

  lemma JoinNonempty(lines: seq<string>, added: seq<string>)
    requires lines != []
    ensures Join(lines, added) != []
  {}

  lemma JoinIsProper(lines: seq<string>, added: seq<string>)
    requires Proper(lines) && lines != []
    requires AllLines(added) && AllTerminated(added)
    ensures Proper(Join(lines, added))
    ensures added != [] || AllTerminated(lines) ==> AllTerminated(Join(lines, added))
  {
    hide LineLike, Terminated;
    var n := |lines| - 1;
    TerminatedProper(added);
    if added != [] {
      assert lines == lines[..n] + [lines[n]];
      if Terminated(lines[n]) {
        assert AllTerminated(lines) by {
          forall k | 0 <= k < |lines| ensures Terminated(lines[k]) {
            if k < n {
              assert lines[k] == lines[..n][k];
            }
          }
        }
        ProperJoin(lines, added);
      } else {
        JoinedLine(lines[n], added[0]);
        var joined := Join(lines, added);
        assert joined == lines[..n] + ([lines[n] + added[0]] + added[1..]);
        assert AllTerminated([lines[n] + added[0]] + added[1..]);
        TerminatedProper(joined);
      }
    }
  }

  lemma JoinedLine(a: string, b: string)
    requires LineLike(a) && !Terminated(a) && LineLike(b) && Terminated(b)
    ensures LineLike(a + b) && Terminated(a + b)
  {
    var c := a + b;
    assert forall i :: 0 <= i < |a| ==> c[i] == a[i] && c[i] != '\n';
    assert forall i :: |a| <= i < |c| ==> c[i] == b[i - |a|];
  }

  lemma HeaderNotBlank(head: string)
    requires IsHeader(head)
    ensures !Blank(head)
  {
    hide KeywordOf, Words;
    var k := SkipSpace(Content(head), 0);
    assert Content(head)[k] == head[k];
    SkippedSpace(head, 0);
  }

  /** Rendered lines joined to a block leave its header a header and add none. */
  lemma JoinKeepsHeaders(head: string, body: seq<string>, added: seq<string>, newline: string)
    requires Proper([head] + body) && IsHeader(head) && NoHeader(body)
    requires AllRendered(added, newline) && IsNewline(newline)
    ensures var joined := Join([head] + body, added);
      IsHeader(joined[0]) && NoHeader(joined[1..])
    ensures body != [] ==> Join([head] + body, added)[0] == head
  {
    hide Terminated, IsHeader, LineLike, IsRendered;
    var lines := [head] + body;
    var n := |lines| - 1;
    var joined := Join(lines, added);
    RenderedLines(added, newline);
    if added == [] || Terminated(lines[n]) {
      assert joined[1..] == body + added;
    } else {
      assert IsRendered(added[0], newline);
      JoinedLineHeader(lines[n], added[0], newline);
      GluedShape(head, body, added);
    }
  }

  lemma GluedShape(head: string, body: seq<string>, added: seq<string>)
    requires added != [] && !Terminated(([head] + body)[|body|])
    ensures body == [] ==> Join([head] + body, added)[1..] == added[1..] && Join([head] + body, added)[0] == head + added[0]
    ensures body != [] ==> var m := |body| - 1;
      Join([head] + body, added)[1..] == body[..m] + [body[m] + added[0]] + added[1..] && Join([head] + body, added)[0] == head
  {
    hide Terminated;
    var lines, n := [head] + body, |body|;
    if body == [] {
      assert lines[..n] == [];
      assert Join(lines, added) == [head + added[0]] + added[1..];
    } else {
      assert lines[..n] == [head] + body[..n - 1];
      assert Join(lines, added) == [head] + (body[..n - 1] + [body[n - 1] + added[0]] + added[1..]);
    }
  }

  lemma JoinedLineHeader(line: string, added: string, newline: string)
    requires LineLike(line) && !Terminated(line) && IsRendered(added, newline) && IsNewline(newline)
    ensures IsHeader(line + added) == IsHeader(line)
  {
    hide RenderDirective, Terminated, IsHeader, LineKey, CleanValue, LineReading;
    var key, v :| Supported(key) && CleanValue(v) && added == RenderDirective(key, v, newline);
    if Blank(line) {
      JoinedToBlank(line, key, v, newline);
      if IsHeader(line) {
        HeaderNotBlank(line);
      }
    } else {
      JoinedKeepsKey(line, key, v, newline);
    }
  }

  // ---- The blocks after an edit ----

  lemma PatchedHead(head: string, alias: string, newAlias: string)
    requires IsHeader(head) && HeadAlias(head) == alias && alias != "" && LineLike(head)
    requires newAlias == alias || ValidAlias(newAlias)
    ensures IsHeader(PatchHead(head, alias, newAlias)) && LineLike(PatchHead(head, alias, newAlias))
    ensures Terminated(head) ==> Terminated(PatchHead(head, alias, newAlias))
  {
    hide ScanLine, KeywordOf, WithFirstWord, LineLike, Terminated, ValidAlias, CleanValue;
    if newAlias != alias {
      CleanAlias(newAlias);
      EditedKeepsKey(head, newAlias);
      ReplacedIsLine(head, newAlias);
    }
  }

  lemma EditedLinesAreProper(b: RawBlock, alias: string, edit: Edit, newline: string)
    requires IsHeader(b.head) && HeadAlias(b.head) == alias && alias != ""
    requires Proper(BlockLines(b)) && NoHeader(b.body)
    requires ValidAlias(NewAlias(alias, edit)) && CleanEdit(edit) && IsNewline(newline)
    ensures var lines := EditedLines(b, alias, edit, newline);
      && Proper(lines) && IsHeader(lines[0]) && NoHeader(lines[1..])
      && (AllTerminated(BlockLines(b)) ==> AllTerminated(lines))
  {
    hide IsHeader, LineLike, Terminated, HeadAlias, PatchHead, EditedBody, ValidAlias, Desired, CleanValue;
    var head, body := PatchHead(b.head, alias, NewAlias(alias, edit)), EditedBody(b.body, Desired(edit), edit.identityFileNames, false, newline);
    DesiredKeys(edit);
    ProperTail(BlockLines(b));
    assert BlockLines(b)[1..] == b.body;
    PatchedHead(b.head, alias, NewAlias(alias, edit));
    EditedBodyIsProper(b.body, Desired(edit), edit.identityFileNames, false, newline);
    EditedBodyNoHeader(b.body, Desired(edit), edit.identityFileNames, false, newline);
    if b.body == [] {
      assert body == [] by { NothingEdited(Desired(edit), edit.identityFileNames, newline); }
    }
    assert Proper([head]);
    ProperJoin([head], body);
    assert ([head] + body)[1..] == body;
  }

  lemma NothingEdited(desired: map<Keyword, string>, ids: Option<seq<string>>, newline: string)
    ensures EditedBody([], desired, ids, false, newline) == []
  {}

  /** The edited block as lines: its text, and that it is a block. */
  lemma EditedBlockIsBlock(b: RawBlock, alias: string, edit: Edit, order: seq<Keyword>, newline: string)
    requires IsHeader(b.head) && HeadAlias(b.head) == alias && alias != ""
    requires Proper(BlockLines(b)) && NoHeader(b.body)
    requires ValidAlias(NewAlias(alias, edit)) && CleanEdit(edit) && IsNewline(newline)
    requires Addition(b, edit, order)
    ensures var e := EditedBlock(b, alias, edit, order, newline);
      && IsHeader(e.head) && NoHeader(e.body) && Proper(BlockLines(e))
      && (AllTerminated(BlockLines(b)) ==> AllTerminated(BlockLines(e)))
  {
    hide IsHeader, LineLike, Terminated, HeadAlias, EditedLines, MoreLines, Join, ValidAlias, CleanEdit, IsRendered;
    var lines, more := EditedLines(b, alias, edit, newline), MoreLines(b, edit, order, newline);
    EditedLinesAreProper(b, alias, edit, newline);
    MoreLinesRendered(b, edit, order, newline);
    RenderedLines(more, newline);
    JoinIsProper(lines, more);
    assert lines == [lines[0]] + lines[1..];
    JoinKeepsHeaders(lines[0], lines[1..], more, newline);
    var e := EditedBlock(b, alias, edit, order, newline);
    JoinNonempty(lines, more);
    assert Join(lines, more) == BlockLines(e);
  }

  lemma EditedLinesText(b: RawBlock, alias: string, edit: Edit, newline: string)
    requires IsHeader(b.head) && HeadAlias(b.head) == alias && alias != ""
    ensures Flatten(EditedLines(b, alias, edit, newline))
         == PatchHead(b.head, alias, NewAlias(alias, edit)) + PatchBody(b.body, Desired(edit), edit.identityFileNames, false, newline)
  {
    hide IsHeader, HeadAlias, PatchHead, EditedBody, PatchBody, Desired, Flatten;
    var head, body := PatchHead(b.head, alias, NewAlias(alias, edit)), EditedBody(b.body, Desired(edit), edit.identityFileNames, false, newline);
    FlattenAppend([head], body);
    FlattenOne(head);
    FlattenEditedBody(b.body, Desired(edit), edit.identityFileNames, false, newline);
  }

  lemma EditedBlockText(b: RawBlock, alias: string, edit: Edit, order: seq<Keyword>, newline: string)
    requires IsHeader(b.head) && HeadAlias(b.head) == alias && alias != ""
    requires Addition(b, edit, order)
    ensures Flatten(BlockLines(EditedBlock(b, alias, edit, order, newline))) == PatchedBlock(b, alias, edit, order, newline)
  {
    AdditionIsDesired(b, edit, order);
    hide IsHeader, HeadAlias, PatchHead, EditedLines, PatchBody, AddedLines, Added, Join, Desired, Flatten, Addition, NewAlias;
    var lines, more := EditedLines(b, alias, edit, newline), MoreLines(b, edit, order, newline);
    EditedBlockLines(b, alias, edit, order, newline);
    hide EditedBlock, BlockLines;
    EditedLinesText(b, alias, edit, newline);
    FlattenJoin(lines, more);
    FlattenAddedLines(b.body, Desired(edit), edit.identityFileNames, order, newline);
  }

  lemma EditedBlockLines(b: RawBlock, alias: string, edit: Edit, order: seq<Keyword>, newline: string)
    requires IsHeader(b.head) && HeadAlias(b.head) == alias && alias != ""
    requires Addition(b, edit, order)
    ensures EditedLines(b, alias, edit, newline) != []
    ensures BlockLines(EditedBlock(b, alias, edit, order, newline)) == Join(EditedLines(b, alias, edit, newline), MoreLines(b, edit, order, newline))
  {
    hide IsHeader, HeadAlias, PatchHead, EditedBody, Join, MoreLines, Addition;
    JoinNonempty(EditedLines(b, alias, edit, newline), MoreLines(b, edit, order, newline));
  }

  /** Blocks that stay in place around a changed one. */
  lemma ReplaceBlock(data: string, k: nat, e: RawBlock)
    requires k < |Blocks(data)|
    requires IsHeader(e.head) && NoHeader(e.body) && Proper(BlockLines(e))
    requires After(data, k) != "" ==> AllTerminated(BlockLines(e))
    ensures var result := Before(data, k) + Flatten(BlockLines(e)) + After(data, k);
      && Preamble(result) == Preamble(data)
      && Blocks(result) == Blocks(data)[k := e]
  {
    hide IsHeader, Lines, Group, Flatten, LineLike, Terminated, Ungroup, BlockLines;
    var lines := Lines(data);
    var blocks := Blocks(data);
    GroupWellFormed(lines);
    UngroupAt(blocks, k);
    var pre, post := Preamble(data) + Ungroup(blocks[..k]), Ungroup(blocks[k + 1..]);
    LinesWellFormed(data);
    assert lines == pre + BlockLines(blocks[k]) + post;
    BlockLinesNonempty(blocks[k]);
    Surround(pre, BlockLines(blocks[k]), post, BlockLines(e));
    var changed := pre + BlockLines(e) + post;
    ProperIsWellFormed(changed);
    FlattenThree(pre, BlockLines(e), post);
    LinesFlatten(changed);
    RegroupChanged(data, k, e);
  }

  lemma BlockLinesNonempty(b: RawBlock)
    ensures BlockLines(b) != []
  {}

  lemma LinesHaveText(lines: seq<string>)
    requires AllLines(lines) && lines != []
    ensures Flatten(lines) != ""
  {
    assert LineLike(lines[0]);
  }

  lemma Surround(pre: seq<string>, was: seq<string>, post: seq<string>, mid: seq<string>)
    requires WellFormedLines(pre + was + post) && was != [] && Proper(mid)
    requires Flatten(post) != "" ==> AllTerminated(mid)
    ensures Proper(pre + mid + post)
  {
    hide Flatten;
    var lines := pre + was + post;
    assert forall i :: 0 <= i < |pre| ==> pre[i] == lines[i];
    assert forall i :: 0 <= i < |post| ==> post[i] == lines[|pre| + |was| + i];
    TerminatedProper(pre);
    assert Proper(post) by {
      assert forall i :: 0 <= i < |post| - 1 ==> post[..|post| - 1][i] == post[i];
    }
    ProperJoin(pre, mid);
    if post != [] {
      LinesHaveText(post);
      assert AllTerminated(pre + mid);
    }
    ProperJoin(pre + mid, post);
  }

  lemma RegroupChanged(data: string, k: nat, e: RawBlock)
    requires k < |Blocks(data)|
    requires IsHeader(e.head) && NoHeader(e.body)
    ensures var lines := Preamble(data) + Ungroup(Blocks(data)[..k]) + BlockLines(e) + Ungroup(Blocks(data)[k + 1..]);
      Group(lines) == Grouping(Preamble(data), Blocks(data)[k := e])
  {
    hide IsHeader, Lines, Group, BlockLines, Ungroup;
    GroupWellFormed(Lines(data));
    var blocks := Blocks(data);
    var changed := blocks[k := e];
    UngroupAt(changed, k);
    assert changed[..k] == blocks[..k] && changed[k + 1..] == blocks[k + 1..];
    var g := Grouping(Preamble(data), changed);
    assert WellGrouped(g);
    GroupingIsUnique(g);
    AssociateLines(Preamble(data), Ungroup(blocks[..k]), BlockLines(e), Ungroup(blocks[k + 1..]));
  }

  lemma AssociateLines<T>(a: seq<T>, b: seq<T>, c: seq<T>, d: seq<T>)
    ensures a + (b + c + d) == a + b + c + d
  {}

  lemma NewlineForms(data: string)
    ensures IsNewline(NewlineOf(data))
  {}

  lemma BlockIsProper(data: string, k: nat)
    requires k < |Blocks(data)|
    ensures IsHeader(Blocks(data)[k].head) && NoHeader(Blocks(data)[k].body)
    ensures Proper(BlockLines(Blocks(data)[k]))
    ensures After(data, k) != "" ==> AllTerminated(BlockLines(Blocks(data)[k]))
  {
    hide IsHeader, Lines, Group, Flatten, LineLike, Terminated, Ungroup, BlockLines;
    var blocks := Blocks(data);
    GroupWellFormed(Lines(data));
    UngroupAt(blocks, k);
    LinesWellFormed(data);
    var pre, post := Preamble(data) + Ungroup(blocks[..k]), Ungroup(blocks[k + 1..]);
    assert Lines(data) == pre + BlockLines(blocks[k]) + post;
    MiddleIsProper(pre, BlockLines(blocks[k]), post);
    if After(data, k) != "" {
      NothingFlat();
      assert post != [];
    }
  }

  lemma NothingFlat()
    ensures Flatten([]) == ""
  {}

  lemma MiddleIsProper(pre: seq<string>, mid: seq<string>, post: seq<string>)
    requires WellFormedLines(pre + mid + post)
    ensures Proper(mid)
    ensures post != [] ==> AllTerminated(mid)
  {
    var lines := pre + mid + post;
    assert forall i :: 0 <= i < |mid| ==> mid[i] == lines[|pre| + i];
    assert forall i :: 0 <= i < |mid| - 1 ==> mid[..|mid| - 1][i] == mid[i];
  }

  /** Whatever an edit does, every other block and the preamble stay as they are. */
  lemma BlocksAfterEdit(data: string, alias: string, edit: Edit, order: seq<Keyword>)
    requires alias != "" && PatchOutcome(data, alias, edit).Success? && CleanEdit(edit)
    requires Addition(Blocks(data)[PatchOutcome(data, alias, edit).value], edit, order)
    ensures var k := PatchOutcome(data, alias, edit).value;
      var result := Patched(data, alias, edit, order);
      && Preamble(result) == Preamble(data)
      && Blocks(result) == Blocks(data)[k := EditedBlock(Blocks(data)[k], alias, edit, order, NewlineOf(data))]
  {
    var k := PatchOutcome(data, alias, edit).value;
    assert ValidAlias(NewAlias(alias, edit));
    hide IsHeader, HeadAlias, Blocks, Preamble, Before, After, EditedBlock, Addition, CleanEdit, PatchedBlock, ValidAlias, Ambiguous, Target, Proper, AllTerminated;
    var b, newline := Blocks(data)[k], NewlineOf(data);
    NewlineForms(data);
    BlockIsProper(data, k);
    EditedBlockIsBlock(b, alias, edit, order, newline);
    EditedBlockText(b, alias, edit, order, newline);
    ReplaceBlock(data, k, EditedBlock(b, alias, edit, order, newline));
  }
}
