/** When an edit reads back exactly as asked. */
module SshEdited {
  import opened Common
  import opened SshText
  import opened SshParse
  import opened SshDefinition
  import opened SshPatch
  import opened SshScan
  import opened SshLines
  import opened SshEffect
  import opened SshReadBack

  // ---- A line that others can follow ----

  predicate Follows(line: string) {
    Terminated(line) || Blank(line)
  }

  predicate LineReady(line: string, ids: Option<seq<string>>) {
    Follows(line) || (ids.Some? && IsManagedLine(line))
  }

  /** Lines can be added at the end of the block. */
  predicate InsertionReady(b: RawBlock, ids: Option<seq<string>>) {
    var lines := BlockLines(b);
    LineReady(lines[|lines| - 1], ids)
  }

  lemma TerminatedByEnding(line: string)
    ensures Terminated(line) <==> Ending(line) == "\n" || Ending(line) == "\r\n"
  {
    EndingForms(line);
    var e := Ending(line);
    if e != "" {
      assert line[|line| - 1] == e[|e| - 1];
    }
  }

  lemma BlankByContent(line: string)
    ensures Blank(line) ==> ScanLine(Content(line)) == None
    ensures Blank(line) ==> LineReading(line) == [] && LineKey(line) == None && !IsManagedLine(line)
  {
    if Blank(line) {
      SkippedSpace(line, 0);
      hide KeywordOf, Words, IsSpace;
      SkipSpaceIs(Content(line), 0, |Content(line)|);
    }
  }

  lemma EditedFollows(line: string, v: string)
    requires ScanLine(Content(line)).Some? && ScanLine(Content(line)).value.words != [] && CleanValue(v)
    ensures Follows(WithFirstWord(line, v)) <==> Follows(line)
  {
    hide ScanLine, WithFirstWord, KeywordOf, Leftover, Following, Content, CleanValue, Ending, Blank;
    EditedLineScans(line, v);
    TerminatedByEnding(line);
    TerminatedByEnding(WithFirstWord(line, v));
    BlankByContent(line);
    BlankByContent(WithFirstWord(line, v));
  }

  ghost predicate LastFollows(lines: seq<string>) {
    lines == [] || Follows(lines[|lines| - 1])
  }

  lemma EndingFollows(line: string)
    ensures Ending(line) == "" || Follows(Ending(line))
  {
    EndingForms(line);
    TerminatedByEnding(line);
    if Ending(line) == "\r" {
      assert IsSpace('\r');
      SkipSpaceIs("\r", 0, 1);
    }
  }

  lemma PatchLinesFollow(line: string, desired: map<Keyword, string>, ids: Option<seq<string>>, inserted: bool, newline: string)
    requires IsNewline(newline) && IdentityFile !in desired && LineLike(line)
    requires forall key :: key in desired ==> CleanValue(desired[key])
    requires ids.Some? ==> CleanNames(ids.value)
    ensures LastFollows(PatchLines(line, desired, ids, inserted, newline)) <==> LineReady(line, ids)
    ensures PatchLines(line, desired, ids, inserted, newline) == [] ==> ids.Some? && IsManagedLine(line)
  {
    hide PatchLine, ScanLine, IsManagedLine, CleanValue, KeywordOf, WithFirstWord, IdentityLines, Ending, Terminated, Blank, LineLike;
    if IsManagedLine(line) && ids.Some? {
      IdentityLinesAreLines(ids.value, newline);
      EndingFollows(line);
    } else {
      OtherPatch(line, desired, ids, inserted, newline);
      if EditsLine(line, desired) {
        EditedFollows(line, desired[Key(ScanLine(Content(line)).value)]);
      }
    }
  }

  lemma {:induction false} EditedBodyFollows(lines: seq<string>, desired: map<Keyword, string>, ids: Option<seq<string>>, inserted: bool, newline: string)
    requires IsNewline(newline) && IdentityFile !in desired && Proper(lines) && lines != []
    requires forall key :: key in desired ==> CleanValue(desired[key])
    requires ids.Some? ==> CleanNames(ids.value)
    ensures LastFollows(EditedBody(lines, desired, ids, inserted, newline)) <==> LineReady(lines[|lines| - 1], ids)
    ensures EditedBody(lines, desired, ids, inserted, newline) == [] ==> LineReady(lines[|lines| - 1], ids)
  {
    hide PatchLines, IsManagedLine, CleanValue, CleanNames, LineLike, Terminated, Blank, Follows, LineReady;
    var line, rest := lines[0], lines[1..];
    var inserted' := inserted || (ids.Some? && IsManagedLine(line));
    ProperTail(lines);
    PatchLinesFollow(line, desired, ids, inserted, newline);
    ReadyManaged(line, ids);
    var a, b := PatchLines(line, desired, ids, inserted, newline), EditedBody(rest, desired, ids, inserted', newline);
    if rest == [] {
      assert b == [] && a + b == a;
    } else {
      EditedBodyFollows(rest, desired, ids, inserted', newline);
      PatchLinesAreLines(line, desired, ids, inserted, newline);
      if b == [] {
        assert a + b == a;
        TerminatedFollows(line, ids);
      } else {
        assert (a + b)[|a + b| - 1] == b[|b| - 1];
      }
    }
  }

  lemma TerminatedFollows(line: string, ids: Option<seq<string>>)
    requires Terminated(line)
    ensures LineReady(line, ids)
  {}

  lemma ReadyManaged(line: string, ids: Option<seq<string>>)
    ensures ids.Some? && IsManagedLine(line) ==> LineReady(line, ids)
  {}

  /** The edited lines can be followed exactly when the block could, or ended in a replaced identity line. */
  lemma EditedLinesFollow(b: RawBlock, alias: string, edit: Edit, newline: string)
    requires IsHeader(b.head) && HeadAlias(b.head) == alias && alias != ""
    requires Proper(BlockLines(b)) && ValidAlias(NewAlias(alias, edit)) && CleanEdit(edit) && IsNewline(newline)
    ensures LastFollows(EditedLines(b, alias, edit, newline)) <==> InsertionReady(b, edit.identityFileNames)
  {
    hide IsHeader, HeadAlias, PatchHead, EditedBody, ValidAlias, Desired, CleanValue, Proper, LineReady, Follows, CleanNames, IsManagedLine;
    DesiredKeys(edit);
    var ids := edit.identityFileNames;
    var head, body := PatchHead(b.head, alias, NewAlias(alias, edit)), EditedBody(b.body, Desired(edit), ids, false, newline);
    var lines := BlockLines(b);
    ProperTail(lines);
    assert lines[1..] == b.body;
    HeadFollows(b.head, alias, NewAlias(alias, edit), ids);
    if b.body == [] {
      NothingEdited(Desired(edit), ids, newline);
      assert body == [] && EditedLines(b, alias, edit, newline) == [head];
    } else {
      assert lines[|lines| - 1] == b.body[|b.body| - 1];
      EditedBodyFollows(b.body, Desired(edit), ids, false, newline);
      TerminatedFollows(b.head, ids);
    }
  }

  lemma HeadFollows(head: string, alias: string, newAlias: string, ids: Option<seq<string>>)
    requires IsHeader(head) && HeadAlias(head) == alias && alias != ""
    requires newAlias == alias || ValidAlias(newAlias)
    ensures Follows(PatchHead(head, alias, newAlias)) <==> LineReady(head, ids)
  {
    hide ScanLine, WithFirstWord, KeywordOf, Follows, ValidAlias, CleanValue;
    if newAlias != alias {
      CleanAlias(newAlias);
      EditedFollows(head, newAlias);
    }
  }

  // ---- Joining to a line that can be followed ----

  lemma BlankJoinReads(line: string, added: string, newline: string)
    requires Blank(line) && IsRendered(added, newline) && IsNewline(newline)
    ensures LineReading(line + added) == LineReading(added) && LineReading(line) == []
  {
    hide RenderDirective, CleanValue, LineReading, LineKey, Blank;
    var key, v :| Supported(key) && CleanValue(v) && added == RenderDirective(key, v, newline);
    RenderedScans(key, v, newline);
    JoinedToBlank(line, key, v, newline);
    BlankByContent(line);
  }

  lemma JoinReads(head: string, body: seq<string>, added: seq<string>, newline: string)
    requires IsHeader(head) && IsNewline(newline) && AllRendered(added, newline)
    requires added != [] ==> LastFollows([head] + body)
    ensures var joined := Join([head] + body, added);
      joined[0] == head && Readings(joined[1..]) == Readings(body) + Readings(added)
  {
    hide Terminated, IsHeader, IsRendered, LineReading, Blank;
    var lines := [head] + body;
    var n := |lines| - 1;
    var joined := Join(lines, added);
    if added == [] || Terminated(lines[n]) {
      assert joined[1..] == body + added;
      ReadingsAppend(body, added);
    } else {
      HeaderNotBlank(head);
      assert body != [] && Blank(body[n - 1]);
      assert IsRendered(added[0], newline);
      var init, last := body[..n - 1], body[n - 1];
      assert body == init + [last] && added == [added[0]] + added[1..];
      BlankJoinReads(last, added[0], newline);
      assert joined[1..] == init + [last + added[0]] + added[1..];
      ReadingsThree(init, [last + added[0]], added[1..]);
      OneLineReads(last + added[0]);
      OneLineReads(last);
      OneLineReads(added[0]);
      ReadingsAppend(init, [last]);
      ReadingsAppend([added[0]], added[1..]);
      JoinedReadings(Readings(init), LineReading(added[0]), Readings(added[1..]));
    }
  }

  lemma JoinedReadings<T>(a: seq<T>, b: seq<T>, c: seq<T>)
    ensures a + b + c == a + [] + (b + c)
  {}

  lemma ReadingsThree(a: seq<string>, b: seq<string>, c: seq<string>)
    ensures Readings(a + b + c) == Readings(a) + Readings(b) + Readings(c)
  {
    ReadingsAppend(a + b, c);
    ReadingsAppend(a, b);
  }

  // ---- What an edited block reads as ----

  /** The edit adds lines to the block. */
  ghost predicate NeedsMore(b: RawBlock, edit: Edit) {
    || MissingKeys(b.body, Desired(edit)) != {}
    || (edit.identityFileNames.Some? && edit.identityFileNames.value != [] && !HasManaged(b.body))
  }

  lemma MoreNeeded(b: RawBlock, edit: Edit, order: seq<Keyword>, newline: string)
    requires Addition(b, edit, order)
    ensures MoreLines(b, edit, order, newline) != [] <==> NeedsMore(b, edit)
  {
    hide HasManaged, RenderDirective, Desired;
    AdditionIsDesired(b, edit, order);
    var missing := MissingKeys(b.body, Desired(edit));
    if order == [] {
      assert missing == {};
    } else {
      assert order[0] in missing;
    }
  }

  ghost predicate Ready(b: RawBlock, edit: Edit) {
    NeedsMore(b, edit) ==> InsertionReady(b, edit.identityFileNames)
  }

  /** The readings of a block whose edit has room for the added lines. */
  lemma EditedBlockReads(b: RawBlock, alias: string, edit: Edit, order: seq<Keyword>, newline: string)
    requires IsHeader(b.head) && HeadAlias(b.head) == alias && alias != ""
    requires Proper(BlockLines(b)) && NoHeader(b.body)
    requires ValidAlias(NewAlias(alias, edit)) && CleanEdit(edit) && IsNewline(newline)
    requires Addition(b, edit, order) && Ready(b, edit)
    ensures var e := EditedBlock(b, alias, edit, order, newline);
      && e.head == PatchHead(b.head, alias, NewAlias(alias, edit))
      && Readings(e.body) == EditedReadings(b.body, Desired(edit), edit.identityFileNames, false)
                             + Readings(MoreLines(b, edit, order, newline))
  {
    hide IsHeader, HeadAlias, PatchHead, EditedBody, MoreLines, ValidAlias, Desired, CleanValue, CleanNames, Proper, Join, NeedsMore,
         InsertionReady, AllRendered, EditedReadings, Addition, Readings;
    DesiredKeys(edit);
    var ids := edit.identityFileNames;
    var head, body := PatchHead(b.head, alias, NewAlias(alias, edit)), EditedBody(b.body, Desired(edit), ids, false, newline);
    var more := MoreLines(b, edit, order, newline);
    EditedLinesAreProper(b, alias, edit, newline);
    MoreLinesRendered(b, edit, order, newline);
    MoreNeeded(b, edit, order, newline);
    EditedLinesFollow(b, alias, edit, newline);
    EditedBodyReads(b.body, Desired(edit), ids, false, newline);
    JoinReads(head, body, more, newline);
  }

  /** What a wanted key, the identity files and any other key read as. */
  lemma EditedValues(b: RawBlock, edit: Edit, order: seq<Keyword>, newline: string, rs: seq<Reading>)
    requires Addition(b, edit, order) && CleanEdit(edit) && IsNewline(newline) && !Ambiguous(b.body)
    requires rs == EditedReadings(b.body, Desired(edit), edit.identityFileNames, false) + Readings(MoreLines(b, edit, order, newline))
    ensures forall key :: key in Desired(edit) ==> (Values(rs, key) == [Desired(edit)[key]] <==> PlainKey(b.body, key))
    ensures edit.identityFileNames.Some? ==>
      Values(rs, IdentityFile) == AskedIdentities(Values(Readings(b.body), IdentityFile), IdentityValues(edit.identityFileNames.value))
    ensures forall key :: key !in Desired(edit) && !(key == IdentityFile && edit.identityFileNames.Some?) ==>
      Values(rs, key) == Values(Readings(b.body), key)
  {
    hide EditedReadings, MoreLines, CleanEdit, Addition, PlainKey, Ambiguous, IdentityValues, AskedIdentities, Desired, IsNewline, Values, Readings;
    var desired := Desired(edit);
    forall key | key in desired ensures Values(rs, key) == [desired[key]] <==> PlainKey(b.body, key) {
      WantedValue(b, edit, order, newline, rs, key);
    }
    forall key | key !in desired && key != IdentityFile ensures Values(rs, key) == Values(Readings(b.body), key) {
      UnwantedValue(b, edit, order, newline, rs, key);
    }
    IdentitiesValue(b, edit, order, newline, rs);
  }

  function AskedIdentities(values: seq<string>, wanted: seq<string>): seq<string> {
    if AnyManaged(values) then ReplaceManaged(values, wanted, false) else values + wanted
  }

  /** The values an edit adds at the end of the block. */
  lemma MoreValues(b: RawBlock, edit: Edit, order: seq<Keyword>, newline: string, key: Keyword)
    requires Addition(b, edit, order) && CleanEdit(edit) && IsNewline(newline)
    ensures var values := Values(Readings(MoreLines(b, edit, order, newline)), key);
      && (key in Desired(edit) ==> values == if Mentions(b.body, key) then [] else [Desired(edit)[key]])
      && (key !in Desired(edit) && key != IdentityFile ==> values == [])
      && (key == IdentityFile ==> values == if edit.identityFileNames.Some? && !HasManaged(b.body)
                                            then IdentityValues(edit.identityFileNames.value) else [])
  {
    MoreReads(b, edit, order, newline);
    OrderIsMissing(b, edit, order, key);
    DesiredKeys(edit);
    hide HasManaged, Desired, MoreLines, Mentions, IdentityReadings, KeyReadings, Addition, CleanEdit, Readings;
    var identities := if edit.identityFileNames.Some? && !HasManaged(b.body) then IdentityReadings(edit.identityFileNames.value) else [];
    ValuesAppend(KeyReadings(order, Desired(edit)), identities, key);
    KeyReadingsValues(order, Desired(edit), key);
    if edit.identityFileNames.Some? {
      IdentityReadingsValues(edit.identityFileNames.value, key);
    }
  }

  lemma OrderIsMissing(b: RawBlock, edit: Edit, order: seq<Keyword>, key: Keyword)
    requires Addition(b, edit, order)
    ensures key in order <==> key in Desired(edit) && !Mentions(b.body, key)
    ensures forall i, j :: 0 <= i < j < |order| ==> order[i] != order[j]
  {
    hide Desired, Mentions;
    assert key in order <==> key in MissingKeys(b.body, Desired(edit));
  }

  lemma {:induction false} OccursIfMentioned(lines: seq<string>, key: Keyword)
    ensures Occurrences(lines, key) > 0 <==> Mentions(lines, key)
  {
    hide LineKey;
    if lines != [] {
      OccursIfMentioned(lines[1..], key);
      assert forall i :: 0 < i < |lines| ==> lines[i] == lines[1..][i - 1];
      assert forall i :: 0 <= i < |lines[1..]| ==> lines[1..][i] == lines[i + 1];
    }
  }

  lemma WantedValue(b: RawBlock, edit: Edit, order: seq<Keyword>, newline: string, rs: seq<Reading>, key: Keyword)
    requires Addition(b, edit, order) && CleanEdit(edit) && IsNewline(newline) && !Ambiguous(b.body)
    requires rs == EditedReadings(b.body, Desired(edit), edit.identityFileNames, false) + Readings(MoreLines(b, edit, order, newline))
    requires key in Desired(edit)
    ensures Values(rs, key) == [Desired(edit)[key]] <==> PlainKey(b.body, key)
  {
    DesiredKeys(edit);
    assert Occurrences(b.body, key) <= 1;
    hide EditedReadings, MoreLines, CleanEdit, Addition, PlainKey, Ambiguous, Desired, Values, Readings, Mentions, Occurrences;
    var desired, ids := Desired(edit), edit.identityFileNames;
    var first, more := EditedReadings(b.body, desired, ids, false), Readings(MoreLines(b, edit, order, newline));
    ValuesAppend(first, more, key);
    MoreValues(b, edit, order, newline, key);
    OccursIfMentioned(b.body, key);
    if Occurrences(b.body, key) == 1 {
      MentionedValues(b.body, desired, ids, false, key);
      assert Values(first, key) + [] == Values(first, key);
    } else {
      UnmentionedValues(b.body, desired, ids, false, key);
      NotMentioned(b.body, key);
    }
  }

  lemma UnwantedValue(b: RawBlock, edit: Edit, order: seq<Keyword>, newline: string, rs: seq<Reading>, key: Keyword)
    requires Addition(b, edit, order) && CleanEdit(edit) && IsNewline(newline)
    requires rs == EditedReadings(b.body, Desired(edit), edit.identityFileNames, false) + Readings(MoreLines(b, edit, order, newline))
    requires key !in Desired(edit) && key != IdentityFile
    ensures Values(rs, key) == Values(Readings(b.body), key)
  {
    hide EditedReadings, MoreLines, CleanEdit, Addition, Desired, Values, Readings;
    var first := EditedReadings(b.body, Desired(edit), edit.identityFileNames, false);
    ValuesAppend(first, Readings(MoreLines(b, edit, order, newline)), key);
    MoreValues(b, edit, order, newline, key);
    OtherValues(b.body, Desired(edit), edit.identityFileNames, false, key);
    assert Values(first, key) + [] == Values(first, key);
  }

  lemma IdentitiesValue(b: RawBlock, edit: Edit, order: seq<Keyword>, newline: string, rs: seq<Reading>)
    requires Addition(b, edit, order) && CleanEdit(edit) && IsNewline(newline)
    requires rs == EditedReadings(b.body, Desired(edit), edit.identityFileNames, false) + Readings(MoreLines(b, edit, order, newline))
    ensures var values, ids := Values(Readings(b.body), IdentityFile), edit.identityFileNames;
      Values(rs, IdentityFile) == if ids.None? then values else AskedIdentities(values, IdentityValues(ids.value))
  {
    DesiredKeys(edit);
    hide EditedReadings, MoreLines, CleanEdit, Addition, Desired, Values, Readings, HasManaged, AnyManaged, IdentityValues, ReplaceManaged;
    var desired, ids := Desired(edit), edit.identityFileNames;
    var first := EditedReadings(b.body, desired, ids, false);
    var values := Values(Readings(b.body), IdentityFile);
    ValuesAppend(first, Readings(MoreLines(b, edit, order, newline)), IdentityFile);
    MoreValues(b, edit, order, newline, IdentityFile);
    EditedIdentityValues(b.body, desired, ids, false);
    ManagedValues(b.body);
    assert Values(first, IdentityFile) + [] == Values(first, IdentityFile);
    if ids.Some? && !AnyManaged(values) {
      NothingReplaced(values, IdentityValues(ids.value), false);
    }
  }

  lemma {:induction false} NothingReplaced(values: seq<string>, wanted: seq<string>, inserted: bool)
    requires !AnyManaged(values)
    ensures ReplaceManaged(values, wanted, inserted) == values
  {
    hide ManagedIdentity;
    if values != [] {
      assert forall i :: 0 <= i < |values[1..]| ==> values[1..][i] == values[i + 1];
      NothingReplaced(values[1..], wanted, inserted);
    }
  }
}
