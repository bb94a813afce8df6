/** What an edited block means when the file is read again. */
module SshReadBack {
  import opened Common
  import opened SshText
  import opened SshParse
  import opened SshDefinition
  import opened SshPatch
  import opened SshScan
  import opened SshLines
  import opened SshEffect

  // ---- Readings of the edited lines ----

  function IdentityReadings(names: seq<string>): seq<Reading> {
    if names == [] then [] else [Reading(IdentityFile, KEY_DIR + names[0])] + IdentityReadings(names[1..])
  }

  function KeyReadings(keys: seq<Keyword>, desired: map<Keyword, string>): seq<Reading>
    requires forall i :: 0 <= i < |keys| ==> keys[i] in desired
  {
    if keys == [] then [] else [Reading(keys[0], desired[keys[0]])] + KeyReadings(keys[1..], desired)
  }

  lemma ScanWords(line: string)
    ensures var d := ScanLine(Content(line));
      d.Some? && d.value.words != [] ==> |d.value.words[0]| <= |d.value.value|
  {
    hide Words;
    var d := ScanLine(Content(line));
    if d.Some? && d.value.words != [] {
      FirstWordFits(d.value.value);
    }
  }

  /** A line with a wanted key has the wanted value, followed by what the old text leaves. */
  function EditedReading(line: string, desired: map<Keyword, string>): seq<Reading> {
    ScanWords(line);
    var d := ScanLine(Content(line));
    if d.Some? && Key(d.value) in desired && d.value.words != []
    then [Reading(Key(d.value), desired[Key(d.value)] + Leftover(d.value))]
    else LineReading(line)
  }

  function EditedReadings(lines: seq<string>, desired: map<Keyword, string>, ids: Option<seq<string>>, inserted: bool): seq<Reading> {
    if lines == [] then []
    else
      (if IsManagedLine(lines[0]) && ids.Some?
       then if inserted then [] else IdentityReadings(ids.value)
       else EditedReading(lines[0], desired))
      + EditedReadings(lines[1..], desired, ids, inserted || (ids.Some? && IsManagedLine(lines[0])))
  }

  lemma {:induction false} IdentityLinesRead(names: seq<string>, newline: string)
    requires CleanNames(names) && IsNewline(newline)
    ensures Readings(IdentityLines(names, newline)) == IdentityReadings(names)
  {
    hide RenderDirective, CleanValue, AllPlain, LineReading;
    if names != [] {
      CleanIdentity(names[0]);
      RenderedScans(IdentityFile, KEY_DIR + names[0], newline);
      IdentityLinesRead(names[1..], newline);
    }
  }

  lemma {:induction false} KeyLinesRead(keys: seq<Keyword>, desired: map<Keyword, string>, newline: string)
    requires forall i :: 0 <= i < |keys| ==> keys[i] in desired && Supported(keys[i])
    requires (forall key :: key in desired ==> CleanValue(desired[key])) && IsNewline(newline)
    ensures Readings(KeyLines(keys, desired, newline)) == KeyReadings(keys, desired)
  {
    hide RenderDirective, CleanValue, LineReading;
    if keys != [] {
      RenderedScans(keys[0], desired[keys[0]], newline);
      KeyLinesRead(keys[1..], desired, newline);
    }
  }

  lemma OneLineReads(line: string)
    ensures Readings([line]) == LineReading(line)
  {
    hide LineReading;
    assert [line][1..] == [];
    assert LineReading(line) + [] == LineReading(line);
  }

  lemma EditedLineReads(line: string, desired: map<Keyword, string>)
    requires EditsLine(line, desired)
    requires CleanValue(desired[Key(ScanLine(Content(line)).value)])
    ensures LineReading(WithFirstWord(line, desired[Key(ScanLine(Content(line)).value)])) == EditedReading(line, desired)
  {
    hide ScanLine, WithFirstWord, KeywordOf, Leftover, Following, Content, CleanValue;
    EditedLineScans(line, desired[Key(ScanLine(Content(line)).value)]);
  }

  lemma KeptLineReads(line: string, desired: map<Keyword, string>)
    requires !EditsLine(line, desired)
    ensures EditedReading(line, desired) == LineReading(line)
  {
    hide ScanLine, KeywordOf, Leftover;
  }

  lemma PatchLinesRead(line: string, desired: map<Keyword, string>, ids: Option<seq<string>>, inserted: bool, newline: string)
    requires IsNewline(newline) && IdentityFile !in desired
    requires forall key :: key in desired ==> CleanValue(desired[key])
    requires ids.Some? ==> CleanNames(ids.value)
    ensures Readings(PatchLines(line, desired, ids, inserted, newline))
         == if IsManagedLine(line) && ids.Some? then (if inserted then [] else IdentityReadings(ids.value)) else EditedReading(line, desired)
  {
    hide PatchLine, ScanLine, IsManagedLine, CleanValue, KeywordOf, WithFirstWord, IdentityLines, LineReading, Ending, EditedReading, IsHeader, LineKey;
    if IsManagedLine(line) && ids.Some? {
      IdentityLinesRead(ids.value, newline);
      EndingIsBlank(line);
      OneLineReads(Ending(line));
      var first := if inserted then [] else IdentityLines(ids.value, newline);
      var last := if Ending(line) == "" then [] else [Ending(line)];
      ReadingsAppend(first, last);
    } else {
      OtherPatch(line, desired, ids, inserted, newline);
      OneLineReads(PatchLine(line, desired, ids, inserted, newline));
      if EditsLine(line, desired) {
        EditedLineReads(line, desired);
      } else {
        KeptLineReads(line, desired);
      }
    }
  }

  lemma {:induction false} EditedBodyReads(lines: seq<string>, desired: map<Keyword, string>, ids: Option<seq<string>>, inserted: bool, newline: string)
    requires IsNewline(newline) && IdentityFile !in desired
    requires forall key :: key in desired ==> CleanValue(desired[key])
    requires ids.Some? ==> CleanNames(ids.value)
    ensures Readings(EditedBody(lines, desired, ids, inserted, newline)) == EditedReadings(lines, desired, ids, inserted)
  {
    hide PatchLines, IsManagedLine, CleanValue, CleanNames, EditedReading, LineReading;
    if lines != [] {
      var inserted' := inserted || (ids.Some? && IsManagedLine(lines[0]));
      PatchLinesRead(lines[0], desired, ids, inserted, newline);
      EditedBodyReads(lines[1..], desired, ids, inserted', newline);
      ReadingsAppend(PatchLines(lines[0], desired, ids, inserted, newline), EditedBody(lines[1..], desired, ids, inserted', newline));
    }
  }

  // ---- The values of the edited readings ----

  lemma {:induction false} IdentityReadingsValues(names: seq<string>, key: Keyword)
    ensures key != IdentityFile ==> Values(IdentityReadings(names), key) == []
  {
    if names != [] {
      IdentityReadingsValues(names[1..], key);
    }
  }

  lemma ReadingKey(line: string, desired: map<Keyword, string>)
    ensures LineReading(line) != [] ==> LineKey(line) == Some(LineReading(line)[0].key) && |LineReading(line)| == 1
    ensures EditedReading(line, desired) != [] ==> LineKey(line) == Some(EditedReading(line, desired)[0].key) && |EditedReading(line, desired)| == 1
    ensures LineReading(line) == [] <==> EditedReading(line, desired) == []
    ensures LineKey(line).None? || LineKey(line).value !in desired ==> EditedReading(line, desired) == LineReading(line)
  {
    hide ScanLine, KeywordOf, Leftover;
  }

  lemma OneValue(r: seq<Reading>, key: Keyword)
    requires |r| <= 1
    ensures Values(r, key) == if r != [] && r[0].key == key then [r[0].value] else []
  {
    if r != [] {
      assert r[1..] == [];
      assert Values(r[1..], key) == [];
    }
  }

  lemma ManagedLineReads(line: string)
    requires IsManagedLine(line)
    ensures LineKey(line) == Some(IdentityFile)
    ensures |LineReading(line)| == 1 && LineReading(line)[0].key == IdentityFile && ManagedIdentity(LineReading(line)[0].value).Some?
  {
    hide ScanLine, KeywordOf, ManagedIdentity;
  }

  lemma UnmanagedLineReads(line: string)
    requires !IsManagedLine(line)
    ensures LineReading(line) != [] && LineReading(line)[0].key == IdentityFile ==> ManagedIdentity(LineReading(line)[0].value).None?
  {
    hide ScanLine, KeywordOf, ManagedIdentity;
  }

  /** Values of a key the edit does not name. */
  lemma {:induction false} OtherValues(lines: seq<string>, desired: map<Keyword, string>, ids: Option<seq<string>>, inserted: bool, key: Keyword)
    requires key !in desired && key != IdentityFile
    ensures Values(EditedReadings(lines, desired, ids, inserted), key) == Values(Readings(lines), key)
  {
    hide IsManagedLine, EditedReading, LineReading, LineKey, ManagedIdentity;
    if lines != [] {
      var line, rest := lines[0], lines[1..];
      var inserted' := inserted || (ids.Some? && IsManagedLine(line));
      OtherValues(rest, desired, ids, inserted', key);
      OtherLineValue(line, desired, ids, inserted, key);
      ValuesAppend(LineReading(line), Readings(rest), key);
      ValuesAppend(NewReading(line, desired, ids, inserted), EditedReadings(rest, desired, ids, inserted'), key);
    }
  }

  function NewReading(line: string, desired: map<Keyword, string>, ids: Option<seq<string>>, inserted: bool): seq<Reading> {
    if IsManagedLine(line) && ids.Some?
    then if inserted then [] else IdentityReadings(ids.value)
    else EditedReading(line, desired)
  }

  lemma OtherLineValue(line: string, desired: map<Keyword, string>, ids: Option<seq<string>>, inserted: bool, key: Keyword)
    requires key !in desired && key != IdentityFile
    ensures Values(NewReading(line, desired, ids, inserted), key) == Values(LineReading(line), key)
  {
    hide IsManagedLine, EditedReading, LineReading, LineKey, ManagedIdentity;
    ReadingKey(line, desired);
    OneValue(LineReading(line), key);
    OneValue(EditedReading(line, desired), key);
    if IsManagedLine(line) && ids.Some? {
      ManagedLineReads(line);
      IdentityReadingsValues(ids.value, key);
    }
  }

  /** The directive is written so that a value put in place of its first word stands alone. */
  predicate PlainLine(line: string) {
    ScanWords(line);
    var d := ScanLine(Content(line));
    d.Some? && d.value.words != [] && Silent(d.value.value[|d.value.words[0]|..])
  }

  ghost predicate PlainKey(lines: seq<string>, key: Keyword) {
    forall i :: 0 <= i < |lines| && LineKey(lines[i]) == Some(key) ==> PlainLine(lines[i])
  }

  lemma {:induction false} UnmentionedValues(lines: seq<string>, desired: map<Keyword, string>, ids: Option<seq<string>>, inserted: bool, key: Keyword)
    requires Occurrences(lines, key) == 0 && key != IdentityFile
    ensures Values(EditedReadings(lines, desired, ids, inserted), key) == []
    ensures !Mentions(lines, key)
  {
    hide IsManagedLine, EditedReading, LineReading, LineKey, ManagedIdentity;
    if lines != [] {
      var line, rest := lines[0], lines[1..];
      var inserted' := inserted || (ids.Some? && IsManagedLine(line));
      assert EditedReadings(lines, desired, ids, inserted) == NewReading(line, desired, ids, inserted) + EditedReadings(rest, desired, ids, inserted');
      assert Mentions(lines, key) ==> LineKey(line) == Some(key) || Mentions(rest, key) by {
        assert forall i :: 0 < i < |lines| ==> lines[i] == rest[i - 1];
      }
      hide EditedReadings, NewReading, Values, Mentions;
      UnmentionedValues(rest, desired, ids, inserted', key);
      LineValue(line, desired, ids, inserted, key);
      ValuesAppend(NewReading(line, desired, ids, inserted), EditedReadings(rest, desired, ids, inserted'), key);
    }
  }

  lemma LineValue(line: string, desired: map<Keyword, string>, ids: Option<seq<string>>, inserted: bool, key: Keyword)
    requires key != IdentityFile
    ensures LineKey(line) != Some(key) ==> Values(NewReading(line, desired, ids, inserted), key) == []
    ensures LineKey(line) == Some(key) && key in desired ==>
      (Values(NewReading(line, desired, ids, inserted), key) == [desired[key]] <==> PlainLine(line))
  {
    hide IsManagedLine, EditedReading, LineReading, LineKey, ManagedIdentity, PlainLine;
    ReadingKey(line, desired);
    OneValue(EditedReading(line, desired), key);
    if IsManagedLine(line) && ids.Some? {
      ManagedLineReads(line);
      IdentityReadingsValues(ids.value, key);
    } else if LineKey(line) == Some(key) && key in desired {
      WantedReading(line, desired, key);
    }
  }

  lemma WantedReading(line: string, desired: map<Keyword, string>, key: Keyword)
    requires LineKey(line) == Some(key) && key in desired
    ensures EditedReading(line, desired) == [Reading(key, desired[key])] <==> PlainLine(line)
  {
    hide ScanLine, KeywordOf, Extension, Silent;
    ScanWords(line);
    var d := ScanLine(Content(line)).value;
    if d.words != [] {
      NothingLeftIff(d.value[|d.words[0]|..]);
    }
    if d.words != [] && desired[key] + Leftover(d) == desired[key] {
      assert |Leftover(d)| == 0;
    }
    if d.words != [] && Leftover(d) == "" {
      assert desired[key] + "" == desired[key];
    }
  }

  lemma PlainKeySplit(lines: seq<string>, key: Keyword)
    requires lines != []
    ensures PlainKey(lines, key) <==> (LineKey(lines[0]) == Some(key) ==> PlainLine(lines[0])) && PlainKey(lines[1..], key)
    ensures Mentions(lines, key) <==> LineKey(lines[0]) == Some(key) || Mentions(lines[1..], key)
  {
    hide LineKey, PlainLine;
    var rest := lines[1..];
    assert forall i :: 0 < i < |lines| ==> lines[i] == rest[i - 1];
    assert forall i :: 0 <= i < |rest| ==> rest[i] == lines[i + 1];
  }

  lemma EditedSplit(lines: seq<string>, desired: map<Keyword, string>, ids: Option<seq<string>>, inserted: bool, key: Keyword)
    requires lines != []
    ensures Values(EditedReadings(lines, desired, ids, inserted), key)
         == Values(NewReading(lines[0], desired, ids, inserted), key)
            + Values(EditedReadings(lines[1..], desired, ids, inserted || (ids.Some? && IsManagedLine(lines[0]))), key)
    ensures Values(Readings(lines), key) == Values(LineReading(lines[0]), key) + Values(Readings(lines[1..]), key)
  {
    hide IsManagedLine, EditedReading, LineReading, Values;
    var inserted' := inserted || (ids.Some? && IsManagedLine(lines[0]));
    ValuesAppend(NewReading(lines[0], desired, ids, inserted), EditedReadings(lines[1..], desired, ids, inserted'), key);
    ValuesAppend(LineReading(lines[0]), Readings(lines[1..]), key);
  }

  lemma {:induction false} NotMentioned(lines: seq<string>, key: Keyword)
    requires !Mentions(lines, key)
    ensures PlainKey(lines, key)
  {
    hide LineKey, PlainLine;
  }

  /** The one directive of a wanted key reads back the wanted value exactly when it is plainly written. */
  lemma {:induction false} MentionedValues(lines: seq<string>, desired: map<Keyword, string>, ids: Option<seq<string>>, inserted: bool, key: Keyword)
    requires Occurrences(lines, key) == 1 && key in desired && key != IdentityFile
    ensures Values(EditedReadings(lines, desired, ids, inserted), key) == [desired[key]] <==> PlainKey(lines, key)
    ensures Mentions(lines, key)
  {
    hide IsManagedLine, EditedReadings, NewReading, LineKey, PlainLine, PlainKey, Mentions, Values;
    var line, rest := lines[0], lines[1..];
    var inserted' := inserted || (ids.Some? && IsManagedLine(line));
    LineValue(line, desired, ids, inserted, key);
    EditedSplit(lines, desired, ids, inserted, key);
    PlainKeySplit(lines, key);
    if LineKey(line) == Some(key) {
      UnmentionedValues(rest, desired, ids, inserted', key);
      NotMentioned(rest, key);
      assert Values(NewReading(line, desired, ids, inserted), key) + [] == Values(NewReading(line, desired, ids, inserted), key);
    } else {
      MentionedValues(rest, desired, ids, inserted', key);
      assert [] + Values(EditedReadings(rest, desired, ids, inserted'), key) == Values(EditedReadings(rest, desired, ids, inserted'), key);
    }
  }

  // ---- Identity files ----

  /** Managed values make room for the new ones at the first of them; the others stay in order. */
  function ReplaceManaged(values: seq<string>, wanted: seq<string>, inserted: bool): seq<string> {
    if values == [] then []
    else if ManagedIdentity(values[0]).Some? then (if inserted then [] else wanted) + ReplaceManaged(values[1..], wanted, true)
    else [values[0]] + ReplaceManaged(values[1..], wanted, inserted)
  }

  predicate AnyManaged(values: seq<string>) {
    exists i :: 0 <= i < |values| && ManagedIdentity(values[i]).Some?
  }

  function IdentityValues(names: seq<string>): seq<string> {
    Values(IdentityReadings(names), IdentityFile)
  }

  lemma ReplaceOne(value: string, rest: seq<string>, wanted: seq<string>, inserted: bool)
    ensures ReplaceManaged([value] + rest, wanted, inserted)
         == if ManagedIdentity(value).Some? then (if inserted then [] else wanted) + ReplaceManaged(rest, wanted, true)
            else [value] + ReplaceManaged(rest, wanted, inserted)
    ensures AnyManaged([value] + rest) <==> ManagedIdentity(value).Some? || AnyManaged(rest)
  {
    hide ManagedIdentity;
    assert ([value] + rest)[1..] == rest;
    assert forall i :: 0 <= i < |rest| ==> ([value] + rest)[i + 1] == rest[i];
    if AnyManaged(rest) {
      var i :| 0 <= i < |rest| && ManagedIdentity(rest[i]).Some?;
      assert ([value] + rest)[i + 1] == rest[i];
    }
    if ManagedIdentity(value).Some? {
      assert ([value] + rest)[0] == value;
    }
  }

  lemma {:induction false} EditedIdentityValues(lines: seq<string>, desired: map<Keyword, string>, ids: Option<seq<string>>, inserted: bool)
    requires IdentityFile !in desired
    ensures Values(EditedReadings(lines, desired, ids, inserted), IdentityFile)
         == (if ids.None? then Values(Readings(lines), IdentityFile)
             else ReplaceManaged(Values(Readings(lines), IdentityFile), IdentityValues(ids.value), inserted))
  {
    hide IsManagedLine, NewReading, EditedReading, LineReading, ManagedIdentity, IdentityReadings, IdentityValues, Values;
    if lines == [] {
      NoValues(IdentityFile);
    } else {
      var line, rest := lines[0], lines[1..];
      EditedIdentityValues(rest, desired, ids, inserted || (ids.Some? && IsManagedLine(line)));
      IdentityLineValue(line, desired, ids, inserted);
      EditedSplit(lines, desired, ids, inserted, IdentityFile);
      var here := Values(LineReading(line), IdentityFile);
      var values := Values(Readings(rest), IdentityFile);
      assert [] + values == values;
      if ids.Some? {
        if here != [] {
          assert here == [here[0]];
          ReplaceOne(here[0], values, IdentityValues(ids.value), inserted);
        } else {
          NothingBefore(ReplaceManaged(values, IdentityValues(ids.value), inserted));
        }
      }
    }
  }

  lemma NothingBefore(a: seq<string>)
    ensures [] + a == a
  {}

  lemma NoValues(key: Keyword)
    ensures Values([], key) == []
  {}

  lemma {:induction false} ManagedValues(lines: seq<string>)
    ensures HasManaged(lines) <==> AnyManaged(Values(Readings(lines), IdentityFile))
  {
    hide IsManagedLine, NewReading, LineReading, ManagedIdentity, Values, EditedReadings;
    if lines == [] {
      NoValues(IdentityFile);
    } else {
      var line, rest := lines[0], lines[1..];
      ManagedValues(rest);
      IdentityLineValue(line, map[], None, false);
      EditedSplit(lines, map[], None, false, IdentityFile);
      assert HasManaged(lines) <==> IsManagedLine(line) || HasManaged(rest) by {
        assert forall i :: 0 < i < |lines| ==> lines[i] == rest[i - 1];
        assert forall i :: 0 <= i < |rest| ==> rest[i] == lines[i + 1];
      }
      var here := Values(LineReading(line), IdentityFile);
      NothingBefore(Values(Readings(rest), IdentityFile));
      if here != [] {
        assert here == [here[0]];
        ReplaceOne(here[0], Values(Readings(rest), IdentityFile), [], false);
      }
    }
  }

  lemma IdentityLineValue(line: string, desired: map<Keyword, string>, ids: Option<seq<string>>, inserted: bool)
    requires IdentityFile !in desired
    ensures var here := Values(LineReading(line), IdentityFile);
      && |here| <= 1
      && (IsManagedLine(line) <==> here != [] && ManagedIdentity(here[0]).Some?)
      && Values(NewReading(line, desired, ids, inserted), IdentityFile)
         == if IsManagedLine(line) && ids.Some? then (if inserted then [] else IdentityValues(ids.value)) else here
  {
    hide IsManagedLine, EditedReading, LineReading, LineKey, ManagedIdentity, IdentityReadings;
    ReadingKey(line, desired);
    OneValue(LineReading(line), IdentityFile);
    OneValue(EditedReading(line, desired), IdentityFile);
    if IsManagedLine(line) {
      ManagedLineReads(line);
    } else {
      UnmanagedLineReads(line);
      if LineKey(line) != Some(IdentityFile) {
      } else {
        assert EditedReading(line, desired) == LineReading(line);
      }
    }
  }

  // ---- The added lines ----

  lemma {:induction false} KeyReadingsValues(keys: seq<Keyword>, desired: map<Keyword, string>, key: Keyword)
    requires forall i :: 0 <= i < |keys| ==> keys[i] in desired
    requires forall i, j :: 0 <= i < j < |keys| ==> keys[i] != keys[j]
    ensures Values(KeyReadings(keys, desired), key) == if key in keys then [desired[key]] else []
  {
    if keys != [] {
      KeyReadingsValues(keys[1..], desired, key);
    }
  }

  lemma MoreReads(b: RawBlock, edit: Edit, order: seq<Keyword>, newline: string)
    requires Addition(b, edit, order) && CleanEdit(edit) && IsNewline(newline)
    ensures forall i :: 0 <= i < |order| ==> order[i] in Desired(edit)
    ensures Readings(MoreLines(b, edit, order, newline))
         == KeyReadings(order, Desired(edit))
            + (if edit.identityFileNames.Some? && !HasManaged(b.body) then IdentityReadings(edit.identityFileNames.value) else [])
  {
    AdditionIsDesired(b, edit, order);
    hide HasManaged, Desired, KeyLines, IdentityLines, LineReading, Addition;
    KeyLinesRead(order, Desired(edit), newline);
    if edit.identityFileNames.Some? {
      IdentityLinesRead(edit.identityFileNames.value, newline);
      ReadingsAppend(KeyLines(order, Desired(edit), newline), IdentityLines(edit.identityFileNames.value, newline));
    }
    ReadingsAppend(KeyLines(order, Desired(edit), newline), []);
    assert KeyLines(order, Desired(edit), newline) + [] == KeyLines(order, Desired(edit), newline);
  }
}
