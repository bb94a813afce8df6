/** What an edit does to the list of connection definitions. */
module SshOutcome {
  import opened Common
  import opened SshText
  import opened SshParse
  import opened SshDefinition
  import opened SshPatch
  import opened SshScan
  import opened SshLines
  import opened SshEffect
  import opened SshReadBack
  import opened SshEdited
  import opened SshTheorem

  // ---- Values a definition can hold ----

  predicate OwnIdentity(name: string, known: set<string>) {
    ManagedIdentity(KEY_DIR + name) == Some(name) && name in known
  }

  /** The values of an edit that a definition can represent. */
  ghost predicate Representable(edit: Edit, known: set<string>) {
    && (edit.port.Some? ==> 0 < edit.port.value <= MAX_PORT)
    && (edit.serverAliveInterval.Some? ==> edit.serverAliveInterval.value <= MAX_INTERVAL)
    && (edit.identitiesOnly.Some? ==> YesNoOf(edit.identitiesOnly.value) == edit.identitiesOnly)
    && (edit.strictHostKeyChecking.Some? ==> StrictOf(edit.strictHostKeyChecking.value) == edit.strictHostKeyChecking)
    && (edit.userKnownHostsFile.Some? ==> KnownHostsOf(edit.userKnownHostsFile.value) == edit.userKnownHostsFile)
    && (edit.identityFileNames.Some? ==>
          forall i :: 0 <= i < |edit.identityFileNames.value| ==> OwnIdentity(edit.identityFileNames.value[i], known))
  }

  function Choose<T>(wanted: Option<T>, present: Option<T>): Option<T> {
    if wanted.Some? then wanted else present
  }

  function Wish(wanted: Option<string>, values: seq<string>): seq<string> {
    if wanted.Some? then [wanted.value] else values
  }

  /** IdentityFile values that are not of the form the application manages. */
  function Foreign(values: seq<string>): nat {
    if values == [] then 0
    else (if ManagedIdentity(values[0]).Some? then 0 else 1) + Foreign(values[1..])
  }

  /** The definition an edit turns the readings of a block into: the edited fields as wanted, the others as they were.
      Replacing the identity files drops managed files the inventory does not know, so they no longer count as unmanaged. */
  function EditedDefinition(alias: string, rs: seq<Reading>, edit: Edit, known: set<string>): Definition {
    var d := DefinitionOf(alias, rs, known);
    var names := edit.identityFileNames;
    Definition(
      NewAlias(alias, edit),
      Choose(edit.hostName, d.hostName),
      Choose(edit.user, d.user),
      Choose(edit.port, d.port),
      if names.Some? then names.value else d.identityFiles,
      Choose(edit.identitiesOnly, d.identitiesOnly),
      Choose(edit.strictHostKeyChecking, d.strictHostKeyChecking),
      Choose(edit.userKnownHostsFile, d.userKnownHostsFile),
      Choose(edit.serverAliveInterval, d.serverAliveInterval),
      d.advanced,
      if names.Some? then Foreign(Values(rs, IdentityFile)) else d.unmanaged,
      Assess(Wish(edit.strictHostKeyChecking, Values(rs, StrictHostKeyChecking)),
             Wish(edit.userKnownHostsFile, Values(rs, UserKnownHostsFile))))
  }

  // ---- Identity files ----

  lemma {:induction false} ManagedNamesAppend(a: seq<string>, b: seq<string>, known: set<string>)
    ensures ManagedNames(a + b, known) == ManagedNames(a, known) + ManagedNames(b, known)
  {
    hide ManagedIdentity;
    if b == [] {
      assert a + b == a;
    } else {
      var n := |b| - 1;
      assert (a + b)[..|a + b| - 1] == a + b[..n];
      ManagedNamesAppend(a, b[..n], known);
    }
  }

  lemma OneName(value: string, known: set<string>)
    ensures ManagedNames([value], known)
         == (var name := ManagedIdentity(value); if name.Some? && name.value in known then [name.value] else [])
  {
    hide ManagedIdentity;
    assert [value][..0] == [];
    assert ManagedNames([value][..0], known) == [];
  }

  lemma {:induction false} OwnNames(names: seq<string>, known: set<string>)
    requires forall i :: 0 <= i < |names| ==> OwnIdentity(names[i], known)
    ensures ManagedNames(IdentityValues(names), known) == names
    ensures Foreign(IdentityValues(names)) == 0
  {
    hide ManagedIdentity, IdentityValues;
    IdentityValuesLength(names);
    if names == [] {
      assert IdentityValues(names) == [];
    } else {
      assert OwnIdentity(names[0], known);
      OwnNames(names[1..], known);
      ManagedNamesAppend([KEY_DIR + names[0]], IdentityValues(names[1..]), known);
      OneName(KEY_DIR + names[0], known);
      assert IdentityValues(names)[1..] == IdentityValues(names[1..]);
    }
  }

  lemma {:induction false} ForeignAppend(a: seq<string>, b: seq<string>)
    ensures Foreign(a + b) == Foreign(a) + Foreign(b)
  {
    hide ManagedIdentity;
    if a == [] {
      assert a + b == b;
    } else {
      assert (a + b)[1..] == a[1..] + b;
      ForeignAppend(a[1..], b);
    }
  }

  /** After the replacement the managed names are the wanted ones. */
  lemma {:induction false} ReplacedNames(values: seq<string>, wanted: seq<string>, inserted: bool, known: set<string>)
    ensures var r := ReplaceManaged(values, wanted, inserted);
      && ManagedNames(r, known) == (if AnyManaged(values) && !inserted then ManagedNames(wanted, known) else [])
      && |r| == Foreign(values) + (if AnyManaged(values) && !inserted then |wanted| else 0)
  {
    hide ManagedIdentity, ManagedNames;
    if values == [] {
      NoNames(known);
    } else {
      var value, rest := values[0], values[1..];
      assert values == [value] + rest;
      ReplaceOne(value, rest, wanted, inserted);
      if ManagedIdentity(value).Some? {
        ReplacedNames(rest, wanted, true, known);
        var first := if inserted then [] else wanted;
        ManagedNamesAppend(first, ReplaceManaged(rest, wanted, true), known);
        NoNames(known);
        assert ManagedNames(wanted, known) + [] == ManagedNames(wanted, known);
      } else {
        ReplacedNames(rest, wanted, inserted, known);
        ManagedNamesAppend([value], ReplaceManaged(rest, wanted, inserted), known);
        OneName(value, known);
        NothingBefore(ManagedNames(ReplaceManaged(rest, wanted, inserted), known));
      }
    }
  }

  lemma NoNames(known: set<string>)
    ensures ManagedNames([], known) == []
  {}

  lemma {:induction false} NoManagedNames(values: seq<string>, known: set<string>)
    requires !AnyManaged(values)
    ensures ManagedNames(values, known) == [] && Foreign(values) == |values|
  {
    ReplacedNames(values, [], false, known);
    NothingReplaced(values, [], false);
  }

  lemma AskedNames(values: seq<string>, names: seq<string>, known: set<string>)
    requires forall i :: 0 <= i < |names| ==> OwnIdentity(names[i], known)
    ensures var asked := AskedIdentities(values, IdentityValues(names));
      ManagedNames(asked, known) == names && |asked| == Foreign(values) + |names|
  {
    hide ManagedIdentity, ManagedNames, IdentityValues, OwnIdentity, ReplaceManaged;
    OwnNames(names, known);
    IdentityValuesLength(names);
    if AnyManaged(values) {
      ReplacedNames(values, IdentityValues(names), false, known);
    } else {
      NoManagedNames(values, known);
      ManagedNamesAppend(values, IdentityValues(names), known);
    }
  }

  // ---- Directives of other kinds ----

  lemma {:induction false} IdentityReadingsAdvanced(names: seq<string>)
    ensures Advanced(IdentityReadings(names)) == 0
  {
    if names != [] {
      IdentityReadingsAdvanced(names[1..]);
    }
  }

  lemma {:induction false} KeyReadingsAdvanced(keys: seq<Keyword>, desired: map<Keyword, string>)
    requires forall i :: 0 <= i < |keys| ==> keys[i] in desired && Supported(keys[i])
    ensures Advanced(KeyReadings(keys, desired)) == 0
  {
    if keys != [] {
      KeyReadingsAdvanced(keys[1..], desired);
    }
  }

  lemma LineAdvanced(line: string, desired: map<Keyword, string>, ids: Option<seq<string>>, inserted: bool)
    requires forall key :: key in desired ==> Supported(key)
    ensures Advanced(NewReading(line, desired, ids, inserted)) == Advanced(LineReading(line))
  {
    hide IsManagedLine, EditedReading, LineReading, LineKey, ManagedIdentity, Supported;
    ReadingKey(line, desired);
    OneAdvanced(LineReading(line));
    OneAdvanced(EditedReading(line, desired));
    if IsManagedLine(line) && ids.Some? {
      ManagedLineReads(line);
      IdentityReadingsAdvanced(ids.value);
      SupportedIdentity();
    }
  }

  lemma OneAdvanced(r: seq<Reading>)
    requires |r| <= 1
    ensures Advanced(r) == if r != [] && !Supported(r[0].key) then 1 else 0
  {
    if r != [] {
      assert r[1..] == [];
      assert Advanced(r[1..]) == 0;
    }
  }

  lemma {:induction false} EditedAdvanced(lines: seq<string>, desired: map<Keyword, string>, ids: Option<seq<string>>, inserted: bool)
    requires forall key :: key in desired ==> Supported(key)
    ensures Advanced(EditedReadings(lines, desired, ids, inserted)) == Advanced(Readings(lines))
  {
    hide IsManagedLine, EditedReading, LineReading, Supported, Advanced;
    if lines != [] {
      var line, rest := lines[0], lines[1..];
      var inserted' := inserted || (ids.Some? && IsManagedLine(line));
      EditedAdvanced(rest, desired, ids, inserted');
      LineAdvanced(line, desired, ids, inserted);
      AdvancedAppend(LineReading(line), Readings(rest));
      AdvancedAppend(NewReading(line, desired, ids, inserted), EditedReadings(rest, desired, ids, inserted'));
    }
  }

  lemma MoreAdvanced(b: RawBlock, edit: Edit, order: seq<Keyword>, newline: string)
    requires Addition(b, edit, order) && CleanEdit(edit) && IsNewline(newline)
    ensures Advanced(Readings(MoreLines(b, edit, order, newline))) == 0
  {
    MoreReads(b, edit, order, newline);
    AdditionIsDesired(b, edit, order);
    hide HasManaged, Desired, MoreLines, IdentityReadings, KeyReadings, Addition, CleanEdit, Readings, Advanced, Supported;
    KeyReadingsAdvanced(order, Desired(edit));
    if edit.identityFileNames.Some? {
      IdentityReadingsAdvanced(edit.identityFileNames.value);
      AdvancedAppend(KeyReadings(order, Desired(edit)), IdentityReadings(edit.identityFileNames.value));
    }
    assert KeyReadings(order, Desired(edit)) + [] == KeyReadings(order, Desired(edit));
  }

  // ---- The definition ----

  lemma LastOne<T>(value: string, read: string -> Option<T>)
    ensures Last([value], read) == read(value)
  {
    assert [value][..0] == [];
    assert Last([value][..0], read) == None;
  }

  /** The readings of the edited block, key by key. */
  ghost predicate AskedReadings(rs: seq<Reading>, was: seq<Reading>, edit: Edit) {
    && (forall key :: key in Desired(edit) ==> Values(rs, key) == [Desired(edit)[key]])
    && (forall key :: key !in Desired(edit) && !(key == IdentityFile && edit.identityFileNames.Some?) ==> Values(rs, key) == Values(was, key))
    && (edit.identityFileNames.Some? ==>
          Values(rs, IdentityFile) == AskedIdentities(Values(was, IdentityFile), IdentityValues(edit.identityFileNames.value)))
    && Advanced(rs) == Advanced(was)
  }

  /** The value an edit asks for under a key. */
  function Wanted(edit: Edit, key: Keyword): Option<string> {
    match key
    case HostName => edit.hostName
    case User => edit.user
    case Port => Numeral(edit.port)
    case IdentitiesOnly => edit.identitiesOnly
    case StrictHostKeyChecking => edit.strictHostKeyChecking
    case UserKnownHostsFile => edit.userKnownHostsFile
    case ServerAliveInterval => Numeral(edit.serverAliveInterval)
    case _ => None
  }

  function Lookup(m: map<Keyword, string>, key: Keyword): Option<string> {
    if key in m then Some(m[key]) else None
  }

  lemma EntryLookup(m: map<Keyword, string>, k: Keyword, value: Option<string>, key: Keyword)
    ensures Lookup(m + Entry(k, value), key) == if key == k && value.Some? then value else Lookup(m, key)
    ensures Lookup(Entry(k, value), key) == if key == k then value else None
  {}

  lemma DesiredOf(edit: Edit, key: Keyword)
    ensures Lookup(Desired(edit), key) == Wanted(edit, key)
  {
    hide Entry, Numeral, Lookup;
    var m1 := Entry(HostName, edit.hostName);
    EntryLookup(map[], HostName, edit.hostName, key);
    var m2 := m1 + Entry(User, edit.user);
    EntryLookup(m1, User, edit.user, key);
    var m3 := m2 + Entry(Port, Numeral(edit.port));
    EntryLookup(m2, Port, Numeral(edit.port), key);
    var m4 := m3 + Entry(IdentitiesOnly, edit.identitiesOnly);
    EntryLookup(m3, IdentitiesOnly, edit.identitiesOnly, key);
    var m5 := m4 + Entry(StrictHostKeyChecking, edit.strictHostKeyChecking);
    EntryLookup(m4, StrictHostKeyChecking, edit.strictHostKeyChecking, key);
    var m6 := m5 + Entry(UserKnownHostsFile, edit.userKnownHostsFile);
    EntryLookup(m5, UserKnownHostsFile, edit.userKnownHostsFile, key);
    EntryLookup(m6, ServerAliveInterval, Numeral(edit.serverAliveInterval), key);
  }

  lemma AskedField<T>(rs: seq<Reading>, was: seq<Reading>, edit: Edit, key: Keyword, read: string -> Option<T>, wanted: Option<T>)
    requires AskedReadings(rs, was, edit) && key != IdentityFile
    requires if Wanted(edit, key).Some? then wanted.Some? && read(Wanted(edit, key).value) == wanted else wanted.None?
    ensures Last(Values(rs, key), read) == Choose(wanted, Last(Values(was, key), read))
    ensures Values(rs, key) == Wish(Wanted(edit, key), Values(was, key))
  {
    DesiredOf(edit, key);
    hide Desired, Values, AskedIdentities, IdentityValues, Last, Wanted;
    if key in Desired(edit) {
      LastOne(Desired(edit)[key], read);
    }
  }

  lemma AskedIdentityFields(rs: seq<Reading>, was: seq<Reading>, edit: Edit, known: set<string>)
    requires AskedReadings(rs, was, edit) && Representable(edit, known)
    ensures var names, values := edit.identityFileNames, Values(was, IdentityFile);
      && ManagedNames(Values(rs, IdentityFile), known) == (if names.Some? then names.value else ManagedNames(values, known))
      && (names.Some? ==> |Values(rs, IdentityFile)| == Foreign(values) + |names.value|)
      && (names.None? ==> Values(rs, IdentityFile) == values)
  {
    DesiredKeys(edit);
    hide Desired, Values, AskedIdentities, IdentityValues, ManagedNames, OwnIdentity;
    if edit.identityFileNames.Some? {
      AskedNames(Values(was, IdentityFile), edit.identityFileNames.value, known);
    }
  }

  lemma AskedTexts(rs: seq<Reading>, was: seq<Reading>, edit: Edit, known: set<string>)
    requires AskedReadings(rs, was, edit) && Representable(edit, known)
    ensures Last(Values(rs, HostName), TextOf) == Choose(edit.hostName, Last(Values(was, HostName), TextOf))
    ensures Last(Values(rs, User), TextOf) == Choose(edit.user, Last(Values(was, User), TextOf))
    ensures Last(Values(rs, IdentitiesOnly), YesNoOf) == Choose(edit.identitiesOnly, Last(Values(was, IdentitiesOnly), YesNoOf))
  {
    hide Desired, Values, AskedReadings, Last, YesNoOf;
    AskedField(rs, was, edit, HostName, TextOf, edit.hostName);
    AskedField(rs, was, edit, User, TextOf, edit.user);
    AskedField(rs, was, edit, IdentitiesOnly, YesNoOf, edit.identitiesOnly);
  }

  lemma AskedTrust(rs: seq<Reading>, was: seq<Reading>, edit: Edit, known: set<string>)
    requires AskedReadings(rs, was, edit) && Representable(edit, known)
    ensures Last(Values(rs, StrictHostKeyChecking), StrictOf) == Choose(edit.strictHostKeyChecking, Last(Values(was, StrictHostKeyChecking), StrictOf))
    ensures Last(Values(rs, UserKnownHostsFile), KnownHostsOf) == Choose(edit.userKnownHostsFile, Last(Values(was, UserKnownHostsFile), KnownHostsOf))
    ensures Values(rs, StrictHostKeyChecking) == Wish(edit.strictHostKeyChecking, Values(was, StrictHostKeyChecking))
    ensures Values(rs, UserKnownHostsFile) == Wish(edit.userKnownHostsFile, Values(was, UserKnownHostsFile))
  {
    hide Desired, Values, AskedReadings, Last, StrictOf, KnownHostsOf;
    AskedField(rs, was, edit, StrictHostKeyChecking, StrictOf, edit.strictHostKeyChecking);
    AskedField(rs, was, edit, UserKnownHostsFile, KnownHostsOf, edit.userKnownHostsFile);
  }

  lemma AskedNumbers(rs: seq<Reading>, was: seq<Reading>, edit: Edit, known: set<string>)
    requires AskedReadings(rs, was, edit) && Representable(edit, known)
    ensures Last(Values(rs, Port), PortOf) == Choose(edit.port, Last(Values(was, Port), PortOf))
    ensures Last(Values(rs, ServerAliveInterval), IntervalOf) == Choose(edit.serverAliveInterval, Last(Values(was, ServerAliveInterval), IntervalOf))
  {
    hide Desired, Values, AskedReadings, Last, Decimal, ParseUint;
    if edit.port.Some? {
      DecimalRoundTrip(edit.port.value);
    }
    if edit.serverAliveInterval.Some? {
      DecimalRoundTrip(edit.serverAliveInterval.value);
    }
    AskedField(rs, was, edit, Port, PortOf, edit.port);
    AskedField(rs, was, edit, ServerAliveInterval, IntervalOf, edit.serverAliveInterval);
  }

  lemma AskedDefinition(rs: seq<Reading>, was: seq<Reading>, alias: string, edit: Edit, known: set<string>)
    requires AskedReadings(rs, was, edit) && Representable(edit, known)
    ensures DefinitionOf(NewAlias(alias, edit), rs, known) == EditedDefinition(alias, was, edit, known)
  {
    hide Values, AskedReadings, Last, ManagedNames, Advanced, PortOf, IntervalOf, YesNoOf, StrictOf, KnownHostsOf, Assess, Foreign, Choose, Wish, Representable;
    AskedTexts(rs, was, edit, known);
    AskedTrust(rs, was, edit, known);
    AskedNumbers(rs, was, edit, known);
    AskedIdentityFields(rs, was, edit, known);
    ManagedNamesBound(Values(was, IdentityFile), known);
    ManagedNamesBound(Values(rs, IdentityFile), known);
    AskedAdvanced(rs, was, edit);
  }

  lemma AskedAdvanced(rs: seq<Reading>, was: seq<Reading>, edit: Edit)
    requires AskedReadings(rs, was, edit)
    ensures Advanced(rs) == Advanced(was)
  {}

  lemma EditedBlockAsked(b: RawBlock, alias: string, edit: Edit, order: seq<Keyword>, newline: string)
    requires Editing(b, alias, edit, order, newline) && CanEdit(b, alias, edit)
    ensures var e := EditedBlock(b, alias, edit, order, newline);
      IsHeader(e.head) && HeadAlias(e.head) == NewAlias(alias, edit) && AskedReadings(Readings(e.body), Readings(b.body), edit)
  {
    DesiredKeys(edit);
    hide IsHeader, HeadAlias, PatchHead, EditedReadings, MoreLines, Proper, CleanEdit, ValidAlias, Desired, Addition, Ambiguous, Ready,
         EditedBlock, PlainKey, PlainHead, Values, AskedIdentities, IdentityValues, NoHeader, IsNewline, Readings, Advanced;
    ReadyReadsAsAsked(b, alias, edit, order, newline);
    EditedBlockReads(b, alias, edit, order, newline);
    EditedAdvanced(b.body, Desired(edit), edit.identityFileNames, false);
    MoreAdvanced(b, edit, order, newline);
    AdvancedAppend(EditedReadings(b.body, Desired(edit), edit.identityFileNames, false), Readings(MoreLines(b, edit, order, newline)));
  }

  lemma DefinitionsAround(blocks: seq<RawBlock>, k: nat, known: set<string>)
    requires k < |blocks| && forall i :: 0 <= i < |blocks| ==> IsHeader(blocks[i].head)
    ensures DefinitionsOf(blocks, known)
         == DefinitionsOf(blocks[..k], known) + BlockDefinition(blocks[k], known) + DefinitionsOf(blocks[k + 1..], known)
  {
    hide IsHeader, BlockDefinition;
    assert blocks == blocks[..k] + blocks[k..];
    DefinitionsAppend(blocks[..k], blocks[k..], known);
    assert blocks[k..][1..] == blocks[k + 1..];
  }

  /** An edit changes the one definition it names, to the definition it asks for. */
  lemma EditChangesOneDefinition(data: string, alias: string, edit: Edit, order: seq<Keyword>, known: set<string>)
    requires alias != "" && PatchOutcome(data, alias, edit).Success? && CleanEdit(edit) && Representable(edit, known)
    requires Addition(Blocks(data)[PatchOutcome(data, alias, edit).value], edit, order)
    requires CanEdit(Blocks(data)[PatchOutcome(data, alias, edit).value], alias, edit)
    ensures var k, blocks := PatchOutcome(data, alias, edit).value, Blocks(data);
      var rs := Readings(blocks[k].body);
      && Meaning(data, known)
         == DefinitionsOf(blocks[..k], known) + [DefinitionOf(alias, rs, known)] + DefinitionsOf(blocks[k + 1..], known)
      && Meaning(Patched(data, alias, edit, order), known)
         == DefinitionsOf(blocks[..k], known) + [EditedDefinition(alias, rs, edit, known)] + DefinitionsOf(blocks[k + 1..], known)
  {
    var k, blocks := PatchOutcome(data, alias, edit).value, Blocks(data);
    var b := blocks[k];
    assert HeadAlias(b.head) == alias;
    NewAliasNonempty(alias, edit);
    hide IsHeader, HeadAlias, Blocks, CleanEdit, Addition, Patched, PatchOutcome, ReadsAsAsked, CanEdit, EditedBlock, Editing, AskedReadings,
         Representable, DefinitionOf, EditedDefinition, Readings, DefinitionsOf;
    BlocksAfterEdit(data, alias, edit, order);
    TargetIsEditing(data, alias, edit, order);
    EditedBlockAsked(b, alias, edit, order, NewlineOf(data));
    var e := EditedBlock(b, alias, edit, order, NewlineOf(data));
    AskedDefinition(Readings(e.body), Readings(b.body), alias, edit, known);
    DefinitionsAround(blocks, k, known);
    var changed := blocks[k := e];
    DefinitionsAround(changed, k, known);
    assert changed[..k] == blocks[..k] && changed[k + 1..] == blocks[k + 1..];
  }

  lemma NewAliasNonempty(alias: string, edit: Edit)
    requires alias != ""
    ensures NewAlias(alias, edit) != ""
  {}
}
