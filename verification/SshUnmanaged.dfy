/** Identity files of the managed form that the inventory does not know: an edit of the identity files drops them. */
module SshUnmanaged {
  import opened Common
  import opened SshText
  import opened SshParse
  import opened SshDefinition
  import opened SshPatch
  import opened SshScan
  import opened SshLines
  import opened SshReadBack
  import opened SshEdited
  import opened SshTheorem
  import opened SshOutcome
  import opened SshAppend
  import opened SshGrow
  import opened SshCreate

  // ---- The count of unmanaged identities ----

  /** Every value of the managed form names a key of the inventory. */
  predicate AllKnown(values: seq<string>, known: set<string>) {
    forall i :: 0 <= i < |values| && ManagedIdentity(values[i]).Some? ==> ManagedIdentity(values[i]).value in known
  }

  /** What is not listed as a key file is foreign, or of the managed form and unknown. */
  lemma {:induction false} UnlistedValues(values: seq<string>, known: set<string>)
    ensures |ManagedNames(values, known)| + Foreign(values) <= |values|
    ensures |ManagedNames(values, known)| + Foreign(values) == |values| <==> AllKnown(values, known)
  {
    hide ManagedIdentity, ManagedNames, AllKnown;
    KnownCons(values, known);
    if values == [] {
      NoNames(known);
    } else {
      var rest := values[1..];
      UnlistedValues(rest, known);
      assert values == [values[0]] + rest;
      ManagedNamesAppend([values[0]], rest, known);
      OneName(values[0], known);
    }
  }

  lemma KnownCons(values: seq<string>, known: set<string>)
    ensures values == [] ==> AllKnown(values, known)
    ensures values != [] ==>
      (AllKnown(values, known) <==>
        (ManagedIdentity(values[0]).Some? ==> ManagedIdentity(values[0]).value in known) && AllKnown(values[1..], known))
  {
    hide ManagedIdentity;
    if values != [] {
      var rest := values[1..];
      assert forall i :: 0 < i < |values| ==> values[i] == rest[i - 1];
      assert forall i :: 0 <= i < |rest| ==> rest[i] == values[i + 1];
    }
  }

  lemma UnmanagedAre(alias: string, rs: seq<Reading>, edit: Edit, known: set<string>)
    requires edit.identityFileNames.Some?
    ensures DefinitionOf(alias, rs, known).unmanaged == |Values(rs, IdentityFile)| - |ManagedNames(Values(rs, IdentityFile), known)|
    ensures EditedDefinition(alias, rs, edit, known).unmanaged == Foreign(Values(rs, IdentityFile))
  {
    ManagedNamesBound(Values(rs, IdentityFile), known);
    hide Values, ManagedNames, Foreign, Last, Advanced, Assess, PortOf, IntervalOf, YesNoOf, StrictOf, KnownHostsOf;
  }

  lemma ReplacedOne(before: seq<Definition>, d: Definition, after: seq<Definition>)
    ensures |before| < |before + [d] + after| && (before + [d] + after)[|before|] == d
  {}

  /** An edit of the identity files never raises the count of unmanaged identities of the definition it names,
      and leaves it alone exactly when every identity of the managed form is known. */
  lemma EditKeepsUnmanagedIff(data: string, alias: string, edit: Edit, order: seq<Keyword>, known: set<string>)
    requires alias != "" && PatchOutcome(data, alias, edit).Success? && CleanEdit(edit) && Representable(edit, known)
    requires Addition(Blocks(data)[PatchOutcome(data, alias, edit).value], edit, order)
    requires CanEdit(Blocks(data)[PatchOutcome(data, alias, edit).value], alias, edit)
    requires edit.identityFileNames.Some?
    ensures var k := PatchOutcome(data, alias, edit).value;
      var i := |DefinitionsOf(Blocks(data)[..k], known)|;
      var was, now := Meaning(data, known), Meaning(Patched(data, alias, edit, order), known);
      && i < |was| == |now| && now[i].unmanaged <= was[i].unmanaged
      && (now[i].unmanaged == was[i].unmanaged <==> AllKnown(Values(Readings(Blocks(data)[k].body), IdentityFile), known))
  {
    hide IsHeader, HeadAlias, Blocks, CleanEdit, Addition, Patched, PatchOutcome, CanEdit, Representable, DefinitionOf, EditedDefinition, Readings,
         DefinitionsOf, Meaning, Values, AllKnown, Foreign, ManagedNames;
    EditChangesOneDefinition(data, alias, edit, order, known);
    var k := PatchOutcome(data, alias, edit).value;
    var rs := Readings(Blocks(data)[k].body);
    UnlistedValues(Values(rs, IdentityFile), known);
    UnmanagedAre(alias, rs, edit, known);
    var before, after := DefinitionsOf(Blocks(data)[..k], known), DefinitionsOf(Blocks(data)[k + 1..], known);
    ReplacedOne(before, DefinitionOf(alias, rs, known), after);
    ReplacedOne(before, EditedDefinition(alias, rs, edit, known), after);
  }

  // ---- A file where it drops ----

  function OnlyNames(names: seq<string>): Edit {
    Edit("a", None, None, None, Some(names), None, None, None, None)
  }

  /** One host a with the identity file x_rsa. */
  function Example(): RawBlock {
    NewBlock(OnlyNames(["x_rsa"]), "\n")
  }

  lemma ExampleText()
    ensures Flatten(BlockLines(Example())) == "Host a\n  IdentityFile ~/.ssh/x_rsa\n"
  {
    ExampleBody();
    SupportedIdentity();
    hide *;
    ExampleLines();
    var head, line := HostLine("a", "\n"), RenderDirective(IdentityFile, KEY_DIR + "x_rsa", "\n");
    OneIdentityLine("x_rsa", "\n");
    LinesOf(Example(), head, line);
    assert "Host a\n" + "  IdentityFile ~/.ssh/x_rsa\n" == "Host a\n  IdentityFile ~/.ssh/x_rsa\n";
  }

  lemma OneIdentityLine(name: string, newline: string)
    ensures IdentityLines([name], newline) == [RenderDirective(IdentityFile, KEY_DIR + name, newline)]
  {
    hide RenderDirective;
    assert [name][1..] == [] && IdentityLines([name][1..], newline) == [];
  }

  lemma LinesOf(b: RawBlock, head: string, line: string)
    requires b.head == head && b.body == [line]
    ensures Flatten(BlockLines(b)) == head + line
  {
    assert BlockLines(b) == [head, line] && [head, line][1..] == [line];
    FlattenOne(line);
  }

  lemma ExampleLines()
    ensures HostLine("a", "\n") == "Host a\n"
    ensures RenderDirective(IdentityFile, KEY_DIR + "x_rsa", "\n") == "  IdentityFile ~/.ssh/x_rsa\n"
  {}

  lemma ValidA()
    ensures ValidAlias("a")
  {}

  lemma CleanExample(names: seq<string>)
    requires CleanNames(names)
    ensures CleanEdit(OnlyNames(names)) && OneLineEdit(OnlyNames(names)) && Desired(OnlyNames(names)) == map[]
  {
    CleanIsOneLine(OnlyNames(names));
  }

  lemma ExampleBody()
    ensures Example().body == IdentityLines(["x_rsa"], "\n") && Example().head == HostLine("a", "\n")
    ensures CleanNames(["x_rsa"]) && CleanNames([])
  {
    hide RenderDirective, IdentityLines;
    var lines := IdentityLines(["x_rsa"], "\n");
    assert Example().body == [] + [] + [] + lines + [] + [] + [] + [];
    CleanExampleName();
  }

  lemma CleanExampleName()
    ensures CleanNames(["x_rsa"]) && CleanNames([])
  {
    assert AllPlain("x_rsa");
  }

  lemma ExampleReads()
    ensures Values(Readings(Example().body), IdentityFile) == ["~/.ssh/x_rsa"]
  {
    ExampleBody();
    NewlineOne();
    hide *;
    IdentityLinesRead(["x_rsa"], "\n");
    ExampleValue();
  }

  lemma NewlineOne()
    ensures IsNewline("\n")
  {}

  lemma ExampleValue()
    ensures Values(IdentityReadings(["x_rsa"]), IdentityFile) == ["~/.ssh/x_rsa"]
  {
    var names := ["x_rsa"];
    assert names[1..] == [] && IdentityReadings(names[1..]) == [];
    assert KEY_DIR + names[0] == "~/.ssh/x_rsa";
    assert IdentityReadings(names) == [Reading(IdentityFile, "~/.ssh/x_rsa")] + IdentityReadings(names[1..]);
    OneValue([Reading(IdentityFile, "~/.ssh/x_rsa")], IdentityFile);
  }

  /** The value names a key file in the managed form. */
  lemma ExampleIsManaged()
    ensures ManagedIdentity("~/.ssh/x_rsa") == Some("x_rsa")
  {
    var v := "~/.ssh/x_rsa";
    assert KEY_DIR <= v && v[|KEY_DIR|..] == "x_rsa";
    assert "x_rsa"[1..] == "_rsa" && HasSuffix("x_rsa", "_rsa");
  }

  lemma NotAmbiguous()
    ensures !Ambiguous(Example().body)
  {
    ExampleBody();
    NewlineOne();
    hide RenderDirective, IdentityLines, Occurrences, Mentions, NewBlock;
    forall key | Supported(key) && key != IdentityFile ensures Occurrences(Example().body, key) <= 1 {
      IdentityLinesKeys(["x_rsa"], "\n", key);
      OccursIfMentioned(Example().body, key);
    }
  }

  /** The file with the one host is read as that host. */
  lemma ExampleFile()
    ensures var data := Flatten(BlockLines(Example())); Blocks(data) == [Example()]
    ensures IsHeader(Example().head) && HeadAlias(Example().head) == "a"
  {
    ValidA();
    CleanExample(["x_rsa"]);
    ExampleBody();
    NewlineOne();
    ExampleIs();
    hide *;
    var data := Flatten(BlockLines(Example()));
    NewBlockIsBlock(OnlyNames(["x_rsa"]), "\n");
    AddedBlockMeaning("", Example(), {});
    NoBlocks();
    assert "" + data == data;
  }

  lemma ExampleIs()
    ensures Example() == NewBlock(OnlyNames(["x_rsa"]), "\n") && OnlyNames(["x_rsa"]).hostAlias == "a" && AtLineStart("")
  {}

  lemma NoBlocks()
    ensures Blocks("") == []
  {}

  /** The edit that drops all identity files. */
  lemma DropNames(edit: Edit)
    requires edit == OnlyNames([])
    ensures CleanEdit(edit) && Representable(edit, {}) && edit.identityFileNames == Some([]) && Desired(edit) == map[] && NewAlias("a", edit) == "a"
  {
    assert CleanNames([]);
    CleanExample([]);
  }

  lemma ExampleEditable(edit: Edit)
    requires edit == OnlyNames([])
    ensures Addition(Example(), edit, []) && CanEdit(Example(), "a", edit)
  {
    DropNames(edit);
    hide Example, OnlyNames, HasManaged, Mentions, Desired, CleanEdit, Representable, NewAlias;
    NothingToAdd(Example(), edit);
  }

  lemma NothingToAdd(b: RawBlock, edit: Edit)
    requires edit.identityFileNames == Some([]) && Desired(edit) == map[] && NewAlias("a", edit) == "a"
    ensures Addition(b, edit, []) && CanEdit(b, "a", edit)
  {
    hide Desired, InsertionReady, PlainHead, Mentions, NewAlias, HasManaged;
    assert MissingKeys(b.body, Desired(edit)) == {};
  }

  lemma ExampleOutcome(data: string, edit: Edit)
    requires edit == OnlyNames([]) && Blocks(data) == [Example()]
    requires IsHeader(Example().head) && HeadAlias(Example().head) == "a"
    ensures PatchOutcome(data, "a", edit) == Success(0)
  {
    DropNames(edit);
    ValidA();
    NotAmbiguous();
    hide Example, OnlyNames, IsHeader, HeadAlias, Blocks, Ambiguous, ValidAlias, NewAlias;
  }

  /** The one definition of the file before and after the edit. */
  lemma ExampleMeanings(data: string, edit: Edit, rs: seq<Reading>)
    requires Blocks(data) == [Example()] && PatchOutcome(data, "a", edit) == Success(0) && CleanEdit(edit) && Representable(edit, {})
    requires Addition(Example(), edit, []) && CanEdit(Example(), "a", edit) && rs == Readings(Example().body)
    ensures Meaning(data, {}) == [DefinitionOf("a", rs, {})]
    ensures Meaning(Patched(data, "a", edit, []), {}) == [EditedDefinition("a", rs, edit, {})]
  {
    hide *;
    EditChangesOneDefinition(data, "a", edit, [], {});
    NoDefinitions();
    assert [Example()][..0] == [] && [Example()][0 + 1..] == [];
  }

  /** Dropping the identity files of a host leaves no unmanaged identity where there was one. */
  lemma UnmanagedDrops(data: string, edit: Edit)
    requires data == "Host a\n  IdentityFile ~/.ssh/x_rsa\n" && edit == OnlyNames([])
    ensures Blocks(data) == [Example()] && PatchOutcome(data, "a", edit) == Success(0) && Addition(Example(), edit, [])
    ensures |Meaning(data, {})| == 1 && Meaning(data, {})[0].unmanaged == 1
    ensures |Meaning(Patched(data, "a", edit, []), {})| == 1 && Meaning(Patched(data, "a", edit, []), {})[0].unmanaged == 0
  {
    ExampleText();
    ExampleFile();
    ExampleEditable(edit);
    ExampleOutcome(data, edit);
    DropNames(edit);
    hide *;
    var rs := Readings(Example().body);
    ExampleMeanings(data, edit, rs);
    ExampleCounts(rs, edit);
  }

  lemma NoDefinitions()
    ensures DefinitionsOf([], {}) == []
  {}

  lemma ExampleCounts(rs: seq<Reading>, edit: Edit)
    requires rs == Readings(Example().body) && edit.identityFileNames == Some([])
    ensures DefinitionOf("a", rs, {}).unmanaged == 1 && EditedDefinition("a", rs, edit, {}).unmanaged == 0
  {
    ExampleReads();
    ExampleIsManaged();
    hide *;
    UnmanagedAre("a", rs, edit, {});
    OneUnlisted("~/.ssh/x_rsa");
  }

  lemma OneUnlisted(value: string)
    requires ManagedIdentity(value).Some?
    ensures |ManagedNames([value], {})| == 0 && Foreign([value]) == 0
  {
    OneName(value, {});
    assert [value][1..] == [];
    hide ManagedIdentity, ManagedNames;
  }
}
