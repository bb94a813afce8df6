/** Connection definitions: what the lines of a Host block mean. */
module SshDefinition {
  import opened Common
  import opened SshText
  import opened SshParse

  // ---- Readings ----

  /** A directive with at least one word means that its key has the first word as value. */
  datatype Reading = Reading(key: Keyword, value: string)

  function ScanReading(d: Option<Scan>): seq<Reading> {
    if d.Some? && d.value.words != [] then [Reading(Key(d.value), d.value.words[0])] else []
  }

  function LineReading(line: string): seq<Reading> {
    ScanReading(ScanLine(Content(line)))
  }

  function Readings(lines: seq<string>): seq<Reading> {
    if lines == [] then [] else LineReading(lines[0]) + Readings(lines[1..])
  }

  function DirectiveReading(d: Directive): seq<Reading> {
    if d.words == [] then [] else [Reading(KeywordOf(d.keyword), d.words[0])]
  }

  function DirectiveReadings(ds: seq<Directive>): seq<Reading> {
    if ds == [] then [] else DirectiveReadings(ds[..|ds| - 1]) + DirectiveReading(ds[|ds| - 1])
  }

  lemma {:induction false} DirectiveReadingsAppend(a: seq<Directive>, b: seq<Directive>)
    ensures DirectiveReadings(a + b) == DirectiveReadings(a) + DirectiveReadings(b)
  {
    if b == [] {
      assert a + b == a;
    } else {
      var n := |b| - 1;
      assert (a + b)[..|a + b| - 1] == a + b[..n];
      DirectiveReadingsAppend(a, b[..n]);
    }
  }

  lemma {:induction false} ReadingsAppend(a: seq<string>, b: seq<string>)
    ensures Readings(a + b) == Readings(a) + Readings(b)
  {
    hide LineReading;
    if a == [] {
      assert a + b == b;
    } else {
      assert (a + b)[1..] == a[1..] + b;
      ReadingsAppend(a[1..], b);
    }
  }

  lemma PlacedReading(line: string, offset: nat, no: nat)
    ensures DirectiveReadings(PlaceLine(line, offset, no)) == LineReading(line)
  {
    hide ScanLine, KeywordOf;
    var here := PlaceLine(line, offset, no);
    if here != [] {
      assert here[..0] == [];
      assert DirectiveReadings(here[..0]) == [];
    }
  }

  lemma {:induction false} PlacedReadings(lines: seq<string>, offset: nat, no: nat)
    ensures DirectiveReadings(PlaceBody(lines, offset, no)) == Readings(lines)
  {
    hide PlaceLine, LineReading, DirectiveReadings;
    if lines == [] {
      NoReadings();
    } else {
      PlacedReading(lines[0], offset, no);
      PlacedReadings(lines[1..], offset + |lines[0]|, no + 1);
      DirectiveReadingsAppend(PlaceLine(lines[0], offset, no), PlaceBody(lines[1..], offset + |lines[0]|, no + 1));
    }
  }

  lemma NoReadings()
    ensures DirectiveReadings([]) == []
  {}

  function Values(rs: seq<Reading>, key: Keyword): seq<string> {
    if rs == [] then []
    else (if rs[0].key == key then [rs[0].value] else []) + Values(rs[1..], key)
  }

  function Advanced(rs: seq<Reading>): nat {
    if rs == [] then 0 else (if Supported(rs[0].key) then 0 else 1) + Advanced(rs[1..])
  }

  lemma {:induction false} ValuesAppend(a: seq<Reading>, b: seq<Reading>, key: Keyword)
    ensures Values(a + b, key) == Values(a, key) + Values(b, key)
  {
    if a == [] {
      assert a + b == b;
    } else {
      assert (a + b)[1..] == a[1..] + b;
      ValuesAppend(a[1..], b, key);
    }
  }

  lemma {:induction false} AdvancedAppend(a: seq<Reading>, b: seq<Reading>)
    ensures Advanced(a + b) == Advanced(a) + Advanced(b)
  {
    hide Supported;
    if a == [] {
      assert a + b == b;
    } else {
      assert (a + b)[1..] == a[1..] + b;
      AdvancedAppend(a[1..], b);
    }
  }

  // ---- Definitions ----

  datatype Assessment = Weakened | Uncertain | Default

  datatype Definition = Definition(
    alias: string, hostName: Option<string>, user: Option<string>, port: Option<nat>,
    identityFiles: seq<string>, identitiesOnly: Option<string>, strictHostKeyChecking: Option<string>,
    userKnownHostsFile: Option<string>, serverAliveInterval: Option<nat>,
    advanced: nat, unmanaged: nat, assessment: Assessment)

  predicate HasSuffix(s: string, suffix: string) {
    |suffix| <= |s| && s[|s| - |suffix|..] == suffix
  }

  const KEY_DIR := "~/.ssh/"

  function TrimKeyDir(value: string): string {
    if KEY_DIR <= value then value[|KEY_DIR|..] else value
  }

  /** The key file name of an IdentityFile value of the form the application manages. */
  function ManagedIdentity(value: string): Option<string> {
    var name := TrimKeyDir(value);
    if '/' in name || name == "" then None
    else if name == "id_ed25519" || name == "id_rsa" || HasSuffix(name, "_ed25519") || HasSuffix(name, "_rsa")
    then Some(name)
    else None
  }

  const MAX_PORT := 65535
  const MAX_INTERVAL := 4294967295

  function PortOf(value: string): Option<nat> {
    var n := ParseUint(value, MAX_PORT);
    if n.Some? && n.value > 0 then n else None
  }

  function IntervalOf(value: string): Option<nat> {
    ParseUint(value, MAX_INTERVAL)
  }

  function YesNoOf(value: string): Option<string> {
    if Lower(value) == "yes" || Lower(value) == "no" then Some(Lower(value)) else None
  }

  function StrictOf(value: string): Option<string> {
    if Lower(value) == "no" then Some(Lower(value)) else None
  }

  function KnownHostsOf(value: string): Option<string> {
    if value == "/dev/null" then Some(value) else None
  }

  function TextOf(value: string): Option<string> {
    Some(value)
  }

  /** The last of the values that can be represented. */
  function Last<T>(values: seq<string>, read: string -> Option<T>): Option<T> {
    if values == [] then None
    else
      var r := read(values[|values| - 1]);
      if r.Some? then r else Last(values[..|values| - 1], read)
  }

  function ManagedNames(values: seq<string>, known: set<string>): seq<string> {
    if values == [] then []
    else
      var name := ManagedIdentity(values[|values| - 1]);
      ManagedNames(values[..|values| - 1], known) + (if name.Some? && name.value in known then [name.value] else [])
  }

  lemma {:induction false} ManagedNamesBound(values: seq<string>, known: set<string>)
    ensures |ManagedNames(values, known)| <= |values|
  {
    if values != [] {
      ManagedNamesBound(values[..|values| - 1], known);
    }
  }

  predicate All<T>(values: seq<string>, read: string -> Option<T>) {
    forall i :: 0 <= i < |values| ==> read(values[i]).Some?
  }

  /** How far the host key is verified: unknown when a trust directive has a value the
      application does not manage, weakened when such a directive turns checking off. */
  function Assess(strict: seq<string>, knownHosts: seq<string>): Assessment {
    if !All(strict, StrictOf) || !All(knownHosts, KnownHostsOf) then Uncertain
    else if strict != [] || knownHosts != [] then Weakened
    else Default
  }

  /** The definition that a list of readings means. */
  function DefinitionOf(alias: string, rs: seq<Reading>, known: set<string>): Definition {
    var ids := Values(rs, IdentityFile);
    ManagedNamesBound(ids, known);
    Definition(
      alias,
      Last(Values(rs, HostName), TextOf),
      Last(Values(rs, User), TextOf),
      Last(Values(rs, Port), PortOf),
      ManagedNames(ids, known),
      Last(Values(rs, IdentitiesOnly), YesNoOf),
      Last(Values(rs, StrictHostKeyChecking), StrictOf),
      Last(Values(rs, UserKnownHostsFile), KnownHostsOf),
      Last(Values(rs, ServerAliveInterval), IntervalOf),
      Advanced(rs),
      |ids| - |ManagedNames(ids, known)|,
      Assess(Values(rs, StrictHostKeyChecking), Values(rs, UserKnownHostsFile)))
  }

  function BlockDefinition(b: RawBlock, known: set<string>): seq<Definition>
    requires IsHeader(b.head)
  {
    if HeadAlias(b.head) == "" then [] else [DefinitionOf(HeadAlias(b.head), Readings(b.body), known)]
  }

  function DefinitionsOf(blocks: seq<RawBlock>, known: set<string>): seq<Definition>
    requires forall k :: 0 <= k < |blocks| ==> IsHeader(blocks[k].head)
  {
    if blocks == [] then [] else BlockDefinition(blocks[0], known) + DefinitionsOf(blocks[1..], known)
  }

  /** The connection definitions a file means. */
  function Meaning(data: string, known: set<string>): seq<Definition> {
    DefinitionsOf(Blocks(data), known)
  }

  lemma {:induction false} DefinitionsAppend(a: seq<RawBlock>, b: seq<RawBlock>, known: set<string>)
    requires forall k :: 0 <= k < |a| ==> IsHeader(a[k].head)
    requires forall k :: 0 <= k < |b| ==> IsHeader(b[k].head)
    ensures forall k :: 0 <= k < |a + b| ==> IsHeader((a + b)[k].head)
    ensures DefinitionsOf(a + b, known) == DefinitionsOf(a, known) + DefinitionsOf(b, known)
  {
    hide IsHeader, BlockDefinition;
    if a == [] {
      assert a + b == b;
    } else {
      assert (a + b)[1..] == a[1..] + b;
      DefinitionsAppend(a[1..], b, known);
    }
  }

  // ---- The readers of the source ----

  lemma ValuesSnoc(rs: seq<Reading>, r: Reading)
    ensures forall key :: Values(rs + [r], key) == Values(rs, key) + (if r.key == key then [r.value] else [])
  {
    forall key ensures Values(rs + [r], key) == Values(rs, key) + (if r.key == key then [r.value] else []) {
      ValuesAppend(rs, [r], key);
      assert [r][1..] == [];
      assert Values([r][1..], key) == [];
    }
  }

  lemma AdvancedSnoc(rs: seq<Reading>, r: Reading)
    ensures Advanced(rs + [r]) == Advanced(rs) + (if Supported(r.key) then 0 else 1)
  {
    hide Supported;
    AdvancedAppend(rs, [r]);
    assert [r][1..] == [];
    assert Advanced([r][1..]) == 0;
  }

  lemma LastSnoc<T>(values: seq<string>, value: string, read: string -> Option<T>)
    ensures Last(values + [value], read) == if read(value).Some? then read(value) else Last(values, read)
  {
    assert (values + [value])[..|values|] == values;
  }

  lemma NamesSnoc(values: seq<string>, value: string, known: set<string>)
    ensures ManagedNames(values + [value], known)
         == ManagedNames(values, known)
            + (var name := ManagedIdentity(value); if name.Some? && name.value in known then [name.value] else [])
  {
    hide ManagedIdentity;
    assert (values + [value])[..|values|] == values;
  }

  lemma DirectiveReadingIs(d: Directive)
    ensures DirectiveReading(d) == if d.words == [] then [] else [Reading(KeywordOf(d.keyword), d.words[0])]
  {}

  lemma AllSnoc<T>(values: seq<string>, value: string, read: string -> Option<T>)
    ensures All(values + [value], read) == (All(values, read) && read(value).Some?)
  {
    var longer := values + [value];
    assert longer[|values|] == value;
    if All(longer, read) {
      forall i | 0 <= i < |values| ensures read(values[i]).Some? {
        assert longer[i] == values[i];
      }
    }
  }

  lemma FieldSnoc<T>(rs: seq<Reading>, r: Reading, key: Keyword, read: string -> Option<T>)
    ensures Last(Values(rs + [r], key), read)
         == if r.key == key && read(r.value).Some? then read(r.value) else Last(Values(rs, key), read)
  {
    hide Last, Values;
    ValuesSnoc(rs, r);
    LastSnoc(Values(rs, key), r.value, read);
    assert Values(rs, key) + [] == Values(rs, key);
  }

  lemma IdentitySnoc(rs: seq<Reading>, r: Reading, known: set<string>)
    ensures var ids, ids' := Values(rs, IdentityFile), Values(rs + [r], IdentityFile);
      var name := ManagedIdentity(r.value);
      var managed := name.Some? && name.value in known;
      && |ids| >= |ManagedNames(ids, known)| && |ids'| >= |ManagedNames(ids', known)|
      && ManagedNames(ids', known)
         == (if r.key == IdentityFile && managed then ManagedNames(ids, known) + [name.value] else ManagedNames(ids, known))
      && |ids'| - |ManagedNames(ids', known)|
         == |ids| - |ManagedNames(ids, known)| + (if r.key == IdentityFile && !managed then 1 else 0)
  {
    hide ManagedNames, Values, ManagedIdentity;
    ValuesSnoc(rs, r);
    var ids := Values(rs, IdentityFile);
    NamesSnoc(ids, r.value, known);
    ManagedNamesBound(ids, known);
    ManagedNamesBound(Values(rs + [r], IdentityFile), known);
    assert ids + [] == ids;
    var names := ManagedNames(ids, known);
    assert names + [] == names;
  }

  /** What one more reading changes in a definition. */
  lemma DefinitionSnoc(alias: string, rs: seq<Reading>, r: Reading, known: set<string>)
    ensures var d, d' := DefinitionOf(alias, rs, known), DefinitionOf(alias, rs + [r], known);
      && d'.alias == alias
      && d'.hostName == (if r.key == HostName then Some(r.value) else d.hostName)
      && d'.user == (if r.key == User then Some(r.value) else d.user)
      && d'.port == (if r.key == Port && PortOf(r.value).Some? then PortOf(r.value) else d.port)
      && (var name := ManagedIdentity(r.value);
          d'.identityFiles == (if r.key == IdentityFile && name.Some? && name.value in known
                               then d.identityFiles + [name.value] else d.identityFiles)
          && d'.unmanaged == (if r.key == IdentityFile && !(name.Some? && name.value in known)
                              then d.unmanaged + 1 else d.unmanaged))
      && d'.identitiesOnly == (if r.key == IdentitiesOnly && YesNoOf(r.value).Some? then YesNoOf(r.value) else d.identitiesOnly)
      && d'.strictHostKeyChecking == (if r.key == StrictHostKeyChecking && StrictOf(r.value).Some? then StrictOf(r.value) else d.strictHostKeyChecking)
      && d'.userKnownHostsFile == (if r.key == UserKnownHostsFile && KnownHostsOf(r.value).Some? then KnownHostsOf(r.value) else d.userKnownHostsFile)
      && d'.serverAliveInterval == (if r.key == ServerAliveInterval && IntervalOf(r.value).Some? then IntervalOf(r.value) else d.serverAliveInterval)
      && d'.advanced == (if Supported(r.key) then d.advanced else d.advanced + 1)
  {
    hide ManagedIdentity, Last, ManagedNames, PortOf, IntervalOf, YesNoOf, StrictOf, KnownHostsOf, Supported, Values, Advanced, Assess;
    FieldSnoc(rs, r, HostName, TextOf);
    FieldSnoc(rs, r, User, TextOf);
    FieldSnoc(rs, r, Port, PortOf);
    FieldSnoc(rs, r, IdentitiesOnly, YesNoOf);
    FieldSnoc(rs, r, StrictHostKeyChecking, StrictOf);
    FieldSnoc(rs, r, UserKnownHostsFile, KnownHostsOf);
    FieldSnoc(rs, r, ServerAliveInterval, IntervalOf);
    IdentitySnoc(rs, r, known);
    AdvancedSnoc(rs, r);
  }

  /** The two trust flags the loop keeps beside the definition. */
  ghost predicate TrustFlags(rs: seq<Reading>, trustUnknown: bool, weakened: bool) {
    var strict, hosts := Values(rs, StrictHostKeyChecking), Values(rs, UserKnownHostsFile);
    && trustUnknown == (!All(strict, StrictOf) || !All(hosts, KnownHostsOf))
    && (!trustUnknown ==> weakened == (strict != [] || hosts != []))
  }

  lemma TrustSnoc(rs: seq<Reading>, r: Reading, trustUnknown: bool, weakened: bool)
    requires TrustFlags(rs, trustUnknown, weakened)
    ensures TrustFlags(rs + [r],
      trustUnknown || (r.key == StrictHostKeyChecking && StrictOf(r.value).None?)
                   || (r.key == UserKnownHostsFile && KnownHostsOf(r.value).None?),
      weakened || (r.key == StrictHostKeyChecking && StrictOf(r.value).Some?)
               || (r.key == UserKnownHostsFile && KnownHostsOf(r.value).Some?))
  {
    hide StrictOf, KnownHostsOf, Values, All;
    ValuesSnoc(rs, r);
    AllSnoc(Values(rs, StrictHostKeyChecking), r.value, StrictOf);
    AllSnoc(Values(rs, UserKnownHostsFile), r.value, KnownHostsOf);
    forall key | key != r.key ensures Values(rs + [r], key) == Values(rs, key) {
      assert Values(rs, key) + [] == Values(rs, key);
    }
  }

  lemma EmptyDefinition(alias: string, known: set<string>)
    ensures DefinitionOf(alias, [], known) == Definition(alias, None, None, None, [], None, None, None, None, 0, 0, Default)
    ensures TrustFlags([], false, false)
  {}

  lemma AssessmentOf(alias: string, rs: seq<Reading>, known: set<string>, trustUnknown: bool, weakened: bool)
    requires TrustFlags(rs, trustUnknown, weakened)
    ensures DefinitionOf(alias, rs, known).assessment
         == if trustUnknown then Uncertain else if weakened then Weakened else Default
  {}

  method DefinitionFromBlock(block: Block, known: set<string>) returns (result: Definition)
    ensures result == DefinitionOf(block.alias, DirectiveReadings(block.directives), known)
  {
    hide ManagedIdentity, DirectiveReading, DefinitionOf, PortOf, IntervalOf, YesNoOf, StrictOf, KnownHostsOf, TrustFlags, KeywordOf;
    result := Definition(block.alias, None, None, None, [], None, None, None, None, 0, 0, Default);
    var trustUnknown, weakened := false, false;
    EmptyDefinition(block.alias, known);
    assert block.directives[..0] == [];
    for i := 0 to |block.directives|
      invariant var rs := DirectiveReadings(block.directives[..i]);
        && result.assessment == Default && result.alias == block.alias
        && result == DefinitionOf(block.alias, rs, known).(assessment := Default)
        && TrustFlags(rs, trustUnknown, weakened)
    {
      var directive := block.directives[i];
      var key := KeywordOf(directive.keyword);
      ghost var rs := DirectiveReadings(block.directives[..i]);
      assert block.directives[..i + 1][..i] == block.directives[..i];
      assert DirectiveReadings(block.directives[..i + 1]) == rs + DirectiveReading(directive);
      DirectiveReadingIs(directive);
      if |directive.words| == 0 {
        assert rs + [] == rs;
        continue;
      }
      var value := directive.words[0];
      DefinitionSnoc(block.alias, rs, Reading(key, value), known);
      TrustSnoc(rs, Reading(key, value), trustUnknown, weakened);
      match key {
        case HostName => result := result.(hostName := Some(value));
        case User => result := result.(user := Some(value));
        case Port =>
          var n := PortOf(value);
          if n.Some? {
            result := result.(port := n);
          }
        case IdentityFile =>
          var name := ManagedIdentity(value);
          if name.Some? && name.value in known {
            result := result.(identityFiles := result.identityFiles + [name.value]);
          } else {
            result := result.(unmanaged := result.unmanaged + 1);
          }
        case IdentitiesOnly =>
          var v := YesNoOf(value);
          if v.Some? {
            result := result.(identitiesOnly := v);
          }
        case StrictHostKeyChecking =>
          var v := StrictOf(value);
          if v.Some? {
            result := result.(strictHostKeyChecking := v);
            weakened := true;
          } else {
            trustUnknown := true;
          }
        case UserKnownHostsFile =>
          var v := KnownHostsOf(value);
          if v.Some? {
            result := result.(userKnownHostsFile := v);
            weakened := true;
          } else {
            trustUnknown := true;
          }
        case ServerAliveInterval =>
          var n := IntervalOf(value);
          if n.Some? {
            result := result.(serverAliveInterval := n);
          }
        case _ => result := result.(advanced := result.advanced + 1);
      }
    }
    assert block.directives[..|block.directives|] == block.directives;
    AssessmentOf(block.alias, DirectiveReadings(block.directives), known, trustUnknown, weakened);
    result := result.(assessment := if trustUnknown then Uncertain else if weakened then Weakened else Default);
  }
}
