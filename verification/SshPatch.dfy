/** The structural editor: what editing one Host block does to the text of the file. */
module SshPatch {
  import opened Common
  import opened SshText
  import opened SshParse
  import opened SshDefinition

  // ---- Edits ----

  /** A missing field is left alone. */
  datatype Edit = Edit(
    hostAlias: string, hostName: Option<string>, user: Option<string>, port: Option<nat>,
    identityFileNames: Option<seq<string>>, identitiesOnly: Option<string>, strictHostKeyChecking: Option<string>,
    userKnownHostsFile: Option<string>, serverAliveInterval: Option<nat>)

  datatype EditError = NotFound | InvalidAlias | AliasExists | NotEditable

  function Entry(key: Keyword, value: Option<string>): (m: map<Keyword, string>)
    ensures m.Keys <= {key}
  {
    if value.Some? then map[key := value.value] else map[]
  }

  function Numeral(n: Option<nat>): Option<string> {
    if n.Some? then Some(Decimal(n.value)) else None
  }

  /** The values an edit asks for, identity files apart. */
  function Desired(edit: Edit): map<Keyword, string> {
    Entry(HostName, edit.hostName) + Entry(User, edit.user) + Entry(Port, Numeral(edit.port))
    + Entry(IdentitiesOnly, edit.identitiesOnly) + Entry(StrictHostKeyChecking, edit.strictHostKeyChecking)
    + Entry(UserKnownHostsFile, edit.userKnownHostsFile) + Entry(ServerAliveInterval, Numeral(edit.serverAliveInterval))
  }

  lemma DesiredKeys(edit: Edit)
    ensures forall key :: key in Desired(edit) ==> Supported(key) && key != IdentityFile
  {
    hide Entry, Numeral;
  }

  predicate IsLetter(c: char) {
    'a' <= c <= 'z' || 'A' <= c <= 'Z'
  }

  predicate AliasChar(c: char) {
    IsLetter(c) || IsDigit(c) || c == '.' || c == '_' || c == '-'
  }

  predicate ValidAlias(alias: string) {
    && 1 <= |alias| <= 255
    && IsLetter(alias[0])
    && forall i :: 0 <= i < |alias| ==> AliasChar(alias[i])
  }

  // ---- Rendering ----

  function RenderDirective(key: Keyword, value: string, newline: string): string
    requires Supported(key)
  {
    "  " + Canonical(key) + " " + value + newline
  }

  function RenderIdentities(names: seq<string>, newline: string): string {
    if names == [] then ""
    else RenderDirective(IdentityFile, KEY_DIR + names[0], newline) + RenderIdentities(names[1..], newline)
  }

  function RenderKeys(keys: seq<Keyword>, desired: map<Keyword, string>, newline: string): string
    requires forall i :: 0 <= i < |keys| ==> keys[i] in desired && Supported(keys[i])
  {
    if keys == [] then ""
    else RenderDirective(keys[0], desired[keys[0]], newline) + RenderKeys(keys[1..], desired, newline)
  }

  // ---- What an edit does to a line ----

  lemma FirstWordFits(value: string)
    requires Words(value) != []
    ensures |Words(value)[0]| <= |value|
  {
    WordLength(value, NO_QUOTE, false, "");
  }

  predicate IsManaged(d: Scan) {
    Key(d) == IdentityFile && d.words != [] && ManagedIdentity(d.words[0]).Some?
  }

  predicate IsManagedLine(line: string) {
    var d := ScanLine(Content(line));
    d.Some? && IsManaged(d.value)
  }

  /** The first word of a directive line replaced by another value. */
  function WithFirstWord(line: string, value: string): string
    requires ScanLine(Content(line)).Some? && ScanLine(Content(line)).value.words != []
  {
    var d := ScanLine(Content(line)).value;
    FirstWordFits(d.value);
    Content(line)[..d.at] + value + Content(line)[d.at + |d.words[0]|..] + Ending(line)
  }

  /** The text a line of the block becomes. Managed identity lines make room for the new ones
      at the first such line; a directive keeps everything but its first word. */
  function PatchLine(line: string, desired: map<Keyword, string>, ids: Option<seq<string>>, inserted: bool, newline: string): string {
    var d := ScanLine(Content(line));
    if d.None? then line
    else if IsManaged(d.value) then
      if ids.None? then line
      else (if inserted then "" else RenderIdentities(ids.value, newline)) + Ending(line)
    else if Key(d.value) in desired && d.value.words != [] then WithFirstWord(line, desired[Key(d.value)])
    else line
  }

  function PatchBody(lines: seq<string>, desired: map<Keyword, string>, ids: Option<seq<string>>, inserted: bool, newline: string): string {
    if lines == [] then ""
    else
      PatchLine(lines[0], desired, ids, inserted, newline)
      + PatchBody(lines[1..], desired, ids, inserted || (ids.Some? && IsManagedLine(lines[0])), newline)
  }

  function PatchHead(head: string, alias: string, newAlias: string): string
    requires IsHeader(head) && HeadAlias(head) == alias && alias != ""
  {
    if newAlias == alias then head else WithFirstWord(head, newAlias)
  }

  // ---- What an edit adds to the block ----

  function LineKey(line: string): Option<Keyword> {
    var d := ScanLine(Content(line));
    if d.Some? then Some(Key(d.value)) else None
  }

  predicate Mentions(lines: seq<string>, key: Keyword) {
    exists i :: 0 <= i < |lines| && LineKey(lines[i]) == Some(key)
  }

  predicate HasManaged(lines: seq<string>) {
    exists i :: 0 <= i < |lines| && IsManagedLine(lines[i])
  }

  /** The keys of an edit that no line of the block mentions. */
  function MissingKeys(lines: seq<string>, desired: map<Keyword, string>): set<Keyword> {
    set key | key in desired && !Mentions(lines, key)
  }

  /** Some listing of a set without repetition. */
  ghost predicate Lists(order: seq<Keyword>, keys: set<Keyword>) {
    && (forall key :: key in keys <==> key in order)
    && (forall i, j :: 0 <= i < j < |order| ==> order[i] != order[j])
  }

  /** The lines put in at the end of the block. */
  function Added(lines: seq<string>, desired: map<Keyword, string>, ids: Option<seq<string>>, order: seq<Keyword>, newline: string): string
    requires forall i :: 0 <= i < |order| ==> order[i] in desired && Supported(order[i])
  {
    RenderKeys(order, desired, newline)
    + (if ids.Some? && !HasManaged(lines) then RenderIdentities(ids.value, newline) else "")
  }

  function Occurrences(lines: seq<string>, key: Keyword): nat {
    if lines == [] then 0
    else (if LineKey(lines[0]) == Some(key) then 1 else 0) + Occurrences(lines[1..], key)
  }

  /** A key that an edit cannot address because the block gives it twice. */
  ghost predicate Ambiguous(lines: seq<string>) {
    exists key :: Supported(key) && key != IdentityFile && Occurrences(lines, key) > 1
  }

  // ---- The edited file ----

  /** The first block from i on whose header names the alias. */
  function FindHost(blocks: seq<RawBlock>, alias: string, i: nat): (r: Option<nat>)
    requires i <= |blocks|
    requires forall k :: 0 <= k < |blocks| ==> IsHeader(blocks[k].head)
    ensures r.Some? ==> i <= r.value < |blocks|
    decreases |blocks| - i
  {
    if i == |blocks| then None
    else if HeadAlias(blocks[i].head) == alias then Some(i)
    else FindHost(blocks, alias, i + 1)
  }

  lemma {:induction false} FindHostFinds(blocks: seq<RawBlock>, alias: string, i: nat)
    requires i <= |blocks|
    requires forall k :: 0 <= k < |blocks| ==> IsHeader(blocks[k].head)
    ensures var r := FindHost(blocks, alias, i);
      && (r.Some? ==> HeadAlias(blocks[r.value].head) == alias)
      && (forall k :: i <= k < (if r.Some? then r.value else |blocks|) ==> HeadAlias(blocks[k].head) != alias)
    decreases |blocks| - i
  {
    hide HeadAlias, IsHeader;
    if i < |blocks| && HeadAlias(blocks[i].head) != alias {
      FindHostFinds(blocks, alias, i + 1);
    }
  }

  function NewAlias(alias: string, edit: Edit): string {
    if edit.hostAlias == "" then alias else edit.hostAlias
  }

  /** Which group the block of an alias is. */
  function Target(data: string, alias: string): (r: Option<nat>)
    ensures r.Some? ==> r.value < |Blocks(data)|
  {
    FindHost(Blocks(data), alias, 0)
  }

  /** The target is the first block of the alias. */
  lemma TargetIsFirst(data: string, alias: string)
    ensures var k := Target(data, alias);
      && (k.Some? ==> HeadAlias(Blocks(data)[k.value].head) == alias)
      && (forall j :: 0 <= j < (if k.Some? then k.value else |Blocks(data)|) ==> HeadAlias(Blocks(data)[j].head) != alias)
  {
    hide HeadAlias, IsHeader, Blocks;
    FindHostFinds(Blocks(data), alias, 0);
  }

  ghost function PatchOutcome(data: string, alias: string, edit: Edit): (r: Result<nat, EditError>)
    ensures r.Success? ==> r.value < |Blocks(data)| && HeadAlias(Blocks(data)[r.value].head) == alias
  {
    TargetIsFirst(data, alias);
    var k := Target(data, alias);
    if k.None? then Failure(NotFound)
    else if !ValidAlias(NewAlias(alias, edit)) then Failure(InvalidAlias)
    else if NewAlias(alias, edit) != alias && Target(data, NewAlias(alias, edit)).Some? then Failure(AliasExists)
    else if Ambiguous(Blocks(data)[k.value].body) then Failure(NotEditable)
    else Success(k.value)
  }

  /** The keys an edit adds to a block, in some order. */
  ghost predicate Addition(b: RawBlock, edit: Edit, order: seq<Keyword>) {
    Lists(order, MissingKeys(b.body, Desired(edit)))
  }

  lemma AdditionIsDesired(b: RawBlock, edit: Edit, order: seq<Keyword>)
    requires Addition(b, edit, order)
    ensures forall i :: 0 <= i < |order| ==> order[i] in Desired(edit) && Supported(order[i])
  {
    DesiredKeys(edit);
    forall i | 0 <= i < |order| ensures order[i] in Desired(edit) {
      assert order[i] in MissingKeys(b.body, Desired(edit));
    }
  }

  /** The text of the edited block when the missing keys are added in the given order. */
  ghost function PatchedBlock(b: RawBlock, alias: string, edit: Edit, order: seq<Keyword>, newline: string): string
    requires IsHeader(b.head) && HeadAlias(b.head) == alias && alias != ""
    requires Addition(b, edit, order)
  {
    AdditionIsDesired(b, edit, order);
    PatchHead(b.head, alias, NewAlias(alias, edit))
    + PatchBody(b.body, Desired(edit), edit.identityFileNames, false, newline)
    + Added(b.body, Desired(edit), edit.identityFileNames, order, newline)
  }

  /** The edited file: only the target block's text changes. */
  ghost function Patched(data: string, alias: string, edit: Edit, order: seq<Keyword>): string
    requires alias != "" && PatchOutcome(data, alias, edit).Success?
    requires Addition(Blocks(data)[PatchOutcome(data, alias, edit).value], edit, order)
  {
    var k := PatchOutcome(data, alias, edit).value;
    Before(data, k) + PatchedBlock(Blocks(data)[k], alias, edit, order, NewlineOf(data)) + After(data, k)
  }

  /** A text the edit may produce: the missing keys come in some order. */
  ghost predicate IsPatched(data: string, alias: string, edit: Edit, text: string)
    requires alias != "" && PatchOutcome(data, alias, edit).Success?
  {
    exists order :: Addition(Blocks(data)[PatchOutcome(data, alias, edit).value], edit, order) && text == Patched(data, alias, edit, order)
  }
}
