/** Blocks added at the end of the file, and blocks cut out of it. */
module SshAppend {
  import opened Common
  import opened SshText
  import opened SshParse
  import opened SshPatch
  import opened SshLines

  // ---- The new block ----

  function FieldLines(key: Keyword, value: Option<string>, newline: string): seq<string>
    requires Supported(key)
  {
    if value.Some? then [RenderDirective(key, value.value, newline)] else []
  }

  /** The directives of a new block, in the order they are written. */
  function NewBody(edit: Edit, newline: string): seq<string> {
    FieldLines(HostName, edit.hostName, newline)
    + FieldLines(User, edit.user, newline)
    + FieldLines(Port, Numeral(edit.port), newline)
    + (if edit.identityFileNames.Some? then IdentityLines(edit.identityFileNames.value, newline) else [])
    + FieldLines(IdentitiesOnly, edit.identitiesOnly, newline)
    + FieldLines(StrictHostKeyChecking, edit.strictHostKeyChecking, newline)
    + FieldLines(UserKnownHostsFile, edit.userKnownHostsFile, newline)
    + FieldLines(ServerAliveInterval, Numeral(edit.serverAliveInterval), newline)
  }

  function HostLine(alias: string, newline: string): string {
    "Host " + alias + newline
  }

  function NewBlock(edit: Edit, newline: string): RawBlock {
    RawBlock(HostLine(edit.hostAlias, newline), NewBody(edit, newline))
  }

  predicate EndsWith(data: string, suffix: string) {
    |suffix| <= |data| && data[|data| - |suffix|..] == suffix
  }

  /** The text, with a line break when it does not end in one. */
  function Closed(data: string): string {
    if data == "" || EndsWith(data, NewlineOf(data)) then data else data + NewlineOf(data)
  }

  function Appended(data: string, edit: Edit): string {
    Closed(data) + Flatten(BlockLines(NewBlock(edit, NewlineOf(data))))
  }

  // ---- The writer of the source ----

  function FieldText(key: Keyword, value: Option<string>, newline: string): string
    requires Supported(key)
  {
    if value.Some? then RenderDirective(key, value.value, newline) else ""
  }

  function IdentityText(names: Option<seq<string>>, newline: string): string {
    if names.Some? then RenderIdentities(names.value, newline) else ""
  }

  lemma FieldTextIs(key: Keyword, value: Option<string>, newline: string)
    requires Supported(key)
    ensures Flatten(FieldLines(key, value, newline)) == FieldText(key, value, newline)
  {
    hide RenderDirective;
    if value.Some? {
      FlattenOne(RenderDirective(key, value.value, newline));
    }
  }

  lemma IdentityTextIs(names: Option<seq<string>>, newline: string)
    ensures Flatten(if names.Some? then IdentityLines(names.value, newline) else []) == IdentityText(names, newline)
  {
    if names.Some? {
      FlattenIdentityLines(names.value, newline);
    }
  }

  lemma {:induction false} FlattenNine(a: seq<string>, b: seq<string>, c: seq<string>, d: seq<string>, e: seq<string>, f: seq<string>, g: seq<string>, h: seq<string>)
    ensures Flatten(a + b + c + d + e + f + g + h)
         == Flatten(a) + Flatten(b) + Flatten(c) + Flatten(d) + Flatten(e) + Flatten(f) + Flatten(g) + Flatten(h)
  {
    hide Flatten;
    FlattenAppend(a, b);
    FlattenAppend(a + b, c);
    FlattenAppend(a + b + c, d);
    FlattenAppend(a + b + c + d, e);
    FlattenAppend(a + b + c + d + e, f);
    FlattenAppend(a + b + c + d + e + f, g);
    FlattenAppend(a + b + c + d + e + f + g, h);
  }

  lemma NewBlockText(edit: Edit, newline: string)
    ensures Flatten(BlockLines(NewBlock(edit, newline)))
         == HostLine(edit.hostAlias, newline)
            + (FieldText(HostName, edit.hostName, newline) + FieldText(User, edit.user, newline) + FieldText(Port, Numeral(edit.port), newline)
               + IdentityText(edit.identityFileNames, newline) + FieldText(IdentitiesOnly, edit.identitiesOnly, newline)
               + FieldText(StrictHostKeyChecking, edit.strictHostKeyChecking, newline)
               + FieldText(UserKnownHostsFile, edit.userKnownHostsFile, newline)
               + FieldText(ServerAliveInterval, Numeral(edit.serverAliveInterval), newline))
  {
    hide FieldLines, FieldText, IdentityLines, IdentityText, Numeral, HostLine, Flatten;
    FlattenNine(FieldLines(HostName, edit.hostName, newline), FieldLines(User, edit.user, newline),
                FieldLines(Port, Numeral(edit.port), newline),
                if edit.identityFileNames.Some? then IdentityLines(edit.identityFileNames.value, newline) else [],
                FieldLines(IdentitiesOnly, edit.identitiesOnly, newline),
                FieldLines(StrictHostKeyChecking, edit.strictHostKeyChecking, newline),
                FieldLines(UserKnownHostsFile, edit.userKnownHostsFile, newline),
                FieldLines(ServerAliveInterval, Numeral(edit.serverAliveInterval), newline));
    FieldTextIs(HostName, edit.hostName, newline);
    FieldTextIs(User, edit.user, newline);
    FieldTextIs(Port, Numeral(edit.port), newline);
    IdentityTextIs(edit.identityFileNames, newline);
    FieldTextIs(IdentitiesOnly, edit.identitiesOnly, newline);
    FieldTextIs(StrictHostKeyChecking, edit.strictHostKeyChecking, newline);
    FieldTextIs(UserKnownHostsFile, edit.userKnownHostsFile, newline);
    FieldTextIs(ServerAliveInterval, Numeral(edit.serverAliveInterval), newline);
    HeadThenBody(NewBlock(edit, newline));
  }

  lemma HeadThenBody(b: RawBlock)
    ensures Flatten(BlockLines(b)) == b.head + Flatten(b.body)
  {
    assert BlockLines(b)[1..] == b.body;
  }

  method WriteField(b: string, key: Keyword, value: Option<string>, newline: string) returns (r: string)
    requires Supported(key)
    ensures r == b + FieldText(key, value, newline)
  {
    hide RenderDirective;
    r := b;
    if value.Some? {
      r := r + RenderDirective(key, value.value, newline);
    }
  }

  lemma Join9(o: string, p: string, a: string, b: string, c: string, d: string, e: string, f: string, g: string, h: string, i: string)
    ensures o + (p + a + b + c + d + e + f + g + h + i) == o + p + (a + (b + c + d + e + f + g + h + i))
  {}

  method AppendBlock(doc: Document, edit: Edit) returns (result: string)
    requires doc == DocumentOf(doc.bytes)
    ensures result == Appended(doc.bytes, edit)
  {
    hide RenderDirective, RenderIdentities, Flatten, DocumentOf, FieldText, IdentityText, Numeral, EndsWith, BlockLines, NewBlock, NewlineOf;
    var newline := doc.newline;
    DocumentNewlineIs(doc.bytes);
    var b := "";
    if |doc.bytes| > 0 && !EndsWith(doc.bytes, newline) {
      b := newline;
    }
    ghost var prefix := b;
    b := b + ("Host " + edit.hostAlias + newline);
    b := WriteField(b, HostName, edit.hostName, newline);
    b := WriteField(b, User, edit.user, newline);
    b := WriteField(b, Port, Numeral(edit.port), newline);
    var names := "";
    if edit.identityFileNames.Some? {
      names := RenderIdentities(edit.identityFileNames.value, newline);
    }
    IdentityTextOf(edit.identityFileNames, newline);
    b := b + names;
    b := WriteField(b, IdentitiesOnly, edit.identitiesOnly, newline);
    b := WriteField(b, StrictHostKeyChecking, edit.strictHostKeyChecking, newline);
    b := WriteField(b, UserKnownHostsFile, edit.userKnownHostsFile, newline);
    b := WriteField(b, ServerAliveInterval, Numeral(edit.serverAliveInterval), newline);
    result := doc.bytes + b;
    NewBlockText(edit, newline);
    Join9(doc.bytes, prefix, HostLine(edit.hostAlias, newline), FieldText(HostName, edit.hostName, newline), FieldText(User, edit.user, newline),
          FieldText(Port, Numeral(edit.port), newline), IdentityText(edit.identityFileNames, newline),
          FieldText(IdentitiesOnly, edit.identitiesOnly, newline), FieldText(StrictHostKeyChecking, edit.strictHostKeyChecking, newline),
          FieldText(UserKnownHostsFile, edit.userKnownHostsFile, newline),
          FieldText(ServerAliveInterval, Numeral(edit.serverAliveInterval), newline));
    ClosedIs(doc.bytes, prefix);
  }

  lemma IdentityTextOf(names: Option<seq<string>>, newline: string)
    ensures IdentityText(names, newline) == if names.Some? then RenderIdentities(names.value, newline) else ""
  {}

  lemma ClosedIs(data: string, prefix: string)
    requires prefix == if |data| > 0 && !EndsWith(data, NewlineOf(data)) then NewlineOf(data) else ""
    ensures data + prefix == Closed(data)
  {
    assert data + "" == data;
  }
}
