/** The configuration file behind its entity tag: every mutation is made on the text the tag was issued for. */
module SshRepository {
  import opened Common
  import opened SshText
  import opened SshParse
  import P = SshParser
  import opened SshDefinition
  import opened SshPatch
  import L = SshLines
  import X = SshEffect
  import T = SshTheorem
  import O = SshOutcome
  import E = SshEditor
  import opened SshAppend
  import opened SshCreate

  datatype FileState = Missing | Text(data: string) | Unreadable(data: string)

  /** What a reader sees of the file. */
  function Seen(file: FileState): string {
    if file.Text? then file.data else ""
  }

  /** The entity tag: a keyed digest of the bytes read and of what the file allows, taken as injective. */
  datatype ETag = ETag(text: string, missing: bool, unreadable: bool, writable: bool)

  function TagOf(file: FileState, writable: bool): ETag {
    ETag(Seen(file), file.Missing?, file.Unreadable?, writable)
  }

  datatype RepositoryError = PreconditionRequired | PreconditionFailed | NotWritable | NotEdited(reason: EditError) | NotAdded(cause: CreateError) | WriteFailed

  /** How replacing the file ends: an error may come before or after the new text is in place. */
  datatype WriteOutcome = Written | FailedBefore | FailedAfter

  /** The error of the checks before a mutation, if there is one. */
  function Refusal(ifMatch: Option<ETag>, file: FileState, writable: bool, madeWritable: bool): Option<RepositoryError> {
    if ifMatch.None? then Some(PreconditionRequired)
    else if ifMatch.value != TagOf(file, writable) then Some(PreconditionFailed)
    else if !writable && !madeWritable then Some(NotWritable)
    else None
  }

  /** A tag is refused if and only if anything it was issued for has changed since: the text, whether there is a file,
      whether it can be read, whether it can be written. */
  lemma StaleTagIff(before: FileState, couldWrite: bool, now: FileState, writable: bool, madeWritable: bool)
    ensures Refusal(Some(TagOf(before, couldWrite)), now, writable, madeWritable) == Some(PreconditionFailed) <==>
      !((match before case Text(data) => now == Text(data) case Missing => now.Missing? case Unreadable(_) => now.Unreadable?)
        && couldWrite == writable)
  {}

  /** The file with the definition of a block added once more, under a new alias. */
  function WithCopy(data: string, alias: string, k: nat, newAlias: string, known: set<string>): string
    requires k < |Blocks(data)|
  {
    Appended(data, CopyOf(DefinitionOf(alias, Readings(Blocks(data)[k].body), known), newAlias))
  }

  class Repository {
    var file: FileState
    var writable: bool

    constructor (file: FileState, writable: bool)
      ensures this.file == file && this.writable == writable
    {
      this.file, this.writable := file, writable;
    }

    /** The checks that come before a mutation. Making the directory may turn the file writable. */
    method Open(ifMatch: Option<ETag>, madeWritable: bool) returns (r: Result<Document, RepositoryError>)
      modifies this`writable
      ensures ifMatch.None? ==> r == Failure(PreconditionRequired)
      ensures ifMatch.Some? && ifMatch.value != TagOf(file, old(writable)) ==> r == Failure(PreconditionFailed)
      ensures ifMatch == Some(TagOf(file, old(writable))) ==>
        r == if old(writable) || madeWritable then Success(DocumentOf(Seen(file))) else Failure(NotWritable)
      ensures r.Success? ==> writable
      ensures match Refusal(ifMatch, file, old(writable), madeWritable)
              case Some(error) => r == Failure(error)
              case None => r == Success(DocumentOf(Seen(file)))
    {
      if ifMatch.None? {
        return Failure(PreconditionRequired);
      }
      var doc := P.Parse(Seen(file));
      if TagOf(file, writable) != ifMatch.value {
        return Failure(PreconditionFailed);
      }
      if !writable && madeWritable {
        writable := true;
      }
      if !writable {
        return Failure(NotWritable);
      }
      return Success(doc);
    }

    method Replace(data: string, outcome: WriteOutcome) returns (ok: bool)
      modifies this`file
      ensures ok <==> outcome.Written?
      ensures file == if outcome.FailedBefore? then old(file) else Text(data)
    {
      if outcome.FailedBefore? {
        return false;
      }
      file := Text(data);
      return outcome.Written?;
    }

    /** The definitions of a document. */
    method Definitions(doc: Document, known: set<string>) returns (result: seq<Definition>)
      requires doc == DocumentOf(doc.bytes)
      ensures result == Meaning(doc.bytes, known)
    {
      hide DocumentOf, Blocks, IsHeader, BlockDefinition, DefinitionsOf, HeadAlias, DefinitionOf;
      result := [];
      SameBlocks(doc.bytes);
      NoDefinitions(Blocks(doc.bytes)[..0], known);
      for i := 0 to |doc.blocks|
        invariant |doc.blocks| == |Blocks(doc.bytes)|
        invariant result == DefinitionsOf(Blocks(doc.bytes)[..i], known)
      {
        var block := doc.blocks[i];
        MoreDefinitions(doc.bytes, i, known);
        if block.kind == HostBlock && block.alias != "" {
          var definition := DefinitionFromBlock(block, known);
          result := result + [definition];
        }
      }
      assert Blocks(doc.bytes)[..|doc.blocks|] == Blocks(doc.bytes);
    }

    method Update(ifMatch: Option<ETag>, madeWritable: bool, outcome: WriteOutcome, known: set<string>, alias: string, edit: SshPatch.Edit)
      returns (r: Result<seq<Definition>, RepositoryError>)
      requires alias != ""
      modifies this
      ensures r.Success? ==>
        && ifMatch == Some(TagOf(old(file), old(writable))) && PatchOutcome(Seen(old(file)), alias, edit).Success?
        && file.Text? && IsPatched(Seen(old(file)), alias, edit, file.data) && r.value == Meaning(file.data, known)
      ensures var refusal, patch := Refusal(ifMatch, old(file), old(writable), madeWritable), PatchOutcome(Seen(old(file)), alias, edit);
        && (r.Success? <==> refusal.None? && patch.Success? && outcome.Written?)
        && (r.Failure? ==> r.error == if refusal.Some? then refusal.value else if patch.Failure? then NotEdited(patch.error) else WriteFailed)
        && (if refusal.None? && patch.Success? && !outcome.FailedBefore? then file.Text? && IsPatched(Seen(old(file)), alias, edit, file.data)
            else file == old(file))
    {
      hide DocumentOf, IsPatched, PatchOutcome, Meaning;
      var ready := Open(ifMatch, madeWritable);
      if ready.Failure? {
        return Failure(ready.error);
      }
      DocumentBytes(Seen(file));
      var patched := E.PatchBlock(ready.value, alias, edit);
      if patched.Failure? {
        return Failure(NotEdited(patched.error));
      }
      var ok := Replace(patched.value, outcome);
      if !ok {
        return Failure(WriteFailed);
      }
      var doc := P.Parse(file.data);
      DocumentBytes(file.data);
      var definitions := Definitions(doc, known);
      r := Success(definitions);
    }

    method Create(ifMatch: Option<ETag>, madeWritable: bool, outcome: WriteOutcome, known: set<string>, edit: SshPatch.Edit)
      returns (r: Result<seq<Definition>, RepositoryError>)
      modifies this
      ensures r.Success? ==>
        && ifMatch == Some(TagOf(old(file), old(writable)))
        && ValidAlias(edit.hostAlias) && !Defines(Meaning(Seen(old(file)), known), edit.hostAlias)
        && file == Text(Appended(Seen(old(file)), edit)) && r.value == Meaning(file.data, known)
      ensures var refusal := Refusal(ifMatch, old(file), old(writable), madeWritable);
        var taken := Defines(Meaning(Seen(old(file)), known), edit.hostAlias);
        && (r.Success? <==> refusal.None? && ValidAlias(edit.hostAlias) && !taken && outcome.Written?)
        && (r.Failure? ==>
              r.error == if refusal.Some? then refusal.value else if !ValidAlias(edit.hostAlias) then NotAdded(InvalidNewAlias)
                         else if taken then NotAdded(NewAliasExists) else WriteFailed)
        && file == if refusal.None? && ValidAlias(edit.hostAlias) && !taken && !outcome.FailedBefore? then Text(Appended(Seen(old(file)), edit)) else old(file)
    {
      hide DocumentOf, Appended, Meaning, ValidAlias;
      var ready := Open(ifMatch, madeWritable);
      if ready.Failure? {
        return Failure(ready.error);
      }
      DocumentBytes(Seen(file));
      var valid := E.CheckAlias(edit.hostAlias);
      if !valid {
        return Failure(NotAdded(InvalidNewAlias));
      }
      var present := Definitions(ready.value, known);
      for i := 0 to |present|
        invariant forall j :: 0 <= j < i ==> present[j].alias != edit.hostAlias
      {
        if present[i].alias == edit.hostAlias {
          return Failure(NotAdded(NewAliasExists));
        }
      }
      var data := AppendBlock(ready.value, edit);
      var ok := Replace(data, outcome);
      if !ok {
        return Failure(WriteFailed);
      }
      var doc := P.Parse(file.data);
      DocumentBytes(file.data);
      var definitions := Definitions(doc, known);
      r := Success(definitions);
    }

    method Delete(ifMatch: Option<ETag>, madeWritable: bool, outcome: WriteOutcome, known: set<string>, alias: string)
      returns (r: Result<seq<Definition>, RepositoryError>)
      requires alias != ""
      modifies this
      ensures r.Success? ==>
        && ifMatch == Some(TagOf(old(file), old(writable))) && Target(Seen(old(file)), alias).Some?
        && file == Text(Deleted(Seen(old(file)), Target(Seen(old(file)), alias).value)) && r.value == Meaning(file.data, known)
      ensures var refusal, target := Refusal(ifMatch, old(file), old(writable), madeWritable), Target(Seen(old(file)), alias);
        && (r.Success? <==> refusal.None? && target.Some? && outcome.Written?)
        && (r.Failure? ==> r.error == if refusal.Some? then refusal.value else if target.None? then NotEdited(NotFound) else WriteFailed)
        && file == if refusal.None? && target.Some? && !outcome.FailedBefore? then Text(Deleted(Seen(old(file)), target.value)) else old(file)
    {
      hide DocumentOf, Deleted, Meaning, Target;
      var ready := Open(ifMatch, madeWritable);
      if ready.Failure? {
        return Failure(ready.error);
      }
      DocumentBytes(Seen(file));
      var block := E.FindBlock(ready.value, alias);
      if block.None? {
        return Failure(NotEdited(NotFound));
      }
      var b, bytes := ready.value.blocks[block.value], ready.value.bytes;
      DeletedIs(bytes, block.value);
      var ok := Replace(bytes[..b.start] + bytes[b.end..], outcome);
      if !ok {
        return Failure(WriteFailed);
      }
      var doc := P.Parse(file.data);
      DocumentBytes(file.data);
      var definitions := Definitions(doc, known);
      r := Success(definitions);
    }

    method Duplicate(ifMatch: Option<ETag>, madeWritable: bool, outcome: WriteOutcome, known: set<string>, alias: string, newAlias: string)
      returns (r: Result<seq<Definition>, RepositoryError>)
      requires alias != ""
      modifies this
      ensures r.Success? ==>
        && ifMatch == Some(TagOf(old(file), old(writable)))
        && ValidAlias(newAlias) && Target(Seen(old(file)), newAlias).None? && Target(Seen(old(file)), alias).Some?
        && file == Text(WithCopy(Seen(old(file)), alias, Target(Seen(old(file)), alias).value, newAlias, known))
        && r.value == Meaning(file.data, known)
      ensures var refusal := Refusal(ifMatch, old(file), old(writable), madeWritable);
        var taken, source := Target(Seen(old(file)), newAlias).Some?, Target(Seen(old(file)), alias);
        && (r.Success? <==> refusal.None? && ValidAlias(newAlias) && !taken && source.Some? && outcome.Written?)
        && (r.Failure? ==>
              r.error == if refusal.Some? then refusal.value else if !ValidAlias(newAlias) then NotAdded(InvalidNewAlias)
                         else if taken then NotAdded(NewAliasExists) else if source.None? then NotAdded(NoSource) else WriteFailed)
        && file == if refusal.None? && ValidAlias(newAlias) && !taken && source.Some? && !outcome.FailedBefore?
                   then Text(WithCopy(Seen(old(file)), alias, source.value, newAlias, known)) else old(file)
    {
      hide DocumentOf, Appended, Meaning, Target, ValidAlias, DefinitionOf, Blocks, Readings;
      var ready := Open(ifMatch, madeWritable);
      if ready.Failure? {
        return Failure(ready.error);
      }
      DocumentBytes(Seen(file));
      var valid := E.CheckAlias(newAlias);
      if !valid {
        return Failure(NotAdded(InvalidNewAlias));
      }
      AliasNonempty(newAlias);
      var taken := E.FindBlock(ready.value, newAlias);
      if taken.Some? {
        return Failure(NotAdded(NewAliasExists));
      }
      var source := E.FindBlock(ready.value, alias);
      if source.None? {
        return Failure(NotAdded(NoSource));
      }
      var definition := DefinitionFromBlock(ready.value.blocks[source.value], known);
      SourceDefinition(ready.value.bytes, alias, source.value);
      var data := AppendBlock(ready.value, CopyOf(definition, newAlias));
      var ok := Replace(data, outcome);
      if !ok {
        return Failure(WriteFailed);
      }
      var doc := P.Parse(file.data);
      DocumentBytes(file.data);
      var definitions := Definitions(doc, known);
      r := Success(definitions);
    }
  }

  // ---- What an update does to the definitions ----

  /** The text an update writes has the definitions of the text before, but for the one of the alias, which is as asked. */
  lemma UpdateChangesOneDefinition(data: string, alias: string, edit: SshPatch.Edit, text: string, known: set<string>)
    requires alias != "" && PatchOutcome(data, alias, edit).Success? && IsPatched(data, alias, edit, text)
    requires L.CleanEdit(edit) && O.Representable(edit, known) && T.CanEdit(Blocks(data)[PatchOutcome(data, alias, edit).value], alias, edit)
    ensures var k, blocks := PatchOutcome(data, alias, edit).value, Blocks(data);
      var rs := Readings(blocks[k].body);
      && Meaning(data, known)
         == DefinitionsOf(blocks[..k], known) + [DefinitionOf(alias, rs, known)] + DefinitionsOf(blocks[k + 1..], known)
      && Meaning(text, known)
         == DefinitionsOf(blocks[..k], known) + [O.EditedDefinition(alias, rs, edit, known)] + DefinitionsOf(blocks[k + 1..], known)
  {
    var order :| Addition(Blocks(data)[PatchOutcome(data, alias, edit).value], edit, order) && text == Patched(data, alias, edit, order);
    hide *;
    O.EditChangesOneDefinition(data, alias, edit, order, known);
  }

  /** Whether or not it reads back as asked, all other blocks of the text an update writes are those of the text before. */
  lemma UpdateKeepsOtherBlocks(data: string, alias: string, edit: SshPatch.Edit, text: string)
    requires alias != "" && PatchOutcome(data, alias, edit).Success? && IsPatched(data, alias, edit, text) && L.CleanEdit(edit)
    ensures var k := PatchOutcome(data, alias, edit).value;
      && Preamble(text) == Preamble(data) && |Blocks(text)| == |Blocks(data)|
      && (forall j :: 0 <= j < |Blocks(data)| && j != k ==> Blocks(text)[j] == Blocks(data)[j])
  {
    var order :| Addition(Blocks(data)[PatchOutcome(data, alias, edit).value], edit, order) && text == Patched(data, alias, edit, order);
    hide *;
    X.BlocksAfterEdit(data, alias, edit, order);
  }

  /** The text a duplication writes keeps every definition and adds one at the end, which is the copy of the first definition of the
      alias if and only if its values are clean. */
  lemma DuplicateAddsCopy(data: string, alias: string, newAlias: string, known: set<string>)
    requires alias != "" && Target(data, alias).Some? && ValidAlias(newAlias)
    ensures var k := Target(data, alias).value;
      var d, result := DefinitionOf(alias, Readings(Blocks(data)[k].body), known), Meaning(WithCopy(data, alias, k, newAlias, known), known);
      && |result| == |Meaning(data, known)| + 1 && result[..|Meaning(data, known)|] == Meaning(data, known)
      && (result == Meaning(data, known) + [SshCreate.Copied(d, newAlias)] <==> PlainValues(d))
  {
    hide Target, DefinitionOf, Readings, Blocks, Meaning, Appended, CopyOf, PlainValues, ValidAlias;
    DuplicateCopies(data, alias, newAlias, known);
  }

  lemma DocumentBytes(data: string)
    ensures DocumentOf(data).bytes == data
  {}

  lemma AliasNonempty(alias: string)
    requires ValidAlias(alias)
    ensures alias != ""
  {}

  lemma NoDefinitions(blocks: seq<RawBlock>, known: set<string>)
    requires blocks == []
    ensures DefinitionsOf(blocks, known) == []
  {}

  lemma BlockHolds(data: string, k: nat)
    requires k < |Blocks(data)|
    ensures |DocumentOf(data).blocks| == |Blocks(data)|
    ensures DirectiveReadings(DocumentOf(data).blocks[k].directives) == Readings(Blocks(data)[k].body)
    ensures DocumentOf(data).blocks[k].alias == HeadAlias(Blocks(data)[k].head)
    ensures DocumentOf(data).blocks[k].alias != "" ==> DocumentOf(data).blocks[k].kind == HostBlock
  {
    hide Blocks, DocumentOf, IsHeader, ScanLine, KeywordOf, HeadAlias, Readings, DirectiveReadings, PlaceBody, Before, Preamble, Ungroup, Flatten;
    BlockPlaced(data, k);
    E.BlockAliasIs(data, k);
    var b := Blocks(data)[k];
    var no := 1 + |Preamble(data)| + |Ungroup(Blocks(data)[..k])|;
    PlacedReadings(b.body, |Before(data, k)| + |b.head|, no + 1);
  }

  lemma MoreDefinitions(data: string, k: nat, known: set<string>)
    requires k < |Blocks(data)|
    ensures k < |DocumentOf(data).blocks|
    ensures var block := DocumentOf(data).blocks[k];
      DefinitionsOf(Blocks(data)[..k + 1], known)
      == DefinitionsOf(Blocks(data)[..k], known)
         + (if block.kind == HostBlock && block.alias != ""
            then [DefinitionOf(block.alias, DirectiveReadings(block.directives), known)] else [])
  {
    hide Blocks, DocumentOf, IsHeader, HeadAlias, Readings, DirectiveReadings, DefinitionOf, DefinitionsOf;
    BlockHolds(data, k);
    var blocks := Blocks(data);
    assert blocks[..k + 1] == blocks[..k] + [blocks[k]];
    DefinitionsAppend(blocks[..k], [blocks[k]], known);
    SingleDefinition(blocks[k], known);
  }

  lemma SingleDefinition(b: RawBlock, known: set<string>)
    requires IsHeader(b.head)
    ensures DefinitionsOf([b], known) == BlockDefinition(b, known)
  {
    hide IsHeader, BlockDefinition;
    assert [b][1..] == [];
    assert BlockDefinition(b, known) + [] == BlockDefinition(b, known);
  }

  lemma DeletedIs(data: string, k: nat)
    requires k < |Blocks(data)|
    ensures k < |DocumentOf(data).blocks|
    ensures var b := DocumentOf(data).blocks[k];
      b.start <= b.end <= |data| && data[..b.start] + data[b.end..] == Deleted(data, k)
  {
    hide Blocks, DocumentOf, IsHeader, Before, After, Flatten;
    E.BlockLies(data, k);
    var b := Blocks(data)[k];
    E.LiesBounds(data, Before(data, k), b.head, Flatten(b.body), After(data, k), DocumentOf(data).blocks[k]);
  }

  lemma SourceDefinition(data: string, alias: string, k: nat)
    requires alias != "" && Target(data, alias) == Some(k)
    ensures k < |DocumentOf(data).blocks|
    ensures DocumentOf(data).blocks[k].alias == alias
    ensures DirectiveReadings(DocumentOf(data).blocks[k].directives) == Readings(Blocks(data)[k].body)
  {
    hide Blocks, DocumentOf, IsHeader, HeadAlias, Readings, DirectiveReadings, Target;
    TargetIsFirst(data, alias);
    BlockHolds(data, k);
  }
}
