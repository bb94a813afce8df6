/** Which edits of a block are refused, and why, on the parsed document. */
module SshAnswers {
  import opened Common
  import opened SshText
  import opened SshParse
  import opened SshPatch
  import opened SshEditor
  import opened SshAppend
  import opened SshHosts

  /** A directive that an edit can set is given twice. */
  ghost predicate GivenTwice(ds: seq<Directive>) {
    exists i, j :: 0 <= i < j < |ds| && Lower(ds[i].keyword) == Lower(ds[j].keyword)
      && Lower(ds[i].keyword) in {"hostname", "user", "port", "identitiesonly", "stricthostkeychecking", "userknownhostsfile", "serveraliveinterval"}
  }

  lemma {:induction false} CountedOnce(ds: seq<Directive>, key: Keyword)
    ensures Count(ds, key) > 0 <==> exists i :: 0 <= i < |ds| && KeywordOf(ds[i].keyword) == key
  {
    hide KeywordOf;
    if ds != [] {
      var n := |ds| - 1;
      CountedOnce(ds[..n], key);
      assert forall i :: 0 <= i < n ==> ds[..n][i] == ds[i];
    }
  }

  lemma {:induction false} CountedTwice(ds: seq<Directive>, key: Keyword)
    ensures Count(ds, key) > 1 <==> exists i, j :: 0 <= i < j < |ds| && KeywordOf(ds[i].keyword) == key && KeywordOf(ds[j].keyword) == key
  {
    hide KeywordOf;
    if ds != [] {
      var n := |ds| - 1;
      CountedOnce(ds[..n], key);
      CountedTwice(ds[..n], key);
      assert forall i :: 0 <= i < n ==> ds[..n][i] == ds[i];
    }
  }

  lemma SameKeyword(a: string, b: string)
    ensures Supported(KeywordOf(a)) && KeywordOf(a) != IdentityFile && KeywordOf(b) == KeywordOf(a) <==>
      Lower(a) == Lower(b)
      && Lower(a) in {"hostname", "user", "port", "identitiesonly", "stricthostkeychecking", "userknownhostsfile", "serveraliveinterval"}
  {
    KeywordTexts(a);
    KeywordTexts(b);
    SupportedTexts(a);
    hide KeywordOf, Lower;
  }

  lemma TwiceIff(ds: seq<Directive>)
    ensures GivenTwice(ds) <==> exists key :: Supported(key) && key != IdentityFile && Count(ds, key) > 1
  {
    forall i, j | 0 <= i < j < |ds| {
      SameKeyword(ds[i].keyword, ds[j].keyword);
    }
    forall key {
      CountedTwice(ds, key);
    }
    hide KeywordOf, Lower, Count, Supported;
    if GivenTwice(ds) {
      var i, j :| 0 <= i < j < |ds| && Lower(ds[i].keyword) == Lower(ds[j].keyword)
        && Lower(ds[i].keyword) in {"hostname", "user", "port", "identitiesonly", "stricthostkeychecking", "userknownhostsfile", "serveraliveinterval"};
      assert Count(ds, KeywordOf(ds[i].keyword)) > 1;
    }
    if key :| Supported(key) && key != IdentityFile && Count(ds, key) > 1 {
      var i, j :| 0 <= i < j < |ds| && KeywordOf(ds[i].keyword) == key && KeywordOf(ds[j].keyword) == key;
      SameKeyword(ds[i].keyword, ds[j].keyword);
    }
  }

  lemma AmbiguousIff(data: string, k: nat)
    requires k < |Blocks(data)|
    ensures k < |DocumentOf(data).blocks|
    ensures Ambiguous(Blocks(data)[k].body) <==> GivenTwice(DocumentOf(data).blocks[k].directives)
  {
    hide Blocks, DocumentOf, IsHeader, ScanLine, KeywordOf, Count, Occurrences, GivenTwice, PlaceBody;
    SameBlocks(data);
    BlockPlaced(data, k);
    var ds := DocumentOf(data).blocks[k].directives;
    var b := Blocks(data)[k];
    var at, no := |Before(data, k)| + |b.head|, 2 + |Preamble(data)| + |Ungroup(Blocks(data)[..k])|;
    assert ds == PlaceBody(b.body, at, no);
    forall key ensures Count(ds, key) == Occurrences(b.body, key) {
      PlacedBodySays(b.body, at, no, key);
    }
    TwiceIff(ds);
  }

  /** The first block of the document with the alias. */
  predicate FirstOf(blocks: seq<Block>, k: nat, alias: string) {
    k < |blocks| && blocks[k].alias == alias && forall j :: 0 <= j < k ==> blocks[j].alias != alias
  }

  lemma TargetIff(data: string, alias: string)
    ensures forall k: nat :: Target(data, alias) == Some(k) <==> FirstOf(DocumentOf(data).blocks, k, alias)
    ensures Target(data, alias).None? <==> forall k :: 0 <= k < |DocumentOf(data).blocks| ==> DocumentOf(data).blocks[k].alias != alias
  {
    hide Blocks, DocumentOf, HeadAlias, IsHeader, Target;
    TargetIsFirst(data, alias);
    SameBlocks(data);
    forall k | 0 <= k < |Blocks(data)| ensures DocumentOf(data).blocks[k].alias == HeadAlias(Blocks(data)[k].head) {
      BlockAliasIs(data, k);
    }
  }

  /** An edit is refused when no block has the alias, when the new alias is not a name or another block has it, or when the block gives
      a directive twice, in this order; otherwise it goes to the first block of the alias. */
  lemma OutcomeIs(data: string, alias: string, edit: Edit)
    ensures var blocks, outcome := DocumentOf(data).blocks, PatchOutcome(data, alias, edit);
      var newAlias := if edit.hostAlias == "" then alias else edit.hostAlias;
      var taken := newAlias != alias && exists k :: 0 <= k < |blocks| && blocks[k].alias == newAlias;
      if forall k :: 0 <= k < |blocks| ==> blocks[k].alias != alias then outcome == Failure(NotFound)
      else if !ValidAlias(newAlias) then outcome == Failure(InvalidAlias)
      else if taken then outcome == Failure(AliasExists)
      else exists k: nat :: (FirstOf(blocks, k, alias)
        && outcome == if GivenTwice(blocks[k].directives) then Failure(NotEditable) else Success(k))
  {
    hide Blocks, DocumentOf, IsHeader, Target, Ambiguous, GivenTwice, FirstOf, ValidAlias;
    TargetIff(data, alias);
    TargetIff(data, NewAlias(alias, edit));
    TargetIsFirst(data, alias);
    if Target(data, alias).Some? {
      AmbiguousIff(data, Target(data, alias).value);
      assert FirstOf(DocumentOf(data).blocks, Target(data, alias).value, alias);
    }
  }

  /** Before a block is added, the file gets a line break of its own kind unless it is empty or ends in one. */
  lemma ClosedText(data: string)
    ensures var newline := DocumentOf(data).newline;
      Closed(data) == if data == "" || (exists head :: data == head + newline) then data else data + newline
  {
    hide Lines, Group, PlaceBlocks, WarningsFrom, HasCRLF;
    var newline := NewlineOf(data);
    if EndsWith(data, newline) {
      assert data == data[..|data| - |newline|] + newline;
    }
    forall head | data == head + newline ensures EndsWith(data, newline) {
      assert data[|head|..] == newline;
    }
  }
}
