/** Text added at the end of the file and blocks cut out of it: what it does to the other definitions. */
module SshGrow {
  import opened Common
  import opened SshText
  import opened SshParse
  import opened SshParser
  import opened SshDefinition
  import opened SshScan
  import opened SshLines
  import opened SshEffect
  import opened SshReadBack
  import opened SshAppend

  // ---- A line break at the end of the file ----

  /** Two lines that read alike. */
  ghost predicate SameReading(a: string, b: string) {
    && IsHeader(a) == IsHeader(b)
    && (IsHeader(a) && IsHeader(b) ==> HeadAlias(a) == HeadAlias(b))
    && LineReading(a) == LineReading(b)
  }

  ghost predicate SameScan(c: string, d: string) {
    var x, y := ScanLine(c), ScanLine(d);
    && x.Some? == y.Some?
    && (x.Some? ==> x.value.keyword == y.value.keyword && x.value.words == y.value.words)
  }

  lemma ScanReads(a: string, b: string)
    requires SameScan(Content(a), Content(b))
    ensures SameReading(a, b)
  {
    hide ScanLine, KeywordOf;
  }

  lemma NothingScanned(c: string)
    requires ScanLine(c).None?
    ensures var k := SkipSpace(c, 0);
      && (forall j :: 0 <= j < k ==> IsSpace(c[j]))
      && (k < |c| ==> !IsSpace(c[k]) && (c[k] == '#' || c[k] == '='))
  {
    SkippedSpace(c, 0);
  }

  lemma BlankScans(c: string)
    requires forall j :: 0 <= j < |c| ==> IsSpace(c[j])
    ensures ScanLine(c).None?
  {
    hide IsSpace, Words;
    SkipSpaceIs(c, 0, |c|);
  }

  lemma ReturnCut(c: string, k: nat, e: nat, a: nat, t: nat)
    requires Cut(c, k, e, a, t)
    ensures a < |c| ==> Cut(c + "\r", k, e, a, t)
    ensures a == |c| ==> Cut(c + "\r", k, e, |c| + 1, |c| + 1)
  {
    var s := c + "\r";
    assert forall j :: 0 <= j < |c| ==> s[j] == c[j];
    assert s[|c|] == '\r' && IsSpace('\r') && IsSeparator('\r');
    hide IsSpace, IsSeparator;
  }

  /** A carriage return at the end of a line is blank. */
  lemma TrailingReturn(c: string)
    ensures SameScan(c, c + "\r")
  {
    hide ScanLine, Cut, IsSpace, Words;
    var s := c + "\r";
    if ScanLine(c).None? {
      NothingScanned(c);
      var k := SkipSpace(c, 0);
      if k == |c| {
        assert s[|c|] == '\r';
        ReturnIsSpace();
        BlankScans(s);
      } else {
        NoKeywordScans(s, k);
      }
    } else {
      var k, e, t := CutOfScan(c);
      var a := ScanLine(c).value.at;
      CutBounds(c, k, e, a, t);
      ReturnCut(c, k, e, a, t);
      assert s[k..e] == c[k..e];
      if a < |c| {
        ScanOfCut(s, k, e, a, t);
        assert s[a..t] == c[a..t];
      } else {
        ScanOfCut(s, k, e, |s|, |s|);
        assert s[|s|..|s|] == c[a..t];
      }
    }
  }

  lemma ReturnIsSpace()
    ensures IsSpace('\r')
  {}

  /** A line break put after a line that lacks one does not change what it reads as. */
  lemma BrokenLineReads(line: string, newline: string)
    requires line != "" && !Terminated(line) && IsNewline(newline)
    ensures SameReading(line, line + newline)
  {
    hide ScanLine, Content;
    UnterminatedContent(line);
    ContentIsPrefix(line);
    var c := Content(line);
    if c == line {
      BreakContent(line, newline);
    } else {
      assert line == c + "\r";
      if newline == "\n" {
        ContentOf(c, "\r\n");
        assert c + "\r\n" == line + newline;
      } else {
        ContentOf(line, newline);
        TrailingReturn(c);
      }
    }
    ScanReads(line, line + newline);
  }

  lemma ContentIsPrefix(line: string)
    ensures Content(line) == line[..ContentEnd(line)]
    ensures ContentEnd(line) == |line| ==> Content(line) == line
  {}

  lemma BreakContent(line: string, newline: string)
    requires Content(line) == line && IsNewline(newline)
    ensures Content(line + newline) == line
  {
    EndingForms(line);
    assert Ending(line) == "" by {
      assert |line| == |Content(line)| + |Ending(line)|;
    }
    ContentOf(line, newline);
  }

  lemma BlockDefinitionReads(a: RawBlock, b: RawBlock, known: set<string>)
    requires IsHeader(a.head) && IsHeader(b.head) && HeadAlias(a.head) == HeadAlias(b.head)
    requires Readings(a.body) == Readings(b.body)
    ensures BlockDefinition(a, known) == BlockDefinition(b, known)
  {
    hide DefinitionOf, HeadAlias, IsHeader;
  }

  lemma GroupHeads(lines: seq<string>)
    ensures forall k :: 0 <= k < |Group(lines).blocks| ==> IsHeader(Group(lines).blocks[k].head)
  {
    hide IsHeader;
    GroupWellFormed(lines);
  }

  lemma OneDefinition(b: RawBlock, known: set<string>)
    requires IsHeader(b.head)
    ensures DefinitionsOf([b], known) == BlockDefinition(b, known)
  {
    hide IsHeader, BlockDefinition;
    assert [b][1..] == [];
    assert BlockDefinition(b, known) + [] == BlockDefinition(b, known);
  }

  lemma SnocDefinitions(init: seq<RawBlock>, a: RawBlock, b: RawBlock, known: set<string>)
    requires forall k :: 0 <= k < |init| ==> IsHeader(init[k].head)
    requires IsHeader(a.head) && IsHeader(b.head) && HeadAlias(a.head) == HeadAlias(b.head)
    requires Readings(a.body) == Readings(b.body)
    ensures DefinitionsOf(init + [a], known) == DefinitionsOf(init + [b], known)
  {
    hide IsHeader, BlockDefinition, DefinitionsOf, HeadAlias, Readings;
    BlockDefinitionReads(a, b, known);
    OneDefinition(a, known);
    OneDefinition(b, known);
    DefinitionsAppend(init, [a], known);
    DefinitionsAppend(init, [b], known);
  }

  lemma SnocReadings(lines: seq<string>, line: string)
    ensures Readings(lines + [line]) == Readings(lines) + LineReading(line)
  {
    hide LineReading;
    ReadingsAppend(lines, [line]);
    OneLineReads(line);
  }

  /** Last lines that read alike make the same definitions. */
  lemma LastLineMeaning(lines: seq<string>, a: string, b: string, known: set<string>)
    requires SameReading(a, b)
    ensures (forall k :: 0 <= k < |Group(lines + [a]).blocks| ==> IsHeader(Group(lines + [a]).blocks[k].head))
         && (forall k :: 0 <= k < |Group(lines + [b]).blocks| ==> IsHeader(Group(lines + [b]).blocks[k].head))
    ensures DefinitionsOf(Group(lines + [a]).blocks, known) == DefinitionsOf(Group(lines + [b]).blocks, known)
  {
    hide IsHeader, HeadAlias, LineReading, DefinitionsOf, Group;
    GroupHeads(lines);
    GroupHeads(lines + [a]);
    GroupHeads(lines + [b]);
    GroupSnoc(lines, a);
    GroupSnoc(lines, b);
    var g := Group(lines);
    if IsHeader(a) {
      SnocDefinitions(g.blocks, RawBlock(a, []), RawBlock(b, []), known);
    } else if g.blocks != [] {
      var n := |g.blocks| - 1;
      var init, last := g.blocks[..n], g.blocks[n];
      SnocReadings(last.body, a);
      SnocReadings(last.body, b);
      SnocDefinitions(init, RawBlock(last.head, last.body + [a]), RawBlock(last.head, last.body + [b]), known);
    }
  }

  /** A last line that reads as nothing adds no definition. */
  lemma BlankLineMeaning(lines: seq<string>, line: string, known: set<string>)
    requires !IsHeader(line) && LineReading(line) == []
    ensures (forall k :: 0 <= k < |Group(lines).blocks| ==> IsHeader(Group(lines).blocks[k].head))
         && (forall k :: 0 <= k < |Group(lines + [line]).blocks| ==> IsHeader(Group(lines + [line]).blocks[k].head))
    ensures DefinitionsOf(Group(lines + [line]).blocks, known) == DefinitionsOf(Group(lines).blocks, known)
  {
    hide IsHeader, HeadAlias, LineReading, DefinitionsOf, Group;
    GroupHeads(lines);
    GroupHeads(lines + [line]);
    GroupSnoc(lines, line);
    var g := Group(lines);
    if g.blocks != [] {
      var n := |g.blocks| - 1;
      var init, last := g.blocks[..n], g.blocks[n];
      SnocReadings(last.body, line);
      assert Readings(last.body) + [] == Readings(last.body);
      assert g.blocks == init + [last];
      SnocDefinitions(init, RawBlock(last.head, last.body + [line]), last, known);
    }
  }

  lemma LastLineOf(data: string) returns (init: seq<string>, last: string)
    requires !AtLineStart(data)
    ensures Lines(data) == init + [last] && LineLike(last) && !Terminated(last)
    ensures AllLines(init) && AllTerminated(init)
    ensures data == Flatten(init) + last
  {
    LinesWellFormed(data);
    ProperIsWellFormed(Lines(data));
    FlattenLines(data);
    hide Lines, LineLike;
    var lines := Lines(data);
    assert lines != [];
    var n := |lines| - 1;
    init, last := lines[..n], lines[n];
    assert lines == init + [last];
    FlattenAppend(init, [last]);
    FlattenOne(last);
    assert LineLike(last);
    LineLikeNonempty(last);
    assert data[|data| - 1] == last[|last| - 1];
  }

  lemma LineLikeNonempty(line: string)
    requires LineLike(line)
    ensures line != ""
  {}

  lemma BrokenLine(line: string, newline: string)
    requires LineLike(line) && !Terminated(line) && IsNewline(newline)
    ensures LineLike(line + newline) && Terminated(line + newline)
  {
    var r := line + newline;
    assert forall i :: 0 <= i < |line| ==> r[i] == line[i] && r[i] != '\n';
    assert r[|r| - 1] == newline[|newline| - 1];
    assert forall i :: |line| <= i < |r| ==> r[i] == newline[i - |line|];
  }

  lemma NewlineLine(newline: string)
    requires IsNewline(newline)
    ensures Lines(newline) == [newline] && !IsHeader(newline) && LineReading(newline) == [] && newline[|newline| - 1] == '\n'
  {
    OneLine(newline);
    assert IsEnding("", newline);
    ContentOf("", newline);
    assert "" + newline == newline;
    BlankLine(newline);
  }

  /** Closing the last line keeps every definition. */
  lemma ClosedKeepsMeaning(data: string, known: set<string>)
    ensures AtLineStart(Closed(data))
    ensures Meaning(Closed(data), known) == Meaning(data, known)
  {
    var newline := NewlineOf(data);
    NewlineForms(data);
    NewlineLine(newline);
    if Closed(data) == data {
      ClosedAtStart(data);
    } else {
      assert (data + newline)[|data + newline| - 1] == newline[|newline| - 1];
      if AtLineStart(data) {
        LinesAppend(data, newline);
        hide *;
        BlankLineMeaning(Lines(data), newline, known);
        MeaningIs(data, known);
        MeaningIs(data + newline, known);
      } else {
        var init, last := LastLineOf(data);
        ClosedLines(data, init, last, newline);
        LineLikeNonempty(last);
        BrokenLineReads(last, newline);
        hide *;
        LastLineMeaning(init, last, last + newline, known);
        MeaningIs(data, known);
        MeaningIs(data + newline, known);
      }
    }
  }

  lemma ClosedAtStart(data: string)
    requires Closed(data) == data
    ensures AtLineStart(data)
  {
    NewlineForms(data);
    if data != "" {
      var nl := NewlineOf(data);
      assert |data + nl| == |data| + |nl|;
      assert data[|data| - 1] == data[|data| - |nl|..][|nl| - 1];
    }
  }

  lemma ClosedLines(data: string, init: seq<string>, last: string, newline: string)
    requires data == Flatten(init) + last && LineLike(last) && !Terminated(last) && IsNewline(newline)
    requires AllLines(init) && AllTerminated(init)
    ensures Lines(data + newline) == init + [last + newline]
  {
    hide LineLike, Terminated, Flatten, Lines;
    BrokenLine(last, newline);
    var lines := init + [last + newline];
    assert AllLines(lines) && AllTerminated(lines);
    TerminatedProper(lines);
    ProperIsWellFormed(lines);
    LinesFlatten(lines);
    FlattenAppend(init, [last + newline]);
    FlattenOne(last + newline);
    Associate(Flatten(init), last, newline);
  }

  lemma MeaningIs(data: string, known: set<string>)
    ensures forall k :: 0 <= k < |Group(Lines(data)).blocks| ==> IsHeader(Group(Lines(data)).blocks[k].head)
    ensures Meaning(data, known) == DefinitionsOf(Group(Lines(data)).blocks, known)
  {
    hide IsHeader, DefinitionsOf, Group, Lines;
    GroupHeads(Lines(data));
  }

  // ---- A block added and a block cut ----

  lemma GroupAddBlock(lines: seq<string>, b: RawBlock)
    requires IsHeader(b.head) && NoHeader(b.body)
    ensures Group(lines + BlockLines(b)) == Grouping(Group(lines).preamble, Group(lines).blocks + [b])
  {
    hide IsHeader, Group, Ungroup, BlockLines;
    GroupWellFormed(lines);
    var g := Group(lines);
    var grown := Grouping(g.preamble, g.blocks + [b]);
    assert WellGrouped(grown);
    GroupingIsUnique(grown);
    UngroupAppend(g.blocks, [b]);
    UngroupOne(b);
    Associate(g.preamble, Ungroup(g.blocks), BlockLines(b));
  }

  lemma UngroupOne(b: RawBlock)
    ensures Ungroup([b]) == BlockLines(b)
  {
    assert [b][1..] == [];
    assert BlockLines(b) + [] == BlockLines(b);
  }

  /** A block written after a closed text is one more block, and its definition comes last. */
  lemma AddedBlockMeaning(base: string, b: RawBlock, known: set<string>)
    requires AtLineStart(base) && IsHeader(b.head) && NoHeader(b.body) && Proper(BlockLines(b))
    ensures Blocks(base + Flatten(BlockLines(b))) == Blocks(base) + [b]
    ensures Meaning(base + Flatten(BlockLines(b)), known) == Meaning(base, known) + BlockDefinition(b, known)
  {
    hide IsHeader, Group, Lines, BlockDefinition, DefinitionsOf, BlockLines, Flatten, Proper;
    ProperIsWellFormed(BlockLines(b));
    LinesFlatten(BlockLines(b));
    LinesAppend(base, Flatten(BlockLines(b)));
    GroupAddBlock(Lines(base), b);
    GroupHeads(Lines(base));
    OneDefinition(b, known);
    DefinitionsAppend(Blocks(base), [b], known);
  }

  /** Cutting a block out leaves the others as they are. */
  lemma CutBlock(data: string, k: nat)
    requires k < |Blocks(data)|
    ensures Preamble(Before(data, k) + After(data, k)) == Preamble(data)
    ensures Blocks(Before(data, k) + After(data, k)) == Blocks(data)[..k] + Blocks(data)[k + 1..]
  {
    hide IsHeader, Group, Lines, BlockLines, Flatten, Ungroup;
    var blocks := Blocks(data);
    GroupWellFormed(Lines(data));
    UngroupAt(blocks, k);
    LinesWellFormed(data);
    var pre, post := Preamble(data) + Ungroup(blocks[..k]), Ungroup(blocks[k + 1..]);
    assert Lines(data) == pre + BlockLines(blocks[k]) + post;
    BlockLinesNonempty(blocks[k]);
    OuterIsProper(pre, BlockLines(blocks[k]), post);
    ProperIsWellFormed(pre + post);
    LinesFlatten(pre + post);
    FlattenAppend(pre, post);
    var g := Grouping(Preamble(data), blocks[..k] + blocks[k + 1..]);
    assert WellGrouped(g);
    GroupingIsUnique(g);
    UngroupAppend(blocks[..k], blocks[k + 1..]);
    assert Preamble(data) + (Ungroup(blocks[..k]) + post) == pre + post;
  }

  lemma OuterIsProper(pre: seq<string>, mid: seq<string>, post: seq<string>)
    requires WellFormedLines(pre + mid + post) && mid != []
    ensures Proper(pre + post)
  {
    var lines := pre + mid + post;
    assert forall i :: 0 <= i < |pre| ==> pre[i] == lines[i];
    assert forall i :: 0 <= i < |post| ==> post[i] == lines[|pre| + |mid| + i];
    var out := pre + post;
    assert forall i :: 0 <= i < |out| ==> LineLike(out[i]);
    assert forall i :: 0 <= i < |out| - 1 ==> Terminated(out[i]);
  }
}
