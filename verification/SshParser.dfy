/** The one-pass parser, proved to produce the document of the file. */
module SshParser {
  import opened Common
  import opened SshText
  import opened SshParse

  // ---- Growing the grouping by one line ----

  function GroupSnocSpec(g: Grouping, line: string): Grouping {
    if IsHeader(line) then Grouping(g.preamble, g.blocks + [RawBlock(line, [])])
    else if g.blocks == [] then Grouping(g.preamble + [line], [])
    else
      var last := g.blocks[|g.blocks| - 1];
      Grouping(g.preamble, g.blocks[..|g.blocks| - 1] + [RawBlock(last.head, last.body + [line])])
  }

  lemma {:induction false} GroupSnoc(lines: seq<string>, line: string)
    ensures Group(lines + [line]) == GroupSnocSpec(Group(lines), line)
  {
    hide IsHeader;
    if lines == [] {
      assert lines + [line] == [line];
      assert [line][1..] == [];
      assert Group([line][1..]) == Grouping([], []);
    } else {
      assert (lines + [line])[1..] == lines[1..] + [line];
      GroupSnoc(lines[1..], line);
      var g, g' := Group(lines[1..]), Group(lines[1..] + [line]);
      if IsHeader(lines[0]) {
        var b := RawBlock(lines[0], g.preamble);
        if !IsHeader(line) {
          if g.blocks == [] {
            assert ([b] + g.blocks)[..0] + [RawBlock(b.head, b.body + [line])] == [RawBlock(b.head, b.body + [line])];
          } else {
            assert ([b] + g.blocks)[..|g.blocks|] == [b] + g.blocks[..|g.blocks| - 1];
          }
        }
      }
    }
  }

  lemma {:induction false} PlaceBlocksSnoc(blocks: seq<RawBlock>, b: RawBlock, offset: nat, no: nat)
    requires forall k :: 0 <= k < |blocks| ==> IsHeader(blocks[k].head)
    requires IsHeader(b.head)
    ensures PlaceBlocks(blocks + [b], offset, no)
         == PlaceBlocks(blocks, offset, no)
            + [PlaceBlock(b, offset + |Flatten(Ungroup(blocks))|, no + |Ungroup(blocks)|)]
  {
    hide IsHeader, PlaceBlock;
    if blocks == [] {
      assert blocks + [b] == [b];
      assert [b][1..] == [];
      assert PlaceBlocks([b][1..], offset + |Flatten(BlockLines(b))|, no + |BlockLines(b)|) == [];
    } else {
      var c, rest := blocks[0], blocks[1..];
      assert (blocks + [b])[1..] == rest + [b];
      PlaceBlocksSnoc(rest, b, offset + |Flatten(BlockLines(c))|, no + |BlockLines(c)|);
      FlattenAppend(BlockLines(c), Ungroup(rest));
    }
  }

  lemma {:induction false} PlaceBodySnoc(lines: seq<string>, line: string, offset: nat, no: nat)
    ensures PlaceBody(lines + [line], offset, no)
         == PlaceBody(lines, offset, no) + PlaceLine(line, offset + |Flatten(lines)|, no + |lines|)
  {
    hide PlaceLine;
    if lines == [] {
      assert lines + [line] == [line];
      assert [line][1..] == [];
      assert PlaceBody([line][1..], offset + |line|, no + 1) == [];
    } else {
      assert (lines + [line])[1..] == lines[1..] + [line];
      assert |Flatten(lines)| == |lines[0]| + |Flatten(lines[1..])|;
      hide Flatten;
      PlaceBodySnoc(lines[1..], line, offset + |lines[0]|, no + 1);
      assert PlaceBody(lines + [line], offset, no) == PlaceLine(lines[0], offset, no) + PlaceBody(lines[1..] + [line], offset + |lines[0]|, no + 1);
    }
  }

  lemma {:induction false} WarningsSnoc(lines: seq<string>, line: string, no: nat)
    ensures WarningsFrom(lines + [line], no) == WarningsFrom(lines, no) + LineWarning(line, no + |lines|)
  {
    hide LineWarning;
    if lines == [] {
      assert lines + [line] == [line];
      assert [line][1..] == [];
      assert WarningsFrom([line][1..], no + 1) == [];
    } else {
      assert (lines + [line])[1..] == lines[1..] + [line];
      WarningsSnoc(lines[1..], line, no + 1);
    }
  }

  // ---- What the parser holds after some lines ----

  /** `blocks` and `current` describe the document of the lines read so far. */
  ghost predicate Describes(lines: seq<string>, offset: nat, blocks: seq<Block>, current: Block) {
    var g := Group(lines);
    GroupWellFormed(lines);
    && offset == |Flatten(lines)|
    && (current.kind == Global <==> g.blocks == [])
    && (if g.blocks == [] then blocks == []
        else blocks + [current.(end := offset)] == PlaceBlocks(g.blocks, |Flatten(g.preamble)|, 1 + |g.preamble|))
  }

  function OpenBlock(line: string, offset: nat, no: nat): Block
    requires IsHeader(line)
  {
    var d := ScanLine(Content(line)).value;
    Block(KindOf(Key(d)), HeadAlias(line), offset, 0, Place(d, Content(line), offset, no), [])
  }

  lemma PlaceEmptyBlock(line: string, offset: nat, no: nat)
    requires IsHeader(line)
    ensures PlaceBlock(RawBlock(line, []), offset, no)
         == OpenBlock(line, offset, no).(end := offset + |line|)
    ensures PlaceBlock(RawBlock(line, []), offset, no).kind != Global
  {
    hide ScanLine, HeadAlias;
    FlattenOne(line);
    assert BlockLines(RawBlock(line, [])) == [line];
  }

  lemma DescribesHeader(lines: seq<string>, line: string, offset: nat, blocks: seq<Block>, current: Block)
    requires Describes(lines, offset, blocks, current)
    requires IsHeader(line)
    ensures Describes(lines + [line], offset + |line|,
                      if current.kind == Global then blocks else blocks + [current.(end := offset)],
                      OpenBlock(line, offset, 1 + |lines|))
  {
    hide IsHeader, PlaceBlock, OpenBlock, PlaceBlocks;
    var g := Group(lines);
    GroupWellFormed(lines);
    GroupSnoc(lines, line);
    FlattenAppend(lines, [line]);
    FlattenOne(line);
    FlattenAppend(g.preamble, Ungroup(g.blocks));
    PlaceBlocksSnoc(g.blocks, RawBlock(line, []), |Flatten(g.preamble)|, 1 + |g.preamble|);
    PlaceEmptyBlock(line, offset, 1 + |lines|);
    if g.blocks == [] {
      assert PlaceBlocks(g.blocks, |Flatten(g.preamble)|, 1 + |g.preamble|) == [];
    }
  }

  lemma PlaceGrownBlock(b: RawBlock, line: string, offset: nat, no: nat)
    requires IsHeader(b.head)
    ensures var p := PlaceBlock(b, offset, no);
      PlaceBlock(RawBlock(b.head, b.body + [line]), offset, no)
      == p.(end := p.end + |line|, directives := p.directives + PlaceLine(line, p.end, no + 1 + |b.body|))
  {
    hide IsHeader, HeadAlias, ScanLine, PlaceLine;
    PlaceBodySnoc(b.body, line, offset + |b.head|, no + 1);
    assert BlockLines(RawBlock(b.head, b.body + [line])) == BlockLines(b) + [line];
    FlattenAppend(BlockLines(b), [line]);
    FlattenOne(line);
    assert |Flatten(BlockLines(b))| == |b.head| + |Flatten(b.body)| by {
      assert BlockLines(b)[1..] == b.body;
    }
  }

  lemma SnocInjective<T>(a: seq<T>, x: T, b: seq<T>, y: T)
    requires a + [x] == b + [y]
    ensures a == b && x == y
  {
    assert (a + [x])[..|a|] == a && (b + [y])[..|b|] == b;
    assert (a + [x])[|a|] == x && (b + [y])[|b|] == y;
  }

  /** The blocks with one line more in the last. */
  function Grown(blocks: seq<RawBlock>, line: string): (r: seq<RawBlock>)
    requires blocks != [] && forall k :: 0 <= k < |blocks| ==> IsHeader(blocks[k].head)
    ensures |r| == |blocks| && forall k :: 0 <= k < |r| ==> IsHeader(r[k].head)
  {
    var n := |blocks| - 1;
    blocks[..n] + [RawBlock(blocks[n].head, blocks[n].body + [line])]
  }

  /** One line more for the last of the placed blocks. */
  lemma LastGrows(blocks: seq<RawBlock>, line: string, at: nat, no: nat, placed: seq<Block>, current: Block)
    requires blocks != [] && forall k :: 0 <= k < |blocks| ==> IsHeader(blocks[k].head)
    requires var offset := at + |Flatten(Ungroup(blocks))|; placed + [current.(end := offset)] == PlaceBlocks(blocks, at, no)
    ensures var offset := at + |Flatten(Ungroup(blocks))|;
      placed + [current.(end := offset + |line|, directives := current.directives + PlaceLine(line, offset, no + |Ungroup(blocks)|))]
      == PlaceBlocks(Grown(blocks, line), at, no)
  {
    hide IsHeader, PlaceBlock, PlaceLine, PlaceBlocks, Flatten, Ungroup;
    var n := |blocks| - 1;
    var init, last := blocks[..n], blocks[n];
    assert blocks == init + [last];
    PlaceBlocksSnoc(init, last, at, no);
    PlaceBlocksSnoc(init, RawBlock(last.head, last.body + [line]), at, no);
    var lastAt, lastNo := at + |Flatten(Ungroup(init))|, no + |Ungroup(init)|;
    PlaceGrownBlock(last, line, lastAt, lastNo);
    UngroupAppend(init, [last]);
    UngroupOne(last);
    FlattenAppend(Ungroup(init), BlockLines(last));
    SnocInjective(placed, current.(end := at + |Flatten(Ungroup(blocks))|), PlaceBlocks(init, at, no), PlaceBlock(last, lastAt, lastNo));
  }

  lemma UngroupOne(b: RawBlock)
    ensures Ungroup([b]) == BlockLines(b)
  {
    assert [b][1..] == [];
    assert Ungroup([b]) == BlockLines(b) + Ungroup([b][1..]);
  }

  lemma DescribesBody(lines: seq<string>, line: string, offset: nat, blocks: seq<Block>, current: Block)
    requires Describes(lines, offset, blocks, current)
    requires !IsHeader(line)
    ensures Describes(lines + [line], offset + |line|, blocks,
                      current.(directives := current.directives + PlaceLine(line, offset, 1 + |lines|)))
  {
    hide IsHeader, PlaceBlock, PlaceLine, PlaceBlocks, Group, Flatten, Ungroup;
    var g := Group(lines);
    GroupWellFormed(lines);
    GroupSnoc(lines, line);
    FlattenAppend(lines, [line]);
    FlattenOne(line);
    if g.blocks != [] {
      FlattenAppend(g.preamble, Ungroup(g.blocks));
      LastGrows(g.blocks, line, |Flatten(g.preamble)|, 1 + |g.preamble|, blocks, current);
    }
  }

  // ---- The parser ----

  lemma ScanLineParts(s: string, k: nat, e: nat, v: nat)
    requires k == SkipSpace(s, 0) && k < |s| && s[k] != '#'
    requires e == SkipKeyword(s, k) && k < e
    requires v == SkipSeparator(s, e)
    ensures ScanLine(s) == Some(Scan(s[k..e], s[v..TrimEnd(s, v, |s|)], Words(s[v..TrimEnd(s, v, |s|)]), v))
  {}

  lemma ScanLineNone(s: string, k: nat)
    requires k == SkipSpace(s, 0)
    requires k == |s| || s[k] == '#' || SkipKeyword(s, k) == k
    ensures ScanLine(s) == None
  {}

  method KeywordEnd(line: string, indent: nat) returns (keyEnd: nat)
    requires indent <= |line|
    ensures indent + keyEnd == SkipKeyword(line, indent)
  {
    var trimmed := line[indent..];
    keyEnd := 0;
    while keyEnd < |trimmed| && !IsSpace(trimmed[keyEnd]) && trimmed[keyEnd] != '='
      invariant keyEnd <= |trimmed|
      invariant SkipKeyword(line, indent + keyEnd) == SkipKeyword(line, indent)
    {
      keyEnd := keyEnd + 1;
    }
  }

  method SeparatorEnd(line: string, indent: nat, keyEnd: nat) returns (valueStart: nat)
    requires indent + keyEnd <= |line|
    ensures indent + valueStart == SkipSeparator(line, indent + keyEnd)
  {
    var trimmed := line[indent..];
    valueStart := keyEnd;
    while valueStart < |trimmed| && (IsSpace(trimmed[valueStart]) || trimmed[valueStart] == '=')
      invariant keyEnd <= valueStart <= |trimmed|
      invariant SkipSeparator(line, indent + valueStart) == SkipSeparator(line, indent + keyEnd)
    {
      valueStart := valueStart + 1;
    }
  }

  method ScanDirective(line: string, offset: nat, lineNo: nat) returns (directive: Directive, ok: bool)
    ensures ok <==> ScanLine(line).Some?
    ensures ok ==> directive == Place(ScanLine(line).value, line, offset, lineNo)
  {
    hide Words, SkipSpace, TrimEnd, ScanLine, SkipKeyword, SkipSeparator, IsSpace, IsSeparator;
    directive, ok := Directive("", "", [], 0, 0, 0, 0, 0, ""), false;
    var indent := SkipSpace(line, 0);
    var trimmed := line[indent..];
    if trimmed == "" || trimmed[0] == '#' {
      ScanLineNone(line, indent);
      return;
    }
    var keyEnd := KeywordEnd(line, indent);
    if keyEnd == 0 {
      ScanLineNone(line, indent);
      return;
    }
    var keyword := trimmed[..keyEnd];
    var valueStart := SeparatorEnd(line, indent, keyEnd);
    ScanLineParts(line, indent, indent + keyEnd, indent + valueStart);
    assert keyword == line[indent..indent + keyEnd];
    var value := line[indent + valueStart..TrimEnd(line, indent + valueStart, |line|)];
    var words := Tokenize(value);
    var absoluteValue := offset + indent + valueStart;
    directive, ok := Directive(keyword, value, words, lineNo, offset, offset + |line|,
                               absoluteValue, absoluteValue + |value|, line), true;
  }

  lemma {:induction false} LineEndShift(data: string, o: nat, i: nat)
    requires o + i <= |data|
    ensures o + LineEnd(data[o..], i) == LineEnd(data, o + i)
    decreases |data| - i
  {
    if o + i < |data| && data[o + i] != '\n' {
      LineEndShift(data, o, i + 1);
    }
  }

  lemma FirstLine(data: string)
    requires data != ""
    ensures Lines(data) == [data[..LineEnd(data, 0)]] + Lines(data[LineEnd(data, 0)..])
  {}

  /** One line further: the line at an offset, and what it leaves to read. */
  lemma NextLine(data: string, offset: nat, n: nat)
    requires offset < |data|
    requires n <= |Lines(data)|
    requires Lines(data[offset..]) == Lines(data)[n..]
    requires data[..offset] == Flatten(Lines(data)[..n])
    ensures n < |Lines(data)|
    ensures Lines(data)[n] == data[offset..LineEnd(data, offset)]
    ensures Lines(data[LineEnd(data, offset)..]) == Lines(data)[n + 1..]
    ensures data[..LineEnd(data, offset)] == Flatten(Lines(data)[..n + 1])
    ensures Lines(data)[..n + 1] == Lines(data)[..n] + [Lines(data)[n]]
  {
    hide Lines, LineEnd, Flatten;
    LineEndShift(data, offset, 0);
    var e := LineEnd(data, offset);
    var rest := data[offset..];
    var lines := Lines(data);
    FirstLine(rest);
    assert rest[..e - offset] == data[offset..e];
    assert rest[e - offset..] == data[e..];
    assert lines[n..] == [data[offset..e]] + Lines(data[e..]);
    assert lines[n] == lines[n..][0];
    assert lines[n + 1..] == lines[n..][1..] == Lines(data[e..]);
    assert lines[..n + 1] == lines[..n] + [lines[n]];
    FlattenAppend(lines[..n], [lines[n]]);
    FlattenOne(lines[n]);
    assert data[..e] == data[..offset] + data[offset..e];
  }

  /** What the parser's variables hold once n lines have been read. */
  ghost predicate Parsed(data: string, n: nat, offset: nat, blocks: seq<Block>, current: Block, warnings: seq<Warning>) {
    && offset <= |data|
    && n <= |Lines(data)|
    && Lines(data[offset..]) == Lines(data)[n..]
    && data[..offset] == Flatten(Lines(data)[..n])
    && Describes(Lines(data)[..n], offset, blocks, current)
    && warnings == WarningsFrom(Lines(data)[..n], 1)
  }

  lemma ParsedStart(data: string, current: Block)
    requires current.kind == Global
    ensures Parsed(data, 0, 0, [], current, [])
  {
    hide IsHeader, PlaceBlock;
    assert data[0..] == data && Lines(data)[0..] == Lines(data) && Lines(data)[..0] == [];
  }

  lemma ParsedHeader(data: string, n: nat, offset: nat, blocks: seq<Block>, current: Block, warnings: seq<Warning>)
    requires Parsed(data, n, offset, blocks, current, warnings) && offset < |data|
    requires IsHeader(data[offset..LineEnd(data, offset)])
    ensures Parsed(data, n + 1, LineEnd(data, offset),
                   if current.kind == Global then blocks else blocks + [current.(end := offset)],
                   OpenBlock(data[offset..LineEnd(data, offset)], offset, n + 1), warnings)
  {
    hide IsHeader, PlaceBlock, OpenBlock, Lines, Flatten, Describes, ScanLine;
    var line := data[offset..LineEnd(data, offset)];
    NextLine(data, offset, n);
    DescribesHeader(Lines(data)[..n], line, offset, blocks, current);
    WarningsSnoc(Lines(data)[..n], line, 1);
    HeaderWarning(line, n + 1);
    assert warnings + [] == warnings;
  }

  lemma HeaderWarning(line: string, no: nat)
    requires IsHeader(line)
    ensures LineWarning(line, no) == []
  {
    hide ScanLine;
  }

  lemma ParsedBody(data: string, n: nat, offset: nat, blocks: seq<Block>, current: Block, warnings: seq<Warning>)
    requires Parsed(data, n, offset, blocks, current, warnings) && offset < |data|
    requires !IsHeader(data[offset..LineEnd(data, offset)])
    ensures var line := data[offset..LineEnd(data, offset)];
      Parsed(data, n + 1, LineEnd(data, offset), blocks,
             current.(directives := current.directives + PlaceLine(line, offset, n + 1)),
             warnings + LineWarning(line, n + 1))
  {
    hide IsHeader, PlaceBlock, PlaceLine, Lines, Flatten, Describes, ScanLine, LineWarning;
    var line := data[offset..LineEnd(data, offset)];
    NextLine(data, offset, n);
    DescribesBody(Lines(data)[..n], line, offset, blocks, current);
    WarningsSnoc(Lines(data)[..n], line, 1);
  }

  lemma ParsedEnd(data: string, n: nat, blocks: seq<Block>, current: Block, warnings: seq<Warning>)
    requires Parsed(data, n, |data|, blocks, current, warnings)
    ensures DocumentOf(data)
         == Document(data, NewlineOf(data),
                     if current.kind == Global then blocks else blocks + [current.(end := |data|)], warnings)
  {
    hide IsHeader, PlaceBlock, PlaceBlocks, Group;
    assert data[|data|..] == "";
    assert |Lines(data)[n..]| == 0;
    assert Lines(data)[..n] == Lines(data);
    GroupWellFormed(Lines(data));
  }

  /** The bytes the parser scans as a line are the line's content. */
  lemma ContentSlice(data: string, offset: nat)
    requires offset < |data|
    ensures var line := data[offset..LineEnd(data, offset)];
      Content(line) == data[offset..offset + ContentEnd(line)]
  {
    var line := data[offset..LineEnd(data, offset)];
    assert line[..ContentEnd(line)] == data[offset..offset + ContentEnd(line)];
  }

  /** The content of the line at an offset. */
  function ContentAt(data: string, offset: nat): string
    requires offset < |data|
  {
    Content(data[offset..LineEnd(data, offset)])
  }

  lemma ReadHeader(data: string, n: nat, offset: nat, blocks: seq<Block>, current: Block, warnings: seq<Warning>, d: Scan)
    requires Parsed(data, n, offset, blocks, current, warnings) && offset < |data|
    requires ScanLine(ContentAt(data, offset)) == Some(d) && IsHeaderKey(Key(d))
    ensures Parsed(data, n + 1, LineEnd(data, offset),
                   if current.kind == Global then blocks else blocks + [current.(end := offset)],
                   Block(KindOf(Key(d)), AliasOf(KindOf(Key(d)), d.words), offset, 0,
                         Place(d, ContentAt(data, offset), offset, n + 1), []), warnings)
  {
    hide ScanLine, Parsed;
    ParsedHeader(data, n, offset, blocks, current, warnings);
  }

  lemma ReadDirective(data: string, n: nat, offset: nat, blocks: seq<Block>, current: Block, warnings: seq<Warning>, d: Scan)
    requires Parsed(data, n, offset, blocks, current, warnings) && offset < |data|
    requires ScanLine(ContentAt(data, offset)) == Some(d) && !IsHeaderKey(Key(d))
    ensures Parsed(data, n + 1, LineEnd(data, offset), blocks,
                   current.(directives := current.directives + [Place(d, ContentAt(data, offset), offset, n + 1)]),
                   if Key(d).Include? || !Supported(Key(d))
                   then warnings + [Warning(d.keyword, n + 1, WarningClass(Key(d)))] else warnings)
  {
    hide ScanLine, Parsed, KeywordOf;
    ParsedBody(data, n, offset, blocks, current, warnings);
    assert warnings + [] == warnings;
  }

  lemma ReadNothing(data: string, n: nat, offset: nat, blocks: seq<Block>, current: Block, warnings: seq<Warning>)
    requires Parsed(data, n, offset, blocks, current, warnings) && offset < |data|
    requires ScanLine(ContentAt(data, offset)) == None
    ensures Parsed(data, n + 1, LineEnd(data, offset), blocks, current, warnings)
  {
    hide ScanLine, Parsed;
    ParsedBody(data, n, offset, blocks, current, warnings);
    assert current.directives + [] == current.directives && warnings + [] == warnings;
  }

  method Parse(data: string) returns (doc: Document)
    ensures doc == DocumentOf(data)
  {
    hide Parsed, DocumentOf, HasCRLF, KeywordOf, ConcreteAlias, LineEnd, ScanLine, ContentAt;
    var newline := "\n";
    if HasCRLF(data) {
      newline := "\r\n";
    }
    var blocks: seq<Block>, warnings: seq<Warning> := [], [];
    var blank := Directive("", "", [], 0, 0, 0, 0, 0, "");
    var current := Block(Global, "", 0, 0, blank, []);
    var offset, lineNo := 0, 1;
    ParsedStart(data, current);
    while offset < |data| || (offset == 0 && |data| == 0)
      invariant offset <= |data| && lineNo >= 1
      invariant Parsed(data, lineNo - 1, offset, blocks, current, warnings)
      decreases |data| - offset
    {
      if |data| == 0 {
        break;
      }
      var lineEnd, contentEnd := FindLine(data, offset);
      var directive, ok := ScanDirective(data[offset..contentEnd], offset, lineNo);
      if ok {
        ghost var d := ScanLine(ContentAt(data, offset)).value;
        var key := KeywordOf(directive.keyword);
        if key.Host? || key.Match? {
          ReadHeader(data, lineNo - 1, offset, blocks, current, warnings, d);
          current := current.(end := offset);
          if current.kind != Global {
            blocks := blocks + [current];
          }
          var kind := HostBlock;
          if key.Match? {
            kind := MatchBlock;
          }
          current := Block(kind, "", offset, 0, directive, []);
          if kind == HostBlock && |directive.words| == 1 && ConcreteAlias(directive.words[0]) {
            current := current.(alias := directive.words[0]);
          }
        } else {
          ReadDirective(data, lineNo - 1, offset, blocks, current, warnings, d);
          current := current.(directives := current.directives + [directive]);
          if key.Include? || !Supported(key) {
            warnings := warnings + [Warning(directive.keyword, lineNo, WarningClass(key))];
          }
        }
      } else {
        ReadNothing(data, lineNo - 1, offset, blocks, current, warnings);
      }
      offset, lineNo := lineEnd, lineNo + 1;
      if data[offset - 1] != '\n' {
        break;
      }
    }
    ParsedEnd(data, lineNo - 1, blocks, current, warnings);
    current := current.(end := |data|);
    if current.kind != Global {
      blocks := blocks + [current];
    }
    doc := Document(data, newline, blocks, warnings);
  }

  /** The end of the line at an offset, and the end of its content. */
  method FindLine(data: string, offset: nat) returns (lineEnd: nat, contentEnd: nat)
    requires offset < |data|
    ensures lineEnd == LineEnd(data, offset)
    ensures offset <= contentEnd <= lineEnd && data[offset..contentEnd] == ContentAt(data, offset)
  {
    hide LineEnd;
    lineEnd := LineEnd(data, offset);
    contentEnd := lineEnd;
    if contentEnd > offset && data[contentEnd - 1] == '\n' {
      contentEnd := contentEnd - 1;
    }
    if contentEnd > offset && data[contentEnd - 1] == '\r' {
      contentEnd := contentEnd - 1;
    }
    ContentSlice(data, offset);
  }
}
