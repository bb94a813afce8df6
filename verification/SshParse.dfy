/** The configuration document: a preamble and blocks that tile the file, and
    the connection definitions read from its Host blocks. */
module SshParse {
  import opened Common
  import opened SshText

  // ---- The grouping of lines into blocks ----

  /** The lines of one block: its Host or Match line and what follows. */
  datatype RawBlock = RawBlock(head: string, body: seq<string>)

  datatype Grouping = Grouping(preamble: seq<string>, blocks: seq<RawBlock>)

  predicate IsHeader(line: string) {
    var d := ScanLine(Content(line));
    d.Some? && IsHeaderKey(Key(d.value))
  }

  predicate IsHeaderKey(key: Keyword) {
    key.Host? || key.Match?
  }

  /** Every header line opens a block that runs to the next header line. */
  function Group(lines: seq<string>): Grouping {
    if lines == [] then Grouping([], [])
    else
      var g := Group(lines[1..]);
      if IsHeader(lines[0]) then Grouping([], [RawBlock(lines[0], g.preamble)] + g.blocks)
      else Grouping([lines[0]] + g.preamble, g.blocks)
  }

  function BlockLines(b: RawBlock): seq<string> {
    [b.head] + b.body
  }

  function Ungroup(blocks: seq<RawBlock>): seq<string> {
    if blocks == [] then [] else BlockLines(blocks[0]) + Ungroup(blocks[1..])
  }

  ghost predicate NoHeader(lines: seq<string>) {
    forall i :: 0 <= i < |lines| ==> !IsHeader(lines[i])
  }

  ghost predicate WellGrouped(g: Grouping) {
    && NoHeader(g.preamble)
    && forall k :: 0 <= k < |g.blocks| ==> IsHeader(g.blocks[k].head) && NoHeader(g.blocks[k].body)
  }

  lemma {:induction false} GroupCovers(lines: seq<string>)
    ensures Group(lines).preamble + Ungroup(Group(lines).blocks) == lines
  {
    hide IsHeader, Ungroup;
    if lines != [] {
      GroupCovers(lines[1..]);
      var g, h := Group(lines[1..]), Group(lines);
      if IsHeader(lines[0]) {
        assert h == Grouping([], [RawBlock(lines[0], g.preamble)] + g.blocks);
        UngroupFirst(RawBlock(lines[0], g.preamble), g.blocks);
      } else {
        assert h == Grouping([lines[0]] + g.preamble, g.blocks);
      }
      assert h.preamble + Ungroup(h.blocks) == [lines[0]] + (g.preamble + Ungroup(g.blocks));
    } else {
      NothingUngrouped();
    }
  }

  lemma UngroupFirst(b: RawBlock, rest: seq<RawBlock>)
    ensures Ungroup([b] + rest) == [b.head] + b.body + Ungroup(rest)
  {
    assert ([b] + rest)[1..] == rest;
  }

  lemma NothingUngrouped()
    ensures Ungroup([]) == []
  {}

  lemma {:induction false} GroupWellFormed(lines: seq<string>)
    ensures WellGrouped(Group(lines))
    ensures Group(lines).preamble + Ungroup(Group(lines).blocks) == lines
  {
    hide IsHeader, Ungroup;
    GroupCovers(lines);
    if lines != [] {
      GroupWellFormed(lines[1..]);
    }
  }

  /** The blocks of a file, as lines. */
  function Blocks(data: string): (bs: seq<RawBlock>)
    ensures forall k :: 0 <= k < |bs| ==> IsHeader(bs[k].head)
  {
    GroupWellFormed(Lines(data));
    Group(Lines(data)).blocks
  }

  function Preamble(data: string): seq<string> {
    Group(Lines(data)).preamble
  }

  lemma {:induction false} GroupBody(lines: seq<string>, rest: seq<string>)
    requires NoHeader(lines)
    ensures Group(lines + rest) == Grouping(lines + Group(rest).preamble, Group(rest).blocks)
  {
    hide IsHeader;
    if lines == [] {
      assert lines + rest == rest;
      assert lines + Group(rest).preamble == Group(rest).preamble;
    } else {
      assert (lines + rest)[1..] == lines[1..] + rest;
      GroupBody(lines[1..], rest);
      assert [lines[0]] + (lines[1..] + Group(rest).preamble) == lines + Group(rest).preamble;
    }
  }

  /** Grouping is determined by the text: it inverts concatenation of well-grouped blocks. */
  lemma {:induction false} GroupUngroup(blocks: seq<RawBlock>)
    requires WellGrouped(Grouping([], blocks))
    ensures Group(Ungroup(blocks)) == Grouping([], blocks)
  {
    hide IsHeader;
    if blocks != [] {
      var b, rest := blocks[0], blocks[1..];
      assert WellGrouped(Grouping([], rest)) by {
        forall k | 0 <= k < |rest| ensures IsHeader(rest[k].head) && NoHeader(rest[k].body) {
          assert rest[k] == blocks[k + 1];
        }
      }
      GroupUngroup(rest);
      GroupBody(b.body, Ungroup(rest));
      var lines := Ungroup(blocks);
      assert lines[1..] == b.body + Ungroup(rest);
      assert b.body + [] == b.body;
    }
  }

  lemma GroupingIsUnique(g: Grouping)
    requires WellGrouped(g)
    ensures Group(g.preamble + Ungroup(g.blocks)) == g
  {
    GroupUngroup(g.blocks);
    GroupBody(g.preamble, Ungroup(g.blocks));
    assert g.preamble + [] == g.preamble;
  }

  lemma {:induction false} UngroupAppend(a: seq<RawBlock>, b: seq<RawBlock>)
    ensures Ungroup(a + b) == Ungroup(a) + Ungroup(b)
  {
    if a == [] {
      assert a + b == b;
    } else {
      assert (a + b)[1..] == a[1..] + b;
      UngroupAppend(a[1..], b);
    }
  }

  // ---- The document ----

  datatype Directive = Directive(
    keyword: string, value: string, words: seq<string>, line: nat,
    lineStart: nat, lineEnd: nat, valueStart: nat, valueEnd: nat, raw: string)

  datatype BlockKind = Global | HostBlock | MatchBlock

  /** `alias` is empty when the header does not name one concrete host. */
  datatype Block = Block(kind: BlockKind, alias: string, start: nat, end: nat, header: Directive, directives: seq<Directive>)

  datatype Warning = Warning(directive: string, line: nat, kind: string)

  datatype Document = Document(bytes: string, newline: string, blocks: seq<Block>, warnings: seq<Warning>)

  function Place(d: Scan, content: string, offset: nat, no: nat): Directive {
    Directive(d.keyword, d.value, d.words, no, offset, offset + |content|, offset + d.at, offset + d.at + |d.value|, content)
  }

  function PlaceLine(line: string, offset: nat, no: nat): seq<Directive> {
    var d := ScanLine(Content(line));
    if d.Some? then [Place(d.value, Content(line), offset, no)] else []
  }

  function PlaceBody(lines: seq<string>, offset: nat, no: nat): seq<Directive> {
    if lines == [] then []
    else PlaceLine(lines[0], offset, no) + PlaceBody(lines[1..], offset + |lines[0]|, no + 1)
  }

  function KindOf(key: Keyword): BlockKind {
    if key.Match? then MatchBlock else HostBlock
  }

  predicate ConcreteAlias(alias: string) {
    alias != "" && forall i :: 0 <= i < |alias| ==> alias[i] !in {'*', '!', '?'}
  }

  function AliasOf(kind: BlockKind, words: seq<string>): string {
    if kind == HostBlock && |words| == 1 && ConcreteAlias(words[0]) then words[0] else ""
  }

  function HeadAlias(head: string): string
    requires IsHeader(head)
  {
    var d := ScanLine(Content(head)).value;
    AliasOf(KindOf(Key(d)), d.words)
  }

  function PlaceBlock(b: RawBlock, offset: nat, no: nat): (r: Block)
    requires IsHeader(b.head)
    ensures r.start == offset && r.end == offset + |Flatten(BlockLines(b))|
  {
    var d := ScanLine(Content(b.head)).value;
    Block(KindOf(Key(d)), HeadAlias(b.head), offset, offset + |Flatten(BlockLines(b))|,
          Place(d, Content(b.head), offset, no), PlaceBody(b.body, offset + |b.head|, no + 1))
  }

  function PlaceBlocks(blocks: seq<RawBlock>, offset: nat, no: nat): (r: seq<Block>)
    requires forall k :: 0 <= k < |blocks| ==> IsHeader(blocks[k].head)
    ensures |r| == |blocks|
  {
    if blocks == [] then []
    else [PlaceBlock(blocks[0], offset, no)]
         + PlaceBlocks(blocks[1..], offset + |Flatten(BlockLines(blocks[0]))|, no + |BlockLines(blocks[0])|)
  }

  function WarningClass(key: Keyword): string {
    if key.Include? then "include_ignored" else "advanced_directive"
  }

  function LineWarning(line: string, no: nat): seq<Warning> {
    var d := ScanLine(Content(line));
    if d.Some? && !IsHeaderKey(Key(d.value)) && !Supported(Key(d.value))
    then [Warning(d.value.keyword, no, WarningClass(Key(d.value)))]
    else []
  }

  function WarningsFrom(lines: seq<string>, no: nat): seq<Warning> {
    if lines == [] then [] else LineWarning(lines[0], no) + WarningsFrom(lines[1..], no + 1)
  }

  predicate HasCRLF(data: string) {
    exists i :: 0 <= i < |data| - 1 && data[i] == '\r' && data[i + 1] == '\n'
  }

  function NewlineOf(data: string): string {
    if HasCRLF(data) then "\r\n" else "\n"
  }

  /** The document of a file. */
  function DocumentOf(data: string): Document {
    var g := Group(Lines(data));
    GroupWellFormed(Lines(data));
    Document(data, NewlineOf(data), PlaceBlocks(g.blocks, |Flatten(g.preamble)|, 1 + |g.preamble|),
             WarningsFrom(Lines(data), 1))
  }

  // ---- Tiling ----

  lemma DocumentNewlineIs(data: string)
    ensures DocumentOf(data).newline == NewlineOf(data)
  {}

  lemma HeaderNonempty(line: string)
    requires IsHeader(line)
    ensures line != ""
  {}

  /** The placed blocks cover the stretch from lo to hi. */
  ghost predicate Covers(placed: seq<Block>, lo: nat, hi: nat) {
    if placed == [] then lo == hi
    else placed[0].start == lo && lo < placed[0].end <= hi && Covers(placed[1..], placed[0].end, hi)
  }

  lemma {:induction false} PlaceBlocksTile(blocks: seq<RawBlock>, offset: nat, no: nat)
    requires forall k :: 0 <= k < |blocks| ==> IsHeader(blocks[k].head)
    ensures Covers(PlaceBlocks(blocks, offset, no), offset, offset + |Flatten(Ungroup(blocks))|)
  {
    hide IsHeader, PlaceBlock, Flatten;
    if blocks == [] {
      assert Ungroup(blocks) == [];
      assert Flatten([]) == "" by { FlattenNone(); }
    } else {
      var b := blocks[0];
      var lines := BlockLines(b);
      var next := offset + |Flatten(lines)|;
      PlaceBlocksTile(blocks[1..], next, no + |lines|);
      FlattenAppend(lines, Ungroup(blocks[1..]));
      HeaderNonempty(b.head);
      FlattenNonempty(lines);
      assert PlaceBlocks(blocks, offset, no)[1..] == PlaceBlocks(blocks[1..], next, no + |lines|);
    }
  }

  lemma FlattenNone()
    ensures Flatten([]) == ""
  {}

  lemma {:induction false} CoversWithoutGap(placed: seq<Block>, lo: nat, hi: nat)
    requires Covers(placed, lo, hi)
    ensures forall k :: 0 <= k < |placed| ==> lo <= placed[k].start < placed[k].end <= hi
    ensures forall k :: 0 < k < |placed| ==> placed[k].start == placed[k - 1].end
    ensures placed != [] ==> placed[0].start == lo && placed[|placed| - 1].end == hi
    ensures placed == [] ==> lo == hi
  {
    if placed != [] {
      var rest := placed[1..];
      CoversWithoutGap(rest, placed[0].end, hi);
      forall k | 0 < k < |placed| ensures placed[k].start == placed[k - 1].end && lo <= placed[k].start < placed[k].end <= hi {
        assert placed[k] == rest[k - 1];
        if k > 1 {
          assert placed[k - 1] == rest[k - 2];
        }
      }
      if rest != [] {
        assert placed[|placed| - 1] == rest[|rest| - 1];
      }
    }
  }

  /** A block of the document holds whole lines of the file: those of its group. */
  ghost predicate HoldsLines(data: string, block: Block, lines: seq<string>) {
    && block.start < block.end <= |data|
    && AtLineStart(data[..block.start])
    && data[block.start..block.end] == Flatten(lines)
  }

  /** The preamble and the blocks cover the file without gap or overlap, and every block starts a line. */
  lemma ParseTiles(data: string)
    ensures |DocumentOf(data).blocks| == |Blocks(data)|
    ensures forall k :: 0 <= k < |Blocks(data)| ==> HoldsLines(data, DocumentOf(data).blocks[k], BlockLines(Blocks(data)[k]))
    ensures |Flatten(Preamble(data))| <= |data|
    ensures data[..|Flatten(Preamble(data))|] == Flatten(Preamble(data))
    ensures Covers(DocumentOf(data).blocks, |Flatten(Preamble(data))|, |data|)
  {
    SameBlocks(data);
    TilesCover(data);
    hide *;
    forall k | 0 <= k < |Blocks(data)|
      ensures HoldsLines(data, DocumentOf(data).blocks[k], BlockLines(Blocks(data)[k]))
    {
      BlockHoldsLines(data, k);
    }
  }

  lemma TilesCover(data: string)
    ensures |Flatten(Preamble(data))| <= |data|
    ensures data[..|Flatten(Preamble(data))|] == Flatten(Preamble(data))
    ensures Covers(DocumentOf(data).blocks, |Flatten(Preamble(data))|, |data|)
  {
    hide IsHeader, Lines, Group, WarningsFrom, PlaceBlocks, Flatten, Ungroup, Covers;
    var g := Group(Lines(data));
    GroupWellFormed(Lines(data));
    PlaceBlocksTile(g.blocks, |Flatten(g.preamble)|, 1 + |g.preamble|);
    FlattenAppend(g.preamble, Ungroup(g.blocks));
    FlattenLines(data);
  }

  lemma BlockHoldsLines(data: string, k: nat)
    requires k < |Blocks(data)|
    ensures k < |DocumentOf(data).blocks|
    ensures HoldsLines(data, DocumentOf(data).blocks[k], BlockLines(Blocks(data)[k]))
  {
    hide IsHeader, Lines, Group, WarningsFrom, ScanLine, HeadAlias, AtLineStart, Before, After, DocumentOf, Blocks, Flatten;
    SameBlocks(data);
    BlockText(data, k);
    BlockPlaced(data, k);
    var lines := BlockLines(Blocks(data)[k]);
    HeaderNonempty(Blocks(data)[k].head);
    FlattenNonempty(lines);
    ThreeParts(Before(data, k), Flatten(lines), After(data, k));
  }

  lemma FlattenNonempty(lines: seq<string>)
    requires lines != [] && lines[0] != ""
    ensures Flatten(lines) != ""
  {}

  lemma SameBlocks(data: string)
    ensures |DocumentOf(data).blocks| == |Blocks(data)|
  {
    hide IsHeader, Lines, Group, PlaceBlocks;
  }

  lemma {:induction false} PlaceBlocksAt(blocks: seq<RawBlock>, offset: nat, no: nat, k: nat)
    requires k < |blocks|
    requires forall k :: 0 <= k < |blocks| ==> IsHeader(blocks[k].head)
    ensures PlaceBlocks(blocks, offset, no)[k]
         == PlaceBlock(blocks[k], offset + |Flatten(Ungroup(blocks[..k]))|, no + |Ungroup(blocks[..k])|)
  {
    hide IsHeader, PlaceBlock;
    if k > 0 {
      var b, rest := blocks[0], blocks[1..];
      PlaceBlocksAt(rest, offset + |Flatten(BlockLines(b))|, no + |BlockLines(b)|, k - 1);
      assert blocks[..k][0] == b && blocks[..k][1..] == rest[..k - 1];
      FlattenAppend(BlockLines(b), Ungroup(rest[..k - 1]));
    }
  }

  /** The text before block k, of block k, and after it. */
  function Before(data: string, k: nat): string
    requires k < |Blocks(data)|
  {
    Flatten(Preamble(data) + Ungroup(Blocks(data)[..k]))
  }

  function After(data: string, k: nat): string
    requires k < |Blocks(data)|
  {
    Flatten(Ungroup(Blocks(data)[k + 1..]))
  }

  lemma {:induction false} UngroupAt(blocks: seq<RawBlock>, k: nat)
    requires k < |blocks|
    ensures Ungroup(blocks) == Ungroup(blocks[..k]) + BlockLines(blocks[k]) + Ungroup(blocks[k + 1..])
  {
    assert blocks == blocks[..k] + blocks[k..];
    UngroupAppend(blocks[..k], blocks[k..]);
    assert blocks[k..][1..] == blocks[k + 1..];
  }

  lemma {:induction false} FlattenAtLineStart(lines: seq<string>)
    requires forall i :: 0 <= i < |lines| ==> Terminated(lines[i])
    ensures AtLineStart(Flatten(lines))
  {
    if lines != [] {
      FlattenAtLineStart(lines[1..]);
      var rest := Flatten(lines[1..]);
      if rest == "" {
        assert lines[0] + rest == lines[0];
      } else {
        assert (lines[0] + rest)[|lines[0] + rest| - 1] == rest[|rest| - 1];
      }
    }
  }

  lemma ThreeParts(a: string, b: string, c: string)
    ensures (a + b + c)[..|a|] == a
    ensures (a + b + c)[|a|..|a| + |b|] == b
    ensures (a + b + c)[|a| + |b|..] == c
  {}

  lemma {:induction false} PrefixAtLineStart(lines: seq<string>, n: nat)
    requires WellFormedLines(lines) && n < |lines|
    ensures AtLineStart(Flatten(lines[..n]))
  {
    FlattenAtLineStart(lines[..n]);
  }

  lemma FlattenThree(a: seq<string>, b: seq<string>, c: seq<string>)
    ensures Flatten(a + b + c) == Flatten(a) + Flatten(b) + Flatten(c)
  {
    FlattenAppend(a + b, c);
    FlattenAppend(a, b);
  }

  /** The file is what precedes block k, block k, and what follows it. */
  lemma BlockText(data: string, k: nat)
    requires k < |Blocks(data)|
    ensures data == Before(data, k) + Flatten(BlockLines(Blocks(data)[k])) + After(data, k)
    ensures AtLineStart(Before(data, k))
  {
    hide IsHeader, Lines, Group;
    var lines := Lines(data);
    var g := Group(lines);
    GroupWellFormed(lines);
    UngroupAt(g.blocks, k);
    var pre := g.preamble + Ungroup(g.blocks[..k]);
    var mid := BlockLines(g.blocks[k]);
    var post := Ungroup(g.blocks[k + 1..]);
    assert lines == pre + mid + post;
    FlattenThree(pre, mid, post);
    FlattenLines(data);
    LinesWellFormed(data);
    assert lines[..|pre|] == pre;
    PrefixAtLineStart(lines, |pre|);
  }

  /** Block k of the document is the k-th group of lines, placed after the text before it. */
  lemma BlockPlaced(data: string, k: nat)
    requires k < |Blocks(data)|
    ensures IsHeader(Blocks(data)[k].head)
    ensures |DocumentOf(data).blocks| == |Blocks(data)|
    ensures DocumentOf(data).blocks[k]
         == PlaceBlock(Blocks(data)[k], |Before(data, k)|,
                       1 + |Preamble(data)| + |Ungroup(Blocks(data)[..k])|)
  {
    hide IsHeader, PlaceBlock, WarningsFrom, Lines, Group;
    var g := Group(Lines(data));
    GroupWellFormed(Lines(data));
    PlaceBlocksAt(g.blocks, |Flatten(g.preamble)|, 1 + |g.preamble|, k);
    FlattenAppend(g.preamble, Ungroup(g.blocks[..k]));
  }
}
