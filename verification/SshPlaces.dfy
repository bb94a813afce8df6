/** Where the directives of a parsed document stand in the file: the editor changes bytes by these places. */
module SshPlaces {
  import opened Common
  import opened SshText
  import opened SshParse

  /** The directive is that of its line, and its line and its value are where it says they are. */
  ghost predicate Stands(data: string, d: Directive) {
    var lines := Lines(data);
    && 1 <= d.line <= |lines| && d.raw == Content(lines[d.line - 1]) && ScanLine(d.raw).Some?
    && d.lineStart == |Flatten(lines[..d.line - 1])| && d.lineStart <= d.valueStart <= d.valueEnd <= d.lineEnd <= |data|
    && data[d.lineStart..d.lineEnd] == d.raw && data[d.valueStart..d.valueEnd] == d.value
    && ScanLine(d.raw).value == Scan(d.keyword, d.value, d.words, d.valueStart - d.lineStart)
  }

  lemma PlaceStands(data: string, before: seq<string>, line: string, after: seq<string>)
    requires Lines(data) == before + [line] + after && ScanLine(Content(line)).Some?
    ensures Stands(data, Place(ScanLine(Content(line)).value, Content(line), |Flatten(before)|, 1 + |before|))
  {
    FlattenLines(data);
    FlattenAppend(before + [line], after);
    FlattenAppend(before, [line]);
    FlattenOne(line);
    hide Lines, ScanLine, Flatten, Words, ContentEnd;
    var c, d := Content(line), ScanLine(Content(line)).value;
    var at := |Flatten(before)|;
    assert data == Flatten(before) + line + Flatten(after);
    assert data[at..at + |c|] == c;
    assert data[at + d.at..at + d.at + |d.value|] == data[at..at + |c|][d.at..d.at + |d.value|];
    assert Lines(data)[..|before|] == before;
  }

  predicate HasLine(ds: seq<Directive>, no: nat) {
    exists i :: 0 <= i < |ds| && ds[i].line == no
  }

  lemma HasLineOf(a: seq<Directive>, b: seq<Directive>, no: nat)
    ensures HasLine(a + b, no) <==> HasLine(a, no) || HasLine(b, no)
  {
    var ab := a + b;
    assert forall i :: 0 <= i < |a| ==> ab[i] == a[i];
    assert forall i :: 0 <= i < |b| ==> ab[|a| + i] == b[i];
  }

  /** Every directive of the lines stands, and every line with a directive has one. */
  lemma {:induction false} BodyStands(data: string, before: seq<string>, lines: seq<string>, after: seq<string>)
    requires Lines(data) == before + lines + after
    ensures var ds := PlaceBody(lines, |Flatten(before)|, 1 + |before|);
      && (forall i :: 0 <= i < |ds| ==> Stands(data, ds[i]) && |before| < ds[i].line <= |before| + |lines|)
      && (forall i, j :: 0 <= i < j < |ds| ==> ds[i].line < ds[j].line)
      && (forall n :: |before| <= n < |before| + |lines| && ScanLine(Content(Lines(data)[n])).Some? ==> HasLine(ds, n + 1))
    decreases |lines|
  {
    hide Lines, ScanLine, Flatten, Words, Content, Stands;
    if lines != [] {
      var line, rest := lines[0], lines[1..];
      assert before + [line] + rest == before + lines;
      assert before + [line] + (rest + after) == before + lines + after;
      assert before + [line] + rest + after == before + lines + after;
      BodyStands(data, before + [line], rest, after);
      FlattenAppend(before, [line]);
      FlattenOne(line);
      if ScanLine(Content(line)).Some? {
        PlaceStands(data, before, line, rest + after);
      }
      FirstAndRest(data, before, line, rest);
      assert lines == [line] + rest;
      hide PlaceBody;
      var ds := PlaceBody(rest, |Flatten(before + [line])|, 1 + |before + [line]|);
      forall n | |before| <= n < |before| + |lines| && ScanLine(Content(Lines(data)[n])).Some?
        ensures HasLine(PlaceBody(lines, |Flatten(before)|, 1 + |before|), n + 1)
      {
        HasLineOf(PlaceLine(line, |Flatten(before)|, 1 + |before|), ds, n + 1);
        if n == |before| {
          assert PlaceLine(line, |Flatten(before)|, 1 + |before|)[0].line == n + 1;
        }
      }
    }
  }

  lemma FirstAndRest(data: string, before: seq<string>, line: string, rest: seq<string>)
    requires |Flatten(before + [line])| == |Flatten(before)| + |line|
    ensures PlaceBody([line] + rest, |Flatten(before)|, 1 + |before|)
         == PlaceLine(line, |Flatten(before)|, 1 + |before|) + PlaceBody(rest, |Flatten(before + [line])|, 1 + |before + [line]|)
  {
    hide PlaceLine, Flatten;
    assert ([line] + rest)[1..] == rest;
  }

  /** The header and every directive of a block stand in the file, one for each line of the block that holds a directive, in order;
      the lines of a block are those from its header to the next header. */
  lemma DirectivesStand(data: string, k: nat)
    requires k < |DocumentOf(data).blocks|
    ensures var b, lines := DocumentOf(data).blocks[k], Lines(data);
      && Stands(data, b.header) && b.start == b.header.lineStart
      && (forall i :: 0 <= i < |b.directives| ==> Stands(data, b.directives[i]) && b.header.line < b.directives[i].line)
      && (forall i, j :: 0 <= i < j < |b.directives| ==> b.directives[i].line < b.directives[j].line)
      && exists last: nat :: b.header.line <= last <= |lines| && b.end == |Flatten(lines[..last])|
           && (forall n :: b.header.line <= n < last && ScanLine(Content(lines[n])).Some? ==> HasLine(b.directives, n + 1) && !IsHeader(lines[n]))
           && (last < |lines| ==> IsHeader(lines[last]))
  {
    hide DocumentOf, Blocks, IsHeader, Lines, ScanLine, Content, Flatten, PlaceBody, HasLine, Stands;
    SameBlocks(data);
    BlockPlaced(data, k);
    var before, b, after := LinesAround(data, k);
    HeaderHasScan(b.head);
    assert before + [b.head] + (b.body + after) == before + BlockLines(b) + after;
    assert before + [b.head] + b.body + after == before + BlockLines(b) + after;
    PlaceStands(data, before, b.head, b.body + after);
    BodyStands(data, before + [b.head], b.body, after);
    FlattenAppend(before, [b.head]);
    FlattenOne(b.head);
    FlattenAppend(before, BlockLines(b));
    assert |before + [b.head]| == |Preamble(data)| + |Ungroup(Blocks(data)[..k])| + 1;
    assert DocumentOf(data).blocks[k].directives == PlaceBody(b.body, |Flatten(before + [b.head])|, 1 + |before + [b.head]|);
    assert DocumentOf(data).blocks[k].header.line == 1 + |before|;
    var last := |before + BlockLines(b)|;
    assert Lines(data)[..last] == before + BlockLines(b);
    assert forall n :: |before| + 1 <= n < last ==> Lines(data)[n] == b.body[n - |before| - 1];
  }

  lemma HeaderHasScan(head: string)
    requires IsHeader(head)
    ensures ScanLine(Content(head)).Some?
  {
    hide ScanLine, Content;
  }

  lemma LinesAround(data: string, k: nat) returns (before: seq<string>, b: RawBlock, after: seq<string>)
    requires k < |Blocks(data)|
    ensures b == Blocks(data)[k] && before == Preamble(data) + Ungroup(Blocks(data)[..k])
    ensures Lines(data) == before + BlockLines(b) + after && NoHeader(b.body) && (after != [] ==> IsHeader(after[0]))
  {
    hide IsHeader, Lines, Group;
    var g := Group(Lines(data));
    GroupWellFormed(Lines(data));
    UngroupAt(g.blocks, k);
    before, b, after := g.preamble + Ungroup(g.blocks[..k]), g.blocks[k], Ungroup(g.blocks[k + 1..]);
  }
}
