/** Which blocks of a file are connections, and what the fields of a definition are, on the characters of the file. */
module SshHosts {
  import opened Common
  import opened SshText
  import opened SshParse
  import opened SshDefinition
  import opened SshScan
  import SP = SshPatch

  // ---- Keywords ----

  /** The keywords, in lower case. */
  lemma KeywordTexts(text: string)
    ensures KeywordOf(text) == Host <==> Lower(text) == "host"
    ensures KeywordOf(text) == Match <==> Lower(text) == "match"
    ensures KeywordOf(text) == Include <==> Lower(text) == "include"
    ensures KeywordOf(text) == HostName <==> Lower(text) == "hostname"
    ensures KeywordOf(text) == User <==> Lower(text) == "user"
    ensures KeywordOf(text) == Port <==> Lower(text) == "port"
    ensures KeywordOf(text) == IdentityFile <==> Lower(text) == "identityfile"
    ensures KeywordOf(text) == IdentitiesOnly <==> Lower(text) == "identitiesonly"
    ensures KeywordOf(text) == StrictHostKeyChecking <==> Lower(text) == "stricthostkeychecking"
    ensures KeywordOf(text) == UserKnownHostsFile <==> Lower(text) == "userknownhostsfile"
    ensures KeywordOf(text) == ServerAliveInterval <==> Lower(text) == "serveraliveinterval"
  {}

  /** The directives whose value a definition holds are those of the eight keywords. */
  lemma SupportedTexts(text: string)
    ensures Supported(KeywordOf(text)) <==>
      Lower(text) in {"hostname", "user", "port", "identityfile", "identitiesonly", "stricthostkeychecking", "userknownhostsfile", "serveraliveinterval"}
  {
    KeywordTexts(text);
    hide Lower;
    assert KeywordOf(text).Unknown? ==>
      Lower(text) !in {"hostname", "user", "port", "identityfile", "identitiesonly", "stricthostkeychecking", "userknownhostsfile", "serveraliveinterval"};
  }

  /** Blank are the six characters of ASCII that Unicode counts as white space. */
  lemma SpaceIs(c: char)
    ensures IsSpace(c) <==> c in " \t\n\U{b}\U{c}\r"
  {
    var blanks := " \t\n\U{b}\U{c}\r";
    if '\t' <= c <= '\r' {
      assert blanks[1 + (c - '\t') as int] == c;
    } else if c == ' ' {
      assert blanks[0] == c;
    }
  }

  // ---- Hosts ----

  /** The block of one host: its keyword is Host, and its value is one word without a pattern character. */
  predicate NamesHost(b: Block) {
    && Lower(b.header.keyword) == "host" && |Words(b.header.value)| == 1
    && forall i :: 0 <= i < |Words(b.header.value)[0]| ==>
         Words(b.header.value)[0][i] != '*' && Words(b.header.value)[0][i] != '!' && Words(b.header.value)[0][i] != '?'
  }

  lemma PlacedHeader(b: RawBlock, offset: nat, no: nat)
    requires IsHeader(b.head)
    ensures var r := PlaceBlock(b, offset, no);
      && r.header.words == Words(r.header.value)
      && (Lower(r.header.keyword) == "host" <==> r.kind == HostBlock) && (Lower(r.header.keyword) == "match" <==> r.kind == MatchBlock)
      && r.kind != Global && r.alias == HeadAlias(b.head)
      && (r.alias != "" <==> NamesHost(r)) && (NamesHost(r) ==> r.alias == Words(r.header.value)[0])
  {
    var d := ScanLine(Content(b.head)).value;
    KeywordTexts(d.keyword);
    if d.words != [] {
      FirstNonempty(d.value);
    }
    hide KeywordOf, ScanLine, Words, Content, Flatten, PlaceBody, Lower;
  }

  /** A block of the parsed document has an alias if and only if it is the block of one host, and the alias is its word. */
  lemma AliasIff(data: string, k: nat)
    requires k < |DocumentOf(data).blocks|
    ensures var b := DocumentOf(data).blocks[k];
      && (Lower(b.header.keyword) == "host" <==> b.kind == HostBlock) && (Lower(b.header.keyword) == "match" <==> b.kind == MatchBlock)
      && (b.alias != "" <==> NamesHost(b)) && (NamesHost(b) ==> b.alias == Words(b.header.value)[0])
  {
    hide IsHeader, NamesHost, DocumentOf, Blocks, Before, Flatten, PlaceBlock, Words, Lower;
    SameBlocks(data);
    BlockPlaced(data, k);
    PlacedHeader(Blocks(data)[k], |Before(data, k)|, 1 + |Preamble(data)| + |Ungroup(Blocks(data)[..k])|);
  }

  /** The names of the blocks that are hosts, in the order of the file. */
  function HostNames(blocks: seq<Block>): seq<string> {
    if blocks == [] then []
    else (if NamesHost(blocks[0]) then [Words(blocks[0].header.value)[0]] else []) + HostNames(blocks[1..])
  }

  function Aliases(definitions: seq<Definition>): seq<string> {
    seq(|definitions|, i requires 0 <= i < |definitions| => definitions[i].alias)
  }

  lemma {:induction false} PlacedNames(blocks: seq<RawBlock>, offset: nat, no: nat, known: set<string>)
    requires forall k :: 0 <= k < |blocks| ==> IsHeader(blocks[k].head)
    ensures Aliases(DefinitionsOf(blocks, known)) == HostNames(PlaceBlocks(blocks, offset, no))
  {
    hide IsHeader, HeadAlias, PlaceBlock, NamesHost, Flatten, DefinitionOf, Words, Readings;
    if blocks != [] {
      var b := blocks[0];
      PlacedHeader(b, offset, no);
      PlacedNames(blocks[1..], offset + |Flatten(BlockLines(b))|, no + |BlockLines(b)|, known);
      AliasOfDefinition(b, known);
      var placed := PlaceBlocks(blocks, offset, no);
      assert placed[1..] == PlaceBlocks(blocks[1..], offset + |Flatten(BlockLines(b))|, no + |BlockLines(b)|);
      AliasesAppend(BlockDefinition(b, known), DefinitionsOf(blocks[1..], known));
    }
  }

  lemma AliasesAppend(a: seq<Definition>, b: seq<Definition>)
    ensures Aliases(a + b) == Aliases(a) + Aliases(b)
  {}

  lemma AliasOfDefinition(b: RawBlock, known: set<string>)
    requires IsHeader(b.head)
    ensures Aliases(BlockDefinition(b, known)) == if HeadAlias(b.head) == "" then [] else [HeadAlias(b.head)]
  {
    hide IsHeader, HeadAlias, Values, ManagedNames, Last, Advanced, Assess, Readings, PortOf, IntervalOf, YesNoOf, StrictOf, KnownHostsOf;
  }

  /** The definitions of a file are those of its hosts, one for each, in order. */
  lemma DefinitionsAreHosts(data: string, known: set<string>)
    ensures Aliases(Meaning(data, known)) == HostNames(DocumentOf(data).blocks)
  {
    hide IsHeader, Lines, Group, PlaceBlocks, DefinitionsOf, HostNames, Aliases, WarningsFrom;
    var g := Group(Lines(data));
    GroupWellFormed(Lines(data));
    PlacedNames(g.blocks, |Flatten(g.preamble)|, 1 + |g.preamble|, known);
  }

  // ---- The values of a definition ----

  /** The last value that can be read, and none exactly when none can. */
  ghost predicate IsLast<T(!new)>(r: Option<T>, values: seq<string>, can: string -> bool, read: string -> T) {
    match r
    case None => forall i :: 0 <= i < |values| ==> !can(values[i])
    case Some(v) => exists i :: 0 <= i < |values| && can(values[i]) && read(values[i]) == v && forall j :: i < j < |values| ==> !can(values[j])
  }

  lemma {:induction false} LastIs<T(!new)>(values: seq<string>, f: string -> Option<T>, can: string -> bool, read: string -> T)
    requires forall v :: (f(v).Some? <==> can(v)) && (f(v).Some? ==> f(v).value == read(v))
    ensures IsLast(Last(values, f), values, can, read)
  {
    if values != [] {
      var n := |values| - 1;
      if f(values[n]).None? {
        LastIs(values[..n], f, can, read);
        assert forall i :: 0 <= i < n ==> values[..n][i] == values[i];
      } else {
        assert can(values[n]);
      }
    }
  }

  predicate AllDigits(s: string) {
    s != "" && forall i :: 0 <= i < |s| ==> '0' <= s[i] <= '9'
  }

  function Number(s: string): nat {
    if s == "" then 0 else Number(s[..|s| - 1]) * 10 + (if '0' <= s[|s| - 1] <= '9' then s[|s| - 1] as nat - 48 else 0)
  }

  lemma {:induction false} NumberIs(s: string)
    requires forall i :: 0 <= i < |s| ==> '0' <= s[i] <= '9'
    ensures DigitsValue(s) == Number(s)
  {
    if s != "" {
      NumberIs(s[..|s| - 1]);
      assert DigitOf(s[|s| - 1]) == s[|s| - 1] as nat - 48;
    }
  }

  /** The values that can be represented, on their characters. */
  lemma ReadersAre(v: string)
    ensures PortOf(v).Some? <==> AllDigits(v) && 1 <= Number(v) <= 65535
    ensures IntervalOf(v).Some? <==> AllDigits(v) && Number(v) <= 4294967295
    ensures PortOf(v).Some? ==> PortOf(v).value == Number(v)
    ensures IntervalOf(v).Some? ==> IntervalOf(v).value == Number(v)
    ensures YesNoOf(v) == if Lower(v) in {"yes", "no"} then Some(Lower(v)) else None
    ensures StrictOf(v) == if Lower(v) == "no" then Some("no") else None
    ensures KnownHostsOf(v) == if v == "/dev/null" then Some("/dev/null") else None
  {
    if AllDigits(v) {
      NumberIs(v);
    }
    hide DigitsValue, Number, Lower;
  }

  predicate EndsIn(s: string, suffix: string) {
    exists i :: 0 <= i <= |s| && s[i..] == suffix
  }

  /** A key file of the application: under the key directory or without a directory, with one of four names or endings. */
  lemma ManagedAre(v: string)
    ensures var name := if "~/.ssh/" <= v then v[7..] else v;
      var ofApplication := name == "id_ed25519" || name == "id_rsa" || EndsIn(name, "_ed25519") || EndsIn(name, "_rsa");
      && (ManagedIdentity(v).Some? <==> name != "" && (forall i :: 0 <= i < |name| ==> name[i] != '/') && ofApplication)
      && (ManagedIdentity(v).Some? ==> ManagedIdentity(v).value == name)
  {
    var name := TrimKeyDir(v);
    SuffixIs(name, "_ed25519");
    SuffixIs(name, "_rsa");
    assert '/' in name <==> exists i :: 0 <= i < |name| && name[i] == '/';
    hide HasSuffix, EndsIn;
  }

  lemma SuffixIs(s: string, suffix: string)
    ensures HasSuffix(s, suffix) <==> EndsIn(s, suffix)
  {
    if HasSuffix(s, suffix) {
      assert s[|s| - |suffix|..] == suffix;
    }
  }

  /** Each single-valued field of a definition is the last of the values of its key that can be represented. */
  lemma FieldsAre(alias: string, rs: seq<Reading>, known: set<string>)
    ensures var d := DefinitionOf(alias, rs, known);
      && d.alias == alias
      && IsLast(d.hostName, Values(rs, HostName), v => true, v => v)
      && IsLast(d.user, Values(rs, User), v => true, v => v)
      && IsLast(d.port, Values(rs, Port), v => AllDigits(v) && 1 <= Number(v) <= 65535, v => Number(v))
      && IsLast(d.serverAliveInterval, Values(rs, ServerAliveInterval), v => AllDigits(v) && Number(v) <= 4294967295, v => Number(v))
      && IsLast(d.identitiesOnly, Values(rs, IdentitiesOnly), v => Lower(v) in {"yes", "no"}, v => Lower(v))
      && IsLast(d.strictHostKeyChecking, Values(rs, StrictHostKeyChecking), v => Lower(v) == "no", v => "no")
      && IsLast(d.userKnownHostsFile, Values(rs, UserKnownHostsFile), v => v == "/dev/null", v => v)
      && d.identityFiles == ManagedNames(Values(rs, IdentityFile), known) && |d.identityFiles| + d.unmanaged == |Values(rs, IdentityFile)|
      && d.advanced + |Represented(rs)| == |rs|
  {
    AdvancedIs(rs);
    forall v {
      ReadersAre(v);
    }
    hide PortOf, IntervalOf, YesNoOf, StrictOf, KnownHostsOf, Values, Last, ManagedNames, Advanced, Assess, IsLast, AllDigits, Number, Lower, Represented;
    LastIs(Values(rs, HostName), TextOf, v => true, v => v);
    LastIs(Values(rs, User), TextOf, v => true, v => v);
    LastIs(Values(rs, Port), PortOf, v => AllDigits(v) && 1 <= Number(v) <= 65535, v => Number(v));
    LastIs(Values(rs, ServerAliveInterval), IntervalOf, v => AllDigits(v) && Number(v) <= 4294967295, v => Number(v));
    LastIs(Values(rs, IdentitiesOnly), YesNoOf, v => Lower(v) in {"yes", "no"}, v => Lower(v));
    LastIs(Values(rs, StrictHostKeyChecking), StrictOf, v => Lower(v) == "no", v => "no");
    LastIs(Values(rs, UserKnownHostsFile), KnownHostsOf, v => v == "/dev/null", v => v);
  }

  /** Host key checking counts as weakened when some directive turns it off and all that are given do, as unknown when one does
      not, and as the default without any. */
  lemma AssessmentIs(alias: string, rs: seq<Reading>, known: set<string>)
    ensures var strict, files := Values(rs, StrictHostKeyChecking), Values(rs, UserKnownHostsFile);
      var off := (forall i :: 0 <= i < |strict| ==> Lower(strict[i]) == "no") && forall i :: 0 <= i < |files| ==> files[i] == "/dev/null";
      DefinitionOf(alias, rs, known).assessment == if !off then Uncertain else if strict == [] && files == [] then Default else Weakened
  {
    forall v {
      ReadersAre(v);
    }
    hide PortOf, IntervalOf, YesNoOf, StrictOf, KnownHostsOf, Values, Last, ManagedNames, Advanced, Lower;
  }

  /** The readings of keys the application represents. */
  function Represented(rs: seq<Reading>): seq<Reading> {
    if rs == [] then []
    else (if !rs[0].key.Host? && !rs[0].key.Match? && !rs[0].key.Include? && !rs[0].key.Unknown? then [rs[0]] else []) + Represented(rs[1..])
  }

  /** All other readings are counted as advanced. */
  lemma {:induction false} AdvancedIs(rs: seq<Reading>)
    ensures Advanced(rs) + |Represented(rs)| == |rs|
  {
    if rs != [] {
      AdvancedIs(rs[1..]);
    }
  }

  /** The key files of a definition are those that values name and the inventory knows. */
  lemma {:induction false} ListedIff(values: seq<string>, known: set<string>, name: string)
    ensures name in ManagedNames(values, known) <==> name in known && exists i :: 0 <= i < |values| && ManagedIdentity(values[i]) == Some(name)
  {
    hide ManagedIdentity;
    if values != [] {
      var n := |values| - 1;
      ListedIff(values[..n], known, name);
      assert forall i :: 0 <= i < n ==> values[..n][i] == values[i];
    }
  }

  // ---- Aliases an edit may give ----

  /** A letter, then at most 254 letters, digits, dots, underscores and hyphens. */
  lemma AliasIsName(alias: string)
    ensures SP.ValidAlias(alias) <==>
      && 1 <= |alias| <= 255 && LowerChar(alias[0]) in "abcdefghijklmnopqrstuvwxyz"
      && forall c :: c in alias ==> LowerChar(c) in "abcdefghijklmnopqrstuvwxyz" || c in "0123456789" || c in "._-"
  {
    forall c: char ensures SP.IsLetter(c) <==> LowerChar(c) in "abcdefghijklmnopqrstuvwxyz" {
      LetterIs(c);
    }
    forall c: char ensures IsDigit(c) <==> c in "0123456789" {
      DigitIs(c);
    }
    hide SP.IsLetter, IsDigit, LowerChar;
    assert forall i :: 0 <= i < |alias| ==> alias[i] in alias;
  }

  lemma LetterIs(c: char)
    ensures SP.IsLetter(c) <==> LowerChar(c) in "abcdefghijklmnopqrstuvwxyz"
  {
    var letters, l := "abcdefghijklmnopqrstuvwxyz", LowerChar(c);
    if 'a' <= l <= 'z' {
      assert letters[(l - 'a') as int] == l;
    }
  }

  lemma DigitIs(c: char)
    ensures IsDigit(c) <==> c in "0123456789"
  {
    var digits := "0123456789";
    if IsDigit(c) {
      assert digits[(c - '0') as int] == c;
    }
  }

  // ---- Warnings and line ends ----

  /** The line starts a directive with that keyword, which is neither a header nor supported. */
  predicate WarnsOf(line: string, keyword: string) {
    var d := ScanLine(Content(line));
    && d.Some? && d.value.keyword == keyword
    && Lower(keyword) !in {"host", "match", "hostname", "user", "port", "identityfile", "identitiesonly", "stricthostkeychecking",
                           "userknownhostsfile", "serveraliveinterval"}
  }

  /** The warning is the one of that line. */
  predicate IsWarningOf(line: string, w: Warning) {
    WarnsOf(line, w.directive) && w.kind == if Lower(w.directive) == "include" then "include_ignored" else "advanced_directive"
  }

  lemma LineWarns(line: string, no: nat, w: Warning)
    ensures w in LineWarning(line, no) <==> w.line == no && IsWarningOf(line, w)
  {
    var d := ScanLine(Content(line));
    if d.Some? {
      KeywordTexts(d.value.keyword);
      SupportedTexts(d.value.keyword);
    }
    hide ScanLine, Content, KeywordOf, Lower;
  }

  lemma AtMostOne(line: string, no: nat)
    ensures |LineWarning(line, no)| <= 1
  {
    hide ScanLine, Content, KeywordOf;
  }

  lemma {:induction false} WarningsIn(lines: seq<string>, no: nat, w: Warning)
    ensures w in WarningsFrom(lines, no) <==> no <= w.line < no + |lines| && IsWarningOf(lines[w.line - no], w)
  {
    hide LineWarning, IsWarningOf;
    if lines != [] {
      WarningsIn(lines[1..], no + 1, w);
      LineWarns(lines[0], no, w);
    }
  }

  lemma {:induction false} WarningsAscend(lines: seq<string>, no: nat)
    ensures forall i, j :: 0 <= i < j < |WarningsFrom(lines, no)| ==> WarningsFrom(lines, no)[i].line < WarningsFrom(lines, no)[j].line
  {
    hide LineWarning, IsWarningOf;
    if lines != [] {
      var here, later := LineWarning(lines[0], no), WarningsFrom(lines[1..], no + 1);
      WarningsAscend(lines[1..], no + 1);
      AtMostOne(lines[0], no);
      forall i | 0 <= i < |later| ensures later[i].line > no {
        WarningsIn(lines[1..], no + 1, later[i]);
      }
      forall i | 0 <= i < |here| ensures here[i].line == no {
        LineWarns(lines[0], no, here[i]);
      }
      assert WarningsFrom(lines, no) == here + later;
    }
  }

  /** The warnings of a document are about exactly the lines with another directive, one each, in order. */
  lemma WarningsAre(data: string)
    ensures var ws := DocumentOf(data).warnings; var lines := Lines(data);
      && (forall w :: w in ws <==> 1 <= w.line <= |lines| && IsWarningOf(lines[w.line - 1], w))
      && forall i, j :: 0 <= i < j < |ws| ==> ws[i].line < ws[j].line
  {
    GroupWellFormed(Lines(data));
    WarningsAscend(Lines(data), 1);
    forall w {
      WarningsIn(Lines(data), 1, w);
    }
    hide IsWarningOf, Lines, Group, PlaceBlocks, WarningsFrom;
  }

  /** A document's line ends are those of Windows if any line of it has one. */
  lemma NewlineIs(data: string)
    ensures DocumentOf(data).newline == if (exists a, b :: data == a + "\r\n" + b) then "\r\n" else "\n"
  {
    DocumentNewlineIs(data);
    hide DocumentOf;
    if HasCRLF(data) {
      var i :| 0 <= i < |data| - 1 && data[i] == '\r' && data[i + 1] == '\n';
      assert data == data[..i] + "\r\n" + data[i + 2..];
    }
    forall a, b | data == a + "\r\n" + b ensures HasCRLF(data) {
      assert data[|a|] == '\r' && data[|a| + 1] == '\n';
    }
  }
}
