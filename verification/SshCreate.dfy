/** Creating, duplicating and deleting definitions. */
module SshCreate {
  import opened Common
  import opened SshText
  import opened SshParse
  import opened SshDefinition
  import opened SshPatch
  import opened SshScan
  import opened SshLines
  import opened SshEffect
  import opened SshReadBack
  import opened SshEdited
  import opened SshTheorem
  import opened SshOutcome
  import opened SshAppend
  import opened SshGrow

  // ---- Any value on one line ----

  ghost predicate OnOneLine(v: string) {
    forall i :: 0 <= i < |v| ==> v[i] != '\n'
  }

  /** The value as the parser sees it: without a carriage return that would belong to the line break. */
  lemma RenderedContent(key: Keyword, v: string, newline: string) returns (w: string)
    requires Supported(key) && IsNewline(newline) && OnOneLine(v)
    ensures Content(RenderDirective(key, v, newline)) == "  " + Canonical(key) + " " + w
    ensures w == v || (|w| < |v| && v == w + "\r")
  {
    hide Canonical, Content;
    var s := "  " + Canonical(key) + " " + v;
    assert RenderDirective(key, v, newline) == s + newline;
    if newline == "\n" && v != "" && v[|v| - 1] == '\r' {
      w := v[..|v| - 1];
      assert v == w + "\r";
      ContentOf("  " + Canonical(key) + " " + w, "\r\n");
      assert s + newline == "  " + Canonical(key) + " " + w + "\r\n";
    } else {
      w := v;
      assert s[|s| - 1] == if v == "" then ' ' else v[|v| - 1];
      ContentOf(s, newline);
    }
  }

  lemma RenderedShape(key: Keyword, w: string)
    requires Supported(key)
    ensures var s, n := "  " + Canonical(key) + " " + w, |Canonical(key)|;
      && (forall j :: 0 <= j < 2 ==> IsSpace(s[j])) && n > 0
      && (forall j :: 2 <= j < 2 + n ==> !IsSeparator(s[j]) && !IsSpace(s[j]))
      && s[2] != '#' && IsSeparator(s[2 + n]) && s[2..2 + n] == Canonical(key) && s[3 + n..] == w
  {
    CanonicalReadsBack(key);
    hide Canonical, KeywordOf;
    var k, n := Canonical(key), |Canonical(key)|;
    var s := "  " + k + " " + w;
    assert forall j :: 2 <= j < 2 + n ==> s[j] == k[j - 2];
    assert s[2 + n] == ' ';
    forall j | 2 <= j < 2 + n ensures !IsSeparator(s[j]) && s[j] != '#' && !IsSpace(s[j]) {
      assert 'a' <= LowerChar(k[j - 2]) <= 'z';
    }
  }

  lemma RenderedKeyIs(key: Keyword, v: string, newline: string)
    requires Supported(key) && IsNewline(newline) && OnOneLine(v)
    ensures LineKey(RenderDirective(key, v, newline)) == Some(key)
    ensures !IsHeader(RenderDirective(key, v, newline))
  {
    hide RenderDirective, ScanLine, Content, Canonical, KeywordOf, IsSpace, IsSeparator;
    var w := RenderedContent(key, v, newline);
    RenderedShape(key, w);
    KeywordScans("  " + Canonical(key) + " " + w, 2, 2 + |Canonical(key)|);
    CanonicalReadsBack(key);
  }

  lemma RenderedLineLike(key: Keyword, v: string, newline: string)
    requires Supported(key) && IsNewline(newline) && OnOneLine(v)
    ensures LineLike(RenderDirective(key, v, newline)) && Terminated(RenderDirective(key, v, newline))
  {
    RenderedShape(key, v);
    hide Canonical;
    var n := |Canonical(key)|;
    var s := "  " + Canonical(key) + " " + v;
    forall i | 0 <= i < |s| ensures s[i] != '\n' {
      if 2 <= i < 2 + n {
        assert !IsSpace(s[i]);
      } else if i >= 3 + n {
        assert s[i] == v[i - 3 - n];
      }
    }
    var line := RenderDirective(key, v, newline);
    assert line == s + newline;
    assert line[|line| - 1] == newline[|newline| - 1];
  }

  /** The cut of a text that starts with a keyword is where the keyword is. */
  lemma CutUnique(s: string, n: nat, k: nat, e: nat, a: nat, t: nat)
    requires Cut(s, k, e, a, t)
    requires |s| > 2 + n && n > 0 && (forall j :: 0 <= j < 2 ==> IsSpace(s[j]))
    requires (forall j :: 2 <= j < 2 + n ==> !IsSeparator(s[j]) && !IsSpace(s[j])) && IsSeparator(s[2 + n])
    ensures k == 2 && e == 2 + n && a >= 3 + n
  {
    assert !IsSeparator(s[k]) && !IsSpace(s[k]);
    assert k == 2 by {
      assert IsSpace(s[0]) && IsSpace(s[1]) && !IsSpace(s[2]);
    }
    assert e == 2 + n by {
      assert !IsSeparator(s[e - 1]);
    }
  }

  /** A written value reads back exactly when it is clean. */
  lemma RenderedReadsBackIff(key: Keyword, v: string, newline: string)
    requires Supported(key) && IsNewline(newline) && OnOneLine(v)
    ensures LineReading(RenderDirective(key, v, newline)) == [Reading(key, v)] <==> CleanValue(v)
  {
    if CleanValue(v) {
      RenderedScans(key, v, newline);
    } else {
      var w := RenderedContent(key, v, newline);
      RenderedShape(key, w);
      var s := "  " + Canonical(key) + " " + w;
      assert |s| == 3 + |Canonical(key)| + |w|;
      hide *;
      if LineReading(RenderDirective(key, v, newline)) == [Reading(key, v)] {
        ReadingScans(RenderDirective(key, v, newline), key, v);
        ReadBackIsWhole(s, |Canonical(key)|, w, v);
      }
    }
  }

  lemma ReadingScans(line: string, key: Keyword, v: string)
    requires LineReading(line) == [Reading(key, v)]
    ensures var d := ScanLine(Content(line)); d.Some? && d.value.words != [] && d.value.words[0] == v
  {
    hide ScanLine, Content;
  }

  lemma ReadBackIsWhole(s: string, n: nat, w: string, v: string)
    requires |s| == 3 + n + |w| && s[3 + n..] == w && n > 0 && |w| <= |v| && (|w| == |v| ==> w == v)
    requires forall j :: 0 <= j < 2 ==> IsSpace(s[j])
    requires (forall j :: 2 <= j < 2 + n ==> !IsSeparator(s[j]) && !IsSpace(s[j])) && IsSeparator(s[2 + n])
    requires ScanLine(s).Some? && ScanLine(s).value.words != [] && ScanLine(s).value.words[0] == v
    ensures CleanValue(v)
  {
    var k, e, t := CutOfScan(s);
    var d := ScanLine(s).value;
    CutUnique(s, n, k, e, d.at, t);
    FirstWordFits(d.value);
    assert |d.value| == t - d.at;
    assert d.at == 3 + n && t == |s| && w == v;
    assert d.value == v;
    ReadsBackIffClean(v);
    assert s[3 + n] == v[0];
    assert !IsSeparator(s[d.at]);
  }

  // ---- The readings of a new block ----

  ghost predicate FieldOnOneLine(value: Option<string>) {
    value.Some? ==> OnOneLine(value.value)
  }

  /** Every value of the edit stays on its line. */
  ghost predicate OneLineEdit(edit: Edit) {
    && FieldOnOneLine(edit.hostName) && FieldOnOneLine(edit.user) && FieldOnOneLine(edit.identitiesOnly)
    && FieldOnOneLine(edit.strictHostKeyChecking) && FieldOnOneLine(edit.userKnownHostsFile)
    && (edit.identityFileNames.Some? ==> forall i :: 0 <= i < |edit.identityFileNames.value| ==> OnOneLine(edit.identityFileNames.value[i]))
  }

  lemma DecimalOnOneLine(n: nat)
    ensures OnOneLine(Decimal(n)) && CleanValue(Decimal(n))
  {
    assert forall i :: 0 <= i < |Decimal(n)| ==> IsDigit(Decimal(n)[i]);
  }

  lemma NumeralOnOneLine(n: Option<nat>)
    ensures FieldOnOneLine(Numeral(n))
  {
    hide Decimal;
    if n.Some? {
      DecimalOnOneLine(n.value);
    }
  }

  lemma FieldIsBlockLine(key: Keyword, value: Option<string>, newline: string)
    requires Supported(key) && IsNewline(newline) && FieldOnOneLine(value)
    ensures AllLines(FieldLines(key, value, newline)) && AllTerminated(FieldLines(key, value, newline)) && NoHeader(FieldLines(key, value, newline))
    ensures forall other :: other != key ==> Values(Readings(FieldLines(key, value, newline)), other) == []
  {
    hide RenderDirective, LineLike, Terminated, IsHeader, LineKey, LineReading, EditedReading, Values, OnOneLine;
    if value.Some? {
      var line := RenderDirective(key, value.value, newline);
      RenderedLineLike(key, value.value, newline);
      RenderedKeyIs(key, value.value, newline);
      OneLineReads(line);
      ReadingKey(line, map[]);
      forall other | other != key ensures Values(Readings([line]), other) == [] {
        OneValue(LineReading(line), other);
      }
    } else {
      forall other ensures Values(Readings([]), other) == [] {
        NoValues(other);
      }
    }
  }

  lemma {:induction false} NamesAreBlockLines(names: seq<string>, newline: string)
    requires IsNewline(newline) && forall i :: 0 <= i < |names| ==> OnOneLine(names[i])
    ensures AllLines(IdentityLines(names, newline)) && AllTerminated(IdentityLines(names, newline)) && NoHeader(IdentityLines(names, newline))
    ensures forall other :: other != IdentityFile ==> Values(Readings(IdentityLines(names, newline)), other) == []
  {
    hide RenderDirective, LineLike, Terminated, IsHeader, LineKey, LineReading, EditedReading, Values, OnOneLine;
    if names == [] {
      forall other ensures Values(Readings([]), other) == [] {
        NoValues(other);
      }
    } else {
      var v := KEY_DIR + names[0];
      var line := RenderDirective(IdentityFile, v, newline);
      DirOnOneLine(names[0]);
      RenderedLineLike(IdentityFile, v, newline);
      RenderedKeyIs(IdentityFile, v, newline);
      NamesAreBlockLines(names[1..], newline);
      ReadingKey(line, map[]);
      forall other | other != IdentityFile ensures Values(Readings(IdentityLines(names, newline)), other) == [] {
        OneValue(LineReading(line), other);
        ValuesAppend(LineReading(line), Readings(IdentityLines(names[1..], newline)), other);
      }
    }
  }

  lemma DirOnOneLine(name: string)
    requires OnOneLine(name)
    ensures OnOneLine(KEY_DIR + name)
  {
    var v := KEY_DIR + name;
    assert forall i :: 0 <= i < |v| ==> v[i] == if i < |KEY_DIR| then KEY_DIR[i] else name[i - |KEY_DIR|];
  }

  function NameLines(edit: Edit, newline: string): seq<string> {
    if edit.identityFileNames.Some? then IdentityLines(edit.identityFileNames.value, newline) else []
  }

  lemma AllBlockLines(a: seq<string>, b: seq<string>)
    requires AllLines(a) && AllTerminated(a) && NoHeader(a)
    requires AllLines(b) && AllTerminated(b) && NoHeader(b)
    ensures AllLines(a + b) && AllTerminated(a + b) && NoHeader(a + b)
  {}

  lemma NewBodyLines(edit: Edit, newline: string)
    requires OneLineEdit(edit) && IsNewline(newline)
    ensures AllLines(NewBody(edit, newline)) && AllTerminated(NewBody(edit, newline)) && NoHeader(NewBody(edit, newline))
  {
    hide FieldLines, NameLines, LineLike, AllLines, AllTerminated, NoHeader, Numeral, FieldOnOneLine, Values;
    NumeralOnOneLine(edit.port);
    NumeralOnOneLine(edit.serverAliveInterval);
    FieldIsBlockLine(HostName, edit.hostName, newline);
    FieldIsBlockLine(User, edit.user, newline);
    FieldIsBlockLine(Port, Numeral(edit.port), newline);
    NameLinesAre(edit, newline);
    FieldIsBlockLine(IdentitiesOnly, edit.identitiesOnly, newline);
    FieldIsBlockLine(StrictHostKeyChecking, edit.strictHostKeyChecking, newline);
    FieldIsBlockLine(UserKnownHostsFile, edit.userKnownHostsFile, newline);
    FieldIsBlockLine(ServerAliveInterval, Numeral(edit.serverAliveInterval), newline);
    var a := FieldLines(HostName, edit.hostName, newline);
    AllBlockLines(a, FieldLines(User, edit.user, newline));
    a := a + FieldLines(User, edit.user, newline);
    AllBlockLines(a, FieldLines(Port, Numeral(edit.port), newline));
    a := a + FieldLines(Port, Numeral(edit.port), newline);
    AllBlockLines(a, NameLines(edit, newline));
    a := a + NameLines(edit, newline);
    AllBlockLines(a, FieldLines(IdentitiesOnly, edit.identitiesOnly, newline));
    a := a + FieldLines(IdentitiesOnly, edit.identitiesOnly, newline);
    AllBlockLines(a, FieldLines(StrictHostKeyChecking, edit.strictHostKeyChecking, newline));
    a := a + FieldLines(StrictHostKeyChecking, edit.strictHostKeyChecking, newline);
    AllBlockLines(a, FieldLines(UserKnownHostsFile, edit.userKnownHostsFile, newline));
    a := a + FieldLines(UserKnownHostsFile, edit.userKnownHostsFile, newline);
    AllBlockLines(a, FieldLines(ServerAliveInterval, Numeral(edit.serverAliveInterval), newline));
    BodyIs(edit, newline);
  }

  lemma BodyIs(edit: Edit, newline: string)
    ensures NewBody(edit, newline)
         == FieldLines(HostName, edit.hostName, newline)
            + FieldLines(User, edit.user, newline)
            + FieldLines(Port, Numeral(edit.port), newline)
            + NameLines(edit, newline)
            + FieldLines(IdentitiesOnly, edit.identitiesOnly, newline)
            + FieldLines(StrictHostKeyChecking, edit.strictHostKeyChecking, newline)
            + FieldLines(UserKnownHostsFile, edit.userKnownHostsFile, newline)
            + FieldLines(ServerAliveInterval, Numeral(edit.serverAliveInterval), newline)
  {}

  lemma NameLinesAre(edit: Edit, newline: string)
    requires OneLineEdit(edit) && IsNewline(newline)
    ensures AllLines(NameLines(edit, newline)) && AllTerminated(NameLines(edit, newline)) && NoHeader(NameLines(edit, newline))
    ensures forall other :: other != IdentityFile ==> Values(Readings(NameLines(edit, newline)), other) == []
  {
    hide IdentityLines, IsHeader, LineLike, Terminated, Values, Readings, OnOneLine;
    NamesAreBlockLines(if edit.identityFileNames.Some? then edit.identityFileNames.value else [], newline);
    if edit.identityFileNames.None? {
      NoIdentityLines(newline);
    }
  }

  lemma NoIdentityLines(newline: string)
    ensures IdentityLines([], newline) == []
  {}

  lemma {:induction false} EightValues(a: seq<string>, b: seq<string>, c: seq<string>, d: seq<string>, e: seq<string>, f: seq<string>, g: seq<string>, h: seq<string>, key: Keyword)
    ensures Values(Readings(a + b + c + d + e + f + g + h), key)
         == Values(Readings(a), key) + Values(Readings(b), key) + Values(Readings(c), key) + Values(Readings(d), key)
            + Values(Readings(e), key) + Values(Readings(f), key) + Values(Readings(g), key) + Values(Readings(h), key)
  {
    hide Values, Readings;
    TwoValues(a, b, key);
    TwoValues(a + b, c, key);
    TwoValues(a + b + c, d, key);
    TwoValues(a + b + c + d, e, key);
    TwoValues(a + b + c + d + e, f, key);
    TwoValues(a + b + c + d + e + f, g, key);
    TwoValues(a + b + c + d + e + f + g, h, key);
  }

  lemma TwoValues(a: seq<string>, b: seq<string>, key: Keyword)
    ensures Values(Readings(a + b), key) == Values(Readings(a), key) + Values(Readings(b), key)
  {
    ReadingsAppend(a, b);
    ValuesAppend(Readings(a), Readings(b), key);
  }

  /** The lines of a new block that can give a key its value. */
  function KeyLinesOf(edit: Edit, key: Keyword, newline: string): seq<string> {
    if key == IdentityFile then NameLines(edit, newline)
    else if Supported(key) then FieldLines(key, Wanted(edit, key), newline)
    else []
  }

  lemma OnlyOne<T>(x: seq<T>)
    ensures x + [] + [] + [] + [] + [] + [] + [] == x
    ensures [] + x + [] + [] + [] + [] + [] + [] == x
    ensures [] + [] + x + [] + [] + [] + [] + [] == x
    ensures [] + [] + [] + x + [] + [] + [] + [] == x
    ensures [] + [] + [] + [] + x + [] + [] + [] == x
    ensures [] + [] + [] + [] + [] + x + [] + [] == x
    ensures [] + [] + [] + [] + [] + [] + x + [] == x
    ensures [] + [] + [] + [] + [] + [] + [] + x == x
  {}

  /** A key's values in a new block come from the one field of that key. */
  lemma NewBodyValues(edit: Edit, newline: string, key: Keyword)
    requires OneLineEdit(edit) && IsNewline(newline)
    ensures Values(Readings(NewBody(edit, newline)), key) == Values(Readings(KeyLinesOf(edit, key, newline)), key)
  {
    hide FieldLines, NameLines, LineLike, AllLines, AllTerminated, NoHeader, Numeral, FieldOnOneLine, Values, Readings, NewBody;
    NumeralOnOneLine(edit.port);
    NumeralOnOneLine(edit.serverAliveInterval);
    FieldIsBlockLine(HostName, edit.hostName, newline);
    FieldIsBlockLine(User, edit.user, newline);
    FieldIsBlockLine(Port, Numeral(edit.port), newline);
    NameLinesAre(edit, newline);
    FieldIsBlockLine(IdentitiesOnly, edit.identitiesOnly, newline);
    FieldIsBlockLine(StrictHostKeyChecking, edit.strictHostKeyChecking, newline);
    FieldIsBlockLine(UserKnownHostsFile, edit.userKnownHostsFile, newline);
    FieldIsBlockLine(ServerAliveInterval, Numeral(edit.serverAliveInterval), newline);
    BodyIs(edit, newline);
    EightValues(FieldLines(HostName, edit.hostName, newline), FieldLines(User, edit.user, newline), FieldLines(Port, Numeral(edit.port), newline),
                NameLines(edit, newline), FieldLines(IdentitiesOnly, edit.identitiesOnly, newline),
                FieldLines(StrictHostKeyChecking, edit.strictHostKeyChecking, newline),
                FieldLines(UserKnownHostsFile, edit.userKnownHostsFile, newline),
                FieldLines(ServerAliveInterval, Numeral(edit.serverAliveInterval), newline), key);
    OnlyOne(Values(Readings(KeyLinesOf(edit, key, newline)), key));
    NoReadingsOfNothing(key);
  }

  lemma NoReadingsOfNothing(key: Keyword)
    ensures Values(Readings([]), key) == []
  {}

  lemma FieldAdvanced(key: Keyword, value: Option<string>, newline: string)
    requires Supported(key) && IsNewline(newline) && FieldOnOneLine(value)
    ensures Advanced(Readings(FieldLines(key, value, newline))) == 0
  {
    hide RenderDirective, LineKey, LineReading, EditedReading, OnOneLine, IsHeader, Supported;
    if value.Some? {
      var line := RenderDirective(key, value.value, newline);
      RenderedKeyIs(key, value.value, newline);
      OneLineReads(line);
      ReadingKey(line, map[]);
      OneAdvanced(LineReading(line));
    }
  }

  lemma {:induction false} NamesAdvanced(names: seq<string>, newline: string)
    requires IsNewline(newline) && forall i :: 0 <= i < |names| ==> OnOneLine(names[i])
    ensures Advanced(Readings(IdentityLines(names, newline))) == 0
  {
    hide RenderDirective, LineKey, LineReading, EditedReading, OnOneLine, IsHeader, Supported, Advanced;
    if names == [] {
      NothingAdvanced();
    } else {
      SupportedIdentity();
      var line := RenderDirective(IdentityFile, KEY_DIR + names[0], newline);
      DirOnOneLine(names[0]);
      RenderedKeyIs(IdentityFile, KEY_DIR + names[0], newline);
      ReadingKey(line, map[]);
      OneAdvanced(LineReading(line));
      NamesAdvanced(names[1..], newline);
      AdvancedAppend(LineReading(line), Readings(IdentityLines(names[1..], newline)));
    }
  }

  lemma NothingAdvanced()
    ensures Advanced(Readings([])) == 0
  {}

  lemma EightAdvanced(a: seq<string>, b: seq<string>, c: seq<string>, d: seq<string>, e: seq<string>, f: seq<string>, g: seq<string>, h: seq<string>)
    ensures Advanced(Readings(a + b + c + d + e + f + g + h))
         == Advanced(Readings(a)) + Advanced(Readings(b)) + Advanced(Readings(c)) + Advanced(Readings(d))
            + Advanced(Readings(e)) + Advanced(Readings(f)) + Advanced(Readings(g)) + Advanced(Readings(h))
  {
    hide Advanced, Readings;
    TwoAdvanced(a, b);
    TwoAdvanced(a + b, c);
    TwoAdvanced(a + b + c, d);
    TwoAdvanced(a + b + c + d, e);
    TwoAdvanced(a + b + c + d + e, f);
    TwoAdvanced(a + b + c + d + e + f, g);
    TwoAdvanced(a + b + c + d + e + f + g, h);
  }

  lemma TwoAdvanced(a: seq<string>, b: seq<string>)
    ensures Advanced(Readings(a + b)) == Advanced(Readings(a)) + Advanced(Readings(b))
  {
    ReadingsAppend(a, b);
    AdvancedAppend(Readings(a), Readings(b));
  }

  lemma NewBodyAdvanced(edit: Edit, newline: string)
    requires OneLineEdit(edit) && IsNewline(newline)
    ensures Advanced(Readings(NewBody(edit, newline))) == 0
  {
    var names := if edit.identityFileNames.Some? then edit.identityFileNames.value else [];
    NamesAdvanced(names, newline);
    NoIdentityLines(newline);
    hide FieldLines, Numeral, FieldOnOneLine, Readings, NewBody, Advanced, IdentityLines;
    NumeralOnOneLine(edit.port);
    NumeralOnOneLine(edit.serverAliveInterval);
    FieldAdvanced(HostName, edit.hostName, newline);
    FieldAdvanced(User, edit.user, newline);
    FieldAdvanced(Port, Numeral(edit.port), newline);
    FieldAdvanced(IdentitiesOnly, edit.identitiesOnly, newline);
    FieldAdvanced(StrictHostKeyChecking, edit.strictHostKeyChecking, newline);
    FieldAdvanced(UserKnownHostsFile, edit.userKnownHostsFile, newline);
    FieldAdvanced(ServerAliveInterval, Numeral(edit.serverAliveInterval), newline);
    BodyIs(edit, newline);
    EightAdvanced(FieldLines(HostName, edit.hostName, newline), FieldLines(User, edit.user, newline), FieldLines(Port, Numeral(edit.port), newline),
                  NameLines(edit, newline), FieldLines(IdentitiesOnly, edit.identitiesOnly, newline),
                  FieldLines(StrictHostKeyChecking, edit.strictHostKeyChecking, newline),
                  FieldLines(UserKnownHostsFile, edit.userKnownHostsFile, newline),
                  FieldLines(ServerAliveInterval, Numeral(edit.serverAliveInterval), newline));
  }

  // ---- The new block ----

  lemma HostCut(alias: string)
    requires CleanValue(alias)
    ensures var s := "Host " + alias;
      Cut(s, 0, 4, 5, |s|) && s[0..4] == "Host" && s[5..] == alias
  {
    var s := "Host " + alias;
    assert s[0] == 'H' && s[1] == 'o' && s[2] == 's' && s[3] == 't' && s[4] == ' ';
    assert forall j :: 5 <= j < |s| ==> s[j] == alias[j - 5];
    assert IsPlain(alias[0]) && IsPlain(alias[|alias| - 1]);
    assert s[5] == alias[0] && s[|s| - 1] == alias[|alias| - 1];
  }

  lemma HostIsHost()
    ensures KeywordOf("Host") == Host
  {
    assert Lower("Host") == "host";
  }

  lemma HostLineReads(alias: string, newline: string)
    requires ValidAlias(alias) && IsNewline(newline)
    ensures var line := HostLine(alias, newline);
      IsHeader(line) && HeadAlias(line) == alias && LineLike(line) && Terminated(line)
  {
    CleanAlias(alias);
    HostCut(alias);
    HostIsHost();
    var s := "Host " + alias;
    HostLineShape(alias, newline);
    hide KeywordOf, ScanLine, Words, Cut, CleanValue, ValidAlias, ConcreteAlias, Content, LineLike, Terminated, HostLine;
    ScanOfCut(s, 0, 4, 5, |s|);
    assert s[5..|s|] == alias;
    OneWord(alias);
    AliasOfHost(HostLine(alias, newline), alias);
  }

  lemma AliasOfHost(line: string, alias: string)
    requires ScanLine(Content(line)).Some?
    requires KeywordOf(ScanLine(Content(line)).value.keyword) == Host && ScanLine(Content(line)).value.words == [alias]
    requires ConcreteAlias(alias)
    ensures IsHeader(line) && HeadAlias(line) == alias
  {
    hide ScanLine, KeywordOf, ConcreteAlias;
  }

  lemma HostLineShape(alias: string, newline: string)
    requires CleanValue(alias) && IsNewline(newline)
    ensures Content(HostLine(alias, newline)) == "Host " + alias
    ensures LineLike(HostLine(alias, newline)) && Terminated(HostLine(alias, newline))
  {
    var s := "Host " + alias;
    assert IsPlain(alias[|alias| - 1]);
    assert s[|s| - 1] == alias[|alias| - 1];
    ContentOf(s, newline);
    var line := HostLine(alias, newline);
    assert line == s + newline;
    assert line[|line| - 1] == newline[|newline| - 1];
    forall i | 0 <= i < |s| ensures s[i] != '\n' {
      if i >= 5 {
        assert s[i] == alias[i - 5] && IsPlain(alias[i - 5]);
      }
    }
  }

  lemma NewBlockIsBlock(edit: Edit, newline: string)
    requires ValidAlias(edit.hostAlias) && OneLineEdit(edit) && IsNewline(newline)
    ensures var b := NewBlock(edit, newline);
      IsHeader(b.head) && HeadAlias(b.head) == edit.hostAlias && NoHeader(b.body) && Proper(BlockLines(b))
  {
    hide IsHeader, HeadAlias, LineLike, Terminated, ValidAlias, NewBody, HostLine;
    HostLineReads(edit.hostAlias, newline);
    NewBodyLines(edit, newline);
    TerminatedProper(BlockLines(NewBlock(edit, newline)));
  }

  lemma ValidAliasNonempty(alias: string)
    requires ValidAlias(alias)
    ensures alias != ""
  {}

  /** Appending a block adds exactly one definition, at the end: what the written directives mean. */
  lemma AppendAddsOne(data: string, edit: Edit, known: set<string>)
    requires ValidAlias(edit.hostAlias) && OneLineEdit(edit)
    ensures Meaning(Appended(data, edit), known)
         == Meaning(data, known) + [DefinitionOf(edit.hostAlias, Readings(NewBody(edit, NewlineOf(data))), known)]
  {
    var newline := NewlineOf(data);
    NewlineForms(data);
    ValidAliasNonempty(edit.hostAlias);
    hide IsHeader, HeadAlias, NoHeader, Proper, ValidAlias, NewBody, OneLineEdit, Closed, Meaning, AtLineStart, DefinitionOf, Flatten;
    NewBlockIsBlock(edit, newline);
    ClosedKeepsMeaning(data, known);
    AddedBlockMeaning(Closed(data), NewBlock(edit, newline), known);
  }

  // ---- Create ----

  lemma CleanIsOneLine(edit: Edit)
    requires CleanEdit(edit)
    ensures OneLineEdit(edit)
  {
    DesiredOf(edit, HostName);
    DesiredOf(edit, User);
    DesiredOf(edit, IdentitiesOnly);
    DesiredOf(edit, StrictHostKeyChecking);
    DesiredOf(edit, UserKnownHostsFile);
    hide Desired;
    assert forall v :: CleanValue(v) ==> OnOneLine(v) by {
      forall v | CleanValue(v) ensures OnOneLine(v) {
        assert forall i :: 0 <= i < |v| ==> IsPlain(v[i]);
      }
    }
    if edit.identityFileNames.Some? {
      forall i | 0 <= i < |edit.identityFileNames.value| ensures OnOneLine(edit.identityFileNames.value[i]) {
        assert AllPlain(edit.identityFileNames.value[i]);
      }
    }
  }

  lemma FieldLineReads(key: Keyword, value: Option<string>, newline: string)
    requires Supported(key) && IsNewline(newline) && (value.Some? ==> CleanValue(value.value))
    ensures Values(Readings(FieldLines(key, value, newline)), key) == if value.Some? then [value.value] else []
  {
    hide RenderDirective, CleanValue, LineReading, LineKey;
    if value.Some? {
      RenderedScans(key, value.value, newline);
      OneLineReads(RenderDirective(key, value.value, newline));
      OneValue([Reading(key, value.value)], key);
    }
  }

  /** The directives of a clean edit read back as the edit asks. */
  lemma NewBodyAsked(edit: Edit, newline: string)
    requires CleanEdit(edit) && IsNewline(newline)
    ensures AskedReadings(Readings(NewBody(edit, newline)), [], edit)
  {
    CleanIsOneLine(edit);
    DesiredKeys(edit);
    NewBodyAdvanced(edit, newline);
    var rs := Readings(NewBody(edit, newline));
    forall key ensures Values(rs, key) == Values(Readings(KeyLinesOf(edit, key, newline)), key) {
      NewBodyValues(edit, newline, key);
    }
    forall key | key in Desired(edit) ensures Values(rs, key) == [Desired(edit)[key]] {
      DesiredOf(edit, key);
      FieldLineReads(key, Wanted(edit, key), newline);
    }
    forall key | key !in Desired(edit) && !(key == IdentityFile && edit.identityFileNames.Some?) ensures Values(rs, key) == Values([], key) {
      UnaskedKey(edit, newline, key);
    }
    if edit.identityFileNames.Some? {
      AskedNamesRead(edit.identityFileNames.value, newline);
      assert KeyLinesOf(edit, IdentityFile, newline) == IdentityLines(edit.identityFileNames.value, newline);
    }
  }

  lemma UnaskedKey(edit: Edit, newline: string, key: Keyword)
    requires key !in Desired(edit) && !(key == IdentityFile && edit.identityFileNames.Some?)
    ensures Values(Readings(KeyLinesOf(edit, key, newline)), key) == Values([], key)
  {
    DesiredOf(edit, key);
    hide Desired, Wanted;
    NoReadingsOfNothing(key);
  }

  lemma AskedNamesRead(names: seq<string>, newline: string)
    requires CleanNames(names) && IsNewline(newline)
    ensures Values(Readings(IdentityLines(names, newline)), IdentityFile) == AskedIdentities(Values([], IdentityFile), IdentityValues(names))
  {
    IdentityLinesRead(names, newline);
    assert [] + IdentityValues(names) == IdentityValues(names);
  }

  datatype CreateError = InvalidNewAlias | NewAliasExists | NoSource

  predicate Defines(definitions: seq<Definition>, alias: string) {
    exists i :: 0 <= i < |definitions| && definitions[i].alias == alias
  }

  /** Creating a definition with clean, representable values adds exactly that definition, at the end of the list. */
  lemma CreateAddsDefinition(data: string, edit: Edit, known: set<string>)
    requires ValidAlias(edit.hostAlias) && CleanEdit(edit) && Representable(edit, known)
    ensures Meaning(Appended(data, edit), known) == Meaning(data, known) + [EditedDefinition(edit.hostAlias, [], edit, known)]
  {
    NewlineForms(data);
    ValidAliasNonempty(edit.hostAlias);
    hide ValidAlias, CleanEdit, Representable, Meaning, AskedReadings, DefinitionOf, EditedDefinition, NewBody;
    CleanIsOneLine(edit);
    AppendAddsOne(data, edit, known);
    NewBodyAsked(edit, NewlineOf(data));
    AskedDefinition(Readings(NewBody(edit, NewlineOf(data))), [], edit.hostAlias, edit, known);
  }

  // ---- Delete ----

  lemma DefinesAppend(a: seq<Definition>, b: seq<Definition>, alias: string)
    ensures Defines(a + b, alias) <==> Defines(a, alias) || Defines(b, alias)
  {
    var ab := a + b;
    assert forall i :: 0 <= i < |a| ==> ab[i] == a[i];
    assert forall i :: 0 <= i < |b| ==> ab[|a| + i] == b[i];
    if Defines(ab, alias) {
      var i :| 0 <= i < |ab| && ab[i].alias == alias;
      assert if i < |a| then a[i].alias == alias else b[i - |a|].alias == alias;
    }
  }

  lemma BlockDefines(b: RawBlock, alias: string, known: set<string>)
    requires IsHeader(b.head) && HeadAlias(b.head) != alias
    ensures !Defines(BlockDefinition(b, known), alias)
  {
    hide HeadAlias, IsHeader, Readings, Values, ManagedNames;
  }

  lemma {:induction false} NoSuchDefinition(blocks: seq<RawBlock>, alias: string, known: set<string>)
    requires forall k :: 0 <= k < |blocks| ==> IsHeader(blocks[k].head) && HeadAlias(blocks[k].head) != alias
    ensures !Defines(DefinitionsOf(blocks, known), alias)
  {
    hide HeadAlias, IsHeader, BlockDefinition, Defines;
    if blocks == [] {
      NothingDefined(alias);
    } else {
      NoSuchDefinition(blocks[1..], alias, known);
      BlockDefines(blocks[0], alias, known);
      DefinesAppend(BlockDefinition(blocks[0], known), DefinitionsOf(blocks[1..], known), alias);
    }
  }

  lemma NothingDefined(alias: string)
    ensures !Defines([], alias)
  {}

  /** The file without the first block of an alias. */
  function Deleted(data: string, k: nat): string
    requires k < |Blocks(data)|
  {
    Before(data, k) + After(data, k)
  }

  /** Deleting removes exactly the first definition of the alias. */
  lemma DeleteRemovesFirst(data: string, alias: string, known: set<string>)
    requires alias != "" && Target(data, alias).Some?
    ensures var k := Target(data, alias).value;
      var before, after := DefinitionsOf(Blocks(data)[..k], known), DefinitionsOf(Blocks(data)[k + 1..], known);
      && Meaning(data, known) == before + [DefinitionOf(alias, Readings(Blocks(data)[k].body), known)] + after
      && Meaning(Deleted(data, k), known) == before + after
      && !Defines(before, alias)
  {
    hide IsHeader, HeadAlias, Blocks, Target, Before, After, DefinitionOf, DefinitionsOf, Readings, Preamble;
    TargetIsFirst(data, alias);
    var k := Target(data, alias).value;
    DefinitionsAround(Blocks(data), k, known);
    CutBlock(data, k);
    DefinitionsAppend(Blocks(data)[..k], Blocks(data)[k + 1..], known);
    NoSuchDefinition(Blocks(data)[..k], alias, known);
  }

  // ---- Duplicate ----

  /** The edit that writes a copy of a definition. */
  function CopyOf(d: Definition, newAlias: string): Edit {
    Edit(newAlias, d.hostName, d.user, d.port, Some(d.identityFiles), d.identitiesOnly, d.strictHostKeyChecking,
         d.userKnownHostsFile, d.serverAliveInterval)
  }

  /** What a copy can keep of a definition: directives the application does not represent are not copied. */
  function Copied(d: Definition, newAlias: string): Definition {
    d.(alias := newAlias, advanced := 0, unmanaged := 0,
       assessment := if d.strictHostKeyChecking.Some? || d.userKnownHostsFile.Some? then Weakened else Default)
  }

  /** The values of a definition that come from the file as they are. */
  ghost predicate PlainValues(d: Definition) {
    && (d.hostName.Some? ==> CleanValue(d.hostName.value))
    && (d.user.Some? ==> CleanValue(d.user.value))
    && CleanNames(d.identityFiles)
  }

  // Words hold no newline.

  lemma {:induction false} WordsOnOneLine(s: string, q: char, esc: bool, cur: string)
    requires OnOneLine(s) && OnOneLine(cur)
    ensures forall i :: 0 <= i < |WordsFrom(s, q, esc, cur)| ==> OnOneLine(WordsFrom(s, q, esc, cur)[i])
  {
    hide OnOneLine;
    if s == "" {
    } else {
      var c, rest := s[0], s[1..];
      OneLineParts(s, cur);
      if esc {
        WordsOnOneLine(rest, q, false, cur + [c]);
      } else if c == '\\' && q != '\'' {
        WordsOnOneLine(rest, q, true, cur);
      } else if q != NO_QUOTE {
        WordsOnOneLine(rest, if c == q then NO_QUOTE else q, false, if c == q then cur else cur + [c]);
      } else if IsQuote(c) {
        WordsOnOneLine(rest, c, false, cur);
      } else if IsSpace(c) {
        WordsOnOneLine(rest, NO_QUOTE, false, "");
      } else if !(c == '#' && cur == "") {
        WordsOnOneLine(rest, NO_QUOTE, false, cur + [c]);
      }
    }
  }

  lemma OneLineParts(s: string, cur: string)
    requires s != "" && OnOneLine(s) && OnOneLine(cur)
    ensures OnOneLine(s[1..]) && OnOneLine(cur + [s[0]]) && OnOneLine("")
  {}

  lemma LineReadingOnOneLine(line: string)
    requires LineLike(line)
    ensures forall i :: 0 <= i < |LineReading(line)| ==> OnOneLine(LineReading(line)[i].value)
  {
    hide WordsFrom;
    var d := ScanLine(Content(line));
    if d.Some? {
      assert OnOneLine(Content(line));
      assert OnOneLine(d.value.value) by {
        assert forall i :: 0 <= i < |d.value.value| ==> d.value.value[i] == Content(line)[d.value.at + i];
      }
      WordsOnOneLine(d.value.value, NO_QUOTE, false, "");
    }
  }

  lemma {:induction false} ValuesOnOneLine(lines: seq<string>, key: Keyword)
    requires AllLines(lines)
    ensures forall i :: 0 <= i < |Values(Readings(lines), key)| ==> OnOneLine(Values(Readings(lines), key)[i])
  {
    hide LineReading, LineLike, OnOneLine, EditedReading, LineKey;
    if lines == [] {
      NoReadingsOfNothing(key);
    } else {
      ValuesOnOneLine(lines[1..], key);
      LineReadingOnOneLine(lines[0]);
      ReadingKey(lines[0], map[]);
      OneValue(LineReading(lines[0]), key);
      ValuesAppend(LineReading(lines[0]), Readings(lines[1..]), key);
    }
  }

  lemma {:induction false} LastIsOne<T>(values: seq<string>, read: string -> Option<T>)
    ensures Last(values, read).Some? ==> exists i :: 0 <= i < |values| && Last(values, read) == read(values[i])
  {
    if values != [] {
      var n := |values| - 1;
      if read(values[n]).None? {
        LastIsOne(values[..n], read);
        if Last(values[..n], read).Some? {
          var i :| 0 <= i < n && Last(values[..n], read) == read(values[..n][i]);
          assert values[..n][i] == values[i];
        }
      }
    }
  }

  lemma {:induction false} NamesOnOneLine(values: seq<string>, known: set<string>)
    requires forall i :: 0 <= i < |values| ==> OnOneLine(values[i])
    ensures forall i :: 0 <= i < |ManagedNames(values, known)| ==>
      OnOneLine(ManagedNames(values, known)[i]) && OwnIdentity(ManagedNames(values, known)[i], known)
  {
    if values != [] {
      NamesOnOneLine(values[..|values| - 1], known);
      ManagedIsOwn(values[|values| - 1], known);
    }
  }

  lemma ManagedIsOwn(value: string, known: set<string>)
    requires OnOneLine(value)
    ensures var name := ManagedIdentity(value);
      name.Some? && name.value in known ==> OnOneLine(name.value) && OwnIdentity(name.value, known)
  {
    var name := ManagedIdentity(value);
    if name.Some? {
      assert TrimKeyDir(KEY_DIR + name.value) == name.value;
      assert KEY_DIR <= value ==> forall i :: 0 <= i < |name.value| ==> name.value[i] == value[|KEY_DIR| + i];
    }
  }

  lemma TextField(lines: seq<string>, key: Keyword)
    requires AllLines(lines)
    ensures FieldOnOneLine(Last(Values(Readings(lines), key), TextOf))
  {
    ValuesOnOneLine(lines, key);
    hide Readings, Values, OnOneLine;
    LastIsOne(Values(Readings(lines), key), TextOf);
  }

  /** A field of fixed form reads back as itself and is clean. */
  ghost predicate Fixed(value: Option<string>, read: string -> Option<string>) {
    value.Some? ==> read(value.value) == value && CleanValue(value.value) && OnOneLine(value.value)
  }

  lemma FixedField(values: seq<string>, read: string -> Option<string>)
    requires forall v :: Fixed(read(v), read)
    ensures Fixed(Last(values, read), read)
  {
    hide CleanValue, OnOneLine;
    LastIsOne(values, read);
  }

  lemma NumberField(values: seq<string>, read: string -> Option<nat>, low: nat, max: nat)
    requires forall v :: read(v).Some? ==> low <= read(v).value <= max
    ensures var n: Option<nat> := Last<nat>(values, read);
      n.Some? ==> low <= n.value <= max
  {
    LastIsOne<nat>(values, read);
  }

  lemma FixedForms()
    ensures forall v :: Fixed(YesNoOf(v), YesNoOf)
    ensures forall v :: Fixed(StrictOf(v), StrictOf)
    ensures forall v :: Fixed(KnownHostsOf(v), KnownHostsOf)
  {
    assert Lower("yes") == "yes" && Lower("no") == "no";
  }

  lemma Bounds()
    ensures forall v :: PortOf(v).Some? ==> 1 <= PortOf(v).value <= MAX_PORT
    ensures forall v :: IntervalOf(v).Some? ==> 0 <= IntervalOf(v).value <= MAX_INTERVAL
  {}

  /** What is known of the fields of a definition that was read from lines. */
  ghost predicate ReadFields(d: Definition, known: set<string>) {
    && FieldOnOneLine(d.hostName) && FieldOnOneLine(d.user)
    && (d.port.Some? ==> 1 <= d.port.value <= MAX_PORT)
    && (d.serverAliveInterval.Some? ==> d.serverAliveInterval.value <= MAX_INTERVAL)
    && Fixed(d.identitiesOnly, YesNoOf) && Fixed(d.strictHostKeyChecking, StrictOf) && Fixed(d.userKnownHostsFile, KnownHostsOf)
    && (forall i :: 0 <= i < |d.identityFiles| ==> OnOneLine(d.identityFiles[i]) && OwnIdentity(d.identityFiles[i], known))
  }

  lemma DefinitionIsRead(alias: string, lines: seq<string>, known: set<string>)
    requires AllLines(lines)
    ensures ReadFields(DefinitionOf(alias, Readings(lines), known), known)
  {
    var rs := Readings(lines);
    FixedForms();
    Bounds();
    ValuesOnOneLine(lines, IdentityFile);
    hide Readings, Values, ManagedNames, OwnIdentity, ParseUint, Last, YesNoOf, StrictOf, KnownHostsOf, PortOf, IntervalOf, OnOneLine, CleanValue, Fixed, FieldOnOneLine;
    TextField(lines, HostName);
    TextField(lines, User);
    NumberField(Values(rs, Port), PortOf, 1, MAX_PORT);
    FixedField(Values(rs, IdentitiesOnly), YesNoOf);
    FixedField(Values(rs, StrictHostKeyChecking), StrictOf);
    FixedField(Values(rs, UserKnownHostsFile), KnownHostsOf);
    NumberField(Values(rs, ServerAliveInterval), IntervalOf, 0, MAX_INTERVAL);
    NamesOnOneLine(Values(rs, IdentityFile), known);
  }

  /** The copy of a definition read from the file can be written on lines, and its values can be represented. */
  lemma CopyIsWritable(d: Definition, newAlias: string, known: set<string>)
    requires ReadFields(d, known)
    ensures OneLineEdit(CopyOf(d, newAlias)) && Representable(CopyOf(d, newAlias), known)
  {
    hide OwnIdentity, YesNoOf, StrictOf, KnownHostsOf, OnOneLine, CleanValue;
  }

  /** The copy is clean exactly when the host name, the user and the file names are. */
  lemma CopyIsClean(d: Definition, newAlias: string, known: set<string>)
    requires ReadFields(d, known)
    ensures CleanEdit(CopyOf(d, newAlias)) <==> PlainValues(d)
  {
    var copy := CopyOf(d, newAlias);
    hide Desired, CleanValue, Decimal, CleanNames, YesNoOf, StrictOf, KnownHostsOf, OnOneLine, OwnIdentity;
    DesiredOf(copy, HostName);
    DesiredOf(copy, User);
    if PlainValues(d) {
      forall key | key in Desired(copy) ensures CleanValue(Desired(copy)[key]) {
        DesiredOf(copy, key);
        WantedIsClean(d, newAlias, known, key);
      }
    }
  }

  lemma WantedIsClean(d: Definition, newAlias: string, known: set<string>, key: Keyword)
    requires ReadFields(d, known) && PlainValues(d)
    ensures Wanted(CopyOf(d, newAlias), key).Some? ==> CleanValue(Wanted(CopyOf(d, newAlias), key).value)
  {
    hide CleanValue, Decimal, CleanNames, YesNoOf, StrictOf, KnownHostsOf, OnOneLine, OwnIdentity;
    if d.port.Some? {
      DecimalOnOneLine(d.port.value);
    }
    if d.serverAliveInterval.Some? {
      DecimalOnOneLine(d.serverAliveInterval.value);
    }
  }

  // ---- A copy that is not clean does not read back ----

  lemma FieldReadsBack(key: Keyword, v: string, newline: string)
    requires Supported(key) && IsNewline(newline) && OnOneLine(v)
    requires Last(Values(Readings(FieldLines(key, Some(v), newline)), key), TextOf) == Some(v)
    ensures CleanValue(v)
  {
    hide RenderDirective, CleanValue, LineReading, LineKey, EditedReading, OnOneLine, IsHeader;
    var line := RenderDirective(key, v, newline);
    OneLineReads(line);
    ReadingKey(line, map[]);
    OneValue(LineReading(line), key);
    if LineReading(line) == [] {
      NoLast();
    } else {
      LastOne(LineReading(line)[0].value, TextOf);
      assert Values(LineReading(line), key) == [v];
      assert LineReading(line) == [Reading(key, v)];
    }
    RenderedReadsBackIff(key, v, newline);
  }

  lemma NoLast()
    ensures Last([], TextOf) == None
  {}

  lemma NameValue(name: string, newline: string) returns (values: seq<string>)
    requires IsNewline(newline) && OnOneLine(name)
    ensures Supported(IdentityFile)
    ensures values == Values(LineReading(RenderDirective(IdentityFile, KEY_DIR + name, newline)), IdentityFile)
    ensures |values| <= 1
    ensures values != [] && values[0] == KEY_DIR + name ==> AllPlain(name)
    ensures values != [] ==> KEY_DIR <= values[0]
  {
    SupportedIdentity();
    var v := KEY_DIR + name;
    var line := RenderDirective(IdentityFile, v, newline);
    DirOnOneLine(name);
    RenderedReadsBackIff(IdentityFile, v, newline);
    WrittenStart(name, newline);
    hide RenderDirective, CleanValue, LineReading, LineKey, EditedReading, OnOneLine;
    ReadingKey(line, map[]);
    OneValue(LineReading(line), IdentityFile);
    values := Values(LineReading(line), IdentityFile);
    if values != [] && values[0] == v {
      assert LineReading(line) == [Reading(IdentityFile, v)];
      CleanIsPlain(name);
    }
  }

  lemma CleanIsPlain(name: string)
    requires CleanValue(KEY_DIR + name)
    ensures AllPlain(name)
  {
    var v := KEY_DIR + name;
    assert forall i :: 0 <= i < |name| ==> name[i] == v[|KEY_DIR| + i];
  }

  lemma ValueOfKeyDir(w: string)
    requires Words(KEY_DIR + w) != []
    ensures KEY_DIR <= Words(KEY_DIR + w)[0]
  {
    assert AllPlain(KEY_DIR) && KEY_DIR[0] == '~';
    hide WordsFrom, Extension, LaterWords;
    PlainPrefix(KEY_DIR, w, "");
    assert "" + KEY_DIR == KEY_DIR;
    WordSplits(w, NO_QUOTE, false, KEY_DIR);
  }

  lemma KeyDirScan(s: string, n: nat, w: string)
    requires |s| == 3 + n + |w| && s[3 + n..] == w && KEY_DIR <= w && n > 0
    requires forall j :: 0 <= j < 2 ==> IsSpace(s[j])
    requires (forall j :: 2 <= j < 2 + n ==> !IsSeparator(s[j]) && !IsSpace(s[j])) && IsSeparator(s[2 + n])
    ensures var d := ScanLine(s);
      d.Some? && d.value.words != [] ==> KEY_DIR <= d.value.words[0]
  {
    var d := ScanLine(s);
    if d.Some? && d.value.words != [] {
      hide *;
      var k, e, t := CutOfScan(s);
      CutBounds(s, k, e, d.value.at, t);
      CutUnique(s, n, k, e, d.value.at, t);
      TildeStart(s, n, w, k, e, d.value.at, t);
      assert d.value.value == KEY_DIR + d.value.value[|KEY_DIR|..];
      ValueOfKeyDir(d.value.value[|KEY_DIR|..]);
    }
  }

  /** Whatever the name, the word read from its line starts with the key directory. */
  lemma WrittenStart(name: string, newline: string)
    requires IsNewline(newline) && OnOneLine(name) && Supported(IdentityFile)
    ensures var r := LineReading(RenderDirective(IdentityFile, KEY_DIR + name, newline));
      r != [] ==> KEY_DIR <= r[0].value
  {
    hide *;
    DirOnOneLine(name);
    var w := RenderedContent(IdentityFile, KEY_DIR + name, newline);
    RenderedShape(IdentityFile, w);
    KeyDirPrefix(name, w);
    var s, n := "  " + Canonical(IdentityFile) + " " + w, |Canonical(IdentityFile)|;
    assert |s| == 3 + n + |w|;
    KeyDirScan(s, n, w);
    ReadingOfLine(RenderDirective(IdentityFile, KEY_DIR + name, newline), s);
  }

  lemma ReadingOfLine(line: string, content: string)
    requires Content(line) == content
    ensures LineReading(line) != [] ==>
      ScanLine(content).Some? && ScanLine(content).value.words != [] && LineReading(line)[0].value == ScanLine(content).value.words[0]
  {
    hide ScanLine, Content;
  }

  lemma KeyDirPrefix(name: string, w: string)
    requires w == KEY_DIR + name || (|w| < |KEY_DIR + name| && KEY_DIR + name == w + "\r")
    ensures KEY_DIR <= w
  {
    if w != KEY_DIR + name {
      assert (w + "\r")[|w|] == '\r';
      assert name != "" by {
        assert (KEY_DIR + name)[|KEY_DIR + name| - 1] == '\r';
      }
      assert w == (w + "\r")[..|w|] == (KEY_DIR + name)[..|w|];
    }
  }

  lemma TildeStart(s: string, n: nat, w: string, k: nat, e: nat, a: nat, t: nat)
    requires |s| == 3 + n + |w| && s[3 + n..] == w && KEY_DIR <= w
    requires Cut(s, k, e, a, t) && k == 2 && e == 2 + n && a >= 3 + n
    ensures KEY_DIR <= s[a..t]
  {
    assert w[0] == '~' && s[3 + n] == '~';
    assert !IsSeparator('~');
    assert a == 3 + n;
    assert forall i :: 0 <= i < |KEY_DIR| ==> w[i] == KEY_DIR[i] && s[3 + n + i] == w[i];
    assert !IsSpace(KEY_DIR[|KEY_DIR| - 1]);
    assert t >= a + |KEY_DIR|;
    assert s[a..t][..|KEY_DIR|] == KEY_DIR;
  }

  /** Identity lines that all read back as the names written have clean names. */
  lemma {:induction false} NamesReadBack(names: seq<string>, newline: string, known: set<string>)
    requires IsNewline(newline) && forall i :: 0 <= i < |names| ==> OnOneLine(names[i])
    ensures var values := Values(Readings(IdentityLines(names, newline)), IdentityFile);
      |ManagedNames(values, known)| <= |names| && (ManagedNames(values, known) == names ==> CleanNames(names))
  {
    hide ManagedNames, ManagedIdentity, RenderDirective, LineReading, Readings, Values, OnOneLine, AllPlain;
    if names != [] {
      var lines := IdentityLines(names, newline);
      var here := NameValue(names[0], newline);
      var rest := Values(Readings(lines[1..]), IdentityFile);
      FirstSplits(lines, IdentityFile);
      NamesReadBack(names[1..], newline, known);
      ManagedNamesAppend(here, rest, known);
      ManagedNamesBound(here, known);
      if ManagedNames(here + rest, known) == names {
        assert |ManagedNames(here, known)| == 1;
        assert ManagedNames(here, known) == [names[0]] && ManagedNames(rest, known) == names[1..] by {
          SplitFirst(ManagedNames(here, known), ManagedNames(rest, known), names);
        }
        ManagedName(here, names[0], known);
        CleanCons(names);
      }
    } else {
      NoIdentityLines(newline);
      NoReadingsOfNothing(IdentityFile);
      NoNames(known);
    }
  }

  lemma CleanCons(names: seq<string>)
    requires names != [] && AllPlain(names[0]) && CleanNames(names[1..])
    ensures CleanNames(names)
  {
    hide AllPlain;
    assert forall i :: 0 < i < |names| ==> names[i] == names[1..][i - 1];
  }

  lemma SplitFirst<T>(a: seq<T>, b: seq<T>, c: seq<T>)
    requires |a| == 1 && a + b == c
    ensures c != [] && a == [c[0]] && b == c[1..]
  {}

  /** A written value that starts with the key directory and is read as a name is the written one. */
  lemma ManagedName(here: seq<string>, name: string, known: set<string>)
    requires |here| <= 1 && (here != [] ==> KEY_DIR <= here[0]) && ManagedNames(here, known) == [name]
    ensures here == [KEY_DIR + name]
  {
    NoNames(known);
    assert here == [here[0]];
    OneName(here[0], known);
    hide ManagedNames;
    assert ManagedIdentity(here[0]) == Some(name);
    assert here[0] == KEY_DIR + here[0][|KEY_DIR|..];
  }

  lemma CopiedIdentities(edit: Edit, newline: string, known: set<string>)
    requires OneLineEdit(edit) && IsNewline(newline) && edit.identityFileNames.Some?
    requires ManagedNames(Values(Readings(NewBody(edit, newline)), IdentityFile), known) == edit.identityFileNames.value
    ensures CleanNames(edit.identityFileNames.value)
  {
    NewBodyValues(edit, newline, IdentityFile);
    hide ManagedNames, Values, Readings, NewBody, CleanNames, IdentityLines;
    NamesReadBack(edit.identityFileNames.value, newline, known);
  }

  lemma CopiedText(edit: Edit, newline: string, key: Keyword, value: Option<string>)
    requires OneLineEdit(edit) && IsNewline(newline) && (key == HostName || key == User) && value == Wanted(edit, key)
    requires Last(Values(Readings(NewBody(edit, newline)), key), TextOf) == value
    ensures value.Some? ==> CleanValue(value.value)
  {
    NewBodyValues(edit, newline, key);
    hide Values, Readings, NewBody, CleanValue, Last, FieldLines, OnOneLine;
    if value.Some? {
      FieldReadsBack(key, value.value, newline);
    }
  }

  lemma CopiedFields(d: Definition, newAlias: string, known: set<string>)
    requires ReadFields(d, known)
    ensures EditedDefinition(newAlias, [], CopyOf(d, newAlias), known) == Copied(d, newAlias)
  {
    hide YesNoOf, StrictOf, KnownHostsOf, CleanValue, OnOneLine, OwnIdentity, ManagedIdentity;
    FixedTrust(d, known);
  }

  lemma FixedTrust(d: Definition, known: set<string>)
    requires ReadFields(d, known)
    ensures d.strictHostKeyChecking.Some? ==> StrictOf(d.strictHostKeyChecking.value).Some?
    ensures d.userKnownHostsFile.Some? ==> KnownHostsOf(d.userKnownHostsFile.value).Some?
  {
    hide YesNoOf, StrictOf, KnownHostsOf, CleanValue, OnOneLine, OwnIdentity, ManagedIdentity;
  }

  /** Duplicating adds one definition at the end. It is a faithful copy if and only if the copied host name,
      user and key file names are clean words. */
  lemma DuplicateCopies(data: string, alias: string, newAlias: string, known: set<string>)
    requires alias != "" && Target(data, alias).Some? && ValidAlias(newAlias)
    ensures var d := DefinitionOf(alias, Readings(Blocks(data)[Target(data, alias).value].body), known);
      var result := Meaning(Appended(data, CopyOf(d, newAlias)), known);
      && |result| == |Meaning(data, known)| + 1 && result[..|Meaning(data, known)|] == Meaning(data, known)
      && (result == Meaning(data, known) + [Copied(d, newAlias)] <==> PlainValues(d))
  {
    var k := Target(data, alias).value;
    var b, newline := Blocks(data)[k], NewlineOf(data);
    ValidAliasNonempty(newAlias);
    hide *;
    BlockIsProper(data, k);
    ProperBody(b);
    NewlineForms(data);
    DefinitionIsRead(alias, b.body, known);
    var d := DefinitionOf(alias, Readings(b.body), known);
    var copy := CopyOf(d, newAlias);
    CopyIsWritable(d, newAlias, known);
    CopyIsClean(d, newAlias, known);
    CopyAlias(d, newAlias);
    AppendAddsOne(data, copy, known);
    var made := DefinitionOf(newAlias, Readings(NewBody(copy, newline)), known);
    if PlainValues(d) {
      NewBodyAsked(copy, newline);
      AskedDefinition(Readings(NewBody(copy, newline)), [], newAlias, copy, known);
      CopiedFields(d, newAlias, known);
    } else if made == Copied(d, newAlias) {
      CopiedOf(d, newAlias, newline, known);
      CopiedText(copy, newline, HostName, d.hostName);
      CopiedText(copy, newline, User, d.user);
      CopiedIdentities(copy, newline, known);
      PlainValuesAre(d);
    }
    LastDiffers(Meaning(data, known), made, Copied(d, newAlias));
  }

  lemma LastDiffers<T>(a: seq<T>, x: T, y: T)
    ensures (a + [x])[..|a|] == a
    ensures a + [x] == a + [y] <==> x == y
  {
    assert (a + [x])[|a|] == x && (a + [y])[|a|] == y;
  }

  lemma ProperBody(b: RawBlock)
    requires Proper(BlockLines(b))
    ensures AllLines(b.body)
  {
    assert forall i :: 0 <= i < |b.body| ==> b.body[i] == BlockLines(b)[i + 1];
  }

  lemma CopyAlias(d: Definition, newAlias: string)
    requires newAlias != ""
    ensures var copy := CopyOf(d, newAlias);
      && copy.hostAlias == newAlias && NewAlias(newAlias, copy) == newAlias
      && Wanted(copy, HostName) == d.hostName && Wanted(copy, User) == d.user && copy.identityFileNames == Some(d.identityFiles)
  {}

  lemma CopiedOf(d: Definition, newAlias: string, newline: string, known: set<string>)
    requires DefinitionOf(newAlias, Readings(NewBody(CopyOf(d, newAlias), newline)), known) == Copied(d, newAlias)
    ensures var rs := Readings(NewBody(CopyOf(d, newAlias), newline));
      && Last(Values(rs, HostName), TextOf) == d.hostName
      && Last(Values(rs, User), TextOf) == d.user
      && ManagedNames(Values(rs, IdentityFile), known) == d.identityFiles
  {
    hide Values, Last, ManagedNames, NewBody, Readings, Advanced, Assess;
  }

  lemma PlainValuesAre(d: Definition)
    requires d.hostName.Some? ==> CleanValue(d.hostName.value)
    requires d.user.Some? ==> CleanValue(d.user.value)
    requires CleanNames(d.identityFiles)
    ensures PlainValues(d)
  {}
}
