/** Lines, directives and words of an OpenSSH client configuration file.
    A file is ASCII text, so a byte offset is an index into a string. */
module SshText {
  import opened Common

  // ---- Characters ----

  /** unicode.IsSpace on ASCII: tab, newline, vertical tab, form feed, carriage return, blank. */
  predicate IsSpace(c: char) {
    c == ' ' || '\t' <= c <= '\r'
  }

  predicate IsQuote(c: char) {
    c == '\'' || c == '"'
  }

  function LowerChar(c: char): char {
    if 'A' <= c <= 'Z' then c + ('a' - 'A') else c
  }

  function Lower(s: string): (r: string)
    ensures |r| == |s|
  {
    seq(|s|, i requires 0 <= i < |s| => LowerChar(s[i]))
  }

  /** Lower-casing replaces the capital letters, each by the letter thirty-two places on, and nothing else. */
  lemma LowerIs(text: string)
    ensures |Lower(text)| == |text|
    ensures forall i :: 0 <= i < |text| ==>
      && ('A' <= text[i] <= 'Z' ==> Lower(text)[i] as int == text[i] as int + 32)
      && (!('A' <= text[i] <= 'Z') ==> Lower(text)[i] == text[i])
  {}

  /** Where the text s[..i] ends once trailing space is dropped, but not before lo. */
  function TrimEnd(s: string, lo: nat, i: nat): (r: nat)
    requires lo <= i <= |s|
    ensures lo <= r <= i
    ensures r == lo || !IsSpace(s[r - 1])
  {
    if i > lo && IsSpace(s[i - 1]) then TrimEnd(s, lo, i - 1) else i
  }

  function SkipSpace(s: string, i: nat): (r: nat)
    requires i <= |s|
    ensures i <= r <= |s|
    ensures r == |s| || !IsSpace(s[r])
    decreases |s| - i
  {
    if i < |s| && IsSpace(s[i]) then SkipSpace(s, i + 1) else i
  }

  predicate IsSeparator(c: char) {
    IsSpace(c) || c == '='
  }

  function SkipKeyword(s: string, i: nat): (r: nat)
    requires i <= |s|
    ensures i <= r <= |s|
    ensures r == |s| || IsSeparator(s[r])
    decreases |s| - i
  {
    if i < |s| && !IsSeparator(s[i]) then SkipKeyword(s, i + 1) else i
  }

  function SkipSeparator(s: string, i: nat): (r: nat)
    requires i <= |s|
    ensures i <= r <= |s|
    ensures r == |s| || !IsSeparator(s[r])
    decreases |s| - i
  {
    if i < |s| && IsSeparator(s[i]) then SkipSeparator(s, i + 1) else i
  }

  // ---- Words ----

  const NO_QUOTE: char := '\0'

  /** The words still to come when the rest of a value is `s`, `cur` has been read
      of the present word, `q` is the open quote and `esc` says a backslash is pending. */
  function WordsFrom(s: string, q: char, esc: bool, cur: string): seq<string> {
    if s == "" then Finish(cur)
    else
      var c, rest := s[0], s[1..];
      if esc then WordsFrom(rest, q, false, cur + [c])
      else if c == '\\' && q != '\'' then WordsFrom(rest, q, true, cur)
      else if q != NO_QUOTE then
        if c == q then WordsFrom(rest, NO_QUOTE, false, cur)
        else WordsFrom(rest, q, false, cur + [c])
      else if IsQuote(c) then WordsFrom(rest, c, false, cur)
      else if IsSpace(c) then Finish(cur) + WordsFrom(rest, NO_QUOTE, false, "")
      else if c == '#' && cur == "" then []
      else WordsFrom(rest, NO_QUOTE, false, cur + [c])
  }

  function Finish(cur: string): seq<string> {
    if cur == "" then [] else [cur]
  }

  function Words(value: string): seq<string> {
    WordsFrom(value, NO_QUOTE, false, "")
  }

  /** The words of a directive value, with the loop of the source. */
  method Tokenize(value: string) returns (result: seq<string>)
    ensures result == Words(value)
  {
    result := [];
    var current, quote, escaped := "", NO_QUOTE, false;
    var i := 0;
    while i < |value|
      invariant 0 <= i <= |value|
      invariant quote == NO_QUOTE || IsQuote(quote)
      invariant result + WordsFrom(value[i..], quote, escaped, current) == Words(value)
    {
      var r := value[i];
      assert value[i..][1..] == value[i + 1..];
      if escaped {
        current, escaped := current + [r], false;
      } else if r == '\\' && quote != '\'' {
        escaped := true;
      } else if quote != NO_QUOTE {
        if r == quote {
          quote := NO_QUOTE;
        } else {
          current := current + [r];
        }
      } else if IsQuote(r) {
        quote := r;
      } else if IsSpace(r) {
        if |current| > 0 {
          result, current := result + [current], "";
        }
      } else if r == '#' && |current| == 0 {
        return;
      } else {
        current := current + [r];
      }
      i := i + 1;
    }
    assert value[i..] == "";
    if |current| > 0 {
      result := result + [current];
    }
  }

  /** What the rest of a value still adds to a word of which something has been read. */
  function Extension(s: string, q: char, esc: bool): string {
    if s == "" then ""
    else
      var c, rest := s[0], s[1..];
      if esc then [c] + Extension(rest, q, false)
      else if c == '\\' && q != '\'' then Extension(rest, q, true)
      else if q != NO_QUOTE then
        if c == q then Extension(rest, NO_QUOTE, false) else [c] + Extension(rest, q, false)
      else if IsQuote(c) then Extension(rest, c, false)
      else if IsSpace(c) then ""
      else [c] + Extension(rest, NO_QUOTE, false)
  }

  /** The words after the one `Extension` completes. */
  function LaterWords(s: string, q: char, esc: bool): seq<string> {
    if s == "" then []
    else
      var c, rest := s[0], s[1..];
      if esc then LaterWords(rest, q, false)
      else if c == '\\' && q != '\'' then LaterWords(rest, q, true)
      else if q != NO_QUOTE then LaterWords(rest, if c == q then NO_QUOTE else q, false)
      else if IsQuote(c) then LaterWords(rest, c, false)
      else if IsSpace(c) then WordsFrom(rest, NO_QUOTE, false, "")
      else LaterWords(rest, NO_QUOTE, false)
  }

  /** Once a word has begun, what follows does not depend on what was read of it. */
  lemma {:induction false} WordSplits(s: string, q: char, esc: bool, cur: string)
    requires cur != ""
    ensures WordsFrom(s, q, esc, cur) == [cur + Extension(s, q, esc)] + LaterWords(s, q, esc)
  {
    if s == "" {
      assert cur + "" == cur;
    } else {
      var c, rest := s[0], s[1..];
      if esc {
        WordSplits(rest, q, false, cur + [c]);
        assert cur + [c] + Extension(rest, q, false) == cur + ([c] + Extension(rest, q, false));
      } else if c == '\\' && q != '\'' {
        WordSplits(rest, q, true, cur);
      } else if q != NO_QUOTE {
        if c == q {
          WordSplits(rest, NO_QUOTE, false, cur);
        } else {
          WordSplits(rest, q, false, cur + [c]);
          assert cur + [c] + Extension(rest, q, false) == cur + ([c] + Extension(rest, q, false));
        }
      } else if IsQuote(c) {
        WordSplits(rest, c, false, cur);
      } else if IsSpace(c) {
        assert cur + "" == cur;
      } else {
        WordSplits(rest, NO_QUOTE, false, cur + [c]);
        assert cur + [c] + Extension(rest, NO_QUOTE, false) == cur + ([c] + Extension(rest, NO_QUOTE, false));
      }
    }
  }

  /** A character that stands for itself inside an unquoted word. */
  predicate IsPlain(c: char) {
    !IsSpace(c) && !IsQuote(c) && c != '\\'
  }

  ghost predicate AllPlain(s: string) {
    forall i :: 0 <= i < |s| ==> IsPlain(s[i])
  }

  /** A value that can be written as one word and read back. */
  ghost predicate CleanWord(v: string) {
    v != "" && AllPlain(v) && v[0] != '#'
  }

  lemma {:induction false} PlainPrefix(w: string, rest: string, cur: string)
    requires AllPlain(w)
    requires w != "" ==> cur != "" || w[0] != '#'
    ensures WordsFrom(w + rest, NO_QUOTE, false, cur) == WordsFrom(rest, NO_QUOTE, false, cur + w)
  {
    if w == "" {
      assert w + rest == rest && cur + w == cur;
    } else {
      assert (w + rest)[1..] == w[1..] + rest;
      PlainPrefix(w[1..], rest, cur + [w[0]]);
      assert cur + [w[0]] + w[1..] == cur + w;
    }
  }

  /** Reading drops every quote, backslash and unquoted blank, so a word is never
      longer than the text it was read from. */
  lemma {:induction false} WordLength(s: string, q: char, esc: bool, cur: string)
    requires |WordsFrom(s, q, esc, cur)| > 0
    ensures |WordsFrom(s, q, esc, cur)[0]| <= |cur| + |s|
    ensures !esc && q == NO_QUOTE && WordsFrom(s, q, esc, cur)[0] == cur + s ==> AllPlain(s)
  {
    if s != "" {
      var c, rest := s[0], s[1..];
      if esc {
        WordLength(rest, q, false, cur + [c]);
      } else if c == '\\' && q != '\'' {
        WordLength(rest, q, true, cur);
      } else if q != NO_QUOTE {
        if c == q {
          WordLength(rest, NO_QUOTE, false, cur);
        } else {
          WordLength(rest, q, false, cur + [c]);
        }
      } else if IsQuote(c) {
        WordLength(rest, c, false, cur);
      } else if IsSpace(c) {
        if cur == "" {
          WordLength(rest, NO_QUOTE, false, "");
        }
      } else if !(c == '#' && cur == "") {
        WordLength(rest, NO_QUOTE, false, cur + [c]);
        if WordsFrom(s, q, esc, cur)[0] == cur + s {
          assert cur + s == cur + [c] + rest;
          assert forall i :: 0 <= i < |s| ==> s[i] == if i == 0 then c else rest[i - 1];
        }
      }
    }
  }

  /** A value reads back as itself exactly when it is a clean word. */
  lemma ReadsBackIffClean(v: string)
    ensures (|Words(v)| > 0 && Words(v)[0] == v) <==> CleanWord(v)
  {
    if CleanWord(v) {
      PlainPrefix(v, "", "");
      assert v + "" == v && "" + v == v;
    } else if v != "" && v[0] != '#' && |Words(v)| > 0 {
      WordLength(v, NO_QUOTE, false, "");
      assert "" + v == v;
    }
  }

  // ---- Lines ----

  function LineEnd(data: string, i: nat): (e: nat)
    requires i <= |data|
    ensures i <= e <= |data|
    ensures i < |data| ==> i < e
    ensures forall j :: i <= j < e - 1 ==> data[j] != '\n'
    ensures e < |data| ==> e > i && data[e - 1] == '\n'
    decreases |data| - i
  {
    if i == |data| then i
    else if data[i] == '\n' then i + 1
    else LineEnd(data, i + 1)
  }

  /** The lines of a text, each with its newline. */
  function Lines(data: string): seq<string> {
    if data == "" then []
    else [data[..LineEnd(data, 0)]] + Lines(data[LineEnd(data, 0)..])
  }

  function Flatten(lines: seq<string>): string {
    if lines == [] then "" else lines[0] + Flatten(lines[1..])
  }

  predicate Terminated(line: string) {
    line != "" && line[|line| - 1] == '\n'
  }

  /** A text that a new line can follow. */
  predicate AtLineStart(text: string) {
    text == "" || text[|text| - 1] == '\n'
  }

  lemma {:induction false} FlattenLines(data: string)
    ensures Flatten(Lines(data)) == data
  {
    if data != "" {
      var e := LineEnd(data, 0);
      FlattenLines(data[e..]);
      assert Lines(data)[1..] == Lines(data[e..]);
      assert data[..e] + data[e..] == data;
    }
  }

  lemma {:induction false} FlattenAppend(a: seq<string>, b: seq<string>)
    ensures Flatten(a + b) == Flatten(a) + Flatten(b)
  {
    if a == [] {
      assert a + b == b;
    } else {
      assert (a + b)[1..] == a[1..] + b;
      FlattenAppend(a[1..], b);
    }
  }

  lemma FlattenOne(line: string)
    ensures Flatten([line]) == line
  {
    assert [line][1..] == [];
    assert line + "" == line;
  }

  lemma {:induction false} LineEndAppend(a: string, b: string, i: nat)
    requires i < |a| && AtLineStart(a)
    ensures LineEnd(a + b, i) == LineEnd(a, i)
    decreases |a| - i
  {
    assert (a + b)[i] == a[i];
    if a[i] != '\n' {
      assert i + 1 < |a|;
      LineEndAppend(a, b, i + 1);
    }
  }

  /** Parsing into lines is compositional at line boundaries. */
  lemma {:induction false} LinesAppend(a: string, b: string)
    requires AtLineStart(a)
    ensures Lines(a + b) == Lines(a) + Lines(b)
    decreases |a|
  {
    if a == "" {
      assert a + b == b;
    } else {
      LineEndAppend(a, b, 0);
      var e := LineEnd(a, 0);
      assert (a + b)[..e] == a[..e];
      assert (a + b)[e..] == a[e..] + b;
      LinesAppend(a[e..], b);
    }
  }

  /** A text with no newline, or with its only newline at the end, is one line. */
  lemma OneLine(line: string)
    requires line != "" && forall i :: 0 <= i < |line| - 1 ==> line[i] != '\n'
    ensures Lines(line) == [line]
  {
    var e := LineEnd(line, 0);
    assert e == |line|;
    assert line[..e] == line && line[e..] == "";
  }

  /** Every line is nonempty and holds a newline at most as its last character;
      all lines but the last end in one. */
  ghost predicate WellFormedLines(lines: seq<string>) {
    forall k :: 0 <= k < |lines| ==>
      && lines[k] != ""
      && (forall i :: 0 <= i < |lines[k]| - 1 ==> lines[k][i] != '\n')
      && (k < |lines| - 1 ==> Terminated(lines[k]))
  }

  lemma {:induction false} LinesWellFormed(data: string)
    ensures WellFormedLines(Lines(data))
  {
    if data != "" {
      var e := LineEnd(data, 0);
      LinesWellFormed(data[e..]);
      var rest := Lines(data[e..]);
      var lines := Lines(data);
      forall k | 0 <= k < |lines|
        ensures lines[k] != ""
        ensures forall i :: 0 <= i < |lines[k]| - 1 ==> lines[k][i] != '\n'
        ensures k < |lines| - 1 ==> Terminated(lines[k])
      {
        if k > 0 {
          assert lines[k] == rest[k - 1];
        }
      }
    }
  }

  /** Lines inverts Flatten on well-formed lines. */
  lemma {:induction false} LinesFlatten(lines: seq<string>)
    requires WellFormedLines(lines)
    ensures Lines(Flatten(lines)) == lines
  {
    if lines != [] {
      var rest := lines[1..];
      assert WellFormedLines(rest) by {
        forall k | 0 <= k < |rest|
          ensures rest[k] != ""
          ensures forall i :: 0 <= i < |rest[k]| - 1 ==> rest[k][i] != '\n'
          ensures k < |rest| - 1 ==> Terminated(rest[k])
        {
          assert rest[k] == lines[k + 1];
        }
      }
      LinesFlatten(rest);
      OneLine(lines[0]);
      if rest == [] {
        assert lines[0] + Flatten(rest) == lines[0];
      } else {
        LinesAppend(lines[0], Flatten(rest));
      }
    }
  }

  // ---- Directives ----

  /** The line without its newline, and without one carriage return before it. */
  function ContentEnd(line: string): (n: nat)
    ensures n <= |line|
  {
    var a := if line != "" && line[|line| - 1] == '\n' then |line| - 1 else |line|;
    if a > 0 && line[a - 1] == '\r' then a - 1 else a
  }

  function Content(line: string): string {
    line[..ContentEnd(line)]
  }

  function Ending(line: string): string {
    line[ContentEnd(line)..]
  }

  /** One directive: its keyword, its trimmed value, the value's words, and where the value starts in the line. */
  datatype Scan = Scan(keyword: string, value: string, words: seq<string>, at: nat)

  function ScanLine(s: string): (r: Option<Scan>)
    ensures r.Some? ==> r.value.at + |r.value.value| <= |s|
    ensures r.Some? ==> s[r.value.at..r.value.at + |r.value.value|] == r.value.value
    ensures r.Some? ==> r.value.words == Words(r.value.value)
  {
    var k := SkipSpace(s, 0);
    if k == |s| || s[k] == '#' then None
    else
      var e := SkipKeyword(s, k);
      if e == k then None
      else
        var v := SkipSeparator(s, e);
        var t := TrimEnd(s, v, |s|);
        Some(Scan(s[k..e], s[v..t], Words(s[v..t]), v))
  }

  // ---- Keywords ----

  /** The keywords the parser and the editor tell apart. */
  datatype Keyword =
    | Host | Match | Include
    | HostName | User | Port | IdentityFile | IdentitiesOnly
    | StrictHostKeyChecking | UserKnownHostsFile | ServerAliveInterval
    | Unknown(text: string)

  /** Keywords are read without regard to case. */
  function KeywordOf(text: string): Keyword {
    match Lower(text)
    case "host" => Host
    case "match" => Match
    case "include" => Include
    case "hostname" => HostName
    case "user" => User
    case "port" => Port
    case "identityfile" => IdentityFile
    case "identitiesonly" => IdentitiesOnly
    case "stricthostkeychecking" => StrictHostKeyChecking
    case "userknownhostsfile" => UserKnownHostsFile
    case "serveraliveinterval" => ServerAliveInterval
    case other => Unknown(other)
  }

  /** The keywords whose value a definition holds. */
  predicate Supported(key: Keyword) {
    !key.Host? && !key.Match? && !key.Include? && !key.Unknown?
  }

  /** How a supported keyword is written. */
  function Canonical(key: Keyword): string
    requires Supported(key)
  {
    match key
    case HostName => "HostName"
    case User => "User"
    case Port => "Port"
    case IdentityFile => "IdentityFile"
    case IdentitiesOnly => "IdentitiesOnly"
    case StrictHostKeyChecking => "StrictHostKeyChecking"
    case UserKnownHostsFile => "UserKnownHostsFile"
    case ServerAliveInterval => "ServerAliveInterval"
  }

  /** A word of letters: nothing in it ends a keyword. */
  predicate Letters(s: string) {
    s != "" && forall i :: 0 <= i < |s| ==> 'a' <= LowerChar(s[i]) <= 'z'
  }

  lemma ReadsHostName()
    ensures KeywordOf("HostName") == HostName && Letters("HostName")
  {
    assert Lower("HostName") == "hostname";
  }

  lemma ReadsUser()
    ensures KeywordOf("User") == User && Letters("User")
  {
    assert Lower("User") == "user";
  }

  lemma ReadsPort()
    ensures KeywordOf("Port") == Port && Letters("Port")
  {
    assert Lower("Port") == "port";
  }

  lemma LowerIdentityFile()
    ensures Lower("IdentityFile") == "identityfile"
  {}

  lemma LettersIdentityFile()
    ensures Letters("IdentityFile")
  {}

  lemma ReadsIdentityFile()
    ensures KeywordOf("IdentityFile") == IdentityFile && Letters("IdentityFile")
  {
    hide Letters, Lower;
    LowerIdentityFile();
    LettersIdentityFile();
  }

  lemma LowerIdentitiesOnly()
    ensures Lower("IdentitiesOnly") == "identitiesonly"
  {}

  lemma LettersIdentitiesOnly()
    ensures Letters("IdentitiesOnly")
  {}

  lemma ReadsIdentitiesOnly()
    ensures KeywordOf("IdentitiesOnly") == IdentitiesOnly && Letters("IdentitiesOnly")
  {
    hide Letters, Lower;
    LowerIdentitiesOnly();
    LettersIdentitiesOnly();
  }

  lemma LowerStrictHostKeyChecking()
    ensures Lower("StrictHostKeyChecking") == "stricthostkeychecking"
  {}

  lemma LettersStrictHostKeyChecking()
    ensures Letters("StrictHostKeyChecking")
  {}

  lemma ReadsStrictHostKeyChecking()
    ensures KeywordOf("StrictHostKeyChecking") == StrictHostKeyChecking && Letters("StrictHostKeyChecking")
  {
    hide Letters, Lower;
    LowerStrictHostKeyChecking();
    LettersStrictHostKeyChecking();
  }

  lemma LowerUserKnownHostsFile()
    ensures Lower("UserKnownHostsFile") == "userknownhostsfile"
  {}

  lemma LettersUserKnownHostsFile()
    ensures Letters("UserKnownHostsFile")
  {}

  lemma ReadsUserKnownHostsFile()
    ensures KeywordOf("UserKnownHostsFile") == UserKnownHostsFile && Letters("UserKnownHostsFile")
  {
    hide Letters, Lower;
    LowerUserKnownHostsFile();
    LettersUserKnownHostsFile();
  }

  lemma LowerServerAliveInterval()
    ensures Lower("ServerAliveInterval") == "serveraliveinterval"
  {}

  lemma LettersServerAliveInterval()
    ensures Letters("ServerAliveInterval")
  {}

  lemma ReadsServerAliveInterval()
    ensures KeywordOf("ServerAliveInterval") == ServerAliveInterval && Letters("ServerAliveInterval")
  {
    hide Letters, Lower;
    LowerServerAliveInterval();
    LettersServerAliveInterval();
  }

  /** A written keyword is read back. */
  lemma CanonicalReadsBack(key: Keyword)
    requires Supported(key)
    ensures KeywordOf(Canonical(key)) == key
    ensures Letters(Canonical(key))
  {
    hide KeywordOf, Letters;
    match key
    case HostName => ReadsHostName();
    case User => ReadsUser();
    case Port => ReadsPort();
    case IdentityFile => ReadsIdentityFile();
    case IdentitiesOnly => ReadsIdentitiesOnly();
    case StrictHostKeyChecking => ReadsStrictHostKeyChecking();
    case UserKnownHostsFile => ReadsUserKnownHostsFile();
    case ServerAliveInterval => ReadsServerAliveInterval();
  }

  function Key(d: Scan): Keyword {
    KeywordOf(d.keyword)
  }
}
