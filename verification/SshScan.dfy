/** What a scanned line looks like: reading back rendered and edited directives. */
module SshScan {
  import opened Common
  import opened SshText
  import opened SshDefinition
  import opened SshPatch

  // ---- The skipping functions, characterised ----

  lemma {:induction false} SkipSpaceIs(s: string, i: nat, r: nat)
    requires i <= r <= |s|
    requires forall j :: i <= j < r ==> IsSpace(s[j])
    requires r == |s| || !IsSpace(s[r])
    ensures SkipSpace(s, i) == r
    decreases r - i
  {
    hide IsSpace;
    if i < r {
      SkipSpaceIs(s, i + 1, r);
    }
  }

  lemma {:induction false} SkippedSpace(s: string, i: nat)
    requires i <= |s|
    ensures forall j :: i <= j < SkipSpace(s, i) ==> IsSpace(s[j])
    decreases |s| - i
  {
    hide IsSpace;
    if i < |s| && IsSpace(s[i]) {
      SkippedSpace(s, i + 1);
    }
  }

  lemma {:induction false} SkipKeywordIs(s: string, i: nat, r: nat)
    requires i <= r <= |s|
    requires forall j :: i <= j < r ==> !IsSeparator(s[j])
    requires r == |s| || IsSeparator(s[r])
    ensures SkipKeyword(s, i) == r
    decreases r - i
  {
    hide IsSeparator;
    if i < r {
      SkipKeywordIs(s, i + 1, r);
    }
  }

  lemma {:induction false} SkippedKeyword(s: string, i: nat)
    requires i <= |s|
    ensures forall j :: i <= j < SkipKeyword(s, i) ==> !IsSeparator(s[j])
    decreases |s| - i
  {
    hide IsSeparator;
    if i < |s| && !IsSeparator(s[i]) {
      SkippedKeyword(s, i + 1);
    }
  }

  lemma {:induction false} SkipSeparatorIs(s: string, i: nat, r: nat)
    requires i <= r <= |s|
    requires forall j :: i <= j < r ==> IsSeparator(s[j])
    requires r == |s| || !IsSeparator(s[r])
    ensures SkipSeparator(s, i) == r
    decreases r - i
  {
    hide IsSeparator;
    if i < r {
      SkipSeparatorIs(s, i + 1, r);
    }
  }

  lemma {:induction false} SkippedSeparator(s: string, i: nat)
    requires i <= |s|
    ensures forall j :: i <= j < SkipSeparator(s, i) ==> IsSeparator(s[j])
    decreases |s| - i
  {
    hide IsSeparator;
    if i < |s| && IsSeparator(s[i]) {
      SkippedSeparator(s, i + 1);
    }
  }

  lemma {:induction false} TrimEndIs(s: string, lo: nat, i: nat, r: nat)
    requires lo <= r <= i <= |s|
    requires forall j :: r <= j < i ==> IsSpace(s[j])
    requires r == lo || !IsSpace(s[r - 1])
    ensures TrimEnd(s, lo, i) == r
  {
    hide IsSpace;
    if r < i {
      TrimEndIs(s, lo, i - 1, r);
    }
  }

  lemma {:induction false} TrimmedEnd(s: string, lo: nat, i: nat)
    requires lo <= i <= |s|
    ensures forall j :: TrimEnd(s, lo, i) <= j < i ==> IsSpace(s[j])
  {
    hide IsSpace;
    if i > lo && IsSpace(s[i - 1]) {
      TrimmedEnd(s, lo, i - 1);
    }
  }

  /** A line taken apart: indentation up to k, keyword up to e, separator up to a, value up to t. */
  ghost predicate Cut(s: string, k: nat, e: nat, a: nat, t: nat) {
    && k < e <= a <= t <= |s|
    && (forall j :: 0 <= j < k ==> IsSpace(s[j]))
    && s[k] != '#'
    && (forall j :: k <= j < e ==> !IsSeparator(s[j]))
    && (e == |s| || IsSeparator(s[e]))
    && (forall j :: e <= j < a ==> IsSeparator(s[j]))
    && (a == |s| || !IsSeparator(s[a]))
    && (forall j :: t <= j < |s| ==> IsSpace(s[j]))
    && (t == a || !IsSpace(s[t - 1]))
  }

  lemma ScanOfCut(s: string, k: nat, e: nat, a: nat, t: nat)
    requires Cut(s, k, e, a, t)
    ensures ScanLine(s) == Some(Scan(s[k..e], s[a..t], Words(s[a..t]), a))
  {
    assert !IsSpace(s[k]) by {
      assert !IsSeparator(s[k]);
    }
    hide Words, IsSpace, IsSeparator;
    SkipSpaceIs(s, 0, k);
    SkipKeywordIs(s, k, e);
    SkipSeparatorIs(s, e, a);
    TrimEndIs(s, a, |s|, t);
  }

  lemma CutOfScan(s: string) returns (k: nat, e: nat, t: nat)
    requires ScanLine(s).Some?
    ensures var d := ScanLine(s).value;
      Cut(s, k, e, d.at, t) && d.keyword == s[k..e] && d.value == s[d.at..t] && d.words == Words(d.value)
  {
    hide Words;
    k := SkipSpace(s, 0);
    e := SkipKeyword(s, k);
    t := TrimEnd(s, SkipSeparator(s, e), |s|);
    hide IsSpace, IsSeparator;
    SkippedSpace(s, 0);
    SkippedKeyword(s, k);
    SkippedSeparator(s, e);
    TrimmedEnd(s, SkipSeparator(s, e), |s|);
  }

  ghost predicate CutAs(s: string, k: nat, e: nat, t: nat, d: Scan) {
    Cut(s, k, e, d.at, t) && d == Scan(s[k..e], s[d.at..t], Words(s[d.at..t]), d.at)
  }

  /** A line holds a directive if and only if it can be taken apart, and then in one way only. */
  lemma ScanIff(s: string, d: Scan)
    ensures ScanLine(s) == Some(d) <==> exists k: nat, e: nat, t: nat :: CutAs(s, k, e, t, d)
  {
    if ScanLine(s) == Some(d) {
      var k, e, t := CutOfScan(s);
      assert CutAs(s, k, e, t, d);
    }
    hide Words, ScanLine, Cut;
    forall k: nat, e: nat, t: nat | CutAs(s, k, e, t, d) ensures ScanLine(s) == Some(d) {
      ScanOfCut(s, k, e, d.at, t);
    }
  }

  // ---- A value put in place of the first word ----

  /** A value that can be written after a keyword and read back. */
  ghost predicate CleanValue(v: string) {
    CleanWord(v) && v[0] != '='
  }

  lemma CutReplaced(c: string, k: nat, e: nat, a: nat, t: nat, n: nat, v: string)
    requires Cut(c, k, e, a, t) && a + n <= t && n > 0 && CleanValue(v)
    ensures Cut(c[..a] + v + c[a + n..], k, e, a, t - n + |v|)
    ensures (c[..a] + v + c[a + n..])[k..e] == c[k..e]
    ensures (c[..a] + v + c[a + n..])[a..t - n + |v|] == v + c[a + n..t]
  {
    var c' := c[..a] + v + c[a + n..];
    var t' := t - n + |v|;
    assert forall j :: 0 <= j < a ==> c'[j] == c[j];
    assert forall j :: a <= j < a + |v| ==> c'[j] == v[j - a];
    assert forall j :: a + |v| <= j < |c'| ==> c'[j] == c[j - |v| + n];
    assert IsPlain(v[0]) && IsPlain(v[|v| - 1]);
    if t == a + n {
      assert c'[t' - 1] == v[|v| - 1];
    } else {
      assert c'[t' - 1] == c[t - 1];
    }
    if e < a {
      assert c'[e] == c[e];
    } else {
      assert false;
    }
  }

  /** What the text after the first word of a directive still adds to a word put in its place. */
  function Leftover(d: Scan): string
    requires d.words != [] && |d.words[0]| <= |d.value|
  {
    Extension(d.value[|d.words[0]|..], NO_QUOTE, false)
  }

  /** A text that adds nothing to the word before it: it ends or a blank follows, possibly after empty quotes,
      or only a quote that is not closed or a backslash is left. */
  predicate Silent(s: string) {
    || s == "" || IsSpace(s[0]) || s == "\\"
    || (IsQuote(s[0]) && (|s| == 1 || s == "\"\\" || (s[1] == s[0] && Silent(s[2..]))))
  }

  lemma {:induction false} NothingLeftIff(s: string)
    ensures Extension(s, NO_QUOTE, false) == "" <==> Silent(s)
  {
    if |s| > 1 && IsQuote(s[0]) {
      var rest := s[1..];
      assert rest != "" && rest[0] == s[1] && rest[1..] == s[2..];
      assert Extension(s, NO_QUOTE, false) == Extension(rest, s[0], false);
      if s[1] == s[0] {
        NothingLeftIff(s[2..]);
      } else if s[0] == '"' && s[1] == '\\' {
        assert Extension(rest, '"', false) == Extension(s[2..], '"', true);
        assert |s| == 2 ==> s == "\"\\";
      }
    } else if s != "" && s[0] == '\\' {
      var rest := s[1..];
      assert rest == "" <==> s == "\\";
      if rest != "" {
        assert Extension(s, NO_QUOTE, false) == [rest[0]] + Extension(rest[1..], NO_QUOTE, false);
      }
    }
  }

  /** The words that follow a word put in place of the first. */
  function Following(d: Scan): seq<string>
    requires d.words != [] && |d.words[0]| <= |d.value|
  {
    LaterWords(d.value[|d.words[0]|..], NO_QUOTE, false)
  }

  lemma WordsOfReplaced(v: string, rest: string)
    requires CleanValue(v)
    ensures Words(v + rest) == [v + Extension(rest, NO_QUOTE, false)] + LaterWords(rest, NO_QUOTE, false)
  {
    hide WordsFrom, Extension, LaterWords;
    PlainPrefix(v, rest, "");
    assert "" + v == v;
    WordSplits(rest, NO_QUOTE, false, v);
  }

  lemma ScanReplaced(c: string, v: string)
    requires ScanLine(c).Some? && ScanLine(c).value.words != [] && CleanValue(v)
    ensures var d := ScanLine(c).value;
      && 0 < |d.words[0]| <= |d.value| && d.at + |d.words[0]| <= |c|
      && var r := ScanLine(c[..d.at] + v + c[d.at + |d.words[0]|..]);
      && r.Some? && r.value.keyword == d.keyword && r.value.words == [v + Leftover(d)] + Following(d)
  {
    hide Words, WordsFrom, Extension, LaterWords, ScanLine, Cut, CleanValue;
    var d := ScanLine(c).value;
    var k, e, t := CutOfScan(c);
    CutBounds(c, k, e, d.at, t);
    FirstWordFits(d.value);
    FirstNonempty(d.value);
    var n := |d.words[0]|;
    CutReplaced(c, k, e, d.at, t, n, v);
    ScanOfCut(c[..d.at] + v + c[d.at + n..], k, e, d.at, t - n + |v|);
    assert c[d.at + n..t] == d.value[n..];
    WordsOfReplaced(v, d.value[n..]);
  }

  lemma CutBounds(s: string, k: nat, e: nat, a: nat, t: nat)
    requires Cut(s, k, e, a, t)
    ensures k < e <= a <= t <= |s|
  {}

  lemma FirstNonempty(value: string)
    requires Words(value) != []
    ensures Words(value)[0] != ""
  {
    WordsNonempty(value, NO_QUOTE, false, "");
  }

  lemma {:induction false} WordsNonempty(s: string, q: char, esc: bool, cur: string)
    ensures forall i :: 0 <= i < |WordsFrom(s, q, esc, cur)| ==> WordsFrom(s, q, esc, cur)[i] != ""
  {
    if s != "" {
      var c, rest := s[0], s[1..];
      if esc {
        WordsNonempty(rest, q, false, cur + [c]);
      } else if c == '\\' && q != '\'' {
        WordsNonempty(rest, q, true, cur);
      } else if q != NO_QUOTE {
        WordsNonempty(rest, if c == q then NO_QUOTE else q, false, if c == q then cur else cur + [c]);
      } else if IsQuote(c) {
        WordsNonempty(rest, c, false, cur);
      } else if IsSpace(c) {
        WordsNonempty(rest, NO_QUOTE, false, "");
      } else if !(c == '#' && cur == "") {
        WordsNonempty(rest, NO_QUOTE, false, cur + [c]);
      }
    }
  }

  // ---- Content and ending ----

  ghost predicate IsEnding(c: string, ending: string) {
    || ending == "\r\n" || ending == "\r"
    || (ending == "\n" && (c == "" || c[|c| - 1] != '\r'))
    || (ending == "" && (c == "" || c[|c| - 1] != '\r') && (c == "" || c[|c| - 1] != '\n'))
  }

  lemma ContentOf(c: string, ending: string)
    requires IsEnding(c, ending)
    ensures Content(c + ending) == c && Ending(c + ending) == ending
  {
    var line := c + ending;
    if ending == "\r\n" {
      assert line[|line| - 1] == '\n' && line[|line| - 2] == '\r';
    } else if ending != "" {
      assert line[|line| - 1] == ending[0];
      if ending == "\n" && c != "" {
        assert line[|line| - 2] == c[|c| - 1];
      }
    } else {
      assert line == c;
    }
    assert ContentEnd(line) == |c|;
  }

  lemma EndingForms(line: string)
    ensures IsEnding(Content(line), Ending(line))
    ensures Content(line) + Ending(line) == line
  {
    var n := ContentEnd(line);
    if Ending(line) != "" {
      if |Ending(line)| == 2 {
        assert Ending(line) == [line[n], line[n + 1]];
      } else {
        assert Ending(line) == [line[n]];
      }
    }
  }

  lemma EndingOfReplaced(c: string, ending: string, a: nat, n: nat, v: string)
    requires IsEnding(c, ending) && a + n <= |c| && CleanValue(v)
    ensures IsEnding(c[..a] + v + c[a + n..], ending)
  {
    var c' := c[..a] + v + c[a + n..];
    assert IsPlain(v[|v| - 1]);
    assert c'[|c'| - 1] == if a + n < |c| then c[|c| - 1] else v[|v| - 1];
  }

  /** An edited directive line keeps its keyword; its value is the new one followed by the leftover. */
  lemma EditedLineScans(line: string, v: string)
    requires ScanLine(Content(line)).Some? && ScanLine(Content(line)).value.words != [] && CleanValue(v)
    ensures var d := ScanLine(Content(line)).value;
      && 0 < |d.words[0]| <= |d.value|
      && var r := ScanLine(Content(WithFirstWord(line, v)));
      && r.Some? && r.value.keyword == d.keyword && r.value.words == [v + Leftover(d)] + Following(d)
    ensures Ending(WithFirstWord(line, v)) == Ending(line)
  {
    hide Words, ScanLine, IsEnding, Content, Ending, Leftover, Following, CleanValue;
    var c := Content(line);
    var d := ScanLine(c).value;
    ScanReplaced(c, v);
    EndingForms(line);
    EndingOfReplaced(c, Ending(line), d.at, |d.words[0]|, v);
    ContentOf(c[..d.at] + v + c[d.at + |d.words[0]|..], Ending(line));
  }

  // ---- Rendered directives ----

  ghost predicate IsNewline(newline: string) {
    newline == "\n" || newline == "\r\n"
  }

  lemma RenderedCut(key: Keyword, v: string)
    requires Supported(key) && CleanValue(v)
    ensures var s, n := "  " + Canonical(key) + " " + v, |Canonical(key)|;
      && Cut(s, 2, 2 + n, 3 + n, |s|)
      && s[2..2 + n] == Canonical(key) && s[3 + n..] == v
  {
    CanonicalReadsBack(key);
    hide Canonical, KeywordOf;
    var w, n := Canonical(key), |Canonical(key)|;
    var s := "  " + w + " " + v;
    assert forall j :: 2 <= j < 2 + n ==> s[j] == w[j - 2];
    assert s[2 + n] == ' ';
    assert forall j :: 3 + n <= j < |s| ==> s[j] == v[j - 3 - n];
    forall j | 2 <= j < 2 + n ensures !IsSeparator(s[j]) && s[j] != '#' {
      assert 'a' <= LowerChar(w[j - 2]) <= 'z';
    }
    assert IsPlain(v[0]) && IsPlain(v[|v| - 1]);
    assert s[3 + n] == v[0];
    assert s[|s| - 1] == v[|v| - 1];
  }

  /** A rendered directive reads back as its key and value. */
  lemma RenderedScans(key: Keyword, v: string, newline: string)
    requires Supported(key) && CleanValue(v) && IsNewline(newline)
    ensures var r := ScanLine(Content(RenderDirective(key, v, newline)));
      r.Some? && Key(r.value) == key && r.value.words == [v]
    ensures LineReading(RenderDirective(key, v, newline)) == [Reading(key, v)]
  {
    hide Words, WordsFrom, ScanLine, Canonical, Cut, Content, KeywordOf;
    var s, n := "  " + Canonical(key) + " " + v, |Canonical(key)|;
    RenderedCut(key, v);
    ScanOfCut(s, 2, 2 + n, 3 + n, |s|);
    assert s[3 + n..|s|] == v;
    CanonicalReadsBack(key);
    WordsOfReplaced(v, "");
    assert v + "" == v;
    assert IsEnding(s, newline) by {
      assert IsPlain(v[|v| - 1]);
      assert s[|s| - 1] == v[|v| - 1];
    }
    ContentOf(s, newline);
    assert RenderDirective(key, v, newline) == s + newline;
  }

  lemma BlankLine(line: string)
    requires Content(line) == ""
    ensures ScanLine(Content(line)) == None
  {}
}
