/** Quoting for a remote shell, and how a shell splits the command line again: quoting and word
    splitting by sections 2.2.1 to 2.2.3 and 2.3 of the POSIX.1-2017 Shell Command Language. */
module ShellWords {
  import opened Common

  const NUL := '\0'

  // ---- The shell's side ----

  datatype Mode = Bare | Single | Double

  /** Characters that stand for themselves outside quotes. */
  predicate Plain(c: char) {
    'a' <= c <= 'z' || 'A' <= c <= 'Z' || '0' <= c <= '9' || c in {'_', '-', '.', '/', ':', '@', '%', '+', ',', '='}
  }

  function Grown(word: Option<string>, c: char): Option<string> {
    Some((if word.Some? then word.value else "") + [c])
  }

  function Begun(word: Option<string>): Option<string> {
    if word.Some? then word else Some("")
  }

  function Before(word: Option<string>, rest: Option<seq<string>>): Option<seq<string>> {
    if rest.None? then None else Some((if word.Some? then [word.value] else []) + rest.value)
  }

  /** The words of a simple command: none for an unclosed quote, and none where the shell would do more
      than quoting (operators, expansions, patterns, comments, the end of a line). */
  function Split(s: string, mode: Mode, word: Option<string>): Option<seq<string>> {
    if s == "" then (if mode.Bare? then Before(word, Some([])) else None)
    else if s[0] == NUL then None
    else
      match mode
      case Bare =>
        if s[0] == ' ' || s[0] == '\t' then Before(word, Split(s[1..], Bare, None))
        else if s[0] == '\'' then Split(s[1..], Single, Begun(word))
        else if s[0] == '"' then Split(s[1..], Double, Begun(word))
        else if s[0] == '\\' then
          if |s| < 2 || s[1] == NUL then None
          else if s[1] == '\n' then Split(s[2..], Bare, word)
          else Split(s[2..], Bare, Grown(word, s[1]))
        else if Plain(s[0]) then Split(s[1..], Bare, Grown(word, s[0]))
        else None
      case Single =>
        if s[0] == '\'' then Split(s[1..], Bare, word) else Split(s[1..], Single, Grown(word, s[0]))
      case Double =>
        if s[0] == '"' then Split(s[1..], Bare, word)
        else if s[0] == '$' || s[0] == '`' then None
        else if s[0] == '\\' && |s| >= 2 && s[1] in {'$', '`', '"', '\\'} then Split(s[2..], Double, Grown(word, s[1]))
        else if s[0] == '\\' && |s| >= 2 && s[1] == '\n' then Split(s[2..], Double, word)
        else Split(s[1..], Double, Grown(word, s[0]))
  }

  function Words(s: string): Option<seq<string>> {
    Split(s, Bare, None)
  }

  // ---- The program's side ----

  /** strings.ReplaceAll of a single quote by a quoted one. */
  function Replaced(value: string): string {
    if value == "" then "" else (if value[0] == '\'' then "'\"'\"'" else [value[0]]) + Replaced(value[1..])
  }

  function ShellQuote(value: string): string {
    "'" + Replaced(value) + "'"
  }

  datatype Command = Command(script: string, hasStdin: bool, args: seq<string>)

  function QuotedAll(args: seq<string>): (r: seq<string>)
    ensures |r| == |args| && forall i :: 0 <= i < |args| ==> r[i] == ShellQuote(args[i])
  {
    seq(|args|, i requires 0 <= i < |args| => ShellQuote(args[i]))
  }

  method RemoteCommandInvocation(command: Command) returns (args: seq<string>)
    ensures args == (if command.hasStdin then ["sh", "-c", ShellQuote(command.script), "--"] else ["sh", "-s", "--"]) + QuotedAll(command.args)
  {
    args := ["sh"];
    if !command.hasStdin {
      args := args + ["-s", "--"];
    } else {
      args := args + ["-c", ShellQuote(command.script), "--"];
    }
    ghost var first := args;
    assert first + QuotedAll([]) == first;
    for i := 0 to |command.args|
      invariant args == first + QuotedAll(command.args[..i])
    {
      args := args + [ShellQuote(command.args[i])];
      assert QuotedAll(command.args[..i + 1]) == QuotedAll(command.args[..i]) + [ShellQuote(command.args[i])];
    }
    assert command.args[..|command.args|] == command.args;
  }

  /** The remote command as ssh sends it: its arguments with spaces between them. */
  function Joined(parts: seq<string>): string {
    if parts == [] then "" else if |parts| == 1 then parts[0] else parts[0] + " " + Joined(parts[1..])
  }

  /** What the remote shell is meant to run. */
  function Intended(command: Command): seq<string> {
    (if command.hasStdin then ["sh", "-c", command.script, "--"] else ["sh", "-s", "--"]) + command.args
  }

  // ---- Reading back one word ----

  predicate NulFree(s: string) {
    NUL !in s
  }

  function Text(word: Option<string>): string {
    if word.Some? then word.value else ""
  }

  /** Inside the quotes: the text is taken up and the quote closed; a NUL spoils the line. */
  lemma {:induction false} ReplacedReads(value: string, rest: string, word: string)
    ensures Split(Replaced(value) + "'" + rest, Single, Some(word)) == if NulFree(value) then Split(rest, Bare, Some(word + value)) else None
    decreases |value|
  {
    if value == "" {
      assert Replaced(value) + "'" + rest == "'" + rest && ("'" + rest)[1..] == rest;
      assert word + value == word;
    } else {
      var tail := Replaced(value[1..]) + "'" + rest;
      ReplacedReads(value[1..], rest, word + [value[0]]);
      assert word + [value[0]] + value[1..] == word + value;
      assert NulFree(value) <==> value[0] != NUL && NulFree(value[1..]);
      if value[0] == '\'' {
        QuotedQuote(tail, word);
        assert Replaced(value) + "'" + rest == "'\"'\"'" + tail;
      } else {
        assert Replaced(value) + "'" + rest == [value[0]] + tail;
        assert ([value[0]] + tail)[1..] == tail;
      }
    }
  }

  /** Out of the quotes, a quote between double quotes, and in again. */
  lemma QuotedQuote(tail: string, word: string)
    ensures Split("'\"'\"'" + tail, Single, Some(word)) == Split(tail, Single, Some(word + "'"))
  {
    var s := "'\"'\"'" + tail;
    assert s[1..] == "\"'\"'" + tail && s[1..][1..] == "'\"'" + tail;
    assert s[1..][1..][1..] == "\"'" + tail && s[1..][1..][1..][1..] == "'" + tail && s[1..][1..][1..][1..][1..] == tail;
    assert Split(s, Single, Some(word)) == Split(s[1..], Bare, Some(word));
    assert Split(s[1..], Bare, Some(word)) == Split(s[1..][1..], Double, Some(word));
    assert Split(s[1..][1..], Double, Some(word)) == Split(s[1..][1..][1..], Double, Some(word + "'"));
    assert Split(s[1..][1..][1..], Double, Some(word + "'")) == Split(s[1..][1..][1..][1..], Bare, Some(word + "'"));
  }

  /** A quoted value is read back as it was, attached to the word before it. */
  lemma QuoteReads(value: string, rest: string, word: Option<string>)
    ensures Split(ShellQuote(value) + rest, Bare, word) == if NulFree(value) then Split(rest, Bare, Some(Text(word) + value)) else None
  {
    var s := ShellQuote(value) + rest;
    assert s[1..] == Replaced(value) + "'" + rest;
    ReplacedReads(value, rest, Text(word));
  }

  /** A value alone: the quoting is undone exactly for values without a NUL. */
  lemma QuoteReadsBackIff(value: string)
    ensures Words(ShellQuote(value)) == (if NulFree(value) then Some([value]) else None)
  {
    QuoteReads(value, "", None);
    assert ShellQuote(value) + "" == ShellQuote(value);
    assert "" + value == value;
    EndReads(value);
  }

  lemma EndReads(w: string)
    ensures Split("", Bare, Some(w)) == Some([w])
  {
    assert [w] + [] == [w];
  }

  lemma SpaceReads(w: string, tail: string)
    ensures Split(" " + tail, Bare, Some(w)) == Before(Some(w), Words(tail))
  {
    assert (" " + tail)[1..] == tail;
  }

  // ---- Reading back a line ----

  /** A part of the command line: a literal word or a quoted value. */
  datatype Part = Literal(word: string) | Quoted(word: string)

  predicate Fine(p: Part) {
    p.Literal? ==> p.word != "" && forall i :: 0 <= i < |p.word| ==> Plain(p.word[i])
  }

  function Shown(p: Part): string {
    if p.Literal? then p.word else ShellQuote(p.word)
  }

  function ShownAll(parts: seq<Part>): (r: seq<string>)
    ensures |r| == |parts| && forall i :: 0 <= i < |parts| ==> r[i] == Shown(parts[i])
  {
    seq(|parts|, i requires 0 <= i < |parts| => Shown(parts[i]))
  }

  function WordsOf(parts: seq<Part>): (r: seq<string>)
    ensures |r| == |parts| && forall i :: 0 <= i < |parts| ==> r[i] == parts[i].word
  {
    seq(|parts|, i requires 0 <= i < |parts| => parts[i].word)
  }

  lemma {:induction false} LiteralReads(w: string, rest: string, word: Option<string>)
    requires w != "" && forall i :: 0 <= i < |w| ==> Plain(w[i])
    ensures Split(w + rest, Bare, word) == Split(rest, Bare, Some(Text(word) + w))
    decreases |w|
  {
    assert (w + rest)[1..] == w[1..] + rest;
    assert Split(w + rest, Bare, word) == Split(w[1..] + rest, Bare, Grown(word, w[0]));
    if |w| == 1 {
      assert w[1..] + rest == rest && [w[0]] == w;
    } else {
      LiteralReads(w[1..], rest, Grown(word, w[0]));
      assert Text(word) + [w[0]] + w[1..] == Text(word) + w;
    }
  }

  lemma PartReads(p: Part, rest: string)
    requires Fine(p)
    ensures Split(Shown(p) + rest, Bare, None) == if NulFree(p.word) then Split(rest, Bare, Some(p.word)) else None
  {
    assert "" + p.word == p.word;
    if p.Literal? {
      LiteralReads(p.word, rest, None);
      assert !Plain(NUL);
    } else {
      QuoteReads(p.word, rest, None);
    }
  }

  ghost predicate AllNulFree(parts: seq<Part>) {
    forall i :: 0 <= i < |parts| ==> NulFree(parts[i].word)
  }

  /** Parts joined by spaces are read back as exactly their words. */
  lemma {:induction false} LineReads(parts: seq<Part>)
    requires forall i :: 0 <= i < |parts| ==> Fine(parts[i])
    ensures Words(Joined(ShownAll(parts))) == if AllNulFree(parts) then Some(WordsOf(parts)) else None
    decreases |parts|
  {
    if parts == [] {
      NothingReads();
    } else if |parts| == 1 {
      OneReads(parts);
    } else {
      assert ShownAll(parts)[1..] == ShownAll(parts[1..]);
      hide Split, NulFree, Shown, Fine, AllNulFree, WordsOf, ShownAll, Joined, Words;
      WordsCons(parts);
      LineReads(parts[1..]);
      FirstReads(parts);
    }
  }

  lemma NothingReads()
    ensures Words(Joined(ShownAll([]))) == Some(WordsOf([])) && AllNulFree([])
  {
    var none: seq<string> := [];
    assert none + none == none && WordsOf([]) == none;
  }

  lemma OneReads(parts: seq<Part>)
    requires |parts| == 1 && Fine(parts[0])
    ensures Words(Joined(ShownAll(parts))) == if AllNulFree(parts) then Some(WordsOf(parts)) else None
  {
    WordsCons(parts);
    NoWords();
    assert parts[1..] == [];
    var shown := ShownAll(parts);
    assert Joined(shown) == Shown(parts[0]) == Shown(parts[0]) + "";
    hide Split, NulFree, Shown, Fine, AllNulFree, WordsOf, Joined;
    PartReads(parts[0], "");
    EndReads(parts[0].word);
  }

  lemma NoWords()
    ensures WordsOf([]) == [] && AllNulFree([])
  {}

  lemma WordsCons(parts: seq<Part>)
    requires parts != []
    ensures WordsOf(parts) == [parts[0].word] + WordsOf(parts[1..])
    ensures AllNulFree(parts) <==> NulFree(parts[0].word) && AllNulFree(parts[1..])
  {
    hide NulFree;
    assert forall i :: 0 < i < |parts| ==> parts[i] == parts[1..][i - 1];
  }

  lemma JoinedCons(s: seq<string>)
    requires |s| > 1
    ensures Joined(s) == s[0] + (" " + Joined(s[1..]))
  {}

  /** The first part of several, and the space after it. */
  lemma FirstReads(parts: seq<Part>)
    requires |parts| > 1 && Fine(parts[0])
    ensures Words(Joined(ShownAll(parts))) == if NulFree(parts[0].word) then Before(Some(parts[0].word), Words(Joined(ShownAll(parts)[1..]))) else None
  {
    var tail := Joined(ShownAll(parts)[1..]);
    JoinedCons(ShownAll(parts));
    assert ShownAll(parts)[0] == Shown(parts[0]);
    hide *;
    PartReads(parts[0], " " + tail);
    SpaceReads(parts[0].word, tail);
    WordsIs(Joined(ShownAll(parts)));
  }

  lemma WordsIs(s: string)
    ensures Words(s) == Split(s, Bare, None)
  {}

  function Parts(command: Command): seq<Part> {
    (if command.hasStdin then [Literal("sh"), Literal("-c"), Quoted(command.script), Literal("--")] else [Literal("sh"), Literal("-s"), Literal("--")])
    + seq(|command.args|, i requires 0 <= i < |command.args| => Quoted(command.args[i]))
  }

  /** The script counts only where it is part of the line and not sent on standard input. */
  ghost predicate NulFreeCommand(command: Command) {
    (command.hasStdin ==> NulFree(command.script)) && forall i :: 0 <= i < |command.args| ==> NulFree(command.args[i])
  }

  /** The remote shell runs exactly the intended words, for every script and arguments without a NUL and
      for no others. */
  lemma InvocationReadsBackIff(command: Command, args: seq<string>)
    requires args == (if command.hasStdin then ["sh", "-c", ShellQuote(command.script), "--"] else ["sh", "-s", "--"]) + QuotedAll(command.args)
    ensures Words(Joined(args)) == if NulFreeCommand(command) then Some(Intended(command)) else None
  {
    var parts := Parts(command);
    InvocationParts(command);
    LineReads(parts);
    ShownParts(command);
    hide *;
  }

  lemma ShownParts(command: Command)
    ensures ShownAll(Parts(command)) == (if command.hasStdin then ["sh", "-c", ShellQuote(command.script), "--"] else ["sh", "-s", "--"]) + QuotedAll(command.args)
    ensures WordsOf(Parts(command)) == Intended(command)
  {
    hide ShellQuote;
  }

  lemma InvocationParts(command: Command)
    ensures var parts := Parts(command);
      && (forall i :: 0 <= i < |parts| ==> Fine(parts[i]))
      && (AllNulFree(parts) <==> NulFreeCommand(command))
  {
    var parts := Parts(command);
    var k := if command.hasStdin then 4 else 3;
    assert forall i :: 0 <= i < |command.args| ==> parts[k + i] == Quoted(command.args[i]);
    assert command.hasStdin ==> parts[2] == Quoted(command.script);
  }

  // ---- The tmux command, quoted twice ----

  const ASSIGN := "configured_pwd="
  const PROBE := "tmux has-session -t "
  const LAUNCH := "exec tmux new-session -A -s "

  function AssignText(pwd: string): string {
    ASSIGN + ShellQuote(pwd)
  }

  function ProbeText(sessionName: string): string {
    PROBE + ShellQuote(sessionName)
  }

  function LaunchText(sessionName: string): string {
    LAUNCH + ShellQuote(sessionName)
  }

  function TmuxRemoteCommand(script: string): string {
    "sh -c " + ShellQuote(script)
  }

  /** The login shell hands the script to sh unchanged. */
  lemma TmuxCommandReadsBack(script: string)
    ensures Words(TmuxRemoteCommand(script)) == if NulFree(script) then Some(["sh", "-c", script]) else None
  {
    JoinedTwo("sh", "-c");
    CommandReads(["sh", "-c"], script);
    hide Split, ShellQuote, NulFree;
    assert "sh" + " " + "-c" + " " == "sh -c ";
    assert ["sh", "-c"] + [script] == ["sh", "-c", script];
  }

  lemma AssignReads(pwd: string)
    requires NulFree(pwd)
    ensures Words(AssignText(pwd)) == Some([ASSIGN + pwd])
  {
    LiteralReads(ASSIGN, ShellQuote(pwd), None);
    assert "" + ASSIGN == ASSIGN;
    QuoteReads(pwd, "", Some(ASSIGN));
    EndReads(ASSIGN + pwd);
    assert ShellQuote(pwd) + "" == ShellQuote(pwd);
  }

  function Literals(words: seq<string>): (r: seq<Part>)
    ensures |r| == |words| && forall i :: 0 <= i < |words| ==> r[i] == Literal(words[i])
  {
    seq(|words|, i requires 0 <= i < |words| => Literal(words[i]))
  }

  predicate AllPlain(words: seq<string>) {
    forall i :: 0 <= i < |words| ==> words[i] != "" && forall j :: 0 <= j < |words[i]| ==> Plain(words[i][j])
  }

  lemma {:induction false} JoinedSnoc(words: seq<string>, w: string)
    requires words != []
    ensures Joined(words + [w]) == Joined(words) + " " + w
  {
    assert (words + [w])[1..] == words[1..] + [w];
    if |words| == 1 {
      assert words[1..] + [w] == [w];
    } else {
      JoinedSnoc(words[1..], w);
      assert words[0] + " " + (Joined(words[1..]) + " " + w) == words[0] + " " + Joined(words[1..]) + " " + w;
    }
  }

  /** Plain words and one quoted value. */
  lemma CommandReads(words: seq<string>, value: string)
    requires words != [] && AllPlain(words)
    ensures Words(Joined(words) + " " + ShellQuote(value)) == if NulFree(value) then Some(words + [value]) else None
  {
    var parts := Literals(words) + [Quoted(value)];
    CommandParts(words, value);
    LineReads(parts);
    JoinedSnoc(words, ShellQuote(value));
    PlainIsNulFree(words);
    hide ShellQuote, Words, Joined, NulFree, Plain, ShownAll, WordsOf;
  }

  lemma CommandParts(words: seq<string>, value: string)
    ensures var parts := Literals(words) + [Quoted(value)];
      && |parts| == |words| + 1 && parts[|words|] == Quoted(value) && (forall i :: 0 <= i < |words| ==> parts[i] == Literal(words[i]))
      && ShownAll(parts) == words + [ShellQuote(value)] && WordsOf(parts) == words + [value]
  {
    hide ShellQuote;
  }

  lemma PlainIsNulFree(words: seq<string>)
    requires AllPlain(words)
    ensures forall i :: 0 <= i < |words| ==> NulFree(words[i])
  {
    forall i | 0 <= i < |words| ensures NulFree(words[i]) {
      assert forall j :: 0 <= j < |words[i]| ==> Plain(words[i][j]);
    }
  }

  lemma ProbeReads(name: string)
    requires NulFree(name)
    ensures Words(ProbeText(name)) == Some(["tmux", "has-session", "-t", name])
  {
    var words := ["tmux", "has-session", "-t"];
    CommandReads(words, name);
    hide Split, ShellQuote;
    assert words[1..] == ["has-session", "-t"] && words[1..][1..] == ["-t"];
    assert Joined(words) + " " == PROBE;
    assert words + [name] == ["tmux", "has-session", "-t", name];
  }

  lemma LaunchReads(name: string)
    requires NulFree(name)
    ensures Words(LaunchText(name)) == Some(["exec", "tmux", "new-session", "-A", "-s", name])
  {
    var words := ["exec", "tmux", "new-session", "-A", "-s"];
    LaunchWords();
    CommandReads(words, name);
    hide *;
    assert LAUNCH + ShellQuote(name) == Joined(words) + " " + ShellQuote(name);
    assert words + [name] == ["exec", "tmux", "new-session", "-A", "-s", name];
    LaunchIs(name);
  }

  lemma LaunchIs(name: string)
    ensures LaunchText(name) == LAUNCH + ShellQuote(name)
  {}

  lemma LaunchIsPlain()
    ensures AllPlain(["exec", "tmux", "new-session", "-A", "-s"])
  {}

  lemma LaunchWords()
    ensures Joined(["exec", "tmux", "new-session", "-A", "-s"]) + " " == LAUNCH
    ensures AllPlain(["exec", "tmux", "new-session", "-A", "-s"])
  {
    LaunchIsPlain();
    hide AllPlain;
    JoinedTwo("-A", "-s");
    JoinedMore("new-session", ["-A", "-s"]);
    JoinedMore("tmux", ["new-session", "-A", "-s"]);
    JoinedMore("exec", ["tmux", "new-session", "-A", "-s"]);
    hide Joined;
    assert ["new-session"] + ["-A", "-s"] == ["new-session", "-A", "-s"];
    assert ["tmux"] + ["new-session", "-A", "-s"] == ["tmux", "new-session", "-A", "-s"];
    assert ["exec"] + ["tmux", "new-session", "-A", "-s"] == ["exec", "tmux", "new-session", "-A", "-s"];
  }

  lemma JoinedTwo(a: string, b: string)
    ensures Joined([a, b]) == a + " " + b
  {
    assert [a, b][1..] == [b];
  }

  lemma JoinedMore(a: string, rest: seq<string>)
    requires rest != []
    ensures Joined([a] + rest) == a + " " + Joined(rest)
  {
    assert ([a] + rest)[1..] == rest;
  }
}
