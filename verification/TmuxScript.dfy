/** The script that starts or joins a tmux session on the remote host: its text with three quoted values in it, and the
    quoting state of the shell (section 2.2 of the POSIX.1-2017 Shell Command Language) where they stand. */
module TmuxScript {
  import opened Common
  import opened ShellWords

  // ---- The quoting state ----

  /** Whether a shell is outside quotes, and inside which otherwise. Unknown stands for everything a fixed text of the script
      does not use: escapes, substitutions, comments, here-documents. */
  datatype State = Open | OpenDollar | InSingle | InDouble | InDollar | InBrace | InPattern | Unknown

  predicate IsCode(c: char) {
    c != '\'' && c != '"' && c != '\\' && c != '`' && c != '$' && c != '#' && c != '<'
  }

  predicate IsName(c: char) {
    'a' <= c <= 'z' || 'A' <= c <= 'Z' || c == '_'
  }

  function Next(state: State, c: char): State {
    match state
    case Open => if c == '\'' then InSingle else if c == '"' then InDouble else if c == '$' then OpenDollar else if IsCode(c) then Open else Unknown
    case OpenDollar => if c == '?' then Open else Unknown
    case InSingle => if c == '\'' then Open else InSingle
    case InDouble => if c == '"' then Open else if c == '$' then InDollar else if c == '\\' || c == '`' then Unknown else InDouble
    case InDollar => if c == '{' then InBrace else if IsName(c) then InDouble else Unknown
    case InBrace => if c == '}' then InDouble else if c == '\'' then InPattern else if IsName(c) || c == '#' then InBrace else Unknown
    case InPattern => if c == '\'' then InBrace else InPattern
    case Unknown => Unknown
  }

  function After(text: string, state: State): State {
    if text == "" then state else After(text[1..], Next(state, text[0]))
  }

  lemma {:induction false} AfterBoth(a: string, b: string, state: State)
    ensures After(a + b, state) == After(b, After(a, state))
  {
    if a == "" {
      assert a + b == b;
    } else {
      assert (a + b)[1..] == a[1..] + b;
      AfterBoth(a[1..], b, Next(state, a[0]));
    }
  }

  // ---- Pieces of the script ----

  /** Unquoted text, a text in single quotes, an expanded variable in double quotes, the part of the directory after a
      prefix, the last exit status, and a value quoted by the program. */
  datatype Piece = Code(text: string) | Verbatim(text: string) | Expanded(name: string) | Stripped(prefix: string) | Status | Value(value: string)

  const HOME := "\"$HOME/${configured_pwd#'"

  function Written(p: Piece): string {
    match p
    case Code(text) => text
    case Verbatim(text) => "'" + text + "'"
    case Expanded(name) => "\"$" + name + "\""
    case Stripped(prefix) => HOME + prefix + "'}\""
    case Status => "$?"
    case Value(value) => ShellQuote(value)
  }

  function Flat(ps: seq<Piece>): string {
    if ps == [] then "" else Written(ps[0]) + Flat(ps[1..])
  }

  predicate Unquoted(text: string) {
    forall i :: 0 <= i < |text| ==> text[i] != '\''
  }

  predicate Bare(text: string) {
    forall i :: 0 <= i < |text| ==> IsCode(text[i])
  }

  predicate Named(name: string) {
    name != "" && forall i :: 0 <= i < |name| ==> IsName(name[i])
  }

  /** A piece that leaves the shell outside quotes. */
  predicate Tidy(p: Piece) {
    match p
    case Code(text) => Bare(text)
    case Verbatim(text) => Unquoted(text)
    case Expanded(name) => Named(name)
    case Stripped(prefix) => Unquoted(prefix)
    case Status => true
    case Value(_) => true
  }

  ghost predicate AllTidy(ps: seq<Piece>) {
    forall i :: 0 <= i < |ps| ==> Tidy(ps[i])
  }

  lemma {:induction false} CodeStays(text: string)
    requires forall i :: 0 <= i < |text| ==> IsCode(text[i])
    ensures After(text, Open) == Open
  {
    if text != "" {
      assert IsCode(text[0]);
      CodeStays(text[1..]);
    }
  }

  lemma {:induction false} SingleStays(text: string, state: State)
    requires Unquoted(text) && (state.InSingle? || state.InPattern?)
    ensures After(text, state) == state
  {
    if text != "" {
      SingleStays(text[1..], state);
    }
  }

  lemma {:induction false} NameStays(name: string)
    requires forall i :: 0 <= i < |name| ==> IsName(name[i])
    ensures After(name, InDouble) == InDouble
  {
    if name != "" {
      assert IsName(name[0]);
      NameStays(name[1..]);
    }
  }

  lemma ExpandedStays(name: string)
    requires Tidy(Expanded(name))
    ensures After("\"$" + name + "\"", Open) == Open
  {
    AfterBoth("\"$" + name, "\"", Open);
    AfterBoth("\"$", name, Open);
    assert "\"$"[1..] == "$" && "$"[1..] == "" && "\""[1..] == "";
    assert After("\"$", Open) == After("$", InDouble) == After("", InDollar);
    assert IsName(name[0]);
    NameStays(name[1..]);
    assert After("\"", InDouble) == After("", Open);
  }

  /** Each single quote in a value is written between double quotes, outside the single ones. */
  lemma {:induction false} ReplacedStays(value: string)
    ensures After(Replaced(value), InSingle) == InSingle
  {
    if value != "" {
      ReplacedStays(value[1..]);
      if value[0] == '\'' {
        AfterBoth("'\"'\"'", Replaced(value[1..]), InSingle);
        QuoteInQuotes();
      } else {
        AfterBoth([value[0]], Replaced(value[1..]), InSingle);
        assert [value[0]][1..] == "";
      }
    }
  }

  lemma QuoteInQuotes()
    ensures After("'\"'\"'", InSingle) == InSingle
  {
    var s := "'\"'\"'";
    assert s[1..] == "\"'\"'" && s[1..][1..] == "'\"'" && s[1..][1..][1..] == "\"'" && s[1..][1..][1..][1..] == "'" && "'"[1..] == "";
    assert After("'", Open) == After("", InSingle);
  }

  lemma OneQuote()
    ensures After("'", Open) == InSingle && After("'", InSingle) == Open
  {
    assert "'"[1..] == "";
  }

  lemma QuotedStays(inner: string)
    requires After(inner, InSingle) == InSingle
    ensures After("'" + inner + "'", Open) == Open
  {
    AfterBoth("'" + inner, "'", Open);
    AfterBoth("'", inner, Open);
    OneQuote();
  }

  lemma StrippedStays(prefix: string)
    requires Unquoted(prefix)
    ensures After(HOME + prefix + "'}\"", Open) == Open
  {
    AfterBoth(HOME + prefix, "'}\"", Open);
    AfterBoth(HOME, prefix, Open);
    HomeOpens();
    SingleStays(prefix, InPattern);
    assert "'}\""[1..] == "}\"" && "}\""[1..] == "\"" && "\""[1..] == "";
    assert After("'}\"", InPattern) == After("}\"", InBrace) == After("\"", InDouble) == After("", Open);
  }

  lemma HomeOpens()
    ensures After(HOME, Open) == InPattern
  {
    var a, b, c, d := "\"$HOME/", "${", "configured_pwd", "#'";
    HomeText();
    assert a + b + c + d == HOME;
    AfterBoth(a + b + c, d, Open);
    AfterBoth(a + b, c, Open);
    AfterBoth(a, b, Open);
    HomeParts();
    BraceStays(c);
  }

  lemma HomeText()
    ensures "\"$HOME/" + "${" + "configured_pwd" + "#'" == HOME
  {}

  lemma HomeParts()
    ensures After("\"$HOME/", Open) == InDouble && After("${", InDouble) == InBrace && After("#'", InBrace) == InPattern
    ensures forall i :: 0 <= i < |"configured_pwd"| ==> IsName("configured_pwd"[i])
  {
    assert "\"$HOME/"[1..] == "$HOME/" && "$HOME/"[1..] == "HOME/" && "HOME/"[1..] == "OME/" && "OME/"[1..] == "ME/" && "ME/"[1..] == "E/"
        && "E/"[1..] == "/" && "/"[1..] == "";
    assert "${"[1..] == "{" && "{"[1..] == "" && "#'"[1..] == "'" && "'"[1..] == "";
    assert After("#'", InBrace) == After("'", InBrace) == After("", InPattern);
  }

  lemma {:induction false} BraceStays(name: string)
    requires forall i :: 0 <= i < |name| ==> IsName(name[i])
    ensures After(name, InBrace) == InBrace
  {
    if name != "" {
      assert IsName(name[0]);
      BraceStays(name[1..]);
    }
  }

  lemma TidyStays(p: Piece)
    requires Tidy(p)
    ensures After(Written(p), Open) == Open
  {
    match p
    case Code(text) => CodeStays(text);
    case Verbatim(text) => SingleStays(text, InSingle); QuotedStays(text);
    case Expanded(name) => ExpandedStays(name);
    case Stripped(prefix) => StrippedStays(prefix);
    case Status => assert "$?"[1..] == "?" && "?"[1..] == "";
    case Value(value) => ReplacedStays(value); QuotedStays(Replaced(value));
  }

  /** After tidy pieces the shell is outside quotes. */
  lemma {:induction false} PiecesStay(ps: seq<Piece>)
    requires AllTidy(ps)
    ensures After(Flat(ps), Open) == Open
  {
    hide Tidy, Written, After;
    if ps == [] {
      NothingAfter();
    } else {
      TidyStays(ps[0]);
      PiecesStay(ps[1..]);
      AfterBoth(Written(ps[0]), Flat(ps[1..]), Open);
    }
  }

  lemma NothingAfter()
    ensures After("", Open) == Open
  {}

  // ---- The script ----

  const PREFLIGHT := "if ! command -v tmux >/dev/null 2>&1;"
  const THEN := " then\n  printf "
  const ABSENT := "Roaminal: tmux command not found\\n"
  const EXIT_127 := " >&2\n  exit 127\nfi\n\n"
  const CASES := "\ncase "
  const CASE_IN := " in\n  "
  const EXACTLY := ")\n    start_dir="
  const PREFIXED := "*)\n    start_dir="
  const NEXT_CASE := "\n    ;;\n  "
  const ABSOLUTE := "/*)\n    start_dir="
  const OTHERWISE := "*)\n    printf "
  const INVALID := "Roaminal: invalid tmux start directory\\n"
  const EXIT_2 := " >&2\n    exit 2\n    ;;\nesac\n\n"
  const QUIET := " >/dev/null 2>&1\nsession_status="
  const IF := "\nif [ "
  const FAILS := " -gt 1 ]; then\n  printf "
  const FAILED := "Roaminal: tmux session probe failed\\n"
  const EXIT_STATUS := " >&2\n  exit "
  const END_IF := "\nfi\nif [ "
  const NO_SESSION := " -ne 0 ]; then\n  if ! (cd "
  const CLOSED := " >/dev/null 2>&1); then\n    printf "
  const START := "Roaminal: tmux start directory"
  const ACCESS := " is not accessible: %s\\n"
  const EXIT_1 := " >&2\n    exit 1\n  fi\nfi\nprintf "
  const READY := "\\033]777;roaminal;tmux-ready:"
  const BELL := "\\a"
  const DIRECTORY := " -c "

  function Head(): seq<Piece> {
    [Code(PREFLIGHT), Code(THEN), Verbatim(ABSENT), Code(EXIT_127)]
  }

  /** One case of the directory: the whole of it, or a prefix of it, and what it starts as. */
  function Case(pattern: string, rest: string, start: Piece): seq<Piece> {
    [Verbatim(pattern), Code(rest), start, Code(NEXT_CASE)]
  }

  function Cases(): seq<Piece> {
    [Code(CASES), Expanded("configured_pwd"), Code(CASE_IN)]
    + Case("$HOME", EXACTLY, Expanded("HOME")) + Case("$HOME/", PREFIXED, Stripped("$HOME/"))
    + Case("~", EXACTLY, Expanded("HOME")) + Case("~/", PREFIXED, Stripped("~/"))
    + [Code(ABSOLUTE), Expanded("configured_pwd"), Code(NEXT_CASE), Code(OTHERWISE), Verbatim(INVALID), Code(EXIT_2)]
  }

  function Probed(): seq<Piece> {
    [Code(QUIET), Status, Code(IF), Expanded("session_status"), Code(FAILS), Verbatim(FAILED), Code(EXIT_STATUS), Expanded("session_status"),
     Code(END_IF), Expanded("session_status"), Code(NO_SESSION), Expanded("start_dir"), Code(CLOSED), Verbatim(START + ACCESS), Code(" "),
     Expanded("start_dir"), Code(EXIT_1)]
  }

  function BeforeProbe(pwd: string): seq<Piece> {
    Head() + [Code(ASSIGN), Value(pwd)] + Cases()
  }

  function BeforeLaunch(name: string, pwd: string, marker: string): seq<Piece> {
    BeforeProbe(pwd) + [Code(PROBE), Value(name)] + Probed() + [Verbatim(READY + marker + BELL), Code("\n")]
  }

  function AfterLaunch(): seq<Piece> {
    [Code(DIRECTORY), Expanded("start_dir")]
  }

  function TmuxRemoteScript(name: string, pwd: string, marker: string): string {
    Flat(BeforeLaunch(name, pwd, marker) + [Code(LAUNCH), Value(name)] + AfterLaunch())
  }

  // ---- Its pieces are tidy ----

  lemma CodeOfHead()
    ensures Bare(PREFLIGHT) && Bare(THEN) && Unquoted(ABSENT) && Bare(EXIT_127) && Bare(ASSIGN)
  {}

  lemma CodeOfCases()
    ensures Bare(CASES) && Bare(CASE_IN) && Bare(EXACTLY) && Bare(PREFIXED) && Bare(NEXT_CASE) && Bare(ABSOLUTE) && Bare(OTHERWISE) && Bare(EXIT_2)
  {}

  lemma TextOfCases()
    ensures Unquoted(INVALID) && Unquoted("$HOME") && Unquoted("$HOME/") && Unquoted("~") && Unquoted("~/")
    ensures Named("configured_pwd") && Named("HOME")
  {}

  lemma CodeOfProbe()
    ensures Bare(PROBE) && Bare(QUIET) && Bare(IF) && Bare(FAILS) && Bare(EXIT_STATUS) && Bare(END_IF)
  {}

  lemma NamesOfProbe()
    ensures Named("session_status") && Named("start_dir")
  {}

  lemma CodeOfCheck()
    ensures Bare(NO_SESSION) && Bare(CLOSED) && Bare(" ") && Bare(EXIT_1) && Bare("\n") && Bare(DIRECTORY) && Bare(LAUNCH)
  {}

  lemma TextOfProbe()
    ensures Unquoted(FAILED) && Unquoted(START) && Unquoted(ACCESS) && Unquoted(READY) && Unquoted(BELL)
  {}

  lemma BothTidy(a: seq<Piece>, b: seq<Piece>)
    ensures AllTidy(a + b) <==> AllTidy(a) && AllTidy(b)
  {
    hide Tidy;
    assert forall i :: 0 <= i < |a| ==> (a + b)[i] == a[i];
    assert forall i :: 0 <= i < |b| ==> (a + b)[|a| + i] == b[i];
  }

  lemma HeadIsTidy()
    ensures AllTidy(Head())
  {
    CodeOfHead();
    hide Bare, Unquoted;
  }

  lemma CaseIsTidy(pattern: string, rest: string, start: Piece)
    requires Unquoted(pattern) && Bare(rest) && Tidy(start) && Bare(NEXT_CASE)
    ensures AllTidy(Case(pattern, rest, start))
  {
    hide Bare, Unquoted;
  }

  lemma CasesAreTidy()
    ensures AllTidy(Cases())
  {
    CodeOfCases();
    TextOfCases();
    hide Bare, Unquoted, Named, Case;
    CaseIsTidy("$HOME", EXACTLY, Expanded("HOME"));
    CaseIsTidy("$HOME/", PREFIXED, Stripped("$HOME/"));
    CaseIsTidy("~", EXACTLY, Expanded("HOME"));
    CaseIsTidy("~/", PREFIXED, Stripped("~/"));
    var first := [Code(CASES), Expanded("configured_pwd"), Code(CASE_IN)];
    var last := [Code(ABSOLUTE), Expanded("configured_pwd"), Code(NEXT_CASE), Code(OTHERWISE), Verbatim(INVALID), Code(EXIT_2)];
    assert AllTidy(first) && AllTidy(last);
    hide AllTidy;
    BothTidy(first, Case("$HOME", EXACTLY, Expanded("HOME")));
    BothTidy(first + Case("$HOME", EXACTLY, Expanded("HOME")), Case("$HOME/", PREFIXED, Stripped("$HOME/")));
    var half := first + Case("$HOME", EXACTLY, Expanded("HOME")) + Case("$HOME/", PREFIXED, Stripped("$HOME/"));
    BothTidy(half, Case("~", EXACTLY, Expanded("HOME")));
    BothTidy(half + Case("~", EXACTLY, Expanded("HOME")), Case("~/", PREFIXED, Stripped("~/")));
    BothTidy(half + Case("~", EXACTLY, Expanded("HOME")) + Case("~/", PREFIXED, Stripped("~/")), last);
  }

  lemma UnquotedBoth(a: string, b: string)
    requires Unquoted(a) && Unquoted(b)
    ensures Unquoted(a + b)
  {}

  lemma ProbedIsTidy()
    ensures AllTidy(Probed())
  {
    CodeOfProbe();
    NamesOfProbe();
    CodeOfCheck();
    TextOfProbe();
    UnquotedBoth(START, ACCESS);
    hide Bare, Unquoted, Named;
  }

  // ---- Where the values stand ----

  lemma {:induction false} FlatBoth(a: seq<Piece>, b: seq<Piece>)
    ensures Flat(a + b) == Flat(a) + Flat(b)
  {
    hide Written;
    if a == [] {
      assert a + b == b;
    } else {
      assert (a + b)[1..] == a[1..] + b;
      FlatBoth(a[1..], b);
    }
  }

  /** The text starts with `before`, which leaves the shell outside quotes at the start of a line; the piece comes next,
      and then a character that ends a word. */
  ghost predicate OnItsLine(s: string, before: string, piece: string, next: char) {
    && before + piece + [next] <= s
    && before != "" && before[|before| - 1] == '\n' && After(before, Open) == Open
    && (next == '\n' || next == ' ')
  }

  lemma Stands(before: seq<Piece>, prefix: string, value: string, after: seq<Piece>, next: char)
    requires AllTidy(before) && Flat(before) != "" && Flat(before)[|Flat(before)| - 1] == '\n'
    requires Flat(after) != "" && Flat(after)[0] == next && (next == '\n' || next == ' ')
    ensures OnItsLine(Flat(before + [Code(prefix), Value(value)] + after), Flat(before), prefix + ShellQuote(value), next)
  {
    PiecesStay(before);
    hide AllTidy, ShellQuote, Flat, After, Written;
    FlatBoth(before + [Code(prefix), Value(value)], after);
    FlatBoth(before, [Code(prefix), Value(value)]);
    FlatTwo(prefix, value);
    Prefixes(Flat(before), prefix + ShellQuote(value), Flat(after));
  }

  lemma Prefixes(b: string, piece: string, a: string)
    requires a != ""
    ensures b + piece + [a[0]] <= b + piece + a
  {
    assert b + piece + a == b + piece + [a[0]] + a[1..];
  }

  lemma FlatTwo(prefix: string, value: string)
    ensures Flat([Code(prefix), Value(value)]) == prefix + ShellQuote(value)
  {
    hide ShellQuote;
    var ps := [Code(prefix), Value(value)];
    assert ps[1..] == [Value(value)] && ps[1..][1..] == [];
    assert Flat(ps[1..]) == ShellQuote(value) + "" == ShellQuote(value);
  }

  lemma EndsLine(ps: seq<Piece>, last: string)
    requires last != "" && last[|last| - 1] == '\n'
    ensures Flat(ps + [Code(last)]) != "" && Flat(ps + [Code(last)])[|Flat(ps + [Code(last)])| - 1] == '\n'
  {
    FlatBoth(ps, [Code(last)]);
    assert [Code(last)][1..] == [] && Flat([Code(last)]) == last + "" == last;
    assert (Flat(ps) + last)[|Flat(ps)| + |last| - 1] == last[|last| - 1];
  }

  lemma Starts(first: string, ps: seq<Piece>)
    requires first != "" && ps != [] && ps[0] == Code(first)
    ensures Flat(ps) != "" && Flat(ps)[0] == first[0]
  {
    hide Flat;
    FlatBoth([ps[0]], ps[1..]);
    assert ps == [ps[0]] + ps[1..];
    OnePiece(first);
  }

  lemma OnePiece(text: string)
    ensures Flat([Code(text)]) == text
  {
    assert [Code(text)][1..] == [] && text + "" == text;
  }

  lemma HeadEnds()
    ensures Flat(Head()) != "" && Flat(Head())[|Flat(Head())| - 1] == '\n'
  {
    assert EXIT_127[|EXIT_127| - 1] == '\n';
    EndsLine([Code(PREFLIGHT), Code(THEN), Verbatim(ABSENT)], EXIT_127);
    assert Head() == [Code(PREFLIGHT), Code(THEN), Verbatim(ABSENT)] + [Code(EXIT_127)];
  }

  lemma CasesEnd(before: seq<Piece>)
    ensures var text := Flat(before + Cases()); text != "" && text[|text| - 1] == '\n'
    ensures Cases() != [] && Cases()[0] == Code(CASES)
  {
    assert EXIT_2[|EXIT_2| - 1] == '\n';
    hide Case;
    var ps := Cases();
    assert ps[|ps| - 1] == Code(EXIT_2);
    assert before + ps == before + ps[..|ps| - 1] + [Code(EXIT_2)];
    EndsLine(before + ps[..|ps| - 1], EXIT_2);
  }

  lemma BeforeProbeIsTidy(pwd: string)
    ensures AllTidy(BeforeProbe(pwd)) && AllTidy(Head())
  {
    HeadIsTidy();
    CasesAreTidy();
    CodeOfHead();
    hide Bare, Head, Cases;
    assert AllTidy([Code(ASSIGN), Value(pwd)]);
    hide AllTidy;
    BothTidy(Head(), [Code(ASSIGN), Value(pwd)]);
    BothTidy(Head() + [Code(ASSIGN), Value(pwd)], Cases());
  }

  lemma BeforeLaunchIsTidy(name: string, pwd: string, marker: string)
    requires Unquoted(marker)
    ensures AllTidy(BeforeLaunch(name, pwd, marker))
  {
    BeforeProbeIsTidy(pwd);
    ProbedIsTidy();
    CodeOfProbe();
    NamesOfProbe();
    CodeOfCheck();
    TextOfProbe();
    UnquotedBoth(READY, marker);
    UnquotedBoth(READY + marker, BELL);
    hide Bare, Unquoted, Named, Probed, BeforeProbe;
    var probe, ready := [Code(PROBE), Value(name)], [Verbatim(READY + marker + BELL), Code("\n")];
    assert AllTidy(probe) && AllTidy(ready);
    hide AllTidy;
    BothTidy(BeforeProbe(pwd), probe);
    BothTidy(BeforeProbe(pwd) + probe, Probed());
    BothTidy(BeforeProbe(pwd) + probe + Probed(), ready);
  }

  /** For every directory, session name and marker: the assignment of the directory, the probe and the launch each begin a line of
      the script outside quotes, are followed by the end of a word, and are read with the value back as it was. */
  lemma TmuxScriptReadsBack(name: string, pwd: string, marker: string)
    requires NulFree(name) && NulFree(pwd) && Unquoted(marker)
    ensures var s := TmuxRemoteScript(name, pwd, marker);
      && OnItsLine(s, Flat(Head()), AssignText(pwd), '\n') && Words(AssignText(pwd)) == Some([ASSIGN + pwd])
      && OnItsLine(s, Flat(BeforeProbe(pwd)), ProbeText(name), ' ') && Words(ProbeText(name)) == Some(["tmux", "has-session", "-t", name])
      && OnItsLine(s, Flat(BeforeLaunch(name, pwd, marker)), LaunchText(name), ' ')
      && Words(LaunchText(name)) == Some(["exec", "tmux", "new-session", "-A", "-s", name])
  {
    AssignReads(pwd);
    ProbeReads(name);
    LaunchReads(name);
    hide Words, Unquoted, Flat, OnItsLine, ShellQuote, NulFree;
    AssignStands(name, pwd, marker);
    ProbeStands(name, pwd, marker);
    LaunchStands(name, pwd, marker);
  }

  lemma AssignStands(name: string, pwd: string, marker: string)
    ensures OnItsLine(TmuxRemoteScript(name, pwd, marker), Flat(Head()), AssignText(pwd), '\n')
  {
    HeadEnds();
    CasesEnd([]);
    BeforeProbeIsTidy(pwd);
    hide AllTidy, Flat, OnItsLine, Head, Cases, Probed, ShellQuote;
    var rest := Cases() + [Code(PROBE), Value(name)] + Probed() + [Verbatim(READY + marker + BELL), Code("\n")] + [Code(LAUNCH), Value(name)] + AfterLaunch();
    Starts(CASES, rest);
    Stands(Head(), ASSIGN, pwd, rest, '\n');
    assert BeforeLaunch(name, pwd, marker) + [Code(LAUNCH), Value(name)] + AfterLaunch() == Head() + [Code(ASSIGN), Value(pwd)] + rest;
  }

  lemma ProbeStands(name: string, pwd: string, marker: string)
    ensures OnItsLine(TmuxRemoteScript(name, pwd, marker), Flat(BeforeProbe(pwd)), ProbeText(name), ' ')
  {
    CasesEnd(Head() + [Code(ASSIGN), Value(pwd)]);
    BeforeProbeIsTidy(pwd);
    ProbedStarts();
    hide AllTidy, Flat, OnItsLine, Probed, ShellQuote, BeforeProbe;
    var rest := Probed() + [Verbatim(READY + marker + BELL), Code("\n")] + [Code(LAUNCH), Value(name)] + AfterLaunch();
    Starts(QUIET, rest);
    BeforeProbeIs(pwd);
    Stands(BeforeProbe(pwd), PROBE, name, rest, ' ');
    assert BeforeLaunch(name, pwd, marker) + [Code(LAUNCH), Value(name)] + AfterLaunch() == BeforeProbe(pwd) + [Code(PROBE), Value(name)] + rest;
  }

  lemma ProbedStarts()
    ensures Probed() != [] && Probed()[0] == Code(QUIET) && QUIET[0] == ' '
  {}

  lemma BeforeProbeIs(pwd: string)
    ensures BeforeProbe(pwd) == Head() + [Code(ASSIGN), Value(pwd)] + Cases()
  {}

  lemma LaunchStands(name: string, pwd: string, marker: string)
    requires Unquoted(marker)
    ensures OnItsLine(TmuxRemoteScript(name, pwd, marker), Flat(BeforeLaunch(name, pwd, marker)), LaunchText(name), ' ')
  {
    BeforeLaunchIsTidy(name, pwd, marker);
    var first := BeforeProbe(pwd) + [Code(PROBE), Value(name)] + Probed() + [Verbatim(READY + marker + BELL)];
    assert BeforeLaunch(name, pwd, marker) == first + [Code("\n")];
    EndsLine(first, "\n");
    hide AllTidy, Flat, OnItsLine, ShellQuote, BeforeLaunch;
    Starts(DIRECTORY, AfterLaunch());
    Stands(BeforeLaunch(name, pwd, marker), LAUNCH, name, AfterLaunch(), ' ');
  }
}
