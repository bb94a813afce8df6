/** The variables of the tmux script: none is expanded before the script has set it. */
module TmuxVariables {
  import opened Common
  import opened ShellWords
  import opened TmuxScript

  predicate EndsIn(text: string, suffix: string) {
    |suffix| <= |text| && text[|text| - |suffix|..] == suffix
  }

  /** Some text of the script ends where the value of the variable begins. */
  ghost predicate Sets(ps: seq<Piece>, name: string) {
    exists i :: 0 <= i < |ps| && ps[i].Code? && EndsIn(ps[i].text, name + "=")
  }

  /** Every variable that is expanded, besides the home directory, was set before. */
  ghost predicate SetBeforeUse(ps: seq<Piece>) {
    forall i :: 0 <= i < |ps| && ps[i].Expanded? && ps[i].name != "HOME" ==> Sets(ps[..i], ps[i].name)
  }

  ghost predicate Uses(ps: seq<Piece>, names: set<string>) {
    forall i :: 0 <= i < |ps| && ps[i].Expanded? ==> ps[i].name in names
  }

  lemma StillSet(a: seq<Piece>, b: seq<Piece>, name: string)
    requires Sets(a, name) || Sets(b, name)
    ensures Sets(a + b, name)
  {
    hide EndsIn;
    if Sets(a, name) {
      var i :| 0 <= i < |a| && a[i].Code? && EndsIn(a[i].text, name + "=");
      assert (a + b)[i] == a[i];
    } else {
      var i :| 0 <= i < |b| && b[i].Code? && EndsIn(b[i].text, name + "=");
      assert (a + b)[|a| + i] == b[i];
    }
  }

  /** Pieces that use only what is set may follow. */
  lemma Then(a: seq<Piece>, b: seq<Piece>, names: set<string>)
    requires SetBeforeUse(a) && Uses(b, names) && forall n :: n in names ==> n == "HOME" || Sets(a, n)
    ensures SetBeforeUse(a + b)
  {
    hide Sets;
    var ps := a + b;
    forall i | 0 <= i < |ps| && ps[i].Expanded? && ps[i].name != "HOME" ensures Sets(ps[..i], ps[i].name) {
      if i < |a| {
        assert ps[..i] == a[..i];
      } else {
        assert ps[i] == b[i - |a|] && ps[..i] == a + b[..i - |a|];
        StillSet(a, b[..i - |a|], ps[i].name);
      }
    }
  }

  lemma HeadSets(pwd: string)
    ensures SetBeforeUse(Head() + [Code(ASSIGN), Value(pwd)]) && Sets(Head() + [Code(ASSIGN), Value(pwd)], "configured_pwd")
  {
    assert EndsIn(ASSIGN, "configured_pwd" + "=");
    hide EndsIn;
    var ps := Head() + [Code(ASSIGN), Value(pwd)];
    assert ps[4] == Code(ASSIGN);
  }

  lemma CasesUse()
    ensures Uses(Cases(), {"HOME", "configured_pwd"}) && Sets(Cases(), "start_dir")
  {
    assert EndsIn(EXACTLY, "start_dir" + "=");
    hide EndsIn;
    assert Cases()[4] == Code(EXACTLY);
  }

  lemma ProbedUses()
    ensures Probed() != [] && Probed()[0] == Code(QUIET) && Sets([Code(QUIET)], "session_status") && Uses(Probed()[1..], {"session_status", "start_dir"})
  {
    assert EndsIn(QUIET, "session_status" + "=");
    hide EndsIn;
    assert [Code(QUIET)][0] == Code(QUIET);
  }

  /** For every directory, session name and marker the script sets each variable before it expands it. */
  lemma VariablesAreSet(name: string, pwd: string, marker: string)
    ensures var ps := BeforeLaunch(name, pwd, marker) + [Code(LAUNCH), Value(name)] + AfterLaunch();
      TmuxRemoteScript(name, pwd, marker) == Flat(ps) && SetBeforeUse(ps)
  {
    HeadSets(pwd);
    CasesUse();
    ProbedUses();
    hide Sets, SetBeforeUse, EndsIn, Head, Cases, Probed, Flat;
    var head := Head() + [Code(ASSIGN), Value(pwd)];
    Then(head, Cases(), {"HOME", "configured_pwd"});
    StillSet(head, Cases(), "start_dir");
    var cases := head + Cases();
    var probe := [Code(PROBE), Value(name), Code(QUIET)];
    Then(cases, probe, {});
    StillSet([Code(PROBE), Value(name)], [Code(QUIET)], "session_status");
    assert [Code(PROBE), Value(name)] + [Code(QUIET)] == probe;
    StillSet(cases, probe, "session_status");
    StillSet(cases, probe, "start_dir");
    var probed := cases + probe + Probed()[1..];
    Then(cases + probe, Probed()[1..], {"session_status", "start_dir"});
    StillSet(cases + probe, Probed()[1..], "start_dir");
    var last := [Verbatim(READY + marker + BELL), Code("\n"), Code(LAUNCH), Value(name)] + AfterLaunch();
    Then(probed, last, {"start_dir"});
    assert BeforeLaunch(name, pwd, marker) + [Code(LAUNCH), Value(name)] + AfterLaunch() == probed + last;
  }
}
