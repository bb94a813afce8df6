/** Whose samples a caller of the remote monitor is answered with. */
module RemoteMonitorAnswers {
  import opened Common
  import opened RemoteMonitor
  import opened RemoteMonitorRuns

  // ---- What the steps so far tell ----

  /** The call asked for the owner, and never for another. */
  ghost predicate AskedFor(past: seq<Event>, call: nat, owner: string) {
    && (exists i :: 0 <= i < |past| && past[i].Enter? && past[i].call == call)
    && forall i :: 0 <= i < |past| && past[i].Enter? && past[i].call == call ==> past[i].owner == owner
  }

  /** A call that asked for the owner has taken a sample with these metrics. */
  ghost predicate ProbedFor(past: seq<Event>, owner: string, metrics: int) {
    exists i :: 0 <= i < |past| && past[i].Sampled? && past[i].sample.metrics == metrics && AskedFor(past[..i], past[i].call, owner)
  }

  /** The answer has no sample, or one that was taken for the owner. */
  ghost predicate Own(past: seq<Event>, owner: string, result: Snapshot) {
    result == NO_SNAPSHOT || ProbedFor(past, owner, result.metrics)
  }

  lemma MoreProbed(past: seq<Event>, e: Event, owner: string, metrics: int)
    requires ProbedFor(past, owner, metrics)
    ensures ProbedFor(past + [e], owner, metrics)
  {
    var i :| 0 <= i < |past| && past[i].Sampled? && past[i].sample.metrics == metrics && AskedFor(past[..i], past[i].call, owner);
    assert (past + [e])[..i] == past[..i] && (past + [e])[i] == past[i];
  }

  lemma NewProbed(past: seq<Event>, e: Event, owner: string)
    requires e.Sampled? && AskedFor(past, e.call, owner)
    ensures ProbedFor(past + [e], owner, e.sample.metrics)
  {
    assert (past + [e])[..|past|] == past && (past + [e])[|past|] == e;
  }

  lemma StillAsked(past: seq<Event>, e: Event, call: nat, owner: string)
    requires AskedFor(past, call, owner) && (e.Enter? && e.call == call ==> e.owner == owner)
    ensures AskedFor(past + [e], call, owner)
  {
    var i :| 0 <= i < |past| && past[i].Enter? && past[i].call == call;
    assert (past + [e])[i] == past[i];
  }

  lemma NewAsked(past: seq<Event>, e: Event)
    requires e.Enter? && forall i :: 0 <= i < |past| && past[i].Enter? ==> past[i].call != e.call
    ensures AskedFor(past + [e], e.call, e.owner)
  {
    assert (past + [e])[|past|] == e;
  }

  // ---- The invariant ----

  /** For which owner each state was made, and what each call asked for. */
  datatype History = History(homes: map<nat, string>, asked: map<nat, string>)

  function Note(w: World, h: History, e: Event): History {
    if e.Enter? then
      History(if e.owner in w.states then h.homes else h.homes[e.newCell := e.owner], h.asked[e.call := e.owner])
    else h
  }

  ghost predicate CallOwn(c: Call, owner: string, homes: map<nat, string>, past: seq<Event>) {
    && (c.Waiting? || Prober(c) ==> c.owner == owner)
    && (Prober(c) ==> c.cell in homes && homes[c.cell] == owner)
    && (c.Leaving? || c.Finishing? || c.Releasing? ==> Own(past, owner, c.result))
    && (c.Over? && c.answer.Some? ==> Own(past, owner, c.answer.value))
  }

  ghost predicate CellsOwn(w: World, homes: map<nat, string>, past: seq<Event>) {
    && (forall k :: k in w.cells ==> k in homes && (w.cells[k].snapshot.Some? ==> ProbedFor(past, homes[k], w.cells[k].snapshot.value.metrics)))
    && forall o :: o in w.states ==> w.states[o] in w.cells && homes[w.states[o]] == o
  }

  ghost predicate CallsOwn(w: World, h: History, past: seq<Event>) {
    && (forall c :: c in w.calls ==> c in h.asked && AskedFor(past, c, h.asked[c]) && CallOwn(w.calls[c], h.asked[c], h.homes, past))
    && forall i :: 0 <= i < |past| && past[i].Enter? ==> past[i].call in w.calls
  }

  ghost predicate AllOwn(w: World, h: History, past: seq<Event>) {
    CellsOwn(w, h.homes, past) && CallsOwn(w, h, past)
  }

  lemma LaterCell(w: World, homes: map<nat, string>, past: seq<Event>, e: Event)
    requires CellsOwn(w, homes, past)
    ensures CellsOwn(w, homes, past + [e])
  {
    hide ProbedFor;
    forall k | k in w.cells && w.cells[k].snapshot.Some? ensures ProbedFor(past + [e], homes[k], w.cells[k].snapshot.value.metrics) {
      MoreProbed(past, e, homes[k], w.cells[k].snapshot.value.metrics);
    }
  }

  lemma LaterCall(c: Call, owner: string, homes: map<nat, string>, past: seq<Event>, e: Event)
    requires CallOwn(c, owner, homes, past)
    ensures CallOwn(c, owner, homes, past + [e])
  {
    hide ProbedFor;
    forall metrics | ProbedFor(past, owner, metrics) ensures ProbedFor(past + [e], owner, metrics) {
      MoreProbed(past, e, owner, metrics);
    }
  }

  /** Calls other than the one that moves keep what is known of them. */
  lemma CallsMove(w: World, w': World, h: History, past: seq<Event>, e: Event, call: nat)
    requires CallsOwn(w, h, past) && !e.Enter? && call in w.calls
    requires w'.calls.Keys == w.calls.Keys && forall c :: c in w.calls && c != call ==> w'.calls[c] == w.calls[c]
    requires CallOwn(w'.calls[call], h.asked[call], h.homes, past + [e])
    ensures CallsOwn(w', h, past + [e])
  {
    hide AskedFor, CallOwn;
    forall c | c in w'.calls ensures AskedFor(past + [e], c, h.asked[c]) && CallOwn(w'.calls[c], h.asked[c], h.homes, past + [e]) {
      StillAsked(past, e, c, h.asked[c]);
      LaterCall(w.calls[c], h.asked[c], h.homes, past, e);
    }
  }

  lemma AnswerIsOwn(c: Cell, owner: string, past: seq<Event>, now: Time)
    requires c.snapshot.Some? ==> ProbedFor(past, owner, c.snapshot.value.metrics)
    ensures Own(past, owner, UnavailableOrCached(c, now))
    ensures c.snapshot.Some? ==> Own(past, owner, SnapshotForNow(c.snapshot.value, now, c.failures))
  {
    hide ProbedFor;
  }

  lemma MovedCells(w: World, h: History, past: seq<Event>, e: Event)
    requires AllOwn(w, h, past) && Enabled(w, e) && MovesACall(e)
    ensures CellsOwn(Step(w, e), h.homes, past + [e])
  {
    LaterCell(w, h.homes, past, e);
    if e.Sampled? {
      NewProbed(past, e, h.asked[e.call]);
    }
    hide ProbedFor, AskedFor, UnavailableOrCached, SnapshotForNow, Own;
  }

  lemma MovedCall(w: World, h: History, past: seq<Event>, e: Event)
    requires AllOwn(w, h, past) && Enabled(w, e) && MovesACall(e)
    ensures CallOwn(Step(w, e).calls[e.call], h.asked[e.call], h.homes, past + [e])
  {
    var c, owner, later := w.calls[e.call], h.asked[e.call], past + [e];
    LaterCall(c, owner, h.homes, past, e);
    if e.Sampled? {
      NewProbed(past, e, owner);
    } else if e.GiveUp? || e.Failed? {
      LaterCell(w, h.homes, past, e);
      AnswerIsOwn(w.cells[c.cell], owner, later, e.now);
      AnswerIsOwn(w.cells[c.cell].(failures := w.cells[c.cell].failures + 1), owner, later, e.now);
    }
    hide ProbedFor, AskedFor, UnavailableOrCached, SnapshotForNow;
  }

  /** A step of one call that is under way. */
  lemma MoveKeepsOwn(w: World, h: History, past: seq<Event>, e: Event)
    requires AllOwn(w, h, past) && Enabled(w, e) && MovesACall(e)
    ensures AllOwn(Step(w, e), h, past + [e])
  {
    MovedCells(w, h, past, e);
    MovedCall(w, h, past, e);
    hide ProbedFor, AskedFor, UnavailableOrCached, SnapshotForNow, CellsOwn, CallOwn, Own, CallsOwn;
    CallsMove(w, Step(w, e), h, past, e, e.call);
  }

  lemma FinishKeepsOwn(w: World, h: History, past: seq<Event>, call: nat)
    requires AllOwn(w, h, past) && Enabled(w, Finish(call))
    ensures AllOwn(Step(w, Finish(call)), h, past + [Finish(call)])
  {
    LaterCell(w, h.homes, past, Finish(call));
    LaterCall(w.calls[call], h.asked[call], h.homes, past, Finish(call));
    hide ProbedFor, AskedFor;
    CallsMove(w, Step(w, Finish(call)), h, past, Finish(call), call);
  }

  lemma DropKeepsOwn(w: World, h: History, past: seq<Event>, e: Event)
    requires AllOwn(w, h, past) && (e.Clear? || e.Close?)
    ensures AllOwn(Step(w, e), h, past + [e])
  {
    LaterCell(w, h.homes, past, e);
    hide ProbedFor, AskedFor, CallOwn, Inflight;
    forall c | c in w.calls ensures AskedFor(past + [e], c, h.asked[c]) && CallOwn(w.calls[c], h.asked[c], h.homes, past + [e]) {
      StillAsked(past, e, c, h.asked[c]);
      LaterCall(w.calls[c], h.asked[c], h.homes, past, e);
    }
  }

  lemma NewCellOwn(w: World, homes: map<nat, string>, past: seq<Event>, owner: string, newCell: nat)
    requires CellsOwn(w, homes, past) && newCell !in homes
    ensures CellsOwn(WithCell(w, owner, newCell), if owner in w.states then homes else homes[newCell := owner], past)
    ensures var c := CellOf(WithCell(w, owner, newCell), owner); c.snapshot.Some? ==> ProbedFor(past, owner, c.snapshot.value.metrics)
  {
    hide ProbedFor;
  }

  lemma SameSamples(v: World, w: World, homes: map<nat, string>, past: seq<Event>)
    requires CellsOwn(v, homes, past) && w.states == v.states && w.cells.Keys == v.cells.Keys
    requires forall k :: k in v.cells ==> w.cells[k].snapshot == v.cells[k].snapshot
    ensures CellsOwn(w, homes, past)
  {
    hide ProbedFor;
  }

  lemma EnterSamples(w: World, e: Event)
    requires Enabled(w, e) && e.Enter? && WithCell(w, e.owner, e.newCell).states[e.owner] in WithCell(w, e.owner, e.newCell).cells
    ensures var v, w' := WithCell(w, e.owner, e.newCell), Step(w, e);
      w'.states == v.states && w'.cells.Keys == v.cells.Keys && forall k :: k in v.cells ==> w'.cells[k].snapshot == v.cells[k].snapshot
  {
    hide SnapshotForNow, MayEnter;
  }

  lemma EnteredCells(w: World, h: History, past: seq<Event>, e: Event)
    requires AllOwn(w, h, past) && h.homes.Keys == w.cells.Keys && Enabled(w, e) && e.Enter?
    ensures CellsOwn(Step(w, e), Note(w, h, e).homes, past + [e])
    ensures var c := CellOf(WithCell(w, e.owner, e.newCell), e.owner); c.snapshot.Some? ==> ProbedFor(past + [e], e.owner, c.snapshot.value.metrics)
  {
    LaterCell(w, h.homes, past, e);
    NewCellOwn(w, h.homes, past + [e], e.owner, e.newCell);
    var v := WithCell(w, e.owner, e.newCell);
    assert v.states[e.owner] in v.cells;
    var w' := Step(w, e);
    hide ProbedFor, AskedFor, CellsOwn, CallsOwn, Step, AllOwn, Enabled;
    EnterSamples(w, e);
    SameSamples(v, w', Note(w, h, e).homes, past + [e]);
  }

  lemma EnteredCall(w: World, h: History, past: seq<Event>, e: Event)
    requires AllOwn(w, h, past) && h.homes.Keys == w.cells.Keys && Enabled(w, e) && e.Enter?
    ensures CallOwn(Step(w, e).calls[e.call], e.owner, Note(w, h, e).homes, past + [e])
  {
    EnteredCells(w, h, past, e);
    var v := WithCell(w, e.owner, e.newCell);
    var c, after := CellOf(v, e.owner), Step(w, e).calls[e.call];
    AnswerIsOwn(c, e.owner, past + [e], e.now);
    assert v.states[e.owner] in Note(w, h, e).homes && Note(w, h, e).homes[v.states[e.owner]] == e.owner by {
      hide ProbedFor, CallsOwn, CallOwn, AskedFor, Step, Enabled;
    }
    assert after == (if Cached(c, e.now) then Over(Some(SnapshotForNow(c.snapshot.value, e.now, c.failures)))
                     else if c.inflight.Some? then Waiting(e.owner, c.inflight.value)
                     else Acquiring(e.owner, v.states[e.owner], e.newChannel)) by {
      hide ProbedFor, AllOwn, CellsOwn, CallsOwn, AskedFor, WithCell, MayEnter, Note, CallOwn, Own, SnapshotForNow;
    }
    hide ProbedFor, AllOwn, CellsOwn, CallsOwn, AskedFor, SnapshotForNow, Own, Step, WithCell, Enabled, Note;
  }

  lemma EnteredAsks(w: World, h: History, past: seq<Event>, e: Event)
    requires AllOwn(w, h, past) && Enabled(w, e) && e.Enter?
    ensures AskedFor(past + [e], e.call, e.owner)
  {
    if e.call in w.calls {
      StillAsked(past, e, e.call, e.owner);
    } else {
      NewAsked(past, e);
    }
  }

  lemma OtherHomes(c: Call, owner: string, homes: map<nat, string>, cell: nat, home: string, past: seq<Event>)
    requires CallOwn(c, owner, homes, past) && cell !in homes
    ensures CallOwn(c, owner, homes[cell := home], past)
  {
    hide Own;
  }

  /** One call has entered, and the others keep what is known of them. */
  lemma CallsEnter(w: World, w': World, h: History, past: seq<Event>, e: Event)
    requires CallsOwn(w, h, past) && e.Enter? && (e.owner in w.states || e.newCell !in h.homes)
    requires w'.calls.Keys == w.calls.Keys + {e.call} && forall c :: c in w.calls && c != e.call ==> w'.calls[c] == w.calls[c]
    requires var h' := Note(w, h, e); AskedFor(past + [e], e.call, e.owner) && CallOwn(w'.calls[e.call], e.owner, h'.homes, past + [e])
    ensures CallsOwn(w', Note(w, h, e), past + [e])
  {
    var h' := Note(w, h, e);
    hide CallOwn, AskedFor;
    forall c | c in w.calls && c != e.call
      ensures AskedFor(past + [e], c, h'.asked[c]) && CallOwn(w'.calls[c], h'.asked[c], h'.homes, past + [e])
    {
      StillAsked(past, e, c, h.asked[c]);
      LaterCall(w.calls[c], h.asked[c], h.homes, past, e);
      if e.owner !in w.states {
        OtherHomes(w.calls[c], h.asked[c], h.homes, e.newCell, e.owner, past + [e]);
      }
    }
  }

  lemma EnterKeepsOwn(w: World, h: History, past: seq<Event>, e: Event)
    requires AllOwn(w, h, past) && h.homes.Keys == w.cells.Keys && Enabled(w, e) && e.Enter?
    ensures AllOwn(Step(w, e), Note(w, h, e), past + [e])
  {
    EnteredCells(w, h, past, e);
    EnteredCall(w, h, past, e);
    EnteredAsks(w, h, past, e);
    hide CellsOwn, CallOwn, CallsOwn, AskedFor, ProbedFor, Note, MayEnter, SnapshotForNow;
    CallsEnter(w, Step(w, e), h, past, e);
  }

  // ---- Runs ----

  lemma StepKeepsOwn(w: World, h: History, past: seq<Event>, e: Event)
    requires AllOwn(w, h, past) && h.homes.Keys == w.cells.Keys && Enabled(w, e)
    ensures AllOwn(Step(w, e), Note(w, h, e), past + [e]) && Note(w, h, e).homes.Keys == Step(w, e).cells.Keys
  {
    CellNames(w, h, e);
    hide CellsOwn, CallsOwn, Step, Enabled;
    if e.Enter? {
      EnterKeepsOwn(w, h, past, e);
    } else if e.Finish? {
      FinishKeepsOwn(w, h, past, e.call);
    } else if e.Clear? || e.Close? {
      DropKeepsOwn(w, h, past, e);
    } else {
      MoveKeepsOwn(w, h, past, e);
    }
  }

  lemma CellNames(w: World, h: History, e: Event)
    requires h.homes.Keys == w.cells.Keys && Enabled(w, e) && forall o :: o in w.states ==> w.states[o] in w.cells
    ensures Note(w, h, e).homes.Keys == Step(w, e).cells.Keys
  {
    hide UnavailableOrCached, SnapshotForNow, Inflight, FinishStep, ClearStep, EnterStep, MayEnter;
    match e {
      case Enter(call, owner, now, cell, channel) => EnterNames(w, call, owner, now, cell, channel);
      case Finish(call) => FinishNames(w, w.calls[call].owner, w.calls[call].cell, w.calls[call].channel);
      case Clear(owner) => ClearNames(w, owner);
      case _ =>
    }
  }

  lemma EnterNames(w: World, call: nat, owner: string, now: Time, cell: nat, channel: nat)
    requires forall o :: o in w.states ==> w.states[o] in w.cells
    ensures EnterStep(w, call, owner, now, cell, channel).cells.Keys == if owner in w.states then w.cells.Keys else w.cells.Keys + {cell}
  {
    hide SnapshotForNow;
  }

  lemma FinishNames(w: World, owner: string, cell: nat, channel: nat)
    ensures FinishStep(w, owner, cell, channel).cells.Keys == w.cells.Keys
  {}

  lemma ClearNames(w: World, owner: string)
    ensures ClearStep(w, owner).cells.Keys == w.cells.Keys
  {}

  lemma {:induction false} RunKeepsOwn(w: World, h: History, past: seq<Event>, events: seq<Event>, after: World) returns (h': History)
    requires AllOwn(w, h, past) && h.homes.Keys == w.cells.Keys && Runs(w, events, after)
    ensures AllOwn(after, h', past + events)
    decreases |events|
  {
    hide AllOwn, Step, Enabled, Note;
    if events == [] {
      h' := h;
      assert past + events == past;
    } else {
      StepKeepsOwn(w, h, past, events[0]);
      h' := RunKeepsOwn(Step(w, events[0]), Note(w, h, events[0]), past + [events[0]], events[1..], after);
      assert past + [events[0]] + events[1..] == past + events;
    }
  }

  /** Over every run a call asks for one owner, and what it is answered with was sampled for that owner by a call that asked for it:
      no caller gets a sample of another owner, whatever is cleared and asked again meanwhile. */
  lemma AnswersAreOwn(events: seq<Event>, w: World, call: nat)
    requires Runs(EMPTY, events, w) && call in w.calls
    ensures exists owner :: AskedFor(events, call, owner)
    ensures forall owner :: AskedFor(events, call, owner) && w.calls[call].Over? && w.calls[call].answer.Some? ==>
      Own(events, owner, w.calls[call].answer.value)
  {
    var h := RunKeepsOwn(EMPTY, History(map[], map[]), [], events, w);
    assert [] + events == events;
    hide Runs, ProbedFor, CellsOwn;
    assert AskedFor(events, call, h.asked[call]);
  }
}
