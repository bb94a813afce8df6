/** The service itself: each method is one critical section and does exactly one step. */
module RemoteMonitorService {
  import opened Common
  import opened RemoteMonitor
  import opened RemoteMonitorRuns

  class Service {
    var states: map<string, nat>
    var cells: map<nat, Cell>
    var closes: map<nat, nat>
    var calls: map<nat, Call>
    var slots: nat

    ghost function Now(): World
      reads this
    {
      World(states, cells, closes, calls, slots)
    }

    constructor ()
      ensures Now() == EMPTY
    {
      states, cells, closes, calls, slots := map[], map[], map[], map[], 0;
    }

    method CloseOne(channel: nat)
      requires channel in closes
      modifies this`closes
      ensures Now() == CloseChannel(old(Now()), channel)
    {
      closes := closes[channel := closes[channel] + 1];
    }

    /** One turn of the loop of RemoteMonitor: an answer, a channel to wait on, or the probe to make. */
    method Enter(call: nat, owner: string, now: Time, newCell: nat, newChannel: nat)
      requires Valid(Now()) && Enabled(Now(), Event.Enter(call, owner, now, newCell, newChannel))
      modifies this
      ensures Now() == Step(old(Now()), Event.Enter(call, owner, now, newCell, newChannel)) && Valid(Now())
    {
      StepKeepsValid(Now(), Event.Enter(call, owner, now, newCell, newChannel));
      StatesDistinct(Now());
      hide Valid, SnapshotForNow;
      if owner !in states {
        cells := cells[newCell := NEW_CELL];
        states := states[owner := newCell];
      }
      var state := cells[states[owner]];
      if state.snapshot.Some? && now - state.lastGood < CACHE_TTL {
        calls := calls[call := Over(Some(SnapshotForNow(state.snapshot.value, now, state.failures)))];
        return;
      }
      if state.inflight.Some? {
        calls := calls[call := Waiting(owner, state.inflight.value)];
        return;
      }
      closes := closes[newChannel := 0];
      cells := cells[states[owner] := state.(inflight := Some(newChannel))];
      calls := calls[call := Acquiring(owner, states[owner], newChannel)];
    }

    /** A free slot, or the end of the caller's patience. */
    method Acquire(call: nat, now: Time, done: bool) returns (acquired: bool)
      requires Valid(Now()) && call in calls && calls[call].Acquiring? && (slots < SLOTS || done)
      modifies this
      ensures acquired == !done
      ensures Now() == Step(old(Now()), if done then GiveUp(call, now) else Event.Acquire(call)) && Valid(Now())
      ensures cells == old(cells) && states == old(states)
      ensures var c := old(calls)[call];
        if done then c.cell in cells && Answers(calls[call], cells[c.cell], now) else calls[call] == Probing(c.owner, c.cell, c.channel)
    {
      forall s, failures {
        AgedIs(s, now, failures);
      }
      ProberCell(Now(), call);
      StepKeepsValid(Now(), if done then GiveUp(call, now) else Event.Acquire(call));
      hide Valid, UnavailableOrCached;
      var c := calls[call];
      if done {
        var result := UnavailableOrCached(cells[c.cell], now);
        var finishNeeded := cells[c.cell].inflight == Some(c.channel);
        calls := calls[call := if finishNeeded then Leaving(c.owner, c.cell, c.channel, result) else Over(Some(result))];
        return false;
      }
      slots := slots + 1;
      calls := calls[call := Probing(c.owner, c.cell, c.channel)];
      return true;
    }

    /** The end of a probe: a sample, or one failure more. */
    method Record(call: nat, sample: Option<Snapshot>, now: Time)
      requires Valid(Now()) && call in calls && calls[call].Probing?
      modifies this
      ensures Now() == Step(old(Now()), if sample.Some? then Sampled(call, sample.value, now) else Failed(call, now)) && Valid(Now())
      ensures var c := old(calls)[call];
        && c.cell in old(cells) && cells.Keys == old(cells).Keys && (forall i :: i in cells && i != c.cell ==> cells[i] == old(cells)[i])
        && var was, is' := old(cells)[c.cell], cells[c.cell];
        && is'.inflight == was.inflight
        && (if sample.Some? then
              && is'.snapshot == Some(sample.value.(sampledAt := Some(now))) && is'.lastGood == now && is'.failures == 0
              && calls[call] == Finishing(c.owner, c.cell, c.channel, is'.snapshot.value)
            else
              && is'.snapshot == was.snapshot && is'.lastGood == was.lastGood && is'.failures == was.failures + 1
              && calls[call].Finishing? && Answers(calls[call], is', now))
    {
      forall s, failures {
        AgedIs(s, now, failures);
      }
      ProberCell(Now(), call);
      StepKeepsValid(Now(), if sample.Some? then Sampled(call, sample.value, now) else Failed(call, now));
      hide Valid, UnavailableOrCached;
      var c := calls[call];
      var state := cells[c.cell];
      var result;
      if sample.Some? {
        result := sample.value.(sampledAt := Some(now));
        state := state.(snapshot := Some(result), lastGood := now, failures := 0);
      } else {
        state := state.(failures := state.failures + 1);
        result := UnavailableOrCached(state, now);
      }
      cells := cells[c.cell := state];
      calls := calls[call := Finishing(c.owner, c.cell, c.channel, result)];
    }

    /** Closes the channel unless its state was dropped or has another one by now. */
    method Finish(call: nat)
      requires Valid(Now()) && Enabled(Now(), Event.Finish(call))
      modifies this
      ensures Now() == Step(old(Now()), Event.Finish(call)) && Valid(Now())
      ensures !IsOpen(Now(), old(calls[call].channel))
    {
      StatesDistinct(Now());
      hide Valid, EnterStep, ClearStep, CloseStep, SnapshotForNow, UnavailableOrCached;
      StepKeepsValid(Now(), Event.Finish(call));
      FinishCloses(Now(), call);
      ProberCell(Now(), call);
      var c := calls[call];
      if c.owner in states && states[c.owner] == c.cell && cells[c.cell].inflight == Some(c.channel) {
        cells := cells[c.cell := cells[c.cell].(inflight := None)];
        CloseOne(c.channel);
      }
      calls := calls[call := if c.Leaving? then Over(Some(c.result)) else Releasing(c.result)];
    }

    method Release(call: nat)
      requires Valid(Now()) && Enabled(Now(), Event.Release(call))
      modifies this
      ensures Now() == Step(old(Now()), Event.Release(call)) && Valid(Now())
    {
      StepKeepsValid(Now(), Event.Release(call));
      hide Valid;
      slots := slots - 1;
      calls := calls[call := Over(Some(calls[call].result))];
    }

    method Clear(owner: string)
      requires Valid(Now())
      modifies this
      ensures Now() == Step(old(Now()), Event.Clear(owner)) && Valid(Now())
    {
      StepKeepsValid(Now(), Event.Clear(owner));
      StatesDistinct(Now());
      if owner in states && CellOf(Now(), owner).inflight.Some? {
        OpenChannel(Now(), owner);
      }
      hide Valid;
      if owner in states && cells[states[owner]].inflight.Some? {
        var cell := states[owner];
        CloseOne(cells[cell].inflight.value);
        cells := cells[cell := cells[cell].(inflight := None)];
      }
      states := states - {owner};
    }

    /** The loop of Close, over the states in any order. */
    method DropStates(ghost w: World)
      requires Valid(w) && states == w.states && closes == w.closes && cells == w.cells
      modifies this`states, this`closes
      ensures states == map[] && Closing(w, map[], closes)
    {
      ClosingNone(w);
      hide Valid, Closing;
      while states != map[]
        invariant Closing(w, states, closes)
        decreases |states|
      {
        var owner :| owner in states;
        ClosingOne(w, states, closes, owner);
        if cells[states[owner]].inflight.Some? {
          CloseOne(cells[states[owner]].inflight.value);
        }
        states := states - {owner};
      }
    }

    /** Every state goes and every channel under way is closed. */
    method Close()
      requires Valid(Now())
      modifies this
      ensures Now() == Step(old(Now()), Event.Close) && Valid(Now())
    {
      ghost var w := Now();
      StepKeepsValid(w, Event.Close);
      hide Valid, Closing, Step;
      DropStates(w);
      CloseIs(w, closes);
    }
  }

  /** A sample as it is shown at a later time: its age in whole milliseconds, not negative, and a status that gives way to
      unavailable after three failures, and to stale after fifteen seconds. */
  predicate Aged(answer: Snapshot, s: Snapshot, failures: nat, now: Time) {
    && answer.metrics == s.metrics && answer.sampledAt == s.sampledAt
    && match s.sampledAt
       case None => answer.status == s.status && answer.ageMs == s.ageMs
       case Some(at) =>
         && answer.ageMs.Some?
         && (if now < at then answer.ageMs.value == 0
             else answer.ageMs.value * 1_000_000 <= now - at < (answer.ageMs.value + 1) * 1_000_000)
         && answer.status == (if failures > 2 then "unavailable" else if answer.ageMs.value > 15_000 then "stale" else s.status)
  }

  /** The result of a call that did not get a sample: the last one, aged, or none. */
  predicate Answers(c: Call, cell: Cell, now: Time) {
    var result := match c
      case Leaving(_, _, _, r) => Some(r)
      case Finishing(_, _, _, r) => Some(r)
      case Over(r) => r
      case _ => None;
    && result.Some?
    && match cell.snapshot
       case None => result.value.status == "unavailable" && result.value.sampledAt.None? && result.value.ageMs.None?
       case Some(s) => Aged(result.value, s, cell.failures, now)
  }

  lemma AgedIs(s: Snapshot, now: Time, failures: nat)
    ensures Aged(SnapshotForNow(s, now, failures), s, failures, now)
    ensures forall c: Cell :: c.snapshot == Some(s) && c.failures == failures ==> UnavailableOrCached(c, now) == SnapshotForNow(s, now, failures)
    ensures forall c: Cell :: c.snapshot.None? ==> UnavailableOrCached(c, now) == NO_SNAPSHOT
  {}

  /** A call is answered from a sample not older than four seconds, or waits for the probe under way, or probes itself. */
  lemma EnterAnswers(w: World, call: nat, owner: string, now: Time, newCell: nat, newChannel: nat)
    requires Valid(w) && Enabled(w, Event.Enter(call, owner, now, newCell, newChannel))
    ensures var v := Step(w, Event.Enter(call, owner, now, newCell, newChannel));
      var known := owner in w.states;
      var cell := if known then w.states[owner] else newCell;
      var c := if known then w.cells[cell] else NEW_CELL;
      && v.states == w.states[owner := cell]
      && (if c.snapshot.Some? && now - c.lastGood < 4_000_000_000 then
            && v.calls[call].Over? && v.calls[call].answer.Some? && Aged(v.calls[call].answer.value, c.snapshot.value, c.failures, now)
            && v.cells == w.cells[cell := c] && v.closes == w.closes
          else if c.inflight.Some? then v.calls[call] == Waiting(owner, c.inflight.value) && v.cells == w.cells[cell := c] && v.closes == w.closes
          else
            && v.calls[call] == Acquiring(owner, cell, newChannel) && v.cells == w.cells[cell := c.(inflight := Some(newChannel))]
            && v.closes == w.closes[newChannel := 0])
  {
    EnterCell(w, owner);
    var c := CellOf(w, owner);
    AgedIs(if c.snapshot.Some? then c.snapshot.value else NO_SNAPSHOT, now, c.failures);
    hide Valid, SnapshotForNow, Aged, MayEnter;
  }

  lemma EnterCell(w: World, owner: string)
    requires Valid(w)
    ensures owner in w.states ==> w.states[owner] in w.cells && CellOf(w, owner) == w.cells[w.states[owner]]
  {}

  lemma ProberCell(w: World, call: nat)
    requires Valid(w) && call in w.calls && Prober(w.calls[call])
    ensures w.calls[call].cell in w.cells && w.calls[call].channel in w.closes
  {}

  /** The channels of the states that are no longer registered. */
  ghost function Gone(w: World, left: map<string, nat>): set<nat> {
    set o | o in w.states && o !in left && CellOf(w, o).inflight.Some? :: CellOf(w, o).inflight.value
  }

  /** Half way through Close: the channels of the states that are gone have been closed once more. */
  ghost predicate Closing(w: World, left: map<string, nat>, closes: map<nat, nat>) {
    && (forall o :: o in left ==> o in w.states && left[o] == w.states[o])
    && closes.Keys == w.closes.Keys
    && forall ch :: ch in closes ==> closes[ch] == (if ch in Gone(w, left) then w.closes[ch] + 1 else w.closes[ch])
  }

  lemma ClosingNone(w: World)
    ensures Closing(w, w.states, w.closes)
  {
    assert Gone(w, w.states) == {};
  }

  lemma CloseIs(w: World, closes: map<nat, nat>)
    requires Closing(w, map[], closes)
    ensures Step(w, Event.Close) == w.(states := map[], closes := closes)
  {
    assert Gone(w, map[]) == Inflight(w);
  }

  /** Dropping one more state closes its channel, which no dropped state had. */
  lemma ClosingOne(w: World, left: map<string, nat>, closes: map<nat, nat>, owner: string)
    requires Valid(w) && Closing(w, left, closes) && owner in left
    ensures left[owner] in w.cells
    ensures var ch := w.cells[left[owner]].inflight;
      && (ch.Some? ==> ch.value in closes && Closing(w, left - {owner}, closes[ch.value := closes[ch.value] + 1]))
      && (ch.None? ==> Closing(w, left - {owner}, closes))
  {
    if CellOf(w, owner).inflight.Some? {
      var ch := CellOf(w, owner).inflight.value;
      OwnChannel(w, owner, ch);
      OpenChannel(w, owner);
      assert Gone(w, left - {owner}) == Gone(w, left) + {ch} && ch !in Gone(w, left);
    } else {
      assert Gone(w, left - {owner}) == Gone(w, left);
    }
  }
}
