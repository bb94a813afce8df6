/** What every step of the remote monitor keeps, over whole runs: no channel is closed twice, no waiter
    is lost, each state has one prober, and four probes run at most. */
module RemoteMonitorRuns {
  import opened Common
  import opened RemoteMonitor

  /** The call with the channel of a registered state is a call for that state. */
  lemma MyChannel(w: World, call: nat, o: string)
    requires Probers(w) && call in w.calls && Prober(w.calls[call])
    requires o in w.states && CellOf(w, o).inflight == Some(w.calls[call].channel)
    ensures w.calls[call].owner == o && w.calls[call].cell == w.states[o]
  {
    var c :| c in w.calls && Carries(w.calls[c], o, w.states[o], CellOf(w, o).inflight.value);
  }

  // ---- Slots ----

  lemma SlotsKept(w: World, w': World)
    requires Slots(w) && w'.slots == w.slots && Holders(w') == Holders(w)
    ensures Slots(w')
  {}

  lemma SlotTaken(w: World, w': World, call: nat)
    requires Slots(w) && w.slots < SLOTS && w'.slots == w.slots + 1
    requires call !in Holders(w) && Holders(w') == Holders(w) + {call}
    ensures Slots(w')
  {}

  lemma SlotFreed(w: World, w': World, call: nat)
    requires Slots(w) && w.slots > 0 && w'.slots == w.slots - 1
    requires call in Holders(w) && Holders(w') == Holders(w) - {call}
    ensures Slots(w')
  {}

  /** One call changes: the holders change by that call at most. */
  lemma HoldersAfter(w: World, w': World, call: nat, after: Call)
    requires w'.calls == w.calls[call := after]
    ensures Holders(w') == if Holds(after) then Holders(w) + {call} else Holders(w) - {call}
    ensures call in Holders(w) <==> call in w.calls && Holds(w.calls[call])
  {
    hide Holds;
  }

  lemma OtherSlots(w: World, e: Event)
    requires Valid(w) && Enabled(w, e) && !e.Clear? && !e.Close? && !e.Acquire? && !e.Release?
    ensures Slots(Step(w, e))
  {
    CallChanged(w, e);
    var w' := Step(w, e);
    hide Step, Enabled, Registered, Channels, Probers, AtHome, Holders, Inflight;
    HoldersAfter(w, w', e.call, w'.calls[e.call]);
    SlotsKept(w, w');
  }

  lemma StepSlots(w: World, e: Event)
    requires Valid(w) && Enabled(w, e)
    ensures Slots(Step(w, e))
  {
    hide Registered, Channels, Probers, AtHome, Inflight, Holders, UnavailableOrCached, SnapshotForNow;
    match e
    case Clear(_) =>
      HoldersOfCalls(w, Step(w, e));
    case Close =>
      HoldersOfCalls(w, Step(w, e));
    case Acquire(call) =>
      var w' := Step(w, e);
      HoldersAfter(w, w', call, w'.calls[call]);
      SlotTaken(w, w', call);
    case Release(call) =>
      var w' := Step(w, e);
      HoldersAfter(w, w', call, w'.calls[call]);
      SlotFreed(w, w', call);
    case _ =>
      OtherSlots(w, e);
  }

  lemma HoldersOfCalls(w: World, w': World)
    requires w'.calls == w.calls && w'.slots == w.slots && Slots(w)
    ensures Slots(w')
  {
    assert Holders(w') == Holders(w);
  }

  /** The other steps change one call and neither take nor free a slot. */
  lemma CallChanged(w: World, e: Event)
    requires Enabled(w, e) && !e.Clear? && !e.Close? && !e.Acquire? && !e.Release?
    ensures var w' := Step(w, e);
      && e.call in w'.calls && w'.calls == w.calls[e.call := w'.calls[e.call]] && w'.slots == w.slots
      && (Holds(w'.calls[e.call]) <==> e.call in w.calls && Holds(w.calls[e.call]))
  {
    hide UnavailableOrCached, SnapshotForNow;
  }

  // ---- Steps of calls ----

  /** Same states, cells with the same channels, and the same closes. */
  ghost predicate SameChannels(w: World, w': World) {
    && w'.states == w.states && w'.closes == w.closes && w'.cells.Keys == w.cells.Keys
    && forall k :: k in w.cells ==> w'.cells[k].inflight == w.cells[k].inflight
  }

  lemma ChannelsKept(w: World, w': World)
    requires Registered(w) && Channels(w) && SameChannels(w, w')
    ensures Registered(w') && Channels(w')
  {
    assert forall o :: o in w.states ==> CellOf(w', o).inflight == CellOf(w, o).inflight;
    assert Inflight(w') == Inflight(w);
  }

  /** One call moves on and keeps its part, or was not the carrier of any open channel. */
  lemma CallMoves(w: World, w': World, call: nat, after: Call)
    requires Registered(w) && Probers(w) && SameChannels(w, w') && call in w.calls && w'.calls == w.calls[call := after]
    requires Prober(after) ==> Prober(w.calls[call]) && Carries(after, w.calls[call].owner, w.calls[call].cell, w.calls[call].channel)
    requires after.Waiting? ==> after.channel in w.closes
    requires Prober(w.calls[call]) && !Prober(after) ==>
      forall o :: o in w.states ==> CellOf(w, o).inflight != Some(w.calls[call].channel)
    ensures Probers(w')
  {
    assert forall o :: o in w.states ==> CellOf(w', o).inflight == CellOf(w, o).inflight;
    forall o | o in w'.states && CellOf(w', o).inflight.Some?
      ensures exists c :: c in w'.calls && Carries(w'.calls[c], o, w'.states[o], CellOf(w', o).inflight.value)
    {
      var c :| c in w.calls && Carries(w.calls[c], o, w.states[o], CellOf(w, o).inflight.value);
      assert c == call ==> Prober(after);
      assert Carries(w'.calls[c], o, w'.states[o], CellOf(w', o).inflight.value);
    }
  }

  /** A prober whose state is not registered with its channel carries no open channel. */
  lemma NotMine(w: World, call: nat)
    requires Registered(w) && Probers(w) && call in w.calls && Prober(w.calls[call])
    requires !StillMine(w, w.calls[call].owner, w.calls[call].cell, w.calls[call].channel)
    ensures forall o :: o in w.states ==> CellOf(w, o).inflight != Some(w.calls[call].channel)
  {
    forall o | o in w.states ensures CellOf(w, o).inflight != Some(w.calls[call].channel) {
      if CellOf(w, o).inflight == Some(w.calls[call].channel) {
        MyChannel(w, call, o);
        assert false;
      }
    }
  }

  predicate MovesACall(e: Event) {
    e.Cancel? || e.Acquire? || e.GiveUp? || e.Sampled? || e.Failed? || e.Release?
  }

  lemma CallStep(w: World, e: Event)
    requires Valid(w) && Enabled(w, e) && MovesACall(e)
    ensures Registered(Step(w, e)) && Channels(Step(w, e)) && Probers(Step(w, e))
  {
    var w' := Step(w, e);
    var call := e.call;
    hide Registered, Channels, Probers, Slots, Inflight, UnavailableOrCached;
    if e.GiveUp? && !w'.calls[call].Leaving? {
      NotMine(w, call);
    }
    assert SameChannels(w, w');
    ChannelsKept(w, w');
    CallMoves(w, w', call, w'.calls[call]);
  }

  // ---- Finishing ----

  lemma ClosedOne(w: World, w': World, owner: string, channel: nat)
    requires Registered(w) && Channels(w) && owner in w.states && CellOf(w, owner).inflight == Some(channel)
    requires w'.closes == w.closes[channel := 1]
    requires w'.states == w.states || w'.states == w.states - {owner}
    requires w'.cells == w.cells[w.states[owner] := w.cells[w.states[owner]].(inflight := None)]
    requires forall o :: o in w.states && o != owner ==> CellOf(w, o).inflight != Some(channel)
    ensures Registered(w') && Channels(w')
  {
    assert forall o :: o in w'.states && o != owner ==> CellOf(w', o) == CellOf(w, o);
    assert owner in w'.states ==> CellOf(w', owner).inflight == None;
    forall ch | IsOpen(w', ch) ensures ch in Inflight(w') {
      assert IsOpen(w, ch) && ch in Inflight(w);
      var o :| o in w.states && CellOf(w, o).inflight == Some(ch);
      assert o in w'.states && CellOf(w', o).inflight == Some(ch);
    }
    assert w.closes[channel] == 0;
  }

  /** No two states share a channel. */
  lemma OwnChannel(w: World, owner: string, channel: nat)
    requires Probers(w) && owner in w.states && CellOf(w, owner).inflight == Some(channel)
    ensures forall o :: o in w.states && o != owner ==> CellOf(w, o).inflight != Some(channel)
  {
    var c :| c in w.calls && Carries(w.calls[c], owner, w.states[owner], channel);
    forall o | o in w.states && o != owner ensures CellOf(w, o).inflight != Some(channel) {
      if CellOf(w, o).inflight == Some(channel) {
        MyChannel(w, c, o);
        assert false;
      }
    }
  }

  /** The carriers of the other channels stay when one channel goes. */
  lemma OthersCarried(w: World, w': World, owner: string)
    requires Registered(w) && Probers(w)
    requires w'.closes.Keys == w.closes.Keys && w'.cells.Keys == w.cells.Keys
    requires forall o :: o in w'.states && CellOf(w', o).inflight.Some? ==>
      o in w.states && o != owner && w'.states[o] == w.states[o] && CellOf(w', o).inflight == CellOf(w, o).inflight
    requires w'.calls.Keys == w.calls.Keys
    requires forall c :: c in w.calls ==>
      w'.calls[c] == w.calls[c] || (!Prober(w'.calls[c]) && !w'.calls[c].Waiting? && (Prober(w.calls[c]) ==> w.calls[c].owner == owner))
    ensures Probers(w')
  {
    forall o | o in w'.states && CellOf(w', o).inflight.Some?
      ensures exists c :: c in w'.calls && Carries(w'.calls[c], o, w'.states[o], CellOf(w', o).inflight.value)
    {
      var c :| c in w.calls && Carries(w.calls[c], o, w.states[o], CellOf(w, o).inflight.value);
      assert w'.calls[c] == w.calls[c];
    }
  }

  lemma FinishKeeps(w: World, call: nat)
    requires Valid(w) && Enabled(w, Finish(call))
    ensures var w' := Step(w, Finish(call)); Registered(w') && Channels(w') && Probers(w')
  {
    var w' := Step(w, Finish(call));
    var c := w.calls[call];
    hide Registered, Channels, Probers, Slots, Inflight;
    if StillMine(w, c.owner, c.cell, c.channel) {
      OwnChannel(w, c.owner, c.channel);
      OpenChannel(w, c.owner);
      ClosedOne(w, w', c.owner, c.channel);
      StatesDistinct(w);
      OthersCarried(w, w', c.owner);
    } else {
      NotMine(w, call);
      ChannelsKept(w, w');
      CallMoves(w, w', call, w'.calls[call]);
    }
  }

  lemma OpenChannel(w: World, owner: string)
    requires Channels(w) && owner in w.states && CellOf(w, owner).inflight.Some?
    ensures IsOpen(w, CellOf(w, owner).inflight.value)
  {}

  lemma StatesDistinct(w: World)
    requires Registered(w)
    ensures forall o, p :: o in w.states && p in w.states && o != p ==> w.states[o] != w.states[p]
    ensures forall o :: o in w.states ==> w.states[o] in w.cells
  {}

  // ---- Clearing ----

  lemma ClearKeeps(w: World, owner: string)
    requires Valid(w)
    ensures var w' := Step(w, Clear(owner)); Registered(w') && Channels(w') && Probers(w')
  {
    var w' := Step(w, Clear(owner));
    hide Registered, Channels, Probers, Slots, Inflight;
    StatesDistinct(w);
    if owner in w.states {
      if CellOf(w, owner).inflight.Some? {
        var channel := CellOf(w, owner).inflight.value;
        OwnChannel(w, owner, channel);
        OpenChannel(w, owner);
        ClosedOne(w, w', owner, channel);
      } else {
        IdleGone(w, w', owner);
      }
      OthersCarried(w, w', owner);
    }
  }

  lemma IdleGone(w: World, w': World, owner: string)
    requires Registered(w) && Channels(w) && owner in w.states && CellOf(w, owner).inflight.None?
    requires w' == w.(states := w.states - {owner})
    ensures Registered(w') && Channels(w')
  {
    forall ch | IsOpen(w', ch) ensures ch in Inflight(w') {
      assert ch in Inflight(w);
      var o :| o in w.states && CellOf(w, o).inflight == Some(ch);
      assert o in w'.states && CellOf(w', o) == CellOf(w, o);
    }
  }

  lemma CloseKeeps(w: World)
    requires Valid(w)
    ensures Registered(CloseStep(w)) && Channels(CloseStep(w)) && Probers(CloseStep(w))
    ensures forall ch :: !IsOpen(CloseStep(w), ch)
  {
    forall ch | ch in w.closes ensures CloseStep(w).closes[ch] == 1 {
      if ch in Inflight(w) {
        var o :| o in w.states && CellOf(w, o).inflight == Some(ch);
        assert IsOpen(w, ch);
      } else {
        assert !IsOpen(w, ch);
      }
    }
  }

  // ---- Entering ----

  lemma WithCellKeeps(w: World, owner: string, newCell: nat)
    requires Registered(w) && Channels(w) && Probers(w) && newCell !in w.cells
    ensures var v := WithCell(w, owner, newCell);
      Registered(v) && Channels(v) && Probers(v) && owner in v.states && v.calls == w.calls && v.closes == w.closes && v.slots == w.slots
  {
    var v := WithCell(w, owner, newCell);
    if owner !in w.states {
      assert forall o :: o in w.states ==> CellOf(v, o) == CellOf(w, o);
      assert CellOf(v, owner) == NEW_CELL;
      forall ch | IsOpen(v, ch) ensures ch in Inflight(v) {
        assert IsOpen(w, ch) && ch in Inflight(w);
        var o :| o in w.states && CellOf(w, o).inflight == Some(ch);
        assert CellOf(v, o).inflight == Some(ch);
      }
      forall o | o in v.states && CellOf(v, o).inflight.Some?
        ensures exists c :: c in v.calls && Carries(v.calls[c], o, v.states[o], CellOf(v, o).inflight.value)
      {
        var c :| c in w.calls && Carries(w.calls[c], o, w.states[o], CellOf(w, o).inflight.value);
      }
    }
  }

  /** A call that carries nothing gets a place without a channel of its own. */
  lemma CallPlaced(w: World, w': World, call: nat, after: Call)
    requires Registered(w) && Channels(w) && Probers(w) && w' == w.(calls := w.calls[call := after])
    requires (call in w.calls ==> !Prober(w.calls[call])) && !Prober(after) && (after.Waiting? ==> after.channel in w.closes)
    ensures Registered(w') && Channels(w') && Probers(w')
  {
    assert forall o :: CellOf(w', o) == CellOf(w, o);
    assert Inflight(w') == Inflight(w);
    forall o | o in w'.states && CellOf(w', o).inflight.Some?
      ensures exists c :: c in w'.calls && Carries(w'.calls[c], o, w'.states[o], CellOf(w', o).inflight.value)
    {
      var c :| c in w.calls && Carries(w.calls[c], o, w.states[o], CellOf(w, o).inflight.value);
      assert Carries(w'.calls[c], o, w'.states[o], CellOf(w', o).inflight.value);
    }
  }

  /** The world after a call has taken charge of an idle state with a new channel. */
  function Charged(v: World, call: nat, owner: string, channel: nat): World
    requires owner in v.states && v.states[owner] in v.cells
  {
    var cell := v.states[owner];
    v.(cells := v.cells[cell := v.cells[cell].(inflight := Some(channel))], closes := v.closes[channel := 0],
       calls := v.calls[call := Acquiring(owner, cell, channel)])
  }

  lemma ChargedChannels(v: World, call: nat, owner: string, channel: nat)
    requires Registered(v) && Channels(v) && owner in v.states && CellOf(v, owner).inflight.None? && channel !in v.closes
    ensures Registered(Charged(v, call, owner, channel)) && Channels(Charged(v, call, owner, channel))
  {
    var w' := Charged(v, call, owner, channel);
    assert forall o :: o in v.states && o != owner ==> CellOf(w', o) == CellOf(v, o);
    assert CellOf(w', owner).inflight == Some(channel);
    forall ch | IsOpen(w', ch) ensures ch in Inflight(w') {
      if ch == channel {
        assert owner in w'.states && CellOf(w', owner).inflight.value == ch;
      } else {
        assert IsOpen(v, ch) && ch in Inflight(v);
        var o :| o in v.states && CellOf(v, o).inflight == Some(ch);
        assert o in w'.states && CellOf(w', o).inflight == Some(ch);
      }
    }
  }

  lemma ChargedProbers(v: World, call: nat, owner: string, channel: nat)
    requires Registered(v) && Probers(v) && owner in v.states && CellOf(v, owner).inflight.None? && channel !in v.closes
    requires call in v.calls ==> !Prober(v.calls[call])
    ensures Probers(Charged(v, call, owner, channel))
  {
    var w' := Charged(v, call, owner, channel);
    forall o | o in w'.states && CellOf(w', o).inflight.Some?
      ensures exists c :: c in w'.calls && Carries(w'.calls[c], o, w'.states[o], CellOf(w', o).inflight.value)
    {
      if o == owner {
        assert Carries(w'.calls[call], o, w'.states[o], channel);
      } else {
        assert CellOf(w', o) == CellOf(v, o);
        var c :| c in v.calls && Carries(v.calls[c], o, v.states[o], CellOf(v, o).inflight.value);
        assert Carries(w'.calls[c], o, w'.states[o], CellOf(w', o).inflight.value);
      }
    }
  }

  lemma EnterKeeps(w: World, call: nat, owner: string, now: Time, newCell: nat, channel: nat)
    requires Valid(w) && Enabled(w, Enter(call, owner, now, newCell, channel))
    ensures var w' := EnterStep(w, call, owner, now, newCell, channel); Registered(w') && Channels(w') && Probers(w')
  {
    var v := WithCell(w, owner, newCell);
    var w' := EnterStep(w, call, owner, now, newCell, channel);
    WithCellKeeps(w, owner, newCell);
    StatesDistinct(v);
    hide Registered, Channels, Probers, Slots, Inflight, WithCell, SnapshotForNow;
    var c := CellOf(v, owner);
    if Cached(c, now) || c.inflight.Some? {
      if c.inflight.Some? {
        OpenChannel(v, owner);
      }
      CallPlaced(v, w', call, w'.calls[call]);
    } else {
      ChargedChannels(v, call, owner, channel);
      ChargedProbers(v, call, owner, channel);
    }
  }

  // ---- Probers stay at home ----

  lemma HomeKept(w: World, w': World, call: nat, after: Call)
    requires AtHome(w) && SameChannels(w, w') && call in w.calls && w'.calls == w.calls[call := after]
    requires Prober(after) ==> Prober(w.calls[call]) && Carries(after, w.calls[call].owner, w.calls[call].cell, w.calls[call].channel)
    ensures AtHome(w')
  {
    assert forall o :: o in w.states ==> CellOf(w', o).inflight == CellOf(w, o).inflight;
  }

  lemma CallStepAtHome(w: World, e: Event)
    requires Valid(w) && Enabled(w, e) && MovesACall(e)
    ensures AtHome(Step(w, e))
  {
    var w' := Step(w, e);
    hide Registered, Channels, Probers, Slots, AtHome, Inflight, UnavailableOrCached, SnapshotForNow;
    assert SameChannels(w, w');
    HomeKept(w, w', e.call, w'.calls[e.call]);
  }

  lemma FinishAtHome(w: World, call: nat)
    requires Valid(w) && Enabled(w, Finish(call))
    ensures AtHome(Step(w, Finish(call)))
  {
    var w' := Step(w, Finish(call));
    var me := w.calls[call];
    StatesDistinct(w);
    forall c | c in w'.calls && Prober(w'.calls[c]) && w'.calls[c].owner in w'.states && w'.states[w'.calls[c].owner] == w'.calls[c].cell
      ensures CellOf(w', w'.calls[c].owner).inflight == Some(w'.calls[c].channel)
    {
      assert c != call && w'.calls[c] == w.calls[c] && w.calls[c].channel != me.channel;
    }
  }

  lemma GoneAtHome(w: World, e: Event)
    requires Valid(w) && Enabled(w, e) && (e.Clear? || e.Close?)
    ensures AtHome(Step(w, e))
  {
    var w' := Step(w, e);
    StatesDistinct(w);
    hide Registered, Channels, Probers, Slots, Inflight;
    assert w'.calls == w.calls;
    forall o | o in w'.states ensures o in w.states && w'.states[o] == w.states[o] && CellOf(w', o) == CellOf(w, o) {
    }
  }

  lemma NoProberAtHome(v: World, call: nat, after: Call)
    requires AtHome(v) && !Prober(after)
    ensures AtHome(v.(calls := v.calls[call := after]))
  {
    var w := v.(calls := v.calls[call := after]);
    assert forall o :: CellOf(w, o) == CellOf(v, o);
  }

  lemma ProberAtHome(v: World, call: nat, owner: string, channel: nat)
    requires AtHome(v) && Registered(v) && owner in v.states && CellOf(v, owner).inflight.None?
    ensures AtHome(v.(cells := v.cells[v.states[owner] := CellOf(v, owner).(inflight := Some(channel))], closes := v.closes[channel := 0],
                      calls := v.calls[call := Acquiring(owner, v.states[owner], channel)]))
  {
    StatesDistinct(v);
    hide Registered;
  }

  lemma EnterAtHome(w: World, call: nat, owner: string, now: Time, newCell: nat, channel: nat)
    requires Valid(w) && Enabled(w, Enter(call, owner, now, newCell, channel))
    ensures AtHome(EnterStep(w, call, owner, now, newCell, channel))
  {
    var v := WithCell(w, owner, newCell);
    WithCellAtHome(w, owner, newCell);
    WithCellKeeps(w, owner, newCell);
    assert owner in v.states;
    hide Registered, Channels, Probers, Slots, AtHome, WithCell, SnapshotForNow, Enabled;
    var c := CellOf(v, owner);
    if Cached(c, now) {
      NoProberAtHome(v, call, Over(Some(SnapshotForNow(c.snapshot.value, now, c.failures))));
    } else if c.inflight.Some? {
      NoProberAtHome(v, call, Waiting(owner, c.inflight.value));
    } else {
      ProberAtHome(v, call, owner, channel);
    }
  }

  lemma WithCellAtHome(w: World, owner: string, newCell: nat)
    requires Registered(w) && Probers(w) && AtHome(w) && newCell !in w.cells
    ensures AtHome(WithCell(w, owner, newCell))
  {
    var v := WithCell(w, owner, newCell);
    forall c | c in v.calls && Prober(v.calls[c]) && v.calls[c].owner in v.states && v.states[v.calls[c].owner] == v.calls[c].cell
      ensures CellOf(v, v.calls[c].owner).inflight == Some(v.calls[c].channel)
    {
      assert v.calls[c].cell in w.cells;
    }
  }

  // ---- Runs ----

  lemma StepKeepsValid(w: World, e: Event)
    requires Valid(w) && Enabled(w, e)
    ensures Valid(Step(w, e))
  {
    StepSlots(w, e);
    hide Registered, Channels, Probers, Slots, AtHome, Enabled, EnterStep, FinishStep, ClearStep, CloseStep;
    if MovesACall(e) {
      CallStep(w, e);
      CallStepAtHome(w, e);
    } else {
      match e
      case Enter(call, owner, now, cell, channel) =>
        EnterKeeps(w, call, owner, now, cell, channel);
        EnterAtHome(w, call, owner, now, cell, channel);
      case Finish(call) =>
        FinishKeeps(w, call);
        FinishAtHome(w, call);
      case Clear(owner) =>
        ClearKeeps(w, owner);
        GoneAtHome(w, e);
      case Close =>
        CloseKeeps(w);
        GoneAtHome(w, e);
      case _ =>
    }
  }

  /** A run of steps that were possible when they came. */
  ghost predicate Runs(w: World, events: seq<Event>, after: World)
    decreases |events|
  {
    if events == [] then after == w
    else Enabled(w, events[0]) && Runs(Step(w, events[0]), events[1..], after)
  }

  lemma {:induction false} RunKeepsValid(w: World, events: seq<Event>, after: World)
    requires Valid(w) && Runs(w, events, after)
    ensures Valid(after)
    decreases |events|
  {
    hide Valid, Enabled, Step;
    if events != [] {
      StepKeepsValid(w, events[0]);
      RunKeepsValid(Step(w, events[0]), events[1..], after);
    }
  }

  lemma EmptyIsValid()
    ensures Valid(EMPTY)
  {
    assert Holders(EMPTY) == {};
  }

  // ---- What holds in every reachable world ----

  /** A channel is open exactly while a registered state has it, and is closed at most once. */
  lemma OpenIffInflight(events: seq<Event>, w: World, channel: nat)
    requires Runs(EMPTY, events, w)
    ensures IsOpen(w, channel) <==> exists o :: o in w.states && CellOf(w, o).inflight == Some(channel)
    ensures channel in w.closes ==> w.closes[channel] <= 1
  {
    EmptyIsValid();
    RunKeepsValid(EMPTY, events, w);
    hide Runs, Registered, Probers, AtHome, Slots;
    if IsOpen(w, channel) {
      var o :| o in w.states && CellOf(w, o).inflight == Some(channel);
    }
  }

  /** A registered state has at most one prober, and it has one exactly while it has a channel. */
  lemma OneProberEach(events: seq<Event>, w: World, owner: string)
    requires Runs(EMPTY, events, w) && owner in w.states
    ensures CellOf(w, owner).inflight.Some? <==> exists c :: ProbesFor(w, c, owner)
    ensures forall c, d :: ProbesFor(w, c, owner) && ProbesFor(w, d, owner) ==> c == d
  {
    EmptyIsValid();
    RunKeepsValid(EMPTY, events, w);
    hide Runs, Registered, Channels, Slots;
    if CellOf(w, owner).inflight.Some? {
      var c :| c in w.calls && Carries(w.calls[c], owner, w.states[owner], CellOf(w, owner).inflight.value);
      assert ProbesFor(w, c, owner);
    }
    forall c, d | ProbesFor(w, c, owner) && ProbesFor(w, d, owner) ensures c == d {
      assert w.calls[c].channel == w.calls[d].channel;
    }
  }

  predicate ProbesFor(w: World, call: nat, owner: string) {
    call in w.calls && Prober(w.calls[call]) && w.calls[call].owner == owner && owner in w.states && w.states[owner] == w.calls[call].cell
  }

  lemma FourProbesAtMost(events: seq<Event>, w: World)
    requires Runs(EMPTY, events, w)
    ensures |ProbesOf(w)| <= SLOTS
  {
    EmptyIsValid();
    RunKeepsValid(EMPTY, events, w);
    hide Runs, Registered, Channels, Probers, AtHome;
    Smaller(ProbesOf(w), Holders(w));
  }

  function ProbesOf(w: World): set<nat> {
    set c | c in w.calls && w.calls[c].Probing?
  }

  lemma {:induction false} Smaller(a: set<nat>, b: set<nat>)
    requires a <= b
    ensures |a| <= |b|
  {
    if a != {} {
      var x :| x in a;
      Smaller(a - {x}, b - {x});
    }
  }

  // ---- Nobody waits for ever ----

  /** The steps that take a prober to the close of its channel, its slot apart. */
  function Ending(c: Call, call: nat, now: Time): seq<Event> {
    match c
    case Acquiring(_, _, _) => [Acquire(call), Failed(call, now), Finish(call)]
    case Probing(_, _, _) => [Failed(call, now), Finish(call)]
    case _ => [Finish(call)]
  }

  /** The steps that free the slot of a holder. */
  function Freeing(c: Call, call: nat, now: Time): seq<Event> {
    match c
    case Probing(_, _, _) => [Failed(call, now), Finish(call), Release(call)]
    case Finishing(_, _, _, _) => [Finish(call), Release(call)]
    case _ => [Release(call)]
  }

  lemma FinishCloses(w: World, call: nat)
    requires Valid(w) && Enabled(w, Finish(call))
    ensures !IsOpen(Step(w, Finish(call)), w.calls[call].channel)
  {
    var ch := w.calls[call].channel;
    if !StillMine(w, w.calls[call].owner, w.calls[call].cell, ch) {
      NotMine(w, call);
      assert ch !in Inflight(w);
    }
  }

  lemma RunsFirst(w: World, e: Event, rest: seq<Event>, after: World)
    requires Enabled(w, e) && Runs(Step(w, e), rest, after)
    ensures Runs(w, [e] + rest, after)
  {
    hide Enabled, Step;
    assert ([e] + rest)[1..] == rest;
  }

  /** A call that probes, or may take a slot to probe, moves on. */
  lemma ProbeMoves(w: World, call: nat, now: Time)
    requires Probers(w) && call in w.calls && (w.calls[call].Probing? || (w.calls[call].Acquiring? && w.slots < SLOTS))
    ensures var c := w.calls[call]; var e := if c.Acquiring? then Acquire(call) else Failed(call, now);
      && Enabled(w, e) && call in Step(w, e).calls
      && var d := Step(w, e).calls[call];
      Step(w, e).calls == w.calls[call := d] && (if c.Acquiring? then d.Probing? else d.Finishing?) && d.channel == c.channel
  {
    hide UnavailableOrCached;
  }

  lemma FinishMoves(w: World, call: nat)
    requires call in w.calls && (w.calls[call].Finishing? || w.calls[call].Leaving?)
    ensures Enabled(w, Finish(call)) && call in Step(w, Finish(call)).calls
    ensures var d := Step(w, Finish(call)).calls[call];
      Step(w, Finish(call)).calls == w.calls[call := d] && (w.calls[call].Finishing? ==> d.Releasing?)
  {}

  lemma ReleaseMoves(w: World, call: nat)
    requires Valid(w) && call in w.calls && w.calls[call].Releasing?
    ensures Enabled(w, Release(call)) && Step(w, Release(call)).slots < SLOTS
    ensures forall c :: c in w.calls && c != call ==> c in Step(w, Release(call)).calls && Step(w, Release(call)).calls[c] == w.calls[c]
  {
    HolderHasSlot(w, call);
    hide Registered, Channels, Probers, AtHome;
  }

  /** From a valid world the steps of a prober that needs no slot, or can have one, close its channel. */
  lemma ProberCloses(w: World, call: nat, now: Time) returns (after: World)
    requires Valid(w) && call in w.calls && Prober(w.calls[call]) && (w.calls[call].Acquiring? ==> w.slots < SLOTS)
    ensures Runs(w, Ending(w.calls[call], call, now), after) && Valid(after) && !IsOpen(after, w.calls[call].channel)
    decreases if w.calls[call].Acquiring? then 2 else if w.calls[call].Probing? then 1 else 0
  {
    var c := w.calls[call];
    assert Probers(w);
    hide Valid, Probers, Step, Runs, IsOpen;
    if c.Leaving? || c.Finishing? {
      StepKeepsValid(w, Finish(call));
      FinishCloses(w, call);
      after := Step(w, Finish(call));
      NoRun(after);
      RunsFirst(w, Finish(call), [], after);
    } else {
      var e := if c.Acquiring? then Acquire(call) else Failed(call, now);
      ProbeMoves(w, call, now);
      StepKeepsValid(w, e);
      hide Enabled;
      after := ProberCloses(Step(w, e), call, now);
      RunsFirst(w, e, Ending(Step(w, e).calls[call], call, now), after);
    }
  }

  lemma NoRun(w: World)
    ensures Runs(w, [], w)
  {}

  /** All other calls stand where they stood. */
  ghost predicate OthersStay(w: World, v: World, call: nat) {
    forall c :: c in w.calls && c != call ==> c in v.calls && v.calls[c] == w.calls[c]
  }

  lemma OthersStayOn(w: World, u: World, v: World, call: nat)
    requires OthersStay(w, u, call) && OthersStay(u, v, call)
    ensures OthersStay(w, v, call)
  {}

  /** A holder takes one step towards giving its slot back. */
  lemma HolderMoves(w: World, h: nat, now: Time)
    requires Probers(w) && h in w.calls && (w.calls[h].Probing? || w.calls[h].Finishing?)
    ensures var c := w.calls[h]; var e := if c.Probing? then Failed(h, now) else Finish(h);
      && Enabled(w, e) && h in Step(w, e).calls && OthersStay(w, Step(w, e), h)
      && Freeing(c, h, now) == [e] + Freeing(Step(w, e).calls[h], h, now)
      && (if c.Probing? then Step(w, e).calls[h].Finishing? else Step(w, e).calls[h].Releasing?)
  {
    if w.calls[h].Probing? {
      ProbeMoves(w, h, now);
    } else {
      FinishMoves(w, h);
    }
    hide Step, Enabled;
  }

  lemma HolderFrees(w: World, h: nat, now: Time) returns (after: World)
    requires Valid(w) && h in w.calls && Holds(w.calls[h])
    ensures Runs(w, Freeing(w.calls[h], h, now), after) && Valid(after) && after.slots < SLOTS && OthersStay(w, after, h)
    decreases if w.calls[h].Probing? then 2 else if w.calls[h].Finishing? then 1 else 0
  {
    var c := w.calls[h];
    assert Probers(w);
    if c.Releasing? {
      ReleaseMoves(w, h);
      hide Valid, Probers, Step, Runs;
      StepKeepsValid(w, Release(h));
      after := Step(w, Release(h));
      NoRun(after);
      RunsFirst(w, Release(h), [], after);
    } else {
      hide Valid, Probers, Step, Runs, Enabled, OthersStay, Freeing;
      var e := if c.Probing? then Failed(h, now) else Finish(h);
      HolderMoves(w, h, now);
      StepKeepsValid(w, e);
      after := HolderFrees(Step(w, e), h, now);
      OthersStayOn(w, Step(w, e), after, h);
      RunsFirst(w, e, Freeing(Step(w, e).calls[h], h, now), after);
    }
  }

  lemma HolderHasSlot(w: World, h: nat)
    requires Valid(w) && h in w.calls && Holds(w.calls[h])
    ensures w.slots > 0
  {
    assert h in Holders(w);
  }

  lemma {:induction false} RunsJoin(w: World, a: seq<Event>, v: World, b: seq<Event>, u: World)
    requires Runs(w, a, v) && Runs(v, b, u)
    ensures Runs(w, a + b, u)
    decreases |a|
  {
    hide Enabled, Step;
    if a == [] {
      assert a + b == b;
    } else {
      RunsJoin(Step(w, a[0]), a[1..], v, b, u);
      assert (a + b)[1..] == a[1..] + b;
    }
  }

  /** The prober a waiting call waits for. */
  lemma WaitedFor(w: World, waiter: nat) returns (prober: nat)
    requires Valid(w) && waiter in w.calls && w.calls[waiter].Waiting? && IsOpen(w, w.calls[waiter].channel)
    ensures prober in w.calls && Prober(w.calls[prober]) && w.calls[prober].channel == w.calls[waiter].channel
  {
    var ch := w.calls[waiter].channel;
    assert ch in Inflight(w);
    var o :| o in w.states && CellOf(w, o).inflight == Some(ch);
    prober :| prober in w.calls && Carries(w.calls[prober], o, w.states[o], ch);
  }

  lemma SomeHolder(w: World) returns (h: nat)
    requires Valid(w) && w.slots == SLOTS
    ensures h in w.calls && Holds(w.calls[h])
  {
    assert Holders(w) != {};
    h :| h in Holders(w);
  }

  /** Only steps of one call, and not its first. */
  predicate StepsOf(run: seq<Event>, call: nat) {
    forall i :: 0 <= i < |run| ==> !run[i].Enter? && !run[i].Clear? && !run[i].Close? && run[i].call == call
  }

  lemma Shapes(c: Call, call: nat, now: Time)
    ensures |Ending(c, call, now)| <= 3 && StepsOf(Ending(c, call, now), call)
    ensures |Freeing(c, call, now)| <= 3 && StepsOf(Freeing(c, call, now), call)
  {}

  /** The same when the prober still needs a slot and all are taken: a holder frees its own first. */
  lemma ServedAfterHolder(w: World, prober: nat, now: Time) returns (holder: nat, run: seq<Event>, after: World)
    requires Valid(w) && prober in w.calls && w.calls[prober].Acquiring? && w.slots >= SLOTS
    ensures holder in w.calls && Holds(w.calls[holder])
    ensures run == Freeing(w.calls[holder], holder, now) + Ending(w.calls[prober], prober, now)
    ensures Runs(w, run, after) && !IsOpen(after, w.calls[prober].channel)
  {
    SlotsFull(w);
    holder := SomeHolder(w);
    var c := w.calls[prober];
    hide Registered, Channels, Probers, AtHome, Slots, Step, Enabled, Runs, Freeing, Ending, IsOpen;
    var v := HolderFrees(w, holder, now);
    assert v.calls[prober] == c;
    after := ProberCloses(v, prober, now);
    run := Freeing(w.calls[holder], holder, now) + Ending(c, prober, now);
    RunsJoin(w, Freeing(w.calls[holder], holder, now), v, Ending(c, prober, now), after);
  }

  /** No waiter is lost: whoever waits on an open channel, at most six steps of other calls close it. */
  lemma WaiterIsServed(w: World, waiter: nat, now: Time) returns (run: seq<Event>, after: World)
    requires Valid(w) && waiter in w.calls && w.calls[waiter].Waiting? && IsOpen(w, w.calls[waiter].channel)
    ensures |run| <= 6 && Runs(w, run, after) && !IsOpen(after, w.calls[waiter].channel)
    ensures forall i :: 0 <= i < |run| ==> !run[i].Enter? && !run[i].Clear? && !run[i].Close? && run[i].call != waiter
  {
    var prober := WaitedFor(w, waiter);
    var c := w.calls[prober];
    hide Registered, Channels, Probers, AtHome, Slots, Step, Enabled, Runs, Freeing, Ending, IsOpen;
    Shapes(c, prober, now);
    if c.Acquiring? && w.slots >= SLOTS {
      var h;
      h, run, after := ServedAfterHolder(w, prober, now);
      Shapes(w.calls[h], h, now);
    } else {
      after := ProberCloses(w, prober, now);
      run := Ending(c, prober, now);
    }
  }

  lemma SlotsFull(w: World)
    requires Valid(w) && w.slots >= SLOTS
    ensures w.slots == SLOTS
  {}

  /** Dropping an owner or shutting down wakes the waiters at once. */
  lemma ClearWakes(w: World, owner: string)
    requires Valid(w) && owner in w.states && CellOf(w, owner).inflight.Some?
    ensures !IsOpen(Step(w, Clear(owner)), CellOf(w, owner).inflight.value)
    ensures forall ch :: !IsOpen(Step(w, Close), ch)
  {
    CloseKeeps(w);
  }
}
