/** The remote monitor: one probe at a time for each owner, and callers that wait for it on a channel.
    Every critical section of the service mutex and every channel operation is one step. */
module RemoteMonitor {
  import opened Common

  /** A point in time in nanoseconds. */
  type Time = int

  const CACHE_TTL := 4000000000
  const STALE_AGE_MS := 15000
  const MILLISECOND := 1000000
  const SLOTS := 4

  /** The metrics of a sample are opaque. */
  datatype Snapshot = Snapshot(status: string, sampledAt: Option<Time>, ageMs: Option<nat>, metrics: int)

  const NO_SNAPSHOT := Snapshot("unavailable", None, None, 0)

  /** The state of an owner; the channel is that of the probe under way. */
  datatype Cell = Cell(snapshot: Option<Snapshot>, lastGood: Time, failures: nat, inflight: Option<nat>)

  const NEW_CELL := Cell(None, 0, 0, None)

  /** Where a call stands. */
  datatype Call =
    | Waiting(owner: string, channel: nat)
    | Acquiring(owner: string, cell: nat, channel: nat)
    | Probing(owner: string, cell: nat, channel: nat)
    | Leaving(owner: string, cell: nat, channel: nat, result: Snapshot)
    | Finishing(owner: string, cell: nat, channel: nat, result: Snapshot)
    | Releasing(result: Snapshot)
    | Over(answer: Option<Snapshot>)

  /** For each channel made: how often it was closed. */
  datatype World = World(states: map<string, nat>, cells: map<nat, Cell>, closes: map<nat, nat>, calls: map<nat, Call>, slots: nat)

  const EMPTY := World(map[], map[], map[], map[], 0)

  datatype Event =
    | Enter(call: nat, owner: string, now: Time, newCell: nat, newChannel: nat)
    | Cancel(call: nat)
    | Acquire(call: nat)
    | GiveUp(call: nat, now: Time)
    | Sampled(call: nat, sample: Snapshot, now: Time)
    | Failed(call: nat, now: Time)
    | Finish(call: nat)
    | Release(call: nat)
    | Clear(owner: string)
    | Close

  // ---- What a caller gets ----

  function SnapshotForNow(s: Snapshot, now: Time, failures: nat): Snapshot {
    if s.sampledAt.None? then s
    else
      var elapsed := now - s.sampledAt.value;
      var age := if elapsed < 0 then 0 else elapsed / MILLISECOND;
      s.(ageMs := Some(age),
         status := if failures >= 3 then "unavailable" else if age > STALE_AGE_MS then "stale" else s.status)
  }

  function UnavailableOrCached(c: Cell, now: Time): Snapshot {
    if c.snapshot.None? then NO_SNAPSHOT else SnapshotForNow(c.snapshot.value, now, c.failures)
  }

  predicate Cached(c: Cell, now: Time) {
    c.snapshot.Some? && now - c.lastGood < CACHE_TTL
  }

  // ---- Steps ----

  predicate Prober(c: Call) {
    c.Acquiring? || c.Probing? || c.Leaving? || c.Finishing?
  }

  predicate Holds(c: Call) {
    c.Probing? || c.Finishing? || c.Releasing?
  }

  predicate IsOpen(w: World, channel: nat) {
    channel in w.closes && w.closes[channel] == 0
  }

  function CellOf(w: World, owner: string): Cell {
    if owner in w.states && w.states[owner] in w.cells then w.cells[w.states[owner]] else NEW_CELL
  }

  function CloseChannel(w: World, channel: nat): World {
    w.(closes := w.closes[channel := (if channel in w.closes then w.closes[channel] else 0) + 1])
  }

  /** A new call, or a waiting one whose channel is closed. */
  predicate MayEnter(w: World, call: nat, owner: string) {
    call in w.calls ==> w.calls[call].Waiting? && w.calls[call].owner == owner && !IsOpen(w, w.calls[call].channel)
  }

  predicate Enabled(w: World, e: Event) {
    match e
    case Enter(call, owner, _, cell, channel) => MayEnter(w, call, owner) && cell !in w.cells && channel !in w.closes
    case Cancel(call) => call in w.calls && w.calls[call].Waiting?
    case Acquire(call) => call in w.calls && w.calls[call].Acquiring? && w.slots < SLOTS
    case GiveUp(call, _) => call in w.calls && w.calls[call].Acquiring? && w.calls[call].cell in w.cells
    case Sampled(call, _, _) => call in w.calls && w.calls[call].Probing? && w.calls[call].cell in w.cells
    case Failed(call, _) => call in w.calls && w.calls[call].Probing? && w.calls[call].cell in w.cells
    case Finish(call) => call in w.calls && (w.calls[call].Finishing? || w.calls[call].Leaving?)
    case Release(call) => call in w.calls && w.calls[call].Releasing? && w.slots > 0
    case Clear(_) => true
    case Close => true
  }

  function WithCell(w: World, owner: string, newCell: nat): World {
    if owner in w.states then w else w.(states := w.states[owner := newCell], cells := w.cells[newCell := NEW_CELL])
  }

  function EnterStep(w: World, call: nat, owner: string, now: Time, newCell: nat, channel: nat): World {
    var v := WithCell(w, owner, newCell);
    var c := CellOf(v, owner);
    if Cached(c, now) then v.(calls := v.calls[call := Over(Some(SnapshotForNow(c.snapshot.value, now, c.failures)))])
    else if c.inflight.Some? then v.(calls := v.calls[call := Waiting(owner, c.inflight.value)])
    else
      v.(cells := v.cells[v.states[owner] := c.(inflight := Some(channel))], closes := v.closes[channel := 0],
         calls := v.calls[call := Acquiring(owner, v.states[owner], channel)])
  }

  /** Closes the channel only if its state is still registered with it. */
  predicate StillMine(w: World, owner: string, cell: nat, channel: nat) {
    owner in w.states && w.states[owner] == cell && cell in w.cells && w.cells[cell].inflight == Some(channel)
  }

  function FinishStep(w: World, owner: string, cell: nat, channel: nat): World {
    if StillMine(w, owner, cell, channel)
    then CloseChannel(w, channel).(cells := w.cells[cell := w.cells[cell].(inflight := None)])
    else w
  }

  function ClearStep(w: World, owner: string): World {
    if owner !in w.states then w
    else if w.states[owner] !in w.cells || w.cells[w.states[owner]].inflight.None? then w.(states := w.states - {owner})
    else
      var cell := w.states[owner];
      CloseChannel(w, w.cells[cell].inflight.value).(cells := w.cells[cell := w.cells[cell].(inflight := None)], states := w.states - {owner})
  }

  /** The channels of the registered states. */
  function Inflight(w: World): set<nat> {
    set owner | owner in w.states && CellOf(w, owner).inflight.Some? :: CellOf(w, owner).inflight.value
  }

  function CloseStep(w: World): World {
    w.(closes := map ch | ch in w.closes :: if ch in Inflight(w) then w.closes[ch] + 1 else w.closes[ch], states := map[])
  }

  function Step(w: World, e: Event): World
    requires Enabled(w, e)
  {
    match e
    case Enter(call, owner, now, cell, channel) => EnterStep(w, call, owner, now, cell, channel)
    case Cancel(call) => w.(calls := w.calls[call := Over(None)])
    case Acquire(call) =>
      var c := w.calls[call];
      w.(calls := w.calls[call := Probing(c.owner, c.cell, c.channel)], slots := w.slots + 1)
    case GiveUp(call, now) =>
      var c := w.calls[call];
      var result := UnavailableOrCached(w.cells[c.cell], now);
      if w.cells[c.cell].inflight == Some(c.channel) then w.(calls := w.calls[call := Leaving(c.owner, c.cell, c.channel, result)])
      else w.(calls := w.calls[call := Over(Some(result))])
    case Sampled(call, sample, now) =>
      var c := w.calls[call];
      var s := sample.(sampledAt := Some(now));
      w.(cells := w.cells[c.cell := w.cells[c.cell].(snapshot := Some(s), lastGood := now, failures := 0)],
         calls := w.calls[call := Finishing(c.owner, c.cell, c.channel, s)])
    case Failed(call, now) =>
      var c := w.calls[call];
      var cell := w.cells[c.cell].(failures := w.cells[c.cell].failures + 1);
      w.(cells := w.cells[c.cell := cell], calls := w.calls[call := Finishing(c.owner, c.cell, c.channel, UnavailableOrCached(cell, now))])
    case Finish(call) =>
      var c := w.calls[call];
      FinishStep(w, c.owner, c.cell, c.channel).(calls := w.calls[call := if c.Leaving? then Over(Some(c.result)) else Releasing(c.result)])
    case Release(call) => w.(calls := w.calls[call := Over(Some(w.calls[call].result))], slots := w.slots - 1)
    case Clear(owner) => ClearStep(w, owner)
    case Close => CloseStep(w)
  }

  // ---- The invariant ----

  /** Registered states are distinct and known. */
  ghost predicate Registered(w: World) {
    && (forall o :: o in w.states ==> w.states[o] in w.cells)
    && (forall o, p :: o in w.states && p in w.states && o != p ==> w.states[o] != w.states[p])
  }

  /** A channel is open exactly while it is that of a registered state, and none is closed twice. */
  ghost predicate Channels(w: World) {
    && (forall o :: o in w.states && CellOf(w, o).inflight.Some? ==> IsOpen(w, CellOf(w, o).inflight.value))
    && (forall ch :: IsOpen(w, ch) ==> ch in Inflight(w))
    && (forall ch :: ch in w.closes ==> w.closes[ch] <= 1)
  }

  /** Each open channel has the one call that will close it. */
  ghost predicate Probers(w: World) {
    && (forall c :: c in w.calls && Prober(w.calls[c]) ==> w.calls[c].cell in w.cells && w.calls[c].channel in w.closes)
    && (forall c, d :: c in w.calls && d in w.calls && c != d && Prober(w.calls[c]) && Prober(w.calls[d]) ==> w.calls[c].channel != w.calls[d].channel)
    && (forall o :: o in w.states && CellOf(w, o).inflight.Some? ==> exists c :: c in w.calls && Carries(w.calls[c], o, w.states[o], CellOf(w, o).inflight.value))
    && (forall c :: c in w.calls && w.calls[c].Waiting? ==> w.calls[c].channel in w.closes)
  }

  /** A prober of a registered state has that state's channel. */
  ghost predicate AtHome(w: World) {
    forall c :: c in w.calls && Prober(w.calls[c]) && w.calls[c].owner in w.states && w.states[w.calls[c].owner] == w.calls[c].cell ==>
      CellOf(w, w.calls[c].owner).inflight == Some(w.calls[c].channel)
  }

  predicate Carries(c: Call, owner: string, cell: nat, channel: nat) {
    Prober(c) && c.owner == owner && c.cell == cell && c.channel == channel
  }

  function Holders(w: World): set<nat> {
    set c | c in w.calls && Holds(w.calls[c])
  }

  ghost predicate Slots(w: World) {
    w.slots == |Holders(w)| && w.slots <= SLOTS
  }

  ghost predicate Valid(w: World) {
    Registered(w) && Channels(w) && Probers(w) && AtHome(w) && Slots(w)
  }
}
