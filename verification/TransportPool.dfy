/** The pool of SSH control transports: an owner, instances derived from it, and auxiliary channels.
    Every critical section of the pool's lock is one step. */
module TransportPool {
  import opened Common

  /** One transport object. It is named by the id of its owner, which no other transport has. */
  datatype Transport = Transport(
    alias: string, revision: string, state: string,
    channels: int, auxiliary: int, ownerClosed: bool, draining: bool)

  predicate AcceptsReuse(t: Transport) {
    t.channels > 0 && !t.draining
  }

  /** Auxiliary channels may use a transport whose source has changed. */
  predicate AcceptsAuxiliary(t: Transport) {
    t.channels > 0
  }

  /** The pool: the objects ever made, those registered, and which object an instance uses.
      Beside it the history that the code does not keep: who holds an auxiliary channel, what was stopped how often,
      which owners were taken off the register because they could not be created, which instances are being created, and
      whether the pool was shut down. */
  datatype Pool = Pool(
    objects: map<string, Transport>, transports: set<string>, instances: map<string, string>,
    leases: map<nat, string>, stops: map<string, nat>, failedOwners: set<string>, creating: map<string, string>, down: bool)

  const EMPTY := Pool(map[], {}, map[], map[], map[], {}, map[], false)

  function Stops(p: Pool, owner: string): nat {
    if owner in p.stops then p.stops[owner] else 0
  }

  function Stop(p: Pool, owner: string): Pool {
    p.(stops := p.stops[owner := Stops(p, owner) + 1])
  }

  /** A transport goes off the register and is stopped. */
  function Dropped(p: Pool, owner: string): (q: Pool)
    ensures q.objects == p.objects && q.instances == p.instances && q.leases == p.leases
    ensures q.failedOwners == p.failedOwners && q.creating == p.creating
  {
    p.(transports := p.transports - {owner}, stops := p.stops[owner := Stops(p, owner) + 1])
  }

  // ---- The steps ----

  datatype Event =
    | RegisterOwner(owner: string, alias: string, revision: string)
    | OwnerFailed(owner: string)
    | Reuse(owner: string, id: string)
    | ReuseFailed(owner: string, id: string)
    | Created(id: string)
    | Finish(id: string)
    | Reserve(owner: string, lease: nat)
    | Release(lease: nat)
    | Drain(owner: string, state: string)
    | Shutdown

  /** What the callers of a step guarantee: ids and leases are fresh, a rollback ends a creation that has neither succeeded
      nor exited, and a lease is released once. Creations and their rollbacks may come after a shutdown. */
  predicate Enabled(p: Pool, e: Event) {
    match e
    case RegisterOwner(owner, _, _) => owner !in p.objects && owner !in p.instances && owner !in p.creating
    case OwnerFailed(owner) => owner in p.creating && p.creating[owner] == owner
    case Reuse(owner, id) => owner in p.objects && id !in p.objects && id !in p.instances && id !in p.creating
    case ReuseFailed(owner, id) => owner in p.objects && id != owner && id in p.creating && p.creating[id] == owner
    case Created(id) => id in p.creating
    case Finish(_) => true
    case Reserve(owner, lease) => owner in p.objects && lease !in p.leases
    case Release(lease) => lease in p.leases
    case Drain(owner, _) => owner in p.objects
    case Shutdown => true
  }

  function Done(t: Transport): bool {
    t.ownerClosed && t.channels == 0 && t.auxiliary == 0
  }

  function FinishObject(t: Transport, isOwner: bool): Transport {
    t.(channels := if t.channels > 0 then t.channels - 1 else t.channels, ownerClosed := t.ownerClosed || isOwner)
  }

  function FinishStep(p: Pool, id: string): Pool {
    if id !in p.instances || p.instances[id] !in p.objects then p.(instances := p.instances - {id}, creating := p.creating - {id})
    else
      var owner := p.instances[id];
      var t := FinishObject(p.objects[owner], id == owner);
      var q := p.(instances := p.instances - {id}, creating := p.creating - {id}, objects := p.objects[owner := t]);
      if Done(t) then Dropped(q, owner) else q
  }

  function ReleaseObject(t: Transport): Transport {
    t.(auxiliary := if t.auxiliary > 0 then t.auxiliary - 1 else t.auxiliary)
  }

  function ReleaseStep(p: Pool, lease: nat): Pool
    requires lease in p.leases
  {
    var owner := p.leases[lease];
    if owner !in p.objects then p.(leases := p.leases - {lease})
    else
      var t := ReleaseObject(p.objects[owner]);
      var q := p.(leases := p.leases - {lease}, objects := p.objects[owner := t]);
      if Done(t) && owner in q.transports then Dropped(q, owner) else q
  }

  function StopAll(stops: map<string, nat>, owners: set<string>): map<string, nat> {
    map owner | owner in stops.Keys + owners ::
      (if owner in stops then stops[owner] else 0) + (if owner in owners then 1 else 0)
  }

  function Step(p: Pool, e: Event): Pool
    requires Enabled(p, e)
  {
    match e
    case RegisterOwner(owner, alias, revision) =>
      p.(objects := p.objects[owner := Transport(alias, revision, "current", 1, 0, false, false)],
         transports := p.transports + {owner}, instances := p.instances[owner := owner], creating := p.creating[owner := owner])
    case OwnerFailed(owner) =>
      p.(instances := p.instances - {owner}, transports := p.transports - {owner}, creating := p.creating - {owner},
         failedOwners := if owner in p.transports then p.failedOwners + {owner} else p.failedOwners)
    case Reuse(owner, id) =>
      var t := p.objects[owner];
      if !AcceptsReuse(t) then p
      else p.(objects := p.objects[owner := t.(channels := t.channels + 1)], instances := p.instances[id := owner], creating := p.creating[id := owner])
    case ReuseFailed(owner, id) =>
      var t := p.objects[owner];
      p.(objects := p.objects[owner := t.(channels := t.channels - 1)], instances := p.instances - {id}, creating := p.creating - {id})
    case Created(id) => p.(creating := p.creating - {id})
    case Finish(id) => FinishStep(p, id)
    case Reserve(owner, lease) =>
      var t := p.objects[owner];
      if owner !in p.transports || !AcceptsAuxiliary(t) then p
      else p.(objects := p.objects[owner := t.(auxiliary := t.auxiliary + 1)], leases := p.leases[lease := owner])
    case Release(lease) => ReleaseStep(p, lease)
    case Drain(owner, state) =>
      p.(objects := p.objects[owner := p.objects[owner].(draining := true, state := state)])
    case Shutdown =>
      p.(transports := {}, instances := map[], stops := StopAll(p.stops, p.transports), down := true)
  }

  // ---- What every step keeps ----

  function Users(p: Pool, owner: string): set<string> {
    set id | id in p.instances && p.instances[id] == owner
  }

  function Holders(p: Pool, owner: string): set<nat> {
    set lease | lease in p.leases && p.leases[lease] == owner
  }

  /** The books of one transport balance. */
  ghost predicate Balanced(p: Pool, owner: string)
    requires owner in p.objects
  {
    var t := p.objects[owner];
    && t.channels == |Users(p, owner)| + (if owner in p.failedOwners then 1 else 0)
    && t.auxiliary == |Holders(p, owner)|
    && (owner in p.failedOwners ==> owner !in p.instances && !t.ownerClosed && owner !in p.transports && Stops(p, owner) == 0)
    && (owner !in p.failedOwners ==> (t.ownerClosed <==> owner !in p.instances))
    && (owner in p.instances ==> p.instances[owner] == owner)
    && (owner !in p.failedOwners ==> (owner in p.transports <==> Stops(p, owner) == 0))
    && Stops(p, owner) <= 1
    && (Stops(p, owner) == 1 ==> Done(t))
  }

  /** Nothing refers to a transport that was never made. */
  ghost predicate Closed(p: Pool) {
    && (forall id :: id in p.instances ==> p.instances[id] in p.objects && (id in p.objects ==> p.instances[id] == id))
    && (forall lease :: lease in p.leases ==> p.leases[lease] in p.objects)
    && (forall id :: id in p.creating ==> id in p.instances && p.instances[id] == p.creating[id])
    && p.transports <= p.objects.Keys && p.failedOwners <= p.objects.Keys && p.stops.Keys <= p.objects.Keys
    && !p.down
  }

  /** Before the pool is shut down. */
  ghost predicate Valid(p: Pool) {
    Closed(p) && forall owner :: owner in p.objects ==> Balanced(p, owner)
  }

  lemma Frame(p: Pool, q: Pool, owner: string)
    requires owner in p.objects && Balanced(p, owner)
    requires owner in q.objects && q.objects[owner] == p.objects[owner]
    requires Users(q, owner) == Users(p, owner) && Holders(q, owner) == Holders(p, owner)
    requires owner in q.failedOwners <==> owner in p.failedOwners
    requires owner in q.transports <==> owner in p.transports
    requires owner in q.instances <==> owner in p.instances
    requires owner in q.instances ==> q.instances[owner] == p.instances[owner]
    requires Stops(q, owner) == Stops(p, owner)
    ensures Balanced(q, owner)
  {}

  lemma UsersWithout(p: Pool, q: Pool, id: string, owner: string)
    requires q.instances == p.instances - {id}
    ensures Users(q, owner) == Users(p, owner) - {id}
    ensures id in Users(p, owner) <==> id in p.instances && p.instances[id] == owner
  {}

  lemma UsersWith(p: Pool, q: Pool, id: string, to: string, owner: string)
    requires id !in p.instances && q.instances == p.instances[id := to]
    ensures Users(q, owner) == if owner == to then Users(p, owner) + {id} else Users(p, owner)
    ensures id !in Users(p, owner)
  {}

  lemma HoldersWithout(p: Pool, q: Pool, lease: nat, owner: string)
    requires q.leases == p.leases - {lease}
    ensures Holders(q, owner) == Holders(p, owner) - {lease}
    ensures lease in Holders(p, owner) <==> lease in p.leases && p.leases[lease] == owner
  {}

  lemma HoldersWith(p: Pool, q: Pool, lease: nat, to: string, owner: string)
    requires lease !in p.leases && q.leases == p.leases[lease := to]
    ensures Holders(q, owner) == if owner == to then Holders(p, owner) + {lease} else Holders(p, owner)
    ensures lease !in Holders(p, owner)
  {}

  lemma RegisterBalance(p: Pool, owner: string, alias: string, revision: string, o: string)
    requires Closed(p) && Enabled(p, RegisterOwner(owner, alias, revision)) && (o in p.objects ==> Balanced(p, o)) && (o in p.objects || o == owner)
    ensures Balanced(Step(p, RegisterOwner(owner, alias, revision)), o)
  {
    var q := Step(p, RegisterOwner(owner, alias, revision));
    UsersWith(p, q, owner, owner, o);
    assert Holders(q, o) == Holders(p, o);
    if o != owner {
      hide Users, Holders, Balanced, Closed;
      Frame(p, q, o);
    } else {
      assert Users(p, owner) == {} && Holders(p, owner) == {};
      assert Stops(q, owner) == Stops(p, owner) == 0 && owner !in p.failedOwners;
      hide Users, Holders, Closed, Stops;
    }
  }

  lemma RegisterKeepsValid(p: Pool, owner: string, alias: string, revision: string)
    requires Valid(p) && Enabled(p, RegisterOwner(owner, alias, revision))
    ensures Valid(Step(p, RegisterOwner(owner, alias, revision)))
  {
    hide Balanced;
    var q := Step(p, RegisterOwner(owner, alias, revision));
    forall o | o in q.objects ensures Balanced(q, o) {
      RegisterBalance(p, owner, alias, revision, o);
    }
  }

  lemma OwnerFailedBalance(p: Pool, owner: string, o: string)
    requires Closed(p) && o in p.objects && owner in p.objects && Balanced(p, o) && Balanced(p, owner) && Enabled(p, OwnerFailed(owner))
    ensures Balanced(Step(p, OwnerFailed(owner)), o)
  {
    var q := Step(p, OwnerFailed(owner));
    UsersWithout(p, q, owner, o);
    assert Holders(q, o) == Holders(p, o);
    if o != owner {
      assert Users(q, o) == Users(p, o);
      Frame(p, q, o);
    }
  }

  lemma OwnerFailedKeepsValid(p: Pool, owner: string)
    requires Valid(p) && Enabled(p, OwnerFailed(owner))
    ensures Valid(Step(p, OwnerFailed(owner)))
  {
    hide Balanced;
    forall o | o in p.objects {
      OwnerFailedBalance(p, owner, o);
    }
  }

  lemma ReuseBalance(p: Pool, owner: string, id: string, o: string)
    requires o in p.objects && Balanced(p, o) && Enabled(p, Reuse(owner, id)) && AcceptsReuse(p.objects[owner])
    ensures Balanced(Step(p, Reuse(owner, id)), o)
  {
    var q := Step(p, Reuse(owner, id));
    UsersWith(p, q, id, owner, o);
    assert Holders(q, o) == Holders(p, o);
    if o != owner {
      Frame(p, q, o);
    }
  }

  lemma ReuseStaysClosed(p: Pool, owner: string, id: string)
    requires Closed(p) && Enabled(p, Reuse(owner, id))
    ensures Closed(Step(p, Reuse(owner, id))) && Step(p, Reuse(owner, id)).objects.Keys == p.objects.Keys
    ensures !AcceptsReuse(p.objects[owner]) ==> Step(p, Reuse(owner, id)) == p
  {}

  lemma ReuseKeepsValid(p: Pool, owner: string, id: string)
    requires Valid(p) && Enabled(p, Reuse(owner, id))
    ensures Valid(Step(p, Reuse(owner, id)))
  {
    ReuseStaysClosed(p, owner, id);
    hide Balanced, Closed, Step;
    if AcceptsReuse(p.objects[owner]) {
      forall o | o in p.objects ensures Balanced(Step(p, Reuse(owner, id)), o) {
        ReuseBalance(p, owner, id, o);
      }
    }
  }

  lemma ReuseFailedBalance(p: Pool, owner: string, id: string, o: string)
    requires o in p.objects && Balanced(p, o) && Enabled(p, ReuseFailed(owner, id)) && Closed(p)
    ensures Balanced(Step(p, ReuseFailed(owner, id)), o)
  {
    var q := Step(p, ReuseFailed(owner, id));
    UsersWithout(p, q, id, o);
    assert Holders(q, o) == Holders(p, o);
    if o != owner {
      assert Users(q, o) == Users(p, o);
      Frame(p, q, o);
    }
  }

  lemma ReuseFailedKeepsValid(p: Pool, owner: string, id: string)
    requires Valid(p) && Enabled(p, ReuseFailed(owner, id))
    ensures Valid(Step(p, ReuseFailed(owner, id)))
  {
    hide Balanced;
    forall o | o in p.objects {
      ReuseFailedBalance(p, owner, id, o);
    }
  }

  lemma DroppedElsewhere(p: Pool, owner: string, o: string)
    requires o != owner
    ensures var q := Dropped(p, owner);
      && q == p.(transports := q.transports, stops := q.stops)
      && (o in q.transports <==> o in p.transports) && Stops(q, o) == Stops(p, o)
  {}

  lemma SameStops(p: Pool, q: Pool, o: string)
    ensures p.stops == q.stops ==> Stops(p, o) == Stops(q, o)
  {}

  lemma FinishElsewhere(p: Pool, id: string, o: string)
    requires o in p.objects && id in p.instances && p.instances[id] != o && id != o
    ensures var q := FinishStep(p, id);
      && o in q.objects && q.objects[o] == p.objects[o]
      && q.instances == p.instances - {id} && q.leases == p.leases && q.failedOwners == p.failedOwners
      && (o in q.transports <==> o in p.transports) && Stops(q, o) == Stops(p, o)
  {
    var owner := p.instances[id];
    hide FinishObject, Done, Dropped, Stops;
    if owner in p.objects {
      DroppedElsewhere(p.(instances := p.instances - {id}, creating := p.creating - {id},
                          objects := p.objects[owner := FinishObject(p.objects[owner], id == owner)]), owner, o);
    }
    SameStops(p, FinishStep(p, id), o);
  }

  lemma FinishOther(p: Pool, id: string, o: string)
    requires Closed(p) && o in p.objects && Balanced(p, o) && id in p.instances && p.instances[id] != o
    ensures Balanced(FinishStep(p, id), o)
  {
    hide FinishStep, Stops;
    FinishElsewhere(p, id, o);
    var q := FinishStep(p, id);
    UsersWithout(p, q, id, o);
    assert Users(q, o) == Users(p, o);
    assert Holders(q, o) == Holders(p, o);
    hide Balanced, Users, Holders;
    Frame(p, q, o);
  }

  lemma FinishOwn(p: Pool, id: string)
    requires Closed(p) && id in p.instances && Balanced(p, p.instances[id])
    ensures Balanced(FinishStep(p, id), p.instances[id])
  {
    var q := FinishStep(p, id);
    UsersWithout(p, q, id, p.instances[id]);
    assert Holders(q, p.instances[id]) == Holders(p, p.instances[id]);
    hide Users, Holders;
  }

  lemma FinishKeepsValid(p: Pool, id: string)
    requires Valid(p)
    ensures Valid(FinishStep(p, id))
  {
    hide Balanced;
    if id in p.instances {
      forall o | o in p.objects ensures Balanced(FinishStep(p, id), o) {
        hide FinishStep;
        if o == p.instances[id] {
          FinishOwn(p, id);
        } else {
          FinishOther(p, id, o);
        }
      }
    } else {
      assert p.instances - {id} == p.instances && p.creating - {id} == p.creating;
    }
  }

  lemma ReserveBalance(p: Pool, owner: string, lease: nat, o: string)
    requires o in p.objects && Balanced(p, o) && Enabled(p, Reserve(owner, lease))
    requires owner in p.transports && AcceptsAuxiliary(p.objects[owner])
    ensures Balanced(Step(p, Reserve(owner, lease)), o)
  {
    var q := Step(p, Reserve(owner, lease));
    HoldersWith(p, q, lease, owner, o);
    assert Users(q, o) == Users(p, o);
    if o != owner {
      Frame(p, q, o);
    }
  }

  lemma ReserveKeepsValid(p: Pool, owner: string, lease: nat)
    requires Valid(p) && Enabled(p, Reserve(owner, lease))
    ensures Valid(Step(p, Reserve(owner, lease)))
  {
    hide Balanced;
    if owner in p.transports && AcceptsAuxiliary(p.objects[owner]) {
      forall o | o in p.objects {
        ReserveBalance(p, owner, lease, o);
      }
    }
  }

  lemma ReleaseElsewhere(p: Pool, lease: nat, o: string)
    requires o in p.objects && lease in p.leases && p.leases[lease] != o
    ensures var q := ReleaseStep(p, lease);
      && o in q.objects && q.objects[o] == p.objects[o]
      && q.leases == p.leases - {lease} && q.instances == p.instances && q.failedOwners == p.failedOwners
      && (o in q.transports <==> o in p.transports) && Stops(q, o) == Stops(p, o)
  {
    var owner := p.leases[lease];
    hide ReleaseObject, Done, Dropped, Stops;
    if owner in p.objects {
      DroppedElsewhere(p.(leases := p.leases - {lease}, objects := p.objects[owner := ReleaseObject(p.objects[owner])]), owner, o);
    }
    SameStops(p, ReleaseStep(p, lease), o);
  }

  lemma ReleaseOther(p: Pool, lease: nat, o: string)
    requires Closed(p) && o in p.objects && Balanced(p, o) && lease in p.leases && p.leases[lease] != o
    ensures Balanced(ReleaseStep(p, lease), o)
  {
    hide ReleaseStep, Stops;
    ReleaseElsewhere(p, lease, o);
    var q := ReleaseStep(p, lease);
    HoldersWithout(p, q, lease, o);
    assert Users(q, o) == Users(p, o);
    assert Holders(q, o) == Holders(p, o);
    hide Balanced, Users, Holders;
    Frame(p, q, o);
  }

  lemma ReleaseOwn(p: Pool, lease: nat)
    requires Closed(p) && lease in p.leases && Balanced(p, p.leases[lease])
    ensures Balanced(ReleaseStep(p, lease), p.leases[lease])
  {
    var q := ReleaseStep(p, lease);
    HoldersWithout(p, q, lease, p.leases[lease]);
    assert Users(q, p.leases[lease]) == Users(p, p.leases[lease]);
    hide Users, Holders;
  }

  lemma ReleaseKeepsValid(p: Pool, lease: nat)
    requires Valid(p) && lease in p.leases
    ensures Valid(ReleaseStep(p, lease))
  {
    hide Balanced;
    forall o | o in p.objects ensures Balanced(ReleaseStep(p, lease), o) {
      hide ReleaseStep;
      if o == p.leases[lease] {
        ReleaseOwn(p, lease);
      } else {
        ReleaseOther(p, lease, o);
      }
    }
  }

  lemma DrainBalance(p: Pool, owner: string, state: string, o: string)
    requires o in p.objects && owner in p.objects && Balanced(p, o)
    ensures Balanced(Step(p, Drain(owner, state)), o)
  {
    var q := Step(p, Drain(owner, state));
    assert Users(q, o) == Users(p, o) && Holders(q, o) == Holders(p, o);
    if o != owner {
      Frame(p, q, o);
    }
  }

  lemma DrainKeepsValid(p: Pool, owner: string, state: string)
    requires Valid(p) && owner in p.objects
    ensures Valid(Step(p, Drain(owner, state)))
  {
    hide Balanced;
    forall o | o in p.objects {
      DrainBalance(p, owner, state, o);
    }
  }

  lemma CreatedKeepsValid(p: Pool, id: string)
    requires Valid(p) && Enabled(p, Created(id))
    ensures Valid(Step(p, Created(id)))
  {
    hide Balanced;
    var q := Step(p, Created(id));
    forall o | o in p.objects ensures Balanced(q, o) {
      assert Users(q, o) == Users(p, o) && Holders(q, o) == Holders(p, o);
      Frame(p, q, o);
    }
  }

  /** Every step before the shutdown keeps the books of every transport. */
  lemma StepKeepsValid(p: Pool, e: Event)
    requires Valid(p) && Enabled(p, e) && !e.Shutdown?
    ensures Valid(Step(p, e))
  {
    hide Valid, Balanced, FinishStep, ReleaseStep;
    match e
    case RegisterOwner(owner, alias, revision) => RegisterKeepsValid(p, owner, alias, revision);
    case OwnerFailed(owner) => OwnerFailedKeepsValid(p, owner);
    case Reuse(owner, id) => ReuseKeepsValid(p, owner, id);
    case ReuseFailed(owner, id) => ReuseFailedKeepsValid(p, owner, id);
    case Created(id) => CreatedKeepsValid(p, id);
    case Finish(id) => FinishKeepsValid(p, id);
    case Reserve(owner, lease) => ReserveKeepsValid(p, owner, lease);
    case Release(lease) => ReleaseKeepsValid(p, lease);
    case Drain(owner, state) => DrainKeepsValid(p, owner, state);
  }

  // ---- Runs ----

  ghost predicate Possible(p: Pool, run: seq<Event>)
    decreases |run|
  {
    run != [] ==> Enabled(p, run[0]) && Possible(Step(p, run[0]), run[1..])
  }

  ghost function After(p: Pool, run: seq<Event>): Pool
    requires Possible(p, run)
    decreases |run|
  {
    if run == [] then p else After(Step(p, run[0]), run[1..])
  }

  predicate NoShutdown(run: seq<Event>) {
    forall i :: 0 <= i < |run| ==> !run[i].Shutdown?
  }

  predicate NoFailedReuse(run: seq<Event>) {
    forall i :: 0 <= i < |run| ==> !run[i].ReuseFailed?
  }

  lemma {:induction false} RunKeepsValid(p: Pool, run: seq<Event>)
    requires Valid(p) && Possible(p, run) && NoShutdown(run)
    ensures Valid(After(p, run))
    decreases |run|
  {
    hide Valid, Step, Enabled;
    if run != [] {
      StepKeepsValid(p, run[0]);
      RunKeepsValid(Step(p, run[0]), run[1..]);
    }
  }

  /** In every reachable pool: the channel count is the number of instances on the transport, the auxiliary count the number
      of leases, the owner is closed exactly when it is off the map, and a transport was stopped at most once, when
      everything was released, and is off the register from then on. An owner that could not be created leaves its own
      channel counted, and its transport off the register without a stop. */
  lemma ReachablePool(run: seq<Event>, owner: string)
    requires Possible(EMPTY, run) && NoShutdown(run) && owner in After(EMPTY, run).objects
    ensures var p := After(EMPTY, run);
      var t, failed := p.objects[owner], owner in p.failedOwners;
      && t.channels == |Users(p, owner)| + (if failed then 1 else 0)
      && t.auxiliary == |Holders(p, owner)|
      && (t.ownerClosed <==> owner !in p.instances && !failed)
      && Stops(p, owner) <= 1
      && (Stops(p, owner) == 1 <==> owner !in p.transports && !failed)
      && (Stops(p, owner) == 1 ==> t.channels == 0 && t.auxiliary == 0 && t.ownerClosed)
      && (failed ==> owner !in p.transports && owner !in p.instances)
  {
    RunKeepsValid(EMPTY, run);
    assert Balanced(After(EMPTY, run), owner);
  }

  // ---- The watcher ----

  /** What the watcher has found out about the configuration. */
  datatype Sources = Sources(current: set<string>, revisions: map<string, string>, unresolved: set<string>, unavailable: bool)

  /** The state a transport falls into: its alias is gone, or it resolves to another revision.
      A probe without a result says nothing. */
  function SourceVerdict(t: Transport, s: Sources): Option<string> {
    if !s.unavailable && t.alias !in s.current then Some("deleted")
    else if t.alias in s.unresolved then None
    else if t.alias in s.revisions && t.revision != s.revisions[t.alias] then Some("changed")
    else None
  }

  function Refreshed(t: Transport, s: Sources): Transport {
    var verdict := SourceVerdict(t, s);
    if verdict.Some? then t.(draining := true, state := verdict.value) else t
  }

  /** The pool after the watcher has looked at every registered transport. */
  function RefreshedPool(p: Pool, s: Sources): Pool {
    Marked(p, s, p.transports)
  }

  function Marked(p: Pool, s: Sources, seen: set<string>): Pool {
    p.(objects := map owner | owner in p.objects :: if owner in seen then Refreshed(p.objects[owner], s) else p.objects[owner])
  }

  /** The draining steps of the watcher, in the order in which it comes to the transports. */
  function Drains(p: Pool, s: Sources, order: seq<string>): seq<Event>
    requires forall i :: 0 <= i < |order| ==> order[i] in p.objects
  {
    if order == [] then []
    else
      var verdict := SourceVerdict(p.objects[order[0]], s);
      (if verdict.Some? then [Drain(order[0], verdict.value)] else []) + Drains(p, s, order[1..])
  }

  predicate Orders(order: seq<string>, owners: set<string>) {
    && (forall i :: 0 <= i < |order| ==> order[i] in owners)
    && (forall owner :: owner in owners ==> owner in order)
    && (forall i, j :: 0 <= i < j < |order| ==> order[i] != order[j])
  }

  /** Refreshing is a run of draining steps, one for each verdict, whatever the order of the transports. */
  lemma RefreshIsARun(p: Pool, s: Sources, order: seq<string>)
    requires Valid(p) && Orders(order, p.transports)
    ensures var run := Drains(p, s, order);
      Possible(p, run) && NoShutdown(run) && NoFailedReuse(run) && After(p, run) == RefreshedPool(p, s) && Valid(RefreshedPool(p, s))
  {
    hide Balanced;
    assert Marked(p, s, {}).objects == p.objects;
    assert p.transports - {} == p.transports;
    DrainsRun(p, s, {}, order);
    RunKeepsValid(p, Drains(p, s, order));
  }

  lemma {:induction false} DrainsRun(p: Pool, s: Sources, seen: set<string>, order: seq<string>)
    requires Orders(order, p.transports - seen) && seen <= p.transports <= p.objects.Keys
    ensures var run := Drains(p, s, order);
      Possible(Marked(p, s, seen), run) && NoShutdown(run) && NoFailedReuse(run) && After(Marked(p, s, seen), run) == RefreshedPool(p, s)
    decreases |order|
  {
    hide SourceVerdict, Refreshed;
    var q := Marked(p, s, seen);
    if order == [] {
      AllSeen(p.transports, seen);
    } else {
      var owner, rest := order[0], order[1..];
      OrdersRest(order, p.transports - seen);
      assert p.transports - seen - {owner} == p.transports - (seen + {owner});
      DrainsRun(p, s, seen + {owner}, rest);
      DrainedOne(p, s, seen, owner);
      var verdict := SourceVerdict(p.objects[owner], s);
      if verdict.Some? {
        var e := Drain(owner, verdict.value);
        assert Drains(p, s, order) == [e] + Drains(p, s, rest);
        assert ([e] + Drains(p, s, rest))[1..] == Drains(p, s, rest);
      } else {
        assert Drains(p, s, order) == Drains(p, s, rest);
      }
    }
  }

  lemma AllSeen(owners: set<string>, seen: set<string>)
    requires Orders([], owners - seen) && seen <= owners
    ensures seen == owners
  {
    assert forall owner :: owner in owners ==> owner in seen || owner in owners - seen;
  }

  lemma OrdersRest(order: seq<string>, owners: set<string>)
    requires Orders(order, owners) && order != []
    ensures Orders(order[1..], owners - {order[0]})
  {
    assert forall i :: 0 <= i < |order[1..]| ==> order[1..][i] == order[i + 1];
    assert forall owner :: owner in order <==> owner == order[0] || owner in order[1..];
  }

  lemma DrainedOne(p: Pool, s: Sources, seen: set<string>, owner: string)
    requires owner in p.objects && owner !in seen
    ensures var q, verdict := Marked(p, s, seen), SourceVerdict(p.objects[owner], s);
      && (verdict.Some? ==> Step(q, Drain(owner, verdict.value)) == Marked(p, s, seen + {owner}))
      && (verdict.None? ==> q == Marked(p, s, seen + {owner}))
  {
    hide SourceVerdict;
    var q, r := Marked(p, s, seen), Marked(p, s, seen + {owner});
    var verdict := SourceVerdict(p.objects[owner], s);
    RefreshedIs(p.objects[owner], s);
    hide Refreshed;
    if verdict.Some? {
      assert Step(q, Drain(owner, verdict.value)).objects == r.objects;
    } else {
      assert q.objects == r.objects;
    }
  }

  // ---- What an exit and a release do ----

  /** An instance has left its transport. */
  predicate Left(was: map<string, Transport>, now: map<string, Transport>, owner: string, id: string)
    requires owner in was
  {
    && now.Keys == was.Keys && (forall o :: o in was && o != owner ==> now[o] == was[o])
    && now[owner] == was[owner].(channels := if was[owner].channels > 0 then was[owner].channels - 1 else was[owner].channels,
                                 ownerClosed := was[owner].ownerClosed || id == owner)
  }

  /** A registered transport without owner and users has been taken off the register and stopped, and nothing else has. */
  ghost predicate Settled(was: Pool, now: Pool, owner: string, stopped: bool) {
    && now.transports == (if stopped then was.transports - {owner} else was.transports)
    && forall o :: Stops(now, o) == Stops(was, o) + (if stopped && o == owner then 1 else 0)
  }

  // ---- The manager ----

  class Manager {
    var objects: map<string, Transport>
    var transports: set<string>
    var instances: map<string, string>
    ghost var leases: map<nat, string>
    ghost var stops: map<string, nat>
    ghost var failedOwners: set<string>
    ghost var creating: map<string, string>
    ghost var down: bool

    ghost function Now(): Pool
      reads this
    {
      Pool(objects, transports, instances, leases, stops, failedOwners, creating, down)
    }

    constructor ()
      ensures Now() == EMPTY
    {
      objects, transports, instances := map[], {}, map[];
      leases, stops, failedOwners, creating, down := map[], map[], {}, map[], false;
    }

    method StopTransport(owner: string)
      modifies this`stops
      ensures Now() == Stop(old(Now()), owner)
    {
      stops := stops[owner := Stops(Now(), owner) + 1];
    }

    method RegisterOwner(id: string, alias: string, revision: string)
      requires Enabled(Now(), Event.RegisterOwner(id, alias, revision))
      modifies this
      ensures Now() == Step(old(Now()), Event.RegisterOwner(id, alias, revision))
      ensures objects == old(objects)[id := Transport(alias, revision, "current", 1, 0, false, false)]
      ensures transports == old(transports) + {id} && instances == old(instances)[id := id] && stops == old(stops)
    {
      objects := objects[id := Transport(alias, revision, "current", 1, 0, false, false)];
      transports := transports + {id};
      instances := instances[id := id];
      creating := creating[id := id];
    }

    /** The owner's terminal could not be created. */
    method RollBackOwner(id: string)
      requires Enabled(Now(), OwnerFailed(id))
      modifies this
      ensures Now() == Step(old(Now()), OwnerFailed(id))
      ensures instances == old(instances) - {id} && transports == old(transports) - {id} && objects == old(objects) && stops == old(stops)
    {
      failedOwners := if id in transports then failedOwners + {id} else failedOwners;
      instances := instances - {id};
      transports := transports - {id};
      creating := creating - {id};
    }

    /** The transport of a source instance: its own, or a registered one it was derived from. */
    method FindTransport(source: string) returns (owner: Option<string>)
      requires forall id :: id in instances ==> instances[id] in objects
      ensures owner.Some? <==> source in instances && (instances[source] == source || instances[source] in transports)
      ensures owner.Some? ==> owner.value == instances[source] && owner.value in objects
    {
      if source !in instances {
        return None;
      }
      owner := Some(instances[source]);
      if owner.value != source && owner.value !in transports {
        owner := None;
      }
    }

    method ReuseTransport(owner: string, id: string) returns (ok: bool)
      requires Enabled(Now(), Reuse(owner, id))
      modifies this
      ensures ok == AcceptsReuse(old(objects)[owner])
      ensures ok <==> old(objects)[owner].channels > 0 && !old(objects)[owner].draining
      ensures transports == old(transports) && stops == old(stops)
      ensures ok ==> instances == old(instances)[id := owner]
      ensures ok ==> objects == old(objects)[owner := old(objects)[owner].(channels := old(objects)[owner].channels + 1)]
      ensures !ok ==> objects == old(objects) && instances == old(instances)
      ensures Now() == Step(old(Now()), Reuse(owner, id))
    {
      var transport := objects[owner];
      if !AcceptsReuse(transport) {
        return false;
      }
      objects := objects[owner := transport.(channels := transport.channels + 1)];
      instances := instances[id := owner];
      creating := creating[id := owner];
      return true;
    }

    /** The derived terminal could not be created. Nothing is stopped here. */
    method RollBackReuse(owner: string, id: string)
      requires Enabled(Now(), ReuseFailed(owner, id))
      modifies this
      ensures Now() == Step(old(Now()), ReuseFailed(owner, id))
      ensures instances == old(instances) - {id} && transports == old(transports) && stops == old(stops)
      ensures objects == old(objects)[owner := old(objects)[owner].(channels := old(objects)[owner].channels - 1)]
    {
      var transport := objects[owner];
      objects := objects[owner := transport.(channels := transport.channels - 1)];
      instances := instances - {id};
      creating := creating - {id};
    }

    method FinishInstance(id: string, closed: bool)
      modifies this
      ensures Now() == if closed then Step(old(Now()), Finish(id)) else old(Now())
      ensures instances == if closed then old(instances) - {id} else old(instances)
      ensures !closed || id !in old(instances) || old(instances)[id] !in old(objects) ==>
        objects == old(objects) && transports == old(transports) && stops == old(stops)
      ensures closed && id in old(instances) && old(instances)[id] in old(objects) ==>
        var owner := old(instances)[id];
        && Left(old(objects), objects, owner, id)
        && Settled(old(Now()), Now(), owner, objects[owner].ownerClosed && objects[owner].channels == 0 && objects[owner].auxiliary == 0)
    {
      StepOfFinish(Now(), id);
      FinishIs(Now(), id);
      hide Step, FinishObject, Done, Dropped, Left, Settled;
      if !closed {
        return;
      }
      var found := id in instances && instances[id] in objects;
      var owner := if id in instances then instances[id] else "";
      instances, creating := instances - {id}, creating - {id};
      if found {
        FinishTransport(owner, id);
      }
    }

    /** One channel less; the transport goes when it was the last and the owner has gone. */
    method FinishTransport(owner: string, id: string)
      requires owner in objects
      modifies this`objects, this`transports, this`stops
      ensures var t := FinishObject(old(objects)[owner], id == owner); var q := old(Now()).(objects := old(objects)[owner := t]);
        Now() == if Done(t) then Dropped(q, owner) else q
    {
      var transport := objects[owner];
      if transport.channels > 0 {
        transport := transport.(channels := transport.channels - 1);
      }
      if id == owner {
        transport := transport.(ownerClosed := true);
      }
      objects := objects[owner := transport];
      assert transport == FinishObject(old(objects)[owner], id == owner);
      var shouldStop := transport.ownerClosed && transport.channels == 0 && transport.auxiliary == 0;
      if shouldStop {
        transports := transports - {owner};
        StopTransport(owner);
      }
    }

    method ReserveAuxiliary(owner: string, ghost lease: nat) returns (ok: bool)
      requires Enabled(Now(), Reserve(owner, lease))
      modifies this
      ensures ok <==> owner in old(transports) && old(objects)[owner].channels > 0
      ensures transports == old(transports) && stops == old(stops) && instances == old(instances)
      ensures objects == if ok then old(objects)[owner := old(objects)[owner].(auxiliary := old(objects)[owner].auxiliary + 1)] else old(objects)
      ensures Now() == Step(old(Now()), Reserve(owner, lease))
      ensures ok ==> lease in leases && leases[lease] == owner
    {
      if owner !in transports || !AcceptsAuxiliary(objects[owner]) {
        return false;
      }
      objects := objects[owner := objects[owner].(auxiliary := objects[owner].auxiliary + 1)];
      leases := leases[lease := owner];
      return true;
    }

    method ReleaseAuxiliary(owner: string, ghost lease: nat)
      requires lease in leases && leases[lease] == owner && owner in objects
      modifies this
      ensures Now() == Step(old(Now()), Release(lease))
      ensures var t := old(objects)[owner];
        instances == old(instances) && objects == old(objects)[owner := t.(auxiliary := if t.auxiliary > 0 then t.auxiliary - 1 else t.auxiliary)]
      ensures Settled(old(Now()), Now(), owner, owner in old(transports) && objects[owner].ownerClosed && objects[owner].channels == 0 && objects[owner].auxiliary == 0)
    {
      StepOfRelease(Now(), lease);
      ReleaseIs(Now(), lease);
      hide Step, Settled, ReleaseObject, Done, Dropped, ReleaseStep;
      ReleasedPool(Now(), lease);
      leases := leases - {lease};
      var transport := objects[owner];
      if transport.auxiliary > 0 {
        transport := transport.(auxiliary := transport.auxiliary - 1);
      }
      objects := objects[owner := transport];
      ReleasedIs(old(objects)[owner], transport);
      var shouldStop := transport.ownerClosed && transport.channels == 0 && transport.auxiliary == 0;
      if shouldStop {
        if owner in transports {
          transports := transports - {owner};
        } else {
          shouldStop := false;
        }
      }
      if shouldStop {
        StopTransport(owner);
      }
    }

    /** An auxiliary channel is reserved first and given back at once when the context is over or the socket does not answer. */
    method AcquireAuxiliary(owner: string, ghost lease: nat, cancelled: bool, cancelledMeanwhile: bool, ready: bool) returns (ok: bool)
      requires Valid(Now()) && Enabled(Now(), Reserve(owner, lease))
      modifies this
      ensures Valid(Now())
      ensures ok <==> !cancelled && !cancelledMeanwhile && ready && owner in old(transports) && old(objects)[owner].channels > 0
      ensures ok ==> Now() == Step(old(Now()), Reserve(owner, lease)) && lease in leases && leases[lease] == owner
      ensures !ok ==> Now() == old(Now())
    {
      hide Valid;
      if cancelled {
        return false;
      }
      StepKeepsValid(Now(), Reserve(owner, lease));
      var reserved := ReserveAuxiliary(owner, lease);
      if !reserved {
        return false;
      }
      if cancelledMeanwhile || !ready {
        ReserveThenRelease(old(Now()), owner, lease);
        ReleaseAuxiliary(owner, lease);
        return false;
      }
      return true;
    }

    /** The watcher marks every registered transport whose source has changed or gone. */
    method RefreshSources(sources: Sources)
      requires transports <= objects.Keys
      modifies this`objects
      ensures Now() == RefreshedPool(old(Now()), sources)
      ensures objects.Keys == old(objects).Keys
      ensures forall owner :: owner in old(objects) && owner !in transports ==> objects[owner] == old(objects)[owner]
      ensures forall owner :: owner in transports ==>
        var t, u := old(objects)[owner], objects[owner];
        var gone := !sources.unavailable && t.alias !in sources.current;
        var moved := t.alias !in sources.unresolved && t.alias in sources.revisions && sources.revisions[t.alias] != t.revision;
        if gone then u == t.(draining := true, state := "deleted")
        else if moved then u == t.(draining := true, state := "changed")
        else u == t
    {
      hide Refreshed;
      var rest := transports;
      while rest != {}
        invariant rest <= transports <= objects.Keys == old(objects).Keys
        invariant forall owner :: owner in objects ==>
          objects[owner] == (if owner in transports - rest then Refreshed(old(objects)[owner], sources) else old(objects)[owner])
        decreases |rest|
      {
        var owner :| owner in rest;
        rest := rest - {owner};
        RefreshedIs(objects[owner], sources);
        var verdict := SourceVerdict(objects[owner], sources);
        if verdict.Some? {
          objects := objects[owner := objects[owner].(draining := true, state := verdict.value)];
        }
      }
      forall owner | owner in transports
        ensures var t, u := old(objects)[owner], objects[owner];
          var gone := !sources.unavailable && t.alias !in sources.current;
          var moved := t.alias !in sources.unresolved && t.alias in sources.revisions && sources.revisions[t.alias] != t.revision;
          u == (if gone then t.(draining := true, state := "deleted") else if moved then t.(draining := true, state := "changed") else t)
      {
        VerdictIs(old(objects)[owner], sources);
      }
    }

    method ShutDown()
      requires Enabled(Now(), Shutdown)
      modifies this
      ensures Now() == Step(old(Now()), Shutdown)
      ensures transports == {} && instances == map[] && objects == old(objects)
      ensures forall owner :: Stops(Now(), owner) == Stops(old(Now()), owner) + (if owner in old(transports) then 1 else 0)
    {
      ShutdownIs(Now());
      hide StopAll, Step;
      var all := transports;
      transports, instances, down := {}, map[], true;
      StopEach(all);
    }

    method StopEach(all: set<string>)
      modifies this`stops
      ensures stops == StopAll(old(stops), all)
    {
      hide StopAll;
      var rest := all;
      StopNone(stops);
      assert all - rest == {};
      while rest != {}
        invariant rest <= all
        invariant stops == StopAll(old(stops), all - rest)
        decreases |rest|
      {
        var owner :| owner in rest;
        StopTransport(owner);
        StopOneMore(old(stops), all - rest, owner);
        assert all - (rest - {owner}) == (all - rest) + {owner};
        rest := rest - {owner};
      }
      assert all - {} == all;
    }
  }

  lemma FinishIs(p: Pool, id: string)
    ensures var q := FinishStep(p, id);
      && q.instances == p.instances - {id}
      && (id !in p.instances || p.instances[id] !in p.objects ==> q.objects == p.objects && q.transports == p.transports && q.stops == p.stops)
      && (id in p.instances && p.instances[id] in p.objects ==>
            var owner := p.instances[id];
            && Left(p.objects, q.objects, owner, id)
            && Settled(p, q, owner, q.objects[owner].ownerClosed && q.objects[owner].channels == 0 && q.objects[owner].auxiliary == 0))
  {
    if id in p.instances && p.instances[id] in p.objects {
      var owner := p.instances[id];
      var t := FinishObject(p.objects[owner], id == owner);
      var q := p.(instances := p.instances - {id}, creating := p.creating - {id}, objects := p.objects[owner := t]);
      LeftIs(p.objects, owner, id);
      SettledIs(p, q, owner);
      assert FinishStep(p, id) == if Done(t) then Dropped(q, owner) else q;
      hide FinishStep, Dropped, Left, Settled, FinishObject;
    }
  }

  lemma LeftIs(was: map<string, Transport>, owner: string, id: string)
    requires owner in was
    ensures Left(was, was[owner := FinishObject(was[owner], id == owner)], owner, id)
  {}

  lemma SettledIs(p: Pool, q: Pool, owner: string)
    requires q.transports == p.transports && q.stops == p.stops
    ensures Settled(p, q, owner, false) && Settled(p, Dropped(q, owner), owner, true)
  {}

  lemma ReleasedIs(t: Transport, u: Transport)
    requires u == t.(auxiliary := if t.auxiliary > 0 then t.auxiliary - 1 else t.auxiliary)
    ensures u == ReleaseObject(t) && (Done(u) <==> u.ownerClosed && u.channels == 0 && u.auxiliary == 0)
  {}

  lemma ReleaseIs(p: Pool, lease: nat)
    requires lease in p.leases && p.leases[lease] in p.objects
    ensures var owner := p.leases[lease]; var t, q := p.objects[owner], ReleaseStep(p, lease);
      && q.instances == p.instances && q.objects == p.objects[owner := t.(auxiliary := if t.auxiliary > 0 then t.auxiliary - 1 else t.auxiliary)]
      && Settled(p, q, owner, owner in p.transports && q.objects[owner].ownerClosed && q.objects[owner].channels == 0 && q.objects[owner].auxiliary == 0)
  {
    var owner := p.leases[lease];
    SettledIs(p, p.(leases := p.leases - {lease}, objects := p.objects[owner := ReleaseObject(p.objects[owner])]), owner);
    hide Settled, Dropped;
  }

  /** The pool after a release, written out. */
  lemma ReleasedPool(p: Pool, lease: nat)
    requires lease in p.leases && p.leases[lease] in p.objects
    ensures var owner := p.leases[lease]; var t := ReleaseObject(p.objects[owner]);
      ReleaseStep(p, lease)
      == p.(leases := p.leases - {lease}, objects := p.objects[owner := t],
            transports := if Done(t) && owner in p.transports then p.transports - {owner} else p.transports,
            stops := if Done(t) && owner in p.transports then p.stops[owner := Stops(p, owner) + 1] else p.stops)
  {
    hide ReleaseObject, Done;
  }

  lemma StepOfRelease(p: Pool, lease: nat)
    requires lease in p.leases
    ensures Step(p, Release(lease)) == ReleaseStep(p, lease)
  {}

  lemma StepOfFinish(p: Pool, id: string)
    ensures Step(p, Finish(id)) == FinishStep(p, id)
  {}

  lemma ShutdownIs(p: Pool)
    ensures var q := Step(p, Shutdown);
      && q == p.(transports := {}, instances := map[], stops := StopAll(p.stops, p.transports), down := true)
      && forall owner :: Stops(q, owner) == Stops(p, owner) + (if owner in p.transports then 1 else 0)
  {}

  lemma StopNone(stops: map<string, nat>)
    ensures StopAll(stops, {}) == stops
  {}

  lemma StopOneMore(stops: map<string, nat>, owners: set<string>, owner: string)
    requires owner !in owners
    ensures var q := StopAll(stops, owners);
      StopAll(stops, owners + {owner}) == q[owner := (if owner in q then q[owner] else 0) + 1]
  {}

  /** Gone while the configuration can be read, or resolved to another revision. */
  lemma VerdictIs(t: Transport, s: Sources)
    ensures Refreshed(t, s) ==
      if !s.unavailable && t.alias !in s.current then t.(draining := true, state := "deleted")
      else if t.alias !in s.unresolved && t.alias in s.revisions && s.revisions[t.alias] != t.revision then t.(draining := true, state := "changed")
      else t
  {}

  lemma RefreshedIs(t: Transport, s: Sources)
    ensures Refreshed(t, s) == (var verdict := SourceVerdict(t, s); if verdict.Some? then t.(draining := true, state := verdict.value) else t)
  {}

  /** Giving a reserved channel back at once leaves the pool as it was. */
  lemma ReserveThenRelease(p: Pool, owner: string, lease: nat)
    requires Valid(p) && Enabled(p, Reserve(owner, lease)) && owner in p.transports && AcceptsAuxiliary(p.objects[owner])
    ensures var q := Step(p, Reserve(owner, lease));
      lease in q.leases && Step(q, Release(lease)) == p
  {
    var q := Reserved(p, owner, lease);
    assert Balanced(p, owner) && p.objects[owner].auxiliary >= 0;
    StepOfReserve(p, owner, lease);
    hide Balanced, Valid, Reserved, Step, AcceptsAuxiliary;
    StepOfRelease(q, lease);
    ReservedReleases(p, owner, lease);
  }

  function Reserved(p: Pool, owner: string, lease: nat): (q: Pool)
    requires owner in p.objects
    ensures lease in q.leases
  {
    var t := p.objects[owner];
    p.(objects := p.objects[owner := t.(auxiliary := t.auxiliary + 1)], leases := p.leases[lease := owner])
  }

  lemma StepOfReserve(p: Pool, owner: string, lease: nat)
    requires Enabled(p, Reserve(owner, lease)) && owner in p.transports && AcceptsAuxiliary(p.objects[owner])
    ensures Step(p, Reserve(owner, lease)) == Reserved(p, owner, lease) && p.objects[owner].channels > 0 && lease !in p.leases
  {}

  lemma ReservedReleases(p: Pool, owner: string, lease: nat)
    requires owner in p.objects && lease !in p.leases && p.objects[owner].auxiliary >= 0 && p.objects[owner].channels > 0
    ensures ReleaseStep(Reserved(p, owner, lease), lease) == p
  {
    hide Dropped;
    var t, q := p.objects[owner], Reserved(p, owner, lease);
    assert q.leases - {lease} == p.leases;
    assert q.objects[owner := t] == p.objects;
    assert t.(auxiliary := t.auxiliary + 1).(auxiliary := t.auxiliary) == t;
  }

  /** A reader of a remote command, or a transfer lease: it gives its channel back once, however often it is finished. */
  class Lease {
    const owner: string
    ghost const lease: nat
    var finished: bool

    constructor (owner: string, ghost lease: nat)
      ensures this.owner == owner && this.lease == lease && !finished
    {
      this.owner, this.lease, finished := owner, lease, false;
    }

    method Finish(manager: Manager)
      requires Valid(manager.Now())
      requires !finished ==> lease in manager.leases && manager.leases[lease] == owner
      modifies this, manager
      ensures finished && Valid(manager.Now())
      ensures manager.Now() == if old(finished) then old(manager.Now()) else Step(old(manager.Now()), Release(lease))
    {
      if finished {
        return;
      }
      finished := true;
      StepKeepsValid(manager.Now(), Release(lease));
      manager.ReleaseAuxiliary(owner, lease);
    }
  }
}
