/** Every run of the transport pool: creations, their rollbacks and exits may come before or after a shutdown. */
module TransportRuns {
  import opened TransportPool

  // ---- What every step keeps ----

  /** The instances that are being created on a transport. */
  function Starting(p: Pool, owner: string): set<string> {
    set id | id in p.creating && p.creating[id] == owner
  }

  /** The instances that an exit or a rollback can still take off a transport. */
  function Counted(p: Pool, owner: string): set<string> {
    Users(p, owner) + Starting(p, owner)
  }

  ghost predicate Linked(p: Pool) {
    && (forall id :: id in p.instances ==> p.instances[id] in p.objects && (id in p.objects ==> p.instances[id] == id))
    && (forall id :: id in p.creating ==> p.creating[id] in p.objects && (id in p.objects ==> p.creating[id] == id))
    && (forall id :: id in p.creating && id in p.instances ==> p.creating[id] == p.instances[id])
    && (forall lease :: lease in p.leases ==> p.leases[lease] in p.objects)
    && p.transports <= p.objects.Keys && p.failedOwners <= p.objects.Keys && p.stops.Keys <= p.objects.Keys
  }

  /** A transport is not stopped while it is registered, nor ever when its rollback took it off the register; it is stopped
      twice at most, and a second time only when its last channel goes. */
  ghost predicate Kept(p: Pool, owner: string)
    requires owner in p.objects
  {
    var t := p.objects[owner];
    && |Counted(p, owner)| <= t.channels
    && t.auxiliary == |Holders(p, owner)|
    && (owner in p.creating ==> !t.ownerClosed)
    && (owner in p.instances ==> !t.ownerClosed && owner in p.transports)
    && (owner in p.failedOwners ==> owner !in p.transports && owner !in p.instances && owner !in p.creating && !t.ownerClosed)
    && (Stops(p, owner) == 0 <==> owner in p.transports || owner in p.failedOwners)
    && Stops(p, owner) <= 2 && (Stops(p, owner) == 2 ==> t.channels == 0)
  }

  ghost predicate Sound(p: Pool) {
    Linked(p) && forall owner :: owner in p.objects ==> Kept(p, owner)
  }

  lemma {:induction false} SmallerSet<T>(small: set<T>, big: set<T>)
    requires small <= big
    ensures |small| <= |big|
  {
    if small != {} {
      var x :| x in small;
      SmallerSet(small - {x}, big - {x});
    }
  }

  /** A step that leaves a transport alone, and may take instances off it. */
  lemma FrameKept(p: Pool, q: Pool, owner: string)
    requires owner in p.objects && Kept(p, owner) && owner in q.objects && q.objects[owner] == p.objects[owner]
    requires Counted(q, owner) <= Counted(p, owner) && Holders(q, owner) == Holders(p, owner)
    requires (owner in q.failedOwners <==> owner in p.failedOwners) && (owner in q.transports <==> owner in p.transports)
    requires (owner in q.instances ==> owner in p.instances) && (owner in q.creating ==> owner in p.creating)
    requires Stops(q, owner) == Stops(p, owner)
    ensures Kept(q, owner)
  {
    SmallerSet(Counted(q, owner), Counted(p, owner));
  }

  lemma FewerCounted(p: Pool, q: Pool, id: string, owner: string)
    requires q.instances == p.instances - {id} && q.creating == p.creating - {id}
    ensures Counted(q, owner) == Counted(p, owner) - {id}
  {}

  lemma MoreCounted(p: Pool, q: Pool, id: string, to: string, owner: string)
    requires id !in p.instances && id !in p.creating
    requires q.instances == p.instances[id := to] && q.creating == p.creating[id := to]
    ensures Counted(q, owner) == if owner == to then Counted(p, owner) + {id} else Counted(p, owner)
    ensures id !in Counted(p, owner)
  {}

  lemma SameHolders(p: Pool, q: Pool, owner: string)
    requires q.leases == p.leases
    ensures Holders(q, owner) == Holders(p, owner)
  {}

  lemma SameCounted(p: Pool, q: Pool, owner: string)
    requires q.instances == p.instances && q.creating == p.creating
    ensures Counted(q, owner) == Counted(p, owner)
  {}

  // ---- Creations ----

  lemma RegisterKeeps(p: Pool, e: Event, o: string)
    requires Linked(p) && e.RegisterOwner? && Enabled(p, e) && (o in p.objects ==> Kept(p, o)) && (o in p.objects || o == e.owner)
    ensures Kept(Step(p, e), o)
  {
    var q := Step(p, e);
    MoreCounted(p, q, e.owner, e.owner, o);
    SameHolders(p, q, o);
    if o != e.owner {
      hide Kept, Counted, Holders;
      FrameKept(p, q, o);
    } else {
      assert Counted(p, o) == {} && Holders(p, o) == {};
      hide Counted, Holders;
    }
  }

  lemma OwnerFailedKeeps(p: Pool, e: Event, o: string)
    requires Linked(p) && e.OwnerFailed? && Enabled(p, e) && o in p.objects && Kept(p, o)
    ensures Kept(Step(p, e), o)
  {
    var q := Step(p, e);
    FewerCounted(p, q, e.owner, o);
    SameHolders(p, q, o);
    hide Counted, Holders;
    if o != e.owner {
      FrameKept(p, q, o);
    } else {
      SmallerSet(Counted(q, o), Counted(p, o));
    }
  }

  lemma ReuseKeeps(p: Pool, e: Event, o: string)
    requires e.Reuse? && Enabled(p, e) && AcceptsReuse(p.objects[e.owner]) && o in p.objects && Kept(p, o)
    ensures Kept(Step(p, e), o)
  {
    var q := Step(p, e);
    MoreCounted(p, q, e.id, e.owner, o);
    SameHolders(p, q, o);
    hide Counted, Holders;
    if o != e.owner {
      FrameKept(p, q, o);
    }
  }

  lemma ReuseFailedKeeps(p: Pool, e: Event, o: string)
    requires Linked(p) && e.ReuseFailed? && Enabled(p, e) && o in p.objects && Kept(p, o)
    ensures Kept(Step(p, e), o)
  {
    var q := Step(p, e);
    FewerCounted(p, q, e.id, o);
    SameHolders(p, q, o);
    if o != e.owner {
      hide Counted, Holders;
      FrameKept(p, q, o);
    } else {
      assert e.id in Counted(p, o);
      hide Counted, Holders;
    }
  }

  lemma CreatedKeeps(p: Pool, e: Event, o: string)
    requires e.Created? && Enabled(p, e) && o in p.objects && Kept(p, o)
    ensures Kept(Step(p, e), o)
  {
    var q := Step(p, e);
    assert Counted(q, o) <= Counted(p, o);
    SameHolders(p, q, o);
    hide Kept, Counted, Holders;
    FrameKept(p, q, o);
  }

  // ---- Exits and releases ----

  lemma FinishKeeps(p: Pool, id: string, o: string)
    requires Linked(p) && o in p.objects && Kept(p, o)
    ensures o in FinishStep(p, id).objects && Kept(FinishStep(p, id), o)
  {
    if id in p.instances && p.instances[id] == o {
      FinishKeepsOwn(p, id);
    } else if id in p.instances {
      assert id != o;
      FinishMaps(p, id);
      hide FinishStep, Stops, Linked;
      FinishElsewhere(p, id, o);
      FewerCounted(p, FinishStep(p, id), id, o);
      SameHolders(p, FinishStep(p, id), o);
      hide Kept, Counted, Holders;
      FrameKept(p, FinishStep(p, id), o);
    } else {
      FinishMaps(p, id);
      FinishOfNobody(p, id);
      hide FinishStep, Linked;
      FewerCounted(p, FinishStep(p, id), id, o);
      SameHolders(p, FinishStep(p, id), o);
      assert Stops(FinishStep(p, id), o) == Stops(p, o);
      hide Kept, Counted, Holders, Stops;
      FrameKept(p, FinishStep(p, id), o);
    }
  }

  lemma FinishMaps(p: Pool, id: string)
    ensures var q := FinishStep(p, id);
      q.instances == p.instances - {id} && q.creating == p.creating - {id} && q.leases == p.leases && q.failedOwners == p.failedOwners
  {
    hide FinishObject, Done, Dropped;
  }

  lemma FinishKeepsOwn(p: Pool, id: string)
    requires Linked(p) && id in p.instances && Kept(p, p.instances[id])
    ensures Kept(FinishStep(p, id), p.instances[id])
  {
    var o, q := p.instances[id], FinishStep(p, id);
    FinishMaps(p, id);
    FewerCounted(p, q, id, o);
    SameHolders(p, q, o);
    assert id in Counted(p, o);
    hide Counted, Holders;
  }

  lemma ReserveKeeps(p: Pool, e: Event, o: string)
    requires e.Reserve? && Enabled(p, e) && e.owner in p.transports && AcceptsAuxiliary(p.objects[e.owner]) && o in p.objects && Kept(p, o)
    ensures Kept(Step(p, e), o)
  {
    var q := Step(p, e);
    HoldersWith(p, q, e.lease, e.owner, o);
    SameCounted(p, q, o);
    hide Counted, Holders;
    if o != e.owner {
      FrameKept(p, q, o);
    }
  }

  lemma ReleaseKeeps(p: Pool, lease: nat, o: string)
    requires Linked(p) && lease in p.leases && o in p.objects && Kept(p, o)
    ensures o in ReleaseStep(p, lease).objects && Kept(ReleaseStep(p, lease), o)
  {
    ReleaseMaps(p, lease);
    HoldersWithout(p, ReleaseStep(p, lease), lease, o);
    SameCounted(p, ReleaseStep(p, lease), o);
    if p.leases[lease] == o {
      hide Counted, Holders;
    } else {
      hide ReleaseStep, Stops, Linked;
      ReleaseElsewhere(p, lease, o);
      hide Kept, Counted, Holders;
      FrameKept(p, ReleaseStep(p, lease), o);
    }
  }

  lemma ReleaseMaps(p: Pool, lease: nat)
    requires lease in p.leases
    ensures var q := ReleaseStep(p, lease);
      q.instances == p.instances && q.creating == p.creating && q.leases == p.leases - {lease} && q.failedOwners == p.failedOwners
  {
    hide ReleaseObject, Done, Dropped;
  }

  lemma DrainKeeps(p: Pool, e: Event, o: string)
    requires e.Drain? && Enabled(p, e) && o in p.objects && Kept(p, o)
    ensures Kept(Step(p, e), o)
  {
    var q := Step(p, e);
    SameHolders(p, q, o);
    SameCounted(p, q, o);
    hide Counted, Holders;
    if o != e.owner {
      FrameKept(p, q, o);
    }
  }

  lemma ShutdownKeeps(p: Pool, o: string)
    requires Linked(p) && o in p.objects && Kept(p, o)
    ensures Kept(Step(p, Shutdown), o)
  {
    var q := Step(p, Shutdown);
    assert Counted(q, o) <= Counted(p, o);
    SmallerSet(Counted(q, o), Counted(p, o));
    SameHolders(p, q, o);
    hide Counted, Holders;
  }

  // ---- All steps ----

  /** What an exit changes. */
  lemma FinishParts(p: Pool, id: string)
    ensures var q := FinishStep(p, id);
      if id in p.instances && p.instances[id] in p.objects then
        var owner := p.instances[id];
        var t := FinishObject(p.objects[owner], id == owner);
        && q.objects == p.objects[owner := t]
        && q.transports == (if Done(t) then p.transports - {owner} else p.transports)
        && q.stops == (if Done(t) then p.stops[owner := Stops(p, owner) + 1] else p.stops)
      else q.objects == p.objects && q.transports == p.transports && q.stops == p.stops
  {
    hide FinishObject, Done;
  }

  lemma ReleaseParts(p: Pool, lease: nat)
    requires lease in p.leases && p.leases[lease] in p.objects
    ensures var q, owner := ReleaseStep(p, lease), p.leases[lease];
      var t := ReleaseObject(p.objects[owner]);
      var stops := Done(t) && owner in p.transports;
      && q.objects == p.objects[owner := t]
      && q.transports == (if stops then p.transports - {owner} else p.transports)
      && q.stops == (if stops then p.stops[owner := Stops(p, owner) + 1] else p.stops)
  {
    hide ReleaseObject, Done;
  }

  lemma FinishLinks(p: Pool, id: string)
    requires Linked(p)
    ensures Linked(FinishStep(p, id))
  {
    FinishMaps(p, id);
    FinishParts(p, id);
    hide FinishStep, FinishObject, Done, Stops;
  }

  lemma ReleaseLinks(p: Pool, lease: nat)
    requires Linked(p) && lease in p.leases
    ensures Linked(ReleaseStep(p, lease))
  {
    ReleaseMaps(p, lease);
    ReleaseParts(p, lease);
    hide ReleaseStep, ReleaseObject, Done, Stops;
  }

  lemma StepCases(p: Pool, e: Event)
    requires Enabled(p, e)
    ensures e.Finish? ==> Step(p, e) == FinishStep(p, e.id)
    ensures e.Release? ==> e.lease in p.leases && Step(p, e) == ReleaseStep(p, e.lease)
  {}

  lemma OwnerLinks(p: Pool, e: Event)
    requires Linked(p) && Enabled(p, e) && (e.RegisterOwner? || e.OwnerFailed?)
    ensures Linked(Step(p, e))
  {}

  lemma ReuseLinks(p: Pool, e: Event)
    requires Linked(p) && Enabled(p, e) && (e.Reuse? || e.ReuseFailed? || e.Created?)
    ensures Linked(Step(p, e))
  {}

  lemma OtherLinks(p: Pool, e: Event)
    requires Linked(p) && Enabled(p, e) && (e.Reserve? || e.Drain? || e.Shutdown?)
    ensures Linked(Step(p, e))
  {}

  lemma StepLinks(p: Pool, e: Event)
    requires Linked(p) && Enabled(p, e)
    ensures Linked(Step(p, e))
  {
    StepCases(p, e);
    hide Step, FinishStep, ReleaseStep, Linked;
    if e.Finish? {
      FinishLinks(p, e.id);
    } else if e.Release? {
      ReleaseLinks(p, e.lease);
    } else if e.Reserve? || e.Drain? || e.Shutdown? {
      OtherLinks(p, e);
    } else if e.RegisterOwner? || e.OwnerFailed? {
      OwnerLinks(p, e);
    } else {
      ReuseLinks(p, e);
    }
  }

  lemma StepKeeps(p: Pool, e: Event, o: string)
    requires Linked(p) && Enabled(p, e) && (o in p.objects ==> Kept(p, o)) && o in Step(p, e).objects
    ensures Kept(Step(p, e), o)
  {
    StepObjects(p, e, o);
    hide Linked, Kept, FinishStep, ReleaseStep, StopAll;
    match e {
      case RegisterOwner(_, _, _) => RegisterKeeps(p, e, o);
      case OwnerFailed(_) => OwnerFailedKeeps(p, e, o);
      case Reuse(owner, _) =>
        if AcceptsReuse(p.objects[owner]) {
          ReuseKeeps(p, e, o);
        }
      case ReuseFailed(_, _) => ReuseFailedKeeps(p, e, o);
      case Created(_) => CreatedKeeps(p, e, o);
      case Finish(id) => FinishKeeps(p, id, o);
      case Reserve(owner, _) =>
        if owner in p.transports && AcceptsAuxiliary(p.objects[owner]) {
          ReserveKeeps(p, e, o);
        }
      case Release(lease) => ReleaseKeeps(p, lease, o);
      case Drain(_, _) => DrainKeeps(p, e, o);
      case Shutdown => ShutdownKeeps(p, o);
    }
  }

  lemma StepObjects(p: Pool, e: Event, o: string)
    requires Linked(p) && Enabled(p, e) && o in Step(p, e).objects
    ensures o in p.objects || (e.RegisterOwner? && e.owner == o)
  {
    if e.Finish? {
      FinishParts(p, e.id);
    } else if e.Release? {
      ReleaseParts(p, e.lease);
    }
    hide FinishStep, ReleaseStep, FinishObject, ReleaseObject, Done, Stops, StopAll;
  }

  /** Every step, before and after a shutdown, keeps what is known of every transport. */
  lemma StepKeepsSound(p: Pool, e: Event)
    requires Sound(p) && Enabled(p, e)
    ensures Sound(Step(p, e))
  {
    hide Linked, Kept, Step, Enabled;
    StepLinks(p, e);
    forall o | o in Step(p, e).objects ensures Kept(Step(p, e), o) {
      StepKeeps(p, e, o);
    }
  }

  lemma {:induction false} RunKeepsSound(p: Pool, run: seq<Event>)
    requires Sound(p) && Possible(p, run)
    ensures Sound(After(p, run))
    decreases |run|
  {
    hide Sound, Step, Enabled;
    if run != [] {
      StepKeepsSound(p, run[0]);
      RunKeepsSound(Step(p, run[0]), run[1..]);
    }
  }

  lemma BalancedIsKept(p: Pool, o: string)
    requires Closed(p) && o in p.objects && Balanced(p, o)
    ensures Kept(p, o)
  {
    assert Counted(p, o) == Users(p, o);
    hide Counted, Users, Holders;
  }

  /** The books that balance before a shutdown are all that is needed. */
  lemma ValidIsSound(p: Pool)
    requires Valid(p)
    ensures Sound(p)
  {
    hide Balanced, Kept;
    forall o | o in p.objects ensures Kept(p, o) {
      BalancedIsKept(p, o);
    }
  }

  // ---- Nothing comes back ----

  /** What a step may change about a transport. */
  predicate Later(t: Transport, u: Transport) {
    && (t.channels == 0 ==> u.channels == 0)
    && (t.draining ==> u.draining)
    && (t.ownerClosed ==> u.ownerClosed)
    && u.alias == t.alias && u.revision == t.revision
  }

  /** Once no channel is left none is ever added, draining is never undone, and a closed owner stays closed. */
  lemma StepIsMonotone(p: Pool, e: Event, owner: string)
    requires Sound(p) && Enabled(p, e) && owner in p.objects
    ensures owner in Step(p, e).objects && Later(p.objects[owner], Step(p, e).objects[owner])
    ensures owner !in p.transports ==> owner !in Step(p, e).transports
  {
    assert Kept(p, owner);
    assert p.objects[owner].channels >= 0;
    assert e.Release? ==> p.leases[e.lease] in p.objects;
    if e.ReuseFailed? && e.owner == owner {
      assert e.id in Counted(p, owner);
      assert p.objects[owner].channels > 0;
    }
    StepCases(p, e);
    hide Kept, Linked, Sound, Step, FinishStep, ReleaseStep, Later;
    match e {
      case Finish(id) => FinishIsMonotone(p, id, owner);
      case Release(lease) => ReleaseIsMonotone(p, lease, owner);
      case Reuse(o, id) => ReuseIsMonotone(p, o, id, owner);
      case ReuseFailed(o, id) => ReuseFailedIsMonotone(p, o, id, owner);
      case Reserve(o, lease) => ReserveIsMonotone(p, o, lease, owner);
      case Drain(o, state) => DrainIsMonotone(p, o, state, owner);
      case RegisterOwner(_, _, _) => OwnerIsMonotone(p, e, owner);
      case OwnerFailed(_) => OwnerIsMonotone(p, e, owner);
      case Created(_) => OwnerIsMonotone(p, e, owner);
      case Shutdown => OwnerIsMonotone(p, e, owner);
    }
  }

  lemma OwnerIsMonotone(p: Pool, e: Event, owner: string)
    requires owner in p.objects && Enabled(p, e) && (e.RegisterOwner? || e.OwnerFailed? || e.Created? || e.Shutdown?)
    ensures owner in Step(p, e).objects && Later(p.objects[owner], Step(p, e).objects[owner])
    ensures owner !in p.transports ==> owner !in Step(p, e).transports
  {}

  lemma ReuseIsMonotone(p: Pool, o: string, id: string, owner: string)
    requires owner in p.objects && Enabled(p, Reuse(o, id))
    ensures var q := Step(p, Reuse(o, id)); owner in q.objects && Later(p.objects[owner], q.objects[owner]) && q.transports == p.transports
  {}

  lemma ReuseFailedIsMonotone(p: Pool, o: string, id: string, owner: string)
    requires owner in p.objects && Enabled(p, ReuseFailed(o, id)) && (o == owner ==> p.objects[owner].channels > 0)
    ensures var q := Step(p, ReuseFailed(o, id)); owner in q.objects && Later(p.objects[owner], q.objects[owner]) && q.transports == p.transports
  {}

  lemma ReserveIsMonotone(p: Pool, o: string, lease: nat, owner: string)
    requires owner in p.objects && Enabled(p, Reserve(o, lease))
    ensures var q := Step(p, Reserve(o, lease)); owner in q.objects && Later(p.objects[owner], q.objects[owner]) && q.transports == p.transports
  {}

  lemma DrainIsMonotone(p: Pool, o: string, state: string, owner: string)
    requires owner in p.objects && Enabled(p, Drain(o, state))
    ensures var q := Step(p, Drain(o, state)); owner in q.objects && Later(p.objects[owner], q.objects[owner]) && q.transports == p.transports
  {}

  lemma FinishIsMonotone(p: Pool, id: string, owner: string)
    requires owner in p.objects && p.objects[owner].channels >= 0
    ensures owner in FinishStep(p, id).objects && Later(p.objects[owner], FinishStep(p, id).objects[owner])
    ensures owner !in p.transports ==> owner !in FinishStep(p, id).transports
  {
    FinishParts(p, id);
    hide FinishStep, Done, Stops;
  }

  lemma ReleaseIsMonotone(p: Pool, lease: nat, owner: string)
    requires owner in p.objects && lease in p.leases && p.leases[lease] in p.objects
    ensures owner in ReleaseStep(p, lease).objects && Later(p.objects[owner], ReleaseStep(p, lease).objects[owner])
    ensures owner !in p.transports ==> owner !in ReleaseStep(p, lease).transports
  {
    ReleaseParts(p, lease);
    hide ReleaseStep, Done, Stops;
  }

  lemma {:induction false} RunIsMonotone(p: Pool, run: seq<Event>, owner: string)
    requires Sound(p) && Possible(p, run) && owner in p.objects
    ensures var q := After(p, run);
      owner in q.objects && Later(p.objects[owner], q.objects[owner]) && (owner !in p.transports ==> owner !in q.transports)
    decreases |run|
  {
    hide Sound, Step, Enabled;
    if run != [] {
      StepKeepsSound(p, run[0]);
      StepIsMonotone(p, run[0], owner);
      RunIsMonotone(Step(p, run[0]), run[1..], owner);
    }
  }

  // ---- Nothing is left behind ----

  /** A registered transport that nobody uses and nobody will stop. */
  predicate Leaked(p: Pool, owner: string) {
    owner in p.objects && owner in p.transports && Done(p.objects[owner])
  }

  /** Exactly one kind of step leaves a transport behind: taking back a derived channel that could not be created,
      when it was the last one and the owner has gone. */
  lemma LeakIff(p: Pool, e: Event, owner: string)
    requires Sound(p) && Enabled(p, e) && !Leaked(p, owner)
    ensures Leaked(Step(p, e), owner) <==>
      && e.ReuseFailed? && e.owner == owner && owner in p.transports
      && p.objects[owner].channels == 1 && p.objects[owner].auxiliary == 0 && p.objects[owner].ownerClosed
  {
    if owner in p.objects {
      assert Kept(p, owner);
      assert p.objects[owner].channels >= 0 && p.objects[owner].auxiliary >= 0;
    }
    StepCases(p, e);
    hide Kept, Sound, Step, FinishStep, ReleaseStep, Leaked;
    match e {
      case Finish(id) => FinishLeaks(p, id, owner);
      case Release(lease) => ReleaseLeaks(p, lease, owner);
      case ReuseFailed(o, id) => ReuseFailedLeaks(p, o, id, owner);
      case Reuse(o, id) => ReuseLeaks(p, o, id, owner);
      case Reserve(o, lease) => ReserveLeaks(p, o, lease, owner);
      case RegisterOwner(_, _, _) => OwnerLeaks(p, e, owner);
      case OwnerFailed(_) => OwnerLeaks(p, e, owner);
      case Drain(_, _) => OwnerLeaks(p, e, owner);
      case Created(_) => OwnerLeaks(p, e, owner);
      case Shutdown => OwnerLeaks(p, e, owner);
    }
  }

  lemma OwnerLeaks(p: Pool, e: Event, owner: string)
    requires Enabled(p, e) && !Leaked(p, owner) && (e.RegisterOwner? || e.OwnerFailed? || e.Drain? || e.Created? || e.Shutdown?)
    ensures !Leaked(Step(p, e), owner)
  {}

  lemma ReuseFailedLeaks(p: Pool, o: string, id: string, owner: string)
    requires Enabled(p, ReuseFailed(o, id)) && !Leaked(p, owner) && p.transports <= p.objects.Keys
    ensures Leaked(Step(p, ReuseFailed(o, id)), owner) <==>
      && o == owner && owner in p.transports
      && p.objects[owner].channels == 1 && p.objects[owner].auxiliary == 0 && p.objects[owner].ownerClosed
  {}

  lemma ReuseLeaks(p: Pool, o: string, id: string, owner: string)
    requires Enabled(p, Reuse(o, id)) && !Leaked(p, owner)
    ensures !Leaked(Step(p, Reuse(o, id)), owner)
  {}

  lemma ReserveLeaks(p: Pool, o: string, lease: nat, owner: string)
    requires Enabled(p, Reserve(o, lease)) && !Leaked(p, owner)
    ensures !Leaked(Step(p, Reserve(o, lease)), owner)
  {}

  lemma FinishLeaks(p: Pool, id: string, owner: string)
    requires Linked(p) && !Leaked(p, owner)
    ensures !Leaked(FinishStep(p, id), owner)
  {}

  lemma ReleaseLeaks(p: Pool, lease: nat, owner: string)
    requires Linked(p) && !Leaked(p, owner) && lease in p.leases
    ensures !Leaked(ReleaseStep(p, lease), owner)
  {}

  /** Without a failed derived creation nothing leaks: what nobody uses has been stopped. */
  lemma {:induction false} NothingLeaks(p: Pool, run: seq<Event>, owner: string)
    requires Sound(p) && !Leaked(p, owner)
    requires Possible(p, run) && NoFailedReuse(run)
    ensures !Leaked(After(p, run), owner)
    decreases |run|
  {
    hide Sound, Step, Enabled, Leaked;
    if run != [] {
      StepKeepsSound(p, run[0]);
      LeakIff(p, run[0], owner);
      NothingLeaks(Step(p, run[0]), run[1..], owner);
    }
  }

  /** A leak is for good: only the shutdown stops the transport. */
  lemma {:induction false} LeakStays(p: Pool, run: seq<Event>, owner: string)
    requires Sound(p) && Leaked(p, owner) && Possible(p, run) && NoShutdown(run)
    ensures Leaked(After(p, run), owner) && Stops(After(p, run), owner) == 0
    decreases |run|
  {
    assert Kept(p, owner) && (Leaked(p, owner) ==> Stops(p, owner) == 0);
    hide Sound, Kept, Leaked, Step, Enabled;
    if run != [] {
      StepKeepsSound(p, run[0]);
      LeakedStep(p, run[0], owner);
      LeakStays(Step(p, run[0]), run[1..], owner);
    }
  }

  lemma LeakedStep(p: Pool, e: Event, owner: string)
    requires Sound(p) && Leaked(p, owner) && Enabled(p, e) && !e.Shutdown?
    ensures Leaked(Step(p, e), owner)
  {
    assert Kept(p, owner);
    NobodyUses(p, owner);
    hide Kept, Sound, Users, Holders, FinishStep, ReleaseStep, StopAll, Stops;
    match e {
      case Finish(id) =>
        if id in p.instances {
          FinishElsewhere(p, id, owner);
        } else {
          FinishOfNobody(p, id);
        }
      case Release(lease) => ReleaseElsewhere(p, lease, owner);
      case RegisterOwner(_, _, _) => LeakedOwner(p, e, owner);
      case OwnerFailed(_) => LeakedOwner(p, e, owner);
      case Reuse(_, _) => LeakedReuse(p, e, owner);
      case ReuseFailed(_, _) => LeakedReuse(p, e, owner);
      case Created(_) =>
      case Reserve(_, _) => LeakedReuse(p, e, owner);
      case Drain(_, _) => LeakedReuse(p, e, owner);
    }
  }

  lemma LeakedOwner(p: Pool, e: Event, owner: string)
    requires Leaked(p, owner) && Enabled(p, e) && (e.RegisterOwner? || (e.OwnerFailed? && e.owner != owner))
    ensures Leaked(Step(p, e), owner)
  {}

  lemma LeakedReuse(p: Pool, e: Event, owner: string)
    requires Leaked(p, owner) && Enabled(p, e)
    requires e.Reuse? || (e.ReuseFailed? && e.owner != owner) || e.Reserve? || e.Drain?
    ensures Leaked(Step(p, e), owner)
  {}

  lemma FinishOfNobody(p: Pool, id: string)
    requires id !in p.instances
    ensures FinishStep(p, id).objects == p.objects && FinishStep(p, id).transports == p.transports && FinishStep(p, id).stops == p.stops
  {}

  lemma NobodyUses(p: Pool, owner: string)
    requires owner in p.objects && Kept(p, owner) && p.objects[owner].channels == 0 && p.objects[owner].auxiliary == 0
    ensures forall id :: id in p.instances ==> p.instances[id] != owner
    ensures forall id :: id in p.creating ==> p.creating[id] != owner
    ensures forall lease :: lease in p.leases ==> p.leases[lease] != owner
  {
    assert Counted(p, owner) == {} && Holders(p, owner) == {};
    forall id | id in p.instances ensures p.instances[id] != owner {
      assert id !in Counted(p, owner);
    }
    forall id | id in p.creating ensures p.creating[id] != owner {
      assert id !in Counted(p, owner);
    }
    forall lease | lease in p.leases ensures p.leases[lease] != owner {
      assert lease !in Holders(p, owner);
    }
  }

  /** The owner exits while a derived instance is being created, and the creation fails. */
  lemma LeakExample()
    ensures var run := [RegisterOwner("o", "a", "r"), Reuse("o", "d"), Finish("o"), ReuseFailed("o", "d")];
      Possible(EMPTY, run) && Leaked(After(EMPTY, run), "o")
  {
    var t := Transport("a", "r", "current", 1, 0, false, false);
    var p1 := Step(EMPTY, RegisterOwner("o", "a", "r"));
    assert p1.objects["o"] == t && p1.instances["o"] == "o";
    var p2 := Step(p1, Reuse("o", "d"));
    assert p2.objects["o"] == t.(channels := 2) && p2.instances["o"] == "o" && p2.instances["d"] == "o";
    var p3 := Step(p2, Finish("o"));
    assert p3.objects["o"] == t.(channels := 1, ownerClosed := true) && p3.instances["d"] == "o";
    var p4 := Step(p3, ReuseFailed("o", "d"));
    assert p4.objects["o"] == t.(channels := 0, ownerClosed := true) && "o" in p4.transports;
    var run := [RegisterOwner("o", "a", "r"), Reuse("o", "d"), Finish("o"), ReuseFailed("o", "d")];
    assert run[1..] == [Reuse("o", "d"), Finish("o"), ReuseFailed("o", "d")];
    assert run[1..][1..] == [Finish("o"), ReuseFailed("o", "d")];
    assert run[1..][1..][1..] == [ReuseFailed("o", "d")];
    assert run[1..][1..][1..][1..] == [];
    assert Possible(p4, []) && After(p4, []) == p4;
    assert Possible(p3, run[1..][1..][1..]) && After(p3, run[1..][1..][1..]) == p4;
    assert Possible(p2, run[1..][1..]) && After(p2, run[1..][1..]) == p4;
    assert Possible(p1, run[1..]) && After(p1, run[1..]) == p4;
  }

  // ---- How often a transport is stopped ----

  /** The shutdown stops every registered transport once more, whatever came before, and empties the register. */
  lemma ShutdownStopsOnce(p: Pool, owner: string)
    requires Sound(p) && owner in p.objects
    ensures var q := Step(p, Shutdown);
      && q.transports == {} && q.instances == map[]
      && Stops(q, owner) == (if owner in p.transports then 1 else Stops(p, owner))
      && (Stops(q, owner) == 0 <==> owner in p.failedOwners)
  {
    assert Kept(p, owner);
    hide Linked, Counted, Holders, FinishStep, ReleaseStep;
  }

  /** Over every run, with shutdowns anywhere: a transport has not been stopped exactly while it is registered, or for good when
      its rollback took it off the register; and it is stopped twice at most. */
  lemma EveryRunStops(run: seq<Event>, owner: string)
    requires Possible(EMPTY, run) && owner in After(EMPTY, run).objects
    ensures var q := After(EMPTY, run);
      && (Stops(q, owner) == 0 <==> owner in q.transports || owner in q.failedOwners)
      && Stops(q, owner) <= 2
  {
    RunKeepsSound(EMPTY, run);
    assert Kept(After(EMPTY, run), owner);
  }

  /** A reuse that was decided before the shutdown and adds its channel after it. */
  predicate LateReuse(p: Pool, e: Event, owner: string) {
    e.Reuse? && e.owner == owner && owner in p.objects && owner !in p.transports && AcceptsReuse(p.objects[owner])
  }

  ghost predicate NoLateReuse(p: Pool, run: seq<Event>, owner: string)
    requires Possible(p, run)
    decreases |run|
  {
    run != [] ==> !LateReuse(p, run[0], owner) && NoLateReuse(Step(p, run[0]), run[1..], owner)
  }

  /** Stopped at most once, and then without users. */
  ghost predicate Once(p: Pool, owner: string) {
    Stops(p, owner) <= 1 && (Stops(p, owner) == 1 ==> forall id :: id in p.instances ==> p.instances[id] != owner)
  }

  lemma NoUsers(p: Pool, owner: string)
    requires owner in p.objects && Kept(p, owner) && p.objects[owner].channels == 0
    ensures forall id :: id in p.instances ==> p.instances[id] != owner
  {
    assert Counted(p, owner) == {};
    forall id | id in p.instances ensures p.instances[id] != owner {
      assert id !in Counted(p, owner);
    }
  }

  lemma FinishKeepsOnce(p: Pool, id: string, owner: string)
    requires Linked(p) && owner in p.objects && Kept(p, owner) && Once(p, owner)
    requires owner in FinishStep(p, id).objects && Kept(FinishStep(p, id), owner)
    ensures Once(FinishStep(p, id), owner)
  {
    var q := FinishStep(p, id);
    FinishMaps(p, id);
    FinishParts(p, id);
    hide FinishStep, Kept, Linked;
    if id in p.instances && p.instances[id] == owner && Stops(q, owner) == 1 {
      NoUsers(q, owner);
    }
  }

  lemma ReleaseKeepsOnce(p: Pool, lease: nat, owner: string)
    requires Linked(p) && lease in p.leases && owner in p.objects && Kept(p, owner) && Once(p, owner)
    requires owner in ReleaseStep(p, lease).objects && Kept(ReleaseStep(p, lease), owner)
    ensures Once(ReleaseStep(p, lease), owner)
  {
    var q := ReleaseStep(p, lease);
    assert owner in p.transports ==> Stops(p, owner) == 0;
    ReleaseMaps(p, lease);
    ReleaseParts(p, lease);
    hide ReleaseStep, Kept, Linked;
    if p.leases[lease] == owner && Stops(q, owner) != Stops(p, owner) {
      NoUsers(q, owner);
    }
  }

  lemma ShutdownKeepsOnce(p: Pool, owner: string)
    requires owner in p.objects && Kept(p, owner) && Once(p, owner)
    ensures Once(Step(p, Shutdown), owner)
  {}

  lemma CreationKeepsOnce(p: Pool, e: Event, owner: string)
    requires Enabled(p, e) && owner in p.objects && Kept(p, owner) && Once(p, owner) && !LateReuse(p, e, owner)
    requires !e.Finish? && !e.Release? && !e.Shutdown?
    ensures Once(Step(p, e), owner)
  {
    hide Holders, Counted;
  }

  lemma OnceByCase(p: Pool, e: Event, owner: string)
    requires Linked(p) && Enabled(p, e) && owner in p.objects && Kept(p, owner) && Once(p, owner) && !LateReuse(p, e, owner)
    requires owner in Step(p, e).objects && Kept(Step(p, e), owner)
    ensures Once(Step(p, e), owner)
  {
    hide Kept, Linked, Once, LateReuse, FinishStep, ReleaseStep, StopAll;
    match e {
      case Finish(id) => FinishKeepsOnce(p, id, owner);
      case Release(lease) => ReleaseKeepsOnce(p, lease, owner);
      case Shutdown => ShutdownKeepsOnce(p, owner);
      case _ => CreationKeepsOnce(p, e, owner);
    }
  }

  lemma StepKeepsOnce(p: Pool, e: Event, owner: string)
    requires Sound(p) && Enabled(p, e) && owner in p.objects && Once(p, owner) && !LateReuse(p, e, owner)
    ensures owner in Step(p, e).objects && Once(Step(p, e), owner)
  {
    assert Linked(p) && Kept(p, owner);
    hide Kept, Linked, Once, LateReuse, Sound, Step, Enabled;
    StepIsMonotone(p, e, owner);
    StepKeeps(p, e, owner);
    OnceByCase(p, e, owner);
  }

  lemma NewIsOnce(p: Pool, e: Event, owner: string)
    requires Sound(p) && Enabled(p, e) && owner !in p.objects && owner in Step(p, e).objects
    ensures Once(Step(p, e), owner)
  {
    StepObjects(p, e, owner);
    assert Stops(p, owner) == 0;
  }

  lemma {:induction false} RunKeepsOnce(p: Pool, run: seq<Event>, owner: string)
    requires Sound(p) && Possible(p, run) && NoLateReuse(p, run, owner) && (owner in p.objects ==> Once(p, owner))
    ensures owner in After(p, run).objects ==> Once(After(p, run), owner)
    decreases |run|
  {
    hide Sound, Step, Enabled, Once, LateReuse;
    if run != [] {
      StepKeepsSound(p, run[0]);
      if owner in p.objects {
        StepKeepsOnce(p, run[0], owner);
      } else if owner in Step(p, run[0]).objects {
        NewIsOnce(p, run[0], owner);
      }
      RunKeepsOnce(Step(p, run[0]), run[1..], owner);
    }
  }

  /** Over every run in which no late reuse joins the transport it is stopped exactly once when it is off the register, unless
      its rollback took it off, and not before. */
  lemma StopsOnce(run: seq<Event>, owner: string)
    requires Possible(EMPTY, run) && NoLateReuse(EMPTY, run, owner) && owner in After(EMPTY, run).objects
    ensures var q := After(EMPTY, run);
      Stops(q, owner) == if owner in q.transports || owner in q.failedOwners then 0 else 1
  {
    EveryRunStops(run, owner);
    hide Stops;
    RunKeepsOnce(EMPTY, run, owner);
  }

  lemma OthersStopNothing(p: Pool, e: Event, owner: string)
    requires Enabled(p, e) && !e.Finish? && !e.Release? && (e.Shutdown? ==> owner !in p.transports)
    ensures Stops(Step(p, e), owner) == Stops(p, owner)
  {}

  lemma FinishStopsAgain(p: Pool, id: string, owner: string)
    requires owner in p.objects && Kept(p, owner) && Stops(p, owner) == 1
    ensures Stops(FinishStep(p, id), owner) == 2 <==>
      && id in p.instances && p.instances[id] == owner
      && p.objects[owner].ownerClosed && p.objects[owner].channels == 1 && p.objects[owner].auxiliary == 0
  {
    FinishParts(p, id);
    assert id in p.instances && p.instances[id] == owner ==> id in Counted(p, owner) && p.objects[owner].channels > 0;
    assert owner !in p.instances;
    hide FinishStep, Counted, Holders;
  }

  lemma ReleaseStopsRegistered(p: Pool, lease: nat, owner: string)
    requires lease in p.leases && p.leases[lease] in p.objects && owner !in p.transports
    ensures Stops(ReleaseStep(p, lease), owner) == Stops(p, owner)
  {
    ReleaseParts(p, lease);
    hide ReleaseStep;
  }

  /** A transport is stopped a second time exactly by the exit that takes the last channel of one whose owner had gone. */
  lemma StopsAgainIff(p: Pool, e: Event, owner: string)
    requires Sound(p) && Enabled(p, e) && owner in p.objects && Stops(p, owner) == 1
    ensures Stops(Step(p, e), owner) == 2 <==>
      && e.Finish? && e.id in p.instances && p.instances[e.id] == owner
      && p.objects[owner].ownerClosed && p.objects[owner].channels == 1 && p.objects[owner].auxiliary == 0
  {
    assert Kept(p, owner);
    assert owner !in p.transports;
    StepCases(p, e);
    hide Kept, Step, Enabled, FinishStep, ReleaseStep, Stops;
    if e.Finish? {
      FinishStopsAgain(p, e.id, owner);
    } else if e.Release? {
      ReleaseStopsRegistered(p, e.lease, owner);
    } else {
      OthersStopNothing(p, e, owner);
    }
  }

  lemma OneStep(p: Pool, e: Event, rest: seq<Event>, q: Pool, last: Pool)
    requires Enabled(p, e) && Step(p, e) == q && Possible(q, rest) && After(q, rest) == last
    ensures Possible(p, [e] + rest) && After(p, [e] + rest) == last
  {
    hide Enabled, Step;
    assert ([e] + rest)[1..] == rest;
  }

  lemma ClosedOwner(o: string, d: string, t: Transport) returns (q: Pool)
    requires o != d && t == Transport("a", "r", "current", 1, 0, false, false)
    ensures q == Pool(map[o := t.(ownerClosed := true)], {o}, map[d := o], map[], map[], {}, map[d := o], false)
    ensures var run := [RegisterOwner(o, "a", "r"), Reuse(o, d), Finish(o)]; Possible(EMPTY, run) && After(EMPTY, run) == q
  {
    var p1 := Step(EMPTY, RegisterOwner(o, "a", "r"));
    assert p1 == Pool(map[o := t], {o}, map[o := o], map[], map[], {}, map[o := o], false);
    var p2 := Step(p1, Reuse(o, d));
    assert p2 == Pool(map[o := t.(channels := 2)], {o}, map[o := o, d := o], map[], map[], {}, map[o := o, d := o], false);
    q := Step(p2, Finish(o));
    assert q == Pool(map[o := t.(ownerClosed := true)], {o}, map[d := o], map[], map[], {}, map[d := o], false);
    hide Step, Enabled;
    OneStep(p2, Finish(o), [], q, q);
    OneStep(p1, Reuse(o, d), [Finish(o)] + [], p2, q);
    OneStep(EMPTY, RegisterOwner(o, "a", "r"), [Reuse(o, d)] + ([Finish(o)] + []), p1, q);
    assert [RegisterOwner(o, "a", "r")] + ([Reuse(o, d)] + ([Finish(o)] + [])) == [RegisterOwner(o, "a", "r"), Reuse(o, d), Finish(o)];
  }

  lemma LateJoin(p: Pool, o: string, d: string, e: string, u: Transport) returns (q: Pool)
    requires o != d && o != e && d != e && u == Transport("a", "r", "current", 1, 0, true, false)
    requires p == Pool(map[o := u], {o}, map[d := o], map[], map[], {}, map[d := o], false)
    ensures q == Pool(map[o := u.(channels := 2)], {}, map[e := o], map[], map[o := 1], {}, map[d := o, e := o], true)
    ensures Possible(p, [Shutdown, Reuse(o, e)]) && After(p, [Shutdown, Reuse(o, e)]) == q
  {
    var p1 := Step(p, Shutdown);
    assert p1 == Pool(map[o := u], {}, map[], map[], map[o := 1], {}, map[d := o], true);
    q := Step(p1, Reuse(o, e));
    assert q == Pool(map[o := u.(channels := 2)], {}, map[e := o], map[], map[o := 1], {}, map[d := o, e := o], true);
    hide Step, Enabled;
    OneStep(p1, Reuse(o, e), [], q, q);
    OneStep(p, Shutdown, [Reuse(o, e)] + [], p1, q);
    assert [Shutdown] + ([Reuse(o, e)] + []) == [Shutdown, Reuse(o, e)];
  }

  lemma LateExit(p: Pool, o: string, d: string, e: string, u: Transport) returns (q: Pool)
    requires o != d && o != e && d != e && u == Transport("a", "r", "current", 1, 0, true, false)
    requires p == Pool(map[o := u.(channels := 2)], {}, map[e := o], map[], map[o := 1], {}, map[d := o, e := o], true)
    ensures Possible(p, [ReuseFailed(o, d), Finish(e)]) && After(p, [ReuseFailed(o, d), Finish(e)]) == q && Stops(q, o) == 2
  {
    var p1 := Step(p, ReuseFailed(o, d));
    assert p1 == Pool(map[o := u], {}, map[e := o], map[], map[o := 1], {}, map[e := o], true);
    q := Step(p1, Finish(e));
    assert Stops(q, o) == 2;
    hide Step, Enabled;
    OneStep(p1, Finish(e), [], q, q);
    OneStep(p, ReuseFailed(o, d), [Finish(e)] + [], p1, q);
    assert [ReuseFailed(o, d)] + ([Finish(e)] + []) == [ReuseFailed(o, d), Finish(e)];
  }

  lemma {:induction false} Joined(p: Pool, first: seq<Event>, rest: seq<Event>)
    requires Possible(p, first) && Possible(After(p, first), rest)
    ensures Possible(p, first + rest) && After(p, first + rest) == After(After(p, first), rest)
    decreases |first|
  {
    hide Enabled, Step;
    if first == [] {
      assert first + rest == rest;
    } else {
      assert (first + rest)[1..] == first[1..] + rest;
      Joined(Step(p, first[0]), first[1..], rest);
    }
  }

  /** The owner exits while a derived instance is being created, and the pool is shut down. A reuse found before joins
      after it, the creation fails, and the exit of the late instance stops the transport again. */
  lemma StoppedTwice()
    ensures var run := [RegisterOwner("o", "a", "r"), Reuse("o", "d"), Finish("o")] + [Shutdown, Reuse("o", "e")] + [ReuseFailed("o", "d"), Finish("e")];
      Possible(EMPTY, run) && Stops(After(EMPTY, run), "o") == 2
  {
    hide Possible, After, Stops;
    var t := Transport("a", "r", "current", 1, 0, false, false);
    var u := t.(ownerClosed := true);
    var p := ClosedOwner("o", "d", t);
    var q := LateJoin(p, "o", "d", "e", u);
    var r := LateExit(q, "o", "d", "e", u);
    var first := [RegisterOwner("o", "a", "r"), Reuse("o", "d"), Finish("o")];
    Joined(EMPTY, first, [Shutdown, Reuse("o", "e")]);
    Joined(EMPTY, first + [Shutdown, Reuse("o", "e")], [ReuseFailed("o", "d"), Finish("e")]);
  }
}
