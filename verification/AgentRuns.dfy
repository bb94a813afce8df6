/** Runs of the agent projection: one message for each runtime and index, and an index that does not drop. */
module AgentRuns {
  import opened Common
  import MF = MessageFile
  import MS = MessageStore
  import opened AgentProjection

  datatype Op =
    | Snap(key: string, session: string, s: Snapshot, c: Context)
    | Reset(key: string, session: string, sessionId: string, created: nat, fate: MS.Fate)
    | MarkTarget(key: string, session: string, component: string, version: string, fate: MS.Fate)
    | Restart
    | Elsewhere(op: MS.Op, messageFate: MS.Fate)

  /** Snapshots were checked, and only snapshots append messages. */
  predicate Legal(op: Op) {
    match op
    case Snap(_, _, s, _) => ValidSnapshot(s)
    case Elsewhere(m, _) => !m.Append?
    case _ => true
  }

  ghost function Step(w: World, op: Op): World {
    match op
    case Snap(key, session, s, c) => AcceptStep(w, key, session, s, c).0
    case Reset(key, session, id, created, fate) => Updated(w, key, Prepare(RecordOf(w.memory, key), session, id, created), fate)
    case MarkTarget(key, session, component, version, fate) => Updated(w, key, MarkComponent(RecordOf(w.memory, key), session, component, version), fate)
    case Restart => w.(memory := w.disk)
    case Elsewhere(m, fate) => if w.messages.None? then w else w.(messages := Some(MS.Next(w.messages.value, m, fate)))
  }

  ghost function Run(w: World, ops: seq<Op>): World {
    if ops == [] then w else Step(Run(w, ops[..|ops| - 1]), ops[|ops| - 1])
  }

  // ---- Messages ----

  /** Every message about a change of state carries the key of its runtime and index. */
  ghost predicate Keyed(d: MS.Disk) {
    MS.Load(d).Some? ==> forall r :: r in MS.Load(d).value.messages ==> KeyedRecord(r)
  }

  predicate KeyedRecord(r: MF.Record) {
    r.draft.kind == "agent_state_transition" ==> r.draft.idempotencyKey == TransitionKey(r.draft.runtimeId, r.draft.stateIndex)
  }

  ghost predicate MessagesKeyed(w: World) {
    w.messages.Some? ==> Keyed(w.messages.value)
  }

  lemma NextKeyed(d: MS.Disk, op: MS.Op, fate: MS.Fate)
    requires Keyed(d) && (op.Append? ==> KeyedRecord(MF.Record(op.draft, 0)))
    ensures Keyed(MS.Next(d, op, fate))
  {
    if MS.Load(d).Some? {
      var f := MS.Load(d).value;
      MS.LoadedIsValid(d);
      if MS.Effect(f, op).Some? {
        MS.EffectRecords(f, op);
        hide MF.ValidFile, MS.Effect, TransitionKey;
        var g := MS.Effect(f, op).value;
        assert forall r :: r in g.messages ==> KeyedRecord(r);
      }
    }
  }

  lemma StepKeyed(w: World, op: Op)
    requires Legal(op) && MessagesKeyed(w)
    ensures MessagesKeyed(Step(w, op))
  {
    hide Keyed, MS.Next, AppendWorks, Accept, TransitionKey, SyncFailure, SyncMetadata, Judge;
    match op
    case Snap(key, session, s, c) =>
      if w.messages.Some? {
        var draft := TransitionDraft(key, session, TargetAt(w.memory, key, session).state, s, c);
        NextKeyed(w.messages.value, MS.Append(draft, c.now), c.messageFate);
      }
    case Elsewhere(m, fate) =>
      if w.messages.Some? {
        NextKeyed(w.messages.value, m, fate);
      }
    case _ =>
  }

  lemma {:induction false} RunKeyed(w: World, ops: seq<Op>)
    requires MessagesKeyed(w) && forall i :: 0 <= i < |ops| ==> Legal(ops[i])
    ensures MessagesKeyed(Run(w, ops))
  {
    if ops != [] {
      RunKeyed(w, ops[..|ops| - 1]);
      StepKeyed(Run(w, ops[..|ops| - 1]), ops[|ops| - 1]);
    }
  }

  /** After any run of snapshots, failures, retries, restarts and clean-ups at most one stored message
      reports a given runtime and index. */
  lemma OneMessagePerIndex(w: World, ops: seq<Op>, r: MF.Record, q: MF.Record)
    requires MessagesKeyed(w) && forall i :: 0 <= i < |ops| ==> Legal(ops[i])
    requires Run(w, ops).messages.Some? && MS.Load(Run(w, ops).messages.value).Some?
    requires var ms := MS.Load(Run(w, ops).messages.value).value.messages; r in ms && q in ms
    requires r.draft.kind == q.draft.kind == "agent_state_transition"
    ensures r == q <==> r.draft.runtimeId == q.draft.runtimeId && r.draft.stateIndex == q.draft.stateIndex
  {
    RunKeyed(w, ops);
    hide *;
    StoredKeyed(Run(w, ops));
    OneInFile(Run(w, ops).messages.value, r, q);
  }

  lemma StoredKeyed(w: World)
    requires MessagesKeyed(w) && w.messages.Some?
    ensures Keyed(w.messages.value)
  {}

  lemma OneInFile(d: MS.Disk, r: MF.Record, q: MF.Record)
    requires MS.Load(d).Some? && Keyed(d) && r in MS.Load(d).value.messages && q in MS.Load(d).value.messages
    requires r.draft.kind == q.draft.kind == "agent_state_transition"
    ensures r == q <==> r.draft.runtimeId == q.draft.runtimeId && r.draft.stateIndex == q.draft.stateIndex
  {
    MS.LoadedIsValid(d);
    var f := MS.Load(d).value;
    hide MS.Load, MF.Good, TransitionKey;
    assert KeyedRecord(r) && KeyedRecord(q);
    if r.draft.runtimeId == q.draft.runtimeId && r.draft.stateIndex == q.draft.stateIndex {
      SameKey(f.messages, f.latest, r, q);
    }
  }

  lemma SameKey(ms: seq<MF.Record>, latest: nat, r: MF.Record, q: MF.Record)
    requires MF.Good(ms, latest) && r in ms && q in ms && r.draft.idempotencyKey == q.draft.idempotencyKey
    ensures r == q
  {
    hide MF.ValidDraft;
    var i :| 0 <= i < |ms| && ms[i] == r;
    var j :| 0 <= j < |ms| && ms[j] == q;
    assert i < j ==> MF.Before(ms[i], ms[j]);
    assert j < i ==> MF.Before(ms[j], ms[i]);
  }

  /** The store can be read and holds a message of this key. */
  ghost predicate HasKey(d: MS.Disk, key: string) {
    MS.Load(d).Some? && exists r :: r in MS.Load(d).value.messages && r.draft.idempotencyKey == key
  }

  /** A change of state gets its message before the projection moves; when the target already carries the
      key of that change, which a re-initialisation keeps, nothing is appended again. */
  lemma TransitionIsTold(w: World, key: string, session: string, s: Snapshot, c: Context)
    requires w.messages.Some? && AcceptStep(w, key, session, s, c).1 != MessageError
    requires Judge(TargetAt(w.memory, key, session), s) == Newer(true)
    ensures var after := AcceptStep(w, key, session, s, c).0; var told := TransitionKey(s.runtimeId, s.latestIndex);
      && after.messages.Some?
      && (if TargetAt(w.memory, key, session).lastTransitionKey == told then after.messages == w.messages else HasKey(after.messages.value, told))
  {
    var draft := TransitionDraft(key, session, TargetAt(w.memory, key, session).state, s, c);
    if TargetAt(w.memory, key, session).lastTransitionKey != TransitionKey(s.runtimeId, s.latestIndex) {
      AppendedIsThere(w.messages.value, draft, c.now, c.messageFate);
    }
    hide MS.Next, HasKey, AppendWorks, Judge, TransitionKey, Accept;
    assert AcceptStep(w, key, session, s, c).0.messages == w.messages || AcceptStep(w, key, session, s, c).0.messages == Appended(w, draft, c).messages;
  }

  /** The messages after an append that succeeded. */
  lemma AppendedMessages(d: MS.Disk, draft: MF.Draft, now: MF.Time, fate: MS.Fate)
    requires AppendWorks(d, draft, now, fate)
    ensures var e := MS.Next(d, MS.Append(draft, now), fate); var f := MS.Load(d).value;
      && MS.Load(e).Some?
      && MS.Load(e).value.messages == if MS.Known(f, draft, now).Some? then MF.Pruned(f, now).messages else MS.WithRecord(f, draft, now).messages
  {
    hide MF.ValidDraft, MF.Retained, MS.WithRecord, MF.Pruned, MS.Known, MF.Good;
    var f := MS.Load(d).value;
    MS.LoadedIsValid(d);
    MS.PrunedMessages(f, now);
    MF.RetainedGood(f.messages, now, f.latest);
  }

  lemma AppendedIsThere(d: MS.Disk, draft: MF.Draft, now: MF.Time, fate: MS.Fate)
    requires draft.receivedAt == now && AppendWorks(d, draft, now, fate)
    ensures HasKey(MS.Next(d, MS.Append(draft, now), fate), draft.idempotencyKey)
  {
    var f := MS.Load(d).value;
    MS.LoadedIsValid(d);
    AppendedMessages(d, draft, now, fate);
    MS.WithRecordIs(f, draft, now);
    hide MS.Load, MS.Next, AppendWorks, MF.Retained, MS.Beside, MF.ValidFile, MS.WithRecord, MF.Pruned;
    var r := if MS.Known(f, draft, now).Some? then MS.Known(f, draft, now).value else MS.NewRecord(f, draft);
    assert r in MS.Load(MS.Next(d, MS.Append(draft, now), fate)).value.messages && r.draft.idempotencyKey == draft.idempotencyKey;
  }

  /** What a transition message needs beyond a checked snapshot. */
  ghost predicate Presentable(key: string, session: string, s: Snapshot, c: Context) {
    && s.provider == "codex" && c.messageId != "" && key != "" && session != "" && c.fallbackLabel != "" && s.tmux.sessionId != ""
    && (c.connectionLabel == "" || MF.SafeLabel(c.connectionLabel)) && s.occurredAt != 0 && c.now != 0 && MF.DistinctIds(c.instanceIds)
  }

  /** The message about a change of state is accepted by the message store exactly when it is presentable. */
  lemma DraftIsValidIff(key: string, session: string, previous: Target, s: Snapshot, c: Context)
    requires ValidSnapshot(s) && MF.ValidState(previous.state) && Judge(previous, s) == Newer(true)
    ensures MF.ValidDraft(TransitionDraft(key, session, previous.state, s, c)) <==> Presentable(key, session, s, c)
  {
    hide MF.SafeLabel, MF.DistinctIds;
    assert TransitionKey(s.runtimeId, s.latestIndex) != "";
    assert s.runtimeId != "" && s.latestIndex > 0 && s.state != previous.state;
  }

  /** A change of state reported by a provider other than the one the message store knows is refused
      exactly when its message would have to be appended, and then nothing moves. */
  lemma OtherProvidersStall(w: World, key: string, session: string, s: Snapshot, c: Context)
    requires w.messages.Some? && s.provider != "codex" && Judge(TargetAt(w.memory, key, session), s) == Newer(true)
    ensures AcceptStep(w, key, session, s, c).1 == MessageError
      <==> TargetAt(w.memory, key, session).lastTransitionKey != TransitionKey(s.runtimeId, s.latestIndex)
    ensures AcceptStep(w, key, session, s, c).1 == MessageError ==>
      TargetAt(AcceptStep(w, key, session, s, c).0.memory, key, session) == TargetAt(w.memory, key, session)
  {
    UntoldChangesNothing(w, key, session, s, c);
  }

  /** When the message cannot be stored nothing of the projection changes, in memory or on disk. */
  lemma UntoldChangesNothing(w: World, key: string, session: string, s: Snapshot, c: Context)
    ensures AcceptStep(w, key, session, s, c).1 == MessageError ==>
      AcceptStep(w, key, session, s, c).0.memory == w.memory && AcceptStep(w, key, session, s, c).0.disk == w.disk
  {
    hide Judge, AppendWorks, TransitionKey;
  }

  // ---- The index ----

  /** The runtime id is that of the stored tmux session. */
  predicate Bound(t: Target) {
    t.runtimeId == "" || (t.runtimeId == RuntimeId(t.tmux) && |t.tmux.fingerprint| == 16 && forall i :: 0 <= i < 16 ==> HexDigit(t.tmux.fingerprint[i]))
  }

  /** Within a runtime the index never drops and the state changes only with a larger one. */
  predicate Climbs(a: Target, b: Target) {
    a.runtimeId != "" ==>
      && b.runtimeId != ""
      && (b.runtimeId == a.runtimeId ==>
            a.stateIndex <= b.stateIndex && (b.state != a.state && a.state != "" ==> a.stateIndex < b.stateIndex) && (b.state == "" ==> a.state == ""))
  }

  /** The creation time never drops, and while it is the same so is the socket. */
  predicate Follows(a: Target, b: Target) {
    a.runtimeId != "" ==> a.tmux.created <= b.tmux.created && (a.tmux.created == b.tmux.created ==> a.tmux.fingerprint == b.tmux.fingerprint)
  }

  /** The second half is followed only where the runtime ids are those of the stored sessions. */
  predicate Progress(a: Target, b: Target, whole: bool) {
    Climbs(a, b) && (whole ==> Follows(a, b))
  }

  predicate Fits(t: Target, whole: bool) {
    whole ==> Bound(t)
  }

  /** What is on disk may be one accepted step ahead of memory. */
  predicate Sound(w: World, key: string, session: string, whole: bool) {
    var a, b := TargetAt(w.memory, key, session), TargetAt(w.disk, key, session);
    Fits(a, whole) && Fits(b, whole) && Progress(a, b, whole)
  }

  predicate Resets(op: Op, key: string, session: string) {
    op.Reset? && op.key == key && op.session == session
  }

  lemma SameBound(a: Target, s: Snapshot)
    requires Bound(a) && ValidSnapshot(s) && a.runtimeId != "" && a.runtimeId == s.runtimeId
    ensures a.tmux == s.tmux
  {
    RuntimesAreDistinct(Snapshot("", "", a.tmux, a.runtimeId, "running", 1, 0, ""), s);
  }

  /** Accepting a snapshot is progress. */
  lemma AcceptedIsProgress(previous: Target, session: string, s: Snapshot, whole: bool)
    requires Fits(previous, whole) && ValidSnapshot(s) && Judge(previous, s).Newer?
    ensures var next := Refreshed(previous, session, s, Judge(previous, s).transition);
      Fits(next, whole) && Progress(previous, next, whole)
  {
    if whole && previous.runtimeId != "" && previous.runtimeId == s.runtimeId {
      SameBound(previous, s);
    }
    hide RuntimeId, TransitionKey;
    assert RuntimeId(s.tmux) == s.runtimeId;
  }

  /** Two targets with the same runtime, index, state and session. */
  predicate Alike(a: Target, b: Target) {
    a.runtimeId == b.runtimeId && a.stateIndex == b.stateIndex && a.state == b.state && a.tmux == b.tmux
  }

  /** An update of one record leaves the other targets as they are in memory, also on disk. */
  lemma UpdatedSound(w: World, w': World, updated: string, record: Endpoint, fate: MS.Fate, key: string, session: string, whole: bool)
    requires Sound(w, key, session, whole) && w' == Updated(w, updated, record, fate)
    requires updated == key ==>
      Fits(TargetOf(record, session), whole) && Progress(TargetAt(w.memory, key, session), TargetOf(record, session), whole)
    ensures Sound(w', key, session, whole) && Progress(TargetAt(w.memory, key, session), TargetAt(w'.memory, key, session), whole)
  {
    hide Fits;
  }

  lemma StepProgress(w: World, op: Op, key: string, session: string, whole: bool)
    requires Legal(op) && !Resets(op, key, session) && Sound(w, key, session, whole)
    ensures Sound(Step(w, op), key, session, whole)
    ensures Progress(TargetAt(w.memory, key, session), TargetAt(Step(w, op).memory, key, session), whole)
  {
    hide Fits, Progress, Judge, AppendWorks, TransitionDraft;
    var t := TargetAt(w.memory, key, session);
    match op
    case Snap(k, n, s, c) =>
      SnapProgress(w, k, n, s, c, key, session, whole);
    case Reset(k, n, id, created, fate) =>
      Keeps(t, t, whole);
      UpdatedSound(w, Step(w, op), k, Prepare(RecordOf(w.memory, k), n, id, created), fate, key, session, whole);
    case MarkTarget(k, n, component, version, fate) =>
      var record := MarkComponent(RecordOf(w.memory, k), n, component, version);
      Keeps(t, if k == key then TargetOf(record, session) else t, whole);
      UpdatedSound(w, Step(w, op), k, record, fate, key, session, whole);
    case Restart =>
      Keeps(TargetAt(w.disk, key, session), TargetAt(w.disk, key, session), whole);
    case Elsewhere(_, _) =>
      Keeps(t, t, whole);
  }

  lemma Keeps(a: Target, b: Target, whole: bool)
    requires Alike(a, b)
    ensures Progress(a, b, whole) && (Fits(a, whole) ==> Fits(b, whole))
  {}

  /** Failures and refreshed metadata leave every projection alone. */
  lemma SyncKeeps(record: Endpoint, n: string, status: string, session: string)
    ensures Alike(TargetOf(record, session), TargetOf(SyncFailure(record, n, status), session))
    ensures Alike(TargetOf(record, session), TargetOf(SyncMetadata(record, n), session))
  {}

  lemma AcceptTarget(record: Endpoint, n: string, s: Snapshot, transition: bool, session: string)
    ensures TargetOf(Accept(record, n, s, transition), session)
      == if n == session then Refreshed(TargetOf(record, n), n, s, transition) else TargetOf(record, session)
  {
    hide Refreshed;
  }

  lemma SnapProgress(w: World, k: string, n: string, s: Snapshot, c: Context, key: string, session: string, whole: bool)
    requires ValidSnapshot(s) && Sound(w, key, session, whole)
    ensures var w' := AcceptStep(w, k, n, s, c).0;
      Sound(w', key, session, whole) && Progress(TargetAt(w.memory, key, session), TargetAt(w'.memory, key, session), whole)
  {
    var record := RecordOf(w.memory, k);
    var previous := TargetOf(record, n);
    var t := TargetOf(record, session);
    var w' := AcceptStep(w, k, n, s, c).0;
    Keeps(t, t, whole);
    SyncKeeps(record, n, "stale", session);
    hide Fits, Progress, Judge, AppendWorks, TransitionDraft, Refreshed, ValidSnapshot, TransitionKey, Accept, SyncFailure, SyncMetadata, Alike, Updated, Sound;
    match Judge(previous, s)
    case Stale =>
      SyncProgress(w, w', k, SyncFailure(record, n, "stale"), c.fate, key, session, whole);
    case Same =>
      SyncProgress(w, w', k, SyncMetadata(record, n), c.fate, key, session, whole);
    case Newer(transition) =>
      var r := Accept(record, n, s, transition);
      AcceptTarget(record, n, s, transition, session);
      if k == key && n == session {
        SoundFits(w, key, session, whole);
        AcceptedIsProgress(previous, n, s, whole);
      }
      var told := w.(messages := w'.messages);
      SameProjection(w, told, key, session, whole);
      AcceptParts(w, k, n, s, c, transition);
      if w' != told {
        if k == key {
          SoundFits(w, key, session, whole);
        }
        SnapUpdated(told, w', k, r, c.fate, key, session, whole);
      }
  }

  /** An update that leaves the projections of its record alone. */
  lemma SyncProgress(w: World, w': World, updated: string, record: Endpoint, fate: MS.Fate, key: string, session: string, whole: bool)
    requires Sound(w, key, session, whole) && w' == Updated(w, updated, record, fate)
    requires Alike(TargetAt(w.memory, updated, session), TargetOf(record, session))
    ensures Sound(w', key, session, whole) && Progress(TargetAt(w.memory, key, session), TargetAt(w'.memory, key, session), whole)
  {
    Keeps(TargetAt(w.memory, updated, session), TargetOf(record, session), whole);
    SnapUpdated(w, w', updated, record, fate, key, session, whole);
  }

  lemma SoundFits(w: World, key: string, session: string, whole: bool)
    requires Sound(w, key, session, whole)
    ensures Fits(TargetAt(w.memory, key, session), whole)
  {}

  lemma SameProjection(w: World, told: World, key: string, session: string, whole: bool)
    requires Sound(w, key, session, whole) && told.memory == w.memory && told.disk == w.disk
    ensures Sound(told, key, session, whole) && Progress(TargetAt(w.memory, key, session), TargetAt(told.memory, key, session), whole)
  {}

  lemma AcceptParts(w: World, k: string, n: string, s: Snapshot, c: Context, transition: bool)
    requires Judge(TargetAt(w.memory, k, n), s) == Newer(transition)
    ensures var w' := AcceptStep(w, k, n, s, c).0; var told := w.(messages := w'.messages);
      w' == told || w' == Updated(told, k, Accept(RecordOf(w.memory, k), n, s, transition), c.fate)
  {
    hide Judge, AppendWorks, TransitionDraft, Refreshed, TransitionKey, Accept;
  }

  lemma SnapUpdated(w: World, w': World, updated: string, record: Endpoint, fate: MS.Fate, key: string, session: string, whole: bool)
    requires Sound(w, key, session, whole) && w' == Updated(w, updated, record, fate)
    requires updated == key ==>
      (Fits(TargetAt(w.memory, key, session), whole) ==> Fits(TargetOf(record, session), whole)) && Progress(TargetAt(w.memory, key, session), TargetOf(record, session), whole)
    ensures Sound(w', key, session, whole) && Progress(TargetAt(w.memory, key, session), TargetAt(w'.memory, key, session), whole)
  {
    SoundFits(w, key, session, whole);
    UpdatedSound(w, w', updated, record, fate, key, session, whole);
  }

  // ---- Whole runs ----

  ghost predicate Fair(ops: seq<Op>, key: string, session: string) {
    forall i :: 0 <= i < |ops| ==> Legal(ops[i]) && !Resets(ops[i], key, session)
  }

  /** The target in memory after the first n steps. */
  ghost function After(w: World, ops: seq<Op>, n: nat, key: string, session: string): Target
    requires n <= |ops|
  {
    TargetAt(Run(w, ops[..n]).memory, key, session)
  }

  lemma {:induction false} RunSound(w: World, ops: seq<Op>, n: nat, key: string, session: string, whole: bool)
    requires Fair(ops, key, session) && Sound(w, key, session, whole) && n <= |ops|
    ensures Sound(Run(w, ops[..n]), key, session, whole)
    ensures n < |ops| ==> Progress(After(w, ops, n, key, session), After(w, ops, n + 1, key, session), whole)
  {
    hide Sound, Progress, Legal, Resets, Step, TargetAt;
    if n > 0 {
      RunSound(w, ops, n - 1, key, session, whole);
      StepProgress(Run(w, ops[..n - 1]), ops[n - 1], key, session, whole);
      assert ops[..n][..n - 1] == ops[..n - 1];
    }
    if n < |ops| {
      StepProgress(Run(w, ops[..n]), ops[n], key, session, whole);
      assert ops[..n + 1][..n] == ops[..n];
    }
  }

  ghost predicate OneRuntime(w: World, ops: seq<Op>, key: string, session: string) {
    forall i :: 0 <= i <= |ops| ==> After(w, ops, i, key, session).runtimeId == After(w, ops, 0, key, session).runtimeId
  }

  lemma ClimbsThen(a: Target, b: Target, c: Target)
    requires a.runtimeId != "" && a.runtimeId == b.runtimeId && Climbs(a, b) && Climbs(b, c)
    ensures Climbs(a, c)
  {}

  /** While one runtime stays, over any run without a re-initialisation of the target, the accepted
      index never drops and the state changes only with a strictly larger one: restarts and writes
      that landed although they failed included. */
  lemma {:induction false} IndexNeverDrops(w: World, ops: seq<Op>, n: nat, key: string, session: string)
    requires Fair(ops, key, session) && Sound(w, key, session, false) && n <= |ops|
    requires OneRuntime(w, ops, key, session) && After(w, ops, 0, key, session).runtimeId != ""
    ensures Climbs(After(w, ops, 0, key, session), After(w, ops, n, key, session))
  {
    var first := After(w, ops, 0, key, session);
    if n > 0 {
      IndexNeverDrops(w, ops, n - 1, key, session);
      RunSound(w, ops, n - 1, key, session, false);
      hide Climbs, After, Fair, Sound;
      assert After(w, ops, n - 1, key, session).runtimeId == first.runtimeId;
      ClimbsThen(first, After(w, ops, n - 1, key, session), After(w, ops, n, key, session));
    }
  }

  /** Whatever the runtimes: the creation time never drops, so no older tmux session comes back. */
  lemma {:induction false} CreatedNeverDrops(w: World, ops: seq<Op>, m: nat, n: nat, key: string, session: string)
    requires Fair(ops, key, session) && Sound(w, key, session, true) && m <= n <= |ops|
    requires After(w, ops, m, key, session).runtimeId != ""
    ensures After(w, ops, n, key, session).runtimeId != "" && Follows(After(w, ops, m, key, session), After(w, ops, n, key, session))
    decreases n - m
  {
    hide Fair, Sound, After;
    if m < n {
      RunSound(w, ops, m, key, session, true);
      CreatedNeverDrops(w, ops, m + 1, n, key, session);
    }
  }

  /** A runtime that is left comes back only after another session of the same socket and second. */
  lemma RuntimeStays(w: World, ops: seq<Op>, key: string, session: string)
    requires Fair(ops, key, session) && Sound(w, key, session, true)
    requires var a := After(w, ops, 0, key, session);
      && a.runtimeId != "" && After(w, ops, |ops|, key, session).runtimeId == a.runtimeId
      && forall i :: 0 <= i <= |ops| ==> After(w, ops, i, key, session).tmux.sessionId == a.tmux.sessionId
    ensures OneRuntime(w, ops, key, session)
  {
    var a, z := After(w, ops, 0, key, session), After(w, ops, |ops|, key, session);
    BoundAfter(w, ops, 0, key, session);
    BoundAfter(w, ops, |ops|, key, session);
    hide After, Fair, Sound;
    SameRuntime(a, z);
    forall i | 0 <= i <= |ops| ensures After(w, ops, i, key, session).runtimeId == a.runtimeId {
      var b := After(w, ops, i, key, session);
      CreatedNeverDrops(w, ops, 0, i, key, session);
      CreatedNeverDrops(w, ops, i, |ops|, key, session);
      BoundAfter(w, ops, i, key, session);
      assert b.tmux == a.tmux;
    }
  }

  lemma BoundAfter(w: World, ops: seq<Op>, n: nat, key: string, session: string)
    requires Fair(ops, key, session) && Sound(w, key, session, true) && n <= |ops|
    ensures Bound(After(w, ops, n, key, session))
  {
    RunSound(w, ops, n, key, session, true);
    hide Bound, Progress;
  }

  lemma SameRuntime(a: Target, b: Target)
    requires Bound(a) && Bound(b) && a.runtimeId == b.runtimeId != ""
    ensures a.tmux == b.tmux
  {
    RuntimesAreDistinct(Snapshot("", "", a.tmux, a.runtimeId, "running", 1, 0, ""), Snapshot("", "", b.tmux, b.runtimeId, "running", 1, 0, ""));
  }

  // ---- Where the intervals between re-initialisations start ----

  const EMPTY := World(map[], map[], false, None)

  /** Nothing stored is a sound start. */
  lemma EmptyIsSound(key: string, session: string, messages: Option<MS.Disk>)
    ensures Sound(EMPTY.(messages := messages), key, session, true)
  {}

  /** From any world: a snapshot that is accepted and written makes the target sound, whatever a
      re-initialisation or a failed write had left. */
  lemma SnapshotIsSound(w: World, key: string, session: string, s: Snapshot, c: Context)
    requires ValidSnapshot(s) && Judge(TargetAt(w.memory, key, session), s).Newer? && AcceptStep(w, key, session, s, c).1 == Done
    ensures Sound(AcceptStep(w, key, session, s, c).0, key, session, true)
    ensures TargetAt(AcceptStep(w, key, session, s, c).0.memory, key, session).runtimeId == s.runtimeId != ""
  {
    var transition := Judge(TargetAt(w.memory, key, session), s).transition;
    AcceptParts(w, key, session, s, c, transition);
    AcceptTarget(RecordOf(w.memory, key), session, s, transition, session);
    hide Judge, AppendWorks, TransitionDraft, TransitionKey;
    assert RuntimeId(s.tmux) != "";
  }

  /** From any world: a written re-initialisation leaves memory and disk agreeing on the target. */
  lemma ResetIsSound(w: World, key: string, session: string, sessionId: string, created: nat)
    requires !w.broken
    ensures Sound(Step(w, Reset(key, session, sessionId, created, MS.Written)), key, session, false)
  {}

  /** From a written re-initialisation, in any world, to the next one: the index never drops while the
      runtime that was kept stays. */
  lemma IndexAfterReset(w: World, sessionId: string, created: nat, ops: seq<Op>, n: nat, key: string, session: string)
    requires !w.broken && Fair(ops, key, session) && n <= |ops|
    requires var v := Step(w, Reset(key, session, sessionId, created, MS.Written));
      OneRuntime(v, ops, key, session) && After(v, ops, 0, key, session).runtimeId != ""
    ensures var v := Step(w, Reset(key, session, sessionId, created, MS.Written));
      Climbs(After(v, ops, 0, key, session), After(v, ops, n, key, session))
  {
    ResetIsSound(w, key, session, sessionId, created);
    hide Step, Sound, OneRuntime;
    IndexNeverDrops(Step(w, Reset(key, session, sessionId, created, MS.Written)), ops, n, key, session);
  }

  /** From an accepted and written snapshot, in any world, to the next re-initialisation: the creation
      time never drops, and while the runtime stays neither does the index. */
  lemma IntervalAfterSnapshot(w: World, s: Snapshot, c: Context, ops: seq<Op>, n: nat, key: string, session: string)
    requires ValidSnapshot(s) && Judge(TargetAt(w.memory, key, session), s).Newer? && AcceptStep(w, key, session, s, c).1 == Done
    requires Fair(ops, key, session) && n <= |ops|
    ensures var v := AcceptStep(w, key, session, s, c).0; var a, b := After(v, ops, 0, key, session), After(v, ops, n, key, session);
      && a.runtimeId == s.runtimeId && b.runtimeId != "" && Follows(a, b)
      && (OneRuntime(v, ops, key, session) ==> Climbs(a, b))
  {
    var v := AcceptStep(w, key, session, s, c).0;
    SnapshotIsSound(w, key, session, s, c);
    assert ops[..0] == [];
    assert After(v, ops, 0, key, session) == TargetAt(v.memory, key, session);
    hide AcceptStep, OneRuntime, After, Follows, Climbs;
    CreatedNeverDrops(v, ops, 0, n, key, session);
    if OneRuntime(v, ops, key, session) {
      assert Sound(v, key, session, false);
      IndexNeverDrops(v, ops, n, key, session);
    }
  }

  // ---- The key of the last transition ----

  /** Some step so far has left a message of this key in the store. */
  ghost predicate WasTold(w: World, ops: seq<Op>, n: nat, told: string)
    requires n <= |ops|
  {
    exists m: nat :: m <= n && ToldAt(w, ops, m, told)
  }

  ghost predicate ToldAt(w: World, ops: seq<Op>, m: nat, told: string) {
    m <= |ops| && Run(w, ops[..m]).messages.Some? && HasKey(Run(w, ops[..m]).messages.value, told)
  }

  function LastKey(endpoints: map<string, Endpoint>, key: string, session: string): string {
    TargetAt(endpoints, key, session).lastTransitionKey
  }

  /** A step leaves a last key that memory or disk had, or one whose message it has just stored. */
  ghost predicate KeyFrom(w: World, w': World, told: string, key: string, session: string) {
    || told == LastKey(w.memory, key, session) || told == LastKey(w.disk, key, session)
    || (w'.messages.Some? && HasKey(w'.messages.value, told))
  }

  lemma UpdatedKeys(w: World, v: World, w': World, updated: string, record: Endpoint, fate: MS.Fate, key: string, session: string)
    requires v.memory == w.memory && v.disk == w.disk && w' == Updated(v, updated, record, fate)
    requires updated == key ==> KeyFrom(w, w', TargetOf(record, session).lastTransitionKey, key, session)
    ensures KeyFrom(w, w', LastKey(w'.memory, key, session), key, session) && KeyFrom(w, w', LastKey(w'.disk, key, session), key, session)
  {
    hide HasKey;
  }

  lemma SnapKeys(w: World, k: string, n: string, s: Snapshot, c: Context, key: string, session: string)
    requires w.messages.Some?
    ensures var w' := AcceptStep(w, k, n, s, c).0;
      KeyFrom(w, w', LastKey(w'.memory, key, session), key, session) && KeyFrom(w, w', LastKey(w'.disk, key, session), key, session)
  {
    var record := RecordOf(w.memory, k);
    var w', outcome := AcceptStep(w, k, n, s, c).0, AcceptStep(w, k, n, s, c).1;
    if outcome == MessageError {
      UntoldChangesNothing(w, k, n, s, c);
    } else {
      match Judge(TargetOf(record, n), s)
      case Stale =>
        UpdatedKeys(w, w, w', k, SyncFailure(record, n, "stale"), c.fate, key, session);
      case Same =>
        UpdatedKeys(w, w, w', k, SyncMetadata(record, n), c.fate, key, session);
      case Newer(transition) =>
        AcceptTarget(record, n, s, transition, session);
        if transition {
          TransitionIsTold(w, k, n, s, c);
        }
        AcceptMoves(w, k, n, s, c, transition);
        hide Judge, AcceptStep, HasKey, Accept, TransitionKey, Updated;
        UpdatedKeys(w, w.(messages := w'.messages), w', k, Accept(record, n, s, transition), c.fate, key, session);
    }
  }

  lemma AcceptMoves(w: World, k: string, n: string, s: Snapshot, c: Context, transition: bool)
    requires Judge(TargetAt(w.memory, k, n), s) == Newer(transition) && AcceptStep(w, k, n, s, c).1 != MessageError
    ensures var w' := AcceptStep(w, k, n, s, c).0;
      w' == Updated(w.(messages := w'.messages), k, Accept(RecordOf(w.memory, k), n, s, transition), c.fate)
  {
    hide Judge, AppendWorks, TransitionDraft, Refreshed, TransitionKey, Accept;
  }

  lemma StepKeys(w: World, op: Op, key: string, session: string)
    requires w.messages.Some?
    ensures var w' := Step(w, op);
      && w'.messages.Some?
      && KeyFrom(w, w', LastKey(w'.memory, key, session), key, session) && KeyFrom(w, w', LastKey(w'.disk, key, session), key, session)
  {
    var w' := Step(w, op);
    hide AcceptStep, HasKey, Updated;
    match op
    case Snap(k, n, s, c) =>
      SnapKeys(w, k, n, s, c, key, session);
      MessagesStay(w, k, n, s, c);
    case Reset(k, n, id, created, fate) =>
      UpdatedMessages(w, k, Prepare(RecordOf(w.memory, k), n, id, created), fate);
      UpdatedKeys(w, w, w', k, Prepare(RecordOf(w.memory, k), n, id, created), fate, key, session);
    case MarkTarget(k, n, component, version, fate) =>
      UpdatedMessages(w, k, MarkComponent(RecordOf(w.memory, k), n, component, version), fate);
      UpdatedKeys(w, w, w', k, MarkComponent(RecordOf(w.memory, k), n, component, version), fate, key, session);
    case _ =>
  }

  lemma UpdatedMessages(w: World, key: string, record: Endpoint, fate: MS.Fate)
    ensures Updated(w, key, record, fate).messages == w.messages
  {}

  lemma MessagesStay(w: World, key: string, session: string, s: Snapshot, c: Context)
    requires w.messages.Some?
    ensures AcceptStep(w, key, session, s, c).0.messages.Some?
  {
    hide Judge, AppendWorks, TransitionKey, Accept, SyncFailure, SyncMetadata;
  }

  /** Over any run from an empty store: a target that carries the key of a transition, in memory or on
      disk, carries one whose message was stored at some step before. */
  lemma {:induction false} LastKeyWasTold(messages: MS.Disk, ops: seq<Op>, n: nat, key: string, session: string)
    requires n <= |ops|
    ensures var w := EMPTY.(messages := Some(messages)); var v := Run(w, ops[..n]);
      && v.messages.Some?
      && (LastKey(v.memory, key, session) != "" ==> WasTold(w, ops, n, LastKey(v.memory, key, session)))
      && (LastKey(v.disk, key, session) != "" ==> WasTold(w, ops, n, LastKey(v.disk, key, session)))
  {
    var w := EMPTY.(messages := Some(messages));
    if n > 0 {
      LastKeyWasTold(messages, ops, n - 1, key, session);
      var v := Run(w, ops[..n - 1]);
      assert ops[..n][..n - 1] == ops[..n - 1];
      StepKeys(v, ops[n - 1], key, session);
      assert Run(w, ops[..n]) == Step(v, ops[n - 1]);
      hide Step, Run, HasKey, LastKey;
      ToldLater(w, ops, n, v, LastKey(Run(w, ops[..n]).memory, key, session), key, session);
      ToldLater(w, ops, n, v, LastKey(Run(w, ops[..n]).disk, key, session), key, session);
    } else {
      assert ops[..0] == [];
    }
  }

  lemma ToldLater(w: World, ops: seq<Op>, n: nat, v: World, told: string, key: string, session: string)
    requires 0 < n <= |ops| && v == Run(w, ops[..n - 1]) && KeyFrom(v, Run(w, ops[..n]), told, key, session)
    requires LastKey(v.memory, key, session) != "" ==> WasTold(w, ops, n - 1, LastKey(v.memory, key, session))
    requires LastKey(v.disk, key, session) != "" ==> WasTold(w, ops, n - 1, LastKey(v.disk, key, session))
    ensures told != "" ==> WasTold(w, ops, n, told)
  {
    hide Run, HasKey, LastKey;
    if told != "" {
      if told == LastKey(v.memory, key, session) || told == LastKey(v.disk, key, session) {
        var m: nat :| m <= n - 1 && ToldAt(w, ops, m, told);
      } else {
        assert ToldAt(w, ops, n, told);
      }
    }
  }

  // ---- When the index does drop ----

  const FIRST := Tmux("$1", 7, "0123456789abcdef")
  const SECOND := Tmux("$2", 7, "0123456789abcdef")

  function Report(t: Tmux, state: string, index: nat): Snapshot {
    Snapshot("codex", "1", t, RuntimeId(t), state, index, 1, "e")
  }

  function Return(c: Context): seq<Op> {
    [Snap("k", "s", Report(FIRST, "running", 5), c)] + [Snap("k", "s", Report(SECOND, "running", 1), c)] + [Snap("k", "s", Report(FIRST, "relax", 3), c)]
  }

  lemma RuntimesDiffer()
    ensures RuntimeId(FIRST) != RuntimeId(SECOND)
  {
    assert RuntimeId(FIRST)[1] == '1' && RuntimeId(SECOND)[1] == '2';
  }

  /** Two tmux sessions of one socket, created in the same second: the second takes over, and a late
      report of the first takes over again with a smaller index. */
  lemma ReturnLowersIndex(c: Context)
    requires c.fate == MS.Written
    ensures Fair(Return(c), "k", "s") && |Return(c)| == 3
    ensures After(EMPTY, Return(c), 3, "k", "s").runtimeId == After(EMPTY, Return(c), 1, "k", "s").runtimeId
    ensures After(EMPTY, Return(c), 1, "k", "s").stateIndex == 5 && After(EMPTY, Return(c), 3, "k", "s").stateIndex == 3
  {
    ReportsAreValid();
    RuntimesDiffer();
    hide RuntimeId, ValidSnapshot, Run, Step;
    TakesOver(Return(c), Report(FIRST, "running", 5), Report(SECOND, "running", 1), Report(FIRST, "relax", 3), c);
  }

  /** Any such three reports, to an empty store. */
  lemma TakesOver(ops: seq<Op>, a: Snapshot, b: Snapshot, late: Snapshot, c: Context)
    requires c.fate == MS.Written && |ops| == 3
    requires ops[0] == Snap("k", "s", a, c) && ops[1] == Snap("k", "s", b, c) && ops[2] == Snap("k", "s", late, c)
    requires a.runtimeId == late.runtimeId != b.runtimeId && a.tmux == late.tmux
    requires a.tmux.created == b.tmux.created && a.tmux.fingerprint == b.tmux.fingerprint
    ensures After(EMPTY, ops, 1, "k", "s").runtimeId == a.runtimeId && After(EMPTY, ops, 3, "k", "s").runtimeId == a.runtimeId
    ensures After(EMPTY, ops, 1, "k", "s").stateIndex == a.latestIndex && After(EMPTY, ops, 3, "k", "s").stateIndex == late.latestIndex
  {
    hide AcceptStep, Run, TransitionKey, TargetAt;
    RunNone(EMPTY, ops);
    RunMore(EMPTY, ops, 0);
    RunMore(EMPTY, ops, 1);
    RunMore(EMPTY, ops, 2);
    TakeOver(Run(EMPTY, ops[..1]), Run(EMPTY, ops[..2]), a, b, late, c);
  }

  lemma TakeOver(w1: World, w2: World, a: Snapshot, b: Snapshot, late: Snapshot, c: Context)
    requires c.fate == MS.Written && w1 == AcceptStep(EMPTY, "k", "s", a, c).0 && w2 == AcceptStep(w1, "k", "s", b, c).0
    requires a.runtimeId == late.runtimeId != b.runtimeId && a.tmux == late.tmux
    requires a.tmux.created == b.tmux.created && a.tmux.fingerprint == b.tmux.fingerprint
    ensures TargetAt(w1.memory, "k", "s").runtimeId == a.runtimeId && TargetAt(w1.memory, "k", "s").stateIndex == a.latestIndex
    ensures var t := TargetAt(AcceptStep(w2, "k", "s", late, c).0.memory, "k", "s"); t.runtimeId == a.runtimeId && t.stateIndex == late.latestIndex
  {
    assert TargetAt(EMPTY.memory, "k", "s") == NO_TARGET;
    hide AcceptStep, TransitionKey, TargetAt;
    AcceptedAlone(EMPTY, a, c);
    AcceptedAlone(w1, b, c);
    AcceptedAlone(w2, late, c);
  }

  lemma RunNone(w: World, ops: seq<Op>)
    ensures Run(w, ops[..0]) == w
  {}

  lemma RunMore(w: World, ops: seq<Op>, n: nat)
    requires n < |ops|
    ensures Run(w, ops[..n + 1]) == Step(Run(w, ops[..n]), ops[n])
  {
    hide Step;
    assert ops[..n + 1][..n] == ops[..n];
  }

  lemma ReportsAreValid()
    ensures ValidSnapshot(Report(FIRST, "running", 5)) && ValidSnapshot(Report(SECOND, "running", 1)) && ValidSnapshot(Report(FIRST, "relax", 3))
  {
    hide RuntimeId;
  }

  /** A snapshot of another runtime that is not older is taken over without a message. */
  lemma AcceptedAlone(w: World, s: Snapshot, c: Context)
    requires !w.broken && c.fate == MS.Written && Judge(TargetAt(w.memory, "k", "s"), s) == Newer(false)
    ensures var v := AcceptStep(w, "k", "s", s, c).0;
      !v.broken && TargetAt(v.memory, "k", "s") == Refreshed(TargetAt(w.memory, "k", "s"), "s", s, false)
  {
    hide Judge, AppendWorks, TransitionKey;
  }
}
