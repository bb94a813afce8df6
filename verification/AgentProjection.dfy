/** The agent projection: snapshots of remote runtimes accepted into the endpoint store, with a message
    appended before every change of state. */
module AgentProjection {
  import opened Common
  import MF = MessageFile
  import MS = MessageStore

  // ---- Records ----

  datatype Tmux = Tmux(sessionId: string, created: nat, fingerprint: string)

  datatype Snapshot = Snapshot(provider: string, componentVersion: string, tmux: Tmux, runtimeId: string,
                               state: string, latestIndex: nat, occurredAt: MF.Time, eventName: string)

  /** The stored projection of one tmux session. */
  datatype Target = Target(sessionName: string, provider: string, tmux: Tmux, runtimeId: string, state: string,
                           stateIndex: nat, syncStatus: string, component: string, componentVersion: string,
                           activity: string, lastEventName: string, lastTransitionKey: string)

  const NO_TARGET := Target("", "", Tmux("", 0, ""), "", "", 0, "", "", "", "", "", "")

  datatype Endpoint = Endpoint(installation: string, componentVersion: string, targets: map<string, Target>)

  const NO_ENDPOINT := Endpoint("", "", map[])

  function RecordOf(endpoints: map<string, Endpoint>, key: string): Endpoint {
    if key in endpoints then endpoints[key] else NO_ENDPOINT
  }

  function TargetOf(record: Endpoint, session: string): Target {
    if session in record.targets then record.targets[session] else NO_TARGET
  }

  function TargetAt(endpoints: map<string, Endpoint>, key: string, session: string): Target {
    TargetOf(RecordOf(endpoints, key), session)
  }

  function WithTarget(record: Endpoint, session: string, t: Target): Endpoint {
    record.(targets := record.targets[session := t])
  }

  /** The text whose digest is the runtime id; the digest itself is taken to be injective. */
  function RuntimeId(t: Tmux): string {
    t.sessionId + "|" + Decimal(t.created) + "|" + t.fingerprint
  }

  predicate HexDigit(c: char) {
    '0' <= c <= '9' || 'a' <= c <= 'f' || 'A' <= c <= 'F'
  }

  /** What the checks before acceptSnapshot leave of a snapshot. */
  predicate ValidSnapshot(s: Snapshot) {
    && MF.ValidState(s.state) && s.latestIndex > 0 && s.runtimeId == RuntimeId(s.tmux)
    && |s.tmux.fingerprint| == 16 && forall i :: 0 <= i < 16 ==> HexDigit(s.tmux.fingerprint[i])
  }

  // ---- Keys ----

  const NUL := '\0'

  function TransitionKey(runtimeId: string, index: nat): string {
    runtimeId + [NUL] + Decimal(index)
  }

  /** Two texts around a separator that the later ones do not hold. */
  lemma {:induction false} SplitAtLast(a: string, b: string, c: string, d: string, sep: char)
    requires a + [sep] + b == c + [sep] + d && sep !in b && sep !in d
    ensures a == c && b == d
  {
    var s, t := a + [sep] + b, c + [sep] + d;
    assert s[|a|] == sep && t[|c|] == sep;
    assert forall i :: |a| < i < |s| ==> s[i] == b[i - |a| - 1];
    assert forall i :: |c| < i < |t| ==> t[i] == d[i - |c| - 1];
    assert |a| == |c|;
    assert s[..|a|] == a && t[..|c|] == c && s[|a| + 1..] == b && t[|c| + 1..] == d;
  }

  /** A key belongs to one runtime and one index. */
  lemma KeysAreDistinct(r: string, i: nat, s: string, j: nat)
    requires TransitionKey(r, i) == TransitionKey(s, j)
    ensures r == s && i == j
  {
    SplitAtLast(r, Decimal(i), s, Decimal(j), NUL);
    DecimalInjective(i, j);
  }

  /** A runtime id belongs to one session, creation time and socket. */
  lemma RuntimesAreDistinct(a: Snapshot, b: Snapshot)
    requires ValidSnapshot(a) && ValidSnapshot(b) && a.runtimeId == b.runtimeId
    ensures a.tmux == b.tmux
  {
    var s, t := a.tmux, b.tmux;
    assert forall i :: 0 <= i < 16 ==> HexDigit(s.fingerprint[i]) && HexDigit(t.fingerprint[i]);
    assert RuntimeId(s) == (s.sessionId + "|" + Decimal(s.created)) + ['|'] + s.fingerprint;
    assert RuntimeId(t) == (t.sessionId + "|" + Decimal(t.created)) + ['|'] + t.fingerprint;
    SplitAtLast(s.sessionId + "|" + Decimal(s.created), s.fingerprint, t.sessionId + "|" + Decimal(t.created), t.fingerprint, '|');
    SplitAtLast(s.sessionId, Decimal(s.created), t.sessionId, Decimal(t.created), '|');
    DecimalInjective(s.created, t.created);
  }

  // ---- Steps ----

  datatype World = World(memory: map<string, Endpoint>, disk: map<string, Endpoint>, broken: bool, messages: Option<MS.Disk>)

  /** What a snapshot meets: its labels and identifiers, the clock, and what becomes of the two writes. */
  datatype Context = Context(messageId: string, now: MF.Time, connectionLabel: string, fallbackLabel: string,
                             instanceIds: seq<string>, definitionIds: seq<string>, messageFate: MS.Fate, fate: MS.Fate)

  datatype Outcome = Done | StaleError | MessageError | StoreError

  datatype Verdict = Stale | Same | Newer(transition: bool)

  predicate OlderRuntime(previous: Target, s: Snapshot) {
    if s.tmux.created != previous.tmux.created then s.tmux.created < previous.tmux.created
    else s.tmux.fingerprint != previous.tmux.fingerprint
  }

  function Judge(previous: Target, s: Snapshot): Verdict {
    var sameRuntime := previous.runtimeId != "" && previous.runtimeId == s.runtimeId;
    if previous.runtimeId != "" && !sameRuntime && OlderRuntime(previous, s) then Stale
    else if sameRuntime && s.latestIndex < previous.stateIndex then Stale
    else if sameRuntime && s.latestIndex == previous.stateIndex && previous.state != ""
    then if previous.state != s.state then Stale else Same
    else Newer(sameRuntime && previous.state != "" && previous.state != s.state)
  }

  function ActivityForState(state: string): string {
    if state == "running" then "running" else if state == "relax" then "idle" else if state == "error" then "failed" else "unknown"
  }

  function Severity(state: string): string {
    if state == "error" then "error" else if state == "relax" then "success" else "info"
  }

  function TransitionDraft(key: string, session: string, from: string, s: Snapshot, c: Context): MF.Draft {
    MF.Draft(c.messageId, TransitionKey(s.runtimeId, s.latestIndex), "agent_state_transition", Severity(s.state), s.provider,
             "agent_state_transition", s.occurredAt, c.now, key, c.fallbackLabel, c.connectionLabel, session, s.tmux.sessionId,
             s.tmux.created, c.instanceIds, c.definitionIds, from, s.state, s.runtimeId, s.latestIndex)
  }

  function Refreshed(previous: Target, session: string, s: Snapshot, transition: bool): Target {
    previous.(sessionName := session, provider := s.provider, tmux := s.tmux, runtimeId := s.runtimeId, state := s.state,
              stateIndex := s.latestIndex, syncStatus := "available", component := "ready", componentVersion := s.componentVersion,
              activity := ActivityForState(s.state), lastEventName := s.eventName,
              lastTransitionKey := if transition then TransitionKey(s.runtimeId, s.latestIndex) else previous.lastTransitionKey)
  }

  /** The endpoint record that an accepted snapshot leaves. */
  function Accept(record: Endpoint, session: string, s: Snapshot, transition: bool): Endpoint {
    WithTarget(record, session, Refreshed(TargetOf(record, session), session, s, transition)).(
      componentVersion := s.componentVersion,
      installation := if record.installation == "" || record.installation == "initializing" then "ready" else record.installation)
  }

  function SyncFailure(record: Endpoint, session: string, status: string): Endpoint {
    WithTarget(record, session, TargetOf(record, session).(sessionName := session, syncStatus := status))
  }

  function SyncMetadata(record: Endpoint, session: string): Endpoint {
    WithTarget(record, session, TargetOf(record, session).(syncStatus := "available"))
  }

  /** The projection starts again; the runtime id and the last transition stay. */
  function Prepare(record: Endpoint, session: string, sessionId: string, created: nat): Endpoint {
    var t := TargetOf(record, session);
    WithTarget(record, session, t.(sessionName := session, tmux := t.tmux.(sessionId := sessionId, created := created), state := "",
                                   stateIndex := 0, syncStatus := "pending", component := "initializing", activity := "unknown")).(
      installation := "initializing")
  }

  /** The outcome of an initialisation on the installed component. */
  function MarkComponent(record: Endpoint, session: string, component: string, version: string): Endpoint {
    WithTarget(record, session, TargetOf(record, session).(sessionName := session, component := component, componentVersion := version,
                                                            activity := "unknown")).(installation := component, componentVersion := version)
  }

  /** A write that fails is undone in memory; on disk it may have landed. */
  function Updated(w: World, key: string, record: Endpoint, fate: MS.Fate): World {
    if w.broken || fate == MS.Refused then w
    else if fate == MS.Written then w.(memory := w.memory[key := record], disk := w.memory[key := record])
    else w.(disk := w.memory[key := record])
  }

  predicate UpdateWorks(w: World, fate: MS.Fate) {
    !w.broken && fate == MS.Written
  }

  ghost predicate AppendWorks(d: MS.Disk, draft: MF.Draft, now: MF.Time, fate: MS.Fate) {
    MS.Load(d).Some? && MF.ValidDraft(draft)
      && (var saved := MS.Effect(MS.Load(d).value, MS.Append(draft, now)); saved.Some? ==> MS.Accepted(saved.value) && fate == MS.Written)
  }

  ghost function Appended(w: World, draft: MF.Draft, c: Context): World {
    if w.messages.None? then w else w.(messages := Some(MS.Next(w.messages.value, MS.Append(draft, c.now), c.messageFate)))
  }

  ghost predicate Tells(w: World, draft: MF.Draft, c: Context) {
    w.messages.Some? ==> AppendWorks(w.messages.value, draft, c.now, c.messageFate)
  }

  /** The message first, then the projection. */
  ghost function AcceptStep(w: World, key: string, session: string, s: Snapshot, c: Context): (World, Outcome) {
    var record := RecordOf(w.memory, key);
    var previous := TargetOf(record, session);
    match Judge(previous, s)
    case Stale => (Updated(w, key, SyncFailure(record, session, "stale"), c.fate), StaleError)
    case Same => (Updated(w, key, SyncMetadata(record, session), c.fate), if UpdateWorks(w, c.fate) then Done else StoreError)
    case Newer(transition) =>
      var draft := TransitionDraft(key, session, previous.state, s, c);
      var tell := transition && previous.lastTransitionKey != TransitionKey(s.runtimeId, s.latestIndex);
      var told := if tell then Appended(w, draft, c) else w;
      if tell && !Tells(w, draft, c) then (told, MessageError)
      else (Updated(told, key, Accept(record, session, s, transition), c.fate), if UpdateWorks(w, c.fate) then Done else StoreError)
  }

  // ---- The store and the service ----

  class EndpointStore {
    var memory: map<string, Endpoint>
    var disk: map<string, Endpoint>
    var broken: bool

    /** A store whose file was not accepted refuses every update. */
    constructor (decoded: map<string, Endpoint>, accepted: bool)
      ensures memory == decoded && disk == decoded && broken == !accepted
    {
      memory, disk, broken := decoded, decoded, !accepted;
    }

    method Update(key: string, change: Endpoint -> Endpoint, fate: MS.Fate) returns (ok: bool)
      modifies this
      ensures var before := World(old(memory), old(disk), broken, None); var record := change(RecordOf(old(memory), key));
        && World(memory, disk, broken, None) == Updated(before, key, record, fate) && ok == UpdateWorks(before, fate)
      ensures broken == old(broken)
    {
      if broken {
        return false;
      }
      var existed := key in memory;
      var previous := RecordOf(memory, key);
      memory := memory[key := change(previous)];
      ok := Save(fate);
      if !ok {
        if existed {
          memory := memory[key := previous];
        } else {
          memory := memory - {key};
        }
        assert memory == old(memory);
      }
    }

    method Save(fate: MS.Fate) returns (ok: bool)
      modifies this`disk
      ensures disk == (if fate == MS.Refused then old(disk) else memory) && ok == (fate == MS.Written)
    {
      if fate != MS.Refused {
        disk := memory;
      }
      return fate == MS.Written;
    }
  }

  class Service {
    const store: EndpointStore
    const messages: MS.Store?

    constructor (store: EndpointStore, messages: MS.Store?)
      ensures this.store == store && this.messages == messages
    {
      this.store, this.messages := store, messages;
    }

    ghost function Now(): World
      reads store, messages
    {
      World(store.memory, store.disk, store.broken, if messages == null then None else Some(messages.disk))
    }

    method AppendTransitionMessage(draft: MF.Draft, c: Context) returns (ok: bool)
      modifies messages
      ensures Now() == Appended(old(Now()), draft, c) && ok == Tells(old(Now()), draft, c)
    {
      if messages == null {
        return true;
      }
      hide MS.Load, MS.Effect, MS.Known, MS.Accepted;
      var r := messages.AppendMessage(draft, c.now, c.messageFate);
      return r.Success?;
    }

    method AcceptSnapshot(key: string, session: string, s: Snapshot, c: Context) returns (outcome: Outcome)
      modifies store, messages
      ensures (Now(), outcome) == AcceptStep(old(Now()), key, session, s, c)
    {
      hide Appended, Tells, Accept, SyncFailure, SyncMetadata, TransitionDraft, TransitionKey, OlderRuntime;
      var previous := TargetAt(store.memory, key, session);
      var sameRuntime := previous.runtimeId != "" && previous.runtimeId == s.runtimeId;
      if previous.runtimeId != "" && !sameRuntime && OlderRuntime(previous, s) {
        var _ := store.Update(key, r => SyncFailure(r, session, "stale"), c.fate);
        return StaleError;
      }
      if sameRuntime && s.latestIndex < previous.stateIndex {
        var _ := store.Update(key, r => SyncFailure(r, session, "stale"), c.fate);
        return StaleError;
      }
      if sameRuntime && s.latestIndex == previous.stateIndex {
        if previous.state != "" {
          if previous.state != s.state {
            var _ := store.Update(key, r => SyncFailure(r, session, "stale"), c.fate);
            return StaleError;
          }
          var ok := store.Update(key, r => SyncMetadata(r, session), c.fate);
          return if ok then Done else StoreError;
        }
      }
      var transition := sameRuntime && previous.state != "" && previous.state != s.state;
      if transition && previous.lastTransitionKey != TransitionKey(s.runtimeId, s.latestIndex) {
        var told := AppendTransitionMessage(TransitionDraft(key, session, previous.state, s, c), c);
        if !told {
          return MessageError;
        }
      }
      var ok := store.Update(key, r => Accept(r, session, s, transition), c.fate);
      return if ok then Done else StoreError;
    }
  }
}
