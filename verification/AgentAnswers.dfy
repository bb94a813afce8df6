/** What accepting a snapshot answers, and what it leaves in the projection and in the message store, in the terms of
    the snapshot and of the target before. */
module AgentAnswers {
  import opened Common
  import MF = MessageFile
  import MS = MessageStore
  import opened AgentProjection
  import opened AgentRuns

  // ---- The answer ----

  /** The snapshot belongs to another runtime that was there before the accepted one, or cannot be told from it. */
  predicate FromThePast(t: Target, s: Snapshot) {
    && t.runtimeId != "" && s.runtimeId != t.runtimeId
    && (s.tmux.created < t.tmux.created || (s.tmux.created == t.tmux.created && s.tmux.fingerprint != t.tmux.fingerprint))
  }

  /** The snapshot belongs to the accepted runtime and tells nothing later, or contradicts what is known. */
  predicate Contradicts(t: Target, s: Snapshot) {
    && t.runtimeId != "" && s.runtimeId == t.runtimeId
    && (s.latestIndex < t.stateIndex || (s.latestIndex == t.stateIndex && t.state !in {"", s.state}))
  }

  predicate Repeats(t: Target, s: Snapshot) {
    t.runtimeId != "" && s.runtimeId == t.runtimeId && s.latestIndex == t.stateIndex && t.state != "" && s.state == t.state
  }

  /** A change of state within the accepted runtime. */
  predicate Changes(t: Target, s: Snapshot) {
    t.runtimeId != "" && s.runtimeId == t.runtimeId && s.latestIndex > t.stateIndex && t.state !in {"", s.state}
  }

  lemma Judged(t: Target, s: Snapshot)
    ensures Judge(t, s) == Stale <==> FromThePast(t, s) || Contradicts(t, s)
    ensures Judge(t, s) == Same <==> Repeats(t, s)
    ensures Judge(t, s) == Newer(true) <==> Changes(t, s)
  {}

  /** Stale snapshots are exactly those from the past and those that contradict. Nothing is told for a change that is recorded
      already; a new change fails when its message cannot be appended, and every other snapshot fails only with the store. */
  lemma AnswerIs(w: World, key: string, session: string, s: Snapshot, c: Context)
    ensures var t := TargetAt(w.memory, key, session); var answer := AcceptStep(w, key, session, s, c).1;
      && (answer == StaleError <==> FromThePast(t, s) || Contradicts(t, s))
      && (answer == MessageError <==> (Changes(t, s) && t.lastTransitionKey != TransitionKey(s.runtimeId, s.latestIndex)
            && w.messages.Some? && !AppendWorks(w.messages.value, TransitionDraft(key, session, t.state, s, c), c.now, c.messageFate)))
      && (answer == StoreError <==> answer !in {StaleError, MessageError} && (w.broken || c.fate != MS.Written))
  {
    Judged(TargetAt(w.memory, key, session), s);
    hide Judge, AppendWorks, TransitionDraft, Accept, Updated, TransitionKey;
  }

  // ---- The projection ----

  /** Only the target of the snapshot's session changes, at one endpoint. */
  predicate Elsewhere(before: map<string, Endpoint>, after: map<string, Endpoint>, key: string, session: string) {
    && after.Keys == before.Keys + {key}
    && (forall k :: k in before && k != key ==> after[k] == before[k])
    && (forall n :: n in after[key].targets && n != session ==> n in RecordOf(before, key).targets && after[key].targets[n] == RecordOf(before, key).targets[n])
    && (forall n :: n in RecordOf(before, key).targets ==> n in after[key].targets)
  }

  /** The target of the session is the one of the snapshot, and the endpoint is ready. */
  predicate Follows(was: Endpoint, record: Endpoint, session: string, s: Snapshot) {
    var before, t := TargetOf(was, session), TargetOf(record, session);
    && t.sessionName == session && t.provider == s.provider && t.tmux == s.tmux && t.runtimeId == s.runtimeId
    && t.state == s.state && t.stateIndex == s.latestIndex
    && t.syncStatus == "available" && t.component == "ready" && t.componentVersion == s.componentVersion && t.lastEventName == s.eventName
    && (s.state == "running" ==> t.activity == "running") && (s.state == "relax" ==> t.activity == "idle") && (s.state == "error" ==> t.activity == "failed")
    && (s.state !in {"running", "relax", "error"} ==> t.activity == "unknown")
    && t.lastTransitionKey == (if Changes(before, s) then TransitionKey(s.runtimeId, s.latestIndex) else before.lastTransitionKey)
    && record.componentVersion == s.componentVersion
    && record.installation == (if was.installation in {"", "initializing"} then "ready" else was.installation)
    && record.targets.Keys == was.targets.Keys + {session} && forall n :: n in was.targets && n != session ==> record.targets[n] == was.targets[n]
  }

  lemma AcceptFollows(was: Endpoint, session: string, s: Snapshot)
    ensures Follows(was, Accept(was, session, s, Changes(TargetOf(was, session), s)), session, s)
  {
    hide TransitionKey;
  }

  lemma FollowsElsewhere(before: map<string, Endpoint>, key: string, session: string, s: Snapshot, record: Endpoint)
    requires Follows(RecordOf(before, key), record, session, s)
    ensures Elsewhere(before, before[key := record], key, session)
  {
    hide TransitionKey;
  }

  /** The target that an accepted snapshot leaves, field by field. */
  lemma AcceptedTarget(w: World, key: string, session: string, s: Snapshot, c: Context)
    requires var t := TargetAt(w.memory, key, session);
      !FromThePast(t, s) && !Contradicts(t, s) && !Repeats(t, s) && AcceptStep(w, key, session, s, c).1 == Done
    ensures var v := AcceptStep(w, key, session, s, c).0;
      && v.disk == v.memory && Elsewhere(w.memory, v.memory, key, session)
      && Follows(RecordOf(w.memory, key), v.memory[key], session, s)
  {
    var record := RecordOf(w.memory, key);
    Judged(TargetOf(record, session), s);
    AcceptFollows(record, session, s);
    FollowsElsewhere(w.memory, key, session, s, Accept(record, session, s, Changes(TargetOf(record, session), s)));
    hide AppendWorks, TransitionDraft, TransitionKey, Judge, Accept, Follows, Elsewhere;
    assert AcceptStep(w, key, session, s, c).0.memory == w.memory[key := Accept(record, session, s, Changes(TargetOf(record, session), s))];
  }

  /** A snapshot that repeats what is known marks the target available, and changes nothing else. */
  lemma RepeatedTarget(w: World, key: string, session: string, s: Snapshot, c: Context)
    requires Repeats(TargetAt(w.memory, key, session), s) && AcceptStep(w, key, session, s, c).1 == Done
    ensures var was, v := TargetAt(w.memory, key, session), AcceptStep(w, key, session, s, c).0;
      && v.messages == w.messages && v.disk == v.memory && Elsewhere(w.memory, v.memory, key, session)
      && TargetAt(v.memory, key, session) == was.(syncStatus := "available")
  {
    Judged(TargetAt(w.memory, key, session), s);
    hide Judge, AppendWorks, TransitionDraft, Accept;
  }

  /** A stale snapshot marks the target stale when that can be saved, and otherwise changes nothing. */
  lemma StaleTarget(w: World, key: string, session: string, s: Snapshot, c: Context)
    requires AcceptStep(w, key, session, s, c).1 == StaleError
    ensures var was, v := TargetAt(w.memory, key, session), AcceptStep(w, key, session, s, c).0;
      && v.messages == w.messages
      && (if !w.broken && c.fate == MS.Written
          then Elsewhere(w.memory, v.memory, key, session) && TargetAt(v.memory, key, session) == was.(sessionName := session, syncStatus := "stale")
          else v.memory == w.memory)
  {
    hide AppendWorks, TransitionDraft, Accept;
  }

  /** A re-initialisation that is saved starts the projection of its target again, with the runtime and the last change kept. */
  lemma ResetTarget(w: World, key: string, session: string, id: string, created: nat)
    requires !w.broken
    ensures var v := Step(w, Reset(key, session, id, created, MS.Written)); var was, t := TargetAt(w.memory, key, session), TargetAt(v.memory, key, session);
      && v.messages == w.messages && v.disk == v.memory && Elsewhere(w.memory, v.memory, key, session)
      && t.state == "" && t.stateIndex == 0 && t.syncStatus == "pending" && t.component == "initializing" && t.activity == "unknown"
      && t.sessionName == session && t.tmux.sessionId == id && t.tmux.created == created && t.tmux.fingerprint == was.tmux.fingerprint
      && t.runtimeId == was.runtimeId && t.lastTransitionKey == was.lastTransitionKey && t.provider == was.provider
      && v.memory[key].installation == "initializing"
  {}

  /** The outcome of an initialisation that is saved names the component, and leaves what was accepted. */
  lemma MarkedTarget(w: World, key: string, session: string, component: string, version: string)
    requires !w.broken
    ensures var v := Step(w, MarkTarget(key, session, component, version, MS.Written));
      && v.messages == w.messages && v.disk == v.memory && Elsewhere(w.memory, v.memory, key, session)
      && TargetAt(v.memory, key, session)
         == TargetAt(w.memory, key, session).(sessionName := session, component := component, componentVersion := version, activity := "unknown")
      && v.memory[key].installation == component && v.memory[key].componentVersion == version
  {}

  // ---- The message ----

  /** The message about a change of state, as it is found in the store. */
  predicate Reports(d: MF.Draft, key: string, session: string, from: string, s: Snapshot, c: Context) {
    && d.stateFrom == from && d.stateTo == s.state && d.runtimeId == s.runtimeId && d.stateIndex == s.latestIndex
    && d.tmuxSessionName == session && d.tmuxSessionId == s.tmux.sessionId && d.tmuxSessionCreated == s.tmux.created
    && (d.severity == "error" <==> s.state == "error") && (d.severity == "success" <==> s.state == "relax")
    && (d.severity == "info" <==> s.state !in {"error", "relax"})
    && d.agentType == s.provider && d.occurredAt == s.occurredAt && d.receivedAt == c.now && d.endpointKey == key
    && d.messageId == c.messageId && d.connectionLabel == c.connectionLabel && d.fallbackLabel == c.fallbackLabel
    && d.instanceIds == c.instanceIds && d.definitionIds == c.definitionIds
    && d.kind == "agent_state_transition" && d.presentationKey == "agent_state_transition"
    && d.idempotencyKey == s.runtimeId + ['\0'] + Decimal(s.latestIndex)
  }

  /** No message that is kept has the key. */
  ghost predicate Unknown(d: MS.Disk, key: string, now: MF.Time) {
    MS.Load(d).Some? && forall r :: r in MF.Pruned(MS.Load(d).value, now).messages ==> r.draft.idempotencyKey != key
  }

  lemma AppendedLast(d: MS.Disk, draft: MF.Draft, now: MF.Time, fate: MS.Fate)
    requires AppendWorks(d, draft, now, fate) && Unknown(d, draft.idempotencyKey, now) && draft.receivedAt == now
    ensures var e := MS.Load(MS.Next(d, MS.Append(draft, now), fate)); var f := MS.Load(d).value;
      && e.Some? && e.value.messages != []
      && e.value.messages[|e.value.messages| - 1] == MF.Record(draft, f.latest + 1)
  {
    var f := MS.Load(d).value;
    MS.LoadedIsValid(d);
    AppendedMessages(d, draft, now, fate);
    MS.WithRecordIs(f, draft, now);
    NotKnown(f, draft, now);
    hide MS.Load, MS.Next, AppendWorks, MF.Retained, MS.Beside, MF.ValidFile, MS.WithRecord, MF.Pruned, MS.Known;
  }

  lemma NotKnown(f: MF.File, draft: MF.Draft, now: MF.Time)
    requires forall r :: r in MF.Pruned(f, now).messages ==> r.draft.idempotencyKey != draft.idempotencyKey
    ensures MS.Known(f, draft, now).None?
  {
    hide MF.Pruned;
  }

  lemma DraftTells(key: string, session: string, from: string, s: Snapshot, c: Context)
    ensures Reports(TransitionDraft(key, session, from, s, c), key, session, from, s, c)
    ensures TransitionDraft(key, session, from, s, c).idempotencyKey == TransitionKey(s.runtimeId, s.latestIndex)
  {}

  lemma TellingStep(w: World, key: string, session: string, s: Snapshot, c: Context)
    requires var t := TargetAt(w.memory, key, session);
      w.messages.Some? && Judge(t, s) == Newer(true) && t.lastTransitionKey != TransitionKey(s.runtimeId, s.latestIndex)
    requires AcceptStep(w, key, session, s, c).1 != MessageError
    ensures var draft := TransitionDraft(key, session, TargetAt(w.memory, key, session).state, s, c);
      && AppendWorks(w.messages.value, draft, c.now, c.messageFate)
      && AcceptStep(w, key, session, s, c).0.messages == Appended(w, draft, c).messages
  {
    hide AppendWorks, Judge, TransitionKey, TransitionDraft, Accept;
  }

  /** After an accepted change of state whose key was new, the last message of the store tells exactly that change. */
  lemma ChangeIsTold(w: World, key: string, session: string, s: Snapshot, c: Context)
    requires var t := TargetAt(w.memory, key, session);
      && w.messages.Some? && Changes(t, s) && t.lastTransitionKey != TransitionKey(s.runtimeId, s.latestIndex)
      && Unknown(w.messages.value, TransitionKey(s.runtimeId, s.latestIndex), c.now)
    requires AcceptStep(w, key, session, s, c).1 != MessageError
    ensures var after := AcceptStep(w, key, session, s, c).0.messages;
      && after.Some? && MS.Load(after.value).Some?
      && var f, g := MS.Load(w.messages.value).value, MS.Load(after.value).value;
      && g.messages != []
      && var last := g.messages[|g.messages| - 1];
      && last.sequence == f.latest + 1 && Reports(last.draft, key, session, TargetAt(w.memory, key, session).state, s, c)
  {
    var t := TargetAt(w.memory, key, session);
    var draft := TransitionDraft(key, session, t.state, s, c);
    Judged(t, s);
    DraftTells(key, session, t.state, s, c);
    assert draft.receivedAt == c.now;
    TellingStep(w, key, session, s, c);
    hide MS.Load, MS.Next, AppendWorks, Judge, TransitionKey, AcceptStep, TransitionDraft, Reports, Changes;
    AppendedLast(w.messages.value, draft, c.now, c.messageFate);
  }

  /** Without a change of state within a runtime nothing is told. */
  lemma NothingElseIsTold(w: World, key: string, session: string, s: Snapshot, c: Context)
    requires !Changes(TargetAt(w.memory, key, session), s)
    ensures AcceptStep(w, key, session, s, c).0.messages == w.messages
  {
    Judged(TargetAt(w.memory, key, session), s);
    hide Judge, AppendWorks, TransitionDraft, Accept;
  }
}
