/** What the message repository accepts, keeps and answers, on the fields of drafts, records and files. */
module MessageAnswers {
  import opened Common
  import opened MessageFile
  import opened MessageStore

  // ---- Drafts ----

  predicate Shown(c: char) {
    c as int >= 32 && c as int != 127
  }

  /** What a draft must be: complete, from the one agent the store knows, of one of four kinds with the severity and key of its kind,
      with a label of at most 128 shown characters if any, and with distinct instance ids. */
  lemma DraftMeans(d: Draft)
    ensures ValidDraft(d) <==>
      && "" !in {d.messageId, d.idempotencyKey, d.endpointKey, d.fallbackLabel, d.tmuxSessionName, d.tmuxSessionId}
      && d.tmuxSessionCreated > -1 && d.agentType == "codex" && d.occurredAt != 0 && d.receivedAt != 0
      && |d.connectionLabel| <= 128 && (forall i :: 0 <= i < |d.connectionLabel| ==> Shown(d.connectionLabel[i]))
      && (forall i :: 0 <= i < |d.instanceIds| ==> d.instanceIds[i] != "")
      && (forall i, j :: 0 <= i < |d.instanceIds| && 0 <= j < |d.instanceIds| && d.instanceIds[i] == d.instanceIds[j] ==> i == j)
      && (if d.kind == "agent_state_transition" then
            && d.presentationKey == "agent_state_transition" && {d.stateFrom, d.stateTo} <= {"running", "relax", "error"}
            && d.stateFrom != d.stateTo && d.runtimeId != "" && d.stateIndex > 0
          else (d.kind, d.severity, d.presentationKey) in {
            ("agent_reporting_ready", "info", "codex_reporting_connected"),
            ("codex_turn_completed", "success", "codex_turn_finished"),
            ("codex_turn_failed", "error", "codex_turn_failed")})
  {
    LabelMeans(d.connectionLabel);
    PresentationMeans(d);
    hide SafeLabel, Shown, ValidPresentation;
  }

  lemma LabelMeans(s: string)
    ensures s == "" || SafeLabel(s) <==> |s| <= 128 && forall i :: 0 <= i < |s| ==> Shown(s[i])
  {
    forall c: char ensures Control(c) <==> !Shown(c) {}
    hide Control, Shown;
  }

  lemma PresentationMeans(d: Draft)
    ensures ValidPresentation(d) <==>
      if d.kind == "agent_state_transition" then
        && d.presentationKey == "agent_state_transition" && {d.stateFrom, d.stateTo} <= {"running", "relax", "error"}
        && d.stateFrom != d.stateTo && d.runtimeId != "" && d.stateIndex > 0
      else (d.kind, d.severity, d.presentationKey) in {
        ("agent_reporting_ready", "info", "codex_reporting_connected"),
        ("codex_turn_completed", "success", "codex_turn_finished"),
        ("codex_turn_failed", "error", "codex_turn_failed")}
  {
    assert ValidState(d.stateFrom) <==> d.stateFrom in {"running", "relax", "error"};
    assert ValidState(d.stateTo) <==> d.stateTo in {"running", "relax", "error"};
  }

  // ---- Files ----

  /** The state of a file is its revision, its last number, its cursor, and how many messages come after the cursor. */
  lemma StateMeans(f: File)
    ensures StateOf(f).revision == f.revision && StateOf(f).latest == f.latest && StateOf(f).readThrough == f.readThrough
    ensures StateOf(f).unread == |set i | 0 <= i < |f.messages| && f.messages[i].sequence > f.readThrough|
  {
    UnreadMeans(f.messages, f.readThrough);
  }

  lemma {:induction false} UnreadMeans(ms: seq<Record>, cursor: nat)
    ensures Unread(ms, cursor) == |set i | 0 <= i < |ms| && ms[i].sequence > cursor|
  {
    if ms != [] {
      var n := |ms| - 1;
      UnreadMeans(ms[..n], cursor);
      var before, all := set i | 0 <= i < |ms[..n]| && ms[..n][i].sequence > cursor, set i | 0 <= i < |ms| && ms[i].sequence > cursor;
      assert all == if ms[n].sequence > cursor then before + {n} else before;
    }
  }

  /** Marking saves a later cursor, which never passes the last number, and changes nothing else. */
  lemma MarkMeans(f: File, s: nat)
    ensures var g := Effect(f, Mark(s)); var cursor := if s > f.latest then f.latest else s;
      && (g.Some? <==> cursor > f.readThrough)
      && (g.Some? ==> g.value == File(f.version, f.latest, f.revision + 1, cursor, f.messages))
  {}

  /** Clearing saves an empty file that is read to its end, unless it is empty already. */
  lemma ClearMeans(f: File)
    ensures var g := Effect(f, Clear);
      && (g.Some? <==> f.messages != [])
      && (g.Some? ==> g.value == File(f.version, f.latest, f.revision + 1, f.latest, []))
  {}

  /** Deleting saves the file without the first message of the id, if there is one. */
  lemma DeleteMeans(f: File, id: string)
    ensures var g := Effect(f, Delete(id));
      && (g.Some? <==> exists i :: 0 <= i < |f.messages| && f.messages[i].draft.messageId == id)
      && (g.Some? ==> exists i :: (0 <= i < |f.messages| && f.messages[i].draft.messageId == id
            && (forall j :: 0 <= j < i ==> f.messages[j].draft.messageId != id)
            && g.value == File(f.version, f.latest, f.revision + 1, f.readThrough, f.messages[..i] + f.messages[i + 1..])))
  {
    FoundFirst(f.messages, id);
    hide FindId;
  }

  lemma {:induction false} FoundFirst(ms: seq<Record>, id: string)
    ensures var r := FindId(ms, id);
      r.Some? ==> r.value < |ms| && ms[r.value].draft.messageId == id && forall j :: 0 <= j < r.value ==> ms[j].draft.messageId != id
  {
    if ms != [] {
      FoundFirst(ms[1..], id);
      assert forall j :: 1 <= j < |ms| ==> ms[j] == ms[1..][j - 1];
    }
  }

  /** A draft with the key of a kept message is answered with that message, and saves at most what retention drops;
      any other valid draft saves one message more, with the next number. */
  lemma AppendMeans(f: File, d: Draft, now: Time)
    requires ValidFile(f)
    ensures var g, known := Effect(f, Append(d, now)), Known(f, d, now);
      var kept := Retained(f.messages, now);
      && (known.Some? <==> exists i :: 0 <= i < |kept| && kept[i].draft.idempotencyKey == d.idempotencyKey)
      && (known.Some? ==> known.value in kept && known.value.draft.idempotencyKey == d.idempotencyKey)
      && (!ValidDraft(d) ==> g.None?)
      && (ValidDraft(d) && known.Some? ==>
            && (g.Some? <==> |kept| < |f.messages|)
            && (g.Some? ==> g.value == File(f.version, f.latest, f.revision + 1, f.readThrough, kept)))
      && (ValidDraft(d) && known.None? ==>
            g.Some? && g.value.latest == f.latest + 1 && g.value.revision == f.revision + 1 && g.value.readThrough == f.readThrough)
      && NewRecord(f, d) == Record(d, f.latest + 1)
  {
    PrunedMessages(f, now);
    WithRecordIs(f, d, now);
    RetainedGood(f.messages, now, f.latest);
    hide ValidDraft, Good, Retained, Beside, WithRecord;
    KnownMeans(f, d, now);
  }

  lemma KnownMeans(f: File, d: Draft, now: Time)
    ensures Known(f, d, now).Some? <==>
      exists i :: 0 <= i < |Pruned(f, now).messages| && Pruned(f, now).messages[i].draft.idempotencyKey == d.idempotencyKey
  {
    hide Pruned;
  }

  /** Starting saves what retention leaves, if it drops anything. */
  lemma InitializeMeans(f: File, now: Time)
    requires ValidFile(f)
    ensures var g := Effect(f, Initialize(now)); var kept := Retained(f.messages, now);
      && (g.Some? <==> |kept| < |f.messages|)
      && (g.Some? ==> g.value == File(f.version, f.latest, f.revision + 1, f.readThrough, kept))
  {
    PrunedMessages(f, now);
    hide ValidDraft, Good, Retained;
  }

  // ---- Retention ----

  /** The messages of the last seven days. */
  function Recent(ms: seq<Record>, now: Time): seq<Record> {
    if ms == [] then []
    else Recent(ms[..|ms| - 1], now) + (if ms[|ms| - 1].draft.receivedAt >= now - 7 * 24 * 3600 * 1_000_000_000 then [ms[|ms| - 1]] else [])
  }

  /** Retention keeps the last 500 of the messages of the last seven days. */
  lemma {:induction false} RetainedMeans(ms: seq<Record>, now: Time)
    ensures var recent := Recent(ms, now); Retained(ms, now) == if |recent| <= 500 then recent else recent[|recent| - 500..]
  {
    RecentIs(ms, now);
  }

  lemma {:induction false} RecentIs(ms: seq<Record>, now: Time)
    ensures Fresh(ms, now - MAX_AGE) == Recent(ms, now)
  {
    if ms != [] {
      RecentIs(ms[..|ms| - 1], now);
    }
  }
}
