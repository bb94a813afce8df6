/** The message file: what a valid one is, its validator, and what retention keeps. */
module MessageFile {
  const SCHEMA := 3
  const MAX_STORED := 500
  const MAX_LABEL := 128
  /** Seven days in nanoseconds. */
  const MAX_AGE := 604800000000000

  /** A point in time in nanoseconds; zero is the zero time. */
  type Time = int

  datatype Draft = Draft(
    messageId: string, idempotencyKey: string, kind: string, severity: string, agentType: string,
    presentationKey: string, occurredAt: Time, receivedAt: Time, endpointKey: string,
    fallbackLabel: string, connectionLabel: string, tmuxSessionName: string, tmuxSessionId: string,
    tmuxSessionCreated: int, instanceIds: seq<string>, definitionIds: seq<string>,
    stateFrom: string, stateTo: string, runtimeId: string, stateIndex: nat)

  datatype Record = Record(draft: Draft, sequence: nat)

  datatype File = File(version: nat, latest: nat, revision: nat, readThrough: nat, messages: seq<Record>)

  const EMPTY := File(SCHEMA, 0, 0, 0, [])

  // ---- Valid drafts ----

  predicate ValidState(s: string) {
    s == "running" || s == "relax" || s == "error"
  }

  predicate Control(c: char) {
    c < ' ' || c == '\U{7f}'
  }

  predicate SafeLabel(s: string) {
    s != "" && |s| <= MAX_LABEL && forall i :: 0 <= i < |s| ==> !Control(s[i])
  }

  predicate ValidPresentation(d: Draft) {
    || (d.kind == "agent_reporting_ready" && d.severity == "info" && d.presentationKey == "codex_reporting_connected")
    || (d.kind == "codex_turn_completed" && d.severity == "success" && d.presentationKey == "codex_turn_finished")
    || (d.kind == "codex_turn_failed" && d.severity == "error" && d.presentationKey == "codex_turn_failed")
    || (d.kind == "agent_state_transition" && d.presentationKey == "agent_state_transition"
        && ValidState(d.stateFrom) && ValidState(d.stateTo) && d.stateFrom != d.stateTo
        && d.runtimeId != "" && d.stateIndex != 0)
  }

  predicate Identified(d: Draft) {
    && d.messageId != "" && d.idempotencyKey != "" && d.endpointKey != "" && d.fallbackLabel != ""
    && d.tmuxSessionName != "" && d.tmuxSessionId != "" && d.tmuxSessionCreated >= 0
  }

  ghost predicate DistinctIds(ids: seq<string>) {
    && (forall i :: 0 <= i < |ids| ==> ids[i] != "")
    && (forall i, j :: 0 <= i < j < |ids| ==> ids[i] != ids[j])
  }

  ghost predicate ValidDraft(d: Draft) {
    && Identified(d) && (d.connectionLabel == "" || SafeLabel(d.connectionLabel))
    && d.agentType == "codex" && ValidPresentation(d)
    && d.occurredAt != 0 && d.receivedAt != 0 && DistinctIds(d.instanceIds)
  }

  method IsSafeConnectionLabel(value: string) returns (ok: bool)
    ensures ok <==> SafeLabel(value)
  {
    if value == "" || |value| > MAX_LABEL {
      return false;
    }
    for i := 0 to |value|
      invariant forall j :: 0 <= j < i ==> !Control(value[j])
    {
      if Control(value[i]) {
        return false;
      }
    }
    return true;
  }

  method ValidateInstanceIds(ids: seq<string>) returns (ok: bool)
    ensures ok <==> DistinctIds(ids)
  {
    var seen: set<string> := {};
    for i := 0 to |ids|
      invariant seen == set j | 0 <= j < i :: ids[j]
      invariant forall j :: 0 <= j < i ==> ids[j] != ""
      invariant forall j, k :: 0 <= j < k < i ==> ids[j] != ids[k]
    {
      if ids[i] == "" {
        return false;
      }
      if ids[i] in seen {
        return false;
      }
      seen := seen + {ids[i]};
    }
    return true;
  }

  method ValidatePresentation(d: Draft) returns (ok: bool)
    ensures ok <==> ValidPresentation(d)
  {
    if d.kind == "agent_reporting_ready" {
      return d.severity == "info" && d.presentationKey == "codex_reporting_connected";
    } else if d.kind == "codex_turn_completed" {
      return d.severity == "success" && d.presentationKey == "codex_turn_finished";
    } else if d.kind == "codex_turn_failed" {
      return d.severity == "error" && d.presentationKey == "codex_turn_failed";
    } else if d.kind == "agent_state_transition" {
      if d.presentationKey != "agent_state_transition" || !ValidState(d.stateFrom) || !ValidState(d.stateTo)
         || d.stateFrom == d.stateTo || d.runtimeId == "" || d.stateIndex == 0 {
        return false;
      }
      return true;
    }
    return false;
  }

  method ValidateMessageDraft(d: Draft) returns (ok: bool)
    ensures ok <==> ValidDraft(d)
  {
    hide Identified, ValidPresentation, DistinctIds, SafeLabel;
    if !Identified(d) {
      return false;
    }
    if d.connectionLabel != "" {
      var safe := IsSafeConnectionLabel(d.connectionLabel);
      if !safe {
        return false;
      }
    }
    if d.agentType != "codex" {
      return false;
    }
    var presented := ValidatePresentation(d);
    if !presented {
      return false;
    }
    if d.occurredAt == 0 || d.receivedAt == 0 {
      return false;
    }
    ok := ValidateInstanceIds(d.instanceIds);
  }

  // ---- Valid files ----

  /** Sequences rise, and no id and no key comes twice. */
  ghost predicate Good(ms: seq<Record>, latest: nat) {
    && (forall i :: 0 <= i < |ms| ==> 0 < ms[i].sequence <= latest && ValidDraft(ms[i].draft))
    && (forall i, j :: 0 <= i < j < |ms| ==> Before(ms[i], ms[j]))
  }

  predicate Before(a: Record, b: Record) {
    a.sequence < b.sequence && a.draft.messageId != b.draft.messageId && a.draft.idempotencyKey != b.draft.idempotencyKey
  }

  ghost predicate ValidFile(f: File) {
    f.version == SCHEMA && f.readThrough <= f.latest && Good(f.messages, f.latest) && |f.messages| <= MAX_STORED
  }

  method ValidateMessageFile(f: File) returns (ok: bool)
    ensures ok <==> ValidFile(f)
  {
    if f.version != SCHEMA {
      return false;
    }
    if f.readThrough > f.latest {
      return false;
    }
    hide ValidDraft;
    var ms := f.messages;
    var seenIDs: set<string>, seenKeys: set<string>, previous := {}, {}, 0;
    for i := 0 to |ms|
      invariant Good(ms[..i], f.latest)
      invariant seenIDs == set j | 0 <= j < i :: ms[j].draft.messageId
      invariant seenKeys == set j | 0 <= j < i :: ms[j].draft.idempotencyKey
      invariant previous == if i == 0 then 0 else ms[i - 1].sequence
    {
      var record := ms[i];
      GoodSnoc(ms, i, f.latest);
      if record.sequence == 0 || record.sequence <= previous || record.sequence > f.latest {
        return false;
      }
      previous := record.sequence;
      if record.draft.messageId == "" {
        IncompleteDraft(record.draft);
        return false;
      }
      if record.draft.messageId in seenIDs {
        return false;
      }
      seenIDs := seenIDs + {record.draft.messageId};
      if record.draft.idempotencyKey == "" {
        IncompleteDraft(record.draft);
        return false;
      }
      if record.draft.idempotencyKey in seenKeys {
        return false;
      }
      seenKeys := seenKeys + {record.draft.idempotencyKey};
      var valid := ValidateMessageDraft(record.draft);
      if !valid {
        return false;
      }
    }
    assert ms[..|ms|] == ms;
    return |ms| <= MAX_STORED && (|ms| == 0 || ms[|ms| - 1].sequence == previous);
  }

  lemma IncompleteDraft(d: Draft)
    requires d.messageId == "" || d.idempotencyKey == ""
    ensures !ValidDraft(d)
  {}

  /** One record more: it must come after the last one and repeat no id and no key. */
  lemma GoodSnoc(ms: seq<Record>, i: nat, latest: nat)
    requires i < |ms| && Good(ms[..i], latest)
    ensures Good(ms[..i + 1], latest) <==>
      && 0 < ms[i].sequence <= latest && ValidDraft(ms[i].draft)
      && (i > 0 ==> ms[i - 1].sequence < ms[i].sequence)
      && (forall j :: 0 <= j < i ==> ms[j].draft.messageId != ms[i].draft.messageId && ms[j].draft.idempotencyKey != ms[i].draft.idempotencyKey)
    ensures Good(ms, latest) ==> Good(ms[..i + 1], latest)
  {
    hide ValidDraft;
    var a, b := ms[..i], ms[..i + 1];
    assert forall j :: 0 <= j < i ==> a[j] == ms[j] && b[j] == ms[j];
    assert b[i] == ms[i];
    if Good(b, latest) {
      forall j | 0 <= j < i ensures Before(ms[j], ms[i]) {
        assert Before(b[j], b[i]);
      }
    }
    if i > 0 && ms[i - 1].sequence < ms[i].sequence {
      forall j | 0 <= j < i ensures ms[j].sequence < ms[i].sequence {
        assert j < i - 1 ==> Before(a[j], a[i - 1]);
      }
    }
  }

  // ---- Retention ----

  /** The records received at the cutoff or later. */
  function Fresh(ms: seq<Record>, cutoff: Time): seq<Record> {
    if ms == [] then []
    else
      var n := |ms| - 1;
      Fresh(ms[..n], cutoff) + (if ms[n].draft.receivedAt < cutoff then [] else [ms[n]])
  }

  function Newest(ms: seq<Record>): seq<Record> {
    if |ms| > MAX_STORED then ms[|ms| - MAX_STORED..] else ms
  }

  function Retained(ms: seq<Record>, now: Time): seq<Record> {
    Newest(Fresh(ms, now - MAX_AGE))
  }

  function Pruned(f: File, now: Time): File {
    if |Retained(f.messages, now)| == |f.messages| then f
    else f.(messages := Retained(f.messages, now), readThrough := if f.readThrough > f.latest then f.latest else f.readThrough)
  }

  method PruneMessageFile(f: File, now: Time) returns (pruned: File, changed: bool)
    ensures pruned == Pruned(f, now) && changed == (|pruned.messages| < |f.messages|)
  {
    changed := false;
    var cutoff := now - MAX_AGE;
    var retained: seq<Record> := [];
    for i := 0 to |f.messages|
      invariant retained == Fresh(f.messages[..i], cutoff)
      invariant |retained| <= i && changed == (|retained| < i)
    {
      assert f.messages[..i + 1][..i] == f.messages[..i];
      if f.messages[i].draft.receivedAt < cutoff {
        changed := true;
        continue;
      }
      retained := retained + [f.messages[i]];
    }
    assert f.messages[..|f.messages|] == f.messages;
    if |retained| > MAX_STORED {
      retained, changed := retained[|retained| - MAX_STORED..], true;
    }
    pruned := f;
    if changed {
      pruned := pruned.(messages := retained);
      if pruned.readThrough > pruned.latest {
        pruned := pruned.(readThrough := pruned.latest);
      }
    }
  }

  lemma {:induction false} FreshFacts(ms: seq<Record>, cutoff: Time)
    ensures forall r :: r in Fresh(ms, cutoff) <==> r in ms && r.draft.receivedAt >= cutoff
    ensures |Fresh(ms, cutoff)| <= |ms| && (|Fresh(ms, cutoff)| == |ms| ==> Fresh(ms, cutoff) == ms)
  {
    if ms != [] {
      var n := |ms| - 1;
      FreshFacts(ms[..n], cutoff);
      assert ms == ms[..n] + [ms[n]];
    }
  }

  lemma GoodAppend(ms: seq<Record>, r: Record, latest: nat)
    requires Good(ms, latest) && 0 < r.sequence <= latest && ValidDraft(r.draft)
    requires forall x :: x in ms ==> Before(x, r)
    ensures Good(ms + [r], latest)
  {
    hide ValidDraft, Before;
  }

  lemma GoodInit(ms: seq<Record>, latest: nat)
    requires Good(ms, latest) && ms != []
    ensures var n := |ms| - 1;
      && Good(ms[..n], latest) && 0 < ms[n].sequence <= latest && ValidDraft(ms[n].draft)
      && forall x :: x in ms[..n] ==> Before(x, ms[n])
  {
    hide ValidDraft, Before;
  }

  lemma {:induction false} FreshGood(ms: seq<Record>, cutoff: Time, latest: nat)
    requires Good(ms, latest)
    ensures Good(Fresh(ms, cutoff), latest)
  {
    if ms != [] {
      var n := |ms| - 1;
      GoodInit(ms, latest);
      hide ValidDraft, Before, Good;
      FreshGood(ms[..n], cutoff, latest);
      FreshFacts(ms[..n], cutoff);
      if ms[n].draft.receivedAt >= cutoff {
        GoodAppend(Fresh(ms[..n], cutoff), ms[n], latest);
      } else {
        assert Fresh(ms, cutoff) == Fresh(ms[..n], cutoff);
      }
    }
  }

  /** Retention keeps a file valid, and makes one valid that is only too long. */
  lemma RetainedGood(ms: seq<Record>, now: Time, latest: nat)
    requires Good(ms, latest)
    ensures Good(Retained(ms, now), latest) && |Retained(ms, now)| <= MAX_STORED
    ensures |Retained(ms, now)| <= |ms|
    ensures |Retained(ms, now)| == |ms| ==> Retained(ms, now) == ms
  {
    hide ValidDraft, Before, Fresh, Newest, Good;
    FreshGood(ms, now - MAX_AGE, latest);
    FreshFacts(ms, now - MAX_AGE);
    NewestGood(Fresh(ms, now - MAX_AGE), latest);
  }

  lemma NewestGood(ms: seq<Record>, latest: nat)
    requires Good(ms, latest)
    ensures Good(Newest(ms), latest) && |Newest(ms)| <= MAX_STORED && |Newest(ms)| <= |ms|
    ensures |Newest(ms)| == |ms| ==> Newest(ms) == ms
  {
    hide ValidDraft, Before;
    var low := |ms| - MAX_STORED;
    if low > 0 {
      assert forall i :: 0 <= i < MAX_STORED ==> ms[low..][i] == ms[low + i];
    }
  }

  lemma KeptFrom(ms: seq<Record>, i: nat)
    requires i < |ms|
    ensures i >= |ms| - MAX_STORED ==> ms[i] in Newest(ms)
  {
    var low := |ms| - MAX_STORED;
    if i >= low > 0 {
      assert Newest(ms)[i - low] == ms[i];
    }
  }

  /** What is kept is recent; a recent record is dropped only for 500 that came later. */
  lemma KeepsTheNewest(ms: seq<Record>, now: Time, latest: nat)
    requires Good(ms, latest)
    ensures var kept := Retained(ms, now);
      && (forall r :: r in kept ==> r in ms && r.draft.receivedAt >= now - MAX_AGE)
      && (forall r :: r in ms && r.draft.receivedAt >= now - MAX_AGE && r !in kept ==>
            |kept| == MAX_STORED && forall k :: k in kept ==> r.sequence < k.sequence)
  {
    hide ValidDraft, Fresh;
    var recent, kept := Fresh(ms, now - MAX_AGE), Retained(ms, now);
    FreshGood(ms, now - MAX_AGE, latest);
    FreshFacts(ms, now - MAX_AGE);
    forall r | r in ms && r.draft.receivedAt >= now - MAX_AGE && r !in kept
      ensures |kept| == MAX_STORED && forall k :: k in kept ==> r.sequence < k.sequence
    {
      var i :| 0 <= i < |recent| && recent[i] == r;
      var low := |recent| - MAX_STORED;
      KeptFrom(recent, i);
      forall k | k in kept ensures r.sequence < k.sequence {
        var j :| 0 <= j < |kept| && kept[j] == k;
        assert Before(recent[i], recent[low + j]);
      }
    }
  }

  // ---- Counting ----

  function Unread(ms: seq<Record>, readThrough: nat): nat {
    if ms == [] then 0
    else Unread(ms[..|ms| - 1], readThrough) + if ms[|ms| - 1].sequence > readThrough then 1 else 0
  }

  method UnreadMessageCount(f: File) returns (count: nat)
    ensures count == Unread(f.messages, f.readThrough)
  {
    count := 0;
    for i := 0 to |f.messages|
      invariant count == Unread(f.messages[..i], f.readThrough)
    {
      assert f.messages[..i + 1][..i] == f.messages[..i];
      if f.messages[i].sequence > f.readThrough {
        count := count + 1;
      }
    }
    assert f.messages[..|f.messages|] == f.messages;
  }

  /** In a valid file the unread messages are the last ones. */
  lemma {:induction false} UnreadAreLast(ms: seq<Record>, readThrough: nat, latest: nat)
    requires Good(ms, latest)
    ensures var n := |ms| - Unread(ms, readThrough);
      && Unread(ms, readThrough) <= |ms|
      && (forall i :: 0 <= i < n ==> ms[i].sequence <= readThrough)
      && (forall i :: n <= i < |ms| ==> ms[i].sequence > readThrough)
  {
    hide ValidDraft;
    if ms != [] {
      var n := |ms| - 1;
      UnreadAreLast(ms[..n], readThrough, latest);
      if ms[n].sequence <= readThrough {
        forall i | 0 <= i < n ensures ms[..n][i].sequence <= readThrough {
          assert Before(ms[i], ms[n]);
        }
      }
    }
  }
}
