/** The message repository: every operation loads the file, changes it and saves it again. */
module MessageStore {
  import opened Common
  import opened MessageFile

  /** The file on disk: none, one that cannot be read or decoded, or the last one saved. */
  datatype Disk = Absent | Unreadable | Saved(file: File)

  /** What becomes of a write: done, refused, or in place although an error came back. */
  datatype Fate = Written | Refused | Landed

  datatype Error = StoreError | DraftError | CursorError | LimitError

  datatype State = State(revision: nat, latest: nat, readThrough: nat, unread: nat)

  ghost function Load(d: Disk): Option<File> {
    match d
    case Absent => Some(EMPTY)
    case Unreadable => None
    case Saved(f) => if ValidFile(f) then Some(f) else None
  }

  ghost predicate Accepted(f: File) {
    ValidFile(f.(version := SCHEMA))
  }

  ghost function AfterSave(d: Disk, f: File, fate: Fate): Disk {
    if Accepted(f) && fate != Refused then Saved(f.(version := SCHEMA)) else d
  }

  function StateOf(f: File): State {
    State(f.revision, f.latest, f.readThrough, Unread(f.messages, f.readThrough))
  }

  // ---- What each operation does to a file ----

  function FindKey(ms: seq<Record>, key: string): (r: Option<nat>)
    ensures r.Some? ==> r.value < |ms| && ms[r.value].draft.idempotencyKey == key
    ensures r.None? ==> forall i :: 0 <= i < |ms| ==> ms[i].draft.idempotencyKey != key
    decreases |ms|
  {
    if ms == [] then None
    else if ms[0].draft.idempotencyKey == key then Some(0)
    else
      var r := FindKey(ms[1..], key);
      assert forall i :: 0 < i < |ms| ==> ms[i] == ms[1..][i - 1];
      if r.Some? then Some(r.value + 1) else None
  }

  function FindId(ms: seq<Record>, id: string): (r: Option<nat>)
    ensures r.Some? ==> r.value < |ms| && ms[r.value].draft.messageId == id
    ensures r.None? ==> forall i :: 0 <= i < |ms| ==> ms[i].draft.messageId != id
    decreases |ms|
  {
    if ms == [] then None
    else if ms[0].draft.messageId == id then Some(0)
    else
      var r := FindId(ms[1..], id);
      assert forall i :: 0 < i < |ms| ==> ms[i] == ms[1..][i - 1];
      if r.Some? then Some(r.value + 1) else None
  }

  datatype Op = Append(draft: Draft, now: Time) | Mark(sequence: nat) | Delete(id: string) | Clear | Initialize(now: Time)

  /** A message whose key is already there is not stored again. */
  function Known(f: File, d: Draft, now: Time): (r: Option<Record>)
    ensures r.Some? ==> r.value in Pruned(f, now).messages && r.value.draft.idempotencyKey == d.idempotencyKey
  {
    var p := Pruned(f, now);
    match FindKey(p.messages, d.idempotencyKey)
    case Some(i) => Some(p.messages[i])
    case None => None
  }

  function NewRecord(f: File, d: Draft): Record {
    Record(d, f.latest + 1)
  }

  function WithRecord(f: File, d: Draft, now: Time): File {
    var p := Pruned(f, now);
    var q := Pruned(p.(latest := p.latest + 1, messages := p.messages + [NewRecord(p, d)]), now);
    q.(revision := q.revision + 1)
  }

  /** The file an operation saves, if it saves one. */
  ghost function Effect(f: File, op: Op): Option<File> {
    match op
    case Append(d, now) =>
      var p := Pruned(f, now);
      if !ValidDraft(d) then None
      else if Known(f, d, now).None? then Some(WithRecord(f, d, now))
      else if |p.messages| < |f.messages| then Some(p.(revision := p.revision + 1))
      else None
    case Mark(s) =>
      var upTo := if s > f.latest then f.latest else s;
      if upTo > f.readThrough then Some(f.(readThrough := upTo, revision := f.revision + 1)) else None
    case Delete(id) =>
      (match FindId(f.messages, id)
       case Some(i) => Some(f.(messages := f.messages[..i] + f.messages[i + 1..], revision := f.revision + 1))
       case None => None)
    case Clear =>
      if f.messages == [] then None else Some(f.(messages := [], readThrough := f.latest, revision := f.revision + 1))
    case Initialize(now) =>
      var p := Pruned(f, now);
      if |p.messages| < |f.messages| then Some(p.(revision := p.revision + 1)) else None
  }

  ghost function Next(d: Disk, op: Op, fate: Fate): Disk {
    match Load(d)
    case None => d
    case Some(f) =>
      (match Effect(f, op)
       case None => d
       case Some(g) => AfterSave(d, g, fate))
  }

  // ---- The repository ----

  class Store {
    var disk: Disk

    constructor (d: Disk)
      ensures disk == d
    {
      disk := d;
    }

    method LoadMessages() returns (file: Option<File>)
      ensures file == Load(disk)
    {
      match disk
      case Absent =>
        return Some(EMPTY);
      case Unreadable =>
        return None;
      case Saved(f) =>
        var valid := ValidateMessageFile(f);
        return if valid then Some(f) else None;
    }

    method SaveMessages(file: File, fate: Fate) returns (ok: bool)
      modifies this
      ensures disk == AfterSave(old(disk), file, fate)
      ensures ok <==> Accepted(file) && fate == Written
    {
      var f := file.(version := SCHEMA);
      var valid := ValidateMessageFile(f);
      if !valid {
        return false;
      }
      if fate != Refused {
        disk := Saved(f);
      }
      return fate == Written;
    }

    /** The stored record, and whether its key was already there. */
    method AppendMessage(draft: Draft, now: Time, fate: Fate) returns (r: Result<(Record, bool), Error>)
      modifies this
      ensures disk == Next(old(disk), Append(draft, now), fate)
      ensures Load(old(disk)).None? ==> r == Failure(StoreError)
      ensures Load(old(disk)).Some? && !ValidDraft(draft) ==> r == Failure(DraftError)
      ensures Load(old(disk)).Some? && ValidDraft(draft) ==>
        var f := Load(old(disk)).value;
        var saved := Effect(f, Append(draft, now));
        if saved.Some? && !(Accepted(saved.value) && fate == Written) then r == Failure(StoreError)
        else match Known(f, draft, now)
          case Some(record) => r == Success((record, true))
          case None => r == Success((NewRecord(f, draft), false))
    {
      hide ValidDraft, ValidFile, Retained, Pruned, Accepted;
      var loaded := LoadMessages();
      if loaded.None? {
        return Failure(StoreError);
      }
      var valid := ValidateMessageDraft(draft);
      if !valid {
        return Failure(DraftError);
      }
      var file, pruned := PruneMessageFile(loaded.value, now);
      PrunedKeeps(loaded.value, now);
      var i := 0;
      while i < |file.messages|
        invariant 0 <= i <= |file.messages|
        invariant forall j :: 0 <= j < i ==> file.messages[j].draft.idempotencyKey != draft.idempotencyKey
        invariant disk == old(disk)
      {
        if file.messages[i].draft.idempotencyKey == draft.idempotencyKey {
          FirstKey(file.messages, draft.idempotencyKey, i);
          if pruned {
            var saved := SaveMessages(file.(revision := file.revision + 1), fate);
            if !saved {
              return Failure(StoreError);
            }
          }
          return Success((file.messages[i], true));
        }
        i := i + 1;
      }
      NoKey(file.messages, draft.idempotencyKey);
      file := file.(latest := file.latest + 1);
      var record := Record(draft, file.latest);
      file := file.(messages := file.messages + [record]);
      var final, _ := PruneMessageFile(file, now);
      var saved := SaveMessages(final.(revision := final.revision + 1), fate);
      if !saved {
        return Failure(StoreError);
      }
      return Success((record, false));
    }

    method MarkMessagesReadThrough(sequence: nat, fate: Fate) returns (r: Result<State, Error>)
      modifies this
      ensures disk == Next(old(disk), Mark(sequence), fate)
      ensures Load(old(disk)).None? ==> r == Failure(StoreError)
      ensures Load(old(disk)).Some? ==>
        var f := Load(old(disk)).value;
        var saved := Effect(f, Mark(sequence));
        r == if saved.None? then Success(StateOf(f))
             else if Accepted(saved.value) && fate == Written then Success(StateOf(saved.value))
             else Failure(StoreError)
    {
      hide ValidFile, Accepted;
      var loaded := LoadMessages();
      if loaded.None? {
        return Failure(StoreError);
      }
      var file, upTo := loaded.value, sequence;
      if upTo > file.latest {
        upTo := file.latest;
      }
      if upTo > file.readThrough {
        file := file.(readThrough := upTo, revision := file.revision + 1);
        var saved := SaveMessages(file, fate);
        if !saved {
          return Failure(StoreError);
        }
      }
      var state := MessageState(file);
      return Success(state);
    }

    /** The state of a file. */
    method MessageState(file: File) returns (state: State)
      ensures state == StateOf(file)
    {
      var unread := UnreadMessageCount(file);
      return State(file.revision, file.latest, file.readThrough, unread);
    }

    method DeleteMessage(id: string, fate: Fate) returns (r: Result<(State, bool), Error>)
      modifies this
      ensures disk == Next(old(disk), Delete(id), fate)
      ensures Load(old(disk)).None? ==> r == Failure(StoreError)
      ensures Load(old(disk)).Some? ==>
        var f := Load(old(disk)).value;
        var saved := Effect(f, Delete(id));
        r == if saved.None? then Success((StateOf(f), false))
             else if Accepted(saved.value) && fate == Written then Success((StateOf(saved.value), true))
             else Failure(StoreError)
    {
      hide ValidFile, Accepted, Unread;
      var loaded := LoadMessages();
      if loaded.None? {
        return Failure(StoreError);
      }
      var file := loaded.value;
      for i := 0 to |file.messages|
        invariant forall j :: 0 <= j < i ==> file.messages[j].draft.messageId != id
        invariant disk == old(disk)
      {
        if file.messages[i].draft.messageId != id {
          continue;
        }
        FirstId(file.messages, id, i);
        file := file.(messages := file.messages[..i] + file.messages[i + 1..], revision := file.revision + 1);
        var saved := SaveMessages(file, fate);
        if !saved {
          return Failure(StoreError);
        }
        var state := MessageState(file);
        return Success((state, true));
      }
      NoId(file.messages, id);
      var state := MessageState(file);
      return Success((state, false));
    }

    /** The state afterwards and how many messages went. */
    method ClearMessages(fate: Fate) returns (r: Result<(State, nat), Error>)
      modifies this
      ensures disk == Next(old(disk), Clear, fate)
      ensures Load(old(disk)).None? ==> r == Failure(StoreError)
      ensures Load(old(disk)).Some? ==>
        var f := Load(old(disk)).value;
        var saved := Effect(f, Clear);
        r == if saved.None? then Success((StateOf(f), 0))
             else if Accepted(saved.value) && fate == Written then Success((StateOf(saved.value), |f.messages|))
             else Failure(StoreError)
    {
      hide ValidFile, Accepted, Unread;
      var loaded := LoadMessages();
      if loaded.None? {
        return Failure(StoreError);
      }
      var file := loaded.value;
      var deletedCount := |file.messages|;
      if deletedCount == 0 {
        var state := MessageState(file);
        return Success((state, 0));
      }
      file := file.(messages := [], readThrough := file.latest, revision := file.revision + 1);
      var saved := SaveMessages(file, fate);
      if !saved {
        return Failure(StoreError);
      }
      var state := MessageState(file);
      return Success((state, deletedCount));
    }

    /** At start the file is read and pruned. */
    method InitializeMessages(now: Time, fate: Fate) returns (ok: bool)
      modifies this
      ensures disk == Next(old(disk), Initialize(now), fate)
      ensures Load(old(disk)).None? ==> !ok
      ensures Load(old(disk)).Some? ==>
        var saved := Effect(Load(old(disk)).value, Initialize(now));
        ok == (saved.Some? ==> Accepted(saved.value) && fate == Written)
    {
      hide ValidDraft, Retained, Pruned, Good;
      var loaded := LoadMessages();
      if loaded.None? {
        return false;
      }
      var file, pruned := PruneMessageFile(loaded.value, now);
      if pruned {
        ok := SaveMessages(file.(revision := file.revision + 1), fate);
      } else {
        ok := true;
      }
    }
  }

  lemma PrunedKeeps(f: File, now: Time)
    ensures Pruned(f, now).latest == f.latest && Pruned(f, now).revision == f.revision
  {}

  lemma {:induction false} FirstKey(ms: seq<Record>, key: string, i: nat)
    requires i < |ms| && ms[i].draft.idempotencyKey == key
    requires forall j :: 0 <= j < i ==> ms[j].draft.idempotencyKey != key
    ensures FindKey(ms, key) == Some(i)
    decreases |ms|
  {
    if i > 0 {
      FirstKey(ms[1..], key, i - 1);
    }
  }

  lemma NoKey(ms: seq<Record>, key: string)
    requires forall j :: 0 <= j < |ms| ==> ms[j].draft.idempotencyKey != key
    ensures FindKey(ms, key) == None
  {
    if FindKey(ms, key).Some? {
      assert false;
    }
  }

  lemma {:induction false} FirstId(ms: seq<Record>, id: string, i: nat)
    requires i < |ms| && ms[i].draft.messageId == id
    requires forall j :: 0 <= j < i ==> ms[j].draft.messageId != id
    ensures FindId(ms, id) == Some(i)
    decreases |ms|
  {
    if i > 0 {
      FirstId(ms[1..], id, i - 1);
    }
  }

  lemma NoId(ms: seq<Record>, id: string)
    requires forall j :: 0 <= j < |ms| ==> ms[j].draft.messageId != id
    ensures FindId(ms, id) == None
  {
    if FindId(ms, id).Some? {
      assert false;
    }
  }

  // ---- Validity ----

  /** What of the retained messages stays beside a new one. */
  function Beside(ms: seq<Record>): seq<Record> {
    if |ms| == MAX_STORED then ms[1..] else ms
  }

  /** No message that stays carries the id of the new one. */
  ghost predicate IdIsFree(f: File, d: Draft, now: Time) {
    d.receivedAt < now - MAX_AGE || forall r :: r in Beside(Retained(f.messages, now)) ==> r.draft.messageId != d.messageId
  }

  lemma PrunedMessages(f: File, now: Time)
    requires ValidFile(f)
    ensures Pruned(f, now) == f.(messages := Retained(f.messages, now))
  {
    RetainedGood(f.messages, now, f.latest);
    hide ValidDraft, Retained;
  }

  lemma {:induction false} FreshAll(ms: seq<Record>, cutoff: Time)
    requires forall r :: r in ms ==> r.draft.receivedAt >= cutoff
    ensures Fresh(ms, cutoff) == ms
  {
    if ms != [] {
      var n := |ms| - 1;
      assert ms == ms[..n] + [ms[n]];
      FreshAll(ms[..n], cutoff);
    }
  }

  lemma RetainedAgain(ms: seq<Record>, r: Record, now: Time)
    ensures Retained(Retained(ms, now) + [r], now)
      == if r.draft.receivedAt < now - MAX_AGE then Retained(ms, now) else Beside(Retained(ms, now)) + [r]
  {
    var kept := Retained(ms, now);
    FreshFacts(ms, now - MAX_AGE);
    FreshAll(kept, now - MAX_AGE);
    FreshSnoc(kept, r, now - MAX_AGE);
    RetainedLength(ms, now);
    NewestSnoc(kept, r);
    assert kept + [] == kept;
    hide Fresh, Beside;
  }

  lemma NewestSnoc(ms: seq<Record>, r: Record)
    requires |ms| <= MAX_STORED
    ensures Newest(ms + [r]) == Beside(ms) + [r] && Newest(ms) == ms
  {}

  lemma FreshSnoc(ms: seq<Record>, r: Record, cutoff: Time)
    ensures Fresh(ms + [r], cutoff) == Fresh(ms, cutoff) + (if r.draft.receivedAt < cutoff then [] else [r])
  {
    assert (ms + [r])[..|ms|] == ms;
  }

  lemma RetainedLength(ms: seq<Record>, now: Time)
    ensures |Retained(ms, now)| <= MAX_STORED
  {}

  /** The file that is pruned a second time. */
  function Appended(f: File, d: Draft, now: Time): File {
    f.(latest := f.latest + 1, messages := Retained(f.messages, now) + [NewRecord(f, d)])
  }

  lemma PrunedTwice(f: File, d: Draft, now: Time)
    requires Pruned(f, now) == f.(messages := Retained(f.messages, now))
    ensures WithRecord(f, d, now) == Pruned(Appended(f, d, now), now).(revision := Pruned(Appended(f, d, now), now).revision + 1)
  {
    hide Pruned, Retained;
  }

  /** The file after a new message, written out. */
  lemma WithRecordIs(f: File, d: Draft, now: Time)
    requires ValidFile(f)
    ensures WithRecord(f, d, now) == File(SCHEMA, f.latest + 1, f.revision + 1, f.readThrough,
      if d.receivedAt < now - MAX_AGE then Retained(f.messages, now) else Beside(Retained(f.messages, now)) + [NewRecord(f, d)])
  {
    hide WithRecord, Pruned, Retained, Beside, Good;
    PrunedMessages(f, now);
    PrunedTwice(f, d, now);
    SameLength(Appended(f, d, now), now);
    RetainedAgain(f.messages, NewRecord(f, d), now);
  }

  /** Pruning replaces the messages by the retained ones, also where it keeps the file as it is. */
  lemma SameLength(g: File, now: Time)
    requires g.readThrough <= g.latest
    ensures Pruned(g, now) == g.(messages := Retained(g.messages, now))
  {
    FreshFacts(g.messages, now - MAX_AGE);
  }

  lemma BesideGood(ms: seq<Record>, latest: nat)
    requires Good(ms, latest) && |ms| <= MAX_STORED
    ensures Good(Beside(ms), latest + 1) && |Beside(ms)| < MAX_STORED && forall r :: r in Beside(ms) ==> r in ms
    ensures Good(ms, latest + 1)
  {
    hide ValidDraft, Before;
  }

  /** A new message keeps the file valid exactly when its id is free. */
  lemma AppendValidIff(f: File, d: Draft, now: Time)
    requires ValidFile(f) && ValidDraft(d) && Known(f, d, now).None?
    ensures Accepted(WithRecord(f, d, now)) <==> IdIsFree(f, d, now)
  {
    WithRecordIs(f, d, now);
    PrunedMessages(f, now);
    RetainedGood(f.messages, now, f.latest);
    var kept, r := Retained(f.messages, now), NewRecord(f, d);
    BesideGood(kept, f.latest);
    var rest := Beside(kept);
    hide ValidDraft, Retained, Good, Beside;
    if d.receivedAt >= now - MAX_AGE {
      if Accepted(WithRecord(f, d, now)) {
        GoodInit(rest + [r], f.latest + 1);
        assert (rest + [r])[..|rest|] == rest;
      }
      if IdIsFree(f, d, now) {
        forall x | x in rest ensures Before(x, r) {
          SequenceBounded(kept, f.latest, x);
        }
        GoodAppend(rest, r, f.latest + 1);
      }
    }
  }

  lemma SequenceBounded(ms: seq<Record>, latest: nat, r: Record)
    requires Good(ms, latest) && r in ms
    ensures 0 < r.sequence <= latest
  {}

  /** Every other save is of a valid file. */
  lemma OthersAreValid(f: File, op: Op)
    requires ValidFile(f) && Effect(f, op).Some?
    requires op.Append? ==> Known(f, op.draft, op.now).Some?
    ensures Accepted(Effect(f, op).value)
  {
    hide ValidDraft, Retained, Before;
    match op
    case Append(d, now) =>
      PrunedMessages(f, now);
      RetainedGood(f.messages, now, f.latest);
    case Mark(_) =>
    case Delete(id) =>
      var i := FindId(f.messages, id).value;
      DeletedGood(f.messages, i, f.latest);
    case Clear =>
    case Initialize(now) =>
      PrunedMessages(f, now);
      RetainedGood(f.messages, now, f.latest);
  }

  /** Without message i, whose id no other message has. */
  lemma DeletedGood(ms: seq<Record>, i: nat, latest: nat)
    requires i < |ms| && Good(ms, latest)
    ensures var out := ms[..i] + ms[i + 1..];
      && Good(out, latest)
      && forall r :: r in out <==> r in ms && r.draft.messageId != ms[i].draft.messageId
  {
    hide ValidDraft;
    var out := ms[..i] + ms[i + 1..];
    assert forall j :: 0 <= j < |out| ==> out[j] == ms[if j < i then j else j + 1];
    forall r | r in ms && r.draft.messageId != ms[i].draft.messageId ensures r in out {
      var j :| 0 <= j < |ms| && ms[j] == r;
      assert r == out[if j < i then j else j - 1];
    }
    forall j | 0 <= j < |out| ensures out[j].draft.messageId != ms[i].draft.messageId {
      if j < i {
        assert Before(ms[j], ms[i]);
      } else {
        assert Before(ms[i], ms[j + 1]);
      }
    }
  }

  // ---- One step ----

  /** Later: nothing went back, and what has an old number was there before. */
  ghost predicate Later(f: File, g: File) {
    && f.latest <= g.latest && f.readThrough <= g.readThrough && f.revision <= g.revision
    && forall r :: r in g.messages && r.sequence <= f.latest ==> r in f.messages
  }

  lemma EffectIsLater(f: File, op: Op)
    requires ValidFile(f) && Effect(f, op).Some?
    ensures Later(f, Effect(f, op).value)
    ensures op.Append? && Known(f, op.draft, op.now).None? ==> Effect(f, op).value.latest == f.latest + 1
    ensures !op.Append? || Known(f, op.draft, op.now).Some? ==> Effect(f, op).value.latest == f.latest
  {
    hide ValidDraft, Retained, Before;
    match op
    case Append(d, now) =>
      PrunedMessages(f, now);
      RetainedSubset(f, now);
      if Known(f, d, now).None? {
        WithRecordIs(f, d, now);
      }
    case Mark(_) =>
    case Delete(id) =>
      DeletedGood(f.messages, FindId(f.messages, id).value, f.latest);
    case Clear =>
    case Initialize(now) =>
      PrunedMessages(f, now);
      RetainedSubset(f, now);
  }

  /** Where the messages of a saved file come from. */
  lemma EffectRecords(f: File, op: Op)
    requires ValidFile(f) && Effect(f, op).Some?
    ensures forall r :: r in Effect(f, op).value.messages ==> r in f.messages || (op.Append? && ValidDraft(op.draft) && r == NewRecord(f, op.draft))
  {
    hide ValidDraft, Retained, Before;
    match op
    case Append(d, now) =>
      PrunedMessages(f, now);
      RetainedSubset(f, now);
      if Known(f, d, now).None? {
        WithRecordIs(f, d, now);
      }
    case Mark(_) =>
    case Delete(id) =>
      DeletedGood(f.messages, FindId(f.messages, id).value, f.latest);
    case Clear =>
    case Initialize(now) =>
      PrunedMessages(f, now);
      RetainedSubset(f, now);
  }

  lemma RetainedSubset(f: File, now: Time)
    ensures forall r :: r in Retained(f.messages, now) ==> r in f.messages
  {
    FreshFacts(f.messages, now - MAX_AGE);
  }

  /** A readable store stays readable, whatever the write does. */
  lemma StepIsLater(d: Disk, op: Op, fate: Fate)
    requires Load(d).Some?
    ensures Load(Next(d, op, fate)).Some? && Later(Load(d).value, Load(Next(d, op, fate)).value)
  {
    var f := Load(d).value;
    LoadedIsValid(d);
    LaterItself(f);
    hide *;
    NextIs(d, op, fate);
    if Effect(f, op).Some? {
      EffectIsLater(f, op);
      SaveIsLater(d, Effect(f, op).value, fate);
    }
  }

  lemma NextIs(d: Disk, op: Op, fate: Fate)
    requires Load(d).Some?
    ensures Next(d, op, fate) == match Effect(Load(d).value, op) case None => d case Some(g) => AfterSave(d, g, fate)
  {
    hide Load, Effect, AfterSave;
  }

  lemma LaterItself(f: File)
    ensures Later(f, f)
  {}

  lemma SaveIsLater(d: Disk, g: File, fate: Fate)
    requires Load(d).Some? && Later(Load(d).value, g)
    ensures Load(AfterSave(d, g, fate)).Some? && Later(Load(d).value, Load(AfterSave(d, g, fate)).value)
  {
    LaterItself(Load(d).value);
    hide ValidFile;
  }

  lemma LoadedIsValid(d: Disk)
    requires Load(d).Some?
    ensures ValidFile(Load(d).value)
  {}

  // ---- Runs ----

  datatype Step = Step(op: Op, fate: Fate)

  ghost function Run(d: Disk, steps: seq<Step>): Disk {
    if steps == [] then d
    else Next(Run(d, steps[..|steps| - 1]), steps[|steps| - 1].op, steps[|steps| - 1].fate)
  }

  lemma LaterThen(f: File, g: File, h: File)
    requires Later(f, g) && Later(g, h)
    ensures Later(f, h)
  {}

  /** Over any run the counters never drop and no old message comes back. */
  lemma {:induction false} RunIsLater(d: Disk, steps: seq<Step>)
    requires Load(d).Some?
    ensures Load(Run(d, steps)).Some? && Later(Load(d).value, Load(Run(d, steps)).value)
  {
    hide Next, Load;
    if steps == [] {
      assert Later(Load(d).value, Load(d).value);
    } else {
      var n := |steps| - 1;
      RunIsLater(d, steps[..n]);
      var e := Run(d, steps[..n]);
      StepIsLater(e, steps[n].op, steps[n].fate);
      LaterThen(Load(d).value, Load(e).value, Load(Next(e, steps[n].op, steps[n].fate)).value);
    }
  }

  lemma {:induction false} RunAppends(d: Disk, a: seq<Step>, b: seq<Step>)
    ensures Run(d, a + b) == Run(Run(d, a), b)
  {
    if b == [] {
      assert a + b == a;
    } else {
      var n := |b| - 1;
      assert (a + b)[..|a + b| - 1] == a + b[..n];
      RunAppends(d, a, b[..n]);
    }
  }

  /** A sequence number names one message for ever: whatever has been pruned, deleted or cleared in
      between, a message found later under the number of an earlier one is that earlier one. */
  lemma NumbersAreNeverReused(d: Disk, earlier: seq<Step>, later: seq<Step>, r: Record, s: Record)
    requires Load(d).Some? && Load(Run(d, earlier)).Some? && Load(Run(d, earlier + later)).Some?
    requires r in Load(Run(d, earlier)).value.messages && s in Load(Run(d, earlier + later)).value.messages
    requires r.sequence == s.sequence
    ensures r == s
  {
    RunAppends(d, earlier, later);
    var e := Run(d, earlier);
    RunIsLater(e, later);
    var f := Load(e).value;
    LoadedIsValid(e);
    hide Run, Later, Load;
    SequenceBounded(f.messages, f.latest, r);
    NewSequence(f, Load(Run(e, later)).value, s);
    SameSequence(f.messages, f.latest, r, s);
  }

  lemma NewSequence(f: File, g: File, s: Record)
    requires Later(f, g) && s in g.messages && s.sequence <= f.latest
    ensures s in f.messages
  {}

  lemma SameSequence(ms: seq<Record>, latest: nat, r: Record, s: Record)
    requires Good(ms, latest) && r in ms && s in ms && r.sequence == s.sequence
    ensures r == s
  {
    hide ValidDraft;
    var i :| 0 <= i < |ms| && ms[i] == r;
    var j :| 0 <= j < |ms| && ms[j] == s;
    assert i < j ==> Before(ms[i], ms[j]);
    assert j < i ==> Before(ms[j], ms[i]);
  }

  // ---- What single operations achieve ----

  /** A successful append stores the message last and drops only expired ones, or, of 501, the oldest. */
  lemma AppendKeepsTheNewest(f: File, d: Draft, now: Time)
    requires ValidFile(f) && ValidDraft(d) && Known(f, d, now).None?
    ensures var out := WithRecord(f, d, now).messages; var all := f.messages + [NewRecord(f, d)];
      && (forall r :: r in out ==> r in all && r.draft.receivedAt >= now - MAX_AGE)
      && (forall r :: r in all && r.draft.receivedAt >= now - MAX_AGE && r !in out ==>
            |out| == MAX_STORED && forall k :: k in out ==> r.sequence < k.sequence)
  {
    WithRecordIs(f, d, now);
    KeepsTheNewest(f.messages, now, f.latest);
    RetainedGood(f.messages, now, f.latest);
    var kept, new_ := Retained(f.messages, now), NewRecord(f, d);
    hide ValidDraft, Retained, WithRecord;
    var out := WithRecord(f, d, now).messages;
    forall r | r in f.messages + [new_] && r.draft.receivedAt >= now - MAX_AGE && r !in out
      ensures |out| == MAX_STORED && forall k :: k in out ==> r.sequence < k.sequence
    {
      OneDropped(f.messages, kept, f.latest, new_, r);
    }
    BesideGood(kept, f.latest);
  }

  lemma OneDropped(ms: seq<Record>, kept: seq<Record>, latest: nat, added: Record, r: Record)
    requires Good(ms, latest) && Good(kept, latest) && |kept| <= MAX_STORED && r in ms && added.sequence == latest + 1
    requires r !in kept ==> |kept| == MAX_STORED && forall k :: k in kept ==> r.sequence < k.sequence
    ensures r in Beside(kept) || (|Beside(kept)| == MAX_STORED - 1 && forall k :: k in Beside(kept) + [added] ==> r.sequence < k.sequence)
  {
    hide ValidDraft;
    SequenceBounded(ms, latest, r);
    if |kept| == MAX_STORED && r == kept[0] {
      forall k | k in Beside(kept) ensures r.sequence < k.sequence {
        var j :| 0 <= j < |Beside(kept)| && Beside(kept)[j] == k;
        assert Before(kept[0], kept[j + 1]);
      }
    } else if r in kept {
      var j :| 0 <= j < |kept| && kept[j] == r;
      assert |kept| == MAX_STORED ==> Beside(kept)[j - 1] == r;
    }
  }

  /** Appending the same key again stores nothing and returns the first message. */
  lemma AppendTwice(f: File, d: Draft, again: Draft, now: Time)
    requires ValidFile(f) && ValidDraft(d) && Known(f, d, now).None? && d.receivedAt >= now - MAX_AGE
    requires IdIsFree(f, d, now) && again.idempotencyKey == d.idempotencyKey
    ensures Known(WithRecord(f, d, now), again, now) == Some(NewRecord(f, d))
  {
    AppendValidIff(f, d, now);
    WithRecordIs(f, d, now);
    var g := WithRecord(f, d, now);
    assert ValidFile(g);
    PrunedMessages(g, now);
    FreshFacts(f.messages, now - MAX_AGE);
    BesideAll(f.messages, now);
    hide ValidDraft, WithRecord, Beside, Retained, IdIsFree;
    var rest := Beside(Retained(f.messages, now));
    AlreadyRetained(rest + [NewRecord(f, d)], now, g.latest);
    KeyOfLast(rest + [NewRecord(f, d)], g.latest);
  }

  lemma BesideAll(ms: seq<Record>, now: Time)
    ensures forall r :: r in Beside(Retained(ms, now)) ==> r.draft.receivedAt >= now - MAX_AGE
  {
    FreshFacts(ms, now - MAX_AGE);
  }

  lemma AlreadyRetained(ms: seq<Record>, now: Time, latest: nat)
    requires |ms| <= MAX_STORED && forall r :: r in ms ==> r.draft.receivedAt >= now - MAX_AGE
    ensures Retained(ms, now) == ms
  {
    FreshAll(ms, now - MAX_AGE);
  }

  lemma KeyOfLast(ms: seq<Record>, latest: nat)
    requires Good(ms, latest) && ms != []
    ensures FindKey(ms, ms[|ms| - 1].draft.idempotencyKey) == Some(|ms| - 1)
  {
    hide ValidDraft;
    var n := |ms| - 1;
    forall j | 0 <= j < n ensures ms[j].draft.idempotencyKey != ms[n].draft.idempotencyKey {
      assert Before(ms[j], ms[n]);
    }
    FirstKey(ms, ms[n].draft.idempotencyKey, n);
  }

  /** Marking up to a number leaves exactly the later messages unread. */
  lemma MarkReads(f: File, sequence: nat)
    requires ValidFile(f) && Effect(f, Mark(sequence)).Some?
    ensures var g := Effect(f, Mark(sequence)).value;
      && g.messages == f.messages && g.readThrough > f.readThrough
      && forall r :: r in g.messages ==> (r.sequence <= g.readThrough <==> r.sequence <= sequence)
  {
    hide ValidDraft, Before;
  }
}
