/** The token bucket of the client diagnostics sink, over exact reals and minutes. */
module RateLimit {
  import opened Common

  const BURST := 120.0
  const REFILL := 60.0
  const MAX_LIMITERS := 1024
  const IDLE := 60.0
  const MAX_SEEN := 4096
  const MAX_BATCH := 20

  datatype Bucket = Bucket(tokens: real, updated: real)

  type Limiters = map<string, Bucket>

  /** The tokens of a bucket at a later time; a clock that goes back adds nothing. */
  function Refilled(b: Bucket, now: real): real {
    var elapsed := now - b.updated;
    if elapsed <= 0.0 then b.tokens
    else if b.tokens + elapsed * REFILL > BURST then BURST else b.tokens + elapsed * REFILL
  }

  /** What a session may spend now; a session without a bucket starts with a full one. */
  function Level(l: Limiters, session: string, now: real): real {
    if session in l then Refilled(l[session], now) else BURST
  }

  predicate Allows(l: Limiters, session: string, count: nat, now: real) {
    Level(l, session, now) >= count as real
  }

  function Spent(l: Limiters, session: string, count: nat, now: real): Limiters {
    l[session := Bucket(if Allows(l, session, count, now) then Level(l, session, now) - count as real else Level(l, session, now), now)]
  }

  predicate IsIdle(b: Bucket, now: real) {
    now - b.updated > IDLE
  }

  function WithoutIdle(l: Limiters, now: real): Limiters {
    map s | s in l && !IsIdle(l[s], now) :: l[s]
  }

  /** What eviction for room may leave: of more than 1024 buckets the most recently used. */
  ghost predicate Roomed(l: Limiters, after: Limiters) {
    && after.Keys <= l.Keys && (forall s :: s in after ==> after[s] == l[s])
    && |after| == (if |l| > MAX_LIMITERS then MAX_LIMITERS else |l|)
    && forall s, t :: s in after && t in l && t !in after ==> l[t].updated <= l[s].updated
  }

  /** What pruning may leave: no idle buckets and no more than there is room for. */
  ghost predicate Pruned(l: Limiters, now: real, after: Limiters) {
    Roomed(WithoutIdle(l, now), after)
  }

  // ---- The sink ----

  datatype Refusal = Invalid | RateLimited

  /** After pruning, a batch with new events is paid for in full or refused. */
  ghost predicate Charged(l: Limiters, now: real, session: string, count: nat, after: Limiters, r: Result<nat, Refusal>) {
    exists kept :: Pruned(l, now, kept) && ChargedTo(kept, now, session, count, after, r)
  }

  ghost predicate ChargedTo(kept: Limiters, now: real, session: string, count: nat, after: Limiters, r: Result<nat, Refusal>) {
    if count == 0 then r == Success(0) && after == kept
    else r == (if Allows(kept, session, count, now) then Success(count) else Failure(RateLimited)) && after == Spent(kept, session, count, now)
  }

  /** One batch with this many new events, and whether the sink took it. */
  datatype Call = Call(session: string, count: nat, now: real, ok: bool)

  /** The sink prunes and then charges, or only prunes when nothing is new. */
  ghost predicate SinkStep(l: Limiters, c: Call, after: Limiters) {
    && c.session != "" && c.count <= MAX_BATCH
    && Charged(l, c.now, c.session, c.count, after, if c.ok then Success(c.count) else Failure(RateLimited))
  }

  /** A session is given, the batch has between one and twenty events, and all else about it is in order. */
  predicate Acceptable(session: string, ids: seq<string>, inOrder: bool) {
    session != "" && ids != [] && |ids| <= MAX_BATCH && inOrder
  }

  class Sink {
    var limiters: Limiters
    var seen: map<string, real>
    var seenList: seq<(string, real)>

    constructor ()
      ensures limiters == map[] && seen == map[] && seenList == []
    {
      limiters, seen, seenList := map[], map[], [];
    }

    method AllowLocked(session: string, count: nat, now: real) returns (ok: bool)
      modifies this`limiters
      ensures ok == Allows(old(limiters), session, count, now) && limiters == Spent(old(limiters), session, count, now)
    {
      var value := if session in limiters then limiters[session] else Bucket(BURST, now);
      var elapsed := now - value.updated;
      if elapsed > 0.0 {
        value := value.(tokens := value.tokens + elapsed * REFILL);
        if value.tokens > BURST {
          value := value.(tokens := BURST);
        }
      }
      value := value.(updated := now);
      if value.tokens < count as real {
        limiters := limiters[session := value];
        return false;
      }
      value := value.(tokens := value.tokens - count as real);
      limiters := limiters[session := value];
      return true;
    }

    /** Idle buckets go; of more than 1024 the least recently used go, one after the other. */
    method PruneLocked(now: real)
      modifies this`limiters
      ensures Pruned(old(limiters), now, limiters)
      ensures forall s :: s in limiters ==> s in old(limiters) && limiters[s] == old(limiters)[s] && now - limiters[s].updated <= 60.0
      ensures |limiters| < 1024 ==> forall s :: s in old(limiters) && now - old(limiters)[s].updated <= 60.0 ==> s in limiters
    {
      limiters := WithoutIdle(limiters, now);
      ghost var kept := limiters;
      while |limiters| > MAX_LIMITERS
        invariant limiters.Keys <= kept.Keys && forall s :: s in limiters ==> limiters[s] == kept[s]
        invariant |limiters| >= (if |kept| > MAX_LIMITERS then MAX_LIMITERS else |kept|)
        invariant |kept| <= MAX_LIMITERS ==> limiters == kept
        invariant forall s, t :: s in limiters && t in kept && t !in limiters ==> kept[t].updated <= kept[s].updated
        decreases |limiters|
      {
        var oldest := Oldest(limiters);
        limiters := limiters - {oldest};
      }
      SameSize(limiters, kept);
      if |limiters| < MAX_LIMITERS {
        AllKept(limiters, kept);
      }
    }

    /** The events of a batch that were not seen before are counted against the session. An unacceptable batch changes nothing. */
    method AcceptAt(now: real, session: string, ids: seq<string>, inOrder: bool) returns (r: Result<nat, Refusal>)
      modifies this
      ensures !Acceptable(session, ids, inOrder) ==>
        r == Failure(Invalid) && limiters == old(limiters) && seen == old(seen) && seenList == old(seenList)
      ensures Acceptable(session, ids, inOrder) ==>
        && SinkStep(old(limiters), Call(session, |NotSeen(old(seen), ids)|, now, r.Success?), limiters)
        && r == if r.Success? then Success(|NotSeen(old(seen), ids)|) else Failure(RateLimited)
      ensures r.Failure? || r.value == 0 ==> seen == old(seen) && seenList == old(seenList)
    {
      if session == "" {
        return Failure(Invalid);
      }
      if |ids| == 0 || |ids| > MAX_BATCH || !inOrder {
        return Failure(Invalid);
      }
      FewerNew(old(seen), ids);
      PruneLocked(now);
      ghost var l := limiters;
      var newEvents: seq<string> := [];
      for i := 0 to |ids|
        invariant newEvents == NotSeen(old(seen), ids[..i]) && seen == old(seen) && limiters == l && seenList == old(seenList)
      {
        assert ids[..i + 1][..i] == ids[..i];
        if ids[i] !in seen {
          newEvents := newEvents + [ids[i]];
        }
      }
      assert ids[..|ids|] == ids;
      if |newEvents| == 0 {
        return Success(0);
      }
      var ok := AllowLocked(session, |newEvents|, now);
      if !ok {
        return Failure(RateLimited);
      }
      for i := 0 to |newEvents|
        invariant limiters == Spent(l, session, |newEvents|, now)
      {
        MarkSeenLocked(newEvents[i], now);
      }
      return Success(|newEvents|);
    }

    method MarkSeenLocked(id: string, now: real)
      modifies this`seen, this`seenList
      ensures |seenList| <= MAX_SEEN || |seenList| <= |old(seenList)| + 1
      ensures |old(seenList)| <= MAX_SEEN ==> |seenList| <= MAX_SEEN
      ensures (forall e :: e in old(seen) ==> exists k :: 0 <= k < |old(seenList)| && old(seenList)[k] == (e, old(seen)[e])) ==>
        forall e :: e in seen ==> exists k :: 0 <= k < |seenList| && seenList[k] == (e, seen[e])
    {
      ghost var listed := forall e :: e in seen ==> exists k :: 0 <= k < |seenList| && seenList[k] == (e, seen[e]);
      seen := seen[id := now];
      ghost var before := seenList;
      seenList := seenList + [(id, now)];
      if listed {
        forall e | e in seen ensures exists k :: 0 <= k < |seenList| && seenList[k] == (e, seen[e]) {
          if e == id {
            assert seenList[|seenList| - 1] == (e, seen[e]);
          } else {
            var k :| 0 <= k < |before| && before[k] == (e, seen[e]);
            assert seenList[k] == (e, seen[e]);
          }
        }
      }
      while |seenList| > MAX_SEEN
        invariant |seenList| <= |before| + 1
        invariant listed ==> forall e :: e in seen ==> exists k :: 0 <= k < |seenList| && seenList[k] == (e, seen[e])
        decreases |seenList|
      {
        var oldest := seenList[0];
        ghost var list := seenList;
        ghost var known := seen;
        seenList := seenList[1..];
        if oldest.0 in seen && seen[oldest.0] == oldest.1 {
          seen := seen - {oldest.0};
        }
        if listed {
          forall e | e in seen ensures exists k :: 0 <= k < |seenList| && seenList[k] == (e, seen[e]) {
            var k :| 0 <= k < |list| && list[k] == (e, known[e]);
            assert k > 0 && seenList[k - 1] == (e, seen[e]);
          }
        }
      }
    }
  }

  function NotSeen(seen: map<string, real>, ids: seq<string>): seq<string> {
    if ids == [] then []
    else NotSeen(seen, ids[..|ids| - 1]) + (if ids[|ids| - 1] in seen then [] else [ids[|ids| - 1]])
  }

  lemma {:induction false} FewerNew(seen: map<string, real>, ids: seq<string>)
    ensures |NotSeen(seen, ids)| <= |ids|
  {
    if ids != [] {
      FewerNew(seen, ids[..|ids| - 1]);
    }
  }

  method Oldest(l: Limiters) returns (oldest: string)
    requires l != map[]
    ensures oldest in l && forall s :: s in l ==> l[oldest].updated <= l[s].updated
  {
    oldest :| oldest in l;
    var left := l.Keys - {oldest};
    while left != {}
      invariant left <= l.Keys && oldest in l
      invariant forall s :: s in l && s !in left ==> l[oldest].updated <= l[s].updated
      decreases |left|
    {
      var s :| s in left;
      if l[s].updated < l[oldest].updated {
        oldest := s;
      }
      left := left - {s};
    }
  }

  lemma {:induction false} AllKept(l: Limiters, kept: Limiters)
    requires l.Keys <= kept.Keys && |l| == |kept|
    ensures l.Keys == kept.Keys
  {
    SameSize(l, kept);
    Fill(l.Keys, kept.Keys);
  }

  lemma {:induction false} Fill(a: set<string>, b: set<string>)
    requires a <= b && |a| == |b|
    ensures a == b
  {
    if a != {} {
      var x :| x in a;
      Fill(a - {x}, b - {x});
    }
  }

  lemma SameSize(l: Limiters, kept: Limiters)
    ensures |l| == |l.Keys| && |kept| == |kept.Keys|
  {}
}
