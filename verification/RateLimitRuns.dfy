/** Runs of the diagnostics sink: how much one session can have accepted in an interval, for how many
    sessions that bound holds, and what pruning idle buckets changes. */
module RateLimitRuns {
  import opened Common
  import opened RateLimit

  ghost predicate Reaches(l: Limiters, calls: seq<Call>, after: Limiters) {
    if calls == [] then after == l
    else
      var first, c := calls[..|calls| - 1], calls[|calls| - 1];
      exists mid :: Reaches(l, first, mid) && SinkStep(mid, c, after)
  }

  /** The events accepted for one session. */
  function Taken(calls: seq<Call>, session: string): nat {
    if calls == [] then 0
    else
      var c := calls[|calls| - 1];
      Taken(calls[..|calls| - 1], session) + if c.session == session && c.ok then c.count else 0
  }

  function Sessions(calls: seq<Call>): set<string> {
    set i | 0 <= i < |calls| :: calls[i].session
  }

  /** Times do not go back and stay within the interval. */
  ghost predicate InOrder(calls: seq<Call>, from: real, to: real) {
    && (forall i :: 0 <= i < |calls| ==> from <= calls[i].now <= to)
    && (forall i, j :: 0 <= i < j < |calls| ==> calls[i].now <= calls[j].now)
  }

  ghost predicate Sane(l: Limiters, now: real) {
    forall s :: s in l ==> 0.0 <= l[s].tokens <= BURST && l[s].updated <= now
  }

  // ---- One step with few sessions ----

  lemma {:induction false} AllOf(a: set<string>, b: set<string>)
    requires a <= b
    ensures |a| <= |b| && (|a| >= |b| ==> a == b)
  {
    if a != {} {
      var x :| x in a;
      AllOf(a - {x}, b - {x});
    }
  }

  /** Up to 1024 buckets pruning drops the idle ones only. */
  lemma FewSessions(l: Limiters, now: real, after: Limiters)
    requires Pruned(l, now, after) && |WithoutIdle(l, now)| <= MAX_LIMITERS
    ensures after == WithoutIdle(l, now)
  {
    AllOf(after.Keys, WithoutIdle(l, now).Keys);
  }

  lemma StepOfFew(l: Limiters, c: Call, after: Limiters, names: set<string>)
    requires SinkStep(l, c, after) && l.Keys <= names && c.session in names && |names| <= MAX_LIMITERS
    ensures ChargedTo(WithoutIdle(l, c.now), c.now, c.session, c.count, after, if c.ok then Success(c.count) else Failure(RateLimited))
    ensures after.Keys <= names
  {
    var r := if c.ok then Success(c.count) else Failure(RateLimited);
    var kept :| Pruned(l, c.now, kept) && ChargedTo(kept, c.now, c.session, c.count, after, r);
    AllOf(WithoutIdle(l, c.now).Keys, names);
    FewSessions(l, c.now, kept);
  }

  /** An idle bucket is a full one. */
  lemma IdleIsFull(l: Limiters, s: string, now: real)
    requires s in l && l[s].tokens >= 0.0 && IsIdle(l[s], now)
    ensures Level(l, s, now) == BURST
  {}

  lemma SameLevel(l: Limiters, s: string, now: real)
    requires Sane(l, now)
    ensures Level(WithoutIdle(l, now), s, now) == Level(l, s, now)
  {
    if s in l && IsIdle(l[s], now) {
      IdleIsFull(l, s, now);
    }
  }

  /** What a call takes, its session has afterwards less. */
  lemma Spends(l: Limiters, c: Call, after: Limiters, names: set<string>, s: string)
    requires SinkStep(l, c, after) && l.Keys <= names && c.session in names && |names| <= MAX_LIMITERS && Sane(l, c.now)
    ensures Sane(after, c.now) && after.Keys <= names
    ensures Level(after, s, c.now) == Level(l, s, c.now) - (if c.session == s && c.ok then c.count as real else 0.0)
  {
    StepOfFew(l, c, after, names);
    SameLevel(l, s, c.now);
  }

  /** Until a later time a level rises by at most the refill. */
  lemma Rises(l: Limiters, s: string, from: real, to: real)
    requires Sane(l, from) && from <= to
    ensures Sane(l, to)
    ensures Level(l, s, to) <= Level(l, s, from) + REFILL * (to - from)
    ensures 0.0 <= Level(l, s, from) <= BURST
  {
    if s in l {
      var b := l[s];
      assert (to - b.updated) * REFILL == (from - b.updated) * REFILL + REFILL * (to - from);
    }
  }

  // ---- The bound ----

  lemma LastStep(l: Limiters, calls: seq<Call>, after: Limiters) returns (mid: Limiters)
    requires Reaches(l, calls, after) && calls != []
    ensures Reaches(l, calls[..|calls| - 1], mid) && SinkStep(mid, calls[|calls| - 1], after)
  {
    hide SinkStep;
    var first, c := calls[..|calls| - 1], calls[|calls| - 1];
    mid :| Reaches(l, first, mid) && SinkStep(mid, c, after);
  }

  lemma InOrderInit(calls: seq<Call>, from: real, to: real)
    requires InOrder(calls, from, to) && calls != []
    ensures var n := |calls| - 1; InOrder(calls[..n], from, calls[n].now) && from <= calls[n].now <= to
  {}

  lemma SessionsInit(calls: seq<Call>)
    requires calls != []
    ensures var n := |calls| - 1; Sessions(calls) == Sessions(calls[..n]) + {calls[n].session}
  {
    var n := |calls| - 1;
    assert forall i :: 0 <= i < n ==> calls[..n][i] == calls[i];
    assert calls[n].session in Sessions(calls);
  }

  /** Over any run of the sink with few sessions: what a session took and what it has left is at most what
      it had and the refill of the time that passed. */
  lemma {:induction false} TakenIsBounded(l: Limiters, calls: seq<Call>, after: Limiters, names: set<string>, session: string, from: real, to: real)
    requires Reaches(l, calls, after) && l.Keys + Sessions(calls) <= names && |names| <= MAX_LIMITERS
    requires Sane(l, from) && from <= to && InOrder(calls, from, to)
    ensures Sane(after, to) && after.Keys <= names
    ensures Taken(calls, session) as real + Level(after, session, to) <= Level(l, session, from) + REFILL * (to - from)
  {
    if calls == [] {
      Rises(l, session, from, to);
    } else {
      var n := |calls| - 1;
      var c := calls[n];
      var mid := LastStep(l, calls, after);
      InOrderInit(calls, from, to);
      SessionsInit(calls);
      hide Level, Sane, SinkStep, Sessions, InOrder;
      TakenIsBounded(l, calls[..n], mid, names, session, from, c.now);
      Spends(mid, c, after, names, session);
      Rises(after, session, c.now, to);
      assert REFILL * (c.now - from) + REFILL * (to - c.now) == REFILL * (to - from);
    }
  }

  /** A run from the start, cut at the beginning of an interval. */
  datatype Observed = Observed(before: seq<Call>, mid: Limiters, window: seq<Call>, after: Limiters, session: string, from: real, to: real)

  ghost predicate Happens(o: Observed) {
    && Reaches(map[], o.before, o.mid) && Reaches(o.mid, o.window, o.after) && o.from <= o.to
    && InOrder(o.before + o.window, if o.before == [] then o.from else o.before[0].now, o.to)
    && InOrder(o.window, o.from, o.to) && (o.before != [] ==> o.before[|o.before| - 1].now <= o.from)
  }

  predicate Within(o: Observed) {
    Taken(o.window, o.session) as real <= BURST + REFILL * (o.to - o.from)
  }

  /** In any interval of any run with at most 1024 sessions none has more than 120 events accepted, plus 60
      for each minute. */
  lemma AnyIntervalIsBounded(o: Observed)
    requires Happens(o) && |Sessions(o.before + o.window)| <= MAX_LIMITERS
    ensures Within(o)
  {
    var names := Sessions(o.before + o.window);
    var start := if o.before == [] then o.from else o.before[0].now;
    CutParts(o);
    NothingIsSane(start);
    hide InOrder, Reaches, Sane, Level, Sessions;
    TakenIsBounded(map[], o.before, o.mid, names, o.session, start, o.from);
    TakenIsBounded(o.mid, o.window, o.after, names, o.session, o.from, o.to);
    Rises(o.mid, o.session, o.from, o.to);
    Rises(o.after, o.session, o.to, o.to);
  }

  lemma CutParts(o: Observed)
    requires Happens(o)
    ensures var start := if o.before == [] then o.from else o.before[0].now;
      start <= o.from && InOrder(o.before, start, o.from)
    ensures Sessions(o.before) <= Sessions(o.before + o.window) && Sessions(o.window) <= Sessions(o.before + o.window)
  {
    hide Reaches;
    var all := o.before + o.window;
    assert forall i :: 0 <= i < |o.before| ==> all[i] == o.before[i];
    assert forall i :: 0 <= i < |o.window| ==> all[|o.before| + i] == o.window[i];
  }

  lemma NothingIsSane(now: real)
    ensures Sane(map[], now)
  {}

  // ---- One session more ----

  const VICTIM := "v"

  /** A quarter of a minute. */
  const SOON := 0.25

  /** The first k of six full batches, with which a session spends its whole burst. */
  function Spree(session: string, k: nat, now: real): seq<Call> {
    if k == 0 then [] else Spree(session, k - 1, now) + [Call(session, MAX_BATCH, now, true)]
  }

  function Spending(session: string, k: nat, now: real): Limiters {
    if k == 0 then map[] else map[session := Bucket(BURST - (MAX_BATCH * k) as real, now)]
  }

  lemma SpreeStep(session: string, k: nat, now: real)
    requires k < 6 && session != ""
    ensures SinkStep(Spending(session, k, now), Call(session, MAX_BATCH, now, true), Spending(session, k + 1, now))
  {
    hide SinkStep;
    AloneStep(Spending(session, k, now), Call(session, MAX_BATCH, now, true), Spending(session, k + 1, now));
  }

  lemma {:induction false} SpreeReaches(session: string, k: nat, now: real)
    requires k <= 6 && session != ""
    ensures Reaches(map[], Spree(session, k, now), Spending(session, k, now))
  {
    hide SinkStep;
    if k > 0 {
      SpreeReaches(session, k - 1, now);
      SpreeStep(session, k - 1, now);
      hide Reaches, Spending;
      OneMore(map[], Spree(session, k - 1, now), Spending(session, k - 1, now), Call(session, MAX_BATCH, now, true), Spending(session, k, now));
    }
  }

  lemma {:induction false} SpreeTakes(session: string, k: nat, now: real)
    ensures var calls := Spree(session, k, now);
      && |calls| == k && Taken(calls, session) == MAX_BATCH * k
      && forall i :: 0 <= i < k ==> calls[i].session == session && calls[i].now == now
  {
    if k > 0 {
      SpreeTakes(session, k - 1, now);
      hide Taken;
      TakenOneMore(Spree(session, k - 1, now), Call(session, MAX_BATCH, now, true), session);
    } else {
      NothingTaken(session);
    }
  }

  /** The buckets after the victim has spent all it has and k other sessions one event each, soon after. */
  function Filled(k: nat): Limiters {
    if k == 0 then map[VICTIM := Bucket(0.0, 0.0)] else Filled(k - 1)[Decimal(k - 1) := Bucket(BURST - 1.0, SOON)]
  }

  function Filling(k: nat): seq<Call> {
    if k == 0 then Spree(VICTIM, 6, 0.0) else Filling(k - 1) + [Filler(k - 1)]
  }

  lemma {:induction false} FilledBuckets(k: nat)
    ensures VICTIM in Filled(k) && Filled(k)[VICTIM] == Bucket(0.0, 0.0)
    ensures forall s :: s in Filled(k) && s != VICTIM ==> Filled(k)[s] == Bucket(BURST - 1.0, SOON)
  {
    if k > 0 {
      FilledBuckets(k - 1);
      NoVictim(k - 1);
    }
  }

  lemma NoVictim(i: nat)
    ensures Decimal(i) != VICTIM
  {
    assert IsDigit(Decimal(i)[0]);
  }

  lemma {:induction false} FilledSize(k: nat)
    ensures |Filled(k)| == k + 1
    ensures forall i: nat :: i >= k ==> Decimal(i) !in Filled(k)
  {
    if k > 0 {
      FilledSize(k - 1);
      forall i: nat | i >= k ensures Decimal(i) != Decimal(k - 1) {
        if Decimal(i) == Decimal(k - 1) {
          DecimalInjective(i, k - 1);
        }
      }
    } else {
      forall i: nat ensures Decimal(i) != VICTIM {
        NoVictim(i);
      }
    }
  }

  lemma FilledCount(k: nat)
    ensures |Filled(k)| == k + 1
  {
    FilledSize(k);
  }

  lemma NothingIdle(l: Limiters, now: real)
    requires forall s :: s in l ==> !IsIdle(l[s], now)
    ensures WithoutIdle(l, now) == l
    ensures |l| <= MAX_LIMITERS ==> Pruned(l, now, l)
  {}

  function Filler(k: nat): Call {
    Call(Decimal(k), 1, SOON, true)
  }

  /** What the calls of the run look like. */
  ghost predicate FillingIs(k: nat) {
    && Taken(Filling(k), VICTIM) == 120 && InOrder(Filling(k), 0.0, SOON) && Sessions(Filling(k)) == Filled(k).Keys
  }

  lemma {:induction false} FillingFacts(k: nat)
    ensures FillingIs(k)
  {
    if k == 0 {
      SpreeTakes(VICTIM, 6, 0.0);
      hide Spree;
      OneSession(Filling(0), VICTIM);
    } else {
      FillingFacts(k - 1);
      FillingMore(k - 1);
    }
  }

  lemma FillingMore(k: nat)
    requires FillingIs(k)
    ensures FillingIs(k + 1)
  {
    var before, c := Filling(k), Filler(k);
    NoVictim(k);
    assert Filling(k + 1) == before + [c] && Filled(k + 1).Keys == Filled(k).Keys + {c.session};
    hide Filling, Taken, Filled, Sessions;
    TakenOneMore(before, c, VICTIM);
    SessionsMore(before, c);
    OneMoreInOrder(before, c, 0.0, SOON);
  }

  lemma SessionsMore(calls: seq<Call>, c: Call)
    ensures Sessions(calls + [c]) == Sessions(calls) + {c.session}
  {
    SessionsInit(calls + [c]);
    assert (calls + [c])[..|calls|] == calls;
  }

  lemma FillerStep(k: nat)
    requires k < MAX_LIMITERS
    ensures SinkStep(Filled(k), Filler(k), Filled(k + 1))
  {
    FilledBuckets(k);
    FilledCount(k);
    hide IsIdle, Filled;
    assert forall s :: s in Filled(k) ==> !IsIdle(Filled(k)[s], SOON) by {
      NotIdle();
    }
    FilledNext(k);
    AloneStep(Filled(k), Filler(k), Filled(k + 1));
  }

  lemma NotIdle()
    ensures !IsIdle(Bucket(0.0, 0.0), SOON) && !IsIdle(Bucket(BURST - 1.0, SOON), SOON)
  {}

  lemma FilledNext(k: nat)
    ensures Allows(Filled(k), Decimal(k), 1, SOON) && Filled(k + 1) == Spent(Filled(k), Decimal(k), 1, SOON)
  {
    FilledSize(k);
  }

  lemma {:induction false} FillingReaches(k: nat)
    requires k <= MAX_LIMITERS
    ensures Reaches(map[], Filling(k), Filled(k))
  {
    if k == 0 {
      SpreeReaches(VICTIM, 6, 0.0);
      assert Spending(VICTIM, 6, 0.0) == Filled(0);
    } else {
      FillingReaches(k - 1);
      FillerStep(k - 1);
      assert Filling(k) == Filling(k - 1) + [Filler(k - 1)];
      hide Reaches, SinkStep, Filling, Filled;
      OneMore(map[], Filling(k - 1), Filled(k - 1), Filler(k - 1), Filled(k));
    }
  }

  lemma OneMore(l: Limiters, calls: seq<Call>, mid: Limiters, c: Call, after: Limiters)
    requires Reaches(l, calls, mid) && SinkStep(mid, c, after)
    ensures Reaches(l, calls + [c], after)
  {
    hide SinkStep;
    assert (calls + [c])[..|calls|] == calls;
  }

  lemma TakenOneMore(calls: seq<Call>, c: Call, session: string)
    ensures Taken(calls + [c], session) == Taken(calls, session) + if c.session == session && c.ok then c.count else 0
  {
    assert (calls + [c])[..|calls|] == calls;
  }

  lemma MissingOne(a: set<string>, b: set<string>)
    requires |a| < |b|
    ensures b - a != {}
  {
    if forall x :: x in b ==> x in a {
      AllOf(b, a);
    } else {
      var x :| x in b && x !in a;
      assert x in b - a;
    }
  }

  /** Of 1025 buckets the one that is older than all others goes, and only that one. */
  lemma OldestGoes(l: Limiters, now: real, victim: string)
    requires victim in l && |l| == MAX_LIMITERS + 1 && (forall s :: s in l ==> !IsIdle(l[s], now))
    requires forall s :: s in l && s != victim ==> l[victim].updated < l[s].updated
    ensures forall after :: Pruned(l, now, after) <==> after == l - {victim}
  {
    NothingIdle(l, now);
    assert (l - {victim}).Keys == l.Keys - {victim};
    forall after | Pruned(l, now, after) ensures after == l - {victim} {
      assert |after.Keys| == |after| && |l.Keys| == |l|;
      MissingOne(after.Keys, l.Keys);
      var t :| t in l.Keys - after.Keys;
      assert victim !in after;
      AllOf(after.Keys, l.Keys - {victim});
    }
  }

  /** 1025 sessions: the victim's empty bucket is dropped for room, and it has another batch accepted at once. */
  lemma RoomBreaksTheBound() returns (o: Observed)
    ensures Happens(o) && |Sessions(o.before + o.window)| == MAX_LIMITERS + 1 && !Within(o)
  {
    o := OneTooMany(MAX_LIMITERS);
  }

  lemma OneTooMany(k: nat) returns (o: Observed)
    requires k == MAX_LIMITERS
    ensures Happens(o) && |Sessions(o.before + o.window)| == k + 1 && !Within(o)
  {
    hide Reaches, SinkStep, Filled, Filling, FillingIs, Spent, Taken, Sessions, InOrder, Happens, Within;
    var l, c := Filled(k), Call(VICTIM, MAX_BATCH, SOON, true);
    var before := Filling(k);
    var calls := before + [c];
    var after := Spent(l - {VICTIM}, VICTIM, MAX_BATCH, SOON);
    FillingReaches(k);
    FillingFacts(k);
    VictimStep(k);
    OneMore(map[], before, l, c, after);
    FillingThen(k, before, l, c);
    StartsHere();
    o := Observed([], map[], calls, after, VICTIM, 0.0, SOON);
    assert [] + calls == calls;
    TooMuch(o);
  }

  lemma FillingThen(k: nat, before: seq<Call>, l: Limiters, c: Call)
    requires before == Filling(k) && l == Filled(k) && c == Call(VICTIM, MAX_BATCH, SOON, true) && FillingIs(k)
    ensures Taken(before + [c], VICTIM) == 140 && InOrder(before + [c], 0.0, SOON) && |Sessions(before + [c])| == k + 1
  {
    FilledBuckets(k);
    FilledCount(k);
    assert |l.Keys| == |l| && l.Keys + {VICTIM} == l.Keys;
    hide Filling, Filled, Taken, Sessions;
    TakenOneMore(before, c, VICTIM);
    SessionsMore(before, c);
    OneMoreInOrder(before, c, 0.0, SOON);
  }

  lemma TooMuch(o: Observed)
    requires o.before == [] && o.mid == map[] && Reaches(map[], [], map[]) && Reaches(map[], o.window, o.after)
    requires o.from == 0.0 && o.to == SOON && InOrder(o.window, 0.0, SOON) && o.before + o.window == o.window && Taken(o.window, o.session) == 140
    ensures Happens(o) && !Within(o)
  {
    hide Reaches, InOrder, Taken;
  }

  lemma OneMoreInOrder(calls: seq<Call>, c: Call, from: real, to: real)
    requires InOrder(calls, from, to) && c.now == to && from <= to
    ensures InOrder(calls + [c], from, to)
  {}

  /** The victim's bucket is the oldest of 1025, goes, and the victim starts with a full one. */
  lemma VictimStep(k: nat)
    requires k == MAX_LIMITERS
    ensures SinkStep(Filled(k), Call(VICTIM, MAX_BATCH, SOON, true), Spent(Filled(k) - {VICTIM}, VICTIM, MAX_BATCH, SOON))
  {
    var l, n := Filled(k), MAX_BATCH;
    FilledBuckets(k);
    FilledCount(k);
    NotIdle();
    hide IsIdle, Filled, Pruned, Spent;
    OldestGoes(l, SOON, VICTIM);
    assert Allows(l - {VICTIM}, VICTIM, n, SOON);
    hide Allows;
    assert ChargedTo(l - {VICTIM}, SOON, VICTIM, n, Spent(l - {VICTIM}, VICTIM, n, SOON), Success(n));
  }

  lemma StartsHere()
    ensures Reaches(map[], [], map[])
  {}

  /** The bound holds for runs with up to n sessions. */
  ghost predicate Bounded(n: nat) {
    forall o: Observed :: Happens(o) && |Sessions(o.before + o.window)| <= n ==> Within(o)
  }

  /** It holds for exactly as many sessions as the sink keeps buckets. */
  lemma BoundedIff(n: nat)
    ensures Bounded(n) <==> n <= MAX_LIMITERS
  {
    hide Happens, Within;
    if n <= MAX_LIMITERS {
      forall o: Observed | Happens(o) && |Sessions(o.before + o.window)| <= n ensures Within(o) {
        AnyIntervalIsBounded(o);
      }
    } else {
      var o := RoomBreaksTheBound();
    }
  }

  // ---- A clock that goes back ----

  /** A third of a minute. */
  const THIRD := 1.0 / 3.0

  /** A session that has spent its burst; its clock goes back and forward again, twice. */
  function ClockRun(first: seq<Call>, b: Call, c: Call): seq<Call> {
    first + [b] + [c] + [b] + [c]
  }

  lemma ClockRunReaches(first: seq<Call>, b: Call, c: Call, full: Limiters, early: Limiters)
    requires Reaches(map[], first, full) && SinkStep(full, b, early) && SinkStep(early, c, full)
    ensures Reaches(map[], ClockRun(first, b, c), full)
  {
    hide SinkStep, Reaches;
    OneMore(map[], first, full, b, early);
    OneMore(map[], first + [b], early, c, full);
    OneMore(map[], first + [b] + [c], full, b, early);
    OneMore(map[], first + [b] + [c] + [b], early, c, full);
  }

  lemma ClockRunTakes(first: seq<Call>, b: Call, c: Call, session: string)
    requires c.session == session && c.ok && !b.ok
    ensures Taken(ClockRun(first, b, c), session) == Taken(first, session) + 2 * c.count
  {
    hide Taken;
    TakenOneMore(first, b, session);
    TakenOneMore(first + [b], c, session);
    TakenOneMore(first + [b] + [c], b, session);
    TakenOneMore(first + [b] + [c] + [b], c, session);
  }

  /** The clock is back by a third of a minute: the session is refused, and its bucket carries the earlier time. */
  lemma ClockBack(full: Limiters, early: Limiters)
    requires full == map["s" := Bucket(0.0, THIRD)] && early == map["s" := Bucket(0.0, 0.0)]
    ensures SinkStep(full, Call("s", 1, 0.0, false), early)
  {
    hide SinkStep;
    AloneStep(full, Call("s", 1, 0.0, false), early);
  }

  /** The clock shows the same time again: the third of a minute is refilled once more. */
  lemma ClockAgain(full: Limiters, early: Limiters)
    requires full == map["s" := Bucket(0.0, THIRD)] && early == map["s" := Bucket(0.0, 0.0)]
    ensures SinkStep(early, Call("s", MAX_BATCH, THIRD, true), full)
  {
    hide SinkStep;
    AloneStep(early, Call("s", MAX_BATCH, THIRD, true), full);
  }

  /** Within the third of a minute that the clock shows one session has 160 events accepted. */
  lemma ClockBackBreaksTheBound() returns (calls: seq<Call>, after: Limiters)
    ensures Reaches(map[], calls, after) && Sessions(calls) == {"s"}
    ensures forall i :: 0 <= i < |calls| ==> 0.0 <= calls[i].now <= THIRD
    ensures Taken(calls, "s") as real > BURST + REFILL * (THIRD - 0.0)
  {
    hide SinkStep, Reaches, Taken, ClockRun, Sessions, Spree;
    var full, early: Limiters := map["s" := Bucket(0.0, THIRD)], map["s" := Bucket(0.0, 0.0)];
    var b, c := Call("s", 1, 0.0, false), Call("s", MAX_BATCH, THIRD, true);
    var first := Spree("s", 6, THIRD);
    SpreeReaches("s", 6, THIRD);
    SpreeTakes("s", 6, THIRD);
    assert Spending("s", 6, THIRD) == full;
    ClockBack(full, early);
    ClockAgain(full, early);
    ClockRunReaches(first, b, c, full, early);
    ClockRunTakes(first, b, c, "s");
    ClockRunCalls(first, b, c, "s", 0.0, THIRD);
    calls, after := ClockRun(first, b, c), full;
  }

  lemma ClockRunCalls(first: seq<Call>, b: Call, c: Call, session: string, from: real, to: real)
    requires b.session == c.session == session && forall i :: 0 <= i < |first| ==> first[i].session == session && from <= first[i].now <= to
    requires from <= b.now <= to && from <= c.now <= to
    ensures forall i :: 0 <= i < |ClockRun(first, b, c)| ==> from <= ClockRun(first, b, c)[i].now <= to
    ensures Sessions(ClockRun(first, b, c)) == {session}
  {
    OneSession(ClockRun(first, b, c), session);
  }

  lemma OneSession(calls: seq<Call>, session: string)
    requires calls != [] && forall i :: 0 <= i < |calls| ==> calls[i].session == session
    ensures Sessions(calls) == {session}
  {
    assert calls[0].session in Sessions(calls);
  }

  lemma NothingTaken(session: string)
    ensures Taken([], session) == 0
  {}

  /** A step that drops nothing. */
  lemma AloneStep(l: Limiters, c: Call, after: Limiters)
    requires |l| <= MAX_LIMITERS && (forall s :: s in l ==> !IsIdle(l[s], c.now)) && c.count > 0
    requires c.ok == Allows(l, c.session, c.count, c.now) && after == Spent(l, c.session, c.count, c.now)
    requires c.session != "" && c.count <= MAX_BATCH
    ensures SinkStep(l, c, after)
  {
    NothingIdle(l, c.now);
    assert ChargedTo(l, c.now, c.session, c.count, after, if c.ok then Success(c.count) else Failure(RateLimited));
  }

  // ---- Dropping idle buckets cannot be seen ----

  /** A sink that never prunes. */
  function Unpruned(calls: seq<Call>): Limiters {
    if calls == [] then map[]
    else
      var c := calls[|calls| - 1];
      var l := Unpruned(calls[..|calls| - 1]);
      if c.count == 0 then l else Spent(l, c.session, c.count, c.now)
  }

  /** The same buckets, but for some that have been idle too long. */
  ghost predicate LessIdle(a: Limiters, b: Limiters, now: real) {
    && (forall s :: s in a ==> s in b && a[s] == b[s])
    && (forall s :: s in b && s !in a ==> IsIdle(b[s], now))
  }

  /** A missing idle bucket and a full one are the same to a charge. */
  lemma LessIdleSpent(a: Limiters, b: Limiters, c: Call)
    requires LessIdle(a, b, c.now) && Sane(b, c.now)
    ensures Allows(a, c.session, c.count, c.now) == Allows(b, c.session, c.count, c.now)
    ensures LessIdle(Spent(a, c.session, c.count, c.now), Spent(b, c.session, c.count, c.now), c.now)
    ensures Sane(Spent(b, c.session, c.count, c.now), c.now)
  {
    if c.session in b && c.session !in a {
      IdleIsFull(b, c.session, c.now);
    }
    assert Level(a, c.session, c.now) == Level(b, c.session, c.now);
  }

  lemma LessIdleLater(a: Limiters, b: Limiters, from: real, to: real)
    requires LessIdle(a, b, from) && Sane(b, from) && from <= to
    ensures LessIdle(a, b, to) && Sane(b, to)
  {}

  /** What the sink and one that never prunes have in common after a run. */
  ghost predicate Alike(calls: seq<Call>, after: Limiters, names: set<string>, now: real) {
    && LessIdle(after, Unpruned(calls), now) && Sane(Unpruned(calls), now) && after.Keys <= names
  }

  /** The decision of a sink that never prunes. */
  predicate Decision(calls: seq<Call>, c: Call) {
    c.count == 0 || Allows(Unpruned(calls), c.session, c.count, c.now)
  }

  ghost predicate Agreed(calls: seq<Call>) {
    forall i :: 0 <= i < |calls| ==> calls[i].ok == Decision(calls[..i], calls[i])
  }

  lemma AgreedMore(calls: seq<Call>, c: Call)
    requires Agreed(calls) && c.ok == Decision(calls, c)
    ensures Agreed(calls + [c])
  {
    hide Decision;
    var all := calls + [c];
    forall i | 0 <= i < |all| ensures all[i].ok == Decision(all[..i], all[i]) {
      assert all[..i] == if i < |calls| then calls[..i] else calls;
    }
  }

  lemma AlikeStep(first: seq<Call>, mid: Limiters, c: Call, after: Limiters, names: set<string>)
    requires Alike(first, mid, names, c.now) && SinkStep(mid, c, after) && c.session in names && |names| <= MAX_LIMITERS
    ensures c.ok == Decision(first, c) && Alike(first + [c], after, names, c.now)
  {
    StepOfFew(mid, c, after, names);
    assert (first + [c])[..|first|] == first;
    hide Allows, Spent, SinkStep;
    LessIdleSpent(WithoutIdle(mid, c.now), Unpruned(first), c);
  }

  lemma AlikeLater(calls: seq<Call>, after: Limiters, names: set<string>, from: real, to: real)
    requires Alike(calls, after, names, from) && from <= to
    ensures Alike(calls, after, names, to)
  {
    LessIdleLater(after, Unpruned(calls), from, to);
  }

  /** In a run with at most 1024 sessions every decision of the sink is that of one that never prunes. */
  lemma {:induction false} PruningIsInvisible(calls: seq<Call>, after: Limiters, names: set<string>, from: real, to: real)
    requires Reaches(map[], calls, after) && from <= to && InOrder(calls, from, to)
    requires Sessions(calls) <= names && |names| <= MAX_LIMITERS
    ensures Alike(calls, after, names, to) && Agreed(calls)
  {
    if calls == [] {
      assert Alike(calls, after, names, to);
    } else {
      var n := |calls| - 1;
      var c := calls[n];
      var mid := LastStep(map[], calls, after);
      InOrderInit(calls, from, to);
      SessionsInit(calls);
      hide Reaches, SinkStep, Sessions, InOrder, Alike, Decision, Agreed;
      PruningIsInvisible(calls[..n], mid, names, from, c.now);
      AlikeStep(calls[..n], mid, c, after, names);
      AgreedMore(calls[..n], c);
      assert calls[..n] + [c] == calls;
      AlikeLater(calls, after, names, c.now, to);
    }
  }

  // ---- Dropping idle buckets cannot be seen with any number of sessions ----

  /** A sink that evicts for room only. */
  ghost predicate RoomStep(l: Limiters, c: Call, after: Limiters) {
    && c.session != "" && c.count <= MAX_BATCH
    && exists kept :: Roomed(l, kept) && ChargedTo(kept, c.now, c.session, c.count, after, if c.ok then Success(c.count) else Failure(RateLimited))
  }

  ghost predicate RoomReaches(l: Limiters, calls: seq<Call>, after: Limiters) {
    if calls == [] then after == l
    else
      var first, c := calls[..|calls| - 1], calls[|calls| - 1];
      exists mid :: RoomReaches(l, first, mid) && RoomStep(mid, c, after)
  }

  /** The least recently used bucket. */
  lemma {:induction false} OldestOf(l: Limiters, names: set<string>) returns (oldest: string)
    requires names <= l.Keys && names != {}
    ensures oldest in names && forall s :: s in names ==> l[oldest].updated <= l[s].updated
  {
    oldest :| oldest in names;
    var rest := names - {oldest};
    if rest != {} {
      var other := OldestOf(l, rest);
      if l[other].updated < l[oldest].updated {
        oldest := other;
      }
    } else {
      assert names == {oldest};
    }
  }

  /** Something can always be evicted. */
  lemma {:induction false} RoomExists(l: Limiters) returns (kept: Limiters)
    ensures Roomed(l, kept)
    decreases |l|
  {
    if |l| <= MAX_LIMITERS {
      kept := l;
    } else {
      assert l.Keys != {};
      var oldest := OldestOf(l, l.Keys);
      var less := l - {oldest};
      assert less.Keys == l.Keys - {oldest} && |less.Keys| == |less| && |l.Keys| == |l|;
      kept := RoomExists(less);
    }
  }

  /** Eviction for room keeps all buckets in use when there is room for them. */
  lemma UsedStay(b: Limiters, now: real, kept: Limiters)
    requires Roomed(b, kept) && |WithoutIdle(b, now)| <= MAX_LIMITERS
    ensures WithoutIdle(b, now).Keys <= kept.Keys
  {
    var used := WithoutIdle(b, now).Keys;
    assert |used| == |WithoutIdle(b, now)| && |kept.Keys| == |kept| && |b.Keys| == |b|;
    if t :| t in used && t !in kept {
      AllOf(kept.Keys, b.Keys);
      assert kept.Keys <= used - {t};
      AllOf(kept.Keys, used - {t});
    }
  }

  /** And it keeps none but those when there is not. */
  lemma IdleGo(b: Limiters, now: real, kept: Limiters)
    requires Roomed(b, kept) && |WithoutIdle(b, now)| > MAX_LIMITERS
    ensures kept.Keys <= WithoutIdle(b, now).Keys && Roomed(WithoutIdle(b, now), kept)
  {
    var used := WithoutIdle(b, now).Keys;
    assert |used| == |WithoutIdle(b, now)| && |kept.Keys| == |kept| && |b.Keys| == |b|;
    AllOf(used, b.Keys);
    MissingOne(kept.Keys, used);
    var t :| t in used - kept.Keys;
    assert forall s :: s in kept ==> b[t].updated <= b[s].updated;
  }

  lemma SameUsed(a: Limiters, b: Limiters, now: real)
    requires LessIdle(a, b, now)
    ensures WithoutIdle(a, now) == WithoutIdle(b, now)
  {}

  lemma KeptAlike(a: Limiters, b: Limiters, now: real, kept: Limiters) returns (other: Limiters)
    requires LessIdle(a, b, now) && Pruned(a, now, kept)
    ensures Roomed(b, other) && LessIdle(kept, other, now)
  {
    SameUsed(a, b, now);
    var used := WithoutIdle(b, now);
    if |used| <= MAX_LIMITERS {
      FewSessions(a, now, kept);
      other := RoomExists(b);
      UsedStay(b, now, other);
    } else {
      other := kept;
      assert |used.Keys| == |used| && |b.Keys| == |b|;
      AllOf(used.Keys, b.Keys);
      MissingOne(kept.Keys, used.Keys);
    }
  }

  lemma OthersAlike(a: Limiters, b: Limiters, now: real, other: Limiters) returns (kept: Limiters)
    requires LessIdle(a, b, now) && Roomed(b, other)
    ensures Pruned(a, now, kept) && LessIdle(kept, other, now)
  {
    SameUsed(a, b, now);
    var used := WithoutIdle(b, now);
    if |used| <= MAX_LIMITERS {
      kept := used;
      UsedStay(b, now, other);
    } else {
      kept := other;
      IdleGo(b, now, other);
    }
  }

  /** The sink and one that evicts for room only, after the same calls. */
  ghost predicate Twins(a: Limiters, b: Limiters, now: real) {
    LessIdle(a, b, now) && Sane(b, now)
  }

  lemma PartIsSane(b: Limiters, kept: Limiters, now: real)
    requires Sane(b, now) && Roomed(b, kept)
    ensures Sane(kept, now)
  {}

  lemma ChargedAlike(kept: Limiters, other: Limiters, c: Call, after: Limiters, r: Result<nat, Refusal>)
    requires Twins(kept, other, c.now)
    ensures var next := if c.count == 0 then other else Spent(other, c.session, c.count, c.now);
      ChargedTo(kept, c.now, c.session, c.count, after, r) ==> ChargedTo(other, c.now, c.session, c.count, next, r) && Twins(after, next, c.now)
    ensures var next := if c.count == 0 then kept else Spent(kept, c.session, c.count, c.now);
      ChargedTo(other, c.now, c.session, c.count, after, r) ==> ChargedTo(kept, c.now, c.session, c.count, next, r) && Twins(next, after, c.now)
  {
    LessIdleSpent(kept, other, c);
    hide Spent, Allows, LessIdle, Sane;
  }

  lemma StepForth(a: Limiters, b: Limiters, c: Call, after: Limiters) returns (next: Limiters)
    requires Twins(a, b, c.now) && SinkStep(a, c, after)
    ensures RoomStep(b, c, next) && Twins(after, next, c.now)
  {
    hide Pruned, Roomed, ChargedTo, Spent, LessIdle, Sane;
    var r := if c.ok then Success(c.count) else Failure(RateLimited);
    var kept :| Pruned(a, c.now, kept) && ChargedTo(kept, c.now, c.session, c.count, after, r);
    var other := KeptAlike(a, b, c.now, kept);
    PartIsSane(b, other, c.now);
    ChargedAlike(kept, other, c, after, r);
    next := if c.count == 0 then other else Spent(other, c.session, c.count, c.now);
  }

  lemma StepBack(a: Limiters, b: Limiters, c: Call, after: Limiters) returns (next: Limiters)
    requires Twins(a, b, c.now) && RoomStep(b, c, after)
    ensures SinkStep(a, c, next) && Twins(next, after, c.now)
  {
    hide Pruned, Roomed, ChargedTo, Spent, LessIdle, Sane;
    var r := if c.ok then Success(c.count) else Failure(RateLimited);
    var other :| Roomed(b, other) && ChargedTo(other, c.now, c.session, c.count, after, r);
    var kept := OthersAlike(a, b, c.now, other);
    PartIsSane(b, other, c.now);
    ChargedAlike(kept, other, c, after, r);
    next := if c.count == 0 then kept else Spent(kept, c.session, c.count, c.now);
  }

  lemma TwinsLater(a: Limiters, b: Limiters, from: real, to: real)
    requires Twins(a, b, from) && from <= to
    ensures Twins(a, b, to)
  {
    LessIdleLater(a, b, from, to);
  }

  lemma {:induction false} RunForth(calls: seq<Call>, after: Limiters, from: real, to: real) returns (next: Limiters)
    requires Reaches(map[], calls, after) && from <= to && InOrder(calls, from, to)
    ensures RoomReaches(map[], calls, next) && Twins(after, next, to)
    decreases |calls|
  {
    hide SinkStep, RoomStep, InOrder;
    if calls == [] {
      next := map[];
    } else {
      var n := |calls| - 1;
      var c := calls[n];
      var mid := LastStep(map[], calls, after);
      InOrderInit(calls, from, to);
      var other := RunForth(calls[..n], mid, from, c.now);
      next := StepForth(mid, other, c, after);
      hide Twins;
      TwinsLater(after, next, c.now, to);
    }
  }

  lemma {:induction false} RunBack(calls: seq<Call>, after: Limiters, from: real, to: real) returns (next: Limiters)
    requires RoomReaches(map[], calls, after) && from <= to && InOrder(calls, from, to)
    ensures Reaches(map[], calls, next) && Twins(next, after, to)
    decreases |calls|
  {
    hide SinkStep, RoomStep, InOrder;
    if calls == [] {
      next := map[];
    } else {
      var n := |calls| - 1;
      var c := calls[n];
      var mid :| RoomReaches(map[], calls[..n], mid) && RoomStep(mid, c, after);
      InOrderInit(calls, from, to);
      var other := RunBack(calls[..n], mid, from, c.now);
      next := StepBack(other, mid, c, after);
      hide Twins;
      TwinsLater(next, after, c.now, to);
    }
  }

  /** For any number of sessions: a sequence of calls and decisions is possible for the sink exactly when it is possible for
      one that evicts for room only. */
  lemma IdleEvictionIsInvisible(calls: seq<Call>, from: real, to: real)
    requires from <= to && InOrder(calls, from, to)
    ensures (exists after :: Reaches(map[], calls, after)) <==> (exists after :: RoomReaches(map[], calls, after))
  {
    hide Reaches, RoomReaches, InOrder, Twins;
    if after :| Reaches(map[], calls, after) {
      var next := RunForth(calls, after, from, to);
    }
    if after :| RoomReaches(map[], calls, after) {
      var next := RunBack(calls, after, from, to);
    }
  }
}
