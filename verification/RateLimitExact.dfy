/** Exactly which batches the diagnostics sink takes. */
module RateLimitExact {
  import opened RateLimit
  import opened RateLimitRuns

  // ---- One decision ----

  /** What a bucket holds at a later time: 60 more for each minute, never more than 120. */
  ghost predicate Holds(l: Limiters, session: string, now: real, level: real) {
    if session !in l then level == 120.0
    else if now <= l[session].updated then level == l[session].tokens
    else level == if l[session].tokens + 60.0 * (now - l[session].updated) > 120.0 then 120.0 else l[session].tokens + 60.0 * (now - l[session].updated)
  }

  /** A batch within the level is taken and paid for; another is refused, and leaves the level. */
  lemma DecisionIs(l: Limiters, session: string, count: nat, now: real, level: real)
    requires Holds(l, session, now, level)
    ensures Allows(l, session, count, now) <==> count as real <= level
    ensures Spent(l, session, count, now) == l[session := Bucket(if count as real <= level then level - count as real else level, now)]
  {
    if session in l {
      var b := l[session];
      assert (now - b.updated) * REFILL == 60.0 * (now - b.updated);
    }
  }

  // ---- Whole runs ----

  /** The start of the window from call i on to a time. */
  function Start(calls: seq<Call>, i: nat, now: real): real
    requires i <= |calls|
  {
    if i < |calls| then calls[i].now else now
  }

  /** What the rate leaves of the window from call i on. */
  function Room(calls: seq<Call>, session: string, i: nat, now: real): real
    requires i <= |calls|
  {
    120.0 + 60.0 * (now - Start(calls, i, now)) - Taken(calls[i..], session) as real
  }

  /** The level of a sink that never prunes is the least room of all windows. */
  ghost predicate LeastRoom(calls: seq<Call>, session: string, now: real) {
    var level := Level(Unpruned(calls), session, now);
    && (forall i :: 0 <= i <= |calls| ==> level <= Room(calls, session, i, now))
    && exists i :: 0 <= i <= |calls| && level == Room(calls, session, i, now)
  }

  /** The calls of the run were decided as a sink that never prunes decides. */
  lemma AgreedInit(calls: seq<Call>)
    requires Agreed(calls) && calls != []
    ensures var n := |calls| - 1; Agreed(calls[..n]) && calls[n].ok == Decision(calls[..n], calls[n])
  {
    hide Decision;
    var n := |calls| - 1;
    assert forall i :: 0 <= i < n ==> calls[..n][i] == calls[i] && calls[..n][..i] == calls[..i];
  }

  /** A level at a later time, from the level at an earlier one. */
  lemma LaterLevel(l: Limiters, session: string, from: real, to: real)
    requires Sane(l, from) && from <= to
    ensures Level(l, session, to) == (var grown := Level(l, session, from) + 60.0 * (to - from); if grown > 120.0 then 120.0 else grown)
  {
    if session in l {
      var b := l[session];
      assert (to - b.updated) * REFILL == (from - b.updated) * REFILL + 60.0 * (to - from);
    }
  }

  lemma UnprunedStep(calls: seq<Call>, session: string)
    requires calls != [] && Agreed(calls) && Sane(Unpruned(calls[..|calls| - 1]), calls[|calls| - 1].now)
    ensures var c := calls[|calls| - 1];
      && Sane(Unpruned(calls), c.now)
      && Level(Unpruned(calls), session, c.now)
         == Level(Unpruned(calls[..|calls| - 1]), session, c.now) - (if c.session == session && c.ok then c.count as real else 0.0)
  {
    AgreedInit(calls);
  }

  lemma RoomStep(calls: seq<Call>, session: string, i: nat, now: real)
    requires calls != [] && i < |calls|
    ensures var n := |calls| - 1; var c := calls[n];
      Room(calls, session, i, now) == Room(calls[..n], session, i, c.now) + 60.0 * (now - c.now) - (if c.session == session && c.ok then c.count as real else 0.0)
  {
    var n := |calls| - 1;
    assert calls[i..] == calls[..n][i..] + [calls[n]];
    TakenOneMore(calls[..n][i..], calls[n], session);
    hide Taken;
  }

  lemma WholeRoom(calls: seq<Call>, session: string, now: real)
    ensures Room(calls, session, |calls|, now) == 120.0
  {
    assert calls[|calls|..] == [];
    NothingTaken(session);
  }

  lemma {:induction false} LevelIsLeastRoom(calls: seq<Call>, session: string, from: real, now: real)
    requires Agreed(calls) && InOrder(calls, from, now) && from <= now
    ensures Sane(Unpruned(calls), now) && LeastRoom(calls, session, now)
  {
    WholeRoom(calls, session, now);
    if calls == [] {
      assert Level(Unpruned(calls), session, now) == Room(calls, session, 0, now);
    } else {
      var n := |calls| - 1;
      var c, first := calls[n], calls[..n];
      InOrderInit(calls, from, now);
      AgreedInit(calls);
      LevelIsLeastRoom(first, session, from, c.now);
      UnprunedStep(calls, session);
      LaterLevel(Unpruned(calls), session, c.now, now);
      hide Agreed, Unpruned, Level, Taken, InOrder, Room;
      Rooms(calls, session, now);
    }
  }

  lemma Rooms(calls: seq<Call>, session: string, now: real)
    requires calls != [] && calls[|calls| - 1].now <= now && LeastRoom(calls[..|calls| - 1], session, calls[|calls| - 1].now)
    requires var c := calls[|calls| - 1]; var paid := if c.session == session && c.ok then c.count as real else 0.0;
      var grown := Level(Unpruned(calls[..|calls| - 1]), session, c.now) - paid + 60.0 * (now - c.now);
      Level(Unpruned(calls), session, now) == if grown > 120.0 then 120.0 else grown
    requires Room(calls, session, |calls|, now) == 120.0
    ensures LeastRoom(calls, session, now)
  {
    hide Unpruned, Level, Taken, Room;
    var n := |calls| - 1;
    var level := Level(Unpruned(calls), session, now);
    forall i | 0 <= i <= |calls| ensures level <= Room(calls, session, i, now) {
      if i < |calls| {
        RoomStep(calls, session, i, now);
      }
    }
    var j :| 0 <= j <= n && Level(Unpruned(calls[..n]), session, calls[n].now) == Room(calls[..n], session, j, calls[n].now);
    RoomStep(calls, session, j, now);
    assert level == Room(calls, session, j, now) || level == Room(calls, session, |calls|, now);
  }

  /** With at most 1024 sessions and times in order a batch is taken if and only if in no window that ends with it the session
      gets more than 120 events and 60 for each minute. */
  lemma TakenIff(calls: seq<Call>, c: Call, after: Limiters, from: real)
    requires Reaches(map[], calls + [c], after) && from <= c.now && InOrder(calls + [c], from, c.now) && |Sessions(calls + [c])| <= MAX_LIMITERS
    ensures c.ok <==> c.count == 0 || forall i :: 0 <= i <= |calls| ==>
      Taken(calls[i..], c.session) as real + c.count as real <= 120.0 + 60.0 * (c.now - Start(calls, i, c.now))
  {
    var all := calls + [c];
    hide *;
    PruningIsInvisible(all, after, Sessions(all), from, c.now);
    assert all[..|calls|] == calls && all[|calls|] == c;
    AgreedInit(all);
    InOrderInit(all, from, c.now);
    LevelIsLeastRoom(calls, c.session, from, c.now);
    Decided(calls, c);
  }

  lemma Decided(calls: seq<Call>, c: Call)
    requires LeastRoom(calls, c.session, c.now) && c.ok == Decision(calls, c)
    ensures c.ok <==> c.count == 0 || forall i :: 0 <= i <= |calls| ==>
      Taken(calls[i..], c.session) as real + c.count as real <= 120.0 + 60.0 * (c.now - Start(calls, i, c.now))
  {
    hide Unpruned, Level, Taken;
    var level := Level(Unpruned(calls), c.session, c.now);
    forall i | 0 <= i <= |calls|
      ensures c.count as real <= Room(calls, c.session, i, c.now) <==>
        Taken(calls[i..], c.session) as real + c.count as real <= 120.0 + 60.0 * (c.now - Start(calls, i, c.now))
    {}
    var j :| 0 <= j <= |calls| && level == Room(calls, c.session, j, c.now);
    assert c.count as real <= level <==> forall i :: 0 <= i <= |calls| ==> c.count as real <= Room(calls, c.session, i, c.now);
    assert forall i :: 0 <= i <= |calls| ==>
      (c.count as real <= Room(calls, c.session, i, c.now) <==>
        Taken(calls[i..], c.session) as real + c.count as real <= 120.0 + 60.0 * (c.now - Start(calls, i, c.now)));
  }
}
