/** Sessions, pending logins and the TOTP enrollment behind one lock. */
module Auth {
  import opened Common

  // ---- Records ----

  /** The enrollment file. The identity is fresh for every enrollment. */
  datatype Enrollment = Enrollment(id: nat, secret: nat, lastStep: nat)

  datatype Session = Session(
    id: nat, fingerprint: nat, enrollment: nat, token: nat,
    createdAt: nat, lastSeenAt: nat, expiresAt: nat, rotatedAt: nat, agent: string)

  datatype Access = Access(session: nat, expiresAt: nat)

  datatype Challenge = Challenge(salt: nat, expiresAt: nat)

  datatype Purpose = ForSetup | ForVerify

  datatype Pending = Pending(purpose: Purpose, expiresAt: nat, attempts: nat, enrollment: Option<nat>, agent: string, candidate: Option<nat>)

  datatype State = Unconfigured | Configured | StorageError

  datatype AuthError = InvalidChallenge | Unauthorized | Locked | NotFound | InvalidPending | EnrollmentStorage | AlreadyConfigured | NotConfigured | NoRandomness | SaveFailed

  datatype Tokens = Tokens(access: nat, accessExpiresAt: nat, refresh: nat, refreshExpiresAt: nat, session: nat)

  /** How saving a file ends: an error may come before or after the new contents are in place. */
  datatype SaveFate = Saved | Lost | Late

  const CHALLENGE_TTL := 30
  const PENDING_TTL := 300
  const MAX_PENDING := 16
  const MAX_PENDING_ATTEMPTS := 5
  const TOTP_PERIOD := 30

  // ---- Time-based codes ----

  /** A code is one of a secret and a time step; codes of different steps differ. */
  datatype Code = Code(secret: nat, step: nat) | Malformed

  /** The step a code matches: the present one or a neighbour. */
  function MatchedStep(secret: nat, code: Code, now: nat): Option<nat> {
    if code.Code? && code.secret == secret && now / TOTP_PERIOD <= code.step + 1 && code.step <= now / TOTP_PERIOD + 1
    then Some(code.step) else None
  }

  method ValidateCode(secret: nat, code: Code, now: nat) returns (step: Option<nat>)
    ensures step == MatchedStep(secret, code, now)
  {
    if code.Malformed? {
      return None;
    }
    var present := now / TOTP_PERIOD;
    var deltas := [0, 1, -1];
    for i := 0 to 3
      invariant forall j :: 0 <= j < i && code.secret == secret ==> code.step != present + deltas[j]
    {
      if code.secret == secret && code.step == present + deltas[i] {
        return Some(code.step);
      }
    }
    assert deltas[0] == 0 && deltas[1] == 1 && deltas[2] == -1;
    return None;
  }

  // ---- What holds of the sessions ----

  /** Sessions and access tokens exist only while an enrollment is cached, and the sessions are bound to it. */
  ghost predicate Bound(state: State, enrollment: Option<Enrollment>, refresh: map<nat, Session>, access: map<nat, Access>) {
    && (state.Configured? ==> enrollment.Some?)
    && (refresh != map[] || access != map[] ==> state.Configured?)
    && (forall id :: id in refresh ==> refresh[id].id == id && enrollment.Some? && refresh[id].enrollment == enrollment.value.id)
  }

  /** What is cached agrees with the enrollment file. */
  predicate InStep(state: State, enrollment: Option<Enrollment>, file: Option<Enrollment>, readable: bool) {
    if !readable then state.StorageError? else if file.Some? then state.Configured? && enrollment == file else state.Unconfigured?
  }

  /** The session has the token, has not expired, and was made under the password. */
  predicate Renewable(entry: Session, token: nat, now: nat, fingerprint: nat) {
    entry.token == token && now < entry.expiresAt && entry.fingerprint == fingerprint
  }

  ghost predicate DistinctTokens(refresh: map<nat, Session>) {
    forall i, j :: i in refresh && j in refresh && refresh[i].token == refresh[j].token ==> i == j
  }

  /** Every token in use was issued since the last invalidation. */
  ghost predicate SinceInvalidation(epoch: nat, born: map<nat, nat>, refresh: map<nat, Session>, access: map<nat, Access>) {
    && (forall t :: t in access ==> t in born && born[t] == epoch)
    && (forall id :: id in refresh ==> refresh[id].token in born && born[refresh[id].token] == epoch)
    && (forall t :: t in born ==> born[t] <= epoch)
  }

  /** A refresh token that was rotated out is neither in use nor on disk. */
  ghost predicate Gone(retired: set<nat>, refresh: map<nat, Session>, saved: seq<Session>, used: set<nat>) {
    && (forall id :: id in refresh ==> refresh[id].token !in retired)
    && (forall i :: 0 <= i < |saved| ==> saved[i].token !in retired)
    && retired <= used
  }

  /** The saved list: sessions in the order of their ids, with distinct tokens. */
  ghost predicate WellSaved(saved: seq<Session>, used: set<nat>) {
    && (forall i, j :: 0 <= i < j < |saved| ==> saved[i].id < saved[j].id && saved[i].token != saved[j].token)
    && (forall i :: 0 <= i < |saved| ==> saved[i].token in used)
  }

  /** The list holds exactly the sessions of the map, in the order of their ids. */
  ghost predicate Lists(saved: seq<Session>, refresh: map<nat, Session>) {
    && (forall i, j :: 0 <= i < j < |saved| ==> saved[i].id < saved[j].id)
    && (forall i :: 0 <= i < |saved| ==> saved[i].id in refresh && refresh[saved[i].id] == saved[i])
    && (forall id :: id in refresh ==> exists i :: 0 <= i < |saved| && saved[i].id == id)
  }

  /** Steps that verification has spent: each once, never the step of the enrollment, and none above what the file records. */
  ghost predicate Spent(file: Option<Enrollment>, seen: set<nat>, enrolledAt: map<nat, nat>, issued: seq<(nat, nat)>) {
    && (file.Some? ==> file.value.id in seen)
    && (forall i, j :: 0 <= i < j < |issued| ==> issued[i] != issued[j])
    && (forall i :: 0 <= i < |issued| ==>
          && issued[i].0 in seen
          && (file.Some? && file.value.id == issued[i].0 ==> issued[i].1 <= file.value.lastStep)
          && (issued[i].0 in enrolledAt ==> enrolledAt[issued[i].0] < issued[i].1))
    && (forall e :: e in enrolledAt ==> e in seen && (file.Some? && file.value.id == e ==> enrolledAt[e] <= file.value.lastStep))
  }

  // ---- Lists and maps of sessions ----

  ghost predicate Ascending(list: seq<Session>) {
    forall i, j :: 0 <= i < j < |list| ==> list[i].id < list[j].id
  }

  function Insert(list: seq<Session>, s: Session): (r: seq<Session>)
    requires Ascending(list) && forall i :: 0 <= i < |list| ==> list[i].id != s.id
    ensures |r| == |list| + 1
  {
    if list == [] || s.id < list[0].id then [s] + list else [list[0]] + Insert(list[1..], s)
  }

  lemma {:induction false} InsertHolds(list: seq<Session>, s: Session)
    requires Ascending(list) && forall i :: 0 <= i < |list| ==> list[i].id != s.id
    ensures Ascending(Insert(list, s))
    ensures forall x :: x in Insert(list, s) <==> x in list || x == s
  {
    if list != [] && list[0].id < s.id {
      InsertHolds(list[1..], s);
      var r := Insert(list[1..], s);
      assert forall x :: x in list <==> x == list[0] || x in list[1..];
      forall i | 0 <= i < |r| ensures list[0].id < r[i].id {
        assert r[i] in r;
      }
      assert forall x :: x in [list[0]] + r <==> x == list[0] || x in r;
    } else {
      assert forall x :: x in [s] + list <==> x == s || x in list;
    }
  }

  // ---- The manager ----

  class Manager {
    var fingerprint: nat
    var password: nat
    const maxAttempts: nat
    const accessTTL: nat
    const refreshTTL: nat

    // The enrollment file and the session file. The environment may delete the first, or put a new enrollment in its place,
    // or make it unreadable for a while.
    var file: Option<Enrollment>
    var readable: bool
    var saved: seq<Session>

    var state: State
    var enrollment: Option<Enrollment>
    var refresh: map<nat, Session>
    var access: map<nat, Access>
    var challenges: map<nat, Challenge>
    var pending: map<nat, Pending>
    var failedAttempts: nat
    var locked: bool

    // What the code does not keep: how often credentials were invalidated, when a token was issued, which tokens and
    // enrollments there ever were, which refresh tokens were rotated out, and which steps were spent.
    ghost var epoch: nat
    ghost var born: map<nat, nat>
    ghost var used: set<nat>
    ghost var seen: set<nat>
    ghost var retired: set<nat>
    ghost var enrolledAt: map<nat, nat>
    ghost var issued: seq<(nat, nat)>

    ghost predicate Valid()
      reads this
    {
      Bound(state, enrollment, refresh, access) && Books()
    }

    /** All but the bond between the sessions and the enrollment. */
    ghost predicate Books()
      reads this
    {
      && DistinctTokens(refresh)
      && SinceInvalidation(epoch, born, refresh, access)
      && born.Keys <= used
      && Gone(retired, refresh, saved, used)
      && WellSaved(saved, used)
      && Spent(file, seen, enrolledAt, issued)
      && (enrollment.Some? ==> enrollment.value.id in seen)
      && |pending| <= MAX_PENDING
    }

    /** An installation without enrollment and sessions. */
    constructor (fingerprint: nat, password: nat, maxAttempts: nat, accessTTL: nat, refreshTTL: nat)
      ensures Valid() && file.None? && saved == [] && state.Unconfigured? && issued == []
    {
      this.fingerprint, this.password, this.maxAttempts, this.accessTTL, this.refreshTTL := fingerprint, password, maxAttempts, accessTTL, refreshTTL;
      file, readable, saved, state, enrollment := None, true, [], Unconfigured, None;
      refresh, access, challenges, pending, failedAttempts, locked := map[], map[], map[], map[], 0, false;
      epoch, born, used, seen, retired, enrolledAt, issued := 0, map[], {}, {}, {}, map[], [];
    }

    // ---- The environment ----

    method DeleteEnrollment()
      requires Valid()
      modifies this`file
      ensures Valid() && file.None?
    {
      file := None;
    }

    method ReplaceEnrollment(other: Enrollment)
      requires Valid() && other.id !in seen
      modifies this`file, this`seen
      ensures Valid() && file == Some(other) && seen == old(seen) + {other.id}
    {
      file, seen := Some(other), seen + {other.id};
    }

    method SetReadable(now: bool)
      requires Valid()
      modifies this`readable
      ensures Valid() && readable == now
    {
      readable := now;
    }

    // ---- Saving ----

    method SaveSessions(list: seq<Session>, fate: SaveFate) returns (ok: bool)
      requires Valid() && WellSaved(list, used) && forall i :: 0 <= i < |list| ==> list[i].token !in retired
      modifies this`saved
      ensures Valid() && ok == fate.Saved?
      ensures saved == if fate.Lost? then old(saved) else list
    {
      if !fate.Lost? {
        saved := list;
      }
      ok := fate.Saved?;
    }

    /** Writes the sessions in the order of their ids. */
    method Persist(fate: SaveFate) returns (ok: bool)
      requires Valid()
      modifies this`saved
      ensures Valid() && ok == fate.Saved?
      ensures fate.Lost? ==> saved == old(saved)
      ensures !fate.Lost? ==> Lists(saved, refresh)
    {
      KeyedById(state, enrollment, refresh, access);
      TokensInUse(epoch, born, refresh, access, used);
      var entries := Collect(refresh);
      ListedTokens(entries, refresh, retired, used);
      ok := SaveSessions(entries, fate);
    }

    // ---- Reconciling with the enrollment file ----

    /** Drops every credential of the previous enrollment state. */
    method Invalidate(fate: SaveFate) returns (ok: bool)
      requires Books() && (state.Configured? ==> enrollment.Some?)
      modifies this`refresh, this`access, this`challenges, this`pending, this`saved, this`epoch
      ensures Valid() && ok == fate.Saved?
      ensures refresh == map[] && access == map[] && pending == map[] && challenges == map[]
      ensures epoch == old(epoch) + 1
    {
      hide Books, Bound;
      ForgetCredentials();
      ok := Persist(fate);
    }

    /** The one reconciler of the cached enrollment with the file. Either nothing changes, or every credential goes. */
    method Reconcile(fate: SaveFate)
      requires Valid()
      modifies this`state, this`enrollment, this`refresh, this`access, this`challenges, this`pending, this`saved, this`epoch
      ensures Valid()
      ensures epoch == old(epoch) || epoch == old(epoch) + 1
      ensures epoch == old(epoch) ==>
        && state == old(state) && enrollment == old(enrollment) && refresh == old(refresh) && access == old(access)
        && pending == old(pending) && challenges == old(challenges) && saved == old(saved)
      ensures epoch != old(epoch) ==> refresh == map[] && access == map[] && pending == map[] && challenges == map[]
      ensures !readable ==> state.StorageError?
      ensures readable && file.None? ==> !state.Configured?
      ensures readable && file.Some? ==> !state.Unconfigured?
      ensures state.Configured? ==> readable && file.Some? && enrollment == file
      ensures epoch == old(epoch) <==> InStep(old(state), old(enrollment), file, readable)
      ensures epoch != old(epoch) ==>
        && enrollment == (if readable then file else old(enrollment))
        && state == (if !readable || !fate.Saved? then StorageError else if file.Some? then Configured else Unconfigured)
    {
      ReconcileFacts();
      hide Books, Bound;
      if !readable {
        if !state.StorageError? {
          var _ := LoseStorage(fate);
        }
        return;
      }
      if file.None? {
        if !state.Unconfigured? {
          var _ := DropEnrollment(fate);
        }
      } else if state.Configured? && enrollment.Some? && file.value == enrollment.value {
      } else {
        var _ := AdoptEnrollment(file.value, fate);
      }
    }

    lemma ReconcileFacts()
      requires Valid()
      ensures (file.Some? ==> file.value.id in seen) && (state.Configured? ==> enrollment.Some?)
    {}

    /** A process ends; what was only in memory is gone. */
    method Forget()
      requires Valid()
      modifies this`state, this`enrollment, this`refresh, this`access, this`challenges, this`pending, this`failedAttempts, this`locked, this`epoch
      ensures Valid() && epoch == old(epoch) + 1
      ensures state.Unconfigured? && enrollment.None? && refresh == map[] && access == map[] && pending == map[] && challenges == map[]
      ensures failedAttempts == 0 && !locked
    {
      assert state.Configured? ==> enrollment.Some?;
      hide Books, Bound;
      ForgetCredentials();
      ForgetEnrollment();
    }

    method ForgetCredentials()
      requires Books() && (state.Configured? ==> enrollment.Some?)
      modifies this`refresh, this`access, this`challenges, this`pending, this`epoch
      ensures Valid() && epoch == old(epoch) + 1
      ensures refresh == map[] && access == map[] && pending == map[] && challenges == map[]
    {
      hide Spent, DistinctTokens, Gone, WellSaved, SinceInvalidation;
      NewEpoch(epoch, born, refresh, access, retired, saved, used);
      refresh, access, challenges, pending := map[], map[], map[], map[];
      epoch := epoch + 1;
    }

    method ForgetEnrollment()
      requires Valid() && refresh == map[] && access == map[]
      modifies this`state, this`enrollment, this`failedAttempts, this`locked
      ensures Valid() && state.Unconfigured? && enrollment.None? && failedAttempts == 0 && !locked
    {
      hide Spent, DistinctTokens, Gone, WellSaved, SinceInvalidation;
      state, enrollment, failedAttempts, locked := Unconfigured, None, 0, false;
    }

    /** The sessions of a new process. */
    method Adopt(loaded: map<nat, Session>, now: nat)
      requires Valid() && state.Unconfigured? && access == map[] && refresh == map[]
      requires Survivors(saved, loaded, fingerprint, now, file)
      modifies this`state, this`enrollment, this`refresh, this`born
      ensures Valid() && refresh == loaded && enrollment == file && (state.Configured? <==> file.Some?)
    {
      hide Spent, DistinctTokens, Survivors, Gone, WellSaved, SinceInvalidation, Bound, Reborn;
      SeenFile(file, seen, enrolledAt, issued);
      NoneInUse(retired, refresh, saved, used);
      LoadedTokens(saved, loaded, fingerprint, now, file, retired, used);
      LoadedBorn(epoch, born, refresh, access, loaded, used);
      state, enrollment := if file.Some? then Configured else Unconfigured, file;
      BoundLoaded(state, enrollment, loaded);
      born := Reborn(born, loaded, epoch);
      refresh := loaded;
    }

    /** A new process, under the same password or another: only sessions of the present enrollment, not expired and
        issued under this password, come back. */
    method Restart(password: nat, fingerprint: nat, now: nat, fate: SaveFate) returns (ok: bool)
      requires Valid()
      modifies this`password, this`fingerprint, this`state, this`enrollment, this`refresh, this`access, this`challenges, this`pending, this`saved,
               this`failedAttempts, this`locked, this`epoch, this`born
      ensures Valid() && epoch == old(epoch) + 1 && this.password == password && this.fingerprint == fingerprint
      ensures access == map[] && pending == map[] && challenges == map[]
      ensures ok ==> readable && (state.Configured? <==> file.Some?) && (file.Some? ==> enrollment == file)
      ensures ok ==> Survivors(old(saved), refresh, fingerprint, now, file)
      ensures var changed := exists i :: 0 <= i < |old(saved)| && LeftBehind(old(saved)[i], fingerprint, now, file);
        && (ok <==> readable && (changed ==> fate.Saved?))
        && (if readable && changed && !fate.Lost? then Lists(saved, refresh) else saved == old(saved))
    {
      hide Spent, DistinctTokens, Lists, Survivors, Gone, WellSaved, SinceInvalidation, Bound, LeftBehind;
      Forget();
      ChangePassword(password, fingerprint);
      if !readable {
        return false;
      }
      SavedAscends(saved, used);
      var loaded, changed := Load(saved, fingerprint, now, file);
      Adopt(loaded, now);
      ok := true;
      if changed {
        ok := Persist(fate);
      }
    }

    /** The password is read when a process starts. */
    method ChangePassword(password: nat, fingerprint: nat)
      requires Valid()
      modifies this`password, this`fingerprint
      ensures Valid() && this.password == password && this.fingerprint == fingerprint
    {
      hide Spent, DistinctTokens, Gone, WellSaved, SinceInvalidation, Bound;
      this.password, this.fingerprint := password, fingerprint;
    }

    // ---- Issuing ----

    /** A session has been opened, with these tokens. */
    ghost predicate Opened(tokens: Tokens, refresh0: map<nat, Session>, access0: map<nat, Access>, agent: string, now: nat,
                           id: Option<nat>, accessToken: Option<nat>, refreshToken: Option<nat>)
      reads this
    {
      && id.Some? && accessToken.Some? && refreshToken.Some? && enrollment.Some?
      && tokens == Tokens(accessToken.value, now + accessTTL, refreshToken.value, now + refreshTTL, id.value)
      && refresh == refresh0[id.value := Session(id.value, fingerprint, enrollment.value.id, refreshToken.value, now, now, now + refreshTTL, now, agent)]
      && access == access0[accessToken.value := Access(id.value, now + accessTTL)]
    }

    /** A session that a fresh id and fresh tokens would make. */
    method Issue(agent: string, now: nat, id: Option<nat>, accessToken: Option<nat>, refreshToken: Option<nat>, fate: SaveFate)
      returns (r: Result<Tokens, AuthError>)
      requires Valid()
      requires (id.Some? ==> id.value !in refresh) && FreshTokens(used, accessToken, refreshToken)
      modifies this`refresh, this`access, this`saved, this`born, this`used
      ensures Valid() && epoch == old(epoch) && used >= old(used)
      ensures forall t :: t in old(born) ==> t in born && born[t] == old(born)[t]
      ensures r.Failure? ==> refresh == old(refresh) && access == old(access)
      ensures r.Success? ==>
        && state.Configured? && fate.Saved? && id.Some? && accessToken.Some? && refreshToken.Some?
        && r.value == Tokens(accessToken.value, now + accessTTL, refreshToken.value, now + refreshTTL, id.value)
        && refresh == old(refresh)[id.value := Session(id.value, fingerprint, enrollment.value.id, refreshToken.value, now, now, now + refreshTTL, now, agent)]
        && access == old(access)[accessToken.value := Access(id.value, now + accessTTL)]
        && Lists(saved, refresh)
      ensures r.Failure? ==>
        r.error == (if !state.Configured? then NotConfigured else if id.None? || accessToken.None? || refreshToken.None? then NoRandomness else SaveFailed)
      ensures r.Success? <==> state.Configured? && id.Some? && accessToken.Some? && refreshToken.Some? && fate.Saved?
    {
      hide Books, Bound, Lists, Sound, FreshTokens;
      ValidIsSound();
      BoundFacts(state, enrollment, refresh, access);
      if !state.Configured? {
        return Failure(NotConfigured);
      }
      if id.None? || accessToken.None? || refreshToken.None? {
        return Failure(NoRandomness);
      }
      FreshAre(used, accessToken, refreshToken);
      var entry := Session(id.value, fingerprint, enrollment.value.id, refreshToken.value, now, now, now + refreshTTL, now, agent);
      AddSession(state, enrollment, refresh, access, epoch, born, used, retired, saved, entry, accessToken.value, now + accessTTL);
      var ok := Install(refresh[id.value := entry], access[accessToken.value := Access(id.value, now + accessTTL)],
                        born[refreshToken.value := epoch][accessToken.value := epoch], used + {refreshToken.value, accessToken.value}, fate);
      if !ok {
        return Failure(SaveFailed);
      }
      return Success(Tokens(accessToken.value, now + accessTTL, refreshToken.value, entry.expiresAt, id.value));
    }

    lemma ValidIsSound()
      requires Valid()
      ensures Sound(state, enrollment, refresh, access, epoch, born, used, retired, saved)
      ensures born.Keys <= used
    {
      hide Bound, DistinctTokens, SinceInvalidation, Gone, WellSaved;
    }

    /** Puts changed sessions in place and saves them; when that fails they are put back as they were. */
    method Install(newRefresh: map<nat, Session>, newAccess: map<nat, Access>, ghost newBorn: map<nat, nat>, ghost newUsed: set<nat>, fate: SaveFate)
      returns (ok: bool)
      requires Valid()
      requires Sound(state, enrollment, newRefresh, newAccess, epoch, newBorn, newUsed, retired, saved)
      requires used <= newUsed && forall t :: t in born ==> t in newBorn && newBorn[t] == born[t]
      modifies this`refresh, this`access, this`saved, this`born, this`used
      ensures Valid() && born == newBorn && used == newUsed && ok == fate.Saved?
      ensures ok ==> refresh == newRefresh && access == newAccess && Lists(saved, refresh)
      ensures !ok ==> refresh == old(refresh) && access == old(access)
    {
      hide Bound, DistinctTokens, SinceInvalidation, Gone, WellSaved, Lists, Spent;
      ValidIsSound();
      var previous, previousAccess := refresh, access;
      ghost var wasBorn, wasUsed, wasSaved := born, used, saved;
      SoundBorn(state, enrollment, newRefresh, newAccess, epoch, newBorn, newUsed, retired, saved);
      refresh, access, born, used := newRefresh, newAccess, newBorn, newUsed;
      ok := Persist(fate);
      if !ok {
        RestoreSessions(state, enrollment, previous, previousAccess, epoch, wasBorn, born, wasUsed, used, retired, wasSaved, saved, newRefresh);
        refresh, access := previous, previousAccess;
      }
    }

    // ---- Accepting tokens ----

    /** A bearer token is accepted only when it was issued after the last invalidation, the one this call may make included. */
    method Authenticate(token: nat, now: nat, fate: SaveFate) returns (r: Result<nat, AuthError>)
      requires Valid()
      modifies this`state, this`enrollment, this`refresh, this`access, this`challenges, this`pending, this`saved, this`epoch
      ensures Valid() && epoch >= old(epoch)
      ensures r.Success? <==> token in access && access[token].expiresAt > now
      ensures r.Success? ==> r.value == access[token].session && token in born && born[token] == epoch
      ensures r.Success? ==> state.Configured? && readable && file.Some? && enrollment == file
      ensures r.Success? ==> token in old(access) && epoch == old(epoch)
      ensures token in born && born[token] < old(epoch) ==> r.Failure?
    {
      hide Spent, DistinctTokens, Gone, WellSaved, Bound;
      Reconcile(fate);
      BoundFacts(state, enrollment, refresh, access);
      if token !in access || access[token].expiresAt <= now {
        return Failure(Unauthorized);
      }
      return Success(access[token].session);
    }

    /** The session of a refresh token. */
    method FindSession(token: nat) returns (id: Option<nat>)
      requires Valid()
      ensures id.Some? ==> id.value in refresh && refresh[id.value].token == token
      ensures id.None? ==> forall i :: i in refresh ==> refresh[i].token != token
    {
      var rest := refresh.Keys;
      while rest != {}
        invariant rest <= refresh.Keys
        invariant forall i :: i in refresh && i !in rest ==> refresh[i].token != token
        decreases |rest|
      {
        var i :| i in rest;
        if refresh[i].token == token {
          return Some(i);
        }
        rest := rest - {i};
      }
      return None;
    }

    /** Rotates the refresh token of a session. */
    method Refresh(token: nat, agent: string, now: nat, accessToken: Option<nat>, refreshToken: Option<nat>, reconcile: SaveFate, fate: SaveFate)
      returns (r: Result<Tokens, AuthError>)
      requires Valid() && FreshTokens(used, accessToken, refreshToken)
      modifies this`state, this`enrollment, this`refresh, this`access, this`challenges, this`pending, this`saved, this`epoch,
               this`born, this`used, this`retired
      ensures Valid() && epoch >= old(epoch) && retired >= old(retired) && used >= old(used)
      ensures epoch == old(epoch) ==> forall t :: t in old(born) ==> t in born && born[t] == old(born)[t]
      ensures r.Failure? && epoch == old(epoch) ==> refresh == old(refresh) && access == old(access) && retired == old(retired)
      ensures r.Failure? && epoch != old(epoch) ==> refresh == map[] && access == map[]
      ensures r.Success? ==> epoch == old(epoch) && accessToken.Some? && refreshToken.Some? && state.Configured? && Rotated(old(refresh), refresh, token, refreshToken.value, r.value.session)
      ensures r.Success? ==>
        && access == WithoutSession(old(access), r.value.session)[accessToken.value := Access(r.value.session, now + accessTTL)]
        && token in old(born) && old(born)[token] == epoch
        && token in retired && Lists(saved, refresh)
        && r.value == Tokens(accessToken.value, now + accessTTL, refreshToken.value, refresh[r.value.session].expiresAt, r.value.session)
      ensures token in old(retired) || (token in old(born) && old(born)[token] < old(epoch)) ==> r.Failure?
      ensures r.Failure? ==>
        r.error == if state.StorageError? then EnrollmentStorage
                   else if epoch != old(epoch) || !exists id :: id in old(refresh) && Renewable(old(refresh)[id], token, now, fingerprint) then Unauthorized
                   else if accessToken.None? || refreshToken.None? then NoRandomness
                   else SaveFailed
      ensures r.Success? <==>
        && InStep(old(state), old(enrollment), file, readable) && !old(state).StorageError?
        && (exists id :: id in old(refresh) && Renewable(old(refresh)[id], token, now, fingerprint))
        && accessToken.Some? && refreshToken.Some? && fate.Saved?
    {
      hide Books, Bound, Lists, Rotated, WithoutSession, Sound, FreshTokens;
      NotInUse();
      Reconcile(reconcile);
      if state.StorageError? {
        return Failure(EnrollmentStorage);
      }
      TokenOwner();
      var found := FindSession(token);
      if found.None? || refresh[found.value].expiresAt <= now || refresh[found.value].fingerprint != fingerprint {
        return Failure(Unauthorized);
      }
      ValidIsSound();
      BoundFacts(state, enrollment, refresh, access);
      assert epoch == old(epoch);
      r := Rotate(found.value, agent, now, accessToken, refreshToken, fate);
    }

    /** A token that was rotated out, or issued before the last invalidation, is no session's token. */
    lemma NotInUse()
      requires Valid()
      ensures forall i :: i in refresh ==> refresh[i].token !in retired && refresh[i].token in born && born[refresh[i].token] == epoch
    {}

    /** The rotation itself: the old token and the session's access tokens go, and come back when anything fails. */
    method Rotate(id: nat, agent: string, now: nat, accessToken: Option<nat>, refreshToken: Option<nat>, fate: SaveFate)
      returns (r: Result<Tokens, AuthError>)
      requires Valid() && FreshTokens(used, accessToken, refreshToken) && id in refresh
      modifies this`refresh, this`access, this`saved, this`born, this`used, this`retired
      ensures Valid() && retired >= old(retired) && used >= old(used)
      ensures forall t :: t in old(born) ==> t in born && born[t] == old(born)[t]
      ensures r.Failure? ==> refresh == old(refresh) && access == old(access) && retired == old(retired)
      ensures r.Success? ==>
        var token := old(refresh)[id].token;
        && accessToken.Some? && refreshToken.Some? && r.value.session == id
        && Rotated(old(refresh), refresh, token, refreshToken.value, id)
        && access == WithoutSession(old(access), id)[accessToken.value := Access(id, now + accessTTL)]
        && token in old(born) && old(born)[token] == epoch && token in retired && Lists(saved, refresh)
        && r.value == Tokens(accessToken.value, now + accessTTL, refreshToken.value, refresh[id].expiresAt, id)
      ensures r.Failure? ==> r.error == if accessToken.None? || refreshToken.None? then NoRandomness else SaveFailed
      ensures r.Success? <==> accessToken.Some? && refreshToken.Some? && fate.Saved?
      ensures r.Success? ==>
        var was := old(refresh)[id];
        refresh[id] == was.(token := refreshToken.value, lastSeenAt := now, rotatedAt := now, agent := if agent != "" then agent else was.agent)
    {
      hide Books, Bound, Lists, Rotated, WithoutSession, Sound, FreshTokens;
      ValidIsSound();
      var previous := refresh[id];
      if accessToken.None? || refreshToken.None? {
        return Failure(NoRandomness);
      }
      FreshAre(used, accessToken, refreshToken);
      ghost var before := refresh;
      var renewed := previous.(token := refreshToken.value, lastSeenAt := now, rotatedAt := now, agent := if agent != "" then agent else previous.agent);
      RotateSession(state, enrollment, refresh, access, epoch, born, used, retired, saved, id, renewed, accessToken.value, now + accessTTL);
      var others := Others(id);
      var ok := Install(refresh[id := renewed], others[accessToken.value := Access(id, now + accessTTL)],
                        born[refreshToken.value := epoch][accessToken.value := epoch], used + {refreshToken.value, accessToken.value}, fate);
      if !ok {
        return Failure(SaveFailed);
      }
      Retire(before, id, renewed, previous.token);
      r := Success(Tokens(accessToken.value, now + accessTTL, refreshToken.value, renewed.expiresAt, id));
    }

    /** The access tokens of the other sessions. */
    method Others(id: nat) returns (others: map<nat, Access>)
      ensures others == WithoutSession(access, id)
    {
      others := access;
      var rest := access.Keys;
      while rest != {}
        invariant rest <= access.Keys && others.Keys <= access.Keys
        invariant forall t :: t in others ==> others[t] == access[t]
        invariant forall t :: t in access ==> (t in others <==> t in rest || access[t].session != id)
        decreases |rest|
      {
        var t :| t in rest;
        rest := rest - {t};
        if access[t].session == id {
          others := others - {t};
        }
      }
    }

    // ---- Ending sessions ----

    /** Every session is bound to the present enrollment. */
    lemma SessionsAreBound()
      requires Valid()
      ensures forall id :: id in refresh ==> state.Configured? && enrollment.Some? && refresh[id].enrollment == enrollment.value.id
    {}

    /** A session is usable. */
    predicate Usable(entry: Session, now: nat)
      reads this
    {
      entry.expiresAt > now && state.Configured? && enrollment.Some? && entry.enrollment == enrollment.value.id
    }

    /** Changes of the session maps that only take sessions away. What is in memory counts even when it cannot be saved. */
    method Keep(keptRefresh: map<nat, Session>, keptAccess: map<nat, Access>, fate: SaveFate) returns (ok: bool)
      requires Valid()
      requires forall id :: id in keptRefresh ==> id in refresh && keptRefresh[id] == refresh[id]
      requires forall t :: t in keptAccess ==> t in access && keptAccess[t] == access[t]
      modifies this`refresh, this`access, this`saved
      ensures Valid() && ok == fate.Saved? && refresh == keptRefresh && access == keptAccess
      ensures fate.Lost? ==> saved == old(saved)
      ensures !fate.Lost? ==> Lists(saved, refresh)
    {
      hide Bound, DistinctTokens, SinceInvalidation, Gone, WellSaved, Lists, Spent;
      ValidIsSound();
      FewerSessions(state, enrollment, refresh, access, epoch, born, used, retired, saved, keptRefresh, keptAccess);
      refresh, access := keptRefresh, keptAccess;
      ok := Persist(fate);
    }

    method Logout(refreshToken: Option<nat>, accessToken: Option<nat>, fate: SaveFate) returns (ok: bool)
      requires Valid()
      modifies this`refresh, this`access, this`saved
      ensures Valid()
      ensures forall id :: id in old(refresh) && refreshToken == Some(old(refresh)[id].token) ==>
        refresh == old(refresh) - {id} && access == WithoutSession(old(access), id)
      ensures (forall id :: id in old(refresh) ==> refreshToken != Some(old(refresh)[id].token)) ==>
        if accessToken.Some? && accessToken.value in old(access)
        then var id := old(access)[accessToken.value].session; refresh == old(refresh) - {id} && access == WithoutSession(old(access), id)
        else refresh == old(refresh) && access == old(access)
      ensures ok ==> saved == old(saved) || Lists(saved, refresh)
      ensures var unknown := (forall id :: id in old(refresh) ==> refreshToken != Some(old(refresh)[id].token))
                             && (accessToken.Some? ==> accessToken.value !in old(access));
        (ok <==> unknown || fate.Saved?) && (unknown ==> saved == old(saved))
    {
      hide Books, Bound, WithoutSession, Lists;
      var id: Option<nat> := None;
      if refreshToken.Some? {
        id := FindSession(refreshToken.value);
      }
      TokenOwner();
      if id.None? && accessToken.Some? && accessToken.value in access {
        id := Some(access[accessToken.value].session);
      }
      if id.None? {
        return true;
      }
      var others := Others(id.value);
      WithoutIsPart(access, id.value);
      ok := Keep(refresh - {id.value}, others, fate);
    }

    /** No two sessions share a refresh token. */
    lemma TokenOwner()
      requires Valid()
      ensures forall i, j :: i in refresh && j in refresh && refresh[i].token == refresh[j].token ==> i == j
    {}

    method Revoke(id: nat, fate: SaveFate) returns (r: Result<(), AuthError>)
      requires Valid()
      modifies this`refresh, this`access, this`saved
      ensures Valid()
      ensures id !in old(refresh) ==> r == Failure(NotFound) && refresh == old(refresh) && access == old(access) && saved == old(saved)
      ensures id in old(refresh) ==> refresh == old(refresh) - {id} && access == WithoutSession(old(access), id)
      ensures id in old(refresh) ==> forall t :: t in access <==> t in old(access) && old(access)[t].session != id
      ensures r.Success? <==> id in old(refresh) && fate.Saved?
      ensures r.Success? ==> Lists(saved, refresh)
    {
      hide Books, Bound, WithoutSession, Lists;
      if id !in refresh {
        return Failure(NotFound);
      }
      var others := Others(id);
      WithoutIsPart(access, id);
      WithoutIs(access, id);
      var ok := Keep(refresh - {id}, others, fate);
      r := if ok then Success(()) else Failure(SaveFailed);
    }

    method LogoutOthers(id: nat, fate: SaveFate) returns (ok: bool)
      requires Valid()
      modifies this`refresh, this`access, this`saved
      ensures Valid() && ok == fate.Saved?
      ensures refresh == OnlySession(old(refresh), id)
      ensures access == OnlyAccess(old(access), id)
      ensures (forall i :: i in refresh <==> i in old(refresh) && i == id) && forall t :: t in access <==> t in old(access) && old(access)[t].session == id
      ensures ok ==> Lists(saved, refresh)
    {
      hide Books, Bound, Lists;
      var keptRefresh, keptAccess := refresh, access;
      var rest := refresh.Keys;
      while rest != {}
        invariant rest <= refresh.Keys && keptRefresh.Keys <= refresh.Keys
        invariant forall i :: i in keptRefresh ==> keptRefresh[i] == refresh[i]
        invariant forall i :: i in refresh ==> (i in keptRefresh <==> i in rest || i == id)
        decreases |rest|
      {
        var i :| i in rest;
        rest := rest - {i};
        if i != id {
          keptRefresh := keptRefresh - {i};
        }
      }
      rest := access.Keys;
      while rest != {}
        invariant rest <= access.Keys && keptAccess.Keys <= access.Keys
        invariant forall t :: t in keptAccess ==> keptAccess[t] == access[t]
        invariant forall t :: t in access ==> (t in keptAccess <==> t in rest || access[t].session == id)
        decreases |rest|
      {
        var t :| t in rest;
        rest := rest - {t};
        if access[t].session != id {
          keptAccess := keptAccess - {t};
        }
      }
      ok := Keep(keptRefresh, keptAccess, fate);
    }

    /** Whether a session can still be used. */
    method IsSessionActive(id: nat, now: nat, fate: SaveFate) returns (active: bool)
      requires Valid()
      modifies this`state, this`enrollment, this`refresh, this`access, this`challenges, this`pending, this`saved, this`epoch
      ensures Valid() && epoch >= old(epoch)
      ensures active <==> id in refresh && Usable(refresh[id], now) && refresh[id].fingerprint == fingerprint
      ensures active ==> epoch == old(epoch) && id in old(refresh) && file == enrollment
      ensures active <==> InStep(old(state), old(enrollment), file, readable) && id in old(refresh) && now < old(refresh)[id].expiresAt
                          && old(refresh)[id].fingerprint == fingerprint
    {
      hide Books, Bound;
      Reconcile(fate);
      SessionsAreBound();
      active := id in refresh && Usable(refresh[id], now) && refresh[id].fingerprint == fingerprint;
    }

    /** The session of a request, with the latest expiry of its access tokens. A session that is over is dropped. */
    method CurrentSession(id: nat, now: nat, reconcile: SaveFate, fate: SaveFate) returns (r: Result<nat, AuthError>)
      requires Valid()
      modifies this`state, this`enrollment, this`refresh, this`access, this`challenges, this`pending, this`saved, this`epoch
      ensures Valid() && epoch >= old(epoch)
      ensures r.Success? <==> id in refresh
      ensures r.Success? ==> Usable(refresh[id], now)
      ensures r.Success? <==> InStep(old(state), old(enrollment), file, readable) && id in old(refresh) && now < old(refresh)[id].expiresAt
      ensures r.Failure? ==> r.error.Unauthorized?
      ensures r.Success? ==> forall t :: t in access && access[t].session == id ==> access[t].expiresAt <= r.value
      ensures r.Success? ==> r.value == 0 || exists t :: t in access && access[t].session == id && access[t].expiresAt == r.value
      ensures epoch == old(epoch) ==> forall i :: i in old(refresh) && i != id ==> i in refresh && refresh[i] == old(refresh)[i]
    {
      hide Books, Bound, Lists;
      Reconcile(reconcile);
      SessionsAreBound();
      if id !in refresh {
        return Failure(Unauthorized);
      }
      if !Usable(refresh[id], now) {
        var _ := Keep(refresh - {id}, access, fate);
        return Failure(Unauthorized);
      }
      var latest := 0;
      var rest := access.Keys;
      while rest != {}
        invariant rest <= access.Keys
        invariant forall t :: t in access && t !in rest && access[t].session == id ==> access[t].expiresAt <= latest
        invariant latest == 0 || exists t :: t in access && access[t].session == id && access[t].expiresAt == latest
        decreases |rest|
      {
        var t :| t in rest;
        rest := rest - {t};
        if access[t].session == id && access[t].expiresAt > latest {
          latest := access[t].expiresAt;
        }
      }
      r := Success(latest);
    }

    /** The usable sessions; the others are dropped on the way. */
    method List(now: nat, reconcile: SaveFate, fate: SaveFate) returns (list: set<Session>)
      requires Valid()
      modifies this`state, this`enrollment, this`refresh, this`access, this`challenges, this`pending, this`saved, this`epoch
      ensures Valid() && epoch >= old(epoch)
      ensures list == set id | id in refresh :: refresh[id]
      ensures forall id :: id in refresh ==> Usable(refresh[id], now)
      ensures epoch == old(epoch) ==> forall id :: id in old(refresh) && Usable(old(refresh)[id], now) ==> id in refresh && refresh[id] == old(refresh)[id]
      ensures epoch == old(epoch) <==> InStep(old(state), old(enrollment), file, readable)
      ensures epoch == old(epoch) ==> forall id :: id in refresh <==> id in old(refresh) && now < old(refresh)[id].expiresAt
    {
      hide Books, Bound, Lists;
      Reconcile(reconcile);
      SessionsAreBound();
      var current := if state.Configured? then enrollment else None;
      var kept;
      kept, list := UsableSessions(refresh, current, now);
      if kept != refresh {
        var _ := Keep(kept, access, fate);
      }
    }

    // ---- Logging in ----

    method MakeChallenge(id: nat, salt: nat, now: nat)
      requires Valid()
      modifies this`challenges
      ensures Valid() && challenges == Unclaimed(old(challenges)[id := Challenge(salt, now + CHALLENGE_TTL)], now)
      ensures id in challenges && challenges[id] == Challenge(salt, now + 30)
      ensures forall c :: c != id ==> (c in challenges <==> c in old(challenges) && now < old(challenges)[c].expiresAt)
      ensures forall c :: c in challenges && c != id ==> challenges[c] == old(challenges)[c]
    {
      hide Bound, DistinctTokens, SinceInvalidation, Gone, WellSaved, Spent;
      challenges := challenges[id := Challenge(salt, now + CHALLENGE_TTL)];
      ghost var given := challenges;
      var rest := challenges.Keys;
      while rest != {}
        invariant rest <= challenges.Keys <= given.Keys
        invariant forall c :: c in challenges ==> challenges[c] == given[c]
        invariant forall c :: c in given ==> (c in challenges <==> c in rest || given[c].expiresAt > now)
        decreases |rest|
      {
        var c :| c in rest;
        rest := rest - {c};
        if challenges[c].expiresAt <= now {
          challenges := challenges - {c};
        }
      }
    }

    method PrunePending(now: nat)
      modifies this`pending
      ensures pending == Unexpired(old(pending), now)
    {
      ghost var given := pending;
      var rest := pending.Keys;
      while rest != {}
        invariant rest <= pending.Keys <= given.Keys
        invariant forall t :: t in pending ==> pending[t] == given[t]
        invariant forall t :: t in given ==> (t in pending <==> t in rest || given[t].expiresAt > now)
        decreases |rest|
      {
        var t :| t in rest;
        rest := rest - {t};
        if pending[t].expiresAt <= now {
          pending := pending - {t};
        }
      }
    }

    /** Makes room by dropping a pending login that expires first, and adds the new one. */
    method NewPending(purpose: Purpose, enrollmentId: Option<nat>, agent: string, now: nat, token: Option<nat>) returns (r: Option<(nat, nat)>)
      requires Valid() && (token.Some? ==> token.value !in used)
      modifies this`pending, this`used
      ensures Valid() && used >= old(used)
      ensures token.None? ==> r.None? && pending == old(pending) && used == old(used)
      ensures token.Some? ==>
        && r == Some((token.value, now + PENDING_TTL)) && token.value in used && token.value in pending
        && pending[token.value] == Pending(purpose, now + PENDING_TTL, 0, enrollmentId, agent, None)
        && (forall t :: t in pending && t != token.value ==> t in old(pending) && pending[t] == old(pending)[t] && pending[t].expiresAt > now)
        && Evicted(Unexpired(old(pending), now), pending, token.value)
    {
      hide Bound, DistinctTokens, SinceInvalidation, Gone, WellSaved, Spent, Evicted;
      if token.None? {
        return None;
      }
      ghost var given := pending;
      PrunePending(now);
      SmallerMap(given, pending);
      ghost var unexpired := pending;
      if |pending| >= MAX_PENDING {
        var oldest := OldestPending();
        pending := pending - {oldest};
        EvictsOldest(unexpired, oldest, token.value, Pending(purpose, now + PENDING_TTL, 0, enrollmentId, agent, None));
      } else {
        EvictsNone(unexpired, token.value, Pending(purpose, now + PENDING_TTL, 0, enrollmentId, agent, None));
      }
      AddPending(token.value, Pending(purpose, now + PENDING_TTL, 0, enrollmentId, agent, None));
      return Some((token.value, now + PENDING_TTL));
    }

    method AddPending(token: nat, entry: Pending)
      requires Valid() && |pending[token := entry]| <= MAX_PENDING
      modifies this`pending, this`used
      ensures Valid() && used == old(used) + {token} && pending == old(pending)[token := entry]
    {
      hide Bound, DistinctTokens, SinceInvalidation, Gone, WellSaved, Spent;
      UsedGrows(retired, refresh, saved, used, token);
      pending, used := pending[token := entry], used + {token};
    }

    method OldestPending() returns (oldest: nat)
      requires pending != map[]
      ensures oldest in pending && forall t :: t in pending ==> pending[oldest].expiresAt <= pending[t].expiresAt
    {
      assert pending.Keys != {};
      oldest :| oldest in pending;
      var rest := pending.Keys;
      while rest != {}
        invariant rest <= pending.Keys && oldest in pending
        invariant forall t :: t in pending && t !in rest ==> pending[oldest].expiresAt <= pending[t].expiresAt
        decreases |rest|
      {
        var t :| t in rest;
        rest := rest - {t};
        if pending[t].expiresAt < pending[oldest].expiresAt {
          oldest := t;
        }
      }
    }

    /** The password stage: it hands out a pending token for setup or verification, never a session. */
    method Login(challengeId: nat, proof: Proof, agent: string, now: nat, token: Option<nat>, fate: SaveFate) returns (r: Result<(Purpose, nat), AuthError>)
      requires Valid() && (token.Some? ==> token.value !in used)
      modifies this`state, this`enrollment, this`refresh, this`access, this`challenges, this`pending, this`saved, this`epoch,
               this`used, this`failedAttempts, this`locked
      ensures Valid() && epoch >= old(epoch) && used >= old(used)
      ensures challengeId !in challenges
      ensures epoch == old(epoch) ==> refresh == old(refresh) && access == old(access)
      ensures epoch != old(epoch) ==> refresh == map[] && access == map[]
      ensures r.Success? ==>
        && challengeId in old(challenges) && old(challenges)[challengeId].expiresAt > now && !locked
        && proof == Proof(password, challengeId, old(challenges)[challengeId].salt, old(challenges)[challengeId].expiresAt)
        && token == Some(r.value.1) && token.value in pending && pending[token.value].purpose == r.value.0
        && (r.value.0.ForVerify? <==> state.Configured?)
        && (r.value.0.ForVerify? ==> pending[token.value].enrollment == Some(enrollment.value.id))
        && failedAttempts == old(failedAttempts)
      ensures failedAttempts >= old(failedAttempts) && (old(locked) ==> locked)
      ensures r.Failure? ==>
        r.error == if challengeId !in old(challenges) || old(challenges)[challengeId].expiresAt <= now then InvalidChallenge
                   else if old(locked) then Locked
                   else if state.StorageError? then EnrollmentStorage
                   else if !Proven(old(challenges), challengeId, proof, password) then (if failedAttempts >= maxAttempts then Locked else Unauthorized)
                   else NoRandomness
      ensures r.Success? <==>
        && challengeId in old(challenges) && old(challenges)[challengeId].expiresAt > now && !old(locked) && !state.StorageError?
        && Proven(old(challenges), challengeId, proof, password) && token.Some?
      ensures r.Success? ==>
        pending[token.value] == Pending(r.value.0, now + PENDING_TTL, 0, if state.Configured? then Some(enrollment.value.id) else None, agent, None)
      ensures var wrong := challengeId in old(challenges) && old(challenges)[challengeId].expiresAt > now && !old(locked) && !state.StorageError?
                           && !Proven(old(challenges), challengeId, proof, password);
        && failedAttempts == old(failedAttempts) + (if wrong then 1 else 0)
        && (locked <==> old(locked) || (wrong && failedAttempts >= maxAttempts))
      ensures r.Failure? ==> pending == if epoch == old(epoch) then old(pending) else map[]
    {
      hide Books, Bound, Evicted;
      var known := challengeId in challenges;
      var c := if known then challenges[challengeId] else Challenge(0, 0);
      challenges := challenges - {challengeId};
      StillValid();
      if !known || c.expiresAt <= now {
        return Failure(InvalidChallenge);
      }
      if locked {
        return Failure(Locked);
      }
      Reconcile(fate);
      if state.StorageError? {
        return Failure(EnrollmentStorage);
      }
      if proof != Proof(password, challengeId, c.salt, c.expiresAt) {
        var error := CountFailure();
        return Failure(error);
      }
      BoundFacts(state, enrollment, refresh, access);
      var purpose, bound := ForSetup, None;
      if state.Configured? {
        purpose, bound := ForVerify, Some(enrollment.value.id);
      }
      var made := NewPending(purpose, bound, agent, now, token);
      if made.None? {
        return Failure(NoRandomness);
      }
      return Success((purpose, made.value.0));
    }

    // ---- Enrolling ----

    /** One failure more; the service locks when there are too many. */
    method CountFailure() returns (error: AuthError)
      requires Valid()
      modifies this`failedAttempts, this`locked
      ensures Valid() && failedAttempts == old(failedAttempts) + 1
      ensures locked == (old(locked) || failedAttempts >= maxAttempts)
      ensures error == if failedAttempts >= maxAttempts then Locked else Unauthorized
    {
      hide Books, Bound;
      label Before:
      failedAttempts := failedAttempts + 1;
      if failedAttempts >= maxAttempts {
        locked := true;
      }
      StillValid@Before();
      return if failedAttempts >= maxAttempts then Locked else Unauthorized;
    }

    method FindPending(token: nat, now: nat) returns (entry: Option<Pending>)
      requires Valid()
      modifies this`pending
      ensures Valid() && pending == Unexpired(old(pending), now)
      ensures entry == if token in pending then Some(pending[token]) else None
    {
      hide Bound, DistinctTokens, SinceInvalidation, Gone, WellSaved, Spent, Unexpired;
      ghost var given := pending;
      PrunePending(now);
      UnexpiredIsPart(given, now);
      SmallerMap(given, pending);
      if token in pending {
        return Some(pending[token]);
      }
      return None;
    }

    /** A wrong or replayed code counts against the pending token and against the service. */
    method RecordFailure(token: nat, entry: Pending) returns (error: AuthError)
      requires Valid() && token in pending && entry == pending[token]
      modifies this`pending, this`failedAttempts, this`locked
      ensures Valid() && failedAttempts == old(failedAttempts) + 1
      ensures pending == if entry.attempts + 1 >= MAX_PENDING_ATTEMPTS then old(pending) - {token} else old(pending)[token := entry.(attempts := entry.attempts + 1)]
      ensures locked == (old(locked) || failedAttempts >= maxAttempts)
      ensures error == if failedAttempts >= maxAttempts then Locked else Unauthorized
    {
      hide Bound, DistinctTokens, SinceInvalidation, Gone, WellSaved, Spent;
      var attempted := entry.(attempts := entry.attempts + 1);
      if attempted.attempts >= MAX_PENDING_ATTEMPTS {
        SmallerMap(pending, pending - {token});
        pending := pending - {token};
      } else {
        SameSize(pending, token, attempted);
        pending := pending[token := attempted];
      }
      failedAttempts := failedAttempts + 1;
      if failedAttempts >= maxAttempts {
        locked := true;
        return Locked;
      }
      return Unauthorized;
    }

    /** The candidate secret of a setup token: made once, the same until it expires. */
    method Setup(token: nat, now: nat, secret: Option<nat>, fate: SaveFate) returns (r: Result<nat, AuthError>)
      requires Valid()
      modifies this`state, this`enrollment, this`refresh, this`access, this`challenges, this`pending, this`saved, this`epoch
      ensures Valid() && epoch >= old(epoch)
      ensures r.Success? ==>
        && state.Unconfigured? && !locked && token in pending && pending[token].purpose.ForSetup? && pending[token].candidate == Some(r.value)
        && pending[token].expiresAt > now
      ensures r.Success? && epoch == old(epoch) && token in old(pending) && old(pending)[token].candidate.Some? ==> r.value == old(pending)[token].candidate.value
      ensures var live := epoch == old(epoch) && token in old(pending) && old(pending)[token].expiresAt > now && old(pending)[token].purpose.ForSetup?;
        r == if state.StorageError? then Failure(EnrollmentStorage)
             else if locked then Failure(Locked)
             else if state.Configured? then Failure(AlreadyConfigured)
             else if !live then Failure(InvalidPending)
             else if old(pending)[token].candidate.Some? then Success(old(pending)[token].candidate.value)
             else if secret.Some? then Success(secret.value)
             else Failure(NoRandomness)
    {
      hide Books, Bound;
      Reconcile(fate);
      if state.StorageError? {
        return Failure(EnrollmentStorage);
      }
      if locked {
        return Failure(Locked);
      }
      if state.Configured? {
        return Failure(AlreadyConfigured);
      }
      var entry := FindPending(token, now);
      if entry.None? || !entry.value.purpose.ForSetup? {
        return Failure(InvalidPending);
      }
      var candidate := entry.value.candidate;
      if candidate.None? {
        if secret.None? {
          return Failure(NoRandomness);
        }
        candidate := secret;
        SetCandidate(token, entry.value.(candidate := candidate));
      }
      return Success(candidate.value);
    }

    method SetCandidate(token: nat, entry: Pending)
      requires Valid() && token in pending
      modifies this`pending
      ensures Valid() && pending == old(pending)[token := entry]
    {
      hide Bound, DistinctTokens, SinceInvalidation, Gone, WellSaved, Spent;
      SameSize(pending, token, entry);
      pending := pending[token := entry];
    }

    /** Writes the enrollment file. */
    method SaveEnrollment(record: Enrollment, fate: SaveFate) returns (ok: bool)
      requires Valid()
      requires record.id !in seen || (file.Some? && file.value.id == record.id && file.value.lastStep <= record.lastStep)
      modifies this`file, this`seen
      ensures Valid() && ok == fate.Saved? && seen == old(seen) + {record.id}
      ensures file == if fate.Lost? then old(file) else Some(record)
    {
      hide Bound, DistinctTokens, SinceInvalidation, Gone, WellSaved;
      seen := seen + {record.id};
      if !fate.Lost? {
        file := Some(record);
      }
      ok := fate.Saved?;
    }

    /** Nothing is locked, there is no enrollment, and the token is a pending setup with a candidate that has not expired. */
    ghost predicate CanConfirm(token: nat, now: nat)
      reads this
    {
      && !locked && readable && file.None? && state.Unconfigured?
      && Live(pending, token, now) && pending[token].purpose.ForSetup? && pending[token].candidate.Some?
    }

    /** The candidate secret and the step of a right code for a setup token. */
    method AcceptSetup(token: nat, code: Code, now: nat, reconcile: SaveFate) returns (r: Result<(nat, nat), AuthError>)
      requires Valid()
      modifies this`state, this`enrollment, this`refresh, this`access, this`challenges, this`pending, this`saved, this`epoch, this`failedAttempts, this`locked
      ensures Valid() && epoch >= old(epoch)
      ensures r.Success? ==> code == Code(r.value.0, r.value.1) && !locked && state.Unconfigured?
      ensures r.Success? ==> token in pending && pending[token].purpose.ForSetup? && pending[token].candidate == Some(r.value.0)
      ensures var ready := old(CanConfirm(token, now)); var right := ready && InWindow(old(pending)[token].candidate.value, code, now);
        && r == (if !ready then Failure(if old(locked) then Locked else if state.StorageError? then EnrollmentStorage
                                        else if state.Configured? then AlreadyConfigured else InvalidPending)
                 else if right then Success((code.secret, code.step))
                 else if failedAttempts >= maxAttempts then Failure(Locked) else Failure(Unauthorized))
        && Counted(old(pending), pending, token, ready && !right, epoch == old(epoch), now)
        && failedAttempts == old(failedAttempts) + (if ready && !right then 1 else 0)
        && (locked <==> old(locked) || (ready && !right && failedAttempts >= maxAttempts))
      ensures old(CanConfirm(token, now)) ==> epoch == old(epoch)
    {
      hide Books, Bound, Counted, Unexpired;
      NoneCounted(pending, token, now);
      LiveIff(pending, token, now);
      if Live(pending, token, now) {
        OneCounted(pending, token, now);
      }
      hide Live;
      Reconcile(reconcile);
      if locked {
        return Failure(Locked);
      }
      if state.StorageError? {
        return Failure(EnrollmentStorage);
      }
      if state.Configured? {
        return Failure(AlreadyConfigured);
      }
      var entry := FindPending(token, now);
      if entry.None? || !entry.value.purpose.ForSetup? || entry.value.candidate.None? {
        return Failure(InvalidPending);
      }
      var step := ValidateCode(entry.value.candidate.value, code, now);
      if step.None? {
        var error := RecordFailure(token, entry.value);
        return Failure(error);
      }
      return Success((entry.value.candidate.value, step.value));
    }

    /** The first right code enrolls: the file is written, and every credential of the time before goes. */
    method ConfirmSetup(token: nat, code: Code, now: nat, id: Option<nat>, reconcile: SaveFate, enroll: SaveFate, fate: SaveFate) returns (r: Result<(), AuthError>)
      requires Valid() && (id.Some? ==> id.value !in seen)
      modifies this`state, this`enrollment, this`refresh, this`access, this`challenges, this`pending, this`saved, this`epoch,
               this`file, this`seen, this`enrolledAt, this`failedAttempts, this`locked
      ensures Valid() && epoch >= old(epoch)
      ensures r.Success? ==>
        && epoch > old(epoch) && refresh == map[] && access == map[] && pending == map[] && failedAttempts == 0
        && id.Some? && state.Configured? && enrollment == file && file.Some? && file.value.id == id.value
        && code == Code(file.value.secret, file.value.lastStep)
      ensures file == old(file) ==> enrolledAt == old(enrolledAt)
      ensures file != old(file) ==>
        && id.Some? && file.Some? && file.value.id == id.value && code == Code(file.value.secret, file.value.lastStep)
        && enrolledAt == old(enrolledAt)[id.value := file.value.lastStep]
      ensures r.Success? ==> file != old(file)
      ensures var ready := old(CanConfirm(token, now)); var right := ready && InWindow(old(pending)[token].candidate.value, code, now);
        && file == (if right && id.Some? && !enroll.Lost? then Some(Enrollment(id.value, code.secret, code.step)) else old(file))
        && (right && id.Some? && enroll.Saved? ==>
              && epoch > old(epoch) && refresh == map[] && access == map[] && pending == map[] && enrollment == file
              && state == if fate.Saved? then Configured else StorageError)
      ensures var ready := old(CanConfirm(token, now)); var right := ready && InWindow(old(pending)[token].candidate.value, code, now);
        && (r.Success? <==> right && id.Some? && enroll.Saved? && fate.Saved?)
        && (r.Success? ==> file.value.secret == old(pending)[token].candidate.value && file.value.lastStep == code.step)
        && (right && r.Failure? ==> r.error == (if id.None? then NoRandomness else EnrollmentStorage) && failedAttempts == old(failedAttempts))
        && (ready && !right ==>
              && r == Failure(if failedAttempts >= maxAttempts then Locked else Unauthorized) && failedAttempts == old(failedAttempts) + 1
              && Counted(old(pending), pending, token, true, true, now))
        && (!ready ==>
              && failedAttempts == old(failedAttempts)
              && r == Failure(if old(locked) then Locked else if state.StorageError? then EnrollmentStorage
                              else if state.Configured? then AlreadyConfigured else InvalidPending))
        && (locked <==> old(locked) || (ready && !right && failedAttempts >= maxAttempts))
    {
      hide Books, Bound, Counted, CanConfirm;
      var accepted := AcceptSetup(token, code, now, reconcile);
      if accepted.Failure? {
        return Failure(accepted.error);
      }
      if id.None? {
        return Failure(NoRandomness);
      }
      r := MakeEnrollment(Enrollment(id.value, accepted.value.0, accepted.value.1), enroll, fate);
    }

    /** The enrollment is on disk before anything else happens. */
    method MakeEnrollment(record: Enrollment, enroll: SaveFate, fate: SaveFate) returns (r: Result<(), AuthError>)
      requires Valid() && record.id !in seen
      modifies this`state, this`enrollment, this`refresh, this`access, this`challenges, this`pending, this`saved, this`epoch,
               this`file, this`seen, this`enrolledAt, this`failedAttempts
      ensures Valid() && epoch >= old(epoch)
      ensures r.Success? ==>
        && epoch > old(epoch) && refresh == map[] && access == map[] && pending == map[] && failedAttempts == 0
        && state.Configured? && enrollment == file == Some(record) && record.id in enrolledAt && enrolledAt[record.id] == record.lastStep
      ensures r.Success? <==> enroll.Saved? && fate.Saved?
      ensures r.Failure? ==> r.error.EnrollmentStorage? && failedAttempts == old(failedAttempts)
      ensures file == if enroll.Lost? then old(file) else Some(record)
      ensures enrolledAt == if enroll.Lost? then old(enrolledAt) else old(enrolledAt)[record.id := record.lastStep]
      ensures enroll.Lost? ==> r.Failure?
      ensures enroll.Lost? <==> file == old(file)
      ensures enroll.Saved? ==>
        && epoch > old(epoch) && refresh == map[] && access == map[] && pending == map[] && enrollment == Some(record)
        && state == if fate.Saved? then Configured else StorageError
      ensures !enroll.Saved? ==>
        epoch == old(epoch) && refresh == old(refresh) && access == old(access) && pending == old(pending) && state == old(state) && enrollment == old(enrollment)
    {
      hide Books, Bound, Spent;
      Unspent(record.id);
      var ok := SaveEnrollment(record, enroll);
      if !enroll.Lost? {
        Enroll(record);
      }
      if !ok {
        return Failure(EnrollmentStorage);
      }
      var adopted := AdoptEnrollment(record, fate);
      if !adopted {
        return Failure(EnrollmentStorage);
      }
      ResetFailures();
      return Success(());
    }

    /** An enrollment that was never there has no spent steps. */
    lemma Unspent(id: nat)
      requires Valid() && id !in seen
      ensures id !in enrolledAt && forall i :: 0 <= i < |issued| ==> issued[i].0 != id
      ensures file.Some? ==> file.value.id != id
    {}

    ghost method Enroll(record: Enrollment)
      requires Valid() && file == Some(record) && record.id in seen
      requires record.id !in enrolledAt && forall i :: 0 <= i < |issued| ==> issued[i].0 != record.id
      modifies this`enrolledAt
      ensures Valid() && enrolledAt == old(enrolledAt)[record.id := record.lastStep]
    {
      hide Bound, DistinctTokens, SinceInvalidation, Gone, WellSaved;
      enrolledAt := enrolledAt[record.id := record.lastStep];
    }

    method ResetFailures()
      requires Valid()
      modifies this`failedAttempts
      ensures Valid() && failedAttempts == 0
    {
      hide Bound, DistinctTokens, SinceInvalidation, Gone, WellSaved, Spent;
      failedAttempts := 0;
    }

    /** Switches to an enrollment that is on disk. */
    method AdoptEnrollment(record: Enrollment, fate: SaveFate) returns (ok: bool)
      requires Valid() && record.id in seen
      modifies this`state, this`enrollment, this`refresh, this`access, this`challenges, this`pending, this`saved, this`epoch
      ensures Valid() && ok == fate.Saved? && epoch == old(epoch) + 1
      ensures refresh == map[] && access == map[] && pending == map[] && challenges == map[] && enrollment == Some(record)
      ensures state == if ok then Configured else StorageError
    {
      hide Bound, DistinctTokens, SinceInvalidation, Gone, WellSaved, Spent;
      enrollment, state := Some(record), Configured;
      ok := Invalidate(fate);
      if !ok {
        SetStorageError();
      }
    }

    method SetStorageError()
      requires Valid() && refresh == map[] && access == map[]
      modifies this`state
      ensures Valid() && state.StorageError?
    {
      hide DistinctTokens, SinceInvalidation, Gone, WellSaved, Spent;
      state := StorageError;
    }

    // ---- Verifying ----

    /** What the environment may do to the enrollment file between two readings of it. */
    method Meanwhile(change: FileChange)
      requires Valid() && (change.Replaced? ==> change.other.id !in seen)
      modifies this`file, this`readable, this`seen
      ensures Valid() && seen >= old(seen)
      ensures file == match change case Deleted => None case Replaced(other) => Some(other) case _ => old(file)
      ensures readable == (old(readable) && !change.Unreadable?)
    {
      match change
      case Nothing =>
      case Deleted => DeleteEnrollment();
      case Replaced(other) => ReplaceEnrollment(other);
      case Unreadable => SetReadable(false);
    }

    /** Completes a login. The step is spent on disk before tokens are issued, and a spent step is never accepted again. */
    method VerifyTOTP(token: nat, code: Code, agent: string, now: nat, id: Option<nat>, accessToken: Option<nat>, refreshToken: Option<nat>,
                      change: FileChange, crash: bool, reconcile: SaveFate, enroll: SaveFate, fate: SaveFate) returns (r: Result<Tokens, AuthError>)
      requires Valid() && (change.Replaced? ==> change.other.id !in seen)
      requires FreshTokens(used, accessToken, refreshToken) && (id.Some? ==> id.value !in refresh)
      modifies this
      ensures Valid() && epoch >= old(epoch) && enrolledAt == old(enrolledAt) && retired == old(retired)
      ensures password == old(password) && fingerprint == old(fingerprint)
      ensures r.Failure? ==> issued == old(issued)
      ensures r.Failure? ==> (refresh == old(refresh) && access == old(access)) || (epoch > old(epoch) && refresh == map[] && access == map[])
      ensures r.Success? ==>
        && epoch == old(epoch) && state.Configured? && file == enrollment && !locked && failedAttempts == 0
        && code == Code(enrollment.value.secret, enrollment.value.lastStep)
        && issued == old(issued) + [(enrollment.value.id, enrollment.value.lastStep)]
        && (enrollment.value.id, enrollment.value.lastStep) !in old(issued)
        && (enrollment.value.id in enrolledAt ==> enrolledAt[enrollment.value.id] < enrollment.value.lastStep)
        && old(enrollment).Some? && old(enrollment).value.id == enrollment.value.id && old(enrollment).value.lastStep < enrollment.value.lastStep
        && token in old(pending) && old(pending)[token].purpose.ForVerify? && old(pending)[token].enrollment == Some(enrollment.value.id)
        && token !in pending
        && Opened(r.value, old(refresh), old(access), agent, now, id, accessToken, refreshToken) && Lists(saved, refresh)
      ensures var right := old(CanVerify(token, now)) && LaterCode(old(file), code, now);
        && (!right ==> file == old(file))
        && (right && change.Nothing? ==> file == if enroll.Lost? then old(file) else Some(old(file).value.(lastStep := code.step)))
      ensures VerifyAnswer(old(CanVerify(token, now)), LaterCode(old(file), code, now), r,
                           if old(locked) then Locked else if state.StorageError? then EnrollmentStorage else InvalidPending,
                           VerifyError(change, enroll, crash, id.Some? && accessToken.Some? && refreshToken.Some?, fate),
                           old(failedAttempts), failedAttempts, old(locked), locked, maxAttempts,
                           Counted(old(pending), pending, token, true, true, now))
    {
      hide Books, Bound, Spent, Lists, FreshTokens, Counted, LaterCode, CanVerify, Live, InWindow, InStep;
      var step := AcceptCode(token, code, now, reconcile);
      if step.Failure? {
        return Failure(step.error);
      }
      r := CompleteLogin(step.value, token, agent, now, id, accessToken, refreshToken, change, crash, enroll, fate);
    }

    /** After a right code: the file is read again, the step is spent on it, and then the session is issued. */
    method CompleteLogin(step: nat, token: nat, agent: string, now: nat, id: Option<nat>, accessToken: Option<nat>, refreshToken: Option<nat>,
                         change: FileChange, crash: bool, enroll: SaveFate, fate: SaveFate) returns (r: Result<Tokens, AuthError>)
      requires Valid() && (change.Replaced? ==> change.other.id !in seen)
      requires state.Configured? && readable && enrollment.Some? && file == enrollment && enrollment.value.lastStep < step
      requires FreshTokens(used, accessToken, refreshToken) && (id.Some? ==> id.value !in refresh)
      modifies this
      ensures Valid() && epoch >= old(epoch) && enrolledAt == old(enrolledAt) && retired == old(retired)
      ensures password == old(password) && fingerprint == old(fingerprint) && locked == old(locked)
      ensures r.Failure? ==> issued == old(issued) && failedAttempts == old(failedAttempts)
      ensures r.Failure? ==> (refresh == old(refresh) && access == old(access)) || (epoch > old(epoch) && refresh == map[] && access == map[])
      ensures match VerifyError(change, enroll, crash, id.Some? && accessToken.Some? && refreshToken.Some?, fate)
              case None => r.Success?
              case Some(error) => r == Failure(error)
      ensures r.Success? ==>
        && epoch == old(epoch) && state.Configured? && failedAttempts == 0 && token !in pending
        && file == enrollment == Some(old(enrollment).value.(lastStep := step))
        && issued == old(issued) + [(enrollment.value.id, step)] && (enrollment.value.id, step) !in old(issued)
        && (enrollment.value.id in enrolledAt ==> enrolledAt[enrollment.value.id] < step)
        && Opened(r.value, old(refresh), old(access), agent, now, id, accessToken, refreshToken) && Lists(saved, refresh)
      ensures change.Nothing? ==> file == if enroll.Lost? then old(file) else Some(old(enrollment).value.(lastStep := step))
    {
      hide Books, Bound, Spent, Lists, FreshTokens;
      var error := Recheck(change, fate);
      if error.Some? {
        return Failure(error.value);
      }
      r := SpendStep(step, token, agent, now, id, accessToken, refreshToken, crash, enroll, fate);
    }

    /** Nothing is locked, the cached enrollment is the one on disk, and the token is a pending login of it that has not expired. */
    ghost predicate CanVerify(token: nat, now: nat)
      reads this
    {
      && !locked && readable && file.Some? && state.Configured? && enrollment == file
      && Live(pending, token, now) && pending[token].purpose.ForVerify? && pending[token].enrollment == Some(file.value.id)
    }

    /** The step of a right code that is later than every accepted one. */
    method AcceptCode(token: nat, code: Code, now: nat, reconcile: SaveFate) returns (r: Result<nat, AuthError>)
      requires Valid()
      modifies this`state, this`enrollment, this`refresh, this`access, this`challenges, this`pending, this`saved, this`epoch, this`failedAttempts, this`locked
      ensures Valid() && epoch >= old(epoch)
      ensures r.Failure? ==> (refresh == old(refresh) && access == old(access)) || (epoch > old(epoch) && refresh == map[] && access == map[])
      ensures r.Success? ==>
        && epoch == old(epoch) && refresh == old(refresh) && access == old(access) && !locked
        && state.Configured? && enrollment.Some? && enrollment == old(enrollment) == file && readable
        && r.value > enrollment.value.lastStep && code == Code(enrollment.value.secret, r.value)
        && token in old(pending) && old(pending)[token].purpose.ForVerify? && old(pending)[token].enrollment == Some(enrollment.value.id)
      ensures var ready := old(CanVerify(token, now)); var right := ready && LaterCode(old(file), code, now);
        && r == (if !ready then Failure(if old(locked) then Locked else if state.StorageError? then EnrollmentStorage else InvalidPending)
                 else if right then Success(code.step)
                 else if failedAttempts >= maxAttempts then Failure(Locked) else Failure(Unauthorized))
        && Counted(old(pending), pending, token, ready && !right, epoch == old(epoch), now)
        && failedAttempts == old(failedAttempts) + (if ready && !right then 1 else 0)
        && (locked <==> old(locked) || (ready && !right && failedAttempts >= maxAttempts))
      ensures old(CanVerify(token, now)) ==> epoch == old(epoch)
    {
      hide Books, Bound, Counted, Unexpired;
      NoneCounted(pending, token, now);
      LiveIff(pending, token, now);
      if Live(pending, token, now) {
        OneCounted(pending, token, now);
      }
      hide Live;
      Reconcile(reconcile);
      if locked {
        return Failure(Locked);
      }
      if state.StorageError? {
        return Failure(EnrollmentStorage);
      }
      if !state.Configured? {
        return Failure(InvalidPending);
      }
      BoundFacts(state, enrollment, refresh, access);
      var entry := FindPending(token, now);
      if entry.None? || !entry.value.purpose.ForVerify? || entry.value.enrollment != Some(enrollment.value.id) {
        return Failure(InvalidPending);
      }
      var step := ValidateCode(enrollment.value.secret, code, now);
      if step.None? || step.value <= enrollment.value.lastStep {
        var error := RecordFailure(token, entry.value);
        return Failure(error);
      }
      return Success(step.value);
    }

    /** Reads the file again before it is written, so that a deleted enrollment does not come back. */
    method Recheck(change: FileChange, fate: SaveFate) returns (error: Option<AuthError>)
      requires Valid() && state.Configured? && enrollment.Some? && (change.Replaced? ==> change.other.id !in seen)
      modifies this`file, this`readable, this`seen, this`state, this`enrollment, this`refresh, this`access, this`challenges, this`pending, this`saved, this`epoch
      ensures Valid()
      ensures error.None? ==>
        && epoch == old(epoch) && state == old(state) && enrollment == old(enrollment) == file
        && refresh == old(refresh) && access == old(access) && pending == old(pending)
      ensures error.Some? ==> epoch == old(epoch) + 1 && refresh == map[] && access == map[]
      ensures old(readable) && old(file) == old(enrollment) ==>
        error == if change.Unreadable? then Some(EnrollmentStorage)
                 else if change.Nothing? then None
                 else if fate.Saved? then Some(InvalidPending) else Some(EnrollmentStorage)
    {
      EnrollmentSeen();
      hide Books, Bound;
      Meanwhile(change);
      if !readable {
        var _ := LoseStorage(fate);
        return Some(EnrollmentStorage);
      }
      if file != enrollment {
        var ok;
        if file.Some? {
          FileSeen();
          ok := AdoptEnrollment(file.value, fate);
        } else {
          ok := DropEnrollment(fate);
        }
        return Some(if ok then InvalidPending else EnrollmentStorage);
      }
      return None;
    }

    lemma EnrollmentSeen()
      requires Valid()
      ensures enrollment.Some? ==> enrollment.value.id in seen
    {}

    method LoseStorage(fate: SaveFate) returns (ok: bool)
      requires Valid()
      modifies this`state, this`refresh, this`access, this`challenges, this`pending, this`saved, this`epoch
      ensures Valid() && epoch == old(epoch) + 1 && refresh == map[] && access == map[] && pending == map[] && challenges == map[] && state.StorageError?
    {
      hide Bound, DistinctTokens, SinceInvalidation, Gone, WellSaved, Spent;
      state := StorageError;
      ok := Invalidate(fate);
    }

    lemma FileSeen()
      requires Valid()
      ensures file.Some? ==> file.value.id in seen
    {}

    /** The present enrollment is on disk with an earlier step: the step is written, then the tokens are issued. */
    method SpendStep(step: nat, token: nat, agent: string, now: nat, id: Option<nat>, accessToken: Option<nat>, refreshToken: Option<nat>,
                     crash: bool, enroll: SaveFate, fate: SaveFate) returns (r: Result<Tokens, AuthError>)
      requires Valid() && state.Configured? && enrollment.Some? && file == enrollment && enrollment.value.lastStep < step
      requires FreshTokens(used, accessToken, refreshToken) && (id.Some? ==> id.value !in refresh)
      modifies this`file, this`seen, this`enrollment, this`pending, this`refresh, this`access, this`saved, this`born, this`used, this`issued, this`failedAttempts
      ensures Valid()
      ensures r.Failure? ==> issued == old(issued) && refresh == old(refresh) && access == old(access) && failedAttempts == old(failedAttempts)
      ensures r.Success? <==> enroll.Saved? && !crash && id.Some? && accessToken.Some? && refreshToken.Some? && fate.Saved?
      ensures r.Failure? ==>
        r.error == if !enroll.Saved? then EnrollmentStorage
                   else if crash then SaveFailed
                   else if id.None? || accessToken.None? || refreshToken.None? then NoRandomness else SaveFailed
      ensures r.Success? ==>
        && file == enrollment == Some(old(enrollment).value.(lastStep := step)) && failedAttempts == 0 && token !in pending
        && issued == old(issued) + [(enrollment.value.id, step)] && (enrollment.value.id, step) !in old(issued)
        && (enrollment.value.id in enrolledAt ==> enrolledAt[enrollment.value.id] < step)
        && Opened(r.value, old(refresh), old(access), agent, now, id, accessToken, refreshToken) && Lists(saved, refresh)
      ensures file == if enroll.Lost? then old(file) else Some(old(enrollment).value.(lastStep := step))
    {
      hide Books, Bound, Spent, Lists, FreshTokens;
      var record := file.value.(lastStep := step);
      OldStep(step);
      var ok := SaveEnrollment(record, enroll);
      if !ok {
        return Failure(EnrollmentStorage);
      }
      if crash {
        return Failure(SaveFailed);
      }
      CacheStep(record, token);
      r := Issue(agent, now, id, accessToken, refreshToken, fate);
      if r.Success? {
        ResetFailures();
        LogIssue(record.id, step);
      }
    }

    lemma OldStep(step: nat)
      requires Valid() && file.Some? && file.value.lastStep < step
      ensures NewStep(file.value.id, step, enrolledAt, issued)
    {
      StepIsNew(file, seen, enrolledAt, issued, step);
    }

    method CacheStep(record: Enrollment, token: nat)
      requires Valid() && state.Configured? && enrollment.Some? && enrollment.value.id == record.id
      modifies this`enrollment, this`pending
      ensures Valid() && enrollment == Some(record) && pending == old(pending) - {token}
    {
      hide DistinctTokens, SinceInvalidation, Gone, WellSaved, Spent;
      SmallerMap(pending, pending - {token});
      enrollment := Some(record);
      pending := pending - {token};
    }

    ghost method LogIssue(id: nat, step: nat)
      requires Valid() && file.Some? && file.value.id == id && file.value.lastStep == step && NewStep(id, step, enrolledAt, issued)
      modifies this`issued
      ensures Valid() && issued == old(issued) + [(id, step)]
    {
      hide Bound, DistinctTokens, SinceInvalidation, Gone, WellSaved;
      issued := issued + [(id, step)];
    }

    /** Switches to the state without enrollment. */
    method DropEnrollment(fate: SaveFate) returns (ok: bool)
      requires Valid()
      modifies this`state, this`enrollment, this`refresh, this`access, this`challenges, this`pending, this`saved, this`epoch
      ensures Valid() && ok == fate.Saved? && epoch == old(epoch) + 1
      ensures refresh == map[] && access == map[] && pending == map[] && challenges == map[] && enrollment.None?
      ensures state == if ok then Unconfigured else StorageError
    {
      hide Bound, DistinctTokens, SinceInvalidation, Gone, WellSaved, Spent;
      enrollment, state := None, Unconfigured;
      ok := Invalidate(fate);
      if !ok {
        SetStorageError();
      }
    }

    /** Challenges and failure counts do not matter for validity. */
    twostate lemma StillValid()
      requires old(Valid())
      requires unchanged(this`state, this`enrollment, this`refresh, this`access, this`saved, this`file, this`pending,
                         this`epoch, this`born, this`used, this`seen, this`retired, this`enrolledAt, this`issued)
      ensures Valid()
    {}

    ghost method Retire(before: map<nat, Session>, id: nat, renewed: Session, token: nat)
      requires Valid() && Lists(saved, refresh)
      requires id in before && refresh == before[id := renewed] && before[id].token == token && renewed.token != token
      requires DistinctTokens(before) && token in used
      modifies this`retired
      ensures Valid() && retired == old(retired) + {token}
    {
      hide Bound, SinceInvalidation, WellSaved, Spent;
      RetireToken(before, id, renewed, retired, saved, used, token);
      retired := retired + {token};
    }
  }

  ghost predicate Rotated(before: map<nat, Session>, after: map<nat, Session>, token: nat, newToken: nat, id: nat) {
    && id in before && before[id].token == token
    && id in after && after == before[id := after[id]]
    && after[id].token == newToken && after[id].id == before[id].id
    && after[id].expiresAt == before[id].expiresAt && after[id].enrollment == before[id].enrollment && after[id].createdAt == before[id].createdAt
    && after[id].fingerprint == before[id].fingerprint
    && (forall i :: i in after ==> after[i].token != token)
  }

  /** The access tokens of other sessions. */
  function WithoutSession(access: map<nat, Access>, id: nat): map<nat, Access> {
    map t | t in access && access[t].session != id :: access[t]
  }

  predicate UsableUnder(entry: Session, current: Option<Enrollment>, now: nat) {
    entry.expiresAt > now && current.Some? && entry.enrollment == current.value.id
  }

  /** The usable sessions of a map, as a map and as a list in no order. */
  method UsableSessions(refresh: map<nat, Session>, current: Option<Enrollment>, now: nat) returns (kept: map<nat, Session>, list: set<Session>)
    ensures forall i :: i in kept <==> i in refresh && UsableUnder(refresh[i], current, now)
    ensures forall i :: i in kept ==> kept[i] == refresh[i]
    ensures list == set id | id in kept :: kept[id]
  {
    kept, list := map[], {};
    var rest := refresh.Keys;
    while rest != {}
      invariant rest <= refresh.Keys
      invariant forall i :: i in kept <==> i in refresh && i !in rest && UsableUnder(refresh[i], current, now)
      invariant forall i :: i in kept ==> kept[i] == refresh[i]
      invariant list == set id | id in kept :: kept[id]
      decreases |rest|
    {
      var id :| id in rest;
      rest := rest - {id};
      if UsableUnder(refresh[id], current, now) {
        kept, list := kept[id := refresh[id]], list + {refresh[id]};
      }
    }
  }

  function OnlySession(refresh: map<nat, Session>, id: nat): map<nat, Session> {
    map i | i in refresh && i == id :: refresh[i]
  }

  function OnlyAccess(access: map<nat, Access>, id: nat): map<nat, Access> {
    map t | t in access && access[t].session == id :: access[t]
  }

  lemma WithoutIs(access: map<nat, Access>, id: nat)
    ensures forall t :: t in WithoutSession(access, id) <==> t in access && access[t].session != id
  {}

  lemma WithoutIsPart(access: map<nat, Access>, id: nat)
    ensures forall t :: t in WithoutSession(access, id) ==> t in access && WithoutSession(access, id)[t] == access[t]
  {}

  lemma FewerSessions(state: State, enrollment: Option<Enrollment>, refresh: map<nat, Session>, access: map<nat, Access>,
                      epoch: nat, born: map<nat, nat>, used: set<nat>, retired: set<nat>, saved: seq<Session>,
                      keptRefresh: map<nat, Session>, keptAccess: map<nat, Access>)
    requires Sound(state, enrollment, refresh, access, epoch, born, used, retired, saved)
    requires forall id :: id in keptRefresh ==> id in refresh && keptRefresh[id] == refresh[id]
    requires forall t :: t in keptAccess ==> t in access && keptAccess[t] == access[t]
    ensures Sound(state, enrollment, keptRefresh, keptAccess, epoch, born, used, retired, saved)
  {
    if keptRefresh != map[] {
      assert exists id :: id in keptRefresh by {
        assert keptRefresh.Keys != {};
      }
    }
    if keptAccess != map[] {
      assert exists t :: t in keptAccess by {
        assert keptAccess.Keys != {};
      }
    }
  }

  predicate Live(pending: map<nat, Pending>, token: nat, now: nat) {
    token in pending && now < pending[token].expiresAt
  }

  /** A code of the secret for the present time step or a neighbour. */
  predicate InWindow(secret: nat, code: Code, now: nat) {
    code.Code? && code.secret == secret && now / 30 <= code.step + 1 && code.step <= now / 30 + 1
  }

  /** What goes wrong after a right code, if anything does: the file has changed meanwhile, the step cannot be saved, the process
      dies, no random values come, or the session cannot be saved. */
  function VerifyError(change: FileChange, enroll: SaveFate, crash: bool, tokens: bool, fate: SaveFate): Option<AuthError> {
    if change.Unreadable? then Some(EnrollmentStorage)
    else if !change.Nothing? then (if fate.Saved? then Some(InvalidPending) else Some(EnrollmentStorage))
    else if !enroll.Saved? then Some(EnrollmentStorage)
    else if crash then Some(SaveFailed)
    else if !tokens then Some(NoRandomness)
    else if !fate.Saved? then Some(SaveFailed)
    else None
  }

  /** A login that can be verified succeeds with a right code unless something goes wrong after it, and a wrong code is counted. */
  predicate VerifyAnswer(ready: bool, right: bool, r: Result<Tokens, AuthError>, refusal: AuthError, error: Option<AuthError>,
                         wasFailed: nat, failed: nat, wasLocked: bool, locked: bool, maxAttempts: nat, counted: bool) {
    if !ready then r == Failure(refusal) && failed == wasFailed && locked == wasLocked
    else if right then
      && locked == wasLocked
      && (if error.None? then r.Success? && failed == 0 else r == Failure(error.value) && failed == wasFailed)
    else
      && r == Failure(if failed >= maxAttempts then Locked else Unauthorized) && failed == wasFailed + 1
      && (locked <==> wasLocked || failed >= maxAttempts) && counted
  }

  /** A code of the enrollment for a step in the window, later than every one accepted before. */
  predicate LaterCode(file: Option<Enrollment>, code: Code, now: nat) {
    file.Some? && InWindow(file.value.secret, code, now) && code.step > file.value.lastStep
  }

  /** A wrong code is counted against its token, which the fifth one uses up; other tokens stay until they expire, and are not counted. */
  ghost predicate Counted(before: map<nat, Pending>, after: map<nat, Pending>, token: nat, wrong: bool, kept: bool, now: nat) {
    && (kept ==> forall t :: Live(before, t, now) && !(wrong && t == token) ==> t in after)
    && (forall t :: t in after && !(wrong && t == token) ==> t in before && after[t] == before[t])
    && (wrong && token in before ==>
          if before[token].attempts + 1 >= 5 then token !in after
          else token in after && after[token] == before[token].(attempts := before[token].attempts + 1))
  }

  /** The proof is over this challenge and under the password. */
  predicate Proven(challenges: map<nat, Challenge>, id: nat, proof: Proof, password: nat) {
    && id in challenges && proof.Proof?
    && proof.password == password && proof.challenge == id && proof.salt == challenges[id].salt && proof.expiresAt == challenges[id].expiresAt
  }

  /** A password proof over a challenge; different challenges have different proofs. */
  datatype Proof = Proof(password: nat, challenge: nat, salt: nat, expiresAt: nat) | Garbage

  /** The challenges that have not expired. */
  function Unclaimed(challenges: map<nat, Challenge>, now: nat): map<nat, Challenge> {
    map c | c in challenges && challenges[c].expiresAt > now :: challenges[c]
  }

  function Unexpired(pending: map<nat, Pending>, now: nat): map<nat, Pending> {
    map t | t in pending && pending[t].expiresAt > now :: pending[t]
  }

  /** Of the pending logins that were left at most one was dropped, only when there was no room, and none expires before it. */
  ghost predicate Evicted(before: map<nat, Pending>, after: map<nat, Pending>, added: nat) {
    && |after| <= MAX_PENDING
    && (|before| < MAX_PENDING ==> before.Keys <= after.Keys)
    && (forall t :: t in before && t !in after ==> before.Keys - after.Keys == {t} && forall u :: u in before ==> before[t].expiresAt <= before[u].expiresAt)
  }

  lemma SmallerMap(big: map<nat, Pending>, small: map<nat, Pending>)
    requires small.Keys <= big.Keys
    ensures |small| <= |big|
  {
    SmallerSet(small.Keys, big.Keys);
    assert |small.Keys| == |small| && |big.Keys| == |big|;
  }

  lemma {:induction false} SmallerSet(small: set<nat>, big: set<nat>)
    requires small <= big
    ensures |small| <= |big|
  {
    if small != {} {
      var x :| x in small;
      SmallerSet(small - {x}, big - {x});
    }
  }

  lemma EvictsOldest(before: map<nat, Pending>, oldest: nat, added: nat, entry: Pending)
    requires |before| <= MAX_PENDING && |before| >= MAX_PENDING && oldest in before
    requires forall t :: t in before ==> before[oldest].expiresAt <= before[t].expiresAt
    ensures |(before - {oldest})[added := entry]| <= MAX_PENDING
    ensures Evicted(before, (before - {oldest})[added := entry], added)
  {
    var less := before - {oldest};
    var after := less[added := entry];
    assert less.Keys == before.Keys - {oldest} && |less.Keys| == |before.Keys| - 1;
    assert |before.Keys| == |before| && |less.Keys| == |less|;
    assert after.Keys == less.Keys + {added} && |after.Keys| == |after|;
    forall t | t in before && t !in after ensures before.Keys - after.Keys == {t} {
      assert t == oldest;
    }
  }

  lemma EvictsNone(before: map<nat, Pending>, added: nat, entry: Pending)
    requires |before| < MAX_PENDING
    ensures |before[added := entry]| <= MAX_PENDING
    ensures Evicted(before, before[added := entry], added)
  {
    var after := before[added := entry];
    assert after.Keys == before.Keys + {added} && |after.Keys| == |after| && |before.Keys| == |before|;
  }

  lemma UsedGrows(retired: set<nat>, refresh: map<nat, Session>, saved: seq<Session>, used: set<nat>, token: nat)
    requires Gone(retired, refresh, saved, used) && WellSaved(saved, used)
    ensures Gone(retired, refresh, saved, used + {token}) && WellSaved(saved, used + {token})
  {}

  /** Pending logins that stay, expire or go with everything else are not counted. */
  lemma NoneCounted(before: map<nat, Pending>, token: nat, now: nat)
    ensures Counted(before, before, token, false, true, now) && Counted(before, map[], token, false, false, now)
    ensures Counted(before, Unexpired(before, now), token, false, true, now) && Unexpired(map[], now) == map[]
  {}

  /** A live pending login with one wrong code more. */
  lemma OneCounted(before: map<nat, Pending>, token: nat, now: nat)
    requires Live(before, token, now)
    ensures var live, entry := Unexpired(before, now), before[token];
      && token in live && live[token] == entry
      && Counted(before, if entry.attempts + 1 >= MAX_PENDING_ATTEMPTS then live - {token} else live[token := entry.(attempts := entry.attempts + 1)],
                 token, true, true, now)
  {}

  lemma LiveIff(before: map<nat, Pending>, token: nat, now: nat)
    ensures token in Unexpired(before, now) <==> Live(before, token, now)
    ensures token in Unexpired(before, now) ==> Unexpired(before, now)[token] == before[token]
  {}

  lemma UnexpiredIsPart(pending: map<nat, Pending>, now: nat)
    ensures Unexpired(pending, now).Keys <= pending.Keys
  {}

  lemma SameSize(pending: map<nat, Pending>, token: nat, entry: Pending)
    requires token in pending
    ensures |pending[token := entry]| == |pending|
  {
    assert pending[token := entry].Keys == pending.Keys;
    assert |pending.Keys| == |pending| && |pending[token := entry].Keys| == |pending[token := entry]|;
  }

  datatype FileChange = Nothing | Deleted | Replaced(other: Enrollment) | Unreadable

  /** A step that verification has not spent, nor enrollment. */
  ghost predicate NewStep(id: nat, step: nat, enrolledAt: map<nat, nat>, issued: seq<(nat, nat)>) {
    (id, step) !in issued && (id in enrolledAt ==> enrolledAt[id] < step)
  }

  lemma StepIsNew(file: Option<Enrollment>, seen: set<nat>, enrolledAt: map<nat, nat>, issued: seq<(nat, nat)>, step: nat)
    requires Spent(file, seen, enrolledAt, issued) && file.Some? && file.value.lastStep < step
    ensures NewStep(file.value.id, step, enrolledAt, issued)
  {
    forall i | 0 <= i < |issued| ensures issued[i] != (file.value.id, step) {
    }
  }

  lemma FreshAre(used: set<nat>, access: Option<nat>, refresh: Option<nat>)
    requires FreshTokens(used, access, refresh) && access.Some? && refresh.Some?
    ensures access.value !in used && refresh.value !in used && access.value != refresh.value
  {}

  lemma SoundBorn(state: State, enrollment: Option<Enrollment>, refresh: map<nat, Session>, access: map<nat, Access>,
                  epoch: nat, born: map<nat, nat>, used: set<nat>, retired: set<nat>, saved: seq<Session>)
    requires Sound(state, enrollment, refresh, access, epoch, born, used, retired, saved)
    ensures forall t :: t in born ==> born[t] <= epoch
  {}

  lemma RotateSession(state: State, enrollment: Option<Enrollment>, refresh: map<nat, Session>, access: map<nat, Access>,
                      epoch: nat, born: map<nat, nat>, used: set<nat>, retired: set<nat>, saved: seq<Session>,
                      id: nat, renewed: Session, token: nat, until: nat)
    requires Sound(state, enrollment, refresh, access, epoch, born, used, retired, saved)
    requires id in refresh && renewed.id == refresh[id].id && renewed.enrollment == refresh[id].enrollment
    requires renewed.expiresAt == refresh[id].expiresAt && renewed.createdAt == refresh[id].createdAt && renewed.fingerprint == refresh[id].fingerprint
    requires token !in used && renewed.token !in used && token != renewed.token
    ensures Sound(state, enrollment, refresh[id := renewed], WithoutSession(access, id)[token := Access(id, until)],
                  epoch, born[renewed.token := epoch][token := epoch], used + {renewed.token, token}, retired, saved)
    ensures Rotated(refresh, refresh[id := renewed], refresh[id].token, renewed.token, id)
    ensures refresh[id].token in born && born[refresh[id].token] == epoch && refresh[id].token in used && DistinctTokens(refresh)
    ensures renewed.token != refresh[id].token
  {}

  /** The sessions as they were are sound beside whatever has been saved since. */
  lemma RestoreSessions(state: State, enrollment: Option<Enrollment>, refresh: map<nat, Session>, access: map<nat, Access>,
                        epoch: nat, born: map<nat, nat>, laterBorn: map<nat, nat>, used: set<nat>, laterUsed: set<nat>,
                        retired: set<nat>, saved: seq<Session>, laterSaved: seq<Session>, laterRefresh: map<nat, Session>)
    requires Sound(state, enrollment, refresh, access, epoch, born, used, retired, saved)
    requires (forall t :: t in born ==> t in laterBorn && laterBorn[t] == born[t]) && (forall t :: t in laterBorn ==> laterBorn[t] <= epoch)
    requires laterBorn.Keys <= laterUsed && Gone(retired, laterRefresh, laterSaved, laterUsed) && WellSaved(laterSaved, laterUsed)
    ensures Sound(state, enrollment, refresh, access, epoch, laterBorn, laterUsed, retired, laterSaved)
  {}

  lemma RetireToken(before: map<nat, Session>, id: nat, renewed: Session, retired: set<nat>, saved: seq<Session>, used: set<nat>, token: nat)
    requires id in before && before[id].token == token && renewed.token != token && DistinctTokens(before)
    requires Gone(retired, before[id := renewed], saved, used) && Lists(saved, before[id := renewed]) && token in used
    ensures Gone(retired + {token}, before[id := renewed], saved, used)
  {}

  ghost predicate FreshTokens(used: set<nat>, access: Option<nat>, refresh: Option<nat>) {
    && (access.Some? ==> access.value !in used)
    && (refresh.Some? ==> refresh.value !in used)
    && (access.Some? && refresh.Some? ==> access.value != refresh.value)
  }

  lemma BoundFacts(state: State, enrollment: Option<Enrollment>, refresh: map<nat, Session>, access: map<nat, Access>)
    requires Bound(state, enrollment, refresh, access)
    ensures state.Configured? ==> enrollment.Some?
    ensures refresh != map[] || access != map[] ==> state.Configured?
  {}

  /** All that `Valid` says of the sessions. */
  ghost predicate Sound(state: State, enrollment: Option<Enrollment>, refresh: map<nat, Session>, access: map<nat, Access>,
                        epoch: nat, born: map<nat, nat>, used: set<nat>, retired: set<nat>, saved: seq<Session>) {
    && Bound(state, enrollment, refresh, access)
    && DistinctTokens(refresh)
    && SinceInvalidation(epoch, born, refresh, access)
    && born.Keys <= used
    && Gone(retired, refresh, saved, used)
    && WellSaved(saved, used)
  }

  lemma AddSession(state: State, enrollment: Option<Enrollment>, refresh: map<nat, Session>, access: map<nat, Access>,
                   epoch: nat, born: map<nat, nat>, used: set<nat>, retired: set<nat>, saved: seq<Session>,
                   entry: Session, token: nat, until: nat)
    requires Sound(state, enrollment, refresh, access, epoch, born, used, retired, saved)
    requires state.Configured? && enrollment.Some? && entry.enrollment == enrollment.value.id
    requires entry.id !in refresh && token !in used && entry.token !in used && token != entry.token
    ensures Sound(state, enrollment, refresh[entry.id := entry], access[token := Access(entry.id, until)],
                  epoch, born[entry.token := epoch][token := epoch], used + {entry.token, token}, retired, saved)
    ensures token !in access
  {}

  lemma NoneInUse(retired: set<nat>, refresh: map<nat, Session>, saved: seq<Session>, used: set<nat>)
    requires Gone(retired, refresh, saved, used)
    ensures Gone(retired, map[], saved, used)
  {}

  lemma BoundLoaded(state: State, enrollment: Option<Enrollment>, loaded: map<nat, Session>)
    requires state.Configured? <==> enrollment.Some?
    requires forall id :: id in loaded ==> loaded[id].id == id && enrollment.Some? && loaded[id].enrollment == enrollment.value.id
    ensures Bound(state, enrollment, loaded, map[])
  {
    if loaded != map[] {
      assert loaded.Keys != {};
      var id :| id in loaded;
    }
  }

  lemma SavedAscends(saved: seq<Session>, used: set<nat>)
    requires WellSaved(saved, used)
    ensures forall i, j :: 0 <= i < j < |saved| ==> saved[i].id < saved[j].id
  {}

  /** The sessions that survive a restart. */
  ghost predicate Survivors(saved: seq<Session>, refresh: map<nat, Session>, fingerprint: nat, now: nat, current: Option<Enrollment>) {
    && (forall i :: 0 <= i < |saved| ==>
          var s := saved[i];
          (s.id in refresh <==> s.fingerprint == fingerprint && s.expiresAt > now && current.Some? && s.enrollment == current.value.id)
          && (s.id in refresh ==> refresh[s.id] == s))
    && (forall id :: id in refresh ==> exists i :: 0 <= i < |saved| && saved[i].id == id)
  }

  /** A saved session that does not survive a start: of another password, expired, or of another enrollment than the present one. */
  predicate LeftBehind(entry: Session, fingerprint: nat, now: nat, current: Option<Enrollment>) {
    entry.fingerprint != fingerprint || entry.expiresAt <= now || current.None? || entry.enrollment != current.value.id
  }

  method Load(saved: seq<Session>, fingerprint: nat, now: nat, current: Option<Enrollment>) returns (loaded: map<nat, Session>, changed: bool)
    requires forall i, j :: 0 <= i < j < |saved| ==> saved[i].id < saved[j].id
    ensures Survivors(saved, loaded, fingerprint, now, current)
    ensures changed <==> exists i :: 0 <= i < |saved| && LeftBehind(saved[i], fingerprint, now, current)
  {
    loaded, changed := map[], false;
    for i := 0 to |saved|
      invariant Survivors(saved[..i], loaded, fingerprint, now, current)
      invariant changed <==> exists j :: 0 <= j < i && LeftBehind(saved[j], fingerprint, now, current)
    {
      hide Survivors;
      var entry := saved[i];
      assert saved[..i + 1] == saved[..i] + [entry];
      if entry.fingerprint != fingerprint || entry.expiresAt <= now || current.None? || entry.enrollment != current.value.id {
        changed := true;
        LeaveOut(saved[..i], entry, loaded, fingerprint, now, current);
      } else {
        TakeIn(saved[..i], entry, loaded, fingerprint, now, current);
        loaded := loaded[entry.id := entry];
      }
    }
    assert saved[..|saved|] == saved;
  }

  lemma LeaveOut(saved: seq<Session>, entry: Session, loaded: map<nat, Session>, fingerprint: nat, now: nat, current: Option<Enrollment>)
    requires Survivors(saved, loaded, fingerprint, now, current)
    requires forall i :: 0 <= i < |saved| ==> saved[i].id < entry.id
    requires entry.fingerprint != fingerprint || entry.expiresAt <= now || current.None? || entry.enrollment != current.value.id
    ensures Survivors(saved + [entry], loaded, fingerprint, now, current)
  {
    var all := saved + [entry];
    forall id | id in loaded ensures exists i :: 0 <= i < |all| && all[i].id == id {
      var i :| 0 <= i < |saved| && saved[i].id == id;
      assert all[i].id == id;
    }
  }

  lemma TakeIn(saved: seq<Session>, entry: Session, loaded: map<nat, Session>, fingerprint: nat, now: nat, current: Option<Enrollment>)
    requires Survivors(saved, loaded, fingerprint, now, current)
    requires forall i :: 0 <= i < |saved| ==> saved[i].id < entry.id
    requires entry.fingerprint == fingerprint && entry.expiresAt > now && current.Some? && entry.enrollment == current.value.id
    ensures Survivors(saved + [entry], loaded[entry.id := entry], fingerprint, now, current)
  {
    var all := saved + [entry];
    assert all[|saved|] == entry;
    var more := loaded[entry.id := entry];
    forall id | id in more ensures exists i :: 0 <= i < |all| && all[i].id == id {
      if id != entry.id {
        var i :| 0 <= i < |saved| && saved[i].id == id;
        assert all[i].id == id;
      }
    }
  }

  lemma NewEpoch(epoch: nat, born: map<nat, nat>, refresh: map<nat, Session>, access: map<nat, Access>, retired: set<nat>, saved: seq<Session>, used: set<nat>)
    requires SinceInvalidation(epoch, born, refresh, access) && Gone(retired, refresh, saved, used)
    ensures SinceInvalidation(epoch + 1, born, map[], map[]) && Gone(retired, map[], saved, used) && DistinctTokens(map[])
  {}

  /** Sessions that survive a restart keep the distinct tokens of the saved list. */
  lemma LoadedTokens(saved: seq<Session>, loaded: map<nat, Session>, fingerprint: nat, now: nat, current: Option<Enrollment>, retired: set<nat>, used: set<nat>)
    requires WellSaved(saved, used) && Gone(retired, map[], saved, used)
    requires Survivors(saved, loaded, fingerprint, now, current)
    ensures DistinctTokens(loaded) && Gone(retired, loaded, saved, used)
    ensures forall id :: id in loaded ==>
      loaded[id].id == id && loaded[id].token in used && current.Some? && loaded[id].enrollment == current.value.id
  {
    forall i, j | i in loaded && j in loaded && loaded[i].token == loaded[j].token ensures i == j {
      var a :| 0 <= a < |saved| && saved[a].id == i;
      var b :| 0 <= b < |saved| && saved[b].id == j;
    }
  }

  /** Loaded tokens count as issued in the new process. */
  ghost function Reborn(born: map<nat, nat>, loaded: map<nat, Session>, epoch: nat): map<nat, nat> {
    born + map id | id in loaded :: loaded[id].token := epoch
  }

  lemma LoadedBorn(epoch: nat, born: map<nat, nat>, refresh: map<nat, Session>, access: map<nat, Access>, loaded: map<nat, Session>, used: set<nat>)
    requires SinceInvalidation(epoch, born, refresh, access) && born.Keys <= used
    requires forall id :: id in loaded ==> loaded[id].token in used
    ensures SinceInvalidation(epoch, Reborn(born, loaded, epoch), loaded, map[]) && Reborn(born, loaded, epoch).Keys <= used
  {}

  // ---- Listing the sessions ----

  /** What has been collected of a map while `rest` is still to come. */
  ghost predicate Collected(entries: seq<Session>, refresh: map<nat, Session>, rest: set<nat>) {
    && Ascending(entries)
    && (forall x :: x in entries ==> x.id in refresh && x.id !in rest && refresh[x.id] == x)
    && (forall id :: id in refresh && id !in rest ==> refresh[id] in entries)
  }

  lemma CollectOne(entries: seq<Session>, refresh: map<nat, Session>, rest: set<nat>, id: nat)
    requires Collected(entries, refresh, rest) && id in rest && id in refresh && refresh[id].id == id
    ensures forall i :: 0 <= i < |entries| ==> entries[i].id != id
    ensures Collected(Insert(entries, refresh[id]), refresh, rest - {id})
  {
    assert forall i :: 0 <= i < |entries| ==> entries[i] in entries;
    InsertHolds(entries, refresh[id]);
  }

  method Collect(refresh: map<nat, Session>) returns (entries: seq<Session>)
    requires forall id :: id in refresh ==> refresh[id].id == id
    ensures Lists(entries, refresh)
  {
    hide Collected, Ascending;
    entries := [];
    var rest := refresh.Keys;
    CollectNone(refresh);
    while rest != {}
      invariant rest <= refresh.Keys
      invariant Collected(entries, refresh, rest)
      decreases |rest|
    {
      var id :| id in rest;
      CollectOne(entries, refresh, rest, id);
      CollectedAscend(entries, refresh, rest);
      entries, rest := Insert(entries, refresh[id]), rest - {id};
    }
    CollectedAll(entries, refresh);
  }

  lemma CollectNone(refresh: map<nat, Session>)
    ensures Collected([], refresh, refresh.Keys)
  {}

  lemma CollectedAscend(entries: seq<Session>, refresh: map<nat, Session>, rest: set<nat>)
    requires Collected(entries, refresh, rest)
    ensures Ascending(entries)
  {}

  lemma CollectedAll(entries: seq<Session>, refresh: map<nat, Session>)
    requires Collected(entries, refresh, {}) && forall id :: id in refresh ==> refresh[id].id == id
    ensures Lists(entries, refresh)
  {
    assert forall i :: 0 <= i < |entries| ==> entries[i] in entries;
    forall id | id in refresh ensures exists i :: 0 <= i < |entries| && entries[i].id == id {
      assert refresh[id] in entries;
      var i :| 0 <= i < |entries| && entries[i] == refresh[id];
    }
  }

  lemma ListedTokens(entries: seq<Session>, refresh: map<nat, Session>, retired: set<nat>, used: set<nat>)
    requires Lists(entries, refresh) && DistinctTokens(refresh)
    requires forall id :: id in refresh ==> refresh[id].token in used && refresh[id].token !in retired
    ensures WellSaved(entries, used)
    ensures forall i :: 0 <= i < |entries| ==> entries[i].token !in retired
  {}

  lemma SeenFile(file: Option<Enrollment>, seen: set<nat>, enrolledAt: map<nat, nat>, issued: seq<(nat, nat)>)
    requires Spent(file, seen, enrolledAt, issued)
    ensures file.Some? ==> file.value.id in seen
  {}

  lemma KeyedById(state: State, enrollment: Option<Enrollment>, refresh: map<nat, Session>, access: map<nat, Access>)
    requires Bound(state, enrollment, refresh, access)
    ensures forall id :: id in refresh ==> refresh[id].id == id
  {}

  lemma TokensInUse(epoch: nat, born: map<nat, nat>, refresh: map<nat, Session>, access: map<nat, Access>, used: set<nat>)
    requires SinceInvalidation(epoch, born, refresh, access) && born.Keys <= used
    ensures forall id :: id in refresh ==> refresh[id].token in used
  {}
}
