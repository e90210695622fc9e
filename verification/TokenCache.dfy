/** The BFF's access-token cache against the backend's token families. Each event is one uninterrupted
    stretch of JavaScript, or the backend handling one refresh call; any order of events is a run. */
module TokenCache {
  import opened Wrappers
  import opened TF = TokenFamilies

  type SessionId = nat
  type FlightId = nat
  type AccessToken = nat

  const STALE_AFTER: int := 10 * 60 * 1000

  datatype CacheEntry = CacheEntry(access: AccessToken, refresh: TokenId, expiresAt: Instant)

  /** A refresh promise: sent, answered by the backend, stored in the cache, its lock removed. */
  datatype Stage =
    | Sent
    | Rotated(refresh: TokenId)
    | Rejected
    | Stored(entry: CacheEntry)
    | Settled(outcome: Option<CacheEntry>)

  datatype Flight = Flight(session: SessionId, token: TokenId, stage: Stage)

  datatype Cache = Cache(entries: map<SessionId, CacheEntry>, locks: map<SessionId, FlightId>)

  /** `family` is the backend family each session's cookie belongs to. */
  datatype World = World(skew: int, keepWrites: bool, auth: Auth, family: map<SessionId, FamilyId>, cache: Cache,
      flights: seq<Flight>)

  datatype Reply = Cached(access: AccessToken) | Awaits(flight: FlightId)

  datatype CacheEvent =
    | SignIn(session: SessionId, user: UserId, tokenExpiresAt: Instant, access: AccessToken, expiresAt: Instant)
    | Resolve(session: SessionId, cookie: TokenId, now: Instant)
    | ForceRefresh(session: SessionId, cookie: TokenId)
    | Backend(flight: FlightId, now: Instant, tokenExpiresAt: Instant)
    | Fail(flight: FlightId)
    | Then(flight: FlightId, access: AccessToken, expiresAt: Instant)
    | Finally(flight: FlightId)
    | Elevate(session: SessionId, access: AccessToken, expiresAt: Instant)
    | Sweep(now: Instant)
    | Invalidate(session: SessionId)
    | Logout(token: TokenId, now: Instant)
    | RevokeSession(user: UserId, token: TokenId, now: Instant)

  // ---- Transitions ----

  function SetEntry(w: World, s: SessionId, entry: CacheEntry): World {
    w.(cache := w.cache.(entries := w.cache.entries[s := entry]))
  }

  function DropEntry(w: World, s: SessionId): World {
    w.(cache := w.cache.(entries := w.cache.entries - {s}))
  }

  /** Joins the refresh in flight for the session, or sends one and locks the session. */
  function RefreshWithLock(w: World, s: SessionId, token: TokenId): (World, FlightId) {
    if s in w.cache.locks then (w, w.cache.locks[s])
    else (w.(cache := w.cache.(locks := w.cache.locks[s := |w.flights|]), flights :=
        w.flights + [Flight(s, token, Sent)]), |w.flights|)
  }

  function KnownToken(w: World, s: SessionId, cookie: TokenId): TokenId {
    if s in w.cache.entries then w.cache.entries[s].refresh else cookie
  }

  function ResolveToken(w: World, s: SessionId, cookie: TokenId, now: Instant): (World, Reply) {
    if s in w.cache.entries && w.cache.entries[s].expiresAt - w.skew > now then (w, Cached(w.cache.entries[s].access))
    else
      var (w', flight) := RefreshWithLock(w, s, KnownToken(w, s, cookie));
      (w', Awaits(flight))
  }

  function ForceToken(w: World, s: SessionId, cookie: TokenId): (World, Reply) {
    var (w', flight) := RefreshWithLock(DropEntry(w, s), s, KnownToken(w, s, cookie));
    (w', Awaits(flight))
  }

  function SetStage(w: World, n: FlightId, stage: Stage): World
    requires n < |w.flights|
  {
    w.(flights := w.flights[n := w.flights[n].(stage := stage)])
  }

  function HandleAtBackend(w: World, n: FlightId, now: Instant, tokenExpiresAt: Instant): World
    requires n < |w.flights|
  {
    var (auth, r) := Rotate(w.auth, w.flights[n].token, now, tokenExpiresAt, w.keepWrites);
    SetStage(w.(auth := auth), n, match r case Success(token) => Rotated(token) case Failure(_) => Rejected)
  }

  function Store(w: World, n: FlightId, access: AccessToken, expiresAt: Instant): World
    requires n < |w.flights| && w.flights[n].stage.Rotated?
  {
    var entry := CacheEntry(access, w.flights[n].stage.refresh, expiresAt);
    SetStage(SetEntry(w, w.flights[n].session, entry), n, Stored(entry))
  }

  function Unlock(w: World, n: FlightId): World
    requires n < |w.flights| && (w.flights[n].stage.Stored? || w.flights[n].stage.Rejected?)
  {
    var stage := if w.flights[n].stage.Stored? then Settled(Some(w.flights[n].stage.entry)) else Settled(None);
    SetStage(w.(cache := w.cache.(locks := w.cache.locks - {w.flights[n].session})), n, stage)
  }

  /** Drops entries long expired, except where a refresh is in flight. */
  function SweepEntries(c: Cache, now: Instant): Cache {
    c.(entries := map s | s in c.entries && !(now - c.entries[s].expiresAt > STALE_AFTER && s !in c.locks) ::
        c.entries[s])
  }

  function Drop(c: Cache, s: SessionId): Cache {
    Cache(c.entries - {s}, c.locks - {s})
  }

  function Step(w: World, e: CacheEvent): World {
    match e
    case SignIn(s, user, tokenExpiresAt, access, expiresAt) =>
      var token := |w.auth.tokens|;
      SetEntry(w.(auth := IssueTokenPair(w.auth, user, tokenExpiresAt), family := w.family[s := token]), s,
          CacheEntry(access, token, expiresAt))
    case Resolve(s, cookie, now) => ResolveToken(w, s, cookie, now).0
    case ForceRefresh(s, cookie) => ForceToken(w, s, cookie).0
    case Backend(n, now, tokenExpiresAt) =>
      if n < |w.flights| && w.flights[n].stage.Sent? then HandleAtBackend(w, n, now, tokenExpiresAt) else w
    case Fail(n) => if n < |w.flights| && w.flights[n].stage.Sent? then SetStage(w, n, Rejected) else w
    case Then(n, access, expiresAt) =>
      if n < |w.flights| && w.flights[n].stage.Rotated? then Store(w, n, access, expiresAt) else w
    case Finally(n) =>
      if n < |w.flights| && (w.flights[n].stage.Stored? || w.flights[n].stage.Rejected?) then Unlock(w, n) else w
    case Elevate(s, access, expiresAt) =>
      if s in w.cache.entries then SetEntry(w, s, w.cache.entries[s].(access := access, expiresAt := expiresAt)) else w
    case Sweep(now) => w.(cache := SweepEntries(w.cache, now))
    case Invalidate(s) => w.(cache := Drop(w.cache, s))
    case Logout(token, now) => w.(auth := SignOut(w.auth, token, now))
    case RevokeSession(user, token, now) => w.(auth := EndSession(w.auth, user, token, now).0)
  }

  // ---- Honest runs ----

  /** The token is unrevoked and belongs to the session's family: it is the family's current one. */
  predicate IsCurrent(w: World, s: SessionId, token: TokenId) {
    s in w.family && Alive(w.auth, token) && w.auth.tokens[token].family == w.family[s]
  }

  /** The token is the family's current one, or the family has ended and has none. */
  ghost predicate CurrentOrEnded(w: World, s: SessionId, token: TokenId) {
    && s in w.family && token < |w.auth.tokens| && w.auth.tokens[token].family == w.family[s]
    && (Alive(w.auth, token) || Dead(w.auth, w.family[s]))
  }

  /** Sign-ins use fresh sessions; a cookie that will be presented is current unless its family has ended;
      nothing invalidates a session while its refresh is in flight. */
  ghost predicate Honest(w: World, e: CacheEvent) {
    match e
    case SignIn(s, _, _, _, _) => s !in w.family
    case Resolve(s, cookie, _) => s in w.family && (s !in w.cache.entries && s !in w.cache.locks ==>
        CurrentOrEnded(w, s, cookie))
    case ForceRefresh(s, cookie) => s in w.family && (s !in w.cache.entries && s !in w.cache.locks ==>
        CurrentOrEnded(w, s, cookie))
    case Invalidate(s) => s !in w.cache.locks
    case _ => true
  }

  function Run(w: World, events: seq<CacheEvent>): World {
    if events == [] then w else Step(Run(w, events[..|events| - 1]), events[|events| - 1])
  }

  ghost predicate HonestRun(w: World, events: seq<CacheEvent>) {
    events == [] || (HonestRun(w, events[..|events| - 1]) &&
        Honest(Run(w, events[..|events| - 1]), events[|events| - 1]))
  }

  predicate Active(f: Flight) {
    !f.stage.Settled?
  }

  /** Sessions own distinct families. */
  ghost predicate FamiliesHold(w: World) {
    && (forall s :: s in w.family ==> w.family[s] < |w.auth.tokens| && w.auth.tokens[w.family[s]].family == w.family[s])
    && (forall s, s' :: s in w.family && s' in w.family && w.family[s] == w.family[s'] ==> s == s')
  }

  /** A session is locked exactly while its one active refresh is in flight. */
  ghost predicate SingleFlight(w: World) {
    && (forall n: nat :: n < |w.flights| && Active(w.flights[n]) ==>
          w.flights[n].session in w.cache.locks && w.cache.locks[w.flights[n].session] == n)
    && (forall s :: s in w.cache.locks ==>
          w.cache.locks[s] < |w.flights| && w.flights[w.cache.locks[s]].session == s &&
              Active(w.flights[w.cache.locks[s]]))
  }

  ghost predicate FlightHolds(w: World, f: Flight) {
    f.session in w.family &&
    match f.stage
    case Sent => CurrentOrEnded(w, f.session, f.token)
    case Rotated(token) => CurrentOrEnded(w, f.session, token)
    case _ => true
  }

  /** A cached refresh token is current or of an ended family, unless a newer one is on its way into the cache. */
  ghost predicate EntryHolds(w: World, s: SessionId)
    requires s in w.cache.entries
  {
    || CurrentOrEnded(w, s, w.cache.entries[s].refresh)
    || (s in w.family && s in w.cache.locks && w.cache.locks[s] < |w.flights| &&
        w.flights[w.cache.locks[s]].stage.Rotated?)
  }

  ghost predicate Good(w: World) {
    && Chained(w.auth) && FamiliesHold(w) && SingleFlight(w)
    && (forall n: nat :: n < |w.flights| ==> FlightHolds(w, w.flights[n]))
    && (forall s :: s in w.cache.entries ==> EntryHolds(w, s))
  }

  // ---- Single flight ----

  /** Single flight is a matter of the flights and the locks. */
  lemma SameSingle(w: World, w': World)
    requires w'.flights == w.flights && w'.cache.locks == w.cache.locks
    ensures SingleFlight(w') == SingleFlight(w)
  {
  }

  lemma RefreshSingle(w: World, s: SessionId, token: TokenId)
    requires SingleFlight(w)
    ensures SingleFlight(RefreshWithLock(w, s, token).0)
  {
  }

  /** A flight may go from one active stage to another. */
  lemma StageSingle(w: World, w': World, n: FlightId, stage: Stage)
    requires SingleFlight(w) && n < |w.flights| && Active(w.flights[n]) && !stage.Settled?
    requires w'.flights == w.flights[n := w.flights[n].(stage := stage)] && w'.cache.locks == w.cache.locks
    ensures SingleFlight(w')
  {
  }

  lemma UnlockSingle(w: World, n: FlightId)
    requires SingleFlight(w) && n < |w.flights| && (w.flights[n].stage.Stored? || w.flights[n].stage.Rejected?)
    ensures SingleFlight(Unlock(w, n))
  {
  }

  lemma InvalidateSingle(w: World, s: SessionId)
    requires SingleFlight(w)
    ensures SingleFlight(Step(w, Invalidate(s))) <==> s !in w.cache.locks
  {
    if s in w.cache.locks {
      assert Active(Step(w, Invalidate(s)).flights[w.cache.locks[s]]);
    }
  }

  lemma BackendSingle(w: World, n: FlightId, now: Instant, tokenExpiresAt: Instant)
    requires SingleFlight(w) && n < |w.flights| && w.flights[n].stage.Sent?
    ensures SingleFlight(HandleAtBackend(w, n, now, tokenExpiresAt))
  {
    var w' := HandleAtBackend(w, n, now, tokenExpiresAt);
    StageSingle(w, w', n, w'.flights[n].stage);
  }

  /** Single flight is kept by every event but one: the invalidation of a session whose refresh is in flight. */
  lemma StepSingle(w: World, e: CacheEvent)
    requires SingleFlight(w)
    ensures SingleFlight(Step(w, e)) <==> !(e.Invalidate? && e.session in w.cache.locks)
  {
    match e
    case Resolve(s, cookie, _) => RefreshSingle(w, s, KnownToken(w, s, cookie));
    case ForceRefresh(s, cookie) =>
      SameSingle(w, DropEntry(w, s));
      RefreshSingle(DropEntry(w, s), s, KnownToken(w, s, cookie));
    case Backend(n, now, tokenExpiresAt) =>
      if n < |w.flights| && w.flights[n].stage.Sent? { BackendSingle(w, n, now, tokenExpiresAt); }
    case Fail(n) => if n < |w.flights| && w.flights[n].stage.Sent? { StageSingle(w, Step(w, e), n, Rejected); }
    case Then(n, access, expiresAt) =>
      if n < |w.flights| && w.flights[n].stage.Rotated? { StageSingle(w, Step(w, e), n, Step(w, e).flights[n].stage); }
    case Finally(n) =>
      if n < |w.flights| && (w.flights[n].stage.Stored? || w.flights[n].stage.Rejected?) { UnlockSingle(w, n); }
    case Invalidate(s) => InvalidateSingle(w, s);
    case _ => SameSingle(w, Step(w, e));
  }

  // ---- Each event keeps the invariant ----

  lemma SignInGood(w: World, e: CacheEvent)
    requires Good(w) && Honest(w, e) && e.SignIn?
    ensures Good(Step(w, e))
  {
    var w' := Step(w, e);
    LoginChained(w.auth, e.user, e.tokenExpiresAt);
    forall n: nat | n < |w'.flights| ensures FlightHolds(w', w'.flights[n]) {
      assert FlightHolds(w, w.flights[n]);
      SignInKeepsCurrent(w, e, w.flights[n].session);
    }
    forall s | s in w'.cache.entries ensures EntryHolds(w', s) {
      if s != e.session {
        assert EntryHolds(w, s);
        SignInKeepsCurrent(w, e, s);
      }
    }
  }

  lemma SignInKeepsCurrent(w: World, e: CacheEvent, s: SessionId)
    requires Chained(w.auth) && FamiliesHold(w) && e.SignIn? && e.session !in w.family
    ensures forall t :: CurrentOrEnded(w, s, t) ==> CurrentOrEnded(Step(w, e), s, t)
  {
    if s in w.family && Dead(w.auth, w.family[s]) {
      NextStaysDead(w.auth, TF.Login(e.user, e.tokenExpiresAt), w.keepWrites, w.family[s]);
    }
  }

  /** Signing a token out keeps another family's tokens as they are, and ends its own. */
  lemma SignOutKeepsCurrent(w: World, token: TokenId, now: Instant, s: SessionId)
    requires Chained(w.auth) && FamiliesHold(w)
    ensures forall t :: CurrentOrEnded(w, s, t) ==> CurrentOrEnded(w.(auth := SignOut(w.auth, token, now)), s, t)
  {
    var a, a' := w.auth, SignOut(w.auth, token, now);
    if s in w.family && Alive(a, token) && a.tokens[token].family == w.family[s] {
      forall i: nat | Alive(a', i) ensures a'.tokens[i].family != w.family[s] {
        if a'.tokens[i].family == w.family[s] {
          AliveIsLast(a, token, i);
          AliveIsLast(a, i, token);
        }
      }
    } else if s in w.family && Dead(a, w.family[s]) {
      NextStaysDead(a, TF.Logout(token, now), w.keepWrites, w.family[s]);
    }
  }

  lemma SignOutGood(w: World, token: TokenId, now: Instant)
    requires Good(w)
    ensures Good(w.(auth := SignOut(w.auth, token, now)))
  {
    var w' := w.(auth := SignOut(w.auth, token, now));
    NextChained(w.auth, TF.Logout(token, now), w.keepWrites);
    forall n: nat | n < |w'.flights| ensures FlightHolds(w', w'.flights[n]) {
      assert FlightHolds(w, w.flights[n]);
      SignOutKeepsCurrent(w, token, now, w.flights[n].session);
    }
    forall s | s in w'.cache.entries ensures EntryHolds(w', s) {
      assert EntryHolds(w, s);
      SignOutKeepsCurrent(w, token, now, s);
    }
  }

  lemma RefreshGood(w: World, s: SessionId, token: TokenId)
    requires Good(w) && s in w.family && (s !in w.cache.locks ==> CurrentOrEnded(w, s, token))
    ensures Good(RefreshWithLock(w, s, token).0)
  {
    var w' := RefreshWithLock(w, s, token).0;
    RefreshSingle(w, s, token);
    forall n: nat | n < |w'.flights| ensures FlightHolds(w', w'.flights[n]) {
      if n < |w.flights| {
        assert FlightHolds(w, w.flights[n]);
      }
    }
    forall x | x in w'.cache.entries ensures EntryHolds(w', x) {
      assert EntryHolds(w, x);
    }
  }

  lemma DropGood(w: World, w': World)
    requires Good(w) && w' == w.(cache := w'.cache) && w'.cache.locks == w.cache.locks
    requires forall s :: s in w'.cache.entries ==> s in w.cache.entries && w'.cache.entries[s] == w.cache.entries[s]
    ensures Good(w')
  {
    forall n: nat | n < |w'.flights| ensures FlightHolds(w', w'.flights[n]) {
      assert FlightHolds(w, w.flights[n]);
    }
    forall s | s in w'.cache.entries ensures EntryHolds(w', s) {
      assert EntryHolds(w, s);
    }
  }

  lemma LockedGood(w: World, n: FlightId)
    requires Good(w) && n < |w.flights| && Active(w.flights[n])
    ensures w.flights[n].session in w.family && w.cache.locks[w.flights[n].session] == n
    ensures FlightHolds(w, w.flights[n])
  {
  }

  /** A rotation leaves every other family's tokens alone, and one that is refused leaves its own family alone too,
      unless that family had a token left to revoke. */
  lemma RotateKeepsCurrent(w: World, n: FlightId, now: Instant, tokenExpiresAt: Instant, s: SessionId, t: TokenId)
    requires Good(w) && n < |w.flights| && w.flights[n].stage.Sent? && CurrentOrEnded(w, s, t)
    requires s != w.flights[n].session ||
             Rotate(w.auth, w.flights[n].token, now, tokenExpiresAt, w.keepWrites).1.Failure?
    ensures CurrentOrEnded(HandleAtBackend(w, n, now, tokenExpiresAt), s, t)
  {
    LockedGood(w, n);
    if Dead(w.auth, w.family[s]) {
      NextStaysDead(w.auth, TF.Refresh(w.flights[n].token, now, tokenExpiresAt), w.keepWrites, w.family[s]);
    }
  }

  /** Rotating the current token of one session leaves every other session's current token alone. */
  lemma BackendGood(w: World, n: FlightId, now: Instant, tokenExpiresAt: Instant)
    requires Good(w) && n < |w.flights| && w.flights[n].stage.Sent?
    ensures Good(HandleAtBackend(w, n, now, tokenExpiresAt))
  {
    var w' := HandleAtBackend(w, n, now, tokenExpiresAt);
    BackendSingle(w, n, now, tokenExpiresAt);
    BackendFamilies(w, n, now, tokenExpiresAt);
    NextChained(w.auth, TF.Refresh(w.flights[n].token, now, tokenExpiresAt), w.keepWrites);
    forall k: nat | k < |w'.flights| ensures FlightHolds(w', w'.flights[k]) {
      BackendFlight(w, n, now, tokenExpiresAt, k);
    }
    forall s | s in w'.cache.entries ensures EntryHolds(w', s) {
      BackendEntry(w, n, now, tokenExpiresAt, s);
    }
  }

  lemma BackendFamilies(w: World, n: FlightId, now: Instant, tokenExpiresAt: Instant)
    requires FamiliesHold(w) && n < |w.flights|
    ensures FamiliesHold(HandleAtBackend(w, n, now, tokenExpiresAt))
  {
  }

  lemma BackendFlight(w: World, n: FlightId, now: Instant, tokenExpiresAt: Instant, k: FlightId)
    requires Good(w) && n < |w.flights| && w.flights[n].stage.Sent? && k < |w.flights|
    ensures var w' := HandleAtBackend(w, n, now, tokenExpiresAt);
            |w'.flights| == |w.flights| && FlightHolds(w', w'.flights[k])
  {
    LockedGood(w, n);
    assert FlightHolds(w, w.flights[k]);
    if k != n && Active(w.flights[k]) {
      LockedGood(w, k);
      var f := w.flights[k];
      if f.stage.Sent? {
        RotateKeepsCurrent(w, n, now, tokenExpiresAt, f.session, f.token);
      } else if f.stage.Rotated? {
        RotateKeepsCurrent(w, n, now, tokenExpiresAt, f.session, f.stage.refresh);
      }
    }
  }

  lemma BackendEntry(w: World, n: FlightId, now: Instant, tokenExpiresAt: Instant, s: SessionId)
    requires Good(w) && n < |w.flights| && w.flights[n].stage.Sent? && s in w.cache.entries
    ensures var w' := HandleAtBackend(w, n, now, tokenExpiresAt);
            s in w'.cache.entries && EntryHolds(w', s)
  {
    LockedGood(w, n);
    assert EntryHolds(w, s);
    var t := w.cache.entries[s].refresh;
    if CurrentOrEnded(w, s, t) &&
        (s != w.flights[n].session ||
        Rotate(w.auth, w.flights[n].token, now, tokenExpiresAt, w.keepWrites).1.Failure?) {
      RotateKeepsCurrent(w, n, now, tokenExpiresAt, s, t);
    }
  }

  lemma FailGood(w: World, n: FlightId)
    requires Good(w) && n < |w.flights| && w.flights[n].stage.Sent?
    ensures Good(SetStage(w, n, Rejected))
  {
    var w' := SetStage(w, n, Rejected);
    LockedGood(w, n);
    StageSingle(w, w', n, Rejected);
    forall k: nat | k < |w'.flights| ensures FlightHolds(w', w'.flights[k]) {
      assert FlightHolds(w, w.flights[k]);
    }
    forall s | s in w'.cache.entries ensures EntryHolds(w', s) {
      assert EntryHolds(w, s);
    }
  }

  lemma ThenGood(w: World, n: FlightId, access: AccessToken, expiresAt: Instant)
    requires Good(w) && n < |w.flights| && w.flights[n].stage.Rotated?
    ensures Good(Store(w, n, access, expiresAt))
  {
    var w' := Store(w, n, access, expiresAt);
    LockedGood(w, n);
    StageSingle(w, w', n, w'.flights[n].stage);
    forall k: nat | k < |w'.flights| ensures FlightHolds(w', w'.flights[k]) {
      assert FlightHolds(w, w.flights[k]);
    }
    forall s | s in w'.cache.entries ensures EntryHolds(w', s) {
      if s != w.flights[n].session {
        assert EntryHolds(w, s);
      }
    }
  }

  lemma FinallyGood(w: World, n: FlightId)
    requires Good(w) && n < |w.flights| && (w.flights[n].stage.Stored? || w.flights[n].stage.Rejected?)
    ensures Good(Unlock(w, n))
  {
    var w' := Unlock(w, n);
    LockedGood(w, n);
    UnlockSingle(w, n);
    forall k: nat | k < |w'.flights| ensures FlightHolds(w', w'.flights[k]) {
      assert FlightHolds(w, w.flights[k]);
    }
    forall s | s in w'.cache.entries ensures EntryHolds(w', s) {
      assert EntryHolds(w, s);
    }
  }

  lemma ElevateGood(w: World, e: CacheEvent)
    requires Good(w) && e.Elevate?
    ensures Good(Step(w, e))
  {
    var w' := Step(w, e);
    forall n: nat | n < |w'.flights| ensures FlightHolds(w', w'.flights[n]) {
      assert FlightHolds(w, w.flights[n]);
    }
    forall s | s in w'.cache.entries ensures EntryHolds(w', s) {
      assert EntryHolds(w, s);
    }
  }

  lemma ResolveGood(w: World, s: SessionId, cookie: TokenId, now: Instant)
    requires Good(w) && Honest(w, Resolve(s, cookie, now))
    ensures Good(Step(w, Resolve(s, cookie, now)))
  {
    if s in w.cache.entries { assert EntryHolds(w, s); }
    RefreshGood(w, s, KnownToken(w, s, cookie));
  }

  lemma InvalidateGood(w: World, s: SessionId)
    requires Good(w) && s !in w.cache.locks
    ensures Good(Step(w, Invalidate(s)))
  {
    assert w.cache.locks - {s} == w.cache.locks;
    DropGood(w, Step(w, Invalidate(s)));
  }

  lemma ForceGood(w: World, s: SessionId, cookie: TokenId)
    requires Good(w) && Honest(w, ForceRefresh(s, cookie))
    ensures Good(Step(w, ForceRefresh(s, cookie)))
  {
    if s in w.cache.entries { assert EntryHolds(w, s); }
    DropGood(w, DropEntry(w, s));
    RefreshGood(DropEntry(w, s), s, KnownToken(w, s, cookie));
  }

  lemma StepGood(w: World, e: CacheEvent)
    requires Good(w) && Honest(w, e)
    ensures Good(Step(w, e))
  {
    match e
    case SignIn(_, _, _, _, _) => SignInGood(w, e);
    case Resolve(s, cookie, now) => ResolveGood(w, s, cookie, now);
    case ForceRefresh(s, cookie) => ForceGood(w, s, cookie);
    case Backend(n, now, tokenExpiresAt) =>
      if n < |w.flights| && w.flights[n].stage.Sent? { BackendGood(w, n, now, tokenExpiresAt); }
    case Elevate(_, _, _) => ElevateGood(w, e);
    case Sweep(now) => DropGood(w, Step(w, e));
    case Invalidate(s) => InvalidateGood(w, s);
    case Fail(n) => if n < |w.flights| && w.flights[n].stage.Sent? { FailGood(w, n); }
    case Then(n, access, expiresAt) =>
      if n < |w.flights| && w.flights[n].stage.Rotated? { ThenGood(w, n, access, expiresAt); }
    case Finally(n) =>
      if n < |w.flights| && (w.flights[n].stage.Stored? || w.flights[n].stage.Rejected?) { FinallyGood(w, n); }
    case Logout(token, now) => SignOutGood(w, token, now);
    case RevokeSession(user, token, now) =>
      if token < |w.auth.tokens| && w.auth.tokens[token].user == user { SignOutGood(w, token, now); }
  }

  lemma {:induction false} RunGood(w: World, events: seq<CacheEvent>)
    requires Good(w) && HonestRun(w, events)
    ensures Good(Run(w, events))
  {
    if events != [] {
      RunGood(w, events[..|events| - 1]);
      StepGood(Run(w, events[..|events| - 1]), events[|events| - 1]);
    }
  }

  /** In an honest run every refresh call the backend handles carries the session's current token, or one of a
      family that a sign-out has ended; it is taken for a reuse exactly in that case. */
  lemma ReusedOnlyWhenEnded(w: World, events: seq<CacheEvent>, n: FlightId, now: Instant, tokenExpiresAt: Instant)
    requires Good(w) && HonestRun(w, events) && n < |Run(w, events).flights| && Run(w, events).flights[n].stage.Sent?
    ensures var w' := Run(w, events);
            var f := w'.flights[n];
            && CurrentOrEnded(w', f.session, f.token)
            && (Rotate(w'.auth, f.token, now, tokenExpiresAt, w'.keepWrites).1 == Failure(Reused) <==>
                Dead(w'.auth, w'.family[f.session]))
  {
    RunGood(w, events);
    assert FlightHolds(Run(w, events), Run(w, events).flights[n]);
  }

  /** The event signs out a token of the session's family at the backend. */
  predicate SignsOut(w: World, e: CacheEvent, s: SessionId) {
    && s in w.family
    && match e
       case Logout(token, _) => token < |w.auth.tokens| && w.auth.tokens[token].family == w.family[s]
       case RevokeSession(user, token, _) =>
         token < |w.auth.tokens| && w.auth.tokens[token].family == w.family[s] && w.auth.tokens[token].user == user
       case _ => false
  }

  predicate StaysSignedIn(w: World, events: seq<CacheEvent>, s: SessionId) {
    events == [] ||
    (StaysSignedIn(w, events[..|events| - 1], s) && !SignsOut(Run(w, events[..|events| - 1]), events[|events| - 1], s))
  }

  ghost predicate Live(w: World, s: SessionId) {
    s in w.family ==> !Dead(w.auth, w.family[s])
  }

  lemma StaysLive(a: Auth, a': Auth, family: FamilyId, t: TokenId, t': TokenId)
    requires Alive(a, t) && a.tokens[t].family == family
    requires Alive(a', t') && a'.tokens[t'].family == family
    ensures !Dead(a', family)
  {
  }

  /** The backend's answer to an honest call ends no family. */
  lemma BackendKeepsLive(w: World, n: FlightId, now: Instant, tokenExpiresAt: Instant, s: SessionId)
    requires Good(w) && n < |w.flights| && w.flights[n].stage.Sent? && s in w.family && Live(w, s)
    ensures Live(HandleAtBackend(w, n, now, tokenExpiresAt), s)
  {
    var t: nat :| Alive(w.auth, t) && w.auth.tokens[t].family == w.family[s];
    var f, w' := w.flights[n], HandleAtBackend(w, n, now, tokenExpiresAt);
    LockedGood(w, n);
    if f.token == t && Rotate(w.auth, t, now, tokenExpiresAt, w.keepWrites).1.Success? {
      StaysLive(w.auth, w'.auth, w.family[s], t, |w.auth.tokens|);
    } else if s != f.session || Rotate(w.auth, f.token, now, tokenExpiresAt, w.keepWrites).1.Failure? {
      RotateKeepsCurrent(w, n, now, tokenExpiresAt, s, t);
      StaysLive(w.auth, w'.auth, w.family[s], t, t);
    } else {
      AliveIsLast(w.auth, t, f.token);
      AliveIsLast(w.auth, f.token, t);
    }
  }

  lemma OtherKeepsLive(w: World, e: CacheEvent, s: SessionId)
    requires Honest(w, e) && s in w.family && Live(w, s) && !SignsOut(w, e, s) && !e.Backend?
    ensures Live(Step(w, e), s)
  {
    var t: nat :| Alive(w.auth, t) && w.auth.tokens[t].family == w.family[s];
    StaysLive(w.auth, Step(w, e).auth, w.family[s], t, t);
  }

  lemma StepKeepsLive(w: World, e: CacheEvent, s: SessionId)
    requires Good(w) && Honest(w, e) && Live(w, s) && !SignsOut(w, e, s)
    ensures Live(Step(w, e), s)
  {
    var w' := Step(w, e);
    if s in w.family && e.Backend? {
      if e.flight < |w.flights| && w.flights[e.flight].stage.Sent? {
        BackendKeepsLive(w, e.flight, e.now, e.tokenExpiresAt, s);
      }
    } else if s in w.family {
      OtherKeepsLive(w, e, s);
    } else if s in w'.family {
      assert Alive(w'.auth, |w.auth.tokens|);
    }
  }

  lemma {:induction false} RunKeepsLive(w: World, events: seq<CacheEvent>, s: SessionId)
    requires Good(w) && HonestRun(w, events) && Live(w, s) && StaysSignedIn(w, events, s)
    ensures Live(Run(w, events), s)
  {
    if events != [] {
      var before := events[..|events| - 1];
      RunKeepsLive(w, before, s);
      RunGood(w, before);
      StepKeepsLive(Run(w, before), events[|events| - 1], s);
    }
  }

  /** In an honest run, while nobody signs the session out, every refresh call the backend handles for it carries
      its current token, so none is ever taken for a reuse. */
  lemma NeverReused(w: World, events: seq<CacheEvent>, n: FlightId, now: Instant, tokenExpiresAt: Instant)
    requires Good(w) && HonestRun(w, events) && n < |Run(w, events).flights| && Run(w, events).flights[n].stage.Sent?
    requires var s := Run(w, events).flights[n].session; Live(w, s) && StaysSignedIn(w, events, s)
    ensures var w' := Run(w, events);
            && IsCurrent(w', w'.flights[n].session, w'.flights[n].token)
            && Rotate(w'.auth, w'.flights[n].token, now, tokenExpiresAt, w'.keepWrites).1 != Failure(Reused)
  {
    ReusedOnlyWhenEnded(w, events, n, now, tokenExpiresAt);
    RunKeepsLive(w, events, Run(w, events).flights[n].session);
  }

  /** Before anyone has signed in. */
  function Empty(skew: int, keepWrites: bool, users: set<UserId>): World {
    World(skew, keepWrites, Auth(users, []), map[], Cache(map[], map[]), [])
  }

  lemma EmptyGood(skew: int, keepWrites: bool, users: set<UserId>)
    ensures Good(Empty(skew, keepWrites, users))
  {
  }

  lemma SignInFirst(w: World, s: SessionId, user: UserId, at: Instant)
    requires w == Empty(w.skew, w.keepWrites, w.auth.users) && user in w.auth.users
    ensures var e := SignIn(s, user, at, 0, at);
            HonestRun(w, [e]) && Run(w, [e]) == Step(w, e) && s in Step(w, e).cache.entries && s in Step(w, e).family &&
            Step(w, e).cache.entries[s].refresh == 0 && Step(w, e).flights == [] && Step(w, e).cache.locks == map[]
  {
    var e := SignIn(s, user, at, 0, at);
    assert [e][..0] == [];
    assert HonestRun(w, []) && Run(w, []) == w;
  }

  /** Honest runs exist: from the empty world a user signs in and, when the entry is forced out, sends a
      refresh call. */
  lemma FirstRefresh(w: World, s: SessionId, user: UserId, cookie: TokenId, at: Instant)
    requires w == Empty(w.skew, w.keepWrites, w.auth.users) && user in w.auth.users
    ensures var events := [SignIn(s, user, at, 0, at), ForceRefresh(s, cookie)];
            Good(w) && HonestRun(w, events) && Run(w, events).flights == [Flight(s, 0, Sent)]
  {
    var e1, e2 := SignIn(s, user, at, 0, at), ForceRefresh(s, cookie);
    EmptyGood(w.skew, w.keepWrites, w.auth.users);
    SignInFirst(w, s, user, at);
    assert [e1, e2][..1] == [e1];
    assert HonestRun(w, [e1]);
    assert Honest(Run(w, [e1]), e2);
    assert Run(w, [e1, e2]) == Step(Run(w, [e1]), e2);
  }

  predicate InFlight(w: World, s: SessionId, n: FlightId) {
    n < |w.flights| && Active(w.flights[n]) && w.flights[n].session == s
  }

  /** No session is invalidated while its refresh is in flight. */
  predicate Undisturbed(w: World, events: seq<CacheEvent>) {
    events == [] ||
    (var e := events[|events| - 1];
     Undisturbed(w, events[..|events| - 1]) &&
         !(e.Invalidate? && e.session in Run(w, events[..|events| - 1]).cache.locks))
  }

  lemma {:induction false} RunSingle(w: World, events: seq<CacheEvent>)
    requires SingleFlight(w) && Undisturbed(w, events)
    ensures SingleFlight(Run(w, events))
  {
    if events != [] {
      RunSingle(w, events[..|events| - 1]);
      StepSingle(Run(w, events[..|events| - 1]), events[|events| - 1]);
    }
  }

  /** Whatever cookies are presented and however sessions are reused, a session has at most one refresh in flight,
      and it is locked exactly then. */
  lemma OneRefreshAtATime(w: World, events: seq<CacheEvent>, s: SessionId)
    requires SingleFlight(w) && Undisturbed(w, events)
    ensures var w' := Run(w, events);
            && (forall n, k :: InFlight(w', s, n) && InFlight(w', s, k) ==> n == k)
            && (s in w'.cache.locks <==> exists n :: InFlight(w', s, n))
  {
    RunSingle(w, events);
    var w' := Run(w, events);
    if s in w'.cache.locks {
      assert InFlight(w', s, w'.cache.locks[s]);
    }
  }

  /** A caller gets the cached access token exactly when it is valid for longer than the skew; otherwise it waits for a
      refresh, the one in flight or a new one that carries the cached refresh token, or the cookie's if none is
      cached. */
  lemma ResolveAnswer(w: World, s: SessionId, cookie: TokenId, now: Instant)
    ensures
      var (w', reply) := ResolveToken(w, s, cookie, now);
      if s in w.cache.entries && w.cache.entries[s].expiresAt - w.skew > now then
        reply == Cached(w.cache.entries[s].access) && w' == w
      else if s in w.cache.locks then reply == Awaits(w.cache.locks[s]) && w' == w
      else
        var token := if s in w.cache.entries then w.cache.entries[s].refresh else cookie;
        && reply == Awaits(|w.flights|) && w'.flights == w.flights + [Flight(s, token, Sent)]
        && w'.cache == Cache(w.cache.entries, w.cache.locks[s := |w.flights|])
        && w' == w.(flights := w'.flights, cache := w'.cache)
  {
  }

  /** A forced refresh drops the cached access token in any case, and never answers from the cache. */
  lemma ForceAnswer(w: World, s: SessionId, cookie: TokenId)
    ensures
      var (w', reply) := ForceToken(w, s, cookie);
      var entries := w.cache.entries - {s};
      if s in w.cache.locks then
        reply == Awaits(w.cache.locks[s]) && w' == w.(cache := Cache(entries, w.cache.locks))
      else
        var token := if s in w.cache.entries then w.cache.entries[s].refresh else cookie;
        && reply == Awaits(|w.flights|) && w'.flights == w.flights + [Flight(s, token, Sent)]
        && w'.cache == Cache(entries, w.cache.locks[s := |w.flights|])
        && w' == w.(flights := w'.flights, cache := w'.cache)
  {
  }

  /** The refreshed pair becomes the session's entry and what everyone who waits is given. */
  lemma ThenEffect(w: World, n: FlightId, access: AccessToken, expiresAt: Instant)
    requires n < |w.flights| && w.flights[n].stage.Rotated?
    ensures
      var w' := Step(w, Then(n, access, expiresAt));
      var entry := CacheEntry(access, w.flights[n].stage.refresh, expiresAt);
      && w'.cache.entries == w.cache.entries[w.flights[n].session := entry] && w'.cache.locks == w.cache.locks
      && |w'.flights| == |w.flights| && Decided(w'.flights[n]) && Outcome(w'.flights[n]) == Some(entry)
      && w'.auth == w.auth
  {
  }

  /** A sign-in opens a family at the backend and seeds the session's entry with its pair. */
  lemma SignInEffect(w: World, s: SessionId, user: UserId, tokenExpiresAt: Instant, access: AccessToken, at: Instant)
    ensures
      var w', t := Step(w, SignIn(s, user, tokenExpiresAt, access, at)), |w.auth.tokens|;
      && w'.auth == IssueTokenPair(w.auth, user, tokenExpiresAt) && w'.family == w.family[s := t]
      && w'.cache == Cache(w.cache.entries[s := CacheEntry(access, t, at)], w.cache.locks) && w'.flights == w.flights
  {
  }

  /** What the backend makes of a refresh call: a usable token of a known user is rotated, anything else is rejected. */
  lemma BackendEffect(w: World, n: FlightId, now: Instant, tokenExpiresAt: Instant)
    requires n < |w.flights| && w.flights[n].stage.Sent?
    ensures
      var w', t, a := Step(w, Backend(n, now, tokenExpiresAt)), w.flights[n].token, w.auth;
      var usable := t < |a.tokens| && a.tokens[t].revokedAt == None && now <= a.tokens[t].expiresAt &&
          a.tokens[t].user in a.users;
      && w'.auth == Rotate(a, t, now, tokenExpiresAt, w.keepWrites).0 && w'.cache == w.cache
      && w'.flights == w.flights[n := w.flights[n].(stage := if usable then Rotated(|a.tokens|) else Rejected)]
  {
  }

  /** The clean-up removes the session's lock; who waits is given the stored entry, or the failure. */
  lemma FinallyEffect(w: World, n: FlightId)
    requires n < |w.flights| && (w.flights[n].stage.Stored? || w.flights[n].stage.Rejected?)
    ensures
      var w', f := Step(w, Finally(n)), w.flights[n];
      && w'.cache == Cache(w.cache.entries, w.cache.locks - {f.session}) && w'.auth == w.auth
      && w'.flights == w.flights[n := f.(stage := Settled(if f.stage.Stored? then Some(f.stage.entry) else None))]
  {
  }

  /** An elevated token replaces access token and expiry only; sweeping drops exactly the entries that expired more than
      ten minutes ago and whose session is not being refreshed; invalidating forgets the session. */
  lemma CacheEffects(w: World, s: SessionId, access: AccessToken, at: Instant)
    ensures
      var before := w.cache.entries;
      && Step(w, Elevate(s, access, at)).cache ==
           (if s in before then Cache(before[s := CacheEntry(access, before[s].refresh, at)], w.cache.locks)
               else w.cache)
      && Step(w, Sweep(at)).cache.locks == w.cache.locks
      && (forall x :: x in Step(w, Sweep(at)).cache.entries <==>
            x in before && (at - before[x].expiresAt <= 600_000 || x in w.cache.locks))
      && (forall x :: x in Step(w, Sweep(at)).cache.entries ==> Step(w, Sweep(at)).cache.entries[x] == before[x])
      && Step(w, Invalidate(s)).cache == Cache(before - {s}, w.cache.locks - {s})
  {
  }

  /** Whoever needs a token while the session is locked waits for that same refresh and sends none. */
  lemma LockedCallersJoin(w: World, s: SessionId, cookie: TokenId, now: Instant)
    requires s in w.cache.locks
    ensures ForceToken(w, s, cookie) == (DropEntry(w, s), Awaits(w.cache.locks[s]))
    ensures ResolveToken(w, s, cookie, now).1.Awaits? ==>
            ResolveToken(w, s, cookie, now) == (w, Awaits(w.cache.locks[s]))
  {
  }

  function Outcome(f: Flight): Option<CacheEntry> {
    match f.stage
    case Stored(entry) => Some(entry)
    case Settled(outcome) => outcome
    case _ => None
  }

  predicate Decided(f: Flight) {
    f.stage.Stored? || f.stage.Settled?
  }

  lemma OutcomeStep(w: World, e: CacheEvent, n: FlightId)
    requires n < |w.flights| && Decided(w.flights[n])
    ensures n < |Step(w, e).flights| && Decided(Step(w, e).flights[n]) &&
            Outcome(Step(w, e).flights[n]) == Outcome(w.flights[n])
  {
  }

  /** What a refresh resolved to never changes, so all who wait for it receive the same entry. */
  lemma {:induction false} OutcomeStays(w: World, events: seq<CacheEvent>, n: FlightId)
    requires n < |w.flights| && Decided(w.flights[n])
    ensures n < |Run(w, events).flights| && Decided(Run(w, events).flights[n])
    ensures Outcome(Run(w, events).flights[n]) == Outcome(w.flights[n])
  {
    if events != [] {
      OutcomeStays(w, events[..|events| - 1], n);
      OutcomeStep(Run(w, events[..|events| - 1]), events[|events| - 1], n);
    }
  }

  // ---- Invalidating a session while its refresh is in flight ----

  lemma RunSnoc(w: World, events: seq<CacheEvent>, e: CacheEvent)
    ensures Run(w, events + [e]) == Step(Run(w, events), e)
    ensures HonestRun(w, events + [e]) <==> HonestRun(w, events) && Honest(Run(w, events), e)
  {
    assert (events + [e])[..|events|] == events;
  }

  /** A call on its way to the backend carries a revoked token of a family that still has an unrevoked one. */
  ghost predicate WillBeReused(w: World, n: FlightId) {
    && n < |w.flights| && w.flights[n].stage.Sent? && w.flights[n].token < |w.auth.tokens| &&
        !Alive(w.auth, w.flights[n].token)
    && !Dead(w.auth, w.auth.tokens[w.flights[n].token].family)
  }

  /** What follows the invalidation: with the call still unanswered, a second call is sent and the first
      answered; otherwise the first call's clean-up unlocks the second, so that a third can be sent. */
  function UnsafeEvents(w: World, s: SessionId, t: TokenId): seq<CacheEvent>
    requires t < |w.auth.tokens| && s in w.cache.locks && w.cache.locks[s] < |w.flights|
  {
    var n, due := w.cache.locks[s], w.auth.tokens[t].expiresAt;
    if w.flights[n].stage.Sent? then [Resolve(s, t, due), Backend(n, due, due)]
    else [Resolve(s, t, due), Then(n, 0, due), Finally(n), ForceRefresh(s, t), Backend(|w.flights|, due, due)]
  }

  lemma BackendRevokes(w: World, n: FlightId, t: TokenId)
    requires n < |w.flights| && w.flights[n].stage.Sent? && w.flights[n].token == t && Alive(w.auth, t) &&
             w.auth.tokens[t].user in w.auth.users
    ensures var w' := Step(w, Backend(n, w.auth.tokens[t].expiresAt, w.auth.tokens[t].expiresAt));
            !Alive(w'.auth, t) && |w'.auth.tokens| > t && !Dead(w'.auth, w'.auth.tokens[t].family) &&
                |w'.flights| == |w.flights| && forall k: nat :: k < |w.flights| && k != n ==>
                w'.flights[k] == w.flights[k]
  {
    var w' := Step(w, Backend(n, w.auth.tokens[t].expiresAt, w.auth.tokens[t].expiresAt));
    StaysLive(w.auth, w'.auth, w.auth.tokens[t].family, t, |w.auth.tokens|);
  }

  lemma SentUnsafe(w: World, s: SessionId, t: TokenId)
    requires Good(w) && s in w.cache.locks && w.flights[w.cache.locks[s]].stage.Sent?
    requires IsCurrent(w, s, t) && w.auth.tokens[t].user in w.auth.users
    ensures var w1 := Step(w, Invalidate(s));
            HonestRun(w1, UnsafeEvents(w, s, t)) && WillBeReused(Run(w1, UnsafeEvents(w, s, t)), |w.flights|)
  {
    var n, due := w.cache.locks[s], w.auth.tokens[t].expiresAt;
    var w1 := Step(w, Invalidate(s));
    assert FlightHolds(w, w.flights[n]);
    assert Alive(w.auth, w.flights[n].token);
    AliveIsLast(w.auth, t, w.flights[n].token);
    var e2, e3 := Resolve(s, t, due), Backend(n, due, due);
    RunSnoc(w1, [], e2);
    RunSnoc(w1, [e2], e3);
    assert [] + [e2] == [e2] && [e2] + [e3] == UnsafeEvents(w, s, t);
    var w2 := Step(w1, e2);
    assert w2.flights == w.flights + [Flight(s, t, Sent)] && w2.auth == w.auth;
    BackendRevokes(w2, n, t);
  }

  /** The answered call's clean-up removes a lock it does not own. */
  lemma CleanUpUnlocks(w: World, s: SessionId, n: FlightId, t: TokenId, due: Instant)
    requires n < |w.flights| && w.flights[n].session == s && s !in w.cache.entries
    requires w.flights[n].stage == Rotated(t) || w.flights[n].stage.Stored? || w.flights[n].stage.Rejected?
    ensures var w' := Step(Step(w, Then(n, 0, due)), Finally(n));
            && s !in w'.cache.locks && KnownToken(w', s, t) == t && w'.auth == w.auth && w'.family == w.family
            && |w'.flights| == |w.flights| && forall k: nat :: k < |w.flights| && k != n ==>
                w'.flights[k] == w.flights[k]
  {
  }

  lemma FiveSteps(w: World, e1: CacheEvent, e2: CacheEvent, e3: CacheEvent, e4: CacheEvent, e5: CacheEvent)
    ensures Run(w, [e1, e2, e3, e4, e5]) == Step(Step(Step(Step(Step(w, e1), e2), e3), e4), e5)
    ensures HonestRun(w, [e1, e2, e3, e4, e5]) <==>
              Honest(w, e1) && Honest(Step(w, e1), e2) && Honest(Step(Step(w, e1), e2), e3)
              && Honest(Step(Step(Step(w, e1), e2), e3), e4) && Honest(Step(Step(Step(Step(w, e1), e2), e3), e4), e5)
  {
    RunSnoc(w, [], e1);
    RunSnoc(w, [e1], e2);
    RunSnoc(w, [e1, e2], e3);
    RunSnoc(w, [e1, e2, e3], e4);
    RunSnoc(w, [e1, e2, e3, e4], e5);
    assert [] + [e1] == [e1] && [e1] + [e2] == [e1, e2] && [e1, e2] + [e3] == [e1, e2, e3];
    assert [e1, e2, e3] + [e4] == [e1, e2, e3, e4] && [e1, e2, e3, e4] + [e5] == [e1, e2, e3, e4, e5];
  }

  lemma ForcedSecondCall(w: World, s: SessionId, m: FlightId, t: TokenId)
    requires m < |w.flights| && w.flights[m] == Flight(s, t, Sent) && s !in w.cache.locks && KnownToken(w, s, t) == t
    requires Alive(w.auth, t) && w.auth.tokens[t].user in w.auth.users
    ensures var due := w.auth.tokens[t].expiresAt;
            WillBeReused(Step(Step(w, ForceRefresh(s, t)), Backend(m, due, due)), |w.flights|)
  {
    var w' := Step(w, ForceRefresh(s, t));
    assert w'.flights == w.flights + [Flight(s, t, Sent)] && w'.auth == w.auth;
    BackendRevokes(w', m, t);
  }

  lemma ResolveSends(w: World, s: SessionId, t: TokenId, now: Instant)
    requires s !in w.cache.entries && s !in w.cache.locks
    ensures var w' := Step(w, Resolve(s, t, now));
            w'.flights == w.flights + [Flight(s, t, Sent)] && w'.auth == w.auth && w'.family == w.family &&
                w'.cache.entries == w.cache.entries
  {
  }

  lemma AnsweredUnsafe(w: World, s: SessionId, n: FlightId, t: TokenId)
    requires s !in w.cache.entries && s !in w.cache.locks && n < |w.flights| && w.flights[n].session == s
    requires w.flights[n].stage == Rotated(t) || w.flights[n].stage.Stored? || w.flights[n].stage.Rejected?
    requires IsCurrent(w, s, t) && w.auth.tokens[t].user in w.auth.users
    ensures var due := w.auth.tokens[t].expiresAt;
            var events := [Resolve(s, t, due), Then(n, 0, due), Finally(n), ForceRefresh(s, t),
                Backend(|w.flights|, due, due)];
            HonestRun(w, events) && WillBeReused(Run(w, events), |w.flights| + 1)
  {
    var due := w.auth.tokens[t].expiresAt;
    FiveSteps(w, Resolve(s, t, due), Then(n, 0, due), Finally(n), ForceRefresh(s, t), Backend(|w.flights|, due, due));
    ResolveSends(w, s, t, due);
    var w2 := Step(w, Resolve(s, t, due));
    CleanUpUnlocks(w2, s, n, t, due);
    ForcedSecondCall(Step(Step(w2, Then(n, 0, due)), Finally(n)), s, |w.flights|, t);
  }

  /** Invalidating a session whose refresh is in flight can always be followed, through honest events only,
      by a refresh call that the backend takes for a reuse. */
  lemma InvalidateInFlightUnsafe(w: World, s: SessionId, t: TokenId)
    requires Good(w) && s in w.cache.locks && IsCurrent(w, s, t) && w.auth.tokens[t].user in w.auth.users
    ensures var w1 := Step(w, Invalidate(s));
            HonestRun(w1, UnsafeEvents(w, s, t)) && exists n :: WillBeReused(Run(w1, UnsafeEvents(w, s, t)), n)
  {
    var n := w.cache.locks[s];
    if w.flights[n].stage.Sent? {
      SentUnsafe(w, s, t);
    } else {
      assert FlightHolds(w, w.flights[n]);
      if w.flights[n].stage.Rotated? {
        AliveIsLast(w.auth, t, w.flights[n].stage.refresh);
      }
      AnsweredUnsafe(Step(w, Invalidate(s)), s, n, t);
    }
  }
}
