/** The cache service as it runs: two maps and the refresh promises it has created. Each method is one
    uninterrupted stretch of it and does to the maps what the event of the same name does to a world. */
module AccessTokenCacheService {
  import opened Wrappers
  import TF = TokenFamilies
  import opened TokenCache

  class Service {
    const skew: int
    var cache: map<SessionId, CacheEntry>
    var refreshLocks: map<SessionId, FlightId>
    var promises: seq<Flight>

    constructor (skew: int)
      ensures this.skew == skew && cache == map[] && refreshLocks == map[] && promises == []
    {
      this.skew := skew;
      cache, refreshLocks, promises := map[], map[], [];
    }

    /** The world's cache is this service's. */
    ghost predicate Shows(w: World)
      reads this
    {
      w.skew == skew && w.cache == Cache(cache, refreshLocks) && w.flights == promises
    }

    method ResolveAccessToken(ghost w: World, session: SessionId, cookie: TF.TokenId, now: TF.Instant)
        returns (reply: Reply)
      requires Shows(w)
      modifies this
      ensures Shows(ResolveToken(w, session, cookie, now).0) && reply == ResolveToken(w, session, cookie, now).1
    {
      if session in cache && cache[session].expiresAt - skew > now {
        return Cached(cache[session].access);
      }
      var token := if session in cache then cache[session].refresh else cookie;
      var flight := RefreshWithLock(w, session, token);
      return Awaits(flight);
    }

    method ForceRefresh(ghost w: World, session: SessionId, cookie: TF.TokenId) returns (reply: Reply)
      requires Shows(w)
      modifies this
      ensures Shows(ForceToken(w, session, cookie).0) && reply == ForceToken(w, session, cookie).1
    {
      var current := if session in cache then cache[session].refresh else cookie;
      cache := cache - {session};
      var flight := RefreshWithLock(DropEntry(w, session), session, current);
      return Awaits(flight);
    }

    method RefreshWithLock(ghost w: World, session: SessionId, token: TF.TokenId) returns (flight: FlightId)
      requires Shows(w)
      modifies this`refreshLocks, this`promises
      ensures Shows(TokenCache.RefreshWithLock(w, session, token).0) &&
              flight == TokenCache.RefreshWithLock(w, session, token).1
    {
      if session in refreshLocks {
        return refreshLocks[session];
      }
      flight := |promises|;
      promises := promises + [Flight(session, token, Sent)];
      refreshLocks := refreshLocks[session := flight];
    }

    /** The continuation that stores a refreshed pair. */
    method OnRefreshed(ghost w: World, flight: FlightId, access: AccessToken, expiresAt: TF.Instant)
      requires Shows(w) && flight < |promises| && promises[flight].stage.Rotated?
      modifies this
      ensures Shows(Store(w, flight, access, expiresAt))
    {
      var entry := CacheEntry(access, promises[flight].stage.refresh, expiresAt);
      cache := cache[promises[flight].session := entry];
      promises := promises[flight := promises[flight].(stage := Stored(entry))];
    }

    /** The continuation that removes the lock, whether the refresh succeeded or not. */
    method OnSettled(ghost w: World, flight: FlightId)
      requires Shows(w) && flight < |promises| && (promises[flight].stage.Stored? || promises[flight].stage.Rejected?)
      modifies this
      ensures Shows(Unlock(w, flight))
    {
      var outcome := if promises[flight].stage.Stored? then Some(promises[flight].stage.entry) else None;
      refreshLocks := refreshLocks - {promises[flight].session};
      promises := promises[flight := promises[flight].(stage := Settled(outcome))];
    }

    /** Throws, changing nothing, when the session has no entry. */
    method OverwriteElevated(ghost w: World, session: SessionId, access: AccessToken, expiresAt: TF.Instant)
        returns (thrown: bool)
      requires Shows(w)
      modifies this
      ensures Shows(Step(w, Elevate(session, access, expiresAt))) && thrown == (session !in w.cache.entries)
    {
      if session !in cache {
        return true;
      }
      cache := cache[session := cache[session].(access := access, expiresAt := expiresAt)];
      return false;
    }

    method Seed(ghost w: World, session: SessionId, entry: CacheEntry)
      requires Shows(w)
      modifies this
      ensures Shows(SetEntry(w, session, entry))
    {
      cache := cache[session := entry];
    }

    method Invalidate(ghost w: World, session: SessionId)
      requires Shows(w)
      modifies this
      ensures Shows(Step(w, TokenCache.Invalidate(session)))
    {
      cache := cache - {session};
      refreshLocks := refreshLocks - {session};
    }

    method Sweep(ghost w: World, now: TF.Instant)
      requires Shows(w)
      modifies this
      ensures Shows(Step(w, TokenCache.Sweep(now)))
    {
      var entries, todo := cache, cache.Keys;
      while todo != {}
        invariant todo <= entries.Keys && cache.Keys <= entries.Keys && refreshLocks == w.cache.locks &&
                  promises == w.flights
        invariant forall s :: s in entries ==>
                    (s in cache <==> s in todo || !(now - entries[s].expiresAt > STALE_AFTER && s !in refreshLocks))
        invariant forall s :: s in cache ==> cache[s] == entries[s]
      {
        var session :| session in todo;
        if now - entries[session].expiresAt > STALE_AFTER && session !in refreshLocks {
          cache := cache - {session};
        }
        todo := todo - {session};
      }
    }
  }
}
