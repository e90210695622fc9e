/** Refresh-token families: issue, rotation, reuse detection, logout and session revocation.
    A token's id, its raw value and its place in issue order are one number, all of them being fresh;
    a family is named by its first token. */
module TokenFamilies {
  import opened Wrappers

  type UserId = nat
  type Instant = int
  type TokenId = nat
  type FamilyId = nat

  datatype Token = Token(user: UserId, family: FamilyId, expiresAt: Instant, revokedAt: Option<Instant>,
      replacedBy: Option<TokenId>)

  datatype Auth = Auth(users: set<UserId>, tokens: seq<Token>)

  datatype RefreshFailure = Unknown | Reused | Expired | NoUser

  datatype Event =
    | Login(user: UserId, expiresAt: Instant)
    | Refresh(raw: TokenId, now: Instant, expiresAt: Instant)
    | Logout(raw: TokenId, now: Instant)
    | RevokeSession(user: UserId, id: TokenId, now: Instant)

  // ---- Operations ----

  function Issue(a: Auth, user: UserId, family: FamilyId, expiresAt: Instant): Auth {
    a.(tokens := a.tokens + [Token(user, family, expiresAt, None, None)])
  }

  /** A login starts a family of its own. */
  function IssueTokenPair(a: Auth, user: UserId, expiresAt: Instant): Auth {
    Issue(a, user, |a.tokens|, expiresAt)
  }

  function Revoke(t: Token, now: Instant, replacedBy: Option<TokenId>): Token {
    t.(revokedAt := Some(now), replacedBy := replacedBy)
  }

  function RevokeAt(a: Auth, id: TokenId, now: Instant, replacedBy: Option<TokenId>): Auth
    requires id < |a.tokens|
  {
    a.(tokens := a.tokens[id := Revoke(a.tokens[id], now, replacedBy)])
  }

  /** Revokes whatever in the family is not revoked yet. */
  function RevokeFamily(a: Auth, family: FamilyId, now: Instant): Auth {
    a.(tokens := seq(|a.tokens|, i requires 0 <= i < |a.tokens| =>
      if a.tokens[i].family == family && a.tokens[i].revokedAt.None? then Revoke(a.tokens[i], now, None)
          else a.tokens[i]))
  }

  /** `keepWrites` says whether what was written before the exception for a reused token is committed
      or rolled back with it. */
  function Rotate(a: Auth, raw: TokenId, now: Instant, expiresAt: Instant,
      keepWrites: bool): (Auth, Result<TokenId, RefreshFailure>) {
    if raw >= |a.tokens| then (a, Failure(Unknown))
    else
      var existing := a.tokens[raw];
      if existing.revokedAt.Some? then
        (if keepWrites then RevokeFamily(a, existing.family, now) else a, Failure(Reused))
      else if existing.expiresAt < now then (a, Failure(Expired))
      else if existing.user !in a.users then (a, Failure(NoUser))
      else (RevokeAt(Issue(a, existing.user, existing.family, expiresAt), raw, now, Some(|a.tokens|)),
          Success(|a.tokens|))
  }

  function SignOut(a: Auth, raw: TokenId, now: Instant): Auth {
    if raw < |a.tokens| && a.tokens[raw].revokedAt.None? then RevokeAt(a, raw, now, None) else a
  }

  function EndSession(a: Auth, user: UserId, id: TokenId, now: Instant): (Auth, bool) {
    if id < |a.tokens| && a.tokens[id].user == user then (SignOut(a, id, now), true) else (a, false)
  }

  function Next(a: Auth, e: Event, keepWrites: bool): Auth {
    match e
    case Login(user, expiresAt) => IssueTokenPair(a, user, expiresAt)
    case Refresh(raw, now, expiresAt) => Rotate(a, raw, now, expiresAt, keepWrites).0
    case Logout(raw, now) => SignOut(a, raw, now)
    case RevokeSession(user, id, now) => EndSession(a, user, id, now).0
  }

  function Run(a: Auth, events: seq<Event>, keepWrites: bool): Auth {
    if events == [] then a else Next(Run(a, events[..|events| - 1], keepWrites), events[|events| - 1], keepWrites)
  }

  // ---- Each family is one chain ----

  predicate SameFamily(ts: seq<Token>, i: nat, j: nat)
    requires i < |ts| && j < |ts|
  {
    ts[i].family == ts[j].family
  }

  /** No token of i's family lies strictly between i and j. */
  ghost predicate NoneBetween(ts: seq<Token>, i: nat, j: nat)
    requires i < |ts| && j <= |ts|
  {
    forall k: nat :: i < k < j ==> !SameFamily(ts, i, k)
  }

  /** A token without successor is the last of its family; a successor is the next one issued in the
      family, to the same user, and a replaced token is revoked. */
  ghost predicate LinkHolds(ts: seq<Token>, i: nat)
    requires i < |ts|
  {
    match ts[i].replacedBy
    case None => NoneBetween(ts, i, |ts|)
    case Some(j) =>
      && i < j < |ts| && SameFamily(ts, i, j) && NoneBetween(ts, i, j)
      && ts[i].revokedAt.Some? && ts[j].user == ts[i].user
  }

  ghost predicate Chained(a: Auth) {
    && (forall i: nat :: i < |a.tokens| ==> LinkHolds(a.tokens, i))
    && (forall i: nat :: i < |a.tokens| ==>
        a.tokens[i].family <= i && a.tokens[a.tokens[i].family].family == a.tokens[i].family)
  }

  predicate Alive(a: Auth, i: nat) {
    i < |a.tokens| && a.tokens[i].revokedAt.None?
  }

  ghost predicate Dead(a: Auth, family: FamilyId) {
    forall i: nat :: Alive(a, i) ==> a.tokens[i].family != family
  }

  lemma LoginChained(a: Auth, user: UserId, expiresAt: Instant)
    requires Chained(a)
    ensures Chained(IssueTokenPair(a, user, expiresAt))
  {
    var ts, ts' := a.tokens, IssueTokenPair(a, user, expiresAt).tokens;
    forall i: nat | i < |ts'| ensures LinkHolds(ts', i) {
      if i < |ts| {
        assert LinkHolds(ts, i);
        forall k: nat | i < k < |ts| ensures SameFamily(ts', i, k) <==> SameFamily(ts, i, k) {}
      }
    }
  }

  /** Revoking without a successor keeps the chain if the token had none. */
  lemma RevokedChained(a: Auth, a': Auth)
    requires Chained(a) && |a'.tokens| == |a.tokens|
    requires forall i: nat :: i < |a.tokens| ==>
             a'.tokens[i] == a.tokens[i] ||
             (Alive(a, i) && a'.tokens[i] == a.tokens[i].(revokedAt := a'.tokens[i].revokedAt, replacedBy := None))
    ensures Chained(a')
  {
    var ts, ts' := a.tokens, a'.tokens;
    forall i: nat | i < |ts'| ensures LinkHolds(ts', i) {
      assert LinkHolds(ts, i);
      forall k: nat | i < k < |ts| ensures SameFamily(ts', i, k) <==> SameFamily(ts, i, k) {}
    }
  }

  lemma RotationChained(a: Auth, raw: TokenId, now: Instant, expiresAt: Instant)
    requires Chained(a) && Alive(a, raw)
    ensures Chained(RevokeAt(Issue(a, a.tokens[raw].user, a.tokens[raw].family, expiresAt), raw, now, Some(|a.tokens|)))
  {
    var ts := a.tokens;
    var ts' := RevokeAt(Issue(a, ts[raw].user, ts[raw].family, expiresAt), raw, now, Some(|ts|)).tokens;
    assert LinkHolds(ts, raw);
    forall i: nat | i < |ts'| ensures LinkHolds(ts', i) {
      if i < |ts| {
        assert LinkHolds(ts, i);
        forall k: nat | i < k < |ts| ensures SameFamily(ts', i, k) <==> SameFamily(ts, i, k) {}
        if i != raw && ts[i].replacedBy.None? && ts[i].family == ts[raw].family {
          assert if i < raw then SameFamily(ts, i, raw) else SameFamily(ts, raw, i);
        }
      }
    }
  }

  lemma NextChained(a: Auth, e: Event, keepWrites: bool)
    requires Chained(a)
    ensures Chained(Next(a, e, keepWrites))
  {
    match e
    case Login(user, expiresAt) => LoginChained(a, user, expiresAt);
    case Refresh(raw, now, expiresAt) =>
      if Rotate(a, raw, now, expiresAt, keepWrites).1.Success? {
        RotationChained(a, raw, now, expiresAt);
      } else {
        RevokedChained(a, Next(a, e, keepWrites));
      }
    case Logout(raw, now) => RevokedChained(a, Next(a, e, keepWrites));
    case RevokeSession(_, _, _) => RevokedChained(a, Next(a, e, keepWrites));
  }

  /** Every sequential run, with or without kept writes, leaves each family one chain in issue order. */
  lemma {:induction false} RunChained(a: Auth, events: seq<Event>, keepWrites: bool)
    requires Chained(a)
    ensures Chained(Run(a, events, keepWrites))
  {
    if events != [] {
      RunChained(a, events[..|events| - 1], keepWrites);
      NextChained(Run(a, events[..|events| - 1], keepWrites), events[|events| - 1], keepWrites);
    }
  }

  /** At most one token of a family is unrevoked, and it is the last one issued. */
  lemma AliveIsLast(a: Auth, i: nat, j: nat)
    requires Chained(a) && Alive(a, i) && j < |a.tokens| && a.tokens[j].family == a.tokens[i].family
    ensures j <= i && (Alive(a, j) ==> j == i)
  {
    assert LinkHolds(a.tokens, i);
    assert LinkHolds(a.tokens, j);
    if j > i {
      assert SameFamily(a.tokens, i, j);
    } else if j < i {
      assert SameFamily(a.tokens, j, i);
    }
  }

  /** Following successors from i arrives at j. */
  predicate Leads(ts: seq<Token>, i: nat, j: nat)
    requires i < |ts| && j < |ts|
    decreases |ts| - i
  {
    i == j || (ts[i].replacedBy.Some? && i < ts[i].replacedBy.value < |ts| && Leads(ts, ts[i].replacedBy.value, j))
  }

  lemma {:induction false} LeadsOn(ts: seq<Token>, i: nat, j: nat, k: nat)
    requires i < |ts| && j < |ts| && k < |ts| && Leads(ts, i, j) && ts[j].replacedBy == Some(k) && j < k
    ensures Leads(ts, i, k)
    decreases |ts| - i
  {
    if i != j {
      LeadsOn(ts, ts[i].replacedBy.value, j, k);
    }
  }

  lemma {:induction false} Predecessor(a: Auth, j: nat, from: nat) returns (i: nat)
    requires Chained(a) && j < |a.tokens| && a.tokens[j].family <= from < j
    requires forall k: nat :: from < k < j ==> !SameFamily(a.tokens, j, k)
    ensures i <= from && SameFamily(a.tokens, i, j) && a.tokens[i].replacedBy == Some(j)
    decreases from
  {
    if SameFamily(a.tokens, j, from) {
      i := from;
      assert LinkHolds(a.tokens, i);
      assert SameFamily(a.tokens, i, j);
      if a.tokens[i].replacedBy.Some? && a.tokens[i].replacedBy.value < j {
        assert SameFamily(a.tokens, j, a.tokens[i].replacedBy.value);
      }
    } else {
      assert from != a.tokens[j].family;
      i := Predecessor(a, j, from - 1);
    }
  }

  /** A family's first token leads to every token of the family: there is one chain and no cycle. */
  lemma {:induction false} HeadLeadsToAll(a: Auth, j: nat)
    requires Chained(a) && j < |a.tokens|
    ensures a.tokens[j].family <= j && Leads(a.tokens, a.tokens[j].family, j)
    decreases j
  {
    var head := a.tokens[j].family;
    if head != j {
      var i := Predecessor(a, j, j - 1);
      HeadLeadsToAll(a, i);
      LeadsOn(a.tokens, head, i, j);
    }
  }

  // ---- Dead families and reuse ----

  lemma NextStaysDead(a: Auth, e: Event, keepWrites: bool, family: FamilyId)
    requires Chained(a) && Dead(a, family) && family < |a.tokens|
    ensures Dead(Next(a, e, keepWrites), family) && |a.tokens| <= |Next(a, e, keepWrites).tokens|
  {
    var a' := Next(a, e, keepWrites);
    forall i: nat | Alive(a', i) ensures a'.tokens[i].family != family {
      if i < |a.tokens| {
        assert Alive(a, i);
      } else if e.Refresh? {
        assert Alive(a, e.raw);
      }
    }
  }

  /** A family with no unrevoked token never has one again. */
  lemma {:induction false} DeadStaysDead(a: Auth, events: seq<Event>, keepWrites: bool, family: FamilyId)
    requires Chained(a) && Dead(a, family) && family < |a.tokens|
    ensures Dead(Run(a, events, keepWrites), family) && |a.tokens| <= |Run(a, events, keepWrites).tokens|
  {
    if events != [] {
      var before := events[..|events| - 1];
      DeadStaysDead(a, before, keepWrites, family);
      RunChained(a, before, keepWrites);
      NextStaysDead(Run(a, before, keepWrites), events[|events| - 1], keepWrites, family);
    }
  }

  /** Presenting a revoked token ends its family exactly when the writes are kept, or nothing was left to revoke. */
  lemma ReuseEndsFamily(a: Auth, raw: TokenId, now: Instant, expiresAt: Instant, keepWrites: bool)
    requires raw < |a.tokens| && !Alive(a, raw)
    ensures var (a', r) := Rotate(a, raw, now, expiresAt, keepWrites);
            r == Failure(Reused) && (Dead(a', a.tokens[raw].family) <==> keepWrites || Dead(a, a.tokens[raw].family))
  {
  }

  /** With the writes rolled back, reusing a rotated token leaves its successor fit to refresh. */
  lemma RolledBackReuse(user: UserId, now: Instant)
    ensures var a := Run(Auth({user}, []), [Login(user, now), Refresh(0, now, now), Refresh(0, now, now)], false);
            Rotate(a, 1, now, now, false).1 == Success(2) && Rotate(a, 0, now, now, false).1 == Failure(Reused)
  {
    var start := Auth({user}, []);
    var login, refresh := Login(user, now), Refresh(0, now, now);
    assert [login, refresh, refresh][..2] == [login, refresh] && [login, refresh][..1] == [login] && [login][..0] == [];
    assert Run(start, [login], false).tokens == [Token(user, 0, now, None, None)];
    assert Run(start, [login, refresh], false).tokens ==
        [Token(user, 0, now, Some(now), Some(1)), Token(user, 0, now, None, None)];
  }

  /** When a refresh succeeds, and which error it gives when it does not. Only reuse changes anything on failure. */
  lemma RefreshAnswer(a: Auth, raw: TokenId, now: Instant, expiresAt: Instant, keepWrites: bool)
    ensures
      var (a', r) := Rotate(a, raw, now, expiresAt, keepWrites);
      && (r.Success? <==>
            && raw < |a.tokens| && a.tokens[raw].revokedAt == None && now <= a.tokens[raw].expiresAt
            && a.tokens[raw].user in a.users)
      && (r == Failure(Unknown) <==> raw >= |a.tokens|)
      && (r == Failure(Reused) <==> raw < |a.tokens| && a.tokens[raw].revokedAt != None)
      && (r == Failure(Expired) <==>
            raw < |a.tokens| && a.tokens[raw].revokedAt == None && a.tokens[raw].expiresAt < now)
      && (r == Failure(NoUser) <==>
            && raw < |a.tokens| && a.tokens[raw].revokedAt == None && now <= a.tokens[raw].expiresAt
            && a.tokens[raw].user !in a.users)
      && (r.Failure? && (r != Failure(Reused) || !keepWrites) ==> a' == a)
  {
  }

  /** Reuse with its writes kept revokes every unrevoked token of the family, without successor, and nothing else. */
  lemma ReuseEffect(a: Auth, raw: TokenId, now: Instant, expiresAt: Instant)
    requires raw < |a.tokens| && a.tokens[raw].revokedAt != None
    ensures
      var a' := Rotate(a, raw, now, expiresAt, true).0;
      && a'.users == a.users && |a'.tokens| == |a.tokens|
      && forall i: nat :: i < |a.tokens| ==>
           a'.tokens[i] == if a.tokens[i].family == a.tokens[raw].family && a.tokens[i].revokedAt == None
                           then a.tokens[i].(revokedAt := Some(now), replacedBy := None) else a.tokens[i]
  {
  }

  /** A sign-in adds one token, unrevoked and alone in its family. */
  lemma LoginEffect(a: Auth, user: UserId, expiresAt: Instant)
    requires Chained(a)
    ensures
      var a' := IssueTokenPair(a, user, expiresAt);
      var t := |a.tokens|;
      && |a'.tokens| == t + 1 && a'.tokens[..t] == a.tokens && a'.users == a.users
      && a'.tokens[t].user == user && a'.tokens[t].expiresAt == expiresAt && Alive(a', t)
      && forall i: nat :: i < t ==> a'.tokens[i].family != a'.tokens[t].family
  {
  }

  /** A sign-out ends the token presented, if it is known and not revoked, and touches no other. */
  lemma SignOutEffect(a: Auth, raw: TokenId, now: Instant)
    ensures
      var a' := SignOut(a, raw, now);
      && !Alive(a', raw) && |a'.tokens| == |a.tokens| && a'.users == a.users
      && (forall i: nat :: i < |a.tokens| && i != raw ==> a'.tokens[i] == a.tokens[i])
      && (Alive(a, raw) ==> a'.tokens[raw] == a.tokens[raw].(revokedAt := Some(now), replacedBy := None))
      && (!Alive(a, raw) ==> a' == a)
  {
  }

  /** Ending a session does that to a token of the given user, and is refused for any other. */
  lemma EndSessionEffect(a: Auth, user: UserId, id: TokenId, now: Instant)
    ensures
      var (a', found) := EndSession(a, user, id, now);
      && (found <==> id < |a.tokens| && a.tokens[id].user == user)
      && (found ==> !Alive(a', id))
      && (!found ==> a' == a)
      && |a'.tokens| == |a.tokens| && a'.users == a.users
      && (forall i: nat :: i < |a.tokens| && (i != id || !Alive(a, i)) ==> a'.tokens[i] == a.tokens[i])
  {
  }

  /** A successful refresh replaces the presented token, and only it, by the family's new last token. */
  lemma RotationEffect(a: Auth, raw: TokenId, now: Instant, expiresAt: Instant, keepWrites: bool)
    requires Chained(a) && Rotate(a, raw, now, expiresAt, keepWrites).1.Success?
    ensures var (a', r) := Rotate(a, raw, now, expiresAt, keepWrites);
            && Alive(a, raw) && !Alive(a', raw) && Alive(a', r.value) && a'.tokens[raw].replacedBy == Some(r.value)
            && a'.tokens[r.value].family == a.tokens[raw].family && a'.tokens[r.value].user == a.tokens[raw].user
            && a'.tokens[r.value].expiresAt == expiresAt && a'.tokens[raw].revokedAt == Some(now)
            && r.value == |a.tokens| && |a'.tokens| == |a.tokens| + 1 && a'.users == a.users
            && forall i: nat :: i < |a.tokens| && i != raw ==> a'.tokens[i] == a.tokens[i]
  {
  }
}
