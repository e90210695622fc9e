/** Refresh tokens as stored objects revoked in place, proved to follow the token-family functions. */
module AuthenticationService {
  import opened Wrappers
  import opened TokenFamilies

  class RefreshToken {
    const id: TokenId
    const userId: UserId
    const familyId: FamilyId
    const expiresAt: Instant
    var revokedAt: Option<Instant>
    var replacedByTokenId: Option<TokenId>

    constructor (id: TokenId, userId: UserId, familyId: FamilyId, expiresAt: Instant)
      ensures this.id == id && View() == Token(userId, familyId, expiresAt, None, None)
    {
      this.id, this.userId, this.familyId, this.expiresAt := id, userId, familyId, expiresAt;
      revokedAt, replacedByTokenId := None, None;
    }

    function View(): Token
      reads this
    {
      Token(userId, familyId, expiresAt, revokedAt, replacedByTokenId)
    }

    method Revoke(now: Instant, replacedByTokenId: Option<TokenId>)
      modifies this
      ensures View() == TokenFamilies.Revoke(old(View()), now, replacedByTokenId)
    {
      revokedAt := Some(now);
      this.replacedByTokenId := replacedByTokenId;
    }
  }

  /** The token table with the operations of the issuer, the authentication service and the session service. */
  class TokenStore {
    const users: set<UserId>
    var tokens: seq<RefreshToken>

    constructor (users: set<UserId>)
      ensures Valid() && View() == Auth(users, [])
    {
      this.users := users;
      tokens := [];
    }

    ghost predicate Valid()
      reads this
    {
      forall i :: 0 <= i < |tokens| ==> tokens[i].id == i
    }

    ghost function View(): Auth
      reads this, tokens
    {
      Auth(users, seq(|tokens|, i requires 0 <= i < |tokens| reads this, tokens => tokens[i].View()))
    }

    method IssueRefreshToken(userId: UserId, familyId: FamilyId, expiresAt: Instant) returns (entity: RefreshToken)
      requires Valid()
      modifies this
      ensures Valid() && tokens == old(tokens) + [entity] && fresh(entity)
      ensures View() == Issue(old(View()), userId, familyId, expiresAt)
    {
      entity := new RefreshToken(|tokens|, userId, familyId, expiresAt);
      tokens := tokens + [entity];
    }

    /** A login's token opens a new family. */
    method IssueTokenPair(userId: UserId, expiresAt: Instant) returns (entity: RefreshToken)
      requires Valid()
      modifies this
      ensures Valid() && View() == TokenFamilies.IssueTokenPair(old(View()), userId, expiresAt)
    {
      entity := IssueRefreshToken(userId, |tokens|, expiresAt);
    }

    method RevokeFamily(familyId: FamilyId, now: Instant)
      requires Valid()
      modifies tokens
      ensures Valid() && View() == TokenFamilies.RevokeFamily(old(View()), familyId, now)
    {
      ghost var before := View();
      for i := 0 to |tokens|
        invariant forall k :: 0 <= k < i ==>
                  tokens[k].View() == TokenFamilies.RevokeFamily(before, familyId, now).tokens[k]
        invariant forall k :: i <= k < |tokens| ==> tokens[k].View() == before.tokens[k]
      {
        var token := tokens[i];
        if token.familyId == familyId && token.revokedAt.None? {
          token.Revoke(now, None);
        }
      }
      assert View().tokens == TokenFamilies.RevokeFamily(before, familyId, now).tokens;
    }

    method RevokeStored(id: TokenId, now: Instant, replacedBy: Option<TokenId>)
      requires Valid() && id < |tokens|
      modifies tokens[id]
      ensures Valid() && View() == RevokeAt(old(View()), id, now, replacedBy)
    {
      ghost var before := View();
      tokens[id].Revoke(now, replacedBy);
      assert View().tokens == before.tokens[id := TokenFamilies.Revoke(before.tokens[id], now, replacedBy)];
    }

    /** `keepWrites` is whether the transaction commits although the exception for a reused token leaves it. */
    method Refresh(raw: TokenId, now: Instant, expiresAt: Instant, keepWrites: bool)
        returns (r: Result<TokenId, RefreshFailure>)
      requires Valid()
      modifies this, tokens
      ensures Valid() && (View(), r) == Rotate(old(View()), raw, now, expiresAt, keepWrites)
    {
      if raw >= |tokens| { return Failure(Unknown); }
      var existing := tokens[raw];
      assert View().tokens[raw] == existing.View();
      if existing.revokedAt.Some? {
        if keepWrites {
          RevokeFamily(existing.familyId, now);
        }
        return Failure(Reused);
      }
      if existing.expiresAt < now { return Failure(Expired); }
      if existing.userId !in users { return Failure(NoUser); }
      var issued := IssueRefreshToken(existing.userId, existing.familyId, expiresAt);
      assert issued == tokens[|tokens| - 1];
      RevokeStored(raw, now, Some(issued.id));
      return Success(issued.id);
    }

    method Logout(raw: TokenId, now: Instant)
      requires Valid()
      modifies tokens
      ensures Valid() && View() == SignOut(old(View()), raw, now)
    {
      if raw < |tokens| {
        assert View().tokens[raw] == tokens[raw].View();
        if tokens[raw].revokedAt.None? {
          RevokeStored(raw, now, None);
        }
      }
    }

    method RevokeSession(userId: UserId, sessionId: TokenId, now: Instant) returns (found: bool)
      requires Valid()
      modifies tokens
      ensures Valid() && (View(), found) == EndSession(old(View()), userId, sessionId, now)
    {
      if sessionId >= |tokens| { return false; }
      assert View().tokens[sessionId] == tokens[sessionId].View();
      if tokens[sessionId].userId != userId { return false; }
      if tokens[sessionId].revokedAt.None? {
        RevokeStored(sessionId, now, None);
      }
      return true;
    }
  }
}
