/** internal/api/routes/auth/authhandler/logout.go: revoking one token, or every session of a user. */
module Logout {
  import opened Wrappers
  import opened Int64
  import opened Jwt
  import opened Model
  import opened Storage
  import opened Api
  import opened Services
  import opened Middleware
  import opened HandlerUtils
  import opened UserRepos
  import opened TokenRepos
  import opened AuthRouters
  import opened Session

  /** `HandleLogout` for a request with that `Authorization` header. */
  function LogoutSpec(s: Store, svc: Services, header: string, env: Env): (Response, Store) {
    var c := GetClaimsFromHeader(svc, header, svc.jwtSecret, s.blacklist, env.now);
    if c.claims.None? then (c.written, s)
    else if c.claims.value.tokenType != Credentials then (Unwritten, s)
    else if OpRevokeToken in env.failing then (InternalError, s)
    else (Ok, s.(blacklist := s.blacklist + {RevocationOf(c.claims.value)}))
  }

  /** `HandleLogout`. */
  method HandleLogout(ar: AuthRouter, header: string, env: Env) returns (resp: Response)
    requires ar.Valid()
    modifies ar.tokenRepo
    ensures ar.Valid()
    ensures (resp, ar.Snapshot()) == LogoutSpec(old(ar.Snapshot()), ar.svc, header, env)
  {
    var c := GetClaimsFromHeader(ar.svc, header, ar.svc.jwtSecret, ar.tokenRepo.blacklist, env.now);
    if c.claims.None? || c.claims.value.tokenType != Credentials {
      return c.written;
    }
    var claims := c.claims.value;
    var err := ar.tokenRepo.RevokeToken(JwtBlacklist(claims.tokenId, claims.userId, MaxInt64), OpRevokeToken in env.failing);
    if err {
      return InternalError;
    }
    resp := Ok;
  }

  /**
   * Logout changes something only for a valid credential token: it then adds the
   * permanent revocation of that token's id and user, and answers 200; a failed write is
   * a 500 and changes nothing. A token of another kind gets an empty answer.
   */
  lemma LogoutRevokes(s: Store, svc: Services, token: string, env: Env)
    ensures var (resp, s2) := LogoutSpec(s, svc, BearerPrefix + token, env);
      var v := svc.validateToken(token, svc.jwtSecret, s.blacklist, env.now);
      && (s2 != s ==> v.Some? && v.value.tokenType == Credentials)
      && (v.None? ==> resp == InvalidCredentials && s2 == s)
      && (v.Some? && v.value.tokenType != Credentials ==> resp == Unwritten && s2 == s)
      && (v.Some? && v.value.tokenType == Credentials ==>
            if OpRevokeToken in env.failing then resp == InternalError && s2 == s
            else resp == Ok && s2 == s.(blacklist := s.blacklist + {JwtBlacklist(v.value.tokenId, v.value.userId, MaxInt64)}))
  {
    BearerTokenRoundTrip(token);
  }

  /** A request without a bearer header is refused and changes nothing. */
  lemma LogoutNeedsBearer(s: Store, svc: Services, header: string, env: Env)
    requires !HasPrefix(header, BearerPrefix)
    ensures LogoutSpec(s, svc, header, env) == (InvalidCredentials, s)
  {
  }

  lemma LogoutPreservesInvariant(s: Store, svc: Services, header: string, env: Env)
    requires StoreInvariant(s)
    ensures StoreInvariant(LogoutSpec(s, svc, header, env).1)
  {
  }

  /**
   * The session and refresh tokens of a pair share their id, so with a sound validator a
   * logout with the session token also retires the refresh token of the same pair.
   */
  lemma {:induction false} LogoutRetiresRefreshToken(s: Store, svc: Services, session: string, refresh: string,
                                                     env1: Env, env2: Env)
    requires SoundValidator(svc)
    requires LogoutSpec(s, svc, BearerPrefix + session, env1).0 == Ok
    requires svc.validateToken(refresh, svc.jwtSecret, s.blacklist, env1.now).Some?
    requires svc.validateToken(refresh, svc.jwtSecret, s.blacklist, env1.now).value.tokenId
          == svc.validateToken(session, svc.jwtSecret, s.blacklist, env1.now).value.tokenId
    ensures var s1 := LogoutSpec(s, svc, BearerPrefix + session, env1).1;
      RefreshSpec(s1, svc, TokenRequest(refresh), env2) == (InvalidCredentials, s1)
  {
    BearerTokenRoundTrip(session);
    var s1 := LogoutSpec(s, svc, BearerPrefix + session, env1).1;
    var cs := svc.validateToken(session, svc.jwtSecret, s.blacklist, env1.now).value;
    var cr := svc.validateToken(refresh, svc.jwtSecret, s.blacklist, env1.now).value;
    assert RevocationOf(cs) in s1.blacklist;
    var v2 := svc.validateToken(refresh, svc.jwtSecret, s1.blacklist, env2.now);
    assert v2.None?;
  }

  /** `HandleLogoutEverywhere` for a request with that `Authorization` header. */
  function LogoutEverywhereSpec(s: Store, svc: Services, header: string, env: Env): (Response, Store) {
    var c := GetClaimsFromHeader(svc, header, svc.jwtSecret, s.blacklist, env.now);
    if c.claims.None? then (c.written, s)
    else if c.claims.value.tokenType != Credentials then (Unwritten, s)
    else if OpIncrementJwtSessionId in env.failing then (InternalError, s)
    else (Ok, s.(users := Modify(s.users, c.claims.value.userId, BumpSession)))
  }

  /** `HandleLogoutEverywhere`. */
  method HandleLogoutEverywhere(ar: AuthRouter, header: string, env: Env) returns (resp: Response)
    requires ar.Valid()
    modifies ar.userRepo
    ensures ar.Valid()
    ensures (resp, ar.Snapshot()) == LogoutEverywhereSpec(old(ar.Snapshot()), ar.svc, header, env)
  {
    var c := GetClaimsFromHeader(ar.svc, header, ar.svc.jwtSecret, ar.tokenRepo.blacklist, env.now);
    if c.claims.None? || c.claims.value.tokenType != Credentials {
      return c.written;
    }
    var err := ar.userRepo.IncrementJwtSessionId(c.claims.value.userId, OpIncrementJwtSessionId in env.failing);
    if err {
      return InternalError;
    }
    resp := Ok;
  }

  /**
   * Logout-everywhere needs a valid credential token; it then raises that user's session
   * counter by exactly one, touches no other row and neither the blacklist nor the lockout
   * log. A failed increment is a 500 and changes nothing.
   */
  lemma LogoutEverywhereBumpsOnce(s: Store, svc: Services, token: string, env: Env)
    ensures var (resp, s2) := LogoutEverywhereSpec(s, svc, BearerPrefix + token, env);
      var v := svc.validateToken(token, svc.jwtSecret, s.blacklist, env.now);
      && s2.blacklist == s.blacklist && s2.events == s.events && s2.users.Keys == s.users.Keys
      && (s2 != s ==> v.Some? && v.value.tokenType == Credentials)
      && (v.Some? && v.value.tokenType != Credentials ==> resp == Unwritten && s2 == s)
      && (v.Some? && v.value.tokenType == Credentials ==>
            if OpIncrementJwtSessionId in env.failing then resp == InternalError && s2 == s
            else
              && resp == Ok
              && (forall id :: id in s.users && id != v.value.userId ==> s2.users[id] == s.users[id])
              && (v.value.userId in s.users ==>
                    s2.users[v.value.userId] ==
                      s.users[v.value.userId].(jwtSessionId := s.users[v.value.userId].jwtSessionId + 1)))
  {
    BearerTokenRoundTrip(token);
  }

  lemma LogoutEverywherePreservesInvariant(s: Store, svc: Services, header: string, env: Env)
    requires StoreInvariant(s)
    ensures StoreInvariant(LogoutEverywhereSpec(s, svc, header, env).1)
  {
    var c := GetClaimsFromHeader(svc, header, svc.jwtSecret, s.blacklist, env.now);
    if c.claims.Some? {
      ModifyKeepsKeys(s.users, c.claims.value.userId, BumpSession);
    }
  }
}
