/**
 * internal/api/routes/auth/authhandler/session.go: login with the per-(user, address)
 * lockout, and refresh-token rotation.
 */
module Session {
  import opened Wrappers
  import opened Int64
  import opened Config
  import opened Jwt
  import opened Model
  import opened Storage
  import opened Api
  import opened Services
  import opened Middleware
  import opened HandlerUtils
  import opened UserRepos
  import opened TokenRepos
  import opened LockoutRepos
  import opened AuthRouters

  /** The attempt a wrong password records. */
  function AttemptFor(u: User, env: Env): FailedLogin {
    FailedLogin(0, u.id, env.remoteAddr, env.now)
  }

  /**
   * `HandleLogin` for the user the email lookup returned (`subject`): the response and
   * the repositories afterwards.
   */
  function LoginSpec(s: Store, svc: Services, q: LockoutQueries, subject: Option<User>, req: LoginRequest, env: Env)
    : (Response, Store)
  {
    if subject.None? then (InvalidCredentials, s)
    else
      var u := subject.value;
      var locked := q.isLockedOut(s.events, u.id, env.remoteAddr, env.now);
      if locked.Failure? then (InternalError, s)
      else if locked.value then (AccountLocked, s)
      else if !svc.comparePassword(u.passwordHash, req.password) then
        if OpAddFailedLogin in env.failing then (InternalError, s)
        else
          var s1 := s.(events := s.events + [Failed(AttemptFor(u, env))]);
          var count := q.countRecentFailures(s1.events, u.id, env.remoteAddr, env.now);
          if count.Failure? then (InternalError, s1)
          else if count.value > LockoutCount then
            if OpAddLockout in env.failing then (InternalError, s1)
            else (AccountLocked, s1.(events := s1.events + [Locked(LockoutFor(u.id, env.remoteAddr, env.now))]))
          else (InvalidCredentials, s1)
      else if !u.emailConfirmed then (InvalidCredentials, s)
      else (Tokens(GenerateLogin(svc.createJwtFromUser(u, env.now), env.now)), s)
  }

  /** `HandleLogin`. The lookup by email may return any user with that email. */
  method HandleLogin(ar: AuthRouter, req: LoginRequest, env: Env) returns (resp: Response, ghost subject: Option<User>)
    requires ar.Valid()
    modifies ar.lockoutRepo
    ensures ar.Valid()
    ensures ByEmail(old(ar.userRepo.users), req.email, subject)
    ensures (resp, ar.Snapshot()) == LoginSpec(old(ar.Snapshot()), ar.svc, ar.lockoutRepo.queries, subject, req, env)
  {
    var user, err := ar.userRepo.GetUserByEmail(req.email);
    subject := if err then None else Some(user);
    if err {
      return InvalidCredentials, subject;
    }
    var lockedOut := ar.lockoutRepo.IsLockedOut(user.id, env.remoteAddr, env.now);
    if lockedOut.Failure? {
      return InternalError, subject;
    }
    if lockedOut.value {
      return AccountLocked, subject;
    }
    if !ar.svc.comparePassword(user.passwordHash, req.password) {
      var now := env.now;
      var failed := ar.lockoutRepo.AddFailedLogin(FailedLogin(0, user.id, env.remoteAddr, now), OpAddFailedLogin in env.failing);
      if failed {
        return InternalError, subject;
      }
      var count := ar.lockoutRepo.CountRecentFailures(user.id, env.remoteAddr, now);
      if count.Failure? {
        return InternalError, subject;
      }
      if count.value > LockoutCount {
        var lockout := Lockout(0, user.id, env.remoteAddr, Add(now, LockoutDuration), "failed logins", now);
        failed := ar.lockoutRepo.AddLockout(lockout, OpAddLockout in env.failing);
        if failed {
          return InternalError, subject;
        }
        return AccountLocked, subject;
      }
      return InvalidCredentials, subject;
    }
    if !user.emailConfirmed {
      return InvalidCredentials, subject;
    }
    resp := Tokens(GenerateLogin(ar.svc.createJwtFromUser(user, env.now), env.now));
  }

  /** An unknown email is answered "invalid credentials" and records nothing. */
  lemma LoginUnknownEmail(s: Store, svc: Services, q: LockoutQueries, req: LoginRequest, env: Env)
    ensures LoginSpec(s, svc, q, None, req, env) == (InvalidCredentials, s)
  {
  }

  /**
   * The lockout check comes before the password check: a locked pair gets 423 whatever the
   * password, and an error of the check fails closed. Neither writes anything.
   */
  lemma LoginLockoutFirst(s: Store, svc: Services, q: LockoutQueries, u: User, req: LoginRequest, env: Env)
    requires q.isLockedOut(s.events, u.id, env.remoteAddr, env.now) != Success(false)
    ensures LoginSpec(s, svc, q, Some(u), req, env).1 == s
    ensures LoginSpec(s, svc, q, Some(u), req, env).0 ==
      if q.isLockedOut(s.events, u.id, env.remoteAddr, env.now).Failure? then InternalError else AccountLocked
  {
  }

  /**
   * A wrong password on an unlocked pair records exactly one attempt of that user, peer
   * address and clock reading, before the count is read; the only other possible write is
   * the lockout right after it, made exactly when the count exceeds `LockoutCount`.
   */
  lemma LoginWrongPassword(s: Store, svc: Services, q: LockoutQueries, u: User, req: LoginRequest, env: Env)
    requires q.isLockedOut(s.events, u.id, env.remoteAddr, env.now) == Success(false)
    requires !svc.comparePassword(u.passwordHash, req.password)
    requires OpAddFailedLogin !in env.failing
    ensures var (resp, s2) := LoginSpec(s, svc, q, Some(u), req, env);
      && s2.users == s.users && s2.blacklist == s.blacklist
      && |s.events| < |s2.events| <= |s.events| + 2
      && s2.events[..|s.events| + 1] == s.events + [Failed(FailedLogin(0, u.id, env.remoteAddr, env.now))]
      && !resp.Tokens?
  {
    var s1 := s.events + [Failed(AttemptFor(u, env))];
    var s2 := LoginSpec(s, svc, q, Some(u), req, env).1;
    assert s2.events == s1 || s2.events == s1 + [Locked(LockoutFor(u.id, env.remoteAddr, env.now))];
    assert (s1 + [Locked(LockoutFor(u.id, env.remoteAddr, env.now))])[..|s.events| + 1] == s1;
  }

  /**
   * After a wrong password is recorded, a lockout of `LockoutDuration` seconds is added iff
   * the count is strictly greater than `LockoutCount`, and the answer is then 423; a count
   * of at most `LockoutCount` is answered "invalid credentials" and adds no lockout.
   */
  lemma LoginLockoutThreshold(s: Store, svc: Services, q: LockoutQueries, u: User, req: LoginRequest, env: Env, n: int)
    requires q.isLockedOut(s.events, u.id, env.remoteAddr, env.now) == Success(false)
    requires !svc.comparePassword(u.passwordHash, req.password)
    requires OpAddFailedLogin !in env.failing
    requires q.countRecentFailures(s.events + [Failed(AttemptFor(u, env))], u.id, env.remoteAddr, env.now) == Success(n)
    ensures var (resp, s2) := LoginSpec(s, svc, q, Some(u), req, env);
      && (|s2.events| == |s.events| + 2 <==> n > LockoutCount && OpAddLockout !in env.failing)
      && (|s2.events| == |s.events| + 2 ==>
            s2.events[|s.events| + 1] == Locked(Lockout(0, u.id, env.remoteAddr, Add(env.now, 3600), "failed logins", env.now))
            && resp == AccountLocked)
      && (n <= LockoutCount ==> resp == InvalidCredentials && |s2.events| == |s.events| + 1)
  {
  }

  /**
   * Tokens are issued iff the user exists, the pair is not locked, the password matches
   * and the email is confirmed; the pair is then stamped from the user's JWT and nothing
   * is written.
   */
  lemma LoginTokensIff(s: Store, svc: Services, q: LockoutQueries, subject: Option<User>, req: LoginRequest, env: Env)
    ensures var (resp, s2) := LoginSpec(s, svc, q, subject, req, env);
      && (resp.Tokens? <==>
            && subject.Some?
            && q.isLockedOut(s.events, subject.value.id, env.remoteAddr, env.now) == Success(false)
            && svc.comparePassword(subject.value.passwordHash, req.password)
            && subject.value.emailConfirmed)
      && (resp.Tokens? ==>
            resp.pair == GenerateLogin(svc.createJwtFromUser(subject.value, env.now), env.now) && s2 == s)
  {
  }

  /**
   * The last gate: a user who exists, is not locked out and gives the right password
   * but has not confirmed the email gets the same answer as an unknown email, and
   * nothing is written.
   */
  lemma LoginUnconfirmedRefused(s: Store, svc: Services, q: LockoutQueries, u: User, req: LoginRequest, env: Env)
    requires q.isLockedOut(s.events, u.id, env.remoteAddr, env.now) == Success(false)
    requires svc.comparePassword(u.passwordHash, req.password)
    requires !u.emailConfirmed
    ensures LoginSpec(s, svc, q, Some(u), req, env) == (InvalidCredentials, s)
    ensures LoginSpec(s, svc, q, Some(u), req, env) == LoginSpec(s, svc, q, None, req, env)
  {
  }

  /** Login writes only to the lockout log, and only by appending. */
  lemma LoginAppendsOnly(s: Store, svc: Services, q: LockoutQueries, subject: Option<User>, req: LoginRequest, env: Env)
    ensures var s2 := LoginSpec(s, svc, q, subject, req, env).1;
      s2.users == s.users && s2.blacklist == s.blacklist && s.events <= s2.events
  {
  }

  lemma LoginPreservesInvariant(s: Store, svc: Services, q: LockoutQueries, subject: Option<User>, req: LoginRequest,
                                env: Env)
    requires StoreInvariant(s)
    ensures StoreInvariant(LoginSpec(s, svc, q, subject, req, env).1)
  {
    if subject.Some? {
      FailureThenLockout(s.events, AttemptFor(subject.value, env));
    }
  }

  /** The revocation record of a token's claims. */
  function RevocationOf(c: Claims): JwtBlacklist {
    JwtBlacklist(c.tokenId, c.userId, MaxInt64)
  }

  /** `HandleRefresh`: the response and the repositories afterwards. */
  function RefreshSpec(s: Store, svc: Services, req: TokenRequest, env: Env): (Response, Store) {
    var c := GetClaims(svc, req.token, svc.jwtSecret, s.blacklist, env.now);
    if c.claims.None? then (c.written, s)
    else if c.claims.value.tokenType != Refresh then (Unwritten, s)
    else if c.claims.value.userId !in s.users then (InvalidCredentials, s)
    else
      var claims := c.claims.value;
      var s1 := if OpRevokeToken in env.failing then s else s.(blacklist := s.blacklist + {RevocationOf(claims)});
      (Tokens(GenerateLogin(svc.createJwtFromUser(s.users[claims.userId], env.now), env.now)), s1)
  }

  /** `HandleRefresh`. */
  method HandleRefresh(ar: AuthRouter, req: TokenRequest, env: Env) returns (resp: Response)
    requires ar.Valid()
    modifies ar.tokenRepo
    ensures ar.Valid()
    ensures (resp, ar.Snapshot()) == RefreshSpec(old(ar.Snapshot()), ar.svc, req, env)
  {
    var c := GetClaims(ar.svc, req.token, ar.svc.jwtSecret, ar.tokenRepo.blacklist, env.now);
    if c.claims.None? || c.claims.value.tokenType != Refresh {
      return c.written;
    }
    var claims := c.claims.value;
    var user, err := ar.userRepo.GetUserById(claims.userId);
    if err {
      return InvalidCredentials;
    }
    var blacklist := JwtBlacklist(claims.tokenId, claims.userId, MaxInt64);
    var _ := ar.tokenRepo.RevokeToken(blacklist, OpRevokeToken in env.failing);
    resp := Tokens(GenerateLogin(ar.svc.createJwtFromUser(user, env.now), env.now));
  }

  /**
   * Only a valid refresh token of an existing user is rotated; its id is blacklisted for
   * good before the new pair is issued, unless that write fails, which is ignored.
   */
  lemma RefreshRotates(s: Store, svc: Services, req: TokenRequest, env: Env)
    ensures var (resp, s2) := RefreshSpec(s, svc, req, env);
      var v := svc.validateToken(req.token, svc.jwtSecret, s.blacklist, env.now);
      && (resp.Tokens? <==> v.Some? && v.value.tokenType == Refresh && v.value.userId in s.users)
      && (resp.Tokens? ==> resp.pair == GenerateLogin(svc.createJwtFromUser(s.users[v.value.userId], env.now), env.now))
      && (resp.Tokens? && OpRevokeToken !in env.failing ==>
            s2 == s.(blacklist := s.blacklist + {JwtBlacklist(v.value.tokenId, v.value.userId, MaxInt64)}))
      && (!resp.Tokens? || OpRevokeToken in env.failing ==> s2 == s)
      && (v.Some? && v.value.tokenType != Refresh ==> resp == Unwritten)
      && (v.None? ==> resp == InvalidCredentials)
  {
  }

  lemma RefreshPreservesInvariant(s: Store, svc: Services, req: TokenRequest, env: Env)
    requires StoreInvariant(s)
    ensures StoreInvariant(RefreshSpec(s, svc, req, env).1)
  {
  }

  /**
   * With a sound validator, a refresh token that was rotated cannot be rotated again: the
   * second request is refused after the first one's revocation was written.
   */
  lemma {:induction false} RefreshReplayRejected(s: Store, svc: Services, req: TokenRequest, env1: Env, env2: Env)
    requires SoundValidator(svc)
    requires RefreshSpec(s, svc, req, env1).0.Tokens?
    requires OpRevokeToken !in env1.failing
    ensures var s1 := RefreshSpec(s, svc, req, env1).1;
      RefreshSpec(s1, svc, req, env2) == (InvalidCredentials, s1)
  {
    var s1 := RefreshSpec(s, svc, req, env1).1;
    var c1 := svc.validateToken(req.token, svc.jwtSecret, s.blacklist, env1.now).value;
    assert RevocationOf(c1) in s1.blacklist;
    var v2 := svc.validateToken(req.token, svc.jwtSecret, s1.blacklist, env2.now);
    assert v2.None?;
  }
}
