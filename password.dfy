/**
 * internal/api/routes/auth/authhandler/password.go: the shared password-change steps,
 * the reset by mailed token, the request for such a token, and the change of a logged-in
 * user's password.
 */
module Password {
  import opened Wrappers
  import opened Int64
  import opened Config
  import opened Model
  import opened Storage
  import opened Api
  import opened Services
  import opened HandlerUtils
  import opened UserRepos
  import opened LockoutRepos
  import opened AuthRouters

  /** What `changeUserPassword` returns, what it wrote to the response, and the repositories afterwards. */
  datatype PasswordChange = PasswordChange(ok: bool, resp: Response, store: Store)

  /**
   * `changeUserPassword(ctx, w, user, newPassword, ip)`: validate, compare with the current
   * hash, hash, then three writes in order (hash, session counter, unlock). The first
   * failing step ends it; the writes before it stay.
   */
  function ChangeUserPasswordSpec(s: Store, svc: Services, u: User, newPassword: string, ip: string, env: Env)
    : PasswordChange
  {
    if !svc.isValidPassword(newPassword) then PasswordChange(false, Message(400, "error", "invalid password"), s)
    else if svc.comparePassword(u.passwordHash, newPassword) then PasswordChange(false, Message(400, "error", "same password"), s)
    else if env.passwordHash.None? || OpChangeUserPassword in env.failing then PasswordChange(false, InternalError, s)
    else
      var s1 := s.(users := Modify(s.users, u.id, SetPasswordHash(env.passwordHash.value)));
      if OpIncrementJwtSessionId in env.failing then PasswordChange(false, InternalError, s1)
      else
        var s2 := s1.(users := Modify(s1.users, u.id, BumpSession));
        if OpUnlockAccount in env.failing then PasswordChange(false, InternalError, s2)
        else PasswordChange(true, Unwritten, s2.(events := s2.events + [Unlocked(u.id, ip)]))
  }

  /** `changeUserPassword`. */
  method ChangeUserPassword(ar: AuthRouter, u: User, newPassword: string, ip: string, env: Env)
    returns (ok: bool, resp: Response)
    requires ar.Valid()
    modifies ar.userRepo, ar.lockoutRepo
    ensures ar.Valid()
    ensures PasswordChange(ok, resp, ar.Snapshot()) == ChangeUserPasswordSpec(old(ar.Snapshot()), ar.svc, u, newPassword, ip, env)
  {
    if !ar.svc.isValidPassword(newPassword) {
      return false, Message(400, "error", "invalid password");
    }
    if ar.svc.comparePassword(u.passwordHash, newPassword) {
      return false, Message(400, "error", "same password");
    }
    if env.passwordHash.None? {
      return false, InternalError;
    }
    var hash := env.passwordHash.value;
    var err := ar.userRepo.ChangeUserPassword(hash, u.id, OpChangeUserPassword in env.failing);
    if err {
      return false, InternalError;
    }
    err := ar.userRepo.IncrementJwtSessionId(u.id, OpIncrementJwtSessionId in env.failing);
    if err {
      return false, InternalError;
    }
    err := ar.lockoutRepo.UnlockAccount(u.id, ip, OpUnlockAccount in env.failing);
    if err {
      return false, InternalError;
    }
    return true, Unwritten;
  }

  /**
   * An invalid or unchanged password is refused with no write. Otherwise the change
   * succeeds iff hashing and all three writes succeed, and then the row has the new hash
   * and its session counter raised by one, and the pair is unlocked. A failure after the
   * first write keeps the writes made so far.
   */
  lemma ChangeUserPasswordSteps(s: Store, svc: Services, u: User, newPassword: string, ip: string, env: Env)
    ensures var c := ChangeUserPasswordSpec(s, svc, u, newPassword, ip, env);
      var withHash := if env.passwordHash.Some? then Modify(s.users, u.id, SetPasswordHash(env.passwordHash.value)) else s.users;
      && c.store.blacklist == s.blacklist
      && (!svc.isValidPassword(newPassword) ==> c == PasswordChange(false, Message(400, "error", "invalid password"), s))
      && (svc.isValidPassword(newPassword) && svc.comparePassword(u.passwordHash, newPassword) ==>
            c == PasswordChange(false, Message(400, "error", "same password"), s))
      && (c.ok <==>
            && svc.isValidPassword(newPassword) && !svc.comparePassword(u.passwordHash, newPassword)
            && env.passwordHash.Some?
            && OpChangeUserPassword !in env.failing && OpIncrementJwtSessionId !in env.failing
            && OpUnlockAccount !in env.failing)
      && (c.ok ==> c.resp == Unwritten
                   && c.store.users == Modify(withHash, u.id, BumpSession)
                   && c.store.events == s.events + [Unlocked(u.id, ip)])
      && (!c.ok ==> c.store.events == s.events && c.resp != Unwritten)
      && (!c.ok && c.store.users != s.users ==> OpChangeUserPassword !in env.failing && env.passwordHash.Some?)
      && (!c.ok && c.store != s ==>
            c.store.users == withHash || c.store.users == Modify(withHash, u.id, BumpSession))
  {
  }

  /** Changing a password leaves every row's reset token as it was. */
  lemma ChangeUserPasswordKeepsResetTokens(s: Store, svc: Services, u: User, newPassword: string, ip: string, env: Env)
    ensures var users := ChangeUserPasswordSpec(s, svc, u, newPassword, ip, env).store.users;
      && users.Keys == s.users.Keys
      && forall id :: id in users ==> users[id].passwordResetToken == s.users[id].passwordResetToken
  {
    var c := ChangeUserPasswordSpec(s, svc, u, newPassword, ip, env);
    if && svc.isValidPassword(newPassword) && !svc.comparePassword(u.passwordHash, newPassword)
       && env.passwordHash.Some? && OpChangeUserPassword !in env.failing
    {
      var s1 := Modify(s.users, u.id, SetPasswordHash(env.passwordHash.value));
      ModifyKeepsResetTokens(s.users, u.id, SetPasswordHash(env.passwordHash.value));
      ModifyKeepsResetTokens(s1, u.id, BumpSession);
      assert c.store.users == s1 || c.store.users == Modify(s1, u.id, BumpSession);
    } else {
      assert c.store.users == s.users;
    }
  }

  /** Setting the password hash or raising the session counter leaves reset tokens alone. */
  lemma ModifyKeepsResetTokens(users: map<int64, User>, id: int64, op: RowUpdate)
    requires op.SetPasswordHash? || op.BumpSession?
    ensures var r := Modify(users, id, op);
      forall k :: k in r ==> r[k].passwordResetToken == users[k].passwordResetToken
  {
    var r := Modify(users, id, op);
    forall k | k in r ensures r[k].passwordResetToken == users[k].passwordResetToken {
      if k != id {
        assert r[k] == users[k];
      }
    }
  }

  lemma ChangeUserPasswordPreservesInvariant(s: Store, svc: Services, u: User, newPassword: string, ip: string, env: Env)
    requires StoreInvariant(s)
    ensures StoreInvariant(ChangeUserPasswordSpec(s, svc, u, newPassword, ip, env).store)
  {
    if env.passwordHash.Some? {
      var s1 := Modify(s.users, u.id, SetPasswordHash(env.passwordHash.value));
      ModifyKeepsRowInvariants(s.users, u.id, SetPasswordHash(env.passwordHash.value));
      ModifyKeepsRowInvariants(s1, u.id, BumpSession);
      UnlockKeepsLockouts(s.events, u.id, ip);
    }
  }

  /** A reset token is still usable when its issue time plus `ForgotPasswordExpiry` is not before `now`. */
  predicate ResetTokenLive(u: User, now: int64) {
    !(Add(u.passwordResetIssuedAt, ForgotPasswordExpiry) < now)
  }

  /**
   * `HandleForgotPassword` for the user the reset-token lookup returned (`subject`), as
   * written: the reset token is left in place after a successful reset.
   */
  function ForgotPasswordSpec(s: Store, svc: Services, subject: Option<User>, req: PasswordResetRequest, env: Env)
    : (Response, Store)
  {
    if svc.tokenDigest(req.token).None? then (InternalError, s)
    else if subject.None? then (InvalidCredentials, s)
    else if !ResetTokenLive(subject.value, env.now) then (ExpiredToken, s)
    else
      var c := ChangeUserPasswordSpec(s, svc, subject.value, req.newPassword, env.clientIp, env);
      (if c.ok then Ok else c.resp, c.store)
  }

  /** `HandleForgotPassword`, as written. */
  method HandleForgotPassword(ar: AuthRouter, req: PasswordResetRequest, env: Env)
    returns (resp: Response, ghost subject: Option<User>)
    requires ar.Valid()
    modifies ar.userRepo, ar.lockoutRepo
    ensures ar.Valid()
    ensures ar.svc.tokenDigest(req.token).Some? ==>
      ByResetToken(old(ar.userRepo.users), ar.svc.tokenDigest(req.token).value, subject)
    ensures (resp, ar.Snapshot()) == ForgotPasswordSpec(old(ar.Snapshot()), ar.svc, subject, req, env)
  {
    subject := None;
    var tokenHash := ar.svc.tokenDigest(req.token);
    if tokenHash.None? {
      return InternalError, subject;
    }
    var user := ar.userRepo.GetUserByResetToken(tokenHash.value);
    subject := user;
    if user.None? {
      return InvalidCredentials, subject;
    }
    var expiry := Add(user.value.passwordResetIssuedAt, ForgotPasswordExpiry);
    if expiry < env.now {
      return ExpiredToken, subject;
    }
    var ok, written := ChangeUserPassword(ar, user.value, req.newPassword, env.clientIp, env);
    if !ok {
      return written, subject;
    }
    resp := Ok;
  }

  /**
   * The expiry test is strict: a token is refused only once issue time plus 3600 s is
   * before `now`, so at exactly that second it is still accepted. An undecodable token is
   * a 500 and an unknown hash "invalid credentials", neither with a write.
   */
  lemma ForgotPasswordGuards(s: Store, svc: Services, subject: Option<User>, req: PasswordResetRequest, env: Env)
    ensures svc.tokenDigest(req.token).None? ==> ForgotPasswordSpec(s, svc, subject, req, env) == (InternalError, s)
    ensures svc.tokenDigest(req.token).Some? && subject.None? ==>
      ForgotPasswordSpec(s, svc, subject, req, env) == (InvalidCredentials, s)
    ensures svc.tokenDigest(req.token).Some? && subject.Some? ==>
      var u := subject.value;
      && (Add(u.passwordResetIssuedAt, 3600) < env.now ==> ForgotPasswordSpec(s, svc, subject, req, env) == (ExpiredToken, s))
      && (NoOverflow(u.passwordResetIssuedAt, 3600) && u.passwordResetIssuedAt as int + 3600 == env.now as int ==>
            ForgotPasswordSpec(s, svc, subject, req, env).1
              == ChangeUserPasswordSpec(s, svc, u, req.newPassword, env.clientIp, env).store)
  {
  }

  /**
   * As written, a successful reset leaves the user's reset token and its issue time in
   * place: the lookup by the same hash still returns that user.
   */
  lemma ResetTokenSurvivesReset(s: Store, svc: Services, u: User, req: PasswordResetRequest, env: Env)
    requires svc.tokenDigest(req.token).Some?
    requires ByResetToken(s.users, svc.tokenDigest(req.token).value, Some(u))
    requires ForgotPasswordSpec(s, svc, Some(u), req, env).0 == Ok
    ensures var s1 := ForgotPasswordSpec(s, svc, Some(u), req, env).1;
      && u.id in s1.users
      && s1.users[u.id].passwordResetToken == u.passwordResetToken
      && s1.users[u.id].passwordResetIssuedAt == u.passwordResetIssuedAt
      && ByResetToken(s1.users, svc.tokenDigest(req.token).value, Some(s1.users[u.id]))
  {
  }

  /** A password check that accepts a password against the "hash" equal to it (for the example below). */
  function PlainCompare(hash: string, plain: string): bool {
    hash == plain
  }

  /** A digest that maps every token to "h1" (for the example below). */
  function ConstantDigest(token: string): Option<string> {
    Some("h1")
  }

  /**
   * The same mailed token resets the password twice: after a first reset to "pw1", a
   * second request with the same token within the hour sets "pw2" and succeeds as well.
   */
  lemma ForgotPasswordReplayed()
    ensures
      var svc := Services([], (t, k, b, n) => None, (u, n) => ZeroJwt, PlainCompare, p => true, e => true,
                          ConstantDigest, n => "");
      var alice := User(7, "alice", "alice@example.com", "old", 0, "user", true, "", 0, "h1", 1000, 0);
      var s := Store(map[7 := alice], {}, []);
      var env1 := Env(1500, "10.0.0.1", "10.0.0.1", None, false, Some("pw1"), 0, {});
      var env2 := env1.(now := 2000, passwordHash := Some("pw2"));
      var r1 := ForgotPasswordSpec(s, svc, Some(alice), PasswordResetRequest("mailed", "pw1"), env1);
      var bob := r1.1.users[7];
      var r2 := ForgotPasswordSpec(r1.1, svc, Some(bob), PasswordResetRequest("mailed", "pw2"), env2);
      && r1.0 == Ok
      && ByResetToken(r1.1.users, "h1", Some(bob))
      && r2.0 == Ok
      && r2.1.users[7].passwordHash == "pw2"
  {
    var alice := User(7, "alice", "alice@example.com", "old", 0, "user", true, "", 0, "h1", 1000, 0);
    assert Add(1000, ForgotPasswordExpiry) == 4600;
    assert "old" != "pw1" && "pw1" != "pw2";
  }

  /** The zero token, the JWT factory of the example above. */
  const ZeroJwt: Jwt.Jwt := Jwt.Jwt(Jwt.Header("", ""), Jwt.Claims(0, "", 0, 0, "", "", ""))

  /** `HandleForgotPassword` with the reset token cleared once the password is changed. */
  function ForgotPasswordSingleUseSpec(s: Store, svc: Services, subject: Option<User>, req: PasswordResetRequest,
                                       env: Env): (Response, Store)
  {
    if svc.tokenDigest(req.token).None? then (InternalError, s)
    else if subject.None? then (InvalidCredentials, s)
    else if !ResetTokenLive(subject.value, env.now) then (ExpiredToken, s)
    else
      var c := ChangeUserPasswordSpec(s, svc, subject.value, req.newPassword, env.clientIp, env);
      if !c.ok then (c.resp, c.store)
      else if OpInvalidateResetToken in env.failing then (InternalError, c.store)
      else (Ok, c.store.(users := Modify(c.store.users, subject.value.id, ClearResetToken)))
  }

  /** `HandleForgotPassword`, calling `InvalidateResetToken` after a successful change. */
  method HandleForgotPasswordSingleUse(ar: AuthRouter, req: PasswordResetRequest, env: Env)
    returns (resp: Response, ghost subject: Option<User>)
    requires ar.Valid()
    modifies ar.userRepo, ar.lockoutRepo
    ensures ar.Valid()
    ensures ar.svc.tokenDigest(req.token).Some? ==>
      ByResetToken(old(ar.userRepo.users), ar.svc.tokenDigest(req.token).value, subject)
    ensures (resp, ar.Snapshot()) == ForgotPasswordSingleUseSpec(old(ar.Snapshot()), ar.svc, subject, req, env)
  {
    subject := None;
    var tokenHash := ar.svc.tokenDigest(req.token);
    if tokenHash.None? {
      return InternalError, subject;
    }
    var user := ar.userRepo.GetUserByResetToken(tokenHash.value);
    subject := user;
    if user.None? {
      return InvalidCredentials, subject;
    }
    var expiry := Add(user.value.passwordResetIssuedAt, ForgotPasswordExpiry);
    if expiry < env.now {
      return ExpiredToken, subject;
    }
    var ok, written := ChangeUserPassword(ar, user.value, req.newPassword, env.clientIp, env);
    if !ok {
      return written, subject;
    }
    var err := ar.userRepo.InvalidateResetToken(user.value.id, OpInvalidateResetToken in env.failing);
    if err {
      return InternalError, subject;
    }
    resp := Ok;
  }

  /**
   * With the token cleared, a reset token works once: when its holder is the only user
   * with that hash, a second request with the same token finds no user.
   */
  lemma {:induction false} SingleUseResetRejectsReplay(s: Store, svc: Services, u: User, req: PasswordResetRequest,
                                                       env1: Env, req2: PasswordResetRequest, subject2: Option<User>,
                                                       env2: Env)
    requires DigestNeverEmpty(svc) && svc.tokenDigest(req.token).Some?
    requires ByResetToken(s.users, svc.tokenDigest(req.token).value, Some(u))
    requires forall id :: id in s.users && s.users[id].passwordResetToken == svc.tokenDigest(req.token).value ==> id == u.id
    requires ForgotPasswordSingleUseSpec(s, svc, Some(u), req, env1).0 == Ok
    requires req2.token == req.token
    requires ByResetToken(ForgotPasswordSingleUseSpec(s, svc, Some(u), req, env1).1.users, svc.tokenDigest(req.token).value, subject2)
    ensures var s1 := ForgotPasswordSingleUseSpec(s, svc, Some(u), req, env1).1;
      ForgotPasswordSingleUseSpec(s1, svc, subject2, req2, env2) == (InvalidCredentials, s1)
  {
    var h := svc.tokenDigest(req.token).value;
    var c := ChangeUserPasswordSpec(s, svc, u, req.newPassword, env1.clientIp, env1);
    var s1 := ForgotPasswordSingleUseSpec(s, svc, Some(u), req, env1).1;
    assert s1.users == Modify(c.store.users, u.id, ClearResetToken);
    ChangeUserPasswordKeepsResetTokens(s, svc, u, req.newPassword, env1.clientIp, env1);
    forall id | id in s1.users ensures s1.users[id].passwordResetToken != h {
      if id != u.id {
        assert s1.users[id] == c.store.users[id];
      }
    }
  }

  lemma ForgotPasswordPreservesInvariant(s: Store, svc: Services, subject: Option<User>, req: PasswordResetRequest, env: Env)
    requires StoreInvariant(s)
    ensures StoreInvariant(ForgotPasswordSpec(s, svc, subject, req, env).1)
    ensures StoreInvariant(ForgotPasswordSingleUseSpec(s, svc, subject, req, env).1)
  {
    if subject.Some? {
      var c := ChangeUserPasswordSpec(s, svc, subject.value, req.newPassword, env.clientIp, env);
      ChangeUserPasswordPreservesInvariant(s, svc, subject.value, req.newPassword, env.clientIp, env);
      ModifyKeepsKeys(c.store.users, subject.value.id, ClearResetToken);
    }
  }

  /** `HandleSendForgotPassword` for the user the email lookup returned. */
  function SendForgotPasswordSpec(s: Store, subject: Option<User>, env: Env): (Response, Store) {
    if subject.None? then (InvalidCredentials, s)
    else
      var token := MailedToken(env.random, env.mailSent);
      if token.None? || OpAssignUserResetToken in env.failing then (InternalError, s)
      else
        (Message(200, "message", "password reset sent"),
         s.(users := Modify(s.users, subject.value.id, SetResetToken(token.value.hash, env.now))))
  }

  /** `HandleSendForgotPassword`; `mail` is the message handed to the mailer, if any. */
  method HandleSendForgotPassword(ar: AuthRouter, req: EmailRequest, env: Env)
    returns (resp: Response, mail: Option<Mail>, ghost subject: Option<User>)
    requires ar.Valid()
    modifies ar.userRepo
    ensures ar.Valid()
    ensures ByEmail(old(ar.userRepo.users), req.email, subject)
    ensures (resp, ar.Snapshot()) == SendForgotPasswordSpec(old(ar.Snapshot()), subject, env)
    ensures mail.Some? <==> subject.Some? && env.random.Some?
    ensures mail.Some? ==>
      && mail.value.template == "forgotpassword"
      && mail.value.headers == [("Subject", "Password reset"), ("To", subject.value.email)]
      && mail.value.data == map["Token" := env.random.value.raw, "Url" := req.url]
  {
    mail := None;
    var user, err := ar.userRepo.GetUserByEmail(req.email);
    subject := if err then None else Some(user);
    if err {
      return InvalidCredentials, mail, subject;
    }
    var token;
    token, mail := GenerateTokenAndSendEmail(user.email, "forgotpassword", "Password reset", req.url, [],
                                             env.random, env.mailSent);
    if token.None? {
      return InternalError, mail, subject;
    }
    var failed := ar.userRepo.AssignUserResetToken(token.value.hash, env.now, user.id, OpAssignUserResetToken in env.failing);
    if failed {
      return InternalError, mail, subject;
    }
    resp := Message(200, "message", "password reset sent");
  }

  /**
   * A reset token is stored, with issue time `now`, only for a known user, only after the
   * mail was sent, and then it is the hash of the token that was mailed.
   */
  lemma SendForgotPasswordAfterMail(s: Store, subject: Option<User>, env: Env)
    ensures var (resp, s2) := SendForgotPasswordSpec(s, subject, env);
      && s2.blacklist == s.blacklist && s2.events == s.events
      && (subject.None? ==> resp == InvalidCredentials && s2 == s)
      && (s2 != s ==> subject.Some? && env.random.Some? && env.mailSent)
      && (subject.Some? && (env.random.None? || !env.mailSent) ==> resp == InternalError && s2 == s)
      && (resp == Message(200, "message", "password reset sent") <==>
            subject.Some? && env.random.Some? && env.mailSent && OpAssignUserResetToken !in env.failing)
      && (resp.Message? ==>
            s2.users == Modify(s.users, subject.value.id, SetResetToken(env.random.value.hash, env.now)))
  {
  }

  lemma SendForgotPasswordPreservesInvariant(s: Store, subject: Option<User>, env: Env)
    requires StoreInvariant(s)
    ensures StoreInvariant(SendForgotPasswordSpec(s, subject, env).1)
  {
    if subject.Some? && env.random.Some? {
      ModifyKeepsKeys(s.users, subject.value.id, SetResetToken(env.random.value.hash, env.now));
    }
  }

  /** `HandleChangePassword` for the user the request context holds, if any. */
  function ChangePasswordSpec(s: Store, svc: Services, ctxUser: Option<User>, req: PasswordChangeRequest, env: Env)
    : (Response, Store)
  {
    if ctxUser.None? then (Unwritten, s)
    else if !svc.comparePassword(ctxUser.value.passwordHash, req.oldPassword) then (InvalidCredentials, s)
    else
      var c := ChangeUserPasswordSpec(s, svc, ctxUser.value, req.newPassword, env.clientIp, env);
      (if c.ok then Ok else c.resp, c.store)
  }

  /** `HandleChangePassword`; the context user is an input. */
  method HandleChangePassword(ar: AuthRouter, ctxUser: Option<User>, req: PasswordChangeRequest, env: Env)
    returns (resp: Response)
    requires ar.Valid()
    modifies ar.userRepo, ar.lockoutRepo
    ensures ar.Valid()
    ensures (resp, ar.Snapshot()) == ChangePasswordSpec(old(ar.Snapshot()), ar.svc, ctxUser, req, env)
  {
    if ctxUser.None? {
      return Unwritten;
    }
    var user := ctxUser.value;
    if !ar.svc.comparePassword(user.passwordHash, req.oldPassword) {
      return InvalidCredentials;
    }
    var ok, written := ChangeUserPassword(ar, user, req.newPassword, env.clientIp, env);
    if !ok {
      return written;
    }
    resp := Ok;
  }

  /** Nothing changes unless the current password matches; a successful change answers 200. */
  lemma ChangePasswordNeedsOldPassword(s: Store, svc: Services, u: User, req: PasswordChangeRequest, env: Env)
    ensures !svc.comparePassword(u.passwordHash, req.oldPassword) ==>
      ChangePasswordSpec(s, svc, Some(u), req, env) == (InvalidCredentials, s)
    ensures svc.comparePassword(u.passwordHash, req.oldPassword) ==>
      var c := ChangeUserPasswordSpec(s, svc, u, req.newPassword, env.clientIp, env);
      ChangePasswordSpec(s, svc, Some(u), req, env) == (if c.ok then Ok else c.resp, c.store)
  {
  }

  lemma ChangePasswordPreservesInvariant(s: Store, svc: Services, ctxUser: Option<User>, req: PasswordChangeRequest, env: Env)
    requires StoreInvariant(s)
    ensures StoreInvariant(ChangePasswordSpec(s, svc, ctxUser, req, env).1)
  {
    if ctxUser.Some? {
      ChangeUserPasswordPreservesInvariant(s, svc, ctxUser.value, req.newPassword, env.clientIp, env);
    }
  }
}
