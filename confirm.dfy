/** internal/api/routes/auth/authhandler/confirm.go: confirming an email address, and mailing a new confirmation token. */
module Confirm {
  import opened Wrappers
  import opened Int64
  import opened Config
  import opened Model
  import opened Storage
  import opened Api
  import opened Services
  import opened HandlerUtils
  import opened UserRepos
  import opened LockoutRepos
  import opened AuthRouters

  /** A confirmation token is still usable when its issue time plus `EmailConfirmExpiry` is not before `now`. */
  predicate ConfirmTokenLive(u: User, now: int64) {
    !(Add(u.emailConfirmIssuedAt, EmailConfirmExpiry) < now)
  }

  /** `HandleConfirmEmail` for the user the confirmation-token lookup returned (`subject`). */
  function ConfirmSpec(s: Store, svc: Services, subject: Option<User>, req: TokenRequest, env: Env): (Response, Store) {
    if svc.tokenDigest(req.token).None? then (InternalError, s)
    else if subject.None? then (InvalidCredentials, s)
    else if subject.value.emailConfirmed then (InvalidCredentials, s)
    else if !ConfirmTokenLive(subject.value, env.now) then (ExpiredToken, s)
    else if OpMarkUserConfirmed in env.failing then (InternalError, s)
    else (Ok, s.(users := Modify(s.users, subject.value.id, MarkConfirmed)))
  }

  /** `HandleConfirmEmail`. */
  method HandleConfirmEmail(ar: AuthRouter, req: TokenRequest, env: Env)
    returns (resp: Response, ghost subject: Option<User>)
    requires ar.Valid()
    modifies ar.userRepo
    ensures ar.Valid()
    ensures ar.svc.tokenDigest(req.token).Some? ==>
      ByConfirmToken(old(ar.userRepo.users), ar.svc.tokenDigest(req.token).value, subject)
    ensures (resp, ar.Snapshot()) == ConfirmSpec(old(ar.Snapshot()), ar.svc, subject, req, env)
  {
    subject := None;
    var tokenHash := ar.svc.tokenDigest(req.token);
    if tokenHash.None? {
      return InternalError, subject;
    }
    var user := ar.userRepo.GetUserByConfirmationToken(tokenHash.value);
    subject := user;
    if user.None? {
      return InvalidCredentials, subject;
    }
    if user.value.emailConfirmed {
      return InvalidCredentials, subject;
    }
    var expiry := Add(user.value.emailConfirmIssuedAt, EmailConfirmExpiry);
    if expiry < env.now {
      return ExpiredToken, subject;
    }
    var err := ar.userRepo.MarkUserConfirmed(user.value.id, OpMarkUserConfirmed in env.failing);
    if err {
      return InternalError, subject;
    }
    resp := Ok;
  }

  /**
   * Confirmation succeeds exactly for a live token of an unconfirmed user when the write
   * succeeds, and then only that user changes: confirmed, with the token cleared. Every
   * other outcome writes nothing.
   */
  lemma ConfirmOutcomes(s: Store, svc: Services, subject: Option<User>, req: TokenRequest, env: Env)
    ensures var (resp, s1) := ConfirmSpec(s, svc, subject, req, env);
      && (resp == Ok <==>
            && svc.tokenDigest(req.token).Some? && subject.Some? && !subject.value.emailConfirmed
            && ConfirmTokenLive(subject.value, env.now) && OpMarkUserConfirmed !in env.failing)
      && (resp != Ok ==> s1 == s)
      && (resp == Ok ==>
            && s1.blacklist == s.blacklist && s1.events == s.events
            && s1.users.Keys == s.users.Keys
            && (subject.value.id in s.users ==>
                  && s1.users[subject.value.id].emailConfirmed
                  && s1.users[subject.value.id].emailConfirmToken == ""
                  && s1.users[subject.value.id].passwordHash == s.users[subject.value.id].passwordHash)
            && forall id :: id in s.users && id != subject.value.id ==> s1.users[id] == s.users[id])
  {
  }

  /**
   * The expiry test is strict: one second past issue time plus a day the token is refused;
   * at exactly that second it is accepted.
   */
  lemma ConfirmExpiryBoundary(u: User, now: int64)
    requires NoOverflow(u.emailConfirmIssuedAt, 86400)
    ensures ConfirmTokenLive(u, now) <==> now as int <= u.emailConfirmIssuedAt as int + 86400
  {
  }

  /**
   * A confirmation token works once: when its holder is the only user with that hash, a
   * second request with the same token finds no user after a first confirmation.
   */
  lemma {:induction false} ConfirmTwiceFails(s: Store, svc: Services, u: User, req: TokenRequest, env1: Env,
                                             subject2: Option<User>, env2: Env)
    requires DigestNeverEmpty(svc) && svc.tokenDigest(req.token).Some?
    requires ByConfirmToken(s.users, svc.tokenDigest(req.token).value, Some(u))
    requires forall id :: id in s.users && s.users[id].emailConfirmToken == svc.tokenDigest(req.token).value ==> id == u.id
    requires ConfirmSpec(s, svc, Some(u), req, env1).0 == Ok
    requires ByConfirmToken(ConfirmSpec(s, svc, Some(u), req, env1).1.users, svc.tokenDigest(req.token).value, subject2)
    ensures var s1 := ConfirmSpec(s, svc, Some(u), req, env1).1;
      ConfirmSpec(s1, svc, subject2, req, env2) == (InvalidCredentials, s1)
  {
    var h := svc.tokenDigest(req.token).value;
    var s1 := ConfirmSpec(s, svc, Some(u), req, env1).1;
    assert s1.users == Modify(s.users, u.id, MarkConfirmed);
    forall id | id in s1.users ensures s1.users[id].emailConfirmToken != h {
      if id != u.id {
        assert s1.users[id] == s.users[id];
      }
    }
  }

  lemma ConfirmPreservesInvariant(s: Store, svc: Services, subject: Option<User>, req: TokenRequest, env: Env)
    requires StoreInvariant(s)
    ensures StoreInvariant(ConfirmSpec(s, svc, subject, req, env).1)
  {
    if subject.Some? {
      ModifyKeepsRowInvariants(s.users, subject.value.id, MarkConfirmed);
    }
  }

  /** The validity `HandleResendConfirmation` writes into the mail: one day. */
  const ConfirmValidity: int := 24 * 3600

  /** `HandleResendConfirmation` for the user the email lookup returned. */
  function ResendSpec(s: Store, subject: Option<User>, env: Env): (Response, Store) {
    if subject.None? then (InvalidCredentials, s)
    else if subject.value.emailConfirmed then (PlainError(400, "email already confirmed"), s)
    else
      var token := MailedToken(env.random, env.mailSent);
      if token.None? || OpAssignUserConfirmToken in env.failing then (InternalError, s)
      else
        (Message(200, "message", "confirmation email resent"),
         s.(users := Modify(s.users, subject.value.id, SetConfirmToken(token.value.hash, env.now))))
  }

  /** `HandleResendConfirmation`; `mail` is the message handed to the mailer, if any. */
  method HandleResendConfirmation(ar: AuthRouter, req: EmailRequest, env: Env)
    returns (resp: Response, mail: Option<Mail>, ghost subject: Option<User>)
    requires ar.Valid()
    modifies ar.userRepo
    ensures ar.Valid()
    ensures ByEmail(old(ar.userRepo.users), req.email, subject)
    ensures (resp, ar.Snapshot()) == ResendSpec(old(ar.Snapshot()), subject, env)
    ensures mail.Some? <==> subject.Some? && !subject.value.emailConfirmed && env.random.Some?
    ensures mail.Some? ==>
      && mail.value.template == "confirmregister"
      && mail.value.headers == [("Subject", "Email confirmation"), ("To", subject.value.email)]
      && mail.value.data == map["Token" := env.random.value.raw, "Url" := req.url,
                                "Expiry" := ar.svc.expiryToString(ConfirmValidity)]
  {
    mail := None;
    var user, err := ar.userRepo.GetUserByEmail(req.email);
    subject := if err then None else Some(user);
    if err {
      return InvalidCredentials, mail, subject;
    }
    if user.emailConfirmed {
      return PlainError(400, "email already confirmed"), mail, subject;
    }
    var expiryStr := ar.svc.expiryToString(ConfirmValidity);
    var token;
    token, mail := GenerateTokenAndSendEmail(user.email, "confirmregister", "Email confirmation", req.url, [expiryStr],
                                             env.random, env.mailSent);
    if token.None? {
      return InternalError, mail, subject;
    }
    var failed := ar.userRepo.AssignUserConfirmToken(token.value.hash, env.now, user.id,
                                                      OpAssignUserConfirmToken in env.failing);
    if failed {
      return InternalError, mail, subject;
    }
    resp := Message(200, "message", "confirmation email resent");
  }

  /**
   * A new confirmation token is stored only for a known, unconfirmed user, only after the
   * mail was sent, and then it is the hash of the mailed token, issued now.
   */
  lemma ResendOutcomes(s: Store, subject: Option<User>, env: Env)
    ensures var (resp, s1) := ResendSpec(s, subject, env);
      && s1.blacklist == s.blacklist && s1.events == s.events
      && (subject.None? ==> resp == InvalidCredentials && s1 == s)
      && (subject.Some? && subject.value.emailConfirmed ==> resp == PlainError(400, "email already confirmed") && s1 == s)
      && (resp == Message(200, "message", "confirmation email resent") <==>
            && subject.Some? && !subject.value.emailConfirmed && env.random.Some? && env.mailSent
            && OpAssignUserConfirmToken !in env.failing)
      && (s1 != s ==> resp.Message?)
      && (resp.Message? ==>
            s1.users == Modify(s.users, subject.value.id, SetConfirmToken(env.random.value.hash, env.now)))
  {
  }

  lemma ResendPreservesInvariant(s: Store, subject: Option<User>, env: Env)
    requires StoreInvariant(s)
    requires subject.Some? ==> ByEmail(s.users, subject.value.email, subject)
    ensures StoreInvariant(ResendSpec(s, subject, env).1)
  {
    if subject.Some? && !subject.value.emailConfirmed && env.random.Some? {
      ModifyKeepsRowInvariants(s.users, subject.value.id, SetConfirmToken(env.random.value.hash, env.now));
    }
  }
}
