/** internal/api/routes/auth/authhandler/register.go: creating an account and mailing its confirmation token. */
module Register {
  import opened Wrappers
  import opened Int64
  import opened Model
  import opened Storage
  import opened Api
  import opened Services
  import opened HandlerUtils
  import opened Repos
  import opened UserRepos
  import opened AuthRouters

  /** The answer to every rejected registration form: 400 "invalid credentials". */
  const Rejected: Response := PlainError(400, "invalid credentials")

  /** The form is complete and well-formed: no empty field, no '@' in the username, a valid email and password. */
  predicate WellFormed(svc: Services, req: RegisterRequest) {
    && req.username != "" && req.email != "" && req.password != ""
    && '@' !in req.username && svc.isValidEmail(req.email) && svc.isValidPassword(req.password)
  }

  /** The user `HandleRegister` builds: a fresh snowflake id, role "user", not yet confirmed. */
  function NewUser(req: RegisterRequest, hash: string, env: Env): User {
    ZeroUser.(id := env.snowflakeId, username := req.username, passwordHash := hash, email := req.email,
              createdAt := env.now, role := "user", emailConfirmed := false)
  }

  /** `HandleRegister`: validate, check the username, hash, create, mail, then store the token hash. */
  function RegisterSpec(s: Store, svc: Services, req: RegisterRequest, env: Env): (Response, Store) {
    if req.username == "" || req.email == "" || req.password == "" then (Rejected, s)
    else if '@' in req.username || !svc.isValidEmail(req.email) || !svc.isValidPassword(req.password) then (Rejected, s)
    else if OpDuplicateName in env.failing then (InternalError, s)
    else if NameTaken(s.users, req.username) then (Rejected, s)
    else if env.passwordHash.None? then (InternalError, s)
    else CreateSpec(s, NewUser(req, env.passwordHash.value, env), env)
  }

  /** The writes of `HandleRegister` once the user is built: insert, mail, then the confirmation token. */
  function CreateSpec(s: Store, u: User, env: Env): (Response, Store) {
    if OpCreateUser in env.failing || u.id in s.users then (InternalError, s)
    else
      var s1 := s.(users := s.users[u.id := u]);
      var token := MailedToken(env.random, env.mailSent);
      if token.None? || OpAssignUserConfirmToken in env.failing then (InternalError, s1)
      else (Message(200, "message", "user created"),
            s1.(users := Modify(s1.users, u.id, SetConfirmToken(token.value.hash, env.now))))
  }

  /** The second half of `HandleRegister` (register.go:65-87): insert the built user, mail it a token, store the hash. */
  method CreateAndConfirm(ar: AuthRouter, user: User, url: string, env: Env) returns (resp: Response, mail: Option<Mail>)
    requires ar.Valid() && AssignColumns(ZeroUser, ar.userRepo.columns.allColumns, user) == user
    modifies ar.userRepo
    ensures ar.Valid()
    ensures (resp, ar.Snapshot()) == CreateSpec(old(ar.Snapshot()), user, env)
    ensures mail.Some? ==> env.random.Some? && user.id in ar.userRepo.users
    ensures mail.Some? ==>
      && mail.value.template == "confirmregister"
      && mail.value.headers == [("Subject", "Email confirmation"), ("To", user.email)]
      && mail.value.data == map["Token" := env.random.value.raw, "Url" := url]
  {
    mail := None;
    var err := ar.userRepo.CreateUser(user, OpCreateUser in env.failing);
    if err {
      return InternalError, mail;
    }
    var token;
    token, mail := GenerateTokenAndSendEmail(user.email, "confirmregister", "Email confirmation", url, [],
                                             env.random, env.mailSent);
    if token.None? {
      return InternalError, mail;
    }
    var failed := ar.userRepo.AssignUserConfirmToken(token.value.hash, env.now, user.id,
                                                      OpAssignUserConfirmToken in env.failing);
    if failed {
      return InternalError, mail;
    }
    resp := Message(200, "message", "user created");
  }

  /** `HandleRegister`; `mail` is the message handed to the mailer, if any. */
  method HandleRegister(ar: AuthRouter, req: RegisterRequest, env: Env) returns (resp: Response, mail: Option<Mail>)
    requires ar.Valid() && ar.userRepo.HasUserColumns()
    modifies ar.userRepo
    ensures ar.Valid()
    ensures (resp, ar.Snapshot()) == RegisterSpec(old(ar.Snapshot()), ar.svc, req, env)
    ensures mail.Some? ==> env.random.Some? && env.snowflakeId in ar.userRepo.users
    ensures mail.Some? ==>
      && mail.value.template == "confirmregister"
      && mail.value.headers == [("Subject", "Email confirmation"), ("To", req.email)]
      && mail.value.data == map["Token" := env.random.value.raw, "Url" := req.url]
  {
    mail := None;
    if req.username == "" || req.email == "" || req.password == "" {
      return Rejected, mail;
    }
    if '@' in req.username || !ar.svc.isValidEmail(req.email) || !ar.svc.isValidPassword(req.password) {
      return Rejected, mail;
    }
    var duplicate := ar.userRepo.DuplicateName(req.username, OpDuplicateName in env.failing);
    if duplicate.Failure? {
      return InternalError, mail;
    }
    if duplicate.value {
      assert NameTaken(ar.userRepo.users, req.username) by {
        var v :| v in ar.userRepo.users.Values && v.username == req.username;
        var id :| id in ar.userRepo.users && ar.userRepo.users[id] == v;
      }
      return Rejected, mail;
    }
    if env.passwordHash.None? {
      return InternalError, mail;
    }
    var user := NewUser(req, env.passwordHash.value, env);
    StoredUserRow(ar.userRepo.columns, user);
    resp, mail := CreateAndConfirm(ar, user, req.url, env);
  }

  /** An incomplete or malformed form is refused with 400 and nothing is written; a well-formed one with a free name is not refused. */
  lemma RegisterRejectsMalformed(s: Store, svc: Services, req: RegisterRequest, env: Env)
    ensures !WellFormed(svc, req) ==> RegisterSpec(s, svc, req, env) == (Rejected, s)
    ensures WellFormed(svc, req) && !NameTaken(s.users, req.username) ==> RegisterSpec(s, svc, req, env).0 != Rejected
  {
  }

  /** A taken username is refused with 400 and no user is created. */
  lemma RegisterRejectsTakenName(s: Store, svc: Services, req: RegisterRequest, env: Env)
    requires WellFormed(svc, req) && OpDuplicateName !in env.failing
    requires NameTaken(s.users, req.username)
    ensures RegisterSpec(s, svc, req, env) == (Rejected, s)
  {
  }

  /**
   * Registration succeeds exactly when the form is well-formed, the username is free, the
   * hash, the insert, the mail and the token write all succeed. The new row then is the
   * built user, unconfirmed with role "user", holding the hash of the mailed token issued
   * now; every other row is as before.
   */
  lemma RegisterCreatesUnconfirmedUser(s: Store, svc: Services, req: RegisterRequest, env: Env)
    ensures var (resp, s1) := RegisterSpec(s, svc, req, env);
      && s1.blacklist == s.blacklist && s1.events == s.events
      && (resp == Message(200, "message", "user created") <==>
            && WellFormed(svc, req) && !NameTaken(s.users, req.username)
            && env.passwordHash.Some? && env.snowflakeId !in s.users
            && env.random.Some? && env.mailSent
            && OpDuplicateName !in env.failing && OpCreateUser !in env.failing
            && OpAssignUserConfirmToken !in env.failing)
      && (resp.Message? ==>
            && s1.users.Keys == s.users.Keys + {env.snowflakeId}
            && var u := s1.users[env.snowflakeId];
            && u.id == env.snowflakeId && u.username == req.username && u.email == req.email
            && u.passwordHash == env.passwordHash.value && u.createdAt == env.now
            && u.role == "user" && !u.emailConfirmed
            && u.emailConfirmToken == env.random.value.hash && u.emailConfirmIssuedAt == env.now
            && u.jwtSessionId == 0
            && forall id :: id in s.users ==> s1.users[id] == s.users[id])
  {
  }

  /**
   * The user row is written before the mail is sent and is kept when the send or the token
   * write fails: the request then answers 500 with the new user present and no token.
   */
  lemma RegisterKeepsUserWhenMailFails(s: Store, svc: Services, req: RegisterRequest, env: Env)
    requires WellFormed(svc, req) && !NameTaken(s.users, req.username)
    requires env.passwordHash.Some? && env.snowflakeId !in s.users
    requires OpDuplicateName !in env.failing && OpCreateUser !in env.failing
    requires env.random.None? || !env.mailSent || OpAssignUserConfirmToken in env.failing
    ensures var (resp, s1) := RegisterSpec(s, svc, req, env);
      && resp == InternalError
      && s1.users == s.users[env.snowflakeId := NewUser(req, env.passwordHash.value, env)]
      && s1.users[env.snowflakeId].emailConfirmToken == ""
  {
  }

  /**
   * Only the username is checked: a second account can be registered under an email that
   * an existing user already has.
   */
  lemma RegisterAllowsTakenEmail(s: Store, svc: Services, req: RegisterRequest, env: Env, other: int64)
    requires other in s.users && s.users[other].email == req.email
    requires WellFormed(svc, req) && !NameTaken(s.users, req.username)
    requires env.passwordHash.Some? && env.snowflakeId !in s.users && env.random.Some? && env.mailSent
    requires OpDuplicateName !in env.failing && OpCreateUser !in env.failing && OpAssignUserConfirmToken !in env.failing
    ensures var (resp, s1) := RegisterSpec(s, svc, req, env);
      && resp == Message(200, "message", "user created")
      && other != env.snowflakeId
      && s1.users[other].email == s1.users[env.snowflakeId].email
  {
    assert s.users[other].username != req.username;
  }

  lemma RegisterPreservesInvariant(s: Store, svc: Services, req: RegisterRequest, env: Env)
    requires StoreInvariant(s)
    ensures StoreInvariant(RegisterSpec(s, svc, req, env).1)
  {
    if WellFormed(svc, req) && env.passwordHash.Some? && env.snowflakeId !in s.users {
      var u := NewUser(req, env.passwordHash.value, env);
      var users := s.users[u.id := u];
      assert KeysMatchIds(users) && ConfirmedHasNoToken(users);
      if env.random.Some? {
        ModifyKeepsRowInvariants(users, u.id, SetConfirmToken(env.random.value.hash, env.now));
      }
    }
  }
}
