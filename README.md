# gocode authentication core, modelled in Dafny

This project models the authentication core of the `gocode` Go web-server template:

- the JWT claim stamping (`internal/jwt/model.go`);
- the bearer-token middleware (`internal/middleware/auth.go`);
- the column reflection and the user repository (`internal/repo/repos.go`, `internal/repo/userrepo.go`);
- the handlers of `internal/api/routes/auth/authhandler`: login and refresh, logout and logout-everywhere, password reset and change, email confirmation and registration, and their two helpers in `utils.go`.

Each handler is a method on the `AuthRouter` class, which holds the three repositories. The method's postcondition ties the response it writes, and the repository contents afterwards, to a pure decision function (`LoginSpec`, `ForgotPasswordSpec`, …). That function takes the same branches, in the same order, as the Go handler. The properties are lemmas about these functions. Every handler also keeps the store invariant `StoreInvariant`:

- every user row sits under its own id;
- a confirmed user holds no confirmation token;
- every blacklist entry is permanent;
- every lockout record directly follows the failed attempt that caused it.

How the environment is modelled:

- **Per-request inputs.** What a request sees of the world is an `Env`: one clock reading, the peer and client addresses, the random token for a mail, whether the mail is sent, the bcrypt hash of the submitted password, the snowflake id, and the set of storage calls that fail.
- **Failing writes.** A failing write changes nothing; the error paths of every handler are modelled.
- **Lookups.** A SQL lookup that may match several rows returns any one of them. The handler exposes which row as a ghost `subject`, tied to the table by `ByEmail`, `ByConfirmToken` and `ByResetToken`.
- **Code outside the model.** It is a function value: token validation, the JWT factory, bcrypt, the validators, the token digest, the expiry formatter and the two lockout queries.
- **Integers.** `int64` is a newtype. Go's wrapping `+` on expiry times is `Int64.Add`.

## Model

| member | source | states |
|---|---|---|
| Int64.Add | internal/jwt/model.go:17 | the wrapping int64 sum: exact when no overflow, congruent modulo 2^64, and on overflow below (or above) the first operand |
| Jwt.Lifetime | internal/jwt/model.go:10-13 | credential tokens live 86400 s, refresh tokens 604800 s, any other type 0 (Go's missing-map-key value) |
| Jwt.WithType | internal/jwt/model.go:15-19 | the result has the requested type, expiry `now + Lifetime(t)` (wrapping), the same header and the same identity claims |
| Jwt.WithTypeOverrides | internal/jwt/model.go:15-19 | re-stamping a token keeps only the last type and clock reading |
| Jwt.WithTypeIdempotent | internal/jwt/model.go:15-19 | stamping twice with the same type and clock is stamping once |
| Jwt.UnknownTypeExpiresNow | internal/jwt/model.go:10-17 | a type missing from the table gives a token that expires at the moment of stamping |
| Jwt.RefreshOutlivesCredential | internal/jwt/model.go:10-17 | without overflow, the refresh token outlives the credential token by 6 days |
| Middleware.TrimPrefix | internal/middleware/auth.go:48 | with the prefix present, prefix + result is the input; without it, the input is returned unchanged |
| Middleware.GetClaims | internal/middleware/auth.go:52-60 | the claims are the validator's verdict under the configured secret; failure writes "invalid credentials", success writes nothing |
| Middleware.GetClaimsIgnoresSecret | internal/middleware/auth.go:52-53 | the result does not depend on the secret argument |
| Middleware.GetClaimsFromHeader | internal/middleware/auth.go:41-50 | a header without "Bearer " (the empty one included) is refused with no claims; otherwise the token is the header's remainder after the prefix |
| Middleware.BearerTokenRoundTrip | internal/middleware/auth.go:43-48 | "Bearer " + token passes the prefix test and trims back to the token |
| Middleware.JwtAuth | internal/middleware/auth.go:22-39 | the next handler runs iff the claims are valid and of the expected type, with the user id under "userID" in the context; otherwise the request is refused |
| Middleware.AddAuth | internal/middleware/auth.go:16-19 | the routes it guards pass only credential-type tokens |
| Middleware.RefreshTokenRejectedByAddAuth | internal/middleware/auth.go:16-33 | a valid refresh token presented as a bearer token is refused by the guarded routes |
| HandlerUtils.GenerateLogin | internal/api/routes/auth/authhandler/utils.go:35-40 | the session token has type credential and expiry now + 86400; the refresh token has type refresh and expiry now + 604800; both keep the input's header and identity |
| HandlerUtils.LoginPairSharesTokenId | internal/api/routes/auth/authhandler/utils.go:35-37 | both tokens of a pair carry the input's token id |
| HandlerUtils.MailedToken | internal/api/routes/auth/authhandler/utils.go:12-32 | a token is returned iff one was drawn and the send succeeded, and it is the drawn one |
| HandlerUtils.GenerateTokenAndSendEmail | internal/api/routes/auth/authhandler/utils.go:11-33 | a mail is composed iff a token was drawn: the given template, Subject and To headers, Token = raw token, Url, and Expiry exactly when an expiry is given; the token is returned only after a successful send |
| Repos.LookupTag | internal/repo/repos.go:41 | `None` iff no tag has the key; a found value is the value of the first tag with that key (no earlier tag has the key) |
| Repos.PrefixEach | internal/repo/repos.go:53 | every element gets the prefix, in order |
| Repos.AllColumnNamesSnoc | internal/repo/repos.go:39-45 | appending a field appends its column name |
| Repos.SafeColumnNamesSnoc | internal/repo/repos.go:47-49 | appending a field appends its column to the safe list exactly when it is tagged safe |
| Repos.AllColumnNamesAt | internal/repo/repos.go:39-45 | one column per field, in declaration order |
| Repos.SafeColumnNamesMembership | internal/repo/repos.go:47-49 | a name is a safe column iff some safe-tagged field has that column name |
| Repos.SafeColumnsAreSubsequence | internal/repo/repos.go:47-49 | the safe columns are a subsequence of all columns |
| Repos.PrefixedJoin | internal/repo/repos.go:52-56 | ":" + join(cols, ", :") is ":" for no columns and otherwise the join of ":"-prefixed columns |
| Repos.ExtractColumns | internal/repo/repos.go:33-66 | a struct, or a pointer to one, gives its column record: one column per field in order, the raw and prefixed joins, the safe subsequence; anything else gives none |
| Repos.ColumnFromDbTag | internal/repo/repos.go:41-44 | a `db` tag other than "-" names the column |
| Repos.SafeFromSecondTag | internal/repo/repos.go:47 | a field tagged `safe:"true"` is safe |
| Repos.UnsafeDbJson | internal/repo/repos.go:47 | a field with only `db` and `json` tags is not safe |
| Repos.SafeUserFields | internal/model/user.go:4-9 | id, username, email, created_at and user_role are safe columns of `User` |
| Repos.UnsafeUserFields | internal/model/user.go:7-12 | password_hash, email_confirmed, email_confirm_token and email_confirm_issuedat are not safe |
| Repos.UserFieldsAt | internal/model/user.go:3-13 | `User` has nine fields, in this order |
| Repos.UserSafeColumn | internal/repo/repos.go:47-49 | the safe columns of `User` are exactly {id, username, email, created_at, user_role}, so password_hash is never selected by the safe query |
| Repos.UserAllColumnsInOrder | internal/repo/repos.go:39-45 | the columns of `User` are its nine db tags in declaration order |
| UserRepos.AssignColumnCopies | internal/repo/userrepo.go:29 | binding one named column copies that field from the source and leaves the others |
| UserRepos.CopiedColumnsCompose | internal/repo/userrepo.go:29 | copying a column and then a list copies both |
| UserRepos.AssignColumnsCopies | internal/repo/userrepo.go:29 | a named statement writes exactly the listed columns from the struct |
| UserRepos.InsertedRow | internal/repo/userrepo.go:23-31 | the INSERT stores every declared field of the user; the fields `User` does not declare stay at their zero values |
| UserRepos.StoredUserRow | internal/repo/userrepo.go:17-31 | with the columns `NewUserRepo` extracts, an inserted row is the user |
| UserRepos.IdIsAColumn | internal/repo/userrepo.go:19 | the id is one of the inserted columns |
| UserRepos.SafeRow | internal/repo/userrepo.go:40-45 | a safe read fills only id, username, email, created_at and role |
| UserRepos.ExceptId | internal/repo/userrepo.go:68-71 | a column is kept iff it was listed and is not "id", and the kept columns stay in their order (a subsequence of the list) |
| UserRepos.SetClauseKeepsId | internal/repo/userrepo.go:66-76 | the SET clause never writes the id: the row keeps its id |
| UserRepos.SetItems | internal/repo/userrepo.go:67-73 | one "col = :col" item for each non-id column, in order |
| UserRepos.SetClause | internal/repo/userrepo.go:67-73 | the loop builds exactly `SetItems`: one item per non-id column, in order |
| UserRepos.Modify | internal/repo/userrepo.go:95-126 | an UPDATE … WHERE id rewrites that row only, keeps the key set, and matches no row for a missing id |
| UserRepos.ModifyKeepsKeys | internal/repo/userrepo.go:95-126 | an update that keeps ids keeps every row under its own id |
| UserRepos.ModifyKeepsRowInvariants | internal/repo/userrepo.go:95-126 | the single-column updates keep both row invariants, provided a confirmation token goes only to an unconfirmed user |
| UserRepos.UserRepo.constructor | internal/repo/userrepo.go:17-21 | the repository's columns are those extracted from `*model.User` |
| UserRepos.UserRepo.CreateUser | internal/repo/userrepo.go:23-31 | fails iff the call fails or the id exists; otherwise adds the row built from all columns |
| UserRepos.UserRepo.GetUserById | internal/repo/userrepo.go:33-38 | an error iff no row has the id; the row otherwise; a zero user alongside the error |
| UserRepos.UserRepo.GetUserByIdSafe | internal/repo/userrepo.go:40-45 | the row's safe fields only: no password hash, confirmation or reset data |
| UserRepos.UserRepo.GetUserByEmail | internal/repo/userrepo.go:59-64 | some row with that email, or an error (with a zero user) when none has it |
| UserRepos.UserRepo.GetUserByConfirmationToken | internal/repo/userrepo.go:85-93 | some row holding that confirmation hash, or none when no row holds it |
| UserRepos.UserRepo.GetUserByResetToken | internal/repo/userrepo.go:107-115 | some row holding that reset hash, or none when no row holds it |
| UserRepos.UserRepo.DuplicateName | internal/repo/userrepo.go:47-51 | true iff some user has that username; failure iff the query fails |
| UserRepos.UserRepo.DuplicateEmail | internal/repo/userrepo.go:53-57 | true iff some user has that email; failure iff the query fails |
| UserRepos.UserRepo.UpdateUser | internal/repo/userrepo.go:66-77 | the statement is "UPDATE users SET <SetItems> WHERE id = :id"; the row with the user's id gets the safe non-id columns from the user |
| UserRepos.UserRepo.DeleteUser | internal/repo/userrepo.go:79-83 | removes the row with that id |
| UserRepos.UserRepo.MarkUserConfirmed | internal/repo/userrepo.go:95-105 | that user becomes confirmed, with the token cleared and its issue time 0 |
| UserRepos.UserRepo.InvalidateResetToken | internal/repo/userrepo.go:117-126 | that user's reset token and issue time are cleared |
| UserRepos.UserRepo.AssignUserConfirmToken | internal/api/routes/auth/authhandler/confirm.go:120 | that user's confirmation hash and issue time are set |
| UserRepos.UserRepo.AssignUserResetToken | internal/api/routes/auth/authhandler/password.go:140 | that user's reset hash and issue time are set |
| UserRepos.UserRepo.ChangeUserPassword | internal/api/routes/auth/authhandler/password.go:35 | that user's password hash is replaced |
| UserRepos.UserRepo.IncrementJwtSessionId | internal/api/routes/auth/authhandler/logout.go:66 | that user's session counter goes up by one |
| UserRepos.UpdateKeepsSecrets | internal/repo/userrepo.go:66-77 | an update rewrites only username, email, created_at and role, so the password hash, the confirmation state, the tokens and the id are kept |
| UserRepos.ConfirmedTokenIsGone | internal/repo/userrepo.go:85-105 | after confirmation, a lookup by the old hash no longer finds that user |
| UserRepos.ResetTokenIsGone | internal/repo/userrepo.go:107-126 | after invalidation, a lookup by the old reset hash no longer finds that user |
| TokenRepos.TokenRepo.RevokeToken | internal/api/routes/auth/authhandler/logout.go:32-36 | adds the blacklist record unless the write fails |
| LockoutRepos.FailureThenLockout | internal/api/routes/auth/authhandler/session.go:56-76 | recording an attempt, or an attempt followed by its lockout, keeps every lockout after the attempt that caused it |
| LockoutRepos.UnlockKeepsLockouts | internal/api/routes/auth/authhandler/password.go:45 | recording an unlock keeps that invariant |
| LockoutRepos.LockoutRepo.IsLockedOut | internal/api/routes/auth/authhandler/session.go:43 | the query's verdict on the current log |
| LockoutRepos.LockoutRepo.CountRecentFailures | internal/api/routes/auth/authhandler/session.go:63 | the query's count on the current log |
| LockoutRepos.LockoutRepo.AddFailedLogin | internal/api/routes/auth/authhandler/session.go:56 | appends the attempt unless the write fails |
| LockoutRepos.LockoutRepo.AddLockout | internal/api/routes/auth/authhandler/session.go:70-76 | appends the lockout unless the write fails |
| LockoutRepos.LockoutRepo.UnlockAccount | internal/api/routes/auth/authhandler/password.go:45 | appends the unlock unless the write fails |
| Session.HandleLogin | internal/api/routes/auth/authhandler/session.go:30-97 | the response and the new lockout log are `LoginSpec`'s for the row the email lookup returned |
| Session.LoginUnknownEmail | internal/api/routes/auth/authhandler/session.go:36-41 | an unknown email gets "invalid credentials" and writes nothing |
| Session.LoginLockoutFirst | internal/api/routes/auth/authhandler/session.go:43-52 | a locked pair gets 423 whatever the password, and a failing lockout query gets 500; neither writes |
| Session.LoginWrongPassword | internal/api/routes/auth/authhandler/session.go:54-63 | a wrong password appends exactly one attempt (user, peer address, now), then at most its lockout; no tokens |
| Session.LoginLockoutThreshold | internal/api/routes/auth/authhandler/session.go:63-88 | a lockout until now + 3600 with reason "failed logins" is added iff the count exceeds 5 (answered 423); a count of at most 5 is "invalid credentials" with no lockout |
| Session.LoginUnconfirmedRefused | internal/api/routes/auth/authhandler/session.go:91-94 | an existing, unlocked user with the right password but an unconfirmed email gets "invalid credentials", the same answer as an unknown email, and nothing is written |
| Session.LoginTokensIff | internal/api/routes/auth/authhandler/session.go:43-96 | tokens are issued iff the user exists, is not locked out, gives the right password and is confirmed; the pair is `GenerateLogin` of the user's JWT, with no write |
| Session.LoginAppendsOnly | internal/api/routes/auth/authhandler/session.go:30-97 | login only appends to the lockout log |
| Session.LoginPreservesInvariant | internal/api/routes/auth/authhandler/session.go:54-85 | login keeps the store invariant |
| Session.HandleRefresh | internal/api/routes/auth/authhandler/session.go:112-138 | the response and the blacklist are `RefreshSpec`'s; a revoke error is ignored |
| Session.RefreshRotates | internal/api/routes/auth/authhandler/session.go:118-137 | a new pair is issued iff the token is a valid refresh token of an existing user; its id is blacklisted permanently unless that write fails; a non-refresh token gets an empty answer |
| Session.RefreshPreservesInvariant | internal/api/routes/auth/authhandler/session.go:130-136 | refresh keeps the store invariant |
| Session.RefreshReplayRejected | internal/api/routes/auth/authhandler/session.go:130-137 | with a sound validator, a rotated refresh token is refused on its next use |
| Logout.HandleLogout | internal/api/routes/auth/authhandler/logout.go:26-46 | the response and the blacklist are `LogoutSpec`'s |
| Logout.LogoutRevokes | internal/api/routes/auth/authhandler/logout.go:27-45 | only a valid credential token changes anything: it adds {jti, user, MaxInt64} and gets 200; a failed write gets 500 and changes nothing |
| Logout.LogoutNeedsBearer | internal/api/routes/auth/authhandler/logout.go:27-30 | without a bearer header nothing is written and the answer is "invalid credentials" |
| Logout.LogoutPreservesInvariant | internal/api/routes/auth/authhandler/logout.go:32-36 | logout keeps the store invariant |
| Logout.LogoutRetiresRefreshToken | internal/api/routes/auth/authhandler/logout.go:32-36 | with a sound validator, logging out with the session token makes the refresh token of the same pair unusable |
| Logout.HandleLogoutEverywhere | internal/api/routes/auth/authhandler/logout.go:60-76 | the response and the users table are `LogoutEverywhereSpec`'s |
| Logout.LogoutEverywhereBumpsOnce | internal/api/routes/auth/authhandler/logout.go:61-72 | only a valid credential token changes anything: that user's session counter goes up by exactly one, no other row or table changes; a failed increment gets 500 |
| Logout.LogoutEverywherePreservesInvariant | internal/api/routes/auth/authhandler/logout.go:66 | logout-everywhere keeps the store invariant |
| Password.ChangeUserPassword | internal/api/routes/auth/authhandler/password.go:18-52 | the result and the new tables are `ChangeUserPasswordSpec`'s |
| Password.ChangeUserPasswordSteps | internal/api/routes/auth/authhandler/password.go:18-52 | an invalid or unchanged password writes nothing; success iff hashing and all three writes succeed, and then the hash is set, the session counter raised and the pair unlocked; a later failure keeps the earlier writes |
| Password.ChangeUserPasswordKeepsResetTokens | internal/api/routes/auth/authhandler/password.go:35-49 | changing a password leaves every reset token as it was |
| Password.ModifyKeepsResetTokens | internal/api/routes/auth/authhandler/password.go:35-44 | the hash and session updates do not touch reset tokens |
| Password.ChangeUserPasswordPreservesInvariant | internal/api/routes/auth/authhandler/password.go:35-49 | a password change keeps the store invariant |
| Password.HandleForgotPassword | internal/api/routes/auth/authhandler/password.go:67-103 | the response and the tables are `ForgotPasswordSpec`'s for the row the reset-hash lookup returned |
| Password.ForgotPasswordGuards | internal/api/routes/auth/authhandler/password.go:75-98 | an undecodable token gets 500 and an unknown hash "invalid credentials", neither with a write; an expired token gets 401 with no write, while one at exactly issue + 3600 is still accepted |
| Password.ResetTokenSurvivesReset | internal/api/routes/auth/authhandler/password.go:84-102 | after a successful reset, the reset token and its issue time are still stored and the lookup still finds the user |
| Password.ForgotPasswordReplayed | internal/api/routes/auth/authhandler/password.go:67-103 | a concrete replay: one mailed token resets the password twice within the hour |
| Password.HandleForgotPasswordSingleUse | internal/api/routes/auth/authhandler/password.go:67-103 | the corrected handler: as `HandleForgotPassword`, then `InvalidateResetToken` after the change |
| Password.SingleUseResetRejectsReplay | internal/repo/userrepo.go:117-126 | with the corrected handler, a token held by one user and a digest that is never empty (`DigestNeverEmpty`), a second request with the same token gets "invalid credentials" and writes nothing |
| Password.ForgotPasswordPreservesInvariant | internal/api/routes/auth/authhandler/password.go:91-102 | both reset handlers keep the store invariant |
| Password.HandleSendForgotPassword | internal/api/routes/auth/authhandler/password.go:118-148 | the response and the tables are `SendForgotPasswordSpec`'s; the "forgotpassword" mail goes to the user's address with the raw token and no expiry |
| Password.SendForgotPasswordAfterMail | internal/api/routes/auth/authhandler/password.go:126-147 | an unknown email gets "invalid credentials"; the reset hash and issue time `now` are stored only after a sent mail, and only for that user |
| Password.SendForgotPasswordPreservesInvariant | internal/api/routes/auth/authhandler/password.go:140 | keeps the store invariant |
| Password.HandleChangePassword | internal/api/routes/auth/authhandler/password.go:164-189 | the response and the tables are `ChangePasswordSpec`'s for the context user |
| Password.ChangePasswordNeedsOldPassword | internal/api/routes/auth/authhandler/password.go:178-188 | a wrong current password gets "invalid credentials" with no write; otherwise the outcome is `changeUserPassword`'s |
| Password.ChangePasswordPreservesInvariant | internal/api/routes/auth/authhandler/password.go:184 | keeps the store invariant |
| Confirm.HandleConfirmEmail | internal/api/routes/auth/authhandler/confirm.go:28-73 | the response and the tables are `ConfirmSpec`'s for the row the confirmation-hash lookup returned |
| Confirm.ConfirmOutcomes | internal/api/routes/auth/authhandler/confirm.go:36-72 | success iff the hash is known, its user unconfirmed, the token live and the write succeeds; only that user changes (confirmed, token cleared); any other answer writes nothing |
| Confirm.ConfirmExpiryBoundary | internal/api/routes/auth/authhandler/confirm.go:58-63 | a token is live iff now ≤ issue time + 86400 |
| Confirm.ConfirmTwiceFails | internal/repo/userrepo.go:85-105 | with a digest that is never empty (`DigestNeverEmpty`), a token held by one user confirms once; a second use finds no user |
| Confirm.ConfirmPreservesInvariant | internal/api/routes/auth/authhandler/confirm.go:65 | keeps the store invariant |
| Confirm.HandleResendConfirmation | internal/api/routes/auth/authhandler/confirm.go:88-128 | the response and the tables are `ResendSpec`'s; the "confirmregister" mail carries the raw token, the URL and the one-day expiry text |
| Confirm.ResendOutcomes | internal/api/routes/auth/authhandler/confirm.go:96-127 | an unknown email gets "invalid credentials" and a confirmed user 400; a new hash with issue time `now` is stored only after a sent mail |
| Confirm.ResendPreservesInvariant | internal/api/routes/auth/authhandler/confirm.go:103-124 | keeps the store invariant, as the token goes only to an unconfirmed user |
| Register.CreateAndConfirm | internal/api/routes/auth/authhandler/register.go:67-87 | the insert, mail and token writes are `CreateSpec`'s; the mail carries the raw token and URL |
| Register.HandleRegister | internal/api/routes/auth/authhandler/register.go:25-88 | the response and the tables are `RegisterSpec`'s |
| Register.RegisterRejectsMalformed | internal/api/routes/auth/authhandler/register.go:33-43 | an empty field, an '@' in the username, or an invalid email or password gets 400 "invalid credentials" with no write; a well-formed form with a free name is not refused |
| Register.RegisterRejectsTakenName | internal/api/routes/auth/authhandler/register.go:45-56 | a taken username gets 400 and no user is created |
| Register.RegisterCreatesUnconfirmedUser | internal/api/routes/auth/authhandler/register.go:58-87 | success iff all checks and writes pass; the new row has the form's name, email and hash, role "user", is unconfirmed and holds the mailed token's hash issued now; other rows are unchanged |
| Register.RegisterKeepsUserWhenMailFails | internal/api/routes/auth/authhandler/register.go:67-84 | the user is created before the mail; if sending or the token write fails, the answer is 500 and the new user stays, with no token |
| Register.RegisterAllowsTakenEmail | internal/api/routes/auth/authhandler/register.go:45-56 | only the username is checked: a second account can be registered with an email already in use |
| Register.RegisterPreservesInvariant | internal/api/routes/auth/authhandler/register.go:65-85 | keeps the store invariant |

## Left out

- Token signing and verification (`GenerateToken`, `jwt.ValidateToken`), `jwt.CreateJwtFromUser`, bcrypt, `IsValidEmail` and `IsValidPassword`, the base64url/SHA-256 token digest, `crypto/rand` and `utils.ExpiryToString` are function values in `Services`. The replay lemmas assume only `SoundValidator` of the validator and `DigestNeverEmpty` of the digest.
- `TokenRepo` and `LockoutRepo` internals are not part of this model. The blacklist is a set and the lockout tables are one event log. `IsLockedOut` and `CountRecentFailures` are function values over that log, so their use of `FailedLoginBacktrack` is not modelled.
- JSON decoding, the response writers, the loggers, the mailer, reCAPTCHA, server start-up and routing are I/O and are left out. Request bodies arrive already decoded, and a body that fails to decode is not modelled.
- The clock is read once per request (`Env.now`). Go reads `time.Now()` separately at each use, including the two `WithType` calls of `GenerateLogin`.
- Table lookups are modelled on an in-memory map:
  - a database error on a lookup is folded into "no row";
  - `CreateUser` fails on an id already present, as a primary key would.
- `UserRepo.ChangeUserPassword`, `IncrementJwtSessionID`, `AssignUserConfirmToken` and `AssignUserResetToken` are called by the handlers, but their definitions are not in `internal/repo/userrepo.go`. They are modelled as the one-row updates their names and call sites describe.
- The reset-token and session-counter columns are not fields of `model.User` either (internal/model/user.go:3-13). The model's `User` carries them: the INSERT leaves them at zero, and `GetUserById`, `GetUserByEmail`, `GetUserByConfirmationToken` and `GetUserByResetToken` return the whole stored row, these fields included, although their SELECT lists only the declared columns (`AllRaw`).
- `logout.go` calls `GetClaimsFromHeader` with five arguments (logout.go:27, 61), while the function takes four (internal/middleware/auth.go:41). The model uses the four-parameter function.
- `utils.UserFromContext` is not part of this model: `HandleChangePassword` takes the context user as an input.
- Login records failed attempts and checks lockouts against `r.RemoteAddr`, while password changes unlock `utils.GetClientIP(r)`. The model keeps the two addresses apart (`remoteAddr`, `clientIp`), so an unlock may not lift a login lockout behind a proxy.
- Services.createJwtFromUser: the factory is a function of the user and the clock second only, so the token id (jti) it gives is fixed by (user, now). Two logins by one user in the same second therefore get the same pair, and logging out one revokes the other. A refresh in the same second as the login issues a pair whose jti it has just blacklisted. `jwt.CreateJwtFromUser` is not part of this model; Go presumably draws a fresh random id per token, as the older handlers in `internal/api/routes/auth/handler` do with `uuid.New()`.
- The two tokens of a login pair share one token id, and a revocation is kept until `MaxInt64`. The model does exactly this.
- The session counter is raised on logout-everywhere and on a password change, but no shown code compares it with a token. So the model proves the increment, not that old tokens are refused.
- Repos.ToLower: lower-cases ASCII letters only, while `strings.ToLower` (internal/repo/repos.go:43) folds all of Unicode. So `Repos.ExtractColumns` names an untagged field with a non-ASCII capital (`Ñame`) differently from Go. Every field of `User` carries a `db` tag, so no lemma about `User` depends on this.
- `confirm.go:117-118` sets the token on the local `user` struct, which has no effect beyond the handler. It is not modelled.
- Repos.UserSafeColumn: states the safe columns of `User` as a membership fact, not as the ordered list.
- Concurrency between requests is not modelled; each handler runs alone.

## Findings

| source | as written | input that shows it | evidently intended | confidence | as-written member | corrected member |
|---|---|---|---|---|---|---|
| internal/api/routes/auth/authhandler/password.go:67-103 | after a successful reset the handler never calls `InvalidateResetToken`, so the mailed reset token stays valid until it expires | user 7 holds reset hash "h1" issued at 1000; at 1500 a reset to "pw1" succeeds, and at 2000 the same token resets the password again, to "pw2" | a reset token is single-use: the handler clears it once the password is changed (the repository offers `InvalidateResetToken`, internal/repo/userrepo.go:117-126) | not executed | Password.ForgotPasswordReplayed | Password.SingleUseResetRejectsReplay |
