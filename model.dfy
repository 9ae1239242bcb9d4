/** The stored records of internal/model/user.go and internal/model/lockout.go. */
module Model {
  import opened Int64

  /**
   * A row of the users table. The first nine fields are those user.go declares; the
   * last three are used by the handlers and the repository (password.go, userrepo.go)
   * but not declared there.
   */
  datatype User = User(
    id: int64,
    username: string,
    email: string,
    passwordHash: string,
    createdAt: int64,
    role: string,
    emailConfirmed: bool,
    emailConfirmToken: string,
    emailConfirmIssuedAt: int64,
    passwordResetToken: string,
    passwordResetIssuedAt: int64,
    jwtSessionId: int
  )

  /** `model.User{}`: every field at its zero value. */
  const ZeroUser: User := User(0, "", "", "", 0, "", false, "", 0, "", 0, 0)

  /** One failed login attempt; `id` is assigned by the database and is 0 when built. */
  datatype FailedLogin = FailedLogin(id: int, userId: int64, ipAddress: string, attemptedAt: int64)

  /** One lockout of a (user, address) pair. */
  datatype Lockout = Lockout(
    id: int,
    userId: int64,
    ipAddress: string,
    lockedUntil: int64,
    reason: string,
    createdAt: int64
  )

  /** A revocation record (`model.JwtBlacklist`), with the fields the handlers set. */
  datatype JwtBlacklist = JwtBlacklist(tokenId: string, userId: int64, expiresAt: int64)
}
