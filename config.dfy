/** The constants of config/const.go and the secret check of config.Init. */
module Config {
  import opened Int64

  /** Failed attempts that are still answered with "invalid credentials". */
  const LockoutCount: int := 5
  /** Seconds a lockout lasts. */
  const LockoutDuration: int64 := 3600
  /** Trailing window, in seconds, of the lockout repository's failure count (used only there). */
  const FailedLoginBacktrack: int64 := 1800
  /** Seconds a password-reset token stays usable. */
  const ForgotPasswordExpiry: int64 := 3600
  /** Seconds an email-confirmation token stays usable. */
  const EmailConfirmExpiry: int64 := 3600 * 24

  /** `config.Init` panics unless the decoded JWT secret has at least 32 bytes. */
  predicate SecretAccepted(secret: seq<bv8>) {
    |secret| >= 32
  }
}
