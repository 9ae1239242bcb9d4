/**
 * The code the handlers call but whose implementation is not part of this model:
 * token signing and verification, the JWT factory, bcrypt, the input validators, the
 * hashing of mailed tokens and the expiry formatter. Each is a function value.
 */
module Services {
  import opened Wrappers
  import opened Int64
  import opened Jwt
  import opened Model

  /** `utils.Token`: the raw token that is mailed and the hash that is stored. */
  datatype Token = Token(raw: string, hash: string)

  datatype Services = Services(
    /** `config.JwtSecret`. */
    jwtSecret: seq<bv8>,
    /** `jwt.ValidateToken(token, secret, tr)`, reading the blacklist and the clock; `None` is an error. */
    validateToken: (string, seq<bv8>, set<JwtBlacklist>, int64) -> Option<Claims>,
    /** `jwt.CreateJwtFromUser(user)` at a clock reading. */
    createJwtFromUser: (User, int64) -> Jwt,
    /** `utils.ComparePassword(hash, plain)`. */
    comparePassword: (string, string) -> bool,
    /** `utils.IsValidPassword`. */
    isValidPassword: string -> bool,
    /** `utils.IsValidEmail`. */
    isValidEmail: string -> bool,
    /** Decoding a mailed token and encoding its SHA-256 digest, as the confirm and reset handlers do. */
    tokenDigest: string -> Option<string>,
    /** `utils.ExpiryToString(seconds)`. */
    expiryToString: int -> string
  )

  /**
   * An encoded SHA-256 digest is never empty, so a digest never equals the "" that marks
   * a row holding no token.
   */
  ghost predicate DigestNeverEmpty(svc: Services) {
    forall t :: svc.tokenDigest(t).Some? ==> svc.tokenDigest(t).value != ""
  }

  /**
   * What the replay properties assume of `ValidateToken`: the claims of a token do not
   * depend on the blacklist or the clock, and a token whose id is blacklisted is refused.
   */
  ghost predicate SoundValidator(svc: Services) {
    && (forall t: string, bl: set<JwtBlacklist>, now: int64 :: svc.validateToken(t, svc.jwtSecret, bl, now).Some? ==>
          forall b: JwtBlacklist :: b in bl ==> b.tokenId != svc.validateToken(t, svc.jwtSecret, bl, now).value.tokenId)
    && (forall t: string, bl1: set<JwtBlacklist>, now1: int64, bl2: set<JwtBlacklist>, now2: int64 ::
          svc.validateToken(t, svc.jwtSecret, bl1, now1).Some? && svc.validateToken(t, svc.jwtSecret, bl2, now2).Some? ==>
          svc.validateToken(t, svc.jwtSecret, bl1, now1) == svc.validateToken(t, svc.jwtSecret, bl2, now2))
  }
}
