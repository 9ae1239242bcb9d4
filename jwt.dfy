/**
 * The token format of internal/jwt/model.go. The claim names are the registered claims
 * of RFC 7519 (`sub` section 4.1.2, `jti` section 4.1.7, `iat` section 4.1.6, `exp`
 * section 4.1.4); the header fields are `alg` and `typ` of RFC 7515 (sections 4.1.1
 * and 4.1.9). Signing and verification are not part of this model.
 */
module Jwt {
  import opened Int64

  /** Go's `type TokenType string`: any string, of which two are named. */
  type TokenType = string

  const Credentials: TokenType := "credential"
  const Refresh: TokenType := "refresh"

  /** `alg` and `typ`. */
  datatype Header = Header(algorithm: string, typ: string)

  /** `sub`, `jti`, `iat`, `exp`, `email`, `role` and `type`. */
  datatype Claims = Claims(
    userId: int64,
    tokenId: string,
    issuedAt: int64,
    expiration: int64,
    email: string,
    role: string,
    tokenType: TokenType
  )

  datatype Jwt = Jwt(header: Header, payload: Claims)

  /** The package-level `tokenExpirations` map: lifetimes in seconds. */
  const TokenExpirations: map<TokenType, int64> := map[Credentials := 24 * 3600, Refresh := 7 * 24 * 3600]

  /** `tokenExpirations[t]`; a Go map lookup of a missing key yields the zero value. */
  function Lifetime(t: TokenType): (d: int64)
    ensures t == Credentials ==> d == 86400
    ensures t == Refresh ==> d == 604800
    ensures t != Credentials && t != Refresh ==> d == 0
  {
    if t in TokenExpirations then TokenExpirations[t] else 0
  }

  /** Two claim sets that agree on everything `WithType` does not touch. */
  predicate SameIdentity(a: Claims, b: Claims) {
    && a.userId == b.userId
    && a.tokenId == b.tokenId
    && a.issuedAt == b.issuedAt
    && a.email == b.email
    && a.role == b.role
  }

  /**
   * `Jwt.WithType(t)`, with the clock reading `now` as a parameter. The receiver is a
   * value, so the caller's token is not changed: a new token is returned.
   */
  function WithType(j: Jwt, t: TokenType, now: int64): (r: Jwt)
    ensures r.payload.tokenType == t
    ensures r.payload.expiration == Add(now, Lifetime(t))
    ensures NoOverflow(now, Lifetime(t)) ==> r.payload.expiration as int == now as int + Lifetime(t) as int
    ensures r.header == j.header
    ensures SameIdentity(r.payload, j.payload)
  {
    j.(payload := j.payload.(tokenType := t, expiration := Add(now, Lifetime(t))))
  }

  /** A later `WithType` wins entirely: whatever kind and expiry were stamped before are replaced. */
  lemma WithTypeOverrides(j: Jwt, t1: TokenType, now1: int64, t2: TokenType, now2: int64)
    ensures WithType(WithType(j, t1, now1), t2, now2) == WithType(j, t2, now2)
  {
  }

  /** At one clock reading, stamping the same kind twice is stamping it once. */
  lemma WithTypeIdempotent(j: Jwt, t: TokenType, now: int64)
    ensures WithType(WithType(j, t, now), t, now) == WithType(j, t, now)
  {
    WithTypeOverrides(j, t, now, t, now);
  }

  /** A kind outside the map gets lifetime zero: the token expires at the moment it is stamped. */
  lemma UnknownTypeExpiresNow(j: Jwt, t: TokenType, now: int64)
    requires t != Credentials && t != Refresh
    ensures WithType(j, t, now).payload.expiration == now
  {
  }

  /** At one clock reading, a refresh token outlives a credential token by six days (518400 s). */
  lemma RefreshOutlivesCredential(j: Jwt, now: int64)
    requires NoOverflow(now, 604800)
    ensures WithType(j, Refresh, now).payload.expiration as int
         == WithType(j, Credentials, now).payload.expiration as int + 518400
  {
  }
}
