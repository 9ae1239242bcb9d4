/**
 * internal/middleware/auth.go: the bearer header of section 2.1 of RFC 6750, token
 * validation, and the gate that lets a request through only with a token of the
 * expected kind.
 */
module Middleware {
  import opened Wrappers
  import opened Int64
  import opened Jwt
  import opened Model
  import opened Api
  import opened Services

  const BearerPrefix: string := "Bearer "

  /** The context key under which the authenticated user's id is stored. */
  const UserIdKey: string := "userID"

  /** `strings.HasPrefix`. */
  predicate HasPrefix(s: string, prefix: string) {
    |prefix| <= |s| && s[..|prefix|] == prefix
  }

  /** `strings.TrimPrefix`: removes one leading copy of `prefix`, if there is one. */
  function TrimPrefix(s: string, prefix: string): (r: string)
    ensures HasPrefix(s, prefix) ==> prefix + r == s
    ensures !HasPrefix(s, prefix) ==> r == s
  {
    if HasPrefix(s, prefix) then s[|prefix|..] else s
  }

  /** What a claims lookup returns: the claims, or nothing and the 401 it wrote. */
  datatype ClaimsResult = ClaimsResult(claims: Option<Claims>, written: Response)

  /**
   * `GetClaims(w, r, token, secret, tr)`: validates against the configured secret; the
   * `secret` argument is not used.
   */
  function GetClaims(svc: Services, token: string, secret: seq<bv8>, blacklist: set<JwtBlacklist>, now: int64)
    : (r: ClaimsResult)
    ensures r.claims == svc.validateToken(token, svc.jwtSecret, blacklist, now)
    ensures r.claims.None? <==> r.written == InvalidCredentials
    ensures r.claims.Some? <==> r.written == Unwritten
  {
    var claims := svc.validateToken(token, svc.jwtSecret, blacklist, now);
    if claims.None? then ClaimsResult(None, InvalidCredentials) else ClaimsResult(claims, Unwritten)
  }

  /** Whatever secret a caller passes, `GetClaims` answers the same. */
  lemma GetClaimsIgnoresSecret(svc: Services, token: string, s1: seq<bv8>, s2: seq<bv8>,
                               blacklist: set<JwtBlacklist>, now: int64)
    ensures GetClaims(svc, token, s1, blacklist, now) == GetClaims(svc, token, s2, blacklist, now)
  {
  }

  /** `GetClaimsFromHeader`: the `Authorization` header must start with "Bearer ". */
  function GetClaimsFromHeader(svc: Services, header: string, secret: seq<bv8>, blacklist: set<JwtBlacklist>,
                               now: int64): (r: ClaimsResult)
    ensures !HasPrefix(header, BearerPrefix) ==> r == ClaimsResult(None, InvalidCredentials)
    ensures HasPrefix(header, BearerPrefix) ==>
      exists token :: BearerPrefix + token == header && r == GetClaims(svc, token, secret, blacklist, now)
  {
    if header == "" || !HasPrefix(header, BearerPrefix) then ClaimsResult(None, InvalidCredentials)
    else
      var token := TrimPrefix(header, BearerPrefix);
      GetClaims(svc, token, secret, blacklist, now)
  }

  /** The token a header carries is what follows the prefix: prefix + token reconstructs the header. */
  lemma BearerTokenRoundTrip(token: string)
    ensures HasPrefix(BearerPrefix + token, BearerPrefix)
    ensures TrimPrefix(BearerPrefix + token, BearerPrefix) == token
  {
    assert (BearerPrefix + token)[..|BearerPrefix|] == BearerPrefix;
  }

  /** The outcome of the middleware: the request is answered, or passed on with an extended context. */
  datatype AuthDecision = Rejected(resp: Response) | Next(ctx: map<string, int64>)

  /** `JWTAuth(secret, tr, expectedType)` applied to a request. */
  function JwtAuth(svc: Services, secret: seq<bv8>, blacklist: set<JwtBlacklist>, expectedType: TokenType,
                   header: string, ctx: map<string, int64>, now: int64): (d: AuthDecision)
    ensures d.Next? <==>
      var c := GetClaimsFromHeader(svc, header, secret, blacklist, now).claims;
      c.Some? && c.value.tokenType == expectedType
    ensures d.Next? ==> d.ctx == ctx[UserIdKey := GetClaimsFromHeader(svc, header, secret, blacklist, now).claims.value.userId]
    ensures d.Rejected? ==> d.resp == InvalidCredentials
  {
    var c := GetClaimsFromHeader(svc, header, secret, blacklist, now);
    if c.claims.None? then Rejected(c.written)
    else if c.claims.value.tokenType != expectedType then Rejected(InvalidCredentials)
    else Next(ctx[UserIdKey := c.claims.value.userId])
  }

  /** `AddAuth`: routes behind it accept credential tokens only. */
  function AddAuth(svc: Services, blacklist: set<JwtBlacklist>, header: string, ctx: map<string, int64>, now: int64)
    : (d: AuthDecision)
    ensures d.Next? ==>
      exists token :: && BearerPrefix + token == header
                      && svc.validateToken(token, svc.jwtSecret, blacklist, now).Some?
                      && svc.validateToken(token, svc.jwtSecret, blacklist, now).value.tokenType == Credentials
  {
    JwtAuth(svc, svc.jwtSecret, blacklist, Credentials, header, ctx, now)
  }

  /** A refresh token never gets past `AddAuth`. */
  lemma RefreshTokenRejectedByAddAuth(svc: Services, blacklist: set<JwtBlacklist>, token: string,
                                      ctx: map<string, int64>, now: int64)
    requires svc.validateToken(token, svc.jwtSecret, blacklist, now).Some?
    requires svc.validateToken(token, svc.jwtSecret, blacklist, now).value.tokenType == Refresh
    ensures AddAuth(svc, blacklist, BearerPrefix + token, ctx, now) == Rejected(InvalidCredentials)
  {
    BearerTokenRoundTrip(token);
  }
}
