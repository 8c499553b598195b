/**
 * Token issuing (middlewares/generateTokens.js) over a symbolic JSON Web Token
 * library. A token received from a client is either `Text`, any string that is not
 * a token this server signed, or a `Jwt` term recording its payload, the secret it
 * was signed with and its issue and expiry times in seconds. `Verify` is
 * jsonwebtoken's check: the secret must match and the current time must be before
 * `exp`; expiry is the only way the clock enters.
 */
module Tokens {

  import opened Wrappers
  import opened PostModel
  import opened UserModel

  /** A payload: the access payload carries a username, the refresh payload only the id. */
  datatype Claims = Claims(id: ObjectId, username: Option<string>)

  datatype Token =
    | Text(text: string)
    | Jwt(payload: Claims, secret: string, iat: nat, exp: nat)

  /** What `jwt.verify` returns: the payload together with the `iat` and `exp` it adds. */
  datatype Decoded = Decoded(payload: Claims, iat: nat, exp: nat)

  /** The environment: JWT_SECRET, REFRESH_TOKEN_SECRET and NODE_ENV. */
  datatype Config = Config(jwtSecret: string, refreshSecret: string, nodeEnv: string)

  datatype TokenPair = TokenPair(accessToken: Token, refreshToken: Token)

  /** `expiresIn: "15m"` and `expiresIn: "30d"`, in seconds. */
  const AccessTtl: nat := 15 * 60
  const RefreshTtl: nat := 30 * 24 * 60 * 60

  function Verify(t: Token, secret: string, now: nat): Option<Decoded>
  {
    match t
    case Text(_) => None
    case Jwt(payload, key, iat, exp) =>
      if key == secret && now < exp then Some(Decoded(payload, iat, exp)) else None
  }

  /** `jwt.sign(payload, secret, { expiresIn })` at time `now`: verifying with the same secret gives the payload back until it expires. */
  function Sign(payload: Claims, secret: string, ttl: nat, now: nat): (t: Token)
    ensures t.Jwt?
    ensures forall key, at: nat :: Verify(t, key, at) ==
                                  (if key == secret && at < now + ttl then Some(Decoded(payload, now, now + ttl)) else None)
  {
    Jwt(payload, secret, now, now + ttl)
  }

  /**
   * `generateTokens(user)`: the access token carries {id, username || email} under
   * JWT_SECRET for 15 minutes, the refresh token carries {id} under
   * REFRESH_TOKEN_SECRET for 30 days.
   */
  function GenerateTokens(user: User, config: Config, now: nat): (r: TokenPair)
    ensures r.accessToken.Jwt? && r.refreshToken.Jwt?
    ensures forall at: nat :: Verify(r.accessToken, config.jwtSecret, at) ==
                              (if at < now + AccessTtl
                               then Some(Decoded(Claims(user.id, Some(if user.username != "" then user.username else user.email)),
                                                 now, now + AccessTtl))
                               else None)
    ensures forall at: nat :: Verify(r.refreshToken, config.refreshSecret, at) ==
                              (if at < now + RefreshTtl then Some(Decoded(Claims(user.id, None), now, now + RefreshTtl)) else None)
    ensures config.jwtSecret != config.refreshSecret ==>
              forall at: nat :: Verify(r.accessToken, config.refreshSecret, at).None? && Verify(r.refreshToken, config.jwtSecret, at).None?
  {
    var payload := Claims(user.id, Some(if user.username != "" then user.username else user.email));
    TokenPair(Sign(payload, config.jwtSecret, AccessTtl, now),
              Sign(Claims(user.id, None), config.refreshSecret, RefreshTtl, now))
  }
}
