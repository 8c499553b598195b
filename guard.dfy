/**
 * The authentication gate (middlewares/authenticateToken.js): it reads the
 * access_token cookie, verifies it with JWT_SECRET, and either stores the decoded
 * claims in `req.user` and calls `next`, or answers 403 itself.
 */
module Guard {

  import opened Wrappers
  import opened Http
  import opened Tokens
  import opened Cookies

  const MsgSignIn: string := "You need to sign in before continuing."
  const MsgInvalidToken: string := "Invalid Token"

  datatype GateOutcome = Next(user: Decoded) | Reject(reply: Reply<string>)

  /** The three-way decision of `authenticateToken`. */
  function Gate(cookies: map<string, Token>, config: Config, now: nat): (g: GateOutcome)
    ensures g.Reject? ==> g.reply.status == Forbidden
    ensures !Truthy(CookieValue(cookies, AccessCookie)) ==> g == Reject(Reply(Forbidden, MsgSignIn))
    ensures g.Next? <==> Truthy(CookieValue(cookies, AccessCookie)) && Verify(cookies[AccessCookie], config.jwtSecret, now).Some?
    ensures g.Next? ==> Verify(cookies[AccessCookie], config.jwtSecret, now) == Some(g.user)
    ensures Truthy(CookieValue(cookies, AccessCookie)) && g.Reject? ==> g.reply == Reply(Forbidden, MsgInvalidToken)
  {
    var accessToken := CookieValue(cookies, AccessCookie);
    if !Truthy(accessToken) then Reject(Reply(Forbidden, MsgSignIn))
    else match Verify(accessToken.value, config.jwtSecret, now)
      case Some(decoded) => Next(decoded)
      case None => Reject(Reply(Forbidden, MsgInvalidToken))
  }

  /** The part of Express's request object the gate and the handlers use. */
  class Request {

    const cookies: map<string, Token>
    var user: Option<Decoded>

    constructor (cookies: map<string, Token>)
      ensures this.cookies == cookies && user == None
    {
      this.cookies := cookies;
      user := None;
    }
  }

  /**
   * `authenticateToken(req, res, next)`: `next` is true when the gate calls `next()`
   * (once); otherwise `rejection` is the 403 it sends and `req.user` is untouched.
   */
  method AuthenticateToken(req: Request, config: Config, now: nat) returns (next: bool, rejection: Option<Reply<string>>)
    modifies req
    ensures var g := Gate(req.cookies, config, now);
            && (next <==> g.Next?)
            && (next ==> req.user == Some(g.user) && rejection == None)
            && (!next ==> req.user == old(req.user) && rejection == Some(g.reply))
  {
    var accessToken := CookieValue(req.cookies, AccessCookie);
    if !Truthy(accessToken) {
      return false, Some(Reply(Forbidden, MsgSignIn));
    }
    var decoded := Verify(accessToken.value, config.jwtSecret, now);
    if decoded.Some? {
      req.user := decoded;
      next, rejection := true, None;
    } else {
      next, rejection := false, Some(Reply(Forbidden, MsgInvalidToken));
    }
  }

  /** A refresh token is never accepted by the gate when the two secrets differ. */
  lemma RefreshTokenRejected(cookies: map<string, Token>, config: Config, user: UserModel.User, issued: nat, now: nat)
    requires config.jwtSecret != config.refreshSecret
    requires AccessCookie in cookies && cookies[AccessCookie] == GenerateTokens(user, config, issued).refreshToken
    ensures Gate(cookies, config, now) == Reject(Reply(Forbidden, MsgInvalidToken))
  {
    var t := GenerateTokens(user, config, issued).refreshToken;
    assert Verify(t, config.jwtSecret, now).None?;
  }

  /** The value `clearAuthCookies` writes is a missing sign-in for the gate. */
  lemma ClearedCookieRejected(cookies: map<string, Token>, config: Config, now: nat)
    requires AccessCookie in cookies && cookies[AccessCookie] == ClearRecords(config)[0].value
    ensures Gate(cookies, config, now) == Reject(Reply(Forbidden, MsgSignIn))
  {
  }

  /** The access token issued at login passes the gate, with the claims it was built from, for its 15 minutes and no longer. */
  lemma AccessRoundTrip(cookies: map<string, Token>, config: Config, user: UserModel.User, issued: nat, now: nat)
    requires AccessCookie in cookies && cookies[AccessCookie] == GenerateTokens(user, config, issued).accessToken
    ensures Gate(cookies, config, now).Next? <==> now < issued + AccessTtl
    ensures Gate(cookies, config, now).Next? ==>
              Gate(cookies, config, now).user.payload ==
                Claims(user.id, Some(if user.username != "" then user.username else user.email))
  {
    assert cookies[AccessCookie].Jwt?;
  }
}
