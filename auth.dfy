/**
 * The handlers of controllers/authController.js over an in-memory user store. The
 * handlers that issue or clear a session append Set-Cookie records to `res`; every
 * handler returns the status and JSON body it sends.
 */
module Auth {

  import opened Wrappers
  import opened Http
  import opened PostModel
  import opened UserModel
  import opened Tokens
  import opened Cookies
  import opened AuthRules

  class AuthController {

    const config: Config
    /** The user collection, in insertion order. */
    var users: seq<User>

    ghost predicate Valid()
      reads this
    {
      UsersValid(users)
    }

    constructor (config: Config)
      ensures Valid() && this.config == config && users == []
    {
      this.config := config;
      users := [];
    }

    /**
     * `registerUser`. `salt` is what `bcrypt.genSalt(10)` returns, `now` the time
     * the tokens are signed, `storeError` a store that throws when it is queried.
     */
    method RegisterUser(f: RegisterFields, salt: string, now: nat, storeError: bool, res: Response)
      returns (reply: Reply<AuthBody>)
      requires Valid()
      modifies this, res
      ensures Valid()
      ensures var rejection := RegisterRejection(old(users), f, storeError);
              if rejection.Some? then
                reply == rejection.value && users == old(users) && res.cookies == old(res.cookies)
              else
                var u := NewUser(|old(users)|, f, salt);
                var tokens := GenerateTokens(u, config, now);
                && users == old(users) + [u]
                && res.cookies == old(res.cookies) + SetRecords(config, tokens.accessToken, tokens.refreshToken)
                && reply == Reply(Created, WithUser(MsgRegistered, View(u)))
      // exactly one new user, whose stored password is the hash of the one supplied
      ensures reply.status == Created ==>
                && |users| == |old(users)| + 1 && users[..|old(users)|] == old(users)
                && users[|old(users)|].password == Hash(f.password.value, salt)
    {
      var rejection := RegisterRejection(users, f, storeError);
      if rejection.Some? {
        return rejection.value;
      }
      var u := NewUser(|users|, f, salt);
      RegisterKeepsUsersValid(users, f, salt, storeError);
      users := users + [u];
      var tokens := GenerateTokens(u, config, now);
      SetAuthCookies(res, config, tokens.accessToken, tokens.refreshToken);
      reply := Reply(Created, WithUser(MsgRegistered, View(u)));
    }

    /** `loginUser`. */
    method LoginUser(f: LoginFields, now: nat, storeError: bool, res: Response) returns (reply: Reply<AuthBody>)
      modifies res
      ensures match LoginDecision(users, f, storeError)
              case Denied(r) => reply == r && res.cookies == old(res.cookies)
              case Granted(u) =>
                var tokens := GenerateTokens(u, config, now);
                && res.cookies == old(res.cookies) + SetRecords(config, tokens.accessToken, tokens.refreshToken)
                && reply == Reply(OK, WithUser(MsgLoggedIn, View(u)))
    {
      match LoginDecision(users, f, storeError)
      case Denied(r) =>
        reply := r;
      case Granted(u) =>
        var tokens := GenerateTokens(u, config, now);
        SetAuthCookies(res, config, tokens.accessToken, tokens.refreshToken);
        reply := Reply(OK, WithUser(MsgLoggedIn, View(u)));
    }

    /** `refreshAuthToken`: a verified refresh cookie of a known user gets a fresh token pair. */
    method RefreshAuthToken(cookies: map<string, Token>, now: nat, storeError: bool, res: Response)
      returns (reply: Reply<AuthBody>)
      modifies res
      ensures match RefreshDecision(users, cookies, config, now, storeError)
              case Refused(r) => reply == r && res.cookies == old(res.cookies)
              case Reissue(u) =>
                var tokens := GenerateTokens(u, config, now);
                && res.cookies == old(res.cookies) + SetRecords(config, tokens.accessToken, tokens.refreshToken)
                && reply == Reply(OK, Message(MsgRefreshed))
    {
      match RefreshDecision(users, cookies, config, now, storeError)
      case Refused(r) =>
        reply := r;
      case Reissue(u) =>
        var tokens := GenerateTokens(u, config, now);
        SetAuthCookies(res, config, tokens.accessToken, tokens.refreshToken);
        reply := Reply(OK, Message(MsgRefreshed));
    }

    /** `getUserDetails` for `req.user.id`: the stored user without its password, or 404. */
    method GetUserDetails(requester: ObjectId, storeError: bool) returns (reply: Reply<AuthBody>)
      requires Valid()
      ensures storeError ==> reply == Reply(ServerError, Message(MsgProfileError))
      ensures !storeError && (forall k | 0 <= k < |users| :: users[k].id != requester) ==>
                reply == Reply(NotFound, Message(MsgUserNotFound))
      ensures !storeError ==> forall k | 0 <= k < |users| && users[k].id == requester ::
                reply == Reply(OK, Profile(View(users[k])))
    {
      if storeError {
        return Reply(ServerError, Message(MsgProfileError));
      }
      match FindById(users, requester)
      case None =>
        reply := Reply(NotFound, Message(MsgUserNotFound));
      case Some(k) =>
        reply := Reply(OK, Profile(View(users[k])));
    }

    /** `logoutUser`: always clears both cookies; no token is revoked. */
    method LogoutUser(res: Response) returns (reply: Reply<AuthBody>)
      modifies res
      ensures res.cookies == old(res.cookies) + ClearRecords(config)
      ensures reply == Reply(OK, Message(MsgLoggedOut))
    {
      ClearAuthCookies(res, config);
      reply := Reply(OK, Message(MsgLoggedOut));
    }
  }
}
