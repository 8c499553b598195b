/**
 * The session cookies (middlewares/setAuthCookies.js and
 * middlewares/clearAuthCookies.js). Each `res.cookie(name, value, options)` call
 * appends one Set-Cookie record to the response.
 */
module Cookies {

  import opened Wrappers
  import opened Tokens

  const AccessCookie: string := "access_token"
  const RefreshCookie: string := "refresh_token"
  /** The refresh cookie is only sent to the refresh endpoint. */
  const RefreshCookiePath: string := "/api/v1/auth/refresh-token"
  /** `15 * 60 * 1000`: the maxAge both cookies are set with, in milliseconds. */
  const SessionMaxAge: nat := 15 * 60 * 1000

  /** `path: None` is a cookie written without an explicit path. */
  datatype CookieOptions = CookieOptions(httpOnly: bool, secure: bool, sameSite: string, path: Option<string>, maxAge: nat)

  datatype SetCookie = SetCookie(name: string, value: Token, options: CookieOptions)

  /** The flags both helpers write: httpOnly, sameSite "strict", secure exactly when NODE_ENV is "production". */
  function SessionOptions(config: Config, path: Option<string>, maxAge: nat): CookieOptions
  {
    CookieOptions(true, config.nodeEnv == "production", "strict", path, maxAge)
  }

  predicate SessionFlags(o: CookieOptions, config: Config)
  {
    o.httpOnly && o.sameSite == "strict" && (o.secure <==> config.nodeEnv == "production")
  }

  /** The two records `setAuthCookies` writes, in call order. */
  function SetRecords(config: Config, accessToken: Token, refreshToken: Token): (r: seq<SetCookie>)
    ensures |r| == 2
    ensures r[0].name == AccessCookie && r[0].value == accessToken
    ensures r[1].name == RefreshCookie && r[1].value == refreshToken
    ensures SessionFlags(r[0].options, config) && SessionFlags(r[1].options, config)
    ensures r[0].options.path == None && r[0].options.maxAge == 900000
    ensures r[1].options.path == Some(RefreshCookiePath) && r[1].options.maxAge == r[0].options.maxAge
    // the refresh cookie lives as long as the access token, far less than the refresh token it carries
    ensures r[1].options.maxAge == 1000 * AccessTtl < 1000 * RefreshTtl
  {
    [SetCookie(AccessCookie, accessToken, SessionOptions(config, None, SessionMaxAge)),
     SetCookie(RefreshCookie, refreshToken, SessionOptions(config, Some(RefreshCookiePath), SessionMaxAge))]
  }

  /**
   * The two records `clearAuthCookies` writes: empty values with maxAge 0, under the
   * same names, paths and flags as the records `setAuthCookies` writes, so that each
   * overwrites the cookie it is meant to delete.
   */
  function ClearRecords(config: Config): (r: seq<SetCookie>)
    ensures |r| == 2
    ensures forall i | 0 <= i < 2 :: r[i].value == Text("") && r[i].options.maxAge == 0
    ensures forall accessToken, refreshToken, i | 0 <= i < 2 ::
              var s := SetRecords(config, accessToken, refreshToken)[i];
              r[i].name == s.name && r[i].options == s.options.(maxAge := 0)
  {
    [SetCookie(AccessCookie, Text(""), SessionOptions(config, None, 0)),
     SetCookie(RefreshCookie, Text(""), SessionOptions(config, Some(RefreshCookiePath), 0))]
  }

  /** A request cookie as the handler reads it: `req.cookies[name]`, absent when not sent. */
  function CookieValue(cookies: map<string, Token>, name: string): Option<Token>
  {
    if name in cookies then Some(cookies[name]) else None
  }

  /** JavaScript truthiness of a cookie value: it is present and not the empty string. */
  predicate Truthy(v: Option<Token>)
  {
    v.Some? && v.value != Text("")
  }

  /** The last record a response holds for a cookie name: the one a browser keeps. */
  function LastRecord(cookies: seq<SetCookie>, name: string): (r: Option<SetCookie>)
  {
    if cookies == [] then None
    else if cookies[|cookies| - 1].name == name then Some(cookies[|cookies| - 1])
    else LastRecord(cookies[..|cookies| - 1], name)
  }

  /** Records written later for a name hide everything written for it before. */
  lemma {:induction false} LastRecordOfSuffix(s: seq<SetCookie>, t: seq<SetCookie>, name: string, k: nat)
    requires k < |t| && t[k].name == name
    ensures LastRecord(s + t, name) == LastRecord(t, name)
    ensures LastRecord(t, name).Some?
    decreases |t|
  {
    assert (s + t)[|s + t| - 1] == t[|t| - 1];
    if t[|t| - 1].name != name {
      assert (s + t)[..|s + t| - 1] == s + t[..|t| - 1];
      LastRecordOfSuffix(s, t[..|t| - 1], name, k);
    }
  }

  /** Whatever was written before, set followed by clear leaves both cookies empty and expired. */
  lemma SetThenClear(cookies: seq<SetCookie>, config: Config, accessToken: Token, refreshToken: Token)
    ensures forall name | name == AccessCookie || name == RefreshCookie ::
              var last := LastRecord(cookies + SetRecords(config, accessToken, refreshToken) + ClearRecords(config), name);
              last.Some? && last.value.value == Text("") && last.value.options.maxAge == 0
  {
    var clear := ClearRecords(config);
    var all := cookies + SetRecords(config, accessToken, refreshToken) + clear;
    assert all == (cookies + SetRecords(config, accessToken, refreshToken)) + clear;
    LastRecordOfSuffix(cookies + SetRecords(config, accessToken, refreshToken), clear, AccessCookie, 0);
    LastRecordOfSuffix(cookies + SetRecords(config, accessToken, refreshToken), clear, RefreshCookie, 1);
    assert clear[..1] == [clear[0]];
    assert LastRecord(clear, AccessCookie) == Some(clear[0]);
  }

  /** The part of Express's response object the helpers touch. */
  class Response {

    var cookies: seq<SetCookie>

    constructor ()
      ensures cookies == []
    {
      cookies := [];
    }

    /** `res.cookie(name, value, options)`. */
    method Cookie(name: string, value: Token, options: CookieOptions)
      modifies this
      ensures cookies == old(cookies) + [SetCookie(name, value, options)]
    {
      cookies := cookies + [SetCookie(name, value, options)];
    }
  }

  /** `setAuthCookies(res, accessToken, refreshToken)`. */
  method SetAuthCookies(res: Response, config: Config, accessToken: Token, refreshToken: Token)
    modifies res
    ensures res.cookies == old(res.cookies) + SetRecords(config, accessToken, refreshToken)
  {
    res.Cookie(AccessCookie, accessToken, SessionOptions(config, None, SessionMaxAge));
    res.Cookie(RefreshCookie, refreshToken, SessionOptions(config, Some(RefreshCookiePath), SessionMaxAge));
  }

  /** `clearAuthCookies(res)`. */
  method ClearAuthCookies(res: Response, config: Config)
    modifies res
    ensures res.cookies == old(res.cookies) + ClearRecords(config)
  {
    res.Cookie(AccessCookie, Text(""), SessionOptions(config, None, 0));
    res.Cookie(RefreshCookie, Text(""), SessionOptions(config, Some(RefreshCookiePath), 0));
  }
}
