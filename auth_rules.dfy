/**
 * The decisions of controllers/authController.js that do not touch the response:
 * the register validation (required fields, the email pattern, the password
 * length, the username-or-email duplicate check and its two messages), the login
 * credential check and the refresh-token check.
 */
module AuthRules {

  import opened Wrappers
  import opened Http
  import opened PostModel
  import opened UserModel
  import opened Tokens
  import opened Cookies

  const MinPasswordLength: nat := 8

  const MsgMissingFields: string := "Please provide all required fields."
  const MsgInvalidEmail: string := "Please provide a valid email address."
  const MsgShortPassword: string := "Password must be at least 8 characters long."
  const MsgUsernameTaken: string := "Username already exists"
  const MsgEmailTaken: string := "Email already exists"
  const MsgRegistered: string := "User registered successfully"
  const MsgRegisterError: string := "Error registering user"
  const MsgInvalidCredentials: string := "Invalid credentials."
  const MsgLoggedIn: string := "User logged in successfully"
  const MsgLoginError: string := "Error logging in user"
  const MsgNoRefreshToken: string := "No refresh token provided"
  const MsgInvalidRefresh: string := "Invalid refresh token"
  const MsgUserNotFound: string := "User not found"
  const MsgRefreshed: string := "Token refreshed successfully"
  const MsgProfileError: string := "Error fetching profile"
  const MsgLoggedOut: string := "Logged out successfully"

  /** The JSON bodies the controller sends. */
  datatype AuthBody =
    | Message(message: string)
    | WithUser(message: string, user: UserView)
    | Profile(user: UserView)

  /** `req.body` of a register request; `None` is a field that was not sent. */
  datatype RegisterFields = RegisterFields(username: Option<string>, name: Option<string>, email: Option<string>, password: Option<string>)

  /** `req.body` of a login request; `username` may hold a username or an email. */
  datatype LoginFields = LoginFields(username: Option<string>, password: Option<string>)

  // ---------------------------------------------------------------- email shape

  /** JavaScript's `\s`: the WhiteSpace and LineTerminator code points of ECMAScript. */
  predicate IsJsSpace(c: char)
  {
    c == '\t' || c == '\n' || c == '\U{000B}' || c == '\U{000C}' || c == '\r' || c == ' '
    || c == '\U{00A0}' || c == '\U{1680}' || ('\U{2000}' <= c <= '\U{200A}')
    || c == '\U{2028}' || c == '\U{2029}' || c == '\U{202F}' || c == '\U{205F}'
    || c == '\U{3000}' || c == '\U{FEFF}'
  }

  /** `[^\s@]+`: a non-empty run of characters that are neither whitespace nor '@'. */
  predicate PlainRun(s: string)
  {
    |s| > 0 && forall k | 0 <= k < |s| :: !IsJsSpace(s[k]) && s[k] != '@'
  }

  /**
   * The language of `/^[^\s@]+@[^\s@]+\.[^\s@]+$/`: the string splits at an '@' (index
   * i) and a later '.' (index j) into three plain runs.
   */
  ghost predicate EmailPattern(e: string)
  {
    exists i, j | 0 < i && i + 1 < j < |e| - 1 ::
      e[i] == '@' && e[j] == '.' && PlainRun(e[..i]) && PlainRun(e[i + 1..j]) && PlainRun(e[j + 1..])
  }

  /** The index of the first '@', or |s| when there is none. */
  function IndexOfAt(s: string): (i: nat)
    ensures i <= |s|
    ensures i < |s| ==> s[i] == '@'
    ensures forall k | 0 <= k < i :: s[k] != '@'
  {
    if s == [] then 0 else if s[0] == '@' then 0 else 1 + IndexOfAt(s[1..])
  }

  predicate NoSpace(s: string)
  {
    forall k | 0 <= k < |s| :: !IsJsSpace(s[k])
  }

  predicate NoAt(s: string)
  {
    forall k | 0 <= k < |s| :: s[k] != '@'
  }

  /** A '.' that is neither the first nor the last character. */
  predicate HasInnerDot(d: string)
  {
    exists k | 0 < k < |d| - 1 :: d[k] == '.'
  }

  /**
   * The email check: no whitespace anywhere, exactly one '@' (the first one, with
   * none after it), a non-empty local part, and a domain with an inner '.'.
   */
  predicate ValidEmail(e: string)
  {
    var at := IndexOfAt(e);
    0 < at < |e| && NoSpace(e) && NoAt(e[at + 1..]) && HasInnerDot(e[at + 1..])
  }

  /** Every character of a slice of `s` that avoids whitespace and '@' makes a plain run (when non-empty). */
  lemma PlainSlice(s: string, lo: nat, hi: nat)
    requires lo < hi <= |s|
    requires forall m | lo <= m < hi :: !IsJsSpace(s[m]) && s[m] != '@'
    ensures PlainRun(s[lo..hi])
  {
    var t := s[lo..hi];
    forall m | 0 <= m < |t| ensures !IsJsSpace(t[m]) && t[m] != '@' {
      assert t[m] == s[lo + m];
    }
  }

  /** The characters of a plain-run slice avoid whitespace and '@'. */
  lemma SliceOfPlain(s: string, lo: nat, hi: nat)
    requires lo <= hi <= |s| && PlainRun(s[lo..hi])
    ensures forall m | lo <= m < hi :: !IsJsSpace(s[m]) && s[m] != '@'
  {
    var t := s[lo..hi];
    forall m | lo <= m < hi ensures !IsJsSpace(s[m]) && s[m] != '@' {
      assert s[m] == t[m - lo];
    }
  }

  lemma ValidEmailIsPattern(e: string)
    requires ValidEmail(e)
    ensures EmailPattern(e)
  {
    var at := IndexOfAt(e);
    var d := e[at + 1..];
    var k :| 0 < k < |d| - 1 && d[k] == '.';
    var j := at + 1 + k;
    assert e[j] == d[k];
    forall m | at < m < |e| ensures e[m] != '@' {
      assert e[m] == d[m - at - 1];
    }
    PlainSlice(e, 0, at);
    PlainSlice(e, at + 1, j);
    PlainSlice(e, j + 1, |e|);
    assert e[j + 1..|e|] == e[j + 1..];
    assert e[0..at] == e[..at];
  }

  /** In a string of the pattern's shape, index i holds the only '@'. */
  lemma PatternSingleAt(e: string, i: nat, j: nat)
    requires 0 < i && i + 1 < j < |e| - 1 && e[i] == '@' && e[j] == '.'
    requires PlainRun(e[..i]) && PlainRun(e[i + 1..j]) && PlainRun(e[j + 1..])
    ensures forall m | 0 <= m < |e| && m != i :: e[m] != '@'
  {
    assert e[0..i] == e[..i];
    assert e[j + 1..|e|] == e[j + 1..];
    SliceOfPlain(e, 0, i);
    SliceOfPlain(e, i + 1, j);
    SliceOfPlain(e, j + 1, |e|);
  }

  /** A string of the pattern's shape contains no whitespace. */
  lemma PatternNoSpace(e: string, i: nat, j: nat)
    requires 0 < i && i + 1 < j < |e| - 1 && e[i] == '@' && e[j] == '.'
    requires PlainRun(e[..i]) && PlainRun(e[i + 1..j]) && PlainRun(e[j + 1..])
    ensures NoSpace(e)
  {
    assert e[0..i] == e[..i];
    assert e[j + 1..|e|] == e[j + 1..];
    SliceOfPlain(e, 0, i);
    SliceOfPlain(e, i + 1, j);
    SliceOfPlain(e, j + 1, |e|);
  }

  lemma PatternIsValidEmail(e: string)
    requires EmailPattern(e)
    ensures ValidEmail(e)
  {
    var i, j :| 0 < i && i + 1 < j < |e| - 1 &&
      e[i] == '@' && e[j] == '.' && PlainRun(e[..i]) && PlainRun(e[i + 1..j]) && PlainRun(e[j + 1..]);
    PatternSingleAt(e, i, j);
    PatternNoSpace(e, i, j);
    var at := IndexOfAt(e);
    assert at == i;
    var d := e[at + 1..];
    forall m | 0 <= m < |d| ensures d[m] != '@' {
      assert d[m] == e[at + 1 + m];
    }
    assert d[j - i - 1] == '.';
  }

  /** The email check accepts exactly the strings the register regular expression matches. */
  lemma ValidEmailMatchesPattern(e: string)
    ensures ValidEmail(e) <==> EmailPattern(e)
  {
    if ValidEmail(e) { ValidEmailIsPattern(e); }
    if EmailPattern(e) { PatternIsValidEmail(e); }
  }

  // ---------------------------------------------------------------- password length

  /** `s.length` in JavaScript: UTF-16 code units, two for a character outside the Basic Multilingual Plane. */
  function Utf16Length(s: string): (n: nat)
    ensures |s| <= n <= 2 * |s|
    ensures (forall k | 0 <= k < |s| :: s[k] as int <= 0xFFFF) ==> n == |s|
    ensures |s| == 1 ==> n == (if s[0] as int > 0xFFFF then 2 else 1)
  {
    if s == [] then 0 else (if s[0] as int > 0xFFFF then 2 else 1) + Utf16Length(s[1..])
  }

  /** The code units of a concatenation are those of its parts: with the one-character values, this fixes `length` for every string. */
  lemma {:induction false} Utf16LengthAppend(s: string, t: string)
    ensures Utf16Length(s + t) == Utf16Length(s) + Utf16Length(t)
    decreases |s|
  {
    if s != [] {
      assert (s + t)[1..] == s[1..] + t;
      Utf16LengthAppend(s[1..], t);
    } else {
      assert s + t == t;
    }
  }

  /** Appending one character adds two code units when it lies outside the Basic Multilingual Plane and one otherwise. */
  lemma Utf16LengthSnoc(s: string, c: char)
    ensures Utf16Length(s + [c]) == Utf16Length(s) + (if c as int > 0xFFFF then 2 else 1)
  {
    Utf16LengthAppend(s, [c]);
  }

  /** Four characters outside the Basic Multilingual Plane already pass the 8-character check. */
  lemma AstralPasswordLength()
    ensures Utf16Length("\U{1F511}\U{1F511}\U{1F511}\U{1F511}") == MinPasswordLength
  {
  }

  // ---------------------------------------------------------------- lookups

  /** `username === u || email === e`: what `findOne({ $or: [{ username }, { email }] })` matches. */
  predicate Collides(u: User, username: string, email: string)
  {
    u.username == username || u.email == email
  }

  /**
   * `findOne` with the `$or` filter and no sort: modelled as the first matching user
   * in insertion order, which the document store does not promise.
   */
  function FindCollision(users: seq<User>, username: string, email: string): (r: Option<nat>)
    ensures r.None? <==> forall k | 0 <= k < |users| :: !Collides(users[k], username, email)
    ensures r.Some? ==> r.value < |users| && Collides(users[r.value], username, email)
    ensures r.Some? ==> forall k | 0 <= k < r.value :: !Collides(users[k], username, email)
  {
    if users == [] then None
    else if Collides(users[0], username, email) then Some(0)
    else match FindCollision(users[1..], username, email)
      case None => None
      case Some(k) => Some(k + 1)
  }

  /** `findById(id)`. */
  function FindById(users: seq<User>, id: ObjectId): (r: Option<nat>)
    ensures r.None? <==> forall k | 0 <= k < |users| :: users[k].id != id
    ensures r.Some? ==> r.value < |users| && users[r.value].id == id
  {
    if users == [] then None
    else if users[0].id == id then Some(0)
    else match FindById(users[1..], id)
      case None => None
      case Some(k) => Some(k + 1)
  }

  /** The invariant registration keeps: ids are positions, fields are filled in, usernames and emails are unique. */
  ghost predicate UsersValid(users: seq<User>)
  {
    && (forall k | 0 <= k < |users| ::
          users[k].id == k && users[k].username != "" && users[k].name != "" && ValidEmail(users[k].email))
    && (forall k, m | 0 <= k < m < |users| ::
          users[k].username != users[m].username && users[k].email != users[m].email)
  }

  // ---------------------------------------------------------------- register

  predicate MissingAny(f: RegisterFields)
  {
    Falsy(f.username) || Falsy(f.name) || Falsy(f.email) || Falsy(f.password)
  }

  /** The checks made before the store is read. */
  predicate PassesValidation(f: RegisterFields)
  {
    !MissingAny(f) && ValidEmail(f.email.value) && Utf16Length(f.password.value) >= MinPasswordLength
  }

  /** The message of the duplicate check: it names the username when the user found has it. */
  function DuplicateMessage(found: User, username: string): string
  {
    if found.username == username then MsgUsernameTaken else MsgEmailTaken
  }

  /** The reply `registerUser` sends before it writes anything, or None when it goes on to create the user. */
  function RegisterRejection(users: seq<User>, f: RegisterFields, storeError: bool): (r: Option<Reply<AuthBody>>)
    ensures MissingAny(f) ==> r == Some(Reply(BadRequest, Message(MsgMissingFields)))
    ensures !MissingAny(f) && !ValidEmail(f.email.value) ==> r == Some(Reply(BadRequest, Message(MsgInvalidEmail)))
    ensures !MissingAny(f) && ValidEmail(f.email.value) && Utf16Length(f.password.value) < MinPasswordLength ==>
              r == Some(Reply(BadRequest, Message(MsgShortPassword)))
    ensures PassesValidation(f) && storeError ==> r == Some(Reply(ServerError, Message(MsgRegisterError)))
    ensures r.None? <==>
              PassesValidation(f) && !storeError &&
              forall k | 0 <= k < |users| :: users[k].username != f.username.value && users[k].email != f.email.value
    // any clash, both fields at once included: 400, with the message chosen by the first user `findOne` returns
    ensures PassesValidation(f) && !storeError && FindCollision(users, f.username.value, f.email.value).Some? ==>
              var k := FindCollision(users, f.username.value, f.email.value).value;
              r == Some(Reply(BadRequest, Message(DuplicateMessage(users[k], f.username.value))))
    ensures r.Some? && r.value.body == Message(MsgUsernameTaken) ==>
              exists k | 0 <= k < |users| :: users[k].username == f.username.value
    ensures r.Some? && r.value.body == Message(MsgEmailTaken) ==>
              exists k | 0 <= k < |users| :: users[k].email == f.email.value && users[k].username != f.username.value
    ensures r.Some? ==> r.value.status == BadRequest || r.value.status == ServerError
  {
    if MissingAny(f) then Some(Reply(BadRequest, Message(MsgMissingFields)))
    else if !ValidEmail(f.email.value) then Some(Reply(BadRequest, Message(MsgInvalidEmail)))
    else if Utf16Length(f.password.value) < MinPasswordLength then Some(Reply(BadRequest, Message(MsgShortPassword)))
    else if storeError then Some(Reply(ServerError, Message(MsgRegisterError)))
    else match FindCollision(users, f.username.value, f.email.value)
      case Some(k) => Some(Reply(BadRequest, Message(DuplicateMessage(users[k], f.username.value))))
      case None => None
  }

  /** The duplicate answer when only one field clashes: a username clash alone names the username, an email clash alone the email. */
  lemma SingleClashMessages(users: seq<User>, f: RegisterFields)
    requires PassesValidation(f)
    ensures (exists k | 0 <= k < |users| :: users[k].username == f.username.value)
              && (forall k | 0 <= k < |users| :: users[k].email != f.email.value) ==>
              RegisterRejection(users, f, false) == Some(Reply(BadRequest, Message(MsgUsernameTaken)))
    ensures (exists k | 0 <= k < |users| :: users[k].email == f.email.value)
              && (forall k | 0 <= k < |users| :: users[k].username != f.username.value) ==>
              RegisterRejection(users, f, false) == Some(Reply(BadRequest, Message(MsgEmailTaken)))
  {
  }

  /** The record a successful register stores: the password only as its hash. */
  function NewUser(id: ObjectId, f: RegisterFields, salt: string): User
    requires !MissingAny(f)
  {
    User(id, f.username.value, f.name.value, f.email.value, Hash(f.password.value, salt))
  }

  /** A register that passes every check keeps ids, emails and usernames as the store requires. */
  lemma RegisterKeepsUsersValid(users: seq<User>, f: RegisterFields, salt: string, storeError: bool)
    requires UsersValid(users) && RegisterRejection(users, f, storeError).None?
    ensures UsersValid(users + [NewUser(|users|, f, salt)])
  {
  }

  // ---------------------------------------------------------------- login

  datatype LoginOutcome = Denied(reply: Reply<AuthBody>) | Granted(user: User)

  /** `loginUser` up to issuing tokens: the supplied username is matched against usernames and emails. */
  function LoginDecision(users: seq<User>, f: LoginFields, storeError: bool): (r: LoginOutcome)
    ensures Falsy(f.username) || Falsy(f.password) ==> r == Denied(Reply(BadRequest, Message(MsgMissingFields)))
    ensures !Falsy(f.username) && !Falsy(f.password) && storeError ==> r == Denied(Reply(ServerError, Message(MsgLoginError)))
    ensures r.Granted? ==>
              && !Falsy(f.username) && !Falsy(f.password) && !storeError
              && (exists k | 0 <= k < |users| :: users[k] == r.user)
              && Collides(r.user, f.username.value, f.username.value)
              && Compare(f.password.value, r.user.password)
    // an unknown user and a wrong password get the same answer
    ensures !Falsy(f.username) && !Falsy(f.password) && !storeError &&
              (forall k | 0 <= k < |users| :: users[k].username != f.username.value && users[k].email != f.username.value) ==>
              r == Denied(Reply(Unauthorized, Message(MsgInvalidCredentials)))
    ensures !Falsy(f.username) && !Falsy(f.password) && !storeError &&
              (forall k | 0 <= k < |users| :: Collides(users[k], f.username.value, f.username.value) ==>
                                                !Compare(f.password.value, users[k].password)) ==>
              r == Denied(Reply(Unauthorized, Message(MsgInvalidCredentials)))
    ensures r.Denied? && r.reply.status == Unauthorized ==> r.reply.body == Message(MsgInvalidCredentials)
    // only the first user whose username or email matches is tried
    ensures !Falsy(f.username) && !Falsy(f.password) && !storeError ==>
              var found := FindCollision(users, f.username.value, f.username.value);
              && (found.Some? && Compare(f.password.value, users[found.value].password) ==> r == Granted(users[found.value]))
              && (found.Some? && !Compare(f.password.value, users[found.value].password) ==>
                    r == Denied(Reply(Unauthorized, Message(MsgInvalidCredentials))))
    ensures r.Granted? ==>
              && !Falsy(f.username)
              && var found := FindCollision(users, f.username.value, f.username.value);
                 found.Some? && r.user == users[found.value]
  {
    if Falsy(f.username) || Falsy(f.password) then Denied(Reply(BadRequest, Message(MsgMissingFields)))
    else if storeError then Denied(Reply(ServerError, Message(MsgLoginError)))
    else match FindCollision(users, f.username.value, f.username.value)
      case None => Denied(Reply(Unauthorized, Message(MsgInvalidCredentials)))
      case Some(k) =>
        if !Compare(f.password.value, users[k].password) then Denied(Reply(Unauthorized, Message(MsgInvalidCredentials)))
        else Granted(users[k])
  }

  // ---------------------------------------------------------------- refresh

  datatype RefreshOutcome = Refused(reply: Reply<AuthBody>) | Reissue(user: User)

  /**
   * `refreshAuthToken` up to issuing tokens. A verification failure and a store
   * failure land in the same catch block: both answer 500 "Invalid refresh token".
   */
  function RefreshDecision(users: seq<User>, cookies: map<string, Token>, config: Config, now: nat, storeError: bool): (r: RefreshOutcome)
    ensures !Truthy(CookieValue(cookies, RefreshCookie)) ==> r == Refused(Reply(Unauthorized, Message(MsgNoRefreshToken)))
    ensures Truthy(CookieValue(cookies, RefreshCookie)) && Verify(cookies[RefreshCookie], config.refreshSecret, now).None? ==>
              r == Refused(Reply(ServerError, Message(MsgInvalidRefresh)))
    ensures Truthy(CookieValue(cookies, RefreshCookie)) && storeError ==>
              r == Refused(Reply(ServerError, Message(MsgInvalidRefresh)))
    ensures r.Reissue? ==>
              && Truthy(CookieValue(cookies, RefreshCookie)) && !storeError
              && Verify(cookies[RefreshCookie], config.refreshSecret, now).Some?
              && Verify(cookies[RefreshCookie], config.refreshSecret, now).value.payload.id == r.user.id
              && exists k | 0 <= k < |users| :: users[k] == r.user
    ensures Truthy(CookieValue(cookies, RefreshCookie)) && !storeError &&
              Verify(cookies[RefreshCookie], config.refreshSecret, now).Some? &&
              (forall k | 0 <= k < |users| :: users[k].id != Verify(cookies[RefreshCookie], config.refreshSecret, now).value.payload.id) ==>
              r == Refused(Reply(Unauthorized, Message(MsgUserNotFound)))
    ensures r.Refused? ==> r.reply.status == Unauthorized || r.reply.status == ServerError
    ensures Truthy(CookieValue(cookies, RefreshCookie)) && !storeError &&
              Verify(cookies[RefreshCookie], config.refreshSecret, now).Some? &&
              (exists k | 0 <= k < |users| :: users[k].id == Verify(cookies[RefreshCookie], config.refreshSecret, now).value.payload.id) ==>
              r.Reissue?
  {
    var refreshToken := CookieValue(cookies, RefreshCookie);
    if !Truthy(refreshToken) then Refused(Reply(Unauthorized, Message(MsgNoRefreshToken)))
    else match Verify(refreshToken.value, config.refreshSecret, now)
      case None => Refused(Reply(ServerError, Message(MsgInvalidRefresh)))
      case Some(decoded) =>
        if storeError then Refused(Reply(ServerError, Message(MsgInvalidRefresh)))
        else match FindById(users, decoded.payload.id)
          case None => Refused(Reply(Unauthorized, Message(MsgUserNotFound)))
          case Some(k) => Reissue(users[k])
  }

  // ---------------------------------------------------------------- round trips

  /** A user who has just registered can log in with the same username and password, unless an older user has that username as email (matches taken in insertion order). */
  lemma LoginAfterRegister(users: seq<User>, f: RegisterFields, salt: string)
    requires RegisterRejection(users, f, false).None?
    requires forall k | 0 <= k < |users| :: users[k].email != f.username.value
    ensures LoginDecision(users + [NewUser(|users|, f, salt)], LoginFields(f.username, f.password), false)
              == Granted(NewUser(|users|, f, salt))
  {
    var u := NewUser(|users|, f, salt);
    var all := users + [u];
    var found := FindCollision(all, f.username.value, f.username.value);
    assert Collides(all[|users|], f.username.value, f.username.value);
    assert found.Some? && found.value == |users| by {
      forall k | 0 <= k < |users| ensures !Collides(all[k], f.username.value, f.username.value) {
        assert all[k] == users[k];
      }
    }
  }

  /** The refresh token issued to a stored user is exchanged for that user until it expires. */
  lemma RefreshRoundTrip(users: seq<User>, k: nat, cookies: map<string, Token>, config: Config, issued: nat, now: nat)
    requires UsersValid(users) && k < |users|
    requires RefreshCookie in cookies && cookies[RefreshCookie] == GenerateTokens(users[k], config, issued).refreshToken
    ensures RefreshDecision(users, cookies, config, now, false) ==
              if now < issued + RefreshTtl then Reissue(users[k])
              else Refused(Reply(ServerError, Message(MsgInvalidRefresh)))
  {
    var t := cookies[RefreshCookie];
    assert t.Jwt?;
    if now < issued + RefreshTtl {
      assert Verify(t, config.refreshSecret, now).value.payload.id == k;
      var found := FindById(users, k);
      assert found.Some? by { assert users[k].id == k; }
    }
  }

  /** An access token presented as the refresh cookie fails verification: the two secrets keep the tokens apart. */
  lemma AccessTokenIsNoRefreshToken(users: seq<User>, user: User, cookies: map<string, Token>, config: Config, issued: nat, now: nat, storeError: bool)
    requires config.jwtSecret != config.refreshSecret
    requires RefreshCookie in cookies && cookies[RefreshCookie] == GenerateTokens(user, config, issued).accessToken
    ensures RefreshDecision(users, cookies, config, now, storeError) == Refused(Reply(ServerError, Message(MsgInvalidRefresh)))
  {
    assert Verify(cookies[RefreshCookie], config.refreshSecret, now).None?;
  }

  /**
   * Registration compares usernames with usernames and emails with emails only, so a
   * new username may equal an older user's email; when the store returns matches in
   * insertion order, login then resolves that name to the older user, and the new user
   * is never the one logged in.
   */
  lemma LoginResolvesToOlderUser(users: seq<User>, f: RegisterFields, salt: string, k: nat)
    requires RegisterRejection(users, f, false).None?
    requires k < |users| && users[k].email == f.username.value
    ensures LoginDecision(users + [NewUser(|users|, f, salt)], LoginFields(f.username, f.password), false)
              != Granted(NewUser(|users|, f, salt))
  {
    var all := users + [NewUser(|users|, f, salt)];
    assert all[k] == users[k];
    var found := FindCollision(all, f.username.value, f.username.value);
    assert found.Some? && found.value <= k;
    assert all[found.value] == users[found.value];
  }
}
