# Blog backend: sessions, the auth gate and the post service, in Dafny

This project models the request-handling logic of a small blog backend written for
Express and Mongoose. Users register and log in. A session is a pair of signed tokens
held in two cookies. The `authenticateToken` gate admits a request only with a valid
access token. Posts carry tags and embedded comments, and only their author (OP) may
change or delete them.

The model has one module per source file, plus small shared modules:

| module | file | form |
|---|---|---|
| `PostModel` | models/post.model.js | `Post` and `Comment` datatypes |
| `UserModel` | the user record that controllers/authController.js reads and writes | `User`, `UserView`, symbolic bcrypt `Hash`/`Compare` |
| `Tokens` | middlewares/generateTokens.js | symbolic JWT `Sign`/`Verify`, `GenerateTokens` |
| `Cookies` | middlewares/setAuthCookies.js, middlewares/clearAuthCookies.js | a `Response` class whose `cookies` list each `res.cookie` call appends to |
| `Guard` | middlewares/authenticateToken.js | the pure three-way `Gate` and the `AuthenticateToken` method that sets `req.user` |
| `AuthRules`, `Auth` | controllers/authController.js | pure checks and decisions; the `AuthController` class over the user list |
| `PostQueries`, `Posts` | controllers/postController.js | pure paging and listing; the `PostController` class over the post map |
| `Routes` | routes/postRoute.js, routes/authRoute.js | the gate placed in front of the guarded handlers |

Modelling choices:

- **Crypto as free terms.** A token is `Jwt(payload, secret, iat, exp)`. Any other
  cookie string is `Text(s)`. `Verify` accepts a token only if the secret matches and
  `now < exp`, which is how jsonwebtoken treats expiry. A password hash is
  `Bcrypt(rounds, salt, key)`. Here `key` is the first 72 bytes of the password's UTF-8
  encoding. What bcrypt's key schedule reads is a function of it, so two passwords
  compare alike exactly when their keys are equal. `Compare` is the only function that
  reads it. So `verify(sign(p, k), k) = p` and `compare(p, hash(p))` are theorems here,
  proved without axioms. `compare` is exact below 72 bytes. Longer passwords that share
  their first 72 bytes are accepted alike, as bcrypt accepts them.
- **Environment as parameters.** The clock `now` (in seconds), the bcrypt salt, the
  configuration (JWT_SECRET, REFRESH_TOKEN_SECRET, NODE_ENV) and a `storeError` flag
  are all passed in. `storeError` means the document store throws on its first access.
- **Post timestamps.** The post store stamps each write with a strictly increasing
  logical clock. It allocates ids in creation order. The invariant `CreationOrdered`
  ties the two orders together, so "newest first" is the same as descending id.
- **Query parameters.** `page` and `limit` arrive as they come out of `parseInt`.
  `None` stands for NaN or a missing parameter.
- **JavaScript semantics kept.** Truthiness: an absent field and `""` are both falsy.
  `password.length` counts UTF-16 code units of well-formed text. `\s` is JavaScript's whitespace class.

Some behaviours of the code are easy to miss; the model follows the code:

- The access cookie is written without a `path` option. Express then writes path `/`,
  not a path limited to the API.
- An update runs no schema validation, so an owner may store "" in a required field.
  `addComment` saves the whole document, and Mongoose's `required` check then rejects
  it. Such a post answers every comment with 500 "Error adding comment".
- The refresh cookie's maxAge is 900000 ms, which is the access token's lifetime and
  not the refresh token's 30 days. `Cookies.SetRecords` states this.
- A refresh token that fails verification, and a store failure during refresh, both
  land in the same catch block and answer 500 "Invalid refresh token".

## Model

| member | source | states |
|---|---|---|
| `UserModel.Utf8` | controllers/authController.js:48 | the UTF-8 encoding bcrypt receives has between 1 and 4 bytes per character |
| `UserModel.Utf8Injective` | controllers/authController.js:48 | different passwords (strings of Unicode scalar values) have different UTF-8 encodings |
| `UserModel.BcryptKey` | controllers/authController.js:48 | the key bcrypt reads is a prefix of the encoding of at most 72 bytes: the whole encoding when it fits, exactly 72 bytes otherwise |
| `UserModel.Hash` | controllers/authController.js:47-48 | the hash uses 10 salt rounds and the given salt; `compare` accepts the hashed password and exactly the passwords with the same first 72 bytes |
| `UserModel.CompareExactBelowLimit` | controllers/authController.js:98 | for a password under 72 bytes, `compare(p, hash(q))` holds exactly when p = q |
| `UserModel.LongPasswordsCollide` | controllers/authController.js:98 | a 73-character password is accepted against the hash of its first 72 characters |
| `Tokens.Sign` | middlewares/generateTokens.js:13-16 | verifying with the signing secret before expiry returns the payload, issue time and expiry; any other secret or a later time fails |
| `Tokens.GenerateTokens` | middlewares/generateTokens.js:7-19 | the access token verifies under JWT_SECRET for 15 minutes to {id, username, or email when username is empty}; the refresh token verifies under REFRESH_TOKEN_SECRET for 30 days to {id} only; with distinct secrets neither token verifies under the other secret |
| `Cookies.SetRecords` | middlewares/setAuthCookies.js:1-16 | exactly two records, access_token then refresh_token, carrying the given tokens; both httpOnly, sameSite strict, secure iff NODE_ENV is production; access cookie has no explicit path; refresh cookie has the refresh-endpoint path; both have maxAge 900000 ms, which is 15 minutes and shorter than the refresh token's 30 days |
| `Cookies.ClearRecords` | middlewares/clearAuthCookies.js:1-16 | two records with value "" and maxAge 0, with the same names, paths and flags as the records set writes |
| `Cookies.SetThenClear` | middlewares/clearAuthCookies.js:2-15 | after set and then clear, on any earlier response, the last record for each of the two cookie names is empty with maxAge 0 |
| `Cookies.Response.Cookie` | middlewares/setAuthCookies.js:2-7 | `res.cookie` appends one record and leaves the earlier ones alone |
| `Cookies.SetAuthCookies` | middlewares/setAuthCookies.js:1-16 | the response's cookie list grows by exactly the two set records |
| `Cookies.ClearAuthCookies` | middlewares/clearAuthCookies.js:1-16 | the response's cookie list grows by exactly the two clearing records |
| `Guard.Gate` | middlewares/authenticateToken.js:6-24 | every rejection is 403; a missing or empty cookie gives "You need to sign in before continuing."; a present cookie that fails verification gives "Invalid Token"; the gate proceeds iff the cookie verifies under JWT_SECRET, and then carries the decoded claims |
| `Guard.AuthenticateToken` | middlewares/authenticateToken.js:6-24 | `next` runs iff the gate proceeds; then req.user becomes the decoded claims and nothing is sent; otherwise req.user is untouched and the 403 is sent |
| `Guard.AccessRoundTrip` | middlewares/authenticateToken.js:16-17 | an issued access token passes the gate for its 15 minutes and no longer, with the claims {id, username-or-email} |
| `Guard.RefreshTokenRejected` | middlewares/authenticateToken.js:16-23 | with distinct secrets, a refresh token sent as the access cookie gets 403 "Invalid Token" |
| `Guard.ClearedCookieRejected` | middlewares/authenticateToken.js:7-13 | the value logout writes into the access cookie is treated as no sign-in: 403 |
| `AuthRules.ValidEmailMatchesPattern` | controllers/authController.js:22-27 | the email check (no whitespace, one '@' with a non-empty part before it, a domain with an inner '.') accepts exactly the language of `^[^\s@]+@[^\s@]+\.[^\s@]+$` |
| `AuthRules.Utf16Length` | controllers/authController.js:29 | `length` lies between the number of characters and twice that, equals the number of characters when every character is in the Basic Multilingual Plane, and is 2 for one character outside it and 1 for one inside it |
| `AuthRules.Utf16LengthAppend` | controllers/authController.js:29 | the `length` of a concatenation is the sum of the parts' lengths, so with the one-character values it is fixed for every string |
| `AuthRules.Utf16LengthSnoc` | controllers/authController.js:29 | appending a character outside the Basic Multilingual Plane adds 2 to `length`, any other character adds 1 |
| `AuthRules.AstralPasswordLength` | controllers/authController.js:29-33 | four characters outside the Basic Multilingual Plane already pass the 8-character check |
| `AuthRules.FindCollision` | controllers/authController.js:36 | returns the first user, in insertion order, whose username or email matches, or none exactly when no user matches |
| `AuthRules.FindById` | controllers/authController.js:134 | finds a user with the id, or none exactly when no user has it |
| `AuthRules.RegisterRejection` | controllers/authController.js:16-45 | checks run in the code's order: missing field (answered without reading the store), bad email, password under 8 code units, then store error (500); it proceeds iff validation passes and no user has the username or the email; each message is backed by a real clash; on any clash, both fields at once included, the answer is 400 naming the username when the first user `findOne` returns has it, the email otherwise |
| `AuthRules.SingleClashMessages` | controllers/authController.js:36-44 | a username-only clash gets 400 "Username already exists", an email-only clash gets 400 "Email already exists" |
| `AuthRules.RegisterKeepsUsersValid` | controllers/authController.js:36-57 | a register that passes every check keeps each id equal to its position and usernames and emails unique and valid |
| `AuthRules.LoginDecision` | controllers/authController.js:83-101 | missing fields give 400 and a store error 500; the identifier is matched against username or email; only the user `findOne` returns (modelled as the first match in insertion order) is tried: it is granted exactly when its hash accepts the password, and a wrong password for it gives 401 even if a later matching user would accept it; an unknown user and a wrong password get the identical 401 "Invalid credentials." |
| `AuthRules.RefreshDecision` | controllers/authController.js:125-137 | no cookie gives 401; a failed verification or a store error gives 500 "Invalid refresh token"; an unknown decoded id gives 401 "User not found"; otherwise the token pair is reissued for the stored user with the decoded id |
| `AuthRules.LoginAfterRegister` | controllers/authController.js:36-57 | a user who has just registered logs in with the same name and password, unless an older user's email equals that name (matches taken in insertion order) |
| `AuthRules.LoginResolvesToOlderUser` | controllers/authController.js:90-92 | when the store returns matches in insertion order: if a new username equals an older user's email, login under that name never logs in the new user |
| `AuthRules.RefreshRoundTrip` | controllers/authController.js:132-139 | a stored user's issued refresh token is exchanged for that user for 30 days; after that it gets 500 |
| `AuthRules.AccessTokenIsNoRefreshToken` | controllers/authController.js:132 | with distinct secrets, an access token sent as the refresh cookie gets 500 "Invalid refresh token" |
| `Auth.AuthController.RegisterUser` | controllers/authController.js:13-78 | on a rejection, no user is stored and no cookie is written; otherwise exactly one user is appended, storing hash(password) and not the password; both session cookies are set with tokens for it; 201 with the password-free view; uniqueness of usernames and emails is preserved |
| `Auth.AuthController.LoginUser` | controllers/authController.js:80-122 | denied logins write no cookie; a granted login sets both session cookies for the granted user and answers 200 with its view |
| `Auth.AuthController.RefreshAuthToken` | controllers/authController.js:124-149 | refusals write no cookie; a reissue sets a fresh token pair in both cookies and answers 200 |
| `Auth.AuthController.GetUserDetails` | controllers/authController.js:151-165 | a store error gives 500; an unknown id gives 404 "User not found"; otherwise 200 with the user's view, which has no password |
| `Auth.AuthController.LogoutUser` | controllers/authController.js:167-170 | always appends the two clearing records and answers 200 |
| `PostQueries.QueryParam` | controllers/postController.js:46-47 | `parseInt(x) \|\| d`: NaN, an absent parameter and 0 give the default; any other value is kept; the result is at least 1 |
| `PostQueries.PageOf` | controllers/postController.js:48-53 | a page holds at most `limit` items: the items from position (page-1)*limit onward, in order |
| `PostQueries.PageCount` | controllers/postController.js:68 | totalPages is the least n with n*limit >= total |
| `PostQueries.PagesCoverList` | controllers/postController.js:46-68 | pages 1 to totalPages, read one after another, give back the whole listing |
| `PostQueries.PagingExample` | controllers/postController.js:46-68 | with 25 posts and limit 10 there are 3 pages, and page 3 holds the last 5 posts |
| `PostQueries.Newest` | controllers/postController.js:50-51 | every listed post is stored under its id and matches the filter; the listing is in strictly decreasing id and, in a store whose ids follow creation order, strictly decreasing createdAt |
| `PostQueries.NewestComplete` | controllers/postController.js:50-51 | every stored post that matches the filter appears in the listing |
| `PostQueries.CountMatches` | controllers/postController.js:63 | the unpaged listing query returns as many posts as `countDocuments` counts for the same filter |
| `PostQueries.TagListing` | controllers/postController.js:228 | a stored post is in the listing for a tag exactly when its tags contain that tag |
| `Posts.NewPost` | controllers/postController.js:15-22 | a new post has the requester as OP, no comments, the given tags or [] when none were sent, its required fields present, and createdAt = updatedAt |
| `Posts.ApplyUpdate` | controllers/postController.js:123-132 | exactly the fields that were sent are overwritten, "" and [] included; id, OP, comments and createdAt are kept |
| `Posts.BlankingUpdate` | controllers/postController.js:123-132 | an update that sends "" for title, description or imgURL leaves a post that fails the required-field validation |
| `Posts.EmptyUpdate` | controllers/postController.js:123-132 | an update that sends no field changes only updatedAt |
| `Posts.WithComment` | controllers/postController.js:191-196 | the comment is appended at the end; nothing else changes except updatedAt |
| `Posts.CommentsInCallOrder` | controllers/postController.js:191-196 | after N comments the post holds the earlier comments followed by those N, in call order; OP and title are unchanged |
| `Posts.DefaultListing` | controllers/postController.js:46-53 | with no `page` and no `limit`, a listing answers page 1 with the ten newest matching posts and totalPages counted in tens |
| `Posts.ListingReply` | controllers/postController.js:65-70 | the 200 body: currentPage; at most `limit` posts, all matching and stored, newest first; totalPosts is the filtered count; totalPages = ceil(totalPosts/limit) |
| `Posts.PostController.CreatePost` | controllers/postController.js:5-41 | a missing or empty title, description or imgURL gives 400 and changes nothing; a store error gives 500; otherwise exactly one post is added under a fresh id, it comes first in the newest-first listing, and the answer is 201 |
| `Posts.PostController.GetAllPosts` | controllers/postController.js:44-77 | 500 on a store error; otherwise the listing reply over all posts, whose totalPosts is the number of stored posts |
| `Posts.PostController.GetPostById` | controllers/postController.js:80-103 | 500 on a store error; 404 for an absent id; otherwise 200 with the stored post |
| `Posts.PostController.UpdatePost` | controllers/postController.js:107-148 | 500, 404 (absent) and 403 (requester is not OP) leave the store unchanged; the owner's update replaces only that post, by the partial update, and answers 200 |
| `Posts.PostController.DeletePost` | controllers/postController.js:151-174 | 500, 404 and 403 leave the store unchanged; the owner's delete removes exactly that post with its comments and keeps every other post |
| `Posts.PostController.AddComment` | controllers/postController.js:177-218 | empty text gives 400 before the store is read; 500 on a store error; 404 for an absent post; 500 with nothing written when the stored post has an empty required field, which `save()` rejects; otherwise, with no ownership check, only that post changes, gaining the comment {text, requester} at the end; 201 |
| `Posts.PostController.GetPostsByTag` | controllers/postController.js:221-255 | 500 on a store error; otherwise the listing reply for the tag filter, every listed post carrying the tag |
| `Posts.PostController.GetPostsByUser` | controllers/postController.js:258-292 | 500 on a store error; otherwise the listing reply for the author filter, every listed post having OP = userId |
| `Routes.HandlePostRoute` | routes/postRoute.js:7-21 | when the gate rejects, the answer is its 403, no post handler runs and the store is unchanged; when the gate proceeds, req.user holds the decoded claims, and a created post belongs to the user the token names |
| `Routes.HandleUserDetails` | routes/authRoute.js:16 | when the gate rejects, the answer is its 403; when it proceeds, a store error gives 500 "Error fetching profile", an id no stored user has gives 404 "User not found", and otherwise the answer is 200 with the profile of the user named by the access token |

## Left out

- Server start-up, the database connection, CORS and route wiring are I/O glue and are not modelled. index.js mounts only the auth router; `Routes.HandlePostRoute` composes the post router as routes/postRoute.js declares it, whether or not it is mounted.
- Mongoose `populate` joins are not modelled. Replies carry the stored post, not the OP's or commenters' public fields.
- The `_id` Mongoose gives each embedded comment is not modelled, nor the `__v` version field.
- Store failures are modelled only at a handler's first store access, which then changes nothing. A failure after a successful write is not modelled: for example, the re-fetch after `save` in createPost or addComment failing while the write has already happened.
- The `error.message` text in 500 bodies is not modelled. Each 500 carries only its fixed message.
- Concurrency is not modelled, including the race between a concurrent update and addComment. Each handler runs atomically.
- `parseInt` quirks are outside the model. `page` and `limit` are natural numbers or NaN, so a negative page or limit (and the negative skip it gives) cannot be expressed.
- Ids are natural numbers. The CastError (500) that Mongoose raises for a malformed id string therefore cannot occur.
- Request bodies hold strings, string lists or nothing. JSON values of other types, and Mongoose's casting of them, are not modelled.
- AuthRules.FindCollision: `findOne` without a sort is modelled as returning the earliest-inserted match. The document store does not promise this: its natural order, or an index on username or email, may pick another match. Which one is picked decides the duplicate message when two different users clash on username and email, and which user login tries (`AuthRules.LoginDecision`, `AuthRules.LoginResolvesToOlderUser`, `AuthRules.LoginAfterRegister`).
- Strings are sequences of Unicode scalar values. A JavaScript string with an unpaired surrogate (a JSON body can carry `"\ud800"`) is not modelled: its `length` counts the lone surrogate as one unit, and Node's UTF-8 conversion turns every unpaired surrogate into EF BF BD, so passwords that differ only there hash alike.
- bcrypt's handling of a NUL character inside a password is not modelled; it is treated as an ordinary character.
- bcrypt and JWT internals are symbolic. So are cost-based hashing time, signature bytes and base64 encoding. jsonwebtoken's failure when a secret is undefined is not modelled.
- Mongoose timestamps are real clock dates that can tie. The model's logical clock is strictly increasing.
- models/user.model.js is not part of this model. The user record has the fields authController.js uses. The profile view is {_id, username, name, email}, because other schema fields are unknown.
- Cookies the browser keeps, and their expiry, are not modelled beyond the last record written for each name (`Cookies.LastRecord`).
- Routes.HandlePostRoute: states only the gate's outcome, `req.user`, and the owner of a created post. The full contract of each handler sits on the handler itself.
