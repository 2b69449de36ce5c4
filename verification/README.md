# dss-blog: session and credential lifecycle in Dafny

This project models the authentication core of the dss-blog SvelteKit
application. It covers:

- the PostgreSQL user and session tables behind `src/lib/server/db.js`;
- the session helpers of `src/lib/server/session.js`;
- the route handlers that log users in and out, report the current session,
  redirect `/user`, and enrol a TOTP second factor;
- the security-header hook;
- two string helpers, `createSlug` and `textLimitCheck`.

Everything is a pure function over an immutable store. Each handler maps the
store, the request fields and the answers of code it cannot see to three
things: an outcome, a new store, and the cookie writes it performs.

Modules, one per source file, plus five shared helper modules (`Wrappers`,
`Ascii`, `Hex`, `Http`, `RouteGuard`):

| module | file | models |
|---|---|---|
| `Wrappers` | wrappers.dfy | `Option`, for `null`/`undefined` |
| `Ascii` | ascii.dfy | ASCII lower-casing (`toLowerCase`, `Headers` names) |
| `Hex` | hex.dfy | `Buffer.toString("hex")` and its inverse |
| `Db` | db.dfy | `src/lib/server/db.js` |
| `Session` | session.dfy | `src/lib/server/session.js` |
| `Http` | http.dfy | cookie writes, JavaScript truthiness |
| `RouteGuard` | route_guard.dfy | the cookie → session → `user.id` opening of the protected handlers |
| `LoginPage` | login_page.dfy | `src/routes/auth/login/+page.server.js` |
| `LoginApi` | login_api.dfy | `src/routes/api/auth/login/+server.js` |
| `TotpPage` | totp_page.dfy | `src/routes/user/totp/+page.server.js` |
| `LogoutRoute` | logout_route.dfy | `src/routes/auth/logout/+server.js` |
| `SessionApi` | session_api.dfy | `src/routes/api/auth/session/+server.js` |
| `UserRoute` | user_route.dfy | `src/routes/user/+server.js` |
| `Hooks` | hooks.dfy | `src/hooks.server.js` |
| `Slug` | slug.dfy | `createSlug` in `src/routes/posts/create/+page.server.js` |
| `Utils` | utils.dfy | `textLimitCheck` in `src/lib/server/utils.js` |

Modelling choices:

- **Store.** `Db.Store` holds the `users` rows in table order and the
  `sessions` table as a map from `session_id` to `user_id`. A NULL
  `user_id` is `None`. Sessions carry no IP address and no expiry, because
  the INSERT stores only the id and the owner. "The first row" of a query
  means the first matching row in table order.
- **Store failures.** `Db.Conn` is `Up` when a PostgreSQL round trip
  succeeds and `Down` when it throws. `verifyUserCredentials`,
  `createSession`, `destroySession` and `getUserFromSession` rethrow, so
  they answer `Thrown`. `insertUser`, `getUserByEmail` and
  `getUserByUsername` swallow the error and answer `None` (`null`). A
  handler sees one `Conn` for the whole request.
- **Session ids.** The 16 random bytes behind a session id are supplied by
  the caller. `Db.FreshEntropy` requires that the id they encode is not
  already in the table.
- **`users` table constraints.** Ids are serial and positive; usernames
  and emails are unique; `is_admin` defaults to false; both timestamps
  take the insert time. The table definition is not part of this model, so
  these are assumptions. `Db.WellFormed` states them, and `InsertUser`
  enforces and preserves them.
- **`createSession`'s argument.** `db.js:62` reads `user.id` from its
  argument. `session.js:23` passes the user record. Both login routes pass
  `user.id`, a bare number, which has no `id` property. `Db.CreateSession`
  models `db.js` as written, over either kind of argument. The routes are
  modelled with `Db.CreateSessionFor`, which creates the session for a user
  id as the routes intend (see Findings).
- **Code outside this model, taken as inputs:**
  - `DB.isTwoFactorEnabled`, `DB.getUserSecretFromDatabase` and
    `DB.saveUserSecretInDatabase`. db.js defines none of them. Saves are returned as a list of writes.
  - The TOTP secret generator, QR renderer and code verifier (`2fa.js`).
  - The reCAPTCHA `success` value.
  - `Utils.gravatar` and `Utils.disableRecaptcha`. utils.js defines
    neither of them, so `disableRecaptcha` reads as `undefined`,
    which is falsy.
- **Uncaught exceptions.** Reading `user.id` of a `null` user throws a
  TypeError, and SvelteKit answers an uncaught exception with a 500. The
  model gives it an explicit server-error outcome.
- **Response headers.** In both `Hooks` and `LoginApi`, header names are
  stored lower-cased, as Fetch `Headers` stores them.

## Model

| member | source | states |
|---|---|---|
| Hex.Encode | src/lib/server/db.js:9 | writing bytes as hex gives two lower-case hex digits per byte |
| Hex.DecodeEncode | src/lib/server/db.js:9 | hex decoding recovers the bytes that were encoded |
| Hex.EncodeDecode | src/lib/server/db.js:9 | every even-length lower-case hex string is the encoding of its decoding, so the encoding is a bijection |
| Db.GenerateSessionId | src/lib/server/db.js:8-10 | a session id is 32 lower-case hex digits and decodes back to the 16 random bytes |
| Db.SessionIdsDistinct | src/lib/server/db.js:8-10 | distinct random bytes give distinct session ids |
| Db.Select | src/lib/server/db.js:42-46 | a query answers a row that satisfies its WHERE clause and that no earlier row satisfies; `null` exactly when no row satisfies it; a NULL parameter matches nothing |
| Db.InsertUser | src/lib/server/db.js:14-31 | a successful insert appends exactly one row with the given username, email and hash, a fresh larger id and no admin flag; any failure, including a store error or a duplicate username or email, answers `null` and changes nothing |
| Db.InsertKeepsWellFormed | src/lib/server/db.js:19-24 | inserting keeps ids, usernames and emails unique |
| Db.InsertThenLookup | src/lib/server/db.js:19-24 | the inserted row is what lookups by its username and by its email then return |
| Db.VerifyUserCredentials | src/lib/server/db.js:33-53 | a user comes back only if both its username and its stored `password_hash` equal the arguments verbatim; `null` exactly when no row has both; a store error is rethrown |
| Db.CreateSession | src/lib/server/db.js:55-72 | `createSession` as written adds exactly one row, under a fresh 32-digit hex id, owned by `user.id` of its argument; it returns that id, leaves users and other sessions unchanged, and rethrows store errors |
| Db.CreateSessionFor | src/lib/server/db.js:60-65 | creating a session for a user id adds exactly one row owned by that id and leaves everything else unchanged |
| Db.CreateSessionForRecord | src/lib/server/session.js:23 | handing `createSession` the user record is the same as creating the session for that record's id |
| Db.BareNumberSessionNeverResolves | src/routes/auth/login/+page.server.js:92 | passing a bare number, as the login routes do, stores a NULL owner, and the new session resolves to no user |
| Db.CreatedSessionResolves | src/lib/server/db.js:55-115 | a session created for a stored user resolves to that user |
| Db.DestroySession | src/lib/server/db.js:74-88 | `destroySession` removes the id's row, keeps every other row and all users, is a no-op for an unknown id, and rethrows store errors |
| Db.DestroyThenResolve | src/lib/server/db.js:79-81 | after `destroySession` the id resolves to no user, and a second call changes nothing |
| Db.Resolve | src/lib/server/db.js:95-108 | the join answers a stored user whose id is the session's `user_id`; it answers `null` exactly when there is no row, the owner is NULL, or no user has that id |
| Db.GetUserFromSession | src/lib/server/db.js:90-115 | `getUserFromSession` answers the join when the store is up and rethrows otherwise |
| Db.GetUserByEmail | src/lib/server/db.js:119-138 | the row answered has exactly the given email; `null` exactly when no row has it or the store failed |
| Db.GetUserByUsername | src/lib/server/db.js:141-160 | the row answered has exactly the given username (case-sensitive); `null` exactly when no row has it or the store failed |
| Session.LoginUser | src/lib/server/session.js:18-32 | `loginUser` succeeds exactly when `verifyUserCredentials` returns a user; it returns that record and a session owned by it; invalid credentials or a store error leave the store unchanged |
| Session.LogoutUser | src/lib/server/session.js:40-42 | `logoutUser` removes the session and nothing else |
| Session.GetUserFromCookie | src/lib/server/session.js:50-53 | when the store answers, the cookie yields exactly the user its session resolves to (`null` when it resolves to none), a stored user owning that session; store errors are rethrown |
| Session.LoginThenCookie | src/lib/server/session.js:18-53 | right after a successful `loginUser`, `getUserFromCookie` on the new id yields a user with the same id, and under the table constraints the very same record |
| Session.LogoutThenCookie | src/lib/server/session.js:40-53 | after `logoutUser(sid)`, `getUserFromCookie(sid)` is `null` |
| Session.LogoutIdempotent | src/lib/server/session.js:40-42 | logging out twice leaves the same store as logging out once |
| RouteGuard.SessionGate | src/routes/auth/logout/+server.js:6-10 | a protected handler admits a request only if its cookie is non-empty and names a session that resolves to a user with a non-zero id; a missing user is a TypeError, not a 401 |
| RouteGuard.SerialIdsAdmit | src/routes/user/+server.js:9-10 | with serial ids the falsy-id branch is unreachable: every resolving session is admitted |
| LoginPage.Load | src/routes/auth/login/+page.server.js:17-28 | `load` redirects 302 to "/" exactly when a non-empty `sessionid` cookie resolves to a user; with a non-empty cookie a store error is rethrown; otherwise it returns `null` |
| LoginPage.SecondFactorCheck | src/routes/auth/login/+page.server.js:80-89 | for a 2FA user the checks run in a fixed order: missing code → "2FA code required.", missing secret → "2FA secret not found…", failed verification → "Invalid 2FA code."; users without 2FA always pass |
| LoginPage.SessionCookie | src/routes/auth/login/+page.server.js:93-94 | the cookie is `sessionid` with path "/", httpOnly, sameSite 'strict', maxAge 2592000, and secure exactly when `x-forwarded-proto` is "https" |
| LoginPage.Action | src/routes/auth/login/+page.server.js:37-100 | reCAPTCHA rejects with 401 exactly when `success` is `false` and it is not disabled. Past it, a store error is a server error; no matching row gives 401 "Invalid username or password."; a failing second-factor check gives 401 with that check's message; and matching credentials with a passing second factor always log in. Every failure answers 401 with no session and no cookie. A login adds one session for the matched user and sets the session cookie |
| LoginPage.RecaptchaDecidesFirst | src/routes/auth/login/+page.server.js:58-61 | a reCAPTCHA rejection does not depend on the store, its availability, the form or the second factor |
| LoginPage.BadCredentialsIgnoreSecondFactor | src/routes/auth/login/+page.server.js:70-81 | wrong credentials answer 401 "Invalid username or password." whatever the second-factor state |
| LoginPage.CodeIrrelevantWithoutSecondFactor | src/routes/auth/login/+page.server.js:81-92 | when the user whose credentials match has no 2FA (or no user matches), the submitted code changes nothing |
| LoginPage.SuccessCreatesOneSession | src/routes/auth/login/+page.server.js:92-94 | a successful login adds exactly one session under a fresh 32-digit hex id, which resolves to the user whose credentials matched, and the cookie carries that id |
| LoginApi.Post | src/routes/api/auth/login/+server.js:4-55 | credentials come only from `body.user`; bad credentials create nothing and set no cookie; a login creates exactly one session for the verified user and sets `sessionid` with path "/" only; a body without `user` or a store error is a server error |
| LoginApi.Reply | src/routes/api/auth/login/+server.js:24-51 | the success response's `session-id` header is the new session id |
| LoginApi.ReplyIntended | src/routes/api/auth/login/+server.js:26-31 | with the intended rejection the `session-id` header is still the new session id |
| LoginApi.RejectionAnswers200 | src/routes/api/auth/login/+server.js:24-32 | as written, bad credentials are answered with HTTP status 200 and body "401" |
| LoginApi.IntendedStatusSeparates | src/routes/api/auth/login/+server.js:26-31 | with the intended rejection, the status is 401 exactly for bad credentials and 200 exactly for a login |
| LoginApi.SuccessHeaderMatchesCookie | src/routes/api/auth/login/+server.js:37-50 | after a login the `session-id` header equals the cookie value, one session was added, and it resolves to the verified user |
| TotpPage.Load | src/routes/user/totp/+page.server.js:18-32 | `load` returns `null` without a non-empty cookie or a resolving session; a store error is rethrown exactly when the cookie is non-empty and the store fails; otherwise it returns the session's user with `is_2fa_enabled` from `DB.isTwoFactorEnabled` and the avatar for its email |
| TotpPage.Begin | src/routes/user/totp/+page.server.js:36-55 | an empty username fails 400 "Username cannot be empty."; an unknown one, or a store error, fails 400 "User not found."; for a found user the QR renderer's failure is rethrown, and exactly otherwise stage 1 returns a secret generated for that user and its QR code, and nothing is written |
| TotpPage.VerifyCheck | src/routes/user/totp/+page.server.js:56-71 | the first failing check decides the message, in the order secret, username, user exists, code present, code verifies |
| TotpPage.Verify | src/routes/user/totp/+page.server.js:56-79 | every failure answers 400 and writes nothing; failures after the secret check echo stage 1 and the secret; success writes the submitted secret exactly once, for the user the form's username names |
| TotpPage.EnrollmentRoundTrip | src/routes/user/totp/+page.server.js:36-79 | a secret issued by stage 1, with a code the verifier accepts for it, makes stage 2 succeed and save that secret for that user |
| LogoutRoute.Get | src/routes/auth/logout/+server.js:5-16 | no cookie answers 401 with the store unchanged; a session that does not resolve is an error and nothing is destroyed; a valid session is destroyed, the cookie deleted at "/", and the answer is a 302 to "/?message=Logged out successfully." |
| LogoutRoute.LogoutRevokes | src/routes/auth/logout/+server.js:12 | after a successful logout the old id resolves to no user, and every other session resolves as before |
| LogoutRoute.UnknownSessionCrashes | src/routes/auth/logout/+server.js:9-10 | an id unknown to the store fails on `user.id` of `null` and destroys nothing |
| SessionApi.Project | src/routes/api/auth/session/+server.js:21-31 | the response user copies exactly id, username, email, is_admin, avatar, created_at and updated_at, and has no password-hash field |
| SessionApi.ProjectionHidesHash | src/routes/api/auth/session/+server.js:21-31 | rows that differ only in their password hash give the same response |
| SessionApi.Get | src/routes/api/auth/session/+server.js:10-33 | `GET` without a cookie answers 401; it returns the projection of the session's user exactly when the session resolves to a user with a non-zero id; it only reads the store |
| SessionApi.Delete | src/routes/api/auth/session/+server.js:37-49 | `DELETE` needs a resolving session, then deletes only the cookie; without a cookie or with a falsy id it answers 401 "Unauthorized" and writes no cookie |
| SessionApi.DeleteLeavesSessionUsable | src/routes/api/auth/session/+server.js:41-44 | after a successful `DELETE` the session row survives and `GET` with the same id still returns the user |
| UserRoute.Get | src/routes/user/+server.js:5-13 | no cookie or a falsy id redirects 302 to "/auth/login"; a resolving session with a truthy id redirects 302 to "/user/profile"; a session without a user is a TypeError; the store is only read |
| UserRoute.LiveSessionReachesProfile | src/routes/user/+server.js:6-12 | with serial ids, the handler picks "/user/profile" exactly for a cookie whose session resolves, and "/auth/login" without a cookie |
| Hooks.Overlay | src/hooks.server.js:15 | setting the table's entries in turn removes no header, and afterwards every table name is present |
| Hooks.SetHeader | src/hooks.server.js:15 | `headers.set` stores the value under the lower-cased name and leaves every other header as it was |
| Hooks.OverlayLookup | src/hooks.server.js:15 | after the overlay each table header holds its table value, and every other header is unchanged |
| Hooks.SecurityHeaderNamesDistinct | src/hooks.server.js:1-9 | the five table names are distinct |
| Hooks.Handle | src/hooks.server.js:11-18 | `handle` returns the response `resolve` produced, with its status and body, whatever the request |
| Hooks.HandleHeaders | src/hooks.server.js:1-15 | after `handle` each of the five headers carries exactly its table value, and every other header is as `resolve` left it |
| Hooks.NoHstsNoNosniff | src/hooks.server.js:2-8 | Strict-Transport-Security and X-Content-Type-Options are never set |
| Hooks.OverlayIdempotent | src/hooks.server.js:15 | applying the overlay twice gives the same headers as applying it once |
| Hooks.HandleIdempotent | src/hooks.server.js:15 | applying the overlay again to `handle`'s headers changes nothing |
| Slug.StripNonWord | src/routes/posts/create/+page.server.js:10 | after the first replace only word characters and spaces remain, and nothing grows |
| Slug.Hyphenate | src/routes/posts/create/+page.server.js:11 | turning space runs into hyphens never lengthens the text |
| Slug.CreateSlug | src/routes/posts/create/+page.server.js:7-12 | every slug character is in `[a-z0-9_-]` (no upper-case letter, no space), and a slug never holds two consecutive hyphens |
| Slug.SlugWithoutHyphens | src/routes/posts/create/+page.server.js:9-11 | deleting a slug's hyphens gives the lower-cased title filtered to word characters |
| Slug.SlugHyphenIffSpace | src/routes/posts/create/+page.server.js:10-11 | a slug holds a hyphen exactly when the title holds an ASCII space; tabs, newlines and punctuation are deleted |
| Slug.SlugLengthAndEdges | src/routes/posts/create/+page.server.js:9-11 | a slug is never longer than its title, and leading or trailing spaces become edge hyphens |
| Utils.TextLimitCheck | src/lib/server/utils.js:8-10 | the check passes exactly when cutting the text to its first `maxLength` characters loses nothing; a negative limit rejects every text |
| Utils.DefaultLimit | src/lib/server/utils.js:8 | with the default limit, exactly texts of at most 255 characters pass |
| Utils.Monotone | src/lib/server/utils.js:9 | a text that passes for a limit passes for every larger limit |
| Utils.PrefixClosed | src/lib/server/utils.js:9 | every prefix of a passing text passes |

## Left out

- PostgreSQL client handling is left out: the connection string, connecting and closing per call, and the logging. Every call is one `Conn` answer, and one handler uses one answer throughout. So a store that fails after some calls of a request succeeded is not modelled. The first failing call would end the request in the same way.
- `getPostBySlug` and `testConnection` in `db.js` are left out. They are post fetching and debugging, outside the session core.
- Password hashing and bcrypt (`src/lib/server/auth.js`) are left out. The login code compares the submitted password verbatim with `password_hash` and never calls them.
- The RFC 6238 TOTP computation, secret generation and QR rendering (`src/lib/server/2fa.js`) are left out. They are library calls, passed in as functions.
- The reCAPTCHA `fetch` to Google is left out. It is network I/O; its `success` field is an input.
- Session IP binding, session expiry, admin-role gating and 2FA disabling are left out. The modelled code does none of them: the session INSERT stores only id and owner. The client address read by the login page is only logged.
- SvelteKit's own cookie defaults are left out. Cookie options are recorded exactly as the handlers pass them.
- Mutations of the in-memory user object (`user.avatar`, `user.is_2fa_enabled`) are left out. They reach only the returned page data, which the model builds directly.
- `formData.get` returning a `File` is left out; form fields are strings or missing.
- Request concurrency and the ordering of `await`s are left out. Each handler is one sequential step.
- Post CRUD, the admin and search pages, registration, the settings and profile loaders, `src/lib/api.js`, `src/lib/error.js` and the configuration files are left out. They are data-fetch glue outside the session core.
- LoginPage.Action, LoginApi.Post: create the session for `user.id` through `Db.CreateSessionFor`, the behaviour the routes intend, not through the bare-number call they make (see Findings). So `LoginPage.SuccessCreatesOneSession` and `LoginApi.SuccessHeaderMatchesCookie` describe the intended behaviour; as written, the new session resolves to no user (`Db.BareNumberSessionNeverResolves`).
- Slug.CreateSlug: lower-cases ASCII letters only. Unicode case mapping is not modelled. A non-ASCII character whose JavaScript lower-case form is ASCII (U+212A KELVIN SIGN becomes `k`) survives in the source but is deleted here. For ASCII titles the two agree.
- Utils.TextLimitCheck: counts Dafny characters. JavaScript's `length` counts UTF-16 code units, so a character outside the Basic Multilingual Plane counts twice in the source.
- Db.Select: "first row" means table order. PostgreSQL promises no order without ORDER BY. The choice matters only for rows that break the table's uniqueness constraints.

## Findings

| source | as written | input that shows it | evidently intended | confidence | as-written member | corrected member |
|---|---|---|---|---|---|---|
| src/routes/auth/login/+page.server.js:92 | `DB.createSession(user.id, …)` passes a number, while db.js:62 reads `.id` of its argument; that read gives `undefined`, bound as NULL. src/routes/api/auth/login/+server.js:39 does the same. | any successful login: the cookie's session id resolves to no user, so the visitor is not logged in | the session is owned by the user who logged in | medium, not executed; if `user_id` is NOT NULL the insert throws instead, and every login answers 500 | Db.BareNumberSessionNeverResolves | Db.CreatedSessionResolves |
| src/routes/api/auth/login/+server.js:26-31 | `new Response(401, { headers: { status: 401, message } })` puts 401 in the body and in a header named `status`; the response status defaults to 200 | a POST whose `user.password` is wrong | HTTP status 401 | high, not executed | LoginApi.RejectionAnswers200 | LoginApi.IntendedStatusSeparates |
