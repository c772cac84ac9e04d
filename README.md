# Session manager of the refresh-token scheme

A Dafny model of `UserController`, the controller of a chat application that
manages sessions with a short-lived signed access token and a longer-lived,
server-side refresh token. The controller has five handlers:

- `signup` saves a new user, refusing an email that is already registered;
- `showLoginForm` redirects away from the login page when the `refreshToken`
  cookie names a stored record that is still usable;
- `login` checks the password, mints an access token, stores a new refresh
  record and sets it as a Secure, HttpOnly, Path=`/` cookie;
- `logout` deletes the presented token's record and redirects to the login page;
- `refreshToken` reissues an access token for a presented, stored, usable
  refresh token without touching the store (no rotation).

Layout:

- `wrappers.dfy` (`Wrappers`): `Option`, for Java's `null`.
- `model.dfy` (`Model`): the values: payloads, `Account`, `RefreshRecord`,
  `Cookie`, `ResponseToken`, `Response`, the `State` made of the refresh store
  (token string to record), the user store (email to account) and the emitted
  cookies, and `Env`, the collaborators whose code is not part of this model.
- `handlers.dfy` (`Handlers`): each handler as a function of the state
  (`SignupStep`, `LoginStep` and `LogoutStep` return the new state with the
  result; `ShowLoginForm` and `RefreshToken` only read), plus lemmas relating
  several calls.
- `traces.dfy` (`Traces`): requests served one after another (`Run`), the
  invariant `Consistent` every handler keeps, and inductive lemmas over
  arbitrary request sequences.
- `controller.dfy` (`Controller`): the class `UserController` with the three
  state-changing handlers as methods that update the stores in place, each
  proved equal to its step function and to keep `Consistent`.

The collaborators are abstract. The user service's `save` becomes
`Env.accountOf`, the password encoder's `matches` becomes `Env.matches`, the
JWT provider's `createToken`/`getTokenExpiration` become `Env.mint` and
`Env.expirationOf`, and the refresh-token service's `verifyExpiration` becomes
`Env.verifyExpiration` (true means still usable). The expiry that
`RefreshToken.create` stamps is `Env.refreshExpiry`, and the string the
refresh-token service generates is a parameter of `login`. Every property is
stated relative to these. An `Env` describes the collaborators during one
request, so a clock they read is fixed within a request and may differ
between requests (`Traces.Served`). `findByToken` is `Handlers.FindByToken`:
an absent cookie or an unknown string finds nothing. The source mints access
tokens and creates refresh records with the email of the user that
`loadUserByUsername` returned (lines 68, 74, 112); the model uses the email the
user was looked up by, taking the loaded user's email to be that key.

`loadUserByUsername` for an email with no user raises an exception. The model
returns `SERVER_ERROR` with no body and no state change there, in `login`
(line 63) and in `refreshToken` (line 111). `Traces.RefreshNeverFaults` shows
that the second case cannot arise from a fresh start.

## Model

| member | source | states |
|---|---|---|
| `Handlers.SignupStep` | src/main/java/com/example/websocketdemo/controller/UserController.java:39-45 | BAD_REQUEST exactly when the email is registered, and then nothing changes; otherwise OK, the user store gains exactly that email with what the user service saves, every other user, the refresh store and the cookies are unchanged |
| `Handlers.ShowLoginForm` | src/main/java/com/example/websocketdemo/controller/UserController.java:50-56 | the view is `redirect:/chatRoomList` exactly when the cookie is present, names a stored record and `verifyExpiration` holds for it; otherwise it is `login`; it takes no state to change |
| `Handlers.LoginStep` | src/main/java/com/example/websocketdemo/controller/UserController.java:61-91 | unknown email: failure, nothing changes; wrong password: UNAUTHORIZED, null body, nothing changes; OK exactly when the password matches, and then the body is the token minted for the email and authorities with `expirationOf` of that token, the store gains the record (token, email, refresh expiry) under the generated string, no other record changes, users unchanged, exactly one cookie is appended and it is a Secure, HttpOnly, Path `/` `refreshToken` cookie carrying the token |
| `Handlers.LogoutStep` | src/main/java/com/example/websocketdemo/controller/UserController.java:94-101 | always `redirect:/login`; removes the presented key, and only it, from the refresh store and changes no remaining record; an absent cookie removes nothing; users and cookies unchanged |
| `Handlers.RefreshToken` | src/main/java/com/example/websocketdemo/controller/UserController.java:106-120 | UNAUTHORIZED exactly when the cookie is absent, unknown or fails `verifyExpiration`; on OK the body is the token minted for the record's email and that user's authorities with its `expirationOf`; every non-OK answer has no body; it returns no state, so the store and cookies are untouched |
| `Handlers.LoginAddsExactlyOneRecord` | src/main/java/com/example/websocketdemo/controller/UserController.java:74 | with a freshly generated string, a successful login adds exactly one record and any login keeps every earlier record unchanged (no revocation of other sessions) |
| `Handlers.LoginThenFind` | src/main/java/com/example/websocketdemo/controller/UserController.java:74-77 | after a successful login, `findByToken` with the issued string finds the new record, any other string finds what it found before, and an absent cookie finds nothing |
| `Handlers.LogoutIdempotent` | src/main/java/com/example/websocketdemo/controller/UserController.java:94-101 | a second logout with the same cookie gives the same view and the same state |
| `Handlers.LogoutRevokes` | src/main/java/com/example/websocketdemo/controller/UserController.java:96-98 | after logout the presented cookie leads to the `login` view and to UNAUTHORIZED on refresh |
| `Traces.SignupThenLogin` | src/main/java/com/example/websocketdemo/controller/UserController.java:43-68 | after signing up a new email and any later requests, logging in with the same password succeeds whenever the encoder then accepts it against the hash saved at signup, and the access token is minted for that email and the saved authorities |
| `Traces.RefreshWithStoredRecord` | src/main/java/com/example/websocketdemo/controller/UserController.java:108-116 | a refresh presenting a stored record that is usable and belongs to a registered user is OK, with the token minted for that email and authorities and its expiry |
| `Traces.LoginThenRefresh` | src/main/java/com/example/websocketdemo/controller/UserController.java:106-116 | after a successful login and any later requests that neither log its token out nor reuse its string, refreshing with the cookie it set succeeds while the record is usable, the access token is minted for the logged-in email, and the login page redirects away; the token is not rotated |
| `Traces.InitialConsistent` | src/main/java/com/example/websocketdemo/controller/UserController.java:31-35 | a controller with no refresh record and no cookie satisfies the invariant |
| `Traces.ReadOnlyRequests` | src/main/java/com/example/websocketdemo/controller/UserController.java:104-120 | serving `showLoginForm` or `refreshToken` leaves the whole state as it was |
| `Traces.StepConsistent` | src/main/java/com/example/websocketdemo/controller/UserController.java:39-101 | every handler keeps the invariant: records stored under their own token and owned by registered emails, every emitted cookie a Secure, HttpOnly, root-path `refreshToken` cookie |
| `Traces.RunConsistent` | src/main/java/com/example/websocketdemo/controller/UserController.java:39-120 | every sequence of requests keeps the invariant |
| `Traces.ConsistentRefreshAnswers` | src/main/java/com/example/websocketdemo/controller/UserController.java:108-119 | in a consistent state a refresh is OK exactly when the cookie names a stored, usable record, and never fails on a missing user |
| `Traces.RefreshNeverFaults` | src/main/java/com/example/websocketdemo/controller/UserController.java:108-119 | after any sequence of requests from an empty refresh store, a refresh answers OK or UNAUTHORIZED only |
| `Traces.RunKeepsUsers` | src/main/java/com/example/websocketdemo/controller/UserController.java:39-45 | no sequence of requests removes or changes a registered user |
| `Traces.RunAppendsCookies` | src/main/java/com/example/websocketdemo/controller/UserController.java:77-84 | emitted cookies are only ever appended to |
| `Traces.RunRecordsFromLogins` | src/main/java/com/example/websocketdemo/controller/UserController.java:74 | every stored token was stored before or was carried by one of the sequence's login requests |
| `Traces.RecordSurvives` | src/main/java/com/example/websocketdemo/controller/UserController.java:93-120 | a stored record stays, unchanged, through every request that neither logs it out nor reuses its string: logins do not revoke it and refreshes do not rotate it |
| `Controller.UserController.constructor` | src/main/java/com/example/websocketdemo/controller/UserController.java:31-35 | starts from the given user store with no refresh record and no cookie, satisfying the invariant |
| `Controller.UserController.Signup` | src/main/java/com/example/websocketdemo/controller/UserController.java:39-45 | the new state and status are those of `SignupStep`; BAD_REQUEST exactly for a registered email, then users unchanged; refresh store and cookies unchanged; invariant kept |
| `Controller.UserController.Login` | src/main/java/com/example/websocketdemo/controller/UserController.java:61-91 | the new state and response are those of `LoginStep`; a failure has no body and changes neither store nor cookies; with a fresh string every earlier record stays; users unchanged; invariant kept |
| `Controller.UserController.Logout` | src/main/java/com/example/websocketdemo/controller/UserController.java:94-101 | the new state and view are those of `LogoutStep`; always `redirect:/login`; only the presented key is removed; users and cookies unchanged; invariant kept |

## Left out

- The `init()` seeding of two test users (lines 124-128): fixture setup; the constructor takes any initial user store instead.
- Password hashing and comparison, JWT signing, parsing and expiry extraction: cryptographic library calls, modelled only as the abstract `Env` functions.
- The internals of the refresh-token service, its repository and the user service: token generation (the generated string is a parameter), TTL arithmetic (`Env.refreshExpiry`), persistence, and the clock comparison inside `verifyExpiration` (an abstract predicate). `verifyExpiration` is taken to have no effect on the store, as its boolean use suggests; its code is not part of this model.
- `loadUserByUsername` for an unknown email: its code is not part of this model; the thrown exception is modelled as an opaque SERVER_ERROR with no state change.
- Handlers.LoginStep: the freshness of the generated refresh-token string is not built in; a reused string would replace the stored record, and the "exactly one new record" and "earlier records kept" properties are stated under the assumption that the string is new.
- Spring MVC plumbing: annotations, dependency injection, the unused `Principal` parameter, logging, `HttpServletResponse` (emitted cookies are a list in the state), and `java.util.Date` (an integer timestamp).
- Concurrent requests against the shared store: the model serves requests one at a time.
- Store or backend failures other than the missing user: not visible in this controller.
