/**
 * Sequences of requests served one after another by the controller, and the
 * properties that hold of every such sequence.
 */
module Traces {
  import opened Wrappers
  import opened Model
  import opened Handlers

  /** One request to one of the five handlers, with what it carries. */
  datatype Request =
    | SignupRequest(user: User)
    | ShowLoginFormRequest(cookie: Option<string>)
    | LoginRequest(cred: Credentials, token: string)
    | LogoutRequest(cookie: Option<string>)
    | RefreshTokenRequest(cookie: Option<string>)

  /** A request together with the collaborators as they answered while it was served. */
  datatype Served = Served(env: Env, request: Request)

  /** The state after serving one request. */
  function Step(s: State, env: Env, request: Request): State {
    match request
    case SignupRequest(user) => SignupStep(s, env, user).state
    case ShowLoginFormRequest(_) => s
    case LoginRequest(cred, token) => LoginStep(s, env, cred, token).state
    case LogoutRequest(cookie) => LogoutStep(s, cookie).state
    case RefreshTokenRequest(_) => s
  }

  /** The state after serving the requests in order. */
  function Run(s: State, trace: seq<Served>): State
    decreases |trace|
  {
    if trace == [] then s else Run(Step(s, trace[0].env, trace[0].request), trace[1..])
  }

  /** The store holds nothing yet and no cookie has been emitted. */
  function Initial(users: map<string, Account>): State {
    State(map[], users, [])
  }

  /**
   * What every reachable state keeps: each record is stored under its own
   * token string and belongs to a registered email, and every emitted cookie
   * is a secure, HTTP-only, root-path refresh-token cookie.
   */
  predicate Consistent(s: State) {
    && (forall t :: t in s.refresh ==> s.refresh[t].token == t && s.refresh[t].email in s.users)
    && (forall i :: 0 <= i < |s.cookies| ==> IsRefreshCookie(s.cookies[i]))
  }

  /** The login request of the trace that was given `token`. */
  predicate IssuedIn(trace: seq<Served>, token: string) {
    exists i :: 0 <= i < |trace| && trace[i].request.LoginRequest? && trace[i].request.token == token
  }

  /** A request that may add or remove the record stored under `token`. */
  predicate Touches(request: Request, token: string) {
    || (request.LoginRequest? && request.token == token)
    || (request.LogoutRequest? && request.cookie == Some(token))
  }

  lemma InitialConsistent(users: map<string, Account>)
    ensures Consistent(Initial(users))
  {
  }

  /**
   * Serving showLoginForm or refreshToken leaves the state as it was. This
   * holds by construction: ShowLoginForm and RefreshToken return no state,
   * so Step keeps the old one; the lemma records it for sequences of requests.
   */
  lemma ReadOnlyRequests(s: State, env: Env, cookie: Option<string>)
    ensures Step(s, env, ShowLoginFormRequest(cookie)) == s
    ensures Step(s, env, RefreshTokenRequest(cookie)) == s
  {
  }

  lemma StepConsistent(s: State, env: Env, request: Request)
    requires Consistent(s)
    ensures Consistent(Step(s, env, request))
  {
  }

  lemma {:induction false} RunConsistent(s: State, trace: seq<Served>)
    requires Consistent(s)
    ensures Consistent(Run(s, trace))
    decreases |trace|
  {
    if trace != [] {
      StepConsistent(s, trace[0].env, trace[0].request);
      RunConsistent(Step(s, trace[0].env, trace[0].request), trace[1..]);
    }
  }

  /** In a consistent state a refresh never fails on a missing user: it is OK or UNAUTHORIZED. */
  lemma ConsistentRefreshAnswers(s: State, env: Env, cookie: Option<string>)
    requires Consistent(s)
    ensures var r := RefreshToken(s, env, cookie);
      r.status == OK <==> Usable(s.refresh, env, cookie)
    ensures RefreshToken(s, env, cookie).status != SERVER_ERROR
  {
  }

  /** After any trace from a fresh start, every refresh is answered OK or UNAUTHORIZED. */
  lemma RefreshNeverFaults(users: map<string, Account>, trace: seq<Served>, env: Env, cookie: Option<string>)
    ensures RefreshToken(Run(Initial(users), trace), env, cookie).status != SERVER_ERROR
  {
    InitialConsistent(users);
    RunConsistent(Initial(users), trace);
    ConsistentRefreshAnswers(Run(Initial(users), trace), env, cookie);
  }

  /** Users are never removed or changed: signup only adds. */
  lemma {:induction false} RunKeepsUsers(s: State, trace: seq<Served>)
    ensures s.users.Keys <= Run(s, trace).users.Keys
    ensures forall e :: e in s.users ==> Run(s, trace).users[e] == s.users[e]
    decreases |trace|
  {
    if trace != [] {
      RunKeepsUsers(Step(s, trace[0].env, trace[0].request), trace[1..]);
    }
  }

  /** Emitted cookies are only ever appended to. */
  lemma {:induction false} RunAppendsCookies(s: State, trace: seq<Served>)
    ensures |s.cookies| <= |Run(s, trace).cookies|
    ensures Run(s, trace).cookies[..|s.cookies|] == s.cookies
    decreases |trace|
  {
    if trace != [] {
      var s1 := Step(s, trace[0].env, trace[0].request);
      assert |s.cookies| <= |s1.cookies| && s1.cookies[..|s.cookies|] == s.cookies;
      RunAppendsCookies(s1, trace[1..]);
      assert Run(s, trace).cookies[..|s1.cookies|] == s1.cookies;
      assert Run(s, trace).cookies[..|s.cookies|] == s1.cookies[..|s.cookies|];
    }
  }

  /** Every stored token was stored before the trace or handed to one of its logins. */
  lemma {:induction false} RunRecordsFromLogins(s: State, trace: seq<Served>)
    ensures forall t :: t in Run(s, trace).refresh ==> t in s.refresh || IssuedIn(trace, t)
    decreases |trace|
  {
    if trace != [] {
      var s1 := Step(s, trace[0].env, trace[0].request);
      RunRecordsFromLogins(s1, trace[1..]);
      forall t | t in Run(s, trace).refresh
        ensures t in s.refresh || IssuedIn(trace, t)
      {
        if t !in s1.refresh {
          assert IssuedIn(trace[1..], t);
          var i :| 0 <= i < |trace[1..]| && trace[1..][i].request.LoginRequest? && trace[1..][i].request.token == t;
          assert trace[i + 1] == trace[1..][i];
        } else if t !in s.refresh {
          assert trace[0].request.LoginRequest? && trace[0].request.token == t;
        }
      }
    }
  }

  /**
   * A stored record survives every request that neither logs it out nor
   * reuses its string for a new login: logins of other tokens do not revoke
   * it and refreshes do not rotate it.
   */
  lemma {:induction false} RecordSurvives(s: State, trace: seq<Served>, token: string)
    requires token in s.refresh
    requires forall i :: 0 <= i < |trace| ==> !Touches(trace[i].request, token)
    ensures token in Run(s, trace).refresh
    ensures Run(s, trace).refresh[token] == s.refresh[token]
    decreases |trace|
  {
    if trace != [] {
      var s1 := Step(s, trace[0].env, trace[0].request);
      assert !Touches(trace[0].request, token);
      assert token in s1.refresh && s1.refresh[token] == s.refresh[token];
      forall i | 0 <= i < |trace[1..]|
        ensures !Touches(trace[1..][i].request, token)
      {
        assert trace[1..][i] == trace[i + 1];
      }
      RecordSurvives(s1, trace[1..], token);
    }
  }

  /**
   * A user saved at signup can log in at any later time: whatever requests
   * are served in between, a login whose encoder accepts the password
   * against the hash saved at signup succeeds, and its access token is
   * minted for that email and the saved authorities.
   */
  lemma SignupThenLogin(s: State, atSignup: Env, user: User, trace: seq<Served>, atLogin: Env, token: string)
    requires user.email !in s.users
    requires atLogin.matches(user.password, atSignup.accountOf(user).passwordHash)
    ensures var s' := Run(SignupStep(s, atSignup, user).state, trace);
      var r := LoginStep(s', atLogin, Credentials(user.email, user.password), token).result;
      && r.status == OK
      && r.body.Some?
      && r.body.value.accessToken == atLogin.mint(user.email, atSignup.accountOf(user).authorities)
  {
    RunKeepsUsers(SignupStep(s, atSignup, user).state, trace);
  }

  /** A refresh with a stored, usable record of a registered user succeeds. */
  lemma RefreshWithStoredRecord(s: State, env: Env, token: string)
    requires token in s.refresh && s.refresh[token].email in s.users
    requires env.verifyExpiration(s.refresh[token])
    ensures var r := RefreshToken(s, env, Some(token));
      && r.status == OK
      && r.body == Some(Issue(env, s.refresh[token].email, s.users[s.refresh[token].email].authorities))
  {
  }

  /**
   * After a successful login the refresh token stays in force until it is
   * logged out or stops being usable: after any requests that neither log it
   * out nor reuse its string, refreshing with the cookie the login set (its
   * value is `token`, by LoginStep) succeeds, minting for the logged-in
   * email, and the login page still redirects away. The refresh token is
   * never rotated.
   */
  lemma LoginThenRefresh(s: State, env: Env, cred: Credentials, token: string, trace: seq<Served>, later: Env)
    requires LoginStep(s, env, cred, token).result.status == OK
    requires forall i :: 0 <= i < |trace| ==> !Touches(trace[i].request, token)
    requires later.verifyExpiration(RefreshRecord(token, cred.email, env.refreshExpiry))
    ensures var s' := LoginStep(s, env, cred, token).state;
      var s'' := Run(s', trace);
      var r := RefreshToken(s'', later, Some(token));
      && r.status == OK
      && r.body.Some?
      && r.body.value.accessToken == later.mint(cred.email, s.users[cred.email].authorities)
      && ShowLoginForm(s''.refresh, later, Some(token)) == ChatRoomListRedirect
  {
    var s' := LoginStep(s, env, cred, token).state;
    RecordSurvives(s', trace, token);
    RunKeepsUsers(s', trace);
    RefreshWithStoredRecord(Run(s', trace), later, token);
  }
}
