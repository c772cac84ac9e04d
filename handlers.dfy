/**
 * The five handlers of the user controller as functions of the state they
 * read, and the properties each single call has.
 */
module Handlers {
  import opened Wrappers
  import opened Model

  /** The refresh-token service's lookup: an absent cookie or an unknown string finds nothing. */
  function FindByToken(store: map<string, RefreshRecord>, cookie: Option<string>): Option<RefreshRecord> {
    if cookie.Some? && cookie.value in store then Some(store[cookie.value]) else None
  }

  /** Mint an access token for an email and authorities and pair it with the expiry read back from it. */
  function Issue(env: Env, email: string, authorities: set<string>): ResponseToken {
    var accessToken := env.mint(email, authorities);
    ResponseToken(accessToken, env.expirationOf(accessToken))
  }

  /** The presented cookie names a stored record that is still usable. */
  predicate Usable(store: map<string, RefreshRecord>, env: Env, cookie: Option<string>) {
    cookie.Some? && cookie.value in store && env.verifyExpiration(store[cookie.value])
  }

  /** signup: refused when the email is taken, otherwise the user is saved. */
  function SignupStep(s: State, env: Env, user: User): (r: Outcome<HttpStatus>)
    ensures r.result == BAD_REQUEST <==> user.email in s.users
    ensures r.result == BAD_REQUEST || r.result == OK
    ensures r.result == BAD_REQUEST ==> r.state == s
    ensures r.result == OK ==>
      && r.state.users.Keys == s.users.Keys + {user.email}
      && r.state.users[user.email] == env.accountOf(user)
      && (forall e :: e in s.users ==> r.state.users[e] == s.users[e])
      && r.state.refresh == s.refresh
      && r.state.cookies == s.cookies
  {
    if user.email in s.users then
      Outcome(s, BAD_REQUEST)
    else
      Outcome(s.(users := s.users[user.email := env.accountOf(user)]), OK)
  }

  /** showLoginForm: redirect away only for a cookie naming a stored, still usable record. */
  function ShowLoginForm(store: map<string, RefreshRecord>, env: Env, cookie: Option<string>): (view: string)
    ensures view == ChatRoomListRedirect <==> Usable(store, env, cookie)
    ensures view != ChatRoomListRedirect ==> view == LoginView
  {
    match FindByToken(store, cookie)
    case Some(record) => if env.verifyExpiration(record) then ChatRoomListRedirect else LoginView
    case None => LoginView
  }

  /**
   * login: an unknown email raises (SERVER_ERROR); a wrong password is
   * UNAUTHORIZED with no body; a matching one mints an access token, stores a
   * refresh record under `token` (the string the refresh-token service
   * generated) and emits a secure refresh-token cookie carrying it.
   */
  function LoginStep(s: State, env: Env, cred: Credentials, token: string): (r: Outcome<Response>)
    ensures cred.email !in s.users ==> r == Outcome(s, Response(SERVER_ERROR, None))
    ensures cred.email in s.users && !env.matches(cred.password, s.users[cred.email].passwordHash) ==>
      r == Outcome(s, Response(UNAUTHORIZED, None))
    ensures r.result.status == OK <==>
      cred.email in s.users && env.matches(cred.password, s.users[cred.email].passwordHash)
    ensures r.result.status == OK ==>
      && r.result.body.Some?
      && r.result.body.value.accessToken == env.mint(cred.email, s.users[cred.email].authorities)
      && r.result.body.value.expiresAt == env.expirationOf(r.result.body.value.accessToken)
      && r.state.refresh.Keys == s.refresh.Keys + {token}
      && r.state.refresh[token] == RefreshRecord(token, cred.email, env.refreshExpiry)
      && (forall t :: t in s.refresh && t != token ==> r.state.refresh[t] == s.refresh[t])
      && r.state.users == s.users
      && |r.state.cookies| == |s.cookies| + 1
      && r.state.cookies[..|s.cookies|] == s.cookies
      && IsRefreshCookie(r.state.cookies[|s.cookies|])
      && r.state.cookies[|s.cookies|].value == token
    ensures r.result.status != OK ==> r.result.body.None? && r.state == s
  {
    if cred.email !in s.users then
      Outcome(s, Response(SERVER_ERROR, None))
    else
      var info := s.users[cred.email];
      if env.matches(cred.password, info.passwordHash) then
        var responseToken := Issue(env, cred.email, info.authorities);
        var record := RefreshRecord(token, cred.email, env.refreshExpiry);
        var s' := s.(refresh := s.refresh[token := record], cookies := s.cookies + [RefreshCookie(token)]);
        Outcome(s', Response(OK, Some(responseToken)))
      else
        Outcome(s, Response(UNAUTHORIZED, None))
  }

  /** logout: delete the presented token's record if there is one; always redirect to the login page. */
  function LogoutStep(s: State, cookie: Option<string>): (r: Outcome<string>)
    ensures r.result == LoginRedirect
    ensures r.state.users == s.users && r.state.cookies == s.cookies
    ensures cookie.Some? ==> r.state.refresh.Keys == s.refresh.Keys - {cookie.value}
    ensures cookie.None? ==> r.state.refresh == s.refresh
    ensures forall t :: t in r.state.refresh ==> r.state.refresh[t] == s.refresh[t]
  {
    match FindByToken(s.refresh, cookie)
    case Some(_) => Outcome(s.(refresh := s.refresh - {cookie.value}), LoginRedirect)
    case None => Outcome(s, LoginRedirect)
  }

  /**
   * refreshToken: reissue an access token for a presented, stored, usable
   * refresh token; UNAUTHORIZED otherwise. It has no state to return: the
   * store is not touched and no cookie is set, so the refresh token is not rotated.
   */
  function RefreshToken(s: State, env: Env, cookie: Option<string>): (r: Response)
    ensures r.status == UNAUTHORIZED <==> !Usable(s.refresh, env, cookie)
    ensures r.status == OK ==>
      && cookie.Some? && cookie.value in s.refresh
      && s.refresh[cookie.value].email in s.users
      && r.body.Some?
      && r.body.value.accessToken ==
           env.mint(s.refresh[cookie.value].email, s.users[s.refresh[cookie.value].email].authorities)
      && r.body.value.expiresAt == env.expirationOf(r.body.value.accessToken)
    ensures r.status == SERVER_ERROR ==>
      cookie.Some? && cookie.value in s.refresh && s.refresh[cookie.value].email !in s.users
    ensures r.status != OK ==> r.body.None?
    ensures r.status != BAD_REQUEST
  {
    match FindByToken(s.refresh, cookie)
    case Some(record) =>
      if env.verifyExpiration(record) then
        if record.email in s.users then
          Response(OK, Some(Issue(env, record.email, s.users[record.email].authorities)))
        else
          Response(SERVER_ERROR, None)
      else
        Response(UNAUTHORIZED, None)
    case None => Response(UNAUTHORIZED, None)
  }

  // ---------------------------------------------------------------------------
  // Properties relating several calls

  /**
   * With a freshly generated token string, a successful login adds exactly
   * one record, and every record present before is still present afterwards.
   */
  lemma LoginAddsExactlyOneRecord(s: State, env: Env, cred: Credentials, token: string)
    requires token !in s.refresh
    ensures var r := LoginStep(s, env, cred, token);
      && (forall t :: t in s.refresh ==> t in r.state.refresh && r.state.refresh[t] == s.refresh[t])
      && (r.result.status == OK ==> |r.state.refresh| == |s.refresh| + 1)
      && (r.result.status != OK ==> |r.state.refresh| == |s.refresh|)
  {
  }

  /**
   * findByToken after a successful login: the issued string finds the new
   * record; any other string finds what it found before.
   */
  lemma LoginThenFind(s: State, env: Env, cred: Credentials, token: string, other: string)
    requires LoginStep(s, env, cred, token).result.status == OK
    requires other != token
    ensures var s' := LoginStep(s, env, cred, token).state;
      && FindByToken(s'.refresh, Some(token)) == Some(RefreshRecord(token, cred.email, env.refreshExpiry))
      && FindByToken(s'.refresh, Some(other)) == FindByToken(s.refresh, Some(other))
      && FindByToken(s'.refresh, None) == None
  {
  }

  /** A second logout with the same cookie answers the same and changes nothing more. */
  lemma LogoutIdempotent(s: State, cookie: Option<string>)
    ensures var once := LogoutStep(s, cookie);
      LogoutStep(once.state, cookie) == once
  {
  }

  /** After logout the presented token neither redirects away from the login page nor refreshes. */
  lemma LogoutRevokes(s: State, env: Env, cookie: Option<string>)
    ensures var s' := LogoutStep(s, cookie).state;
      && ShowLoginForm(s'.refresh, env, cookie) == LoginView
      && RefreshToken(s', env, cookie) == Response(UNAUTHORIZED, None)
  {
  }
}
