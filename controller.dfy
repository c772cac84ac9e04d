/**
 * The user controller as an object owning the refresh-token store, the user
 * store and the cookies it has emitted. Its three state-changing handlers are
 * methods proved against the step functions of module Handlers; the two that
 * only read are the functions ShowLoginForm and RefreshToken applied to Model().
 */
module Controller {
  import opened Wrappers
  import opened Model
  import opened Handlers
  import opened Traces

  class UserController {
    var refreshStore: map<string, RefreshRecord>
    var users: map<string, Account>
    var cookies: seq<Cookie>

    /** The invariant every handler keeps: see Traces.Consistent. */
    ghost predicate Valid()
      reads this
    {
      Consistent(Model())
    }

    /** The controller's state as a value. */
    function Model(): State
      reads this
    {
      State(refreshStore, users, cookies)
    }

    /** A controller over an existing user store, with no refresh record and no cookie yet. */
    constructor (registered: map<string, Account>)
      ensures Model() == Initial(registered)
      ensures Valid()
    {
      refreshStore := map[];
      users := registered;
      cookies := [];
    }

    method Signup(env: Env, user: User) returns (status: HttpStatus)
      requires Valid()
      modifies this
      ensures Outcome(Model(), status) == SignupStep(old(Model()), env, user)
      ensures status == BAD_REQUEST <==> user.email in old(users)
      ensures status == BAD_REQUEST ==> users == old(users)
      ensures refreshStore == old(refreshStore) && cookies == old(cookies)
      ensures Valid()
    {
      if user.email in users {
        return BAD_REQUEST;
      }
      users := users[user.email := env.accountOf(user)];
      status := OK;
    }

    /** `token` is the string the refresh-token service generated for this login. */
    method Login(env: Env, cred: Credentials, token: string) returns (response: Response)
      requires Valid()
      modifies this
      ensures Outcome(Model(), response) == LoginStep(old(Model()), env, cred, token)
      ensures response.status != OK ==>
        response.body.None? && refreshStore == old(refreshStore) && cookies == old(cookies)
      ensures token !in old(refreshStore) ==>
        forall t :: t in old(refreshStore) ==> t in refreshStore && refreshStore[t] == old(refreshStore)[t]
      ensures users == old(users)
      ensures Valid()
    {
      if cred.email !in users {
        response := Response(SERVER_ERROR, None);
        return;
      }
      var info := users[cred.email];
      if env.matches(cred.password, info.passwordHash) {
        var accessToken := env.mint(cred.email, info.authorities);
        var expiration := env.expirationOf(accessToken);
        refreshStore := refreshStore[token := RefreshRecord(token, cred.email, env.refreshExpiry)];
        cookies := cookies + [RefreshCookie(token)];
        response := Response(OK, Some(ResponseToken(accessToken, expiration)));
      } else {
        response := Response(UNAUTHORIZED, None);
      }
    }

    method Logout(cookie: Option<string>) returns (view: string)
      requires Valid()
      modifies this
      ensures Outcome(Model(), view) == LogoutStep(old(Model()), cookie)
      ensures view == LoginRedirect
      ensures users == old(users) && cookies == old(cookies)
      ensures forall t :: t in old(refreshStore) && Some(t) != cookie ==>
        t in refreshStore && refreshStore[t] == old(refreshStore)[t]
      ensures cookie.Some? ==> cookie.value !in refreshStore
      ensures Valid()
    {
      if FindByToken(refreshStore, cookie).Some? {
        refreshStore := refreshStore - {cookie.value};
      }
      view := LoginRedirect;
    }
  }
}
