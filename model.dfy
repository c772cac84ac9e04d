/**
 * The values the user controller handles: requests, stored records, cookies,
 * responses, the two stores, and the collaborators whose code is not part of
 * this model.
 */
module Model {
  import opened Wrappers

  /** Name of the cookie that carries the refresh token. */
  const RefreshCookieName: string := "refreshToken"
  /** Path attribute of the refresh-token cookie. */
  const RootPath: string := "/"

  /** View names the handlers resolve to. */
  const LoginView: string := "login"
  const ChatRoomListRedirect: string := "redirect:/chatRoomList"
  const LoginRedirect: string := "redirect:/login"

  /**
   * HTTP statuses the handlers answer with. SERVER_ERROR stands for the
   * exception that `loadUserByUsername` raises for an email with no user.
   */
  datatype HttpStatus = OK | BAD_REQUEST | UNAUTHORIZED | SERVER_ERROR

  /** The signup payload. */
  datatype User = User(email: string, password: string)

  /** The login payload: email and plain password. */
  datatype Credentials = Credentials(email: string, password: string)

  /** What the user store keeps for one email: the password hash and the authorities. */
  datatype Account = Account(passwordHash: string, authorities: set<string>)

  /** A stored refresh token: its opaque string, the email it was issued to, its expiry. */
  datatype RefreshRecord = RefreshRecord(token: string, email: string, expiresAt: int)

  /** A cookie as the response emits it. */
  datatype Cookie = Cookie(name: string, value: string, secure: bool, httpOnly: bool, path: string)

  /** The response body of a successful login or refresh: access token and its expiry. */
  datatype ResponseToken = ResponseToken(accessToken: string, expiresAt: int)

  /** A status with an optional body (`null` in the Java code is `None`). */
  datatype Response = Response(status: HttpStatus, body: Option<ResponseToken>)

  /**
   * Everything the controller's handlers read or change: the refresh-token
   * store (token string to record), the user store (email to account) and the
   * cookies emitted so far, oldest first.
   */
  datatype State = State(
    refresh: map<string, RefreshRecord>,
    users: map<string, Account>,
    cookies: seq<Cookie>)

  /**
   * The collaborators, as they answer during one request (so a clock they
   * consult is fixed for that request):
   *  - accountOf: what the user service saves for a signup payload (hash, authorities);
   *  - matches(plain, hash): the password encoder's comparison;
   *  - mint(email, authorities): the access token the JWT provider creates;
   *  - expirationOf(token): the expiry the JWT provider reads back from a token;
   *  - refreshExpiry: the expiry a refresh record created now is given;
   *  - verifyExpiration(record): true when the record is still usable.
   */
  datatype Env = Env(
    accountOf: User -> Account,
    matches: (string, string) -> bool,
    mint: (string, set<string>) -> string,
    expirationOf: string -> int,
    refreshExpiry: int,
    verifyExpiration: RefreshRecord -> bool)

  /** The state after a handler together with what the handler returned. */
  datatype Outcome<R> = Outcome(state: State, result: R)

  /** The cookie a successful login sets: Secure, HttpOnly, Path=/. */
  function RefreshCookie(token: string): Cookie {
    Cookie(RefreshCookieName, token, true, true, RootPath)
  }

  /** A cookie of the shape the controller emits. */
  predicate IsRefreshCookie(c: Cookie) {
    c.name == RefreshCookieName && c.secure && c.httpOnly && c.path == RootPath
  }
}
