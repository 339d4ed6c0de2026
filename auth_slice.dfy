/**
 * The authentication store (src/features/auth/authSlice.js): the signed-in
 * user, the token and a loading flag. The initial values come from the
 * cookies, which are constructor arguments here.
 */
module AuthSlice {
  import opened Wrappers

  /** The user object the server returns at login, carried as is. */
  datatype AuthUser = AuthUser(id: string, firstName: string, profilePic: string)

  /** `setUser`'s payload. */
  datatype Credentials = Credentials(user: Option<AuthUser>, token: Option<string>)

  /** `Cookies.get('authToken') || null`: a missing or empty cookie is no token. */
  function TokenFromCookie(cookie: Option<string>): (token: Option<string>)
    ensures token.None? <==> cookie.None? || cookie == Some("")
    ensures token.Some? ==> token == cookie
  {
    if cookie == Some("") then None else cookie
  }

  class AuthStore {
    var user: Option<AuthUser>
    var token: Option<string>
    var loading: bool

    /** The initial state, from the stored user (already parsed) and the stored token. */
    constructor (storedUser: Option<AuthUser>, storedToken: Option<string>)
      ensures user == storedUser && token == TokenFromCookie(storedToken) && !loading
    {
      user := storedUser;
      token := TokenFromCookie(storedToken);
      loading := false;
    }

    method SetUser(payload: Credentials)
      modifies this
      ensures user == payload.user && token == payload.token
      ensures loading == old(loading)
    {
      user := payload.user;
      token := payload.token;
    }

    /** Signs out from any prior state. */
    method Logout()
      modifies this
      ensures user == None && token == None
      ensures loading == old(loading)
    {
      user := None;
      token := None;
    }
  }

  /** A second logout changes nothing: the reducer is idempotent. */
  method LogoutTwice(store: AuthStore)
    modifies store
    ensures store.user == None && store.token == None && store.loading == old(store.loading)
  {
    store.Logout();
    var user, token, loading := store.user, store.token, store.loading;
    store.Logout();
    assert store.user == user && store.token == token && store.loading == loading;
  }
}
