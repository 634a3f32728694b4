/** `selectIsAuthenticated`: a store token, or else the access-token cookie, that is a non-empty string. */
module Selectors {
  import opened Wrappers
  import opened Text
  import opened AuthTypes
  import opened AuthHelpers
  import opened AuthSlice

  /** `Boolean(state.auth.accessToken || getAccessTokenFromCookie())`; `cookie` is what the cookie read gives. */
  predicate IsAuthenticated(s: AuthState, cookie: Option<string>) {
    TruthyOpt(OrElse(s.accessToken, cookie))
  }

  /** The predicate on a live store, reading its browser's cookie jar. */
  predicate StoreIsAuthenticated(store: AuthStore)
    reads store, store.browser
    requires store.Valid()
  {
    IsAuthenticated(store.State(), store.browser.AccessTokenCookie())
  }

  /** A non-empty store token decides; otherwise the cookie must be present and non-empty. */
  lemma IsAuthenticatedCases(s: AuthState, cookie: Option<string>)
    ensures TruthyOpt(s.accessToken) ==> IsAuthenticated(s, cookie)
    ensures !TruthyOpt(s.accessToken) ==> (IsAuthenticated(s, cookie) <==> cookie.Some? && cookie.value != "")
  {
  }

  /** An empty store token counts as no token. */
  lemma EmptyTokenIsAbsent(user: Option<UserDto>, status: AuthStatus, cookie: Option<string>)
    ensures IsAuthenticated(AuthState(Some(""), user, status), cookie) == IsAuthenticated(AuthState(None, user, status), cookie)
  {
  }

  /** After `setCredentials` with a non-empty token the user is authenticated, whatever the cookie holds. */
  lemma AuthenticatedAfterCredentials(s: AuthState, token: string, user: UserDto, cookie: Option<string>)
    requires token != ""
    ensures IsAuthenticated(Reduce(s, SetCredentials(token, user)), cookie)
  {
  }

  /**
   * After `localLogout` the user is not authenticated: the store token is gone
   * and the access cookie has been expired from the jar this client wrote (or
   * there is no document at all).
   */
  lemma {:induction false} NotAuthenticatedAfterLogout(s: AuthState, hasDocument: bool, jar: seq<Cookie>)
    requires WellFormedJar(jar) && DecodableJar(jar)
    ensures var jar' := RemoveFromJar(jar, AccessTokenKey);
      var document := if hasDocument then Some(CookieHeader(jar')) else None;
      !IsAuthenticated(Reduce(s, LocalLogout), CookieValue(document, AccessTokenKey))
  {
    if hasDocument {
      AccessCookieGone(jar);
    }
  }

  /** Once the access cookie is expired, `getCookie` as written finds nothing under its name. */
  lemma AccessCookieGone(jar: seq<Cookie>)
    requires WellFormedJar(jar) && DecodableJar(jar)
    ensures CookieValue(Some(CookieHeader(RemoveFromJar(jar, AccessTokenKey))), AccessTokenKey) == None
  {
    var jar' := RemoveFromJar(jar, AccessTokenKey);
    RemovePreservesWellFormed(jar, AccessTokenKey);
    AuthKeysAreNames();
    AsWrittenAgrees(Some(CookieHeader(jar')), AccessTokenKey);
    GetCookieOfJar(jar', AccessTokenKey);
    LookupRemoved(jar, AccessTokenKey, AccessTokenKey);
  }
}
