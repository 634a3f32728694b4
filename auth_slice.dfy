/**
 * The session slice of the store: `{accessToken, user, status}` and its four
 * reducers. `setAnonymous` and `localLogout` also expire the access-token cookie.
 */
module AuthSlice {
  import opened Wrappers
  import opened AuthTypes
  import opened AuthHelpers

  datatype AuthStatus = Idle | Checking | Authenticated | Anonymous

  datatype AuthState = AuthState(accessToken: Option<string>, user: Option<UserDto>, status: AuthStatus)

  /** `initialState`: nothing known yet. */
  const InitialState := AuthState(None, None, Idle)

  /** The reducers' actions, with the `setCredentials` payload. */
  datatype AuthAction = SetChecking | SetCredentials(accessToken: string, user: UserDto) | SetAnonymous | LocalLogout

  /**
   * The half of the status/credentials link the reducers keep: "authenticated"
   * carries a token and a user, "anonymous" carries neither.
   */
  predicate StatusInvariant(s: AuthState) {
    (s.status == Authenticated ==> s.accessToken.Some? && s.user.Some?)
    && (s.status == Anonymous ==> s.accessToken.None? && s.user.None?)
  }

  /** The state part of each reducer. */
  function Reduce(s: AuthState, a: AuthAction): (r: AuthState)
    ensures StatusInvariant(s) ==> StatusInvariant(r)
    ensures a.SetChecking? ==> r.accessToken == s.accessToken && r.user == s.user
  {
    match a
    case SetChecking => s.(status := Checking)
    case SetCredentials(token, user) => AuthState(Some(token), Some(user), Authenticated)
    case SetAnonymous => AuthState(None, None, Anonymous)
    case LocalLogout => AuthState(None, None, Anonymous)
  }

  /** Dispatching the actions one after the other. */
  function ReduceAll(s: AuthState, actions: seq<AuthAction>): AuthState
    decreases |actions|
  {
    if actions == [] then s else ReduceAll(Reduce(s, actions[0]), actions[1..])
  }

  lemma {:induction false} ReduceAllPreserves(s: AuthState, actions: seq<AuthAction>)
    requires StatusInvariant(s)
    ensures StatusInvariant(ReduceAll(s, actions))
    decreases |actions|
  {
    if actions != [] {
      ReduceAllPreserves(Reduce(s, actions[0]), actions[1..]);
    }
  }

  /** Every state the store can reach from `initialState` keeps the invariant. */
  lemma ReachableStatesKeepInvariant(actions: seq<AuthAction>)
    ensures StatusInvariant(ReduceAll(InitialState, actions))
  {
    ReduceAllPreserves(InitialState, actions);
  }

  /**
   * The converse does not hold: `setChecking` after `setCredentials` leaves the
   * token and the user in place under status "checking".
   */
  lemma CheckingKeepsCredentials(token: string, user: UserDto)
    ensures var s := ReduceAll(InitialState, [SetCredentials(token, user), SetChecking]);
      s.accessToken == Some(token) && s.user == Some(user) && s.status == Checking
  {
    var actions := [SetCredentials(token, user), SetChecking];
    var s1 := Reduce(InitialState, actions[0]);
    assert actions[1..] == [SetChecking] && actions[1..][1..] == [];
    assert ReduceAll(InitialState, actions) == ReduceAll(s1, [SetChecking]);
    assert ReduceAll(s1, [SetChecking]) == ReduceAll(Reduce(s1, SetChecking), []);
  }

  /** `setAnonymous` and `localLogout` have the same effect on the state. */
  lemma AnonymousIsLogout(s: AuthState)
    ensures Reduce(s, SetAnonymous) == Reduce(s, LocalLogout) == AuthState(None, None, Anonymous)
  {
  }

  /** `localLogout` twice is `localLogout` once, on the state and on the cookie jar. */
  lemma LogoutIdempotent(s: AuthState, jar: seq<Cookie>)
    ensures Reduce(Reduce(s, LocalLogout), LocalLogout) == Reduce(s, LocalLogout)
    ensures RemoveFromJar(RemoveFromJar(jar, AccessTokenKey), AccessTokenKey) == RemoveFromJar(jar, AccessTokenKey)
  {
    RemoveIdempotent(jar, AccessTokenKey);
  }

  /** The store's `auth` slice, updated in place by the reducers; `browser` holds the cookie jar. */
  class AuthStore {
    var accessToken: Option<string>
    var user: Option<UserDto>
    var status: AuthStatus
    const browser: Browser

    function State(): AuthState
      reads this
    {
      AuthState(accessToken, user, status)
    }

    ghost predicate Valid()
      reads this, browser
    {
      browser.Valid() && StatusInvariant(State())
    }

    constructor (browser: Browser)
      requires browser.Valid()
      ensures Valid() && State() == InitialState && this.browser == browser
    {
      this.browser := browser;
      accessToken := None;
      user := None;
      status := Idle;
    }

    method SetChecking()
      requires Valid()
      modifies this
      ensures Valid() && State() == Reduce(old(State()), AuthAction.SetChecking)
    {
      status := Checking;
    }

    method SetCredentials(token: string, user: UserDto)
      requires Valid()
      modifies this
      ensures Valid() && State() == Reduce(old(State()), AuthAction.SetCredentials(token, user))
    {
      accessToken := Some(token);
      this.user := Some(user);
      status := Authenticated;
    }

    method SetAnonymous()
      requires Valid()
      modifies this, browser
      ensures Valid() && State() == Reduce(old(State()), AuthAction.SetAnonymous)
      ensures browser.storage == old(browser.storage)
      ensures browser.jar == if browser.hasDocument then RemoveFromJar(old(browser.jar), AccessTokenKey) else old(browser.jar)
    {
      accessToken := None;
      user := None;
      status := Anonymous;
      browser.ClearAccessTokenCookie();
    }

    method LocalLogout()
      requires Valid()
      modifies this, browser
      ensures Valid() && State() == Reduce(old(State()), AuthAction.LocalLogout)
      ensures browser.storage == old(browser.storage)
      ensures browser.jar == if browser.hasDocument then RemoveFromJar(old(browser.jar), AccessTokenKey) else old(browser.jar)
    {
      accessToken := None;
      user := None;
      status := Anonymous;
      browser.ClearAccessTokenCookie();
    }
  }
}
