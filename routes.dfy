/** The two route guards: decisions over the session predicate alone. */
module Routes {
  import opened Wrappers
  import opened AuthSlice
  import opened Selectors

  /** A router location. */
  datatype Location = Location(pathname: string, search: string, hash: string)

  /** The navigation state a redirect carries: `{ from: location }`, where `from` may be missing. */
  datatype NavState = NavState(from: Option<Location>)

  /** What a guard renders: its children, or a `<Navigate>` element. */
  datatype View<T> = Children(element: T) | Navigate(to: string, replace: bool, state: Option<NavState>)

  /** `ProtectedRoute`: the children for an authenticated user, else a replacing redirect to "/login" that remembers `location`. */
  function ProtectedRoute<T>(s: AuthState, cookie: Option<string>, location: Location, children: T): View<T> {
    if !IsAuthenticated(s, cookie) then Navigate("/login", true, Some(NavState(Some(location))))
    else Children(children)
  }

  /** `PublicOnlyRoute`: a replacing redirect to "/" for an authenticated user, else the children. */
  function PublicOnlyRoute<T>(s: AuthState, cookie: Option<string>, children: T): View<T> {
    if IsAuthenticated(s, cookie) then Navigate("/", true, None)
    else Children(children)
  }

  /** The protected guard renders its children unchanged iff the user is authenticated, and otherwise sends them to "/login", remembering where they were. */
  lemma ProtectedRouteDecision<T>(s: AuthState, cookie: Option<string>, location: Location, children: T)
    ensures ProtectedRoute(s, cookie, location, children) == Children(children) <==> IsAuthenticated(s, cookie)
    ensures !IsAuthenticated(s, cookie) ==>
      ProtectedRoute(s, cookie, location, children) == Navigate("/login", true, Some(NavState(Some(location))))
  {
  }

  /** The public-only guard renders its children iff the user is not authenticated, and otherwise goes to "/" with no state. */
  lemma PublicOnlyRouteDecision<T>(s: AuthState, cookie: Option<string>, children: T)
    ensures PublicOnlyRoute(s, cookie, children) == Children(children) <==> !IsAuthenticated(s, cookie)
    ensures IsAuthenticated(s, cookie) ==> PublicOnlyRoute(s, cookie, children) == Navigate("/", true, None)
  {
  }

  /** For any session and cookie exactly one of the two guards renders its children. */
  lemma GuardsAreComplementary<T>(s: AuthState, cookie: Option<string>, location: Location, a: T, b: T)
    ensures ProtectedRoute(s, cookie, location, a).Children? != PublicOnlyRoute(s, cookie, b).Children?
  {
  }

  /** The guards look at nothing but the session predicate. */
  lemma GuardsDependOnlyOnPredicate<T>(s: AuthState, cookie: Option<string>, s': AuthState, cookie': Option<string>, location: Location, children: T)
    requires IsAuthenticated(s, cookie) == IsAuthenticated(s', cookie')
    ensures ProtectedRoute(s, cookie, location, children) == ProtectedRoute(s', cookie', location, children)
    ensures PublicOnlyRoute(s, cookie, children) == PublicOnlyRoute(s', cookie', children)
  {
  }
}
