/** The main layout: path to menu key, the role-gated menu, menu navigation, logout and the "me" query's effects. */
module MainLayout {
  import opened Wrappers
  import opened Text
  import opened AuthTypes
  import opened AuthHelpers
  import opened AuthSlice
  import opened BaseApi
  import opened AuthApi
  import opened LoginPage

  /** `normalizePathToKey`: "/" and "" are the dashboard; otherwise the first '/' is dropped. */
  function NormalizePathToKey(pathname: string): string {
    if pathname == "/" || pathname == "" then "dashboard" else RemoveFirst(pathname, '/')
  }

  /** The key of the current location: `normalizePathToKey(location.pathname || "/")`. */
  function CurrentKey(pathname: string): string {
    NormalizePathToKey(if pathname != "" then pathname else "/")
  }

  /** Only the first '/' goes: "/" followed by any non-empty text gives back that text, slashes and all. */
  lemma NormalizeDropsLeadingSlash(rest: string)
    requires rest != ""
    ensures NormalizePathToKey("/" + rest) == rest
  {
    var p := "/" + rest;
    assert IndexOf(p, '/') == Some(0);
    assert p[..0] + p[1..] == rest;
  }

  /** The keys of `menuItems`. */
  datatype MenuKey = Dashboard | Vacancies | Users | Companies | Events | Profile | Logout

  function KeyName(k: MenuKey): string {
    match k
    case Dashboard => "dashboard"
    case Vacancies => "vacancies"
    case Users => "users"
    case Companies => "companies"
    case Events => "events"
    case Profile => "profile"
    case Logout => "logout"
  }

  /** Where `handleMenuClick` navigates for a key other than "logout". */
  function MenuTarget(key: string): string {
    if key == "dashboard" then "/" else "/" + key
  }

  /** Round trip: the key of the path a menu click navigates to is the key clicked. */
  lemma MenuRoundTrip(key: string)
    requires key != ""
    ensures NormalizePathToKey(MenuTarget(key)) == key
    ensures CurrentKey(MenuTarget(key)) == key
  {
    if key != "dashboard" {
      NormalizeDropsLeadingSlash(key);
    }
  }

  /** `user?.role ?? "user"` */
  function UserRole(user: Option<UserDto>): Role {
    match user
    case None => User
    case Some(u) => u.role
  }

  predicate CanSeeUsers(role: Role) {
    role == Admin || role == CompanyManager
  }

  predicate CanSeeCompanies(role: Role) {
    role == Admin
  }

  /** The items every role sees before and after the role-gated ones. */
  const CommonHead: seq<MenuKey> := [Dashboard, Vacancies]
  const CommonTail: seq<MenuKey> := [Events, Profile, Logout]

  /** The role-gated items the role sees. */
  function RoleKeys(role: Role): seq<MenuKey> {
    (if CanSeeUsers(role) then [Users] else []) + (if CanSeeCompanies(role) then [Companies] else [])
  }

  /** The keys of `menuItems`, in order (the divider has no key). */
  function MenuKeys(role: Role): seq<MenuKey> {
    CommonHead + RoleKeys(role) + CommonTail
  }

  /** The items only some roles see. */
  predicate Gated(k: MenuKey) {
    k == Users || k == Companies
  }

  /** The keys with the role-gated ones taken out. */
  function Ungated(keys: seq<MenuKey>): seq<MenuKey> {
    if keys == [] then []
    else (if Gated(keys[0]) then [] else [keys[0]]) + Ungated(keys[1..])
  }

  lemma {:induction false} UngatedAppend(a: seq<MenuKey>, b: seq<MenuKey>)
    ensures Ungated(a + b) == Ungated(a) + Ungated(b)
    decreases |a|
  {
    if a == [] {
      assert a + b == b;
    } else {
      assert (a + b)[1..] == a[1..] + b;
      UngatedAppend(a[1..], b);
    }
  }

  /** "users" is offered iff the role is admin or company manager, "companies" iff it is admin. */
  lemma MenuGates(role: Role)
    ensures Users in MenuKeys(role) <==> role == Admin || role == CompanyManager
    ensures Companies in MenuKeys(role) <==> role == Admin
  {
    var keys := MenuKeys(role);
    if role == Admin {
      assert keys[2] == Users && keys[3] == Companies;
    } else if role == CompanyManager {
      assert keys[2] == Users;
    }
  }

  /**
   * The menu of the stored user: the user's own role decides the gated items,
   * and with no user the role defaults to "user", who sees neither.
   */
  lemma MenuForUser(user: Option<UserDto>)
    ensures user.Some? ==> UserRole(user) == user.value.role
    ensures user.None? ==> MenuKeys(UserRole(user)) == MenuKeys(User) == CommonHead + CommonTail
    ensures Users in MenuKeys(UserRole(user)) <==>
      user.Some? && (user.value.role == Admin || user.value.role == CompanyManager)
    ensures Companies in MenuKeys(UserRole(user)) <==> user.Some? && user.value.role == Admin
  {
    MenuGates(UserRole(user));
  }

  /** The filter leaves a list of ungated keys as it is. */
  lemma {:induction false} UngatedKeeps(keys: seq<MenuKey>)
    requires forall i :: 0 <= i < |keys| ==> !Gated(keys[i])
    ensures Ungated(keys) == keys
    decreases |keys|
  {
    if keys != [] {
      assert keys == [keys[0]] + keys[1..];
      UngatedKeeps(keys[1..]);
    }
  }

  /** The filter removes a list of gated keys altogether. */
  lemma {:induction false} UngatedDrops(keys: seq<MenuKey>)
    requires forall i :: 0 <= i < |keys| ==> Gated(keys[i])
    ensures Ungated(keys) == []
    decreases |keys|
  {
    if keys != [] {
      UngatedDrops(keys[1..]);
    }
  }

  /**
   * Whatever the role, the other items are all there, in the same order: the
   * menu without its role-gated items is a plain user's menu, which has none.
   */
  lemma MenuFrame(role: Role)
    ensures Ungated(MenuKeys(role)) == MenuKeys(User)
  {
    UngatedMenu(role);
    UngatedDrops(RoleKeys(role));
    UngatedKeeps(CommonHead);
    UngatedKeeps(CommonTail);
    assert RoleKeys(User) == [];
    assert MenuKeys(User) == CommonHead + CommonTail;
  }

  lemma UngatedMenu(role: Role)
    ensures Ungated(MenuKeys(role)) == Ungated(CommonHead) + Ungated(RoleKeys(role)) + Ungated(CommonTail)
  {
    UngatedAppend(CommonHead + RoleKeys(role), CommonTail);
    UngatedAppend(CommonHead, RoleKeys(role));
  }

  /** "logout" is the last item, and a click on any other item comes back to its key. */
  lemma MenuEnds(role: Role)
    ensures MenuKeys(role)[|MenuKeys(role)| - 1] == Logout
    ensures forall k :: k in MenuKeys(role) && k != Logout ==> NormalizePathToKey(MenuTarget(KeyName(k))) == KeyName(k)
  {
    forall k | k in MenuKeys(role) && k != Logout ensures NormalizePathToKey(MenuTarget(KeyName(k))) == KeyName(k) {
      MenuRoundTrip(KeyName(k));
    }
  }

  /**
   * The user the "me" query reports, with `company` cut down to `{id, name}`;
   * None when there is no data.
   */
  function NormalizeMeUser(me: Option<MeResponseData>): (r: Option<UserDto>)
    ensures r.Some? <==> me.Some?
    ensures r.Some? ==> r.value.(company := me.value.user.company) == me.value.user
    ensures r.Some? ==> (r.value.company.Some? <==> me.value.company.Some?)
    ensures r.Some? && me.value.company.Some? ==>
      r.value.company.value == CompanyRef(me.value.company.value.id, me.value.company.value.name)
  {
    match me
    case None => None
    case Some(data) =>
      var company := match data.company case None => None case Some(c) => Some(CompanyRef(c.id, c.name));
      Some(data.user.(company := company))
  }

  /** The layout's own UI state, next to the store it dispatches to. */
  class MainLayoutView {
    var drawerOpen: bool
    const store: AuthStore

    constructor (store: AuthStore)
      requires store.Valid()
      ensures this.store == store && !drawerOpen
    {
      this.store := store;
      drawerOpen := false;
    }

    /**
     * `handleLogout`: the server logout (its request carries the fingerprint),
     * whose handler logs out locally, then `localLogout` again in `finally` and a
     * replacing navigation to "/login", whatever the server said.
     */
    method HandleLogout(uuid: string, serverOutcome: Result<()>) returns (request: FetchArgs<LogoutBody, ()>, navigation: Navigation)
      requires store.Valid() && uuid != ""
      modifies store, store.browser
      ensures store.Valid() && store.State() == Reduce(old(store.State()), LocalLogout)
      ensures store.browser.jar == if store.browser.hasDocument then RemoveFromJar(old(store.browser.jar), AccessTokenKey) else old(store.browser.jar)
      ensures store.browser.storage == if store.browser.hasWindow then FingerprintStep(old(store.browser.storage), uuid).1 else old(store.browser.storage)
      ensures request == FetchArgs("/auth/logout", Patch, Some(LogoutBody(FingerprintOf(store.browser.hasWindow, old(store.browser.storage), uuid))), None)
      ensures navigation == Navigation("/login", true)
    {
      ghost var state0 := store.State();
      ghost var jar0 := store.browser.jar;
      request := LogoutQuery(store.browser, uuid);
      OnLogoutStarted(store, serverOutcome);
      store.LocalLogout();
      LogoutIdempotent(state0, jar0);
      navigation := Navigation("/login", true);
    }

    /**
     * `handleMenuClick`: "logout" logs out (the drawer is left as it is); any
     * other key navigates to its path and, on a phone, closes the drawer.
     */
    method HandleMenuClick(key: MenuKey, isMobile: bool, uuid: string, serverOutcome: Result<()>) returns (navigation: Navigation)
      requires store.Valid() && uuid != ""
      modifies this, store, store.browser
      ensures store.Valid()
      ensures key == Logout ==>
        navigation == Navigation("/login", true) && drawerOpen == old(drawerOpen)
        && store.State() == Reduce(old(store.State()), LocalLogout)
        && store.browser.jar == (if store.browser.hasDocument then RemoveFromJar(old(store.browser.jar), AccessTokenKey) else old(store.browser.jar))
        && store.browser.storage == (if store.browser.hasWindow then FingerprintStep(old(store.browser.storage), uuid).1 else old(store.browser.storage))
      ensures key != Logout ==>
        navigation == Navigation(MenuTarget(KeyName(key)), false) && drawerOpen == (old(drawerOpen) && !isMobile)
        && store.State() == old(store.State()) && store.browser.jar == old(store.browser.jar)
        && store.browser.storage == old(store.browser.storage)
    {
      if key == Logout {
        var _, nav := HandleLogout(uuid, serverOutcome);
        navigation := nav;
        return;
      }
      navigation := Navigation(MenuTarget(KeyName(key)), false);
      if isMobile {
        drawerOpen := false;
      }
    }

    /** The effect on a failed "me" query: log out and go to "/login", replacing the entry. */
    method OnMeError() returns (navigation: Navigation)
      requires store.Valid()
      modifies store, store.browser
      ensures store.Valid() && store.State() == Reduce(old(store.State()), LocalLogout)
      ensures store.browser.jar == if store.browser.hasDocument then RemoveFromJar(old(store.browser.jar), AccessTokenKey) else old(store.browser.jar)
      ensures store.browser.storage == old(store.browser.storage)
      ensures navigation == Navigation("/login", true)
    {
      store.LocalLogout();
      navigation := Navigation("/login", true);
    }
  }
}
