/**
 * The application shell: the saved theme, its persistence and toggle, the
 * interface language, and which guard wraps which page.
 */
module App {
  import opened Wrappers
  import opened Text
  import opened AuthHelpers
  import opened AuthSlice
  import opened AuthApi
  import opened Selectors
  import opened Routes
  import opened LoginPage

  datatype ThemeMode = Light | Dark

  function ThemeName(m: ThemeMode): string {
    match m
    case Light => "light"
    case Dark => "dark"
  }

  /** The localStorage key the theme is saved under. */
  const ThemeKey := "themeMode"

  /** A saved "dark" or "light" is kept; anything else, or nothing, is light. */
  function ParseTheme(saved: Option<string>): (r: ThemeMode)
    ensures r == Dark <==> saved == Some("dark")
  {
    if saved == Some("dark") then Dark
    else if saved == Some("light") then Light
    else Light
  }

  /** The theme state's initial value: light without a window, else the saved theme. */
  function InitialTheme(hasWindow: bool, storage: map<string, string>): (r: ThemeMode)
    ensures !hasWindow ==> r == Light
    ensures r == Dark <==> hasWindow && ThemeKey in storage && storage[ThemeKey] == "dark"
  {
    if !hasWindow then Light
    else ParseTheme(if ThemeKey in storage then Some(storage[ThemeKey]) else None)
  }

  /** Every mode survives being written out and read back. */
  lemma ThemeRoundTrip(m: ThemeMode)
    ensures ParseTheme(Some(ThemeName(m))) == m
  {
  }

  /** After the theme is persisted, a fresh start in a window comes back with the same theme. */
  lemma ThemeSurvivesReload(storage: map<string, string>, m: ThemeMode)
    ensures InitialTheme(true, storage[ThemeKey := ThemeName(m)]) == m
  {
    ThemeRoundTrip(m);
  }

  predicate IsDark(m: ThemeMode) {
    m == Dark
  }

  /** `handleToggleTheme`: checked is dark, unchecked is light. */
  function ToggleTarget(checked: bool): (r: ThemeMode)
    ensures IsDark(r) <==> checked
  {
    if checked then Dark else Light
  }

  /** `currentLanguage`: "ru" or "hy" by prefix, "en" for everything else. */
  function CurrentLanguage(language: string): (r: string)
    ensures r == "ru" || r == "hy" || r == "en"
    ensures r == "ru" <==> StartsWith(language, "ru")
    ensures r == "hy" <==> !StartsWith(language, "ru") && StartsWith(language, "hy")
  {
    if StartsWith(language, "ru") then "ru"
    else if StartsWith(language, "hy") then "hy"
    else "en"
  }

  /** Every language the switcher shows is its own normal form. */
  lemma CurrentLanguageFixedPoint(language: string)
    ensures CurrentLanguage(CurrentLanguage(language)) == CurrentLanguage(language)
  {
    var r := CurrentLanguage(language);
    if r == "en" {
      assert !StartsWith(r, "ru") by { assert r[..2] != "ru"; }
      assert !StartsWith(r, "hy") by { assert r[..2] != "hy"; }
    }
  }

  /** The two pages the routes render. */
  datatype Page = LoginScreen | MainScreen

  /** The route table: "/login" under the public-only guard, every other path under the protected one. */
  function AppRoute(location: Location, s: AuthState, cookie: Option<string>): View<Page> {
    if location.pathname == "/login" then PublicOnlyRoute(s, cookie, LoginScreen)
    else ProtectedRoute(s, cookie, location, MainScreen)
  }

  /** The login page is shown exactly on "/login" to a visitor without a session, the layout exactly elsewhere to one with it. */
  lemma AppRouteShows(location: Location, s: AuthState, cookie: Option<string>)
    ensures AppRoute(location, s, cookie) == Children(LoginScreen) <==>
      location.pathname == "/login" && !IsAuthenticated(s, cookie)
    ensures AppRoute(location, s, cookie) == Children(MainScreen) <==>
      location.pathname != "/login" && IsAuthenticated(s, cookie)
  {
  }

  /**
   * The whole detour: a visitor without a session is sent to "/login", which
   * shows the login page; after a login the page's redirect target shows the
   * layout again.
   */
  lemma LoginDetour(location: Location, s: AuthState, cookie: Option<string>, data: LoginResponseData, cookie': Option<string>)
    requires !IsAuthenticated(s, cookie) && location.pathname != "/login" && data.accessToken != ""
    ensures var v := AppRoute(location, s, cookie);
      v == Navigate("/login", true, Some(NavState(Some(location))))
      && AppRoute(Location(v.to, "", ""), s, cookie) == Children(LoginScreen)
      && AppRoute(Location(RedirectTarget(v.state), "", ""), SessionAfterLogin(s, Ok(data)), cookie') == Children(MainScreen)
  {
  }

  /** The shell's theme state and the document attribute it mirrors. */
  class AppShell {
    var themeMode: ThemeMode
    var dataTheme: string
    const browser: Browser

    /** Mounting: the initial theme, then the effect persists it. */
    constructor (browser: Browser)
      requires browser.Valid()
      modifies browser
      ensures this.browser == browser && browser.Valid()
      ensures themeMode == InitialTheme(browser.hasWindow, old(browser.storage)) && dataTheme == ThemeName(themeMode)
      ensures browser.jar == old(browser.jar)
      ensures browser.storage == if browser.hasWindow then old(browser.storage)[ThemeKey := ThemeName(themeMode)] else old(browser.storage)
    {
      this.browser := browser;
      themeMode := InitialTheme(browser.hasWindow, browser.storage);
      dataTheme := ThemeName(InitialTheme(browser.hasWindow, browser.storage));
      new;
      if browser.hasWindow {
        browser.storage := browser.storage[ThemeKey := ThemeName(themeMode)];
      }
    }

    /** The effect on every theme change: save it when there is a window, and set `data-theme`. */
    method PersistTheme()
      requires browser.Valid()
      modifies this, browser
      ensures browser.Valid() && browser.jar == old(browser.jar) && themeMode == old(themeMode)
      ensures browser.storage == if browser.hasWindow then old(browser.storage)[ThemeKey := ThemeName(themeMode)] else old(browser.storage)
      ensures dataTheme == ThemeName(themeMode)
    {
      if browser.hasWindow {
        browser.storage := browser.storage[ThemeKey := ThemeName(themeMode)];
      }
      dataTheme := ThemeName(themeMode);
    }

    /** `handleToggleTheme` and the effect it triggers: a reload in a window comes back with the chosen mode. */
    method ToggleTheme(checked: bool)
      requires browser.Valid()
      modifies this, browser
      ensures browser.Valid() && browser.jar == old(browser.jar)
      ensures themeMode == ToggleTarget(checked) && dataTheme == ThemeName(themeMode)
      ensures browser.storage == if browser.hasWindow then old(browser.storage)[ThemeKey := ThemeName(themeMode)] else old(browser.storage)
      ensures browser.hasWindow ==> InitialTheme(true, browser.storage) == themeMode
    {
      themeMode := ToggleTarget(checked);
      PersistTheme();
      ThemeSurvivesReload(old(browser.storage), themeMode);
    }
  }
}
