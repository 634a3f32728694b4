# decomplex-admin-panel: the session layer and the page helpers, in Dafny

This project models the browser-side core of the Decomplex admin panel, a React
and Redux Toolkit client for a recruiting backend. The model covers:

- **Browser persistence** (`AuthHelpers`).
  - `document.cookie` is an ordered cookie jar. Writing an existing name updates it in place, a new name is appended, and an expired write removes the entry.
  - `getCookie` is the regular expression it builds, written out as a parser over the `"; "`-joined cookie string.
  - The fingerprint lives in `localStorage`.
  - `encodeURIComponent` and `decodeURIComponent` are a UTF-8 percent codec (`UriCodec`) with a proved round trip.
- **The `auth` slice** (`AuthSlice`). The state is `{accessToken, user, status}`, with its four reducers as a class updated in place. `setAnonymous` and `localLogout` also expire the access cookie.
- **The session predicate and the route guards** (`Selectors`, `Routes`).
- **The request gateway** (`BaseApi`).
  - Header preparation.
  - The 401 handling of `baseQueryWithReauth`. All requests that meet a 401 share one pending refresh, and are then retried once or logged out. It is modelled as a reference state machine (`GatewayState`) and as a class over mutable fields (`Gateway`) that is proved to follow it.
- **The endpoints' request descriptors and side effects, and the cache tags** (`AuthApi`, `VacanciesApi`).
- **The pages.**
  - `LoginPage`: the payload, the redirect target and the error-message precedence.
  - `MainLayout`: path to menu key, role-gated menu, navigation, logout.
  - `VacanciesPage`: the salary label, the form checks and the trimmed create payload.
  - `UsersPage`: the register payload and the result text.
  - `App`: the persisted theme, the language code and the route table.
  - `Env`: the required environment settings.

One module stands for each source file. The shared records live in `AuthTypes` and `VacancyTypes`, `Option`/`Result` in `Wrappers`, and the JavaScript string operations the code uses (`trim`, `startsWith`, the first-occurrence `replace`, `${n}`) in `Text`.

The clock, the network, `crypto.randomUUID()`, `i18n.language` and `t()` are not modelled. Each becomes a parameter of the operation that uses it.

## Model

| member | source | states |
|---|---|---|
| Text.OrElse | src/features/auth/selectors.ts:5 | `a \|\| b` on optional strings: the result is truthy iff either operand is; it is `a` whenever `a` is truthy and `b` otherwise |
| Text.Trim | src/pages/VacanciesPage.tsx:52-54 | `trim()` gives an infix that neither starts nor ends with white space, and every dropped character is ECMAScript white space or a line terminator |
| Text.TrimEmptyIff | src/pages/UsersPage.tsx:28 | trimming gives "" iff every character is white space |
| Text.TrimIdempotent | src/pages/VacanciesPage.tsx:52-54 | trimming twice is trimming once |
| Text.RemoveFirst | src/layout/MainLayout.tsx:38 | `replace("/", "")` deletes only the first occurrence: the string is unchanged without one, otherwise it is one shorter, split around the leftmost occurrence |
| Text.NatToString | src/pages/VacanciesPage.tsx:82-83 | a non-negative number is printed as a non-empty run of decimal digits |
| Text.NatToStringValue | src/pages/VacanciesPage.tsx:82-83 | the digits printed for n denote n |
| Text.IntToString | src/pages/VacanciesPage.tsx:82-83 | `${n}` starts with '-' iff n is negative, and otherwise with a digit; every later character is a digit |
| Text.IntToStringRoundTrip | src/pages/VacanciesPage.tsx:82-83 | `${n}` read back as an optional '-' and decimal digits gives n |
| Text.IntToStringInjective | src/pages/VacanciesPage.tsx:82-83 | different numbers are printed differently |
| UriCodec.Encode | src/services/authHelpers.ts:45-47 | `encodeURIComponent` output holds only unreserved characters and '%', so never ';', '=' or a space |
| UriCodec.HexRoundTrip | src/services/authHelpers.ts:38 | every hex digit written is read back as its value |
| UriCodec.OctetRoundTrip | src/services/authHelpers.ts:38 | a "%XY" escape of an octet is read back as that octet |
| UriCodec.Utf8Decodes | src/services/authHelpers.ts:38 | the UTF-8 octets of any scalar value decode back to that value |
| UriCodec.DecodeEncodeChar | src/services/authHelpers.ts:38 | decoding an encoded character followed by anything yields that character first |
| UriCodec.DecodeEncode | src/services/authHelpers.ts:38-47 | `decodeURIComponent(encodeURIComponent(s)) == s` for every string |
| AuthHelpers.LiteralPattern | src/services/authHelpers.ts:36 | a name without the wildcard, used as a pattern, matches exactly the text equal to it |
| AuthHelpers.FirstMatchSpec | src/services/authHelpers.ts:35-37 | the match is at the leftmost entry start where `name=` occurs; None means no entry start matches |
| AuthHelpers.UpToSemicolonSpec | src/services/authHelpers.ts:36 | `([^;]*)` captures a run without ';' that reaches the end of the string or stops at a ';' |
| AuthHelpers.UpToSemicolonOf | src/services/authHelpers.ts:36 | a value without ';', followed by nothing or by a ';', is captured whole |
| AuthHelpers.IndexOfName | src/services/authHelpers.ts:41-48 | returns the first position of a cookie with that name, and None iff no cookie has it |
| AuthHelpers.Lookup | src/services/authHelpers.ts:41-48 | the stored value of the first cookie with that name, None iff there is none |
| AuthHelpers.RemoveFromJar | src/services/authHelpers.ts:50-53 | every cookie left was in the jar, and none has the removed name |
| AuthHelpers.ExpiredIsRemoved | src/services/authHelpers.ts:51-52 | writing with days = -1 deletes the cookie, whatever the value |
| AuthHelpers.LookupRemoved | src/services/authHelpers.ts:50-53 | after an expiry the name reads nothing and every other name reads as before |
| AuthHelpers.RemoveIdempotent | src/features/auth/authSlice.ts:41-47 | expiring a cookie twice is expiring it once |
| AuthHelpers.RemovePreservesWellFormed | src/services/authHelpers.ts:50-53 | expiring keeps names valid and distinct and values free of ';' |
| AuthHelpers.LookupUpdated | src/services/authHelpers.ts:45-47 | rewriting an existing name in place makes it read the new value and leaves every other name alone |
| AuthHelpers.LookupAppended | src/services/authHelpers.ts:45-47 | writing a new name appends it; it reads the new value and every other name reads as before |
| AuthHelpers.SetInJarSpec | src/services/authHelpers.ts:41-48 | a write keeps the jar well formed; the name then reads the value while days > 0, and nothing once expired; other names are untouched |
| AuthHelpers.LookupAgrees | src/services/authHelpers.ts:33-39 | parsing the serialised jar for a token name, as the regular expression does, finds exactly the jar's entry for that name |
| AuthHelpers.SkipEntry | src/services/authHelpers.ts:36 | an entry for another name is passed over: the capture is the one found in the entries after it |
| AuthHelpers.RawCookieHere | src/services/authHelpers.ts:36 | an entry for the name itself is matched at once and its whole value captured |
| AuthHelpers.SetInJarDecodable | src/services/authHelpers.ts:45-47 | writing a decodable value keeps every stored value decodable |
| AuthHelpers.GetCookieOfJar | src/services/authHelpers.ts:33-39 | `getCookie` over the serialised jar is null without an entry, else the decoded stored value |
| AuthHelpers.SetCookieThenGetCookie | src/services/authHelpers.ts:33-48 | round trip: after `setCookie(name, v, days)`, `getCookie(name)` gives v while days > 0, and null once expired |
| AuthHelpers.DotJarWildcardMatch | src/services/authHelpers.ts:36 | with '.' left unescaped, the pattern "a.b" matches the entry "axb=" at the start of "axb=1; a.b=2" |
| AuthHelpers.DotJarCapture | src/services/authHelpers.ts:35-38 | the as-written pattern for "a.b" captures "1", the value of "axb" |
| AuthHelpers.DotWildcardMisreads | src/services/authHelpers.ts:33-39 | `getCookie("a.b")` as written returns "1" on the jar "axb=1; a.b=2" |
| AuthHelpers.AsWrittenAgrees | src/services/authHelpers.ts:33-39 | for a name without '.', `getCookie` as written returns exactly what the literal reading does, on every cookie string |
| AuthHelpers.AuthKeysAreNames | src/services/authHelpers.ts:29-31 | "accessToken" and "refreshToken" are valid cookie names without '.', so every property of the jar, and of the literal reading, applies to them |
| AuthHelpers.FingerprintIdempotent | src/services/authHelpers.ts:65-73 | get-or-create stores what it returns; any later call returns the same fingerprint and leaves storage alone; an existing non-empty fingerprint is never replaced |
| AuthHelpers.Browser.constructor | src/services/authHelpers.ts:33-73 | a browser starts with the cookies and the storage it is given (a well-formed jar this client wrote, empty without a document) |
| AuthHelpers.Browser.GetCookieValue | src/services/authHelpers.ts:33-39 | `getCookie(name)` with the regular expression as written: Some exactly when it returns a decoded value; for a name without '.', None without an entry, else the decoded stored value |
| AuthHelpers.Browser.SetCookie | src/services/authHelpers.ts:41-48 | with a document the jar becomes the write of the encoded value; without one nothing changes; storage is untouched |
| AuthHelpers.Browser.ClearAuthCookies | src/services/authHelpers.ts:50-53 | both auth cookies are removed, access first; storage is untouched |
| AuthHelpers.Browser.SetAuthCookies | src/services/authHelpers.ts:58-63 | the access cookie is written for 7 days, then the refresh cookie for 30 days only when the refresh token is non-empty |
| AuthHelpers.Browser.SetAccessTokenCookie | src/services/baseApi.ts:71 | the access cookie is written with its 7-day lifetime |
| AuthHelpers.Browser.ClearAccessTokenCookie | src/features/auth/authSlice.ts:41 | the access cookie is removed and the refresh cookie is kept |
| AuthHelpers.Browser.SaveServerFingerprint | src/services/baseApi.ts:73 | the server hash overwrites the stored fingerprint when there is a window |
| AuthHelpers.Browser.GetOrCreateFingerprint | src/services/authHelpers.ts:65-73 | "server-fingerprint" without a window; otherwise the stored non-empty fingerprint, or the fresh id, which is then stored; never "" |
| AuthSlice.Reduce | src/features/auth/authSlice.ts:28-49 | each reducer preserves the status invariant ("authenticated" carries a token and a user, "anonymous" neither); `setChecking` keeps token and user |
| AuthSlice.ReduceAllPreserves | src/features/auth/authSlice.ts:28-49 | any sequence of reducers preserves the status invariant |
| AuthSlice.ReachableStatesKeepInvariant | src/features/auth/authSlice.ts:19-49 | every state reachable from `initialState` satisfies the invariant |
| AuthSlice.CheckingKeepsCredentials | src/features/auth/authSlice.ts:29-36 | `setCredentials` then `setChecking` leaves a token and a user under status "checking" |
| AuthSlice.AnonymousIsLogout | src/features/auth/authSlice.ts:37-48 | `setAnonymous` and `localLogout` give the same state: no token, no user, "anonymous" |
| AuthSlice.LogoutIdempotent | src/features/auth/authSlice.ts:43-48 | `localLogout` twice equals once, on the state and on the cookie jar |
| AuthSlice.AuthStore.constructor | src/features/auth/authSlice.ts:19-23 | the store starts in `initialState` |
| AuthSlice.AuthStore.SetChecking | src/features/auth/authSlice.ts:29-31 | the new state is the `setChecking` reduction of the old |
| AuthSlice.AuthStore.SetCredentials | src/features/auth/authSlice.ts:32-36 | the new state is the `setCredentials` reduction of the old |
| AuthSlice.AuthStore.SetAnonymous | src/features/auth/authSlice.ts:37-42 | the state is reduced; with a document, the access cookie is removed from the jar |
| AuthSlice.AuthStore.LocalLogout | src/features/auth/authSlice.ts:43-48 | the state is reduced; with a document, the access cookie is removed from the jar |
| Selectors.IsAuthenticatedCases | src/features/auth/selectors.ts:4-6 | a non-empty store token decides; otherwise authenticated iff the cookie read is present and non-empty |
| Selectors.EmptyTokenIsAbsent | src/features/auth/selectors.ts:5 | an empty store token counts as no token |
| Selectors.AuthenticatedAfterCredentials | src/features/auth/selectors.ts:4-6 | after `setCredentials` with a non-empty token the user is authenticated, whatever the cookie |
| Selectors.NotAuthenticatedAfterLogout | src/features/auth/selectors.ts:4-6 | after `localLogout` the predicate is false, reading the jar the client wrote or with no document |
| Selectors.AccessCookieGone | src/features/auth/authSlice.ts:47 | once the access cookie is expired, `getCookie("accessToken")` finds nothing |
| Routes.ProtectedRouteDecision | src/routes/ProtectedRoute.tsx:10-19 | the children are rendered iff authenticated; otherwise a replacing redirect to "/login" carrying `{from: location}` |
| Routes.PublicOnlyRouteDecision | src/routes/PublicOnlyRoute.tsx:10-16 | the children are rendered iff not authenticated; otherwise a replacing redirect to "/" |
| Routes.GuardsAreComplementary | src/routes/PublicOnlyRoute.tsx:10-16 | for any session exactly one of the two guards renders its children |
| Routes.GuardsDependOnlyOnPredicate | src/routes/ProtectedRoute.tsx:12-18 | two sessions with the same predicate value get the same decisions |
| BaseApi.BaseUrl | src/services/baseApi.ts:16-17 | the base URL is `API_BASE_URL` followed by `API_PREFIX`, with "/api" when the prefix is unset |
| BaseApi.AuthorizationHeader | src/services/baseApi.ts:37-39 | a header is present iff the session predicate holds: "Bearer " plus the store token, else plus the cookie token |
| BaseApi.AcceptLanguage | src/services/baseApi.ts:41 | `i18n.language \|\| "en"`: never empty |
| BaseApi.PreparedHeaders | src/services/baseApi.ts:35-45 | Authorization only with a token; Accept-Language and X-Client-Fingerprint always; other headers kept |
| BaseApi.AuthorizationAfterCredentials | src/services/baseApi.ts:37-39 | after a refresh to a non-empty token, requests carry that token whatever the cookie holds |
| BaseApi.NoAuthorizationAfterLogout | src/services/baseApi.ts:37-39 | after `localLogout`, requests carry no Authorization header |
| BaseApi.Headers.constructor | src/services/baseApi.ts:35 | a headers object holds the entries it is given |
| BaseApi.Headers.Set | src/services/baseApi.ts:39-42 | `headers.set` overwrites one entry and keeps the rest |
| BaseApi.PrepareHeaders | src/services/baseApi.ts:35-45 | the headers become `PreparedHeaders` of the session's token, the language and the fingerprint; the fingerprint may be created |
| BaseApi.ValidateRefresh | src/services/baseApi.ts:64-69 | Ok iff the body is non-empty and carries a non-empty token; the two error messages, in order |
| BaseApi.Respond | src/services/baseApi.ts:53-57 | a non-401 is returned at once; a 401 parks and starts a refresh only if none is pending; the invariant is preserved |
| BaseApi.Settle | src/services/baseApi.ts:81-91 | the handle is cleared; on success all waiters move to their retry, on failure all return their 401; the invariant is preserved |
| BaseApi.RetryDone | src/services/baseApi.ts:88 | the retry's result, even another 401, is returned as it is; there is no second refresh |
| BaseApi.RunPreserves | src/services/baseApi.ts:53-94 | every run of events preserves the gateway invariant |
| BaseApi.OneRefreshAtATime | src/services/baseApi.ts:56-84 | in every reachable state at most one refresh call is unsettled |
| BaseApi.PendingRefreshIsShared | src/services/baseApi.ts:56 | a 401 while a refresh is pending waits on it and issues no call of its own |
| BaseApi.SettledAllowsNewCycle | src/services/baseApi.ts:81-83 | after the refresh settles, either way, the next 401 starts a new one |
| BaseApi.WaitersShareOutcome | src/services/baseApi.ts:86-91 | every waiter on one refresh meets the same outcome: retried on success, its own 401 and a logout on failure |
| BaseApi.ApplyRefresh | src/services/baseApi.ts:71-80 | in order: the access cookie, the fingerprint when one is given, then the credentials |
| BaseApi.LogoutWaiters | src/services/baseApi.ts:89-91 | each parked request dispatches `localLogout`; the result is one logout |
| BaseApi.Gateway.constructor | src/services/baseApi.ts:30 | no refresh is pending and nothing is in progress |
| BaseApi.Gateway.OnResponse | src/services/baseApi.ts:53-57 | the fields follow `Respond`; the response is handed back unless it is a 401 |
| BaseApi.Gateway.OnRefreshSettled | src/services/baseApi.ts:57-91 | the fields follow `Settle`; a valid body applies the refresh, an invalid one logs out |
| BaseApi.Gateway.SettleFields | src/services/baseApi.ts:81-83 | the `finally` and the waiters' fate, as `Settle` |
| BaseApi.Gateway.OnRetryResponse | src/services/baseApi.ts:88 | the fields follow `RetryDone`; the retry's result is returned |
| AuthApi.UnwrapEnvelope | src/services/authApi.ts:73 | `transformResponse` gives back the wrapped payload |
| AuthApi.LoginQuery | src/services/authApi.ts:62-72 | POST "/auth/login" with the payload as the body and no params |
| AuthApi.SessionAfterLogin | src/services/authApi.ts:74-90 | success sets status, token and user; failure leaves the session unchanged |
| AuthApi.StorageAfterLogin | src/services/authApi.ts:78 | the fingerprint is overwritten iff a hash came back; other keys are untouched |
| AuthApi.OnLoginStarted | src/services/authApi.ts:74-91 | success writes fingerprint, access cookie and credentials; failure changes nothing |
| AuthApi.LoginSetsCookie | src/services/authApi.ts:80 | after a successful login, `getCookie("accessToken")` as written reads the returned token |
| AuthApi.LogoutQuery | src/services/authApi.ts:100-104 | PATCH "/auth/logout" with the current (possibly new) fingerprint as `refreshToken` |
| AuthApi.OnLogoutStarted | src/services/authApi.ts:105-111 | `localLogout` runs whatever the server answered |
| VacanciesApi.GetVacanciesQuery | src/features/vacancies/vacanciesApi.ts:12-16 | GET "/vacancies" with params only when given |
| VacanciesApi.VacancyUrlNamesId | src/features/vacancies/vacanciesApi.ts:35-41 | vacancy URLs are equal iff the ids are; update and archive address the same URL |
| VacanciesApi.IdTags | src/features/vacancies/vacanciesApi.ts:22 | one tag per vacancy, in order |
| VacanciesApi.ProvidedTagCount | src/features/vacancies/vacanciesApi.ts:19-25 | n vacancies provide n + 1 tags including "LIST"; no result provides just "LIST" |
| VacanciesApi.ProvidedIdTag | src/features/vacancies/vacanciesApi.ts:19-25 | tag v is provided iff v is "LIST" or some listed vacancy has id v |
| VacanciesApi.ResponseProvidesTags | src/features/vacancies/vacanciesApi.ts:17-26 | `providesTags` receives `ListFromResponse`, i.e. `res.data.vacancies`: one tag per vacancy in the body plus "LIST", and tag v iff v is "LIST" or a vacancy in the body has id v |
| VacanciesApi.CreateAndArchiveRefetchLists | src/features/vacancies/vacanciesApi.ts:31-42 | create and archive invalidate every cached list |
| VacanciesApi.UpdateRefetchesHolders | src/features/vacancies/vacanciesApi.ts:37 | updating v refetches a list iff it holds v (or v is "LIST") |
| LoginPage.LoginRequest | src/pages/auth/LoginPage.tsx:35-43 | email, password and language are forwarded; `rememberUser` iff remember is true; no fingerprint |
| LoginPage.RedirectTarget | src/pages/auth/LoginPage.tsx:49-51 | `state?.from?.pathname ?? "/"` |
| LoginPage.LoginErrorTextUnique | src/pages/auth/LoginPage.tsx:54-65 | the precedence leaves exactly one message per error |
| LoginPage.ErrorMessage | src/pages/auth/LoginPage.tsx:54-65 | a string `error` beats a non-empty `data.message`, which beats the default |
| LoginPage.LoginForm.constructor | src/pages/auth/LoginPage.tsx:13-17 | the form holds the given values |
| LoginPage.HandleFinish | src/pages/auth/LoginPage.tsx:33-70 | the payload is sent with the headers `prepareHeaders` fills in (src/services/baseApi.ts:35-45), whose step first creates the fingerprint when none is stored (even on a first login that fails); then the endpoint's effects happen (session, access cookie, server fingerprint); success shows the success notice and navigates (replacing) to the target; failure shows the error message and clears the password |
| LoginPage.ReturnToDeniedPage | src/routes/ProtectedRoute.tsx:14-16 | a turned-away user is sent to "/login" with the location, and after a login the page returns them there |
| MainLayout.NormalizeDropsLeadingSlash | src/layout/MainLayout.tsx:36-39 | only the first '/' is dropped |
| MainLayout.MenuRoundTrip | src/layout/MainLayout.tsx:96-108 | the key of the path a menu click navigates to is the key clicked |
| MainLayout.MenuGates | src/layout/MainLayout.tsx:80-81 | "users" iff admin or company manager; "companies" iff admin |
| MainLayout.MenuForUser | src/layout/MainLayout.tsx:77 | `UserRole`, `user?.role ?? "user"`, is the stored user's role, and with no user the menu is the "user" menu with no gated item; "users" is offered iff the stored user is admin or company manager, "companies" iff admin |
| MainLayout.MenuFrame | src/layout/MainLayout.tsx:113-139 | the menu without the gated items is the plain user's menu, in the same order |
| MainLayout.MenuEnds | src/layout/MainLayout.tsx:113-139 | "logout" is last; every other item's click comes back to its key |
| MainLayout.NormalizeMeUser | src/layout/MainLayout.tsx:54-63 | the user is kept, except that `company` is cut to `{id, name}` or null |
| MainLayout.MainLayoutView.constructor | src/layout/MainLayout.tsx:50 | the drawer starts closed |
| MainLayout.MainLayoutView.HandleLogout | src/layout/MainLayout.tsx:87-94 | whatever the server said: the session is logged out, the access cookie expired, the fingerprint created if missing and sent in the PATCH "/auth/logout" body, and the page goes to "/login", replacing the entry |
| MainLayout.MainLayoutView.HandleMenuClick | src/layout/MainLayout.tsx:96-111 | "logout" has the whole effect of `handleLogout` (session, cookie, fingerprint, "/login") and leaves the drawer; another key navigates, closes the drawer on a phone and changes nothing else |
| MainLayout.MainLayoutView.OnMeError | src/layout/MainLayout.tsx:65-70 | a failed "me" query logs out (the access cookie expired, storage untouched) and goes to "/login" |
| VacanciesPage.SalaryLabel | src/pages/VacanciesPage.tsx:78-84 | "—" iff both bounds are missing; "a – b", "from a" or "to b" otherwise |
| VacanciesPage.SalaryLabelShowsBounds | src/pages/VacanciesPage.tsx:78-84 | equal labels come from equal salary bounds |
| VacanciesPage.ValidateFields | src/pages/VacanciesPage.tsx:157-173 | values are produced iff title and job type are set and non-empty |
| VacanciesPage.TrimmedOrAbsent | src/pages/VacanciesPage.tsx:53-54 | the trimmed text, or absent when blank |
| VacanciesPage.TrimmedOrAbsentIdempotent | src/pages/VacanciesPage.tsx:53-54 | applying it twice is applying it once |
| VacanciesPage.CreatePayload | src/pages/VacanciesPage.tsx:51-58 | title trimmed; location and description trimmed or left out; the rest unchanged |
| VacanciesPage.CreatePayloadIdempotent | src/pages/VacanciesPage.tsx:51-58 | resending a payload's own values sends the same payload |
| VacanciesPage.CreatePayloadHasNoBlanks | src/pages/VacanciesPage.tsx:53-54 | no blank location or description is sent, and no sent text (title included) begins or ends with white space |
| VacanciesPage.CreateVacancyDialog.constructor | src/pages/VacanciesPage.tsx:37-38 | the dialog starts closed with an empty form |
| VacanciesPage.CreateVacancyDialog.Show | src/pages/VacanciesPage.tsx:130 | the dialog opens; the form is kept |
| VacanciesPage.CreateVacancyDialog.Cancel | src/pages/VacanciesPage.tsx:148 | the dialog closes; the form is kept |
| VacanciesPage.CreateVacancyDialog.Edit | src/pages/VacanciesPage.tsx:153-214 | the fields take the input |
| VacanciesPage.CreateVacancyDialog.OnCreate | src/pages/VacanciesPage.tsx:47-66 | a request iff validation passes; success resets and closes; otherwise nothing changes |
| UsersPage.PositionField | src/pages/UsersPage.tsx:28 | absent iff the trimmed position is empty, else the trimmed text |
| UsersPage.RegisterPayload | src/pages/UsersPage.tsx:24-30 | the state is forwarded, with the position field as above |
| UsersPage.BlankPositionOmitted | src/pages/UsersPage.tsx:28 | the position is left out iff it is all white space |
| UsersPage.PositionFieldIdempotent | src/pages/UsersPage.tsx:28 | a sent position, sent again, is unchanged |
| UsersPage.ErrorText | src/pages/UsersPage.tsx:36-37 | "Error: " followed by the serialised `err.data`, else the serialised error |
| UsersPage.ResultTextsDiffer | src/pages/UsersPage.tsx:32-37 | a success text never equals an error text |
| UsersPage.RegisterForm.constructor | src/pages/UsersPage.tsx:12-18 | the initial form state as in the source |
| UsersPage.RegisterForm.BeginRegister | src/pages/UsersPage.tsx:20-30 | the result text is cleared and the request built from the state |
| UsersPage.RegisterForm.FinishRegister | src/pages/UsersPage.tsx:32-37 | the success or error text is shown; the fields are kept |
| App.ParseTheme | src/App.tsx:18-19 | dark iff the saved value is "dark"; anything else is light |
| App.InitialTheme | src/App.tsx:16-20 | light without a window; dark iff "themeMode" holds "dark" |
| App.ThemeRoundTrip | src/App.tsx:19-26 | a persisted theme name parses back to the theme |
| App.ThemeSurvivesReload | src/App.tsx:16-26 | after persisting, the next start reads the same theme |
| App.ToggleTarget | src/App.tsx:43-45 | the new theme is dark iff the switch is checked |
| App.CurrentLanguage | src/App.tsx:33-37 | "ru" iff the language starts with "ru"; "hy" iff it starts with "hy" (and not "ru"); "en" otherwise |
| App.CurrentLanguageFixedPoint | src/App.tsx:33-37 | applying it twice is applying it once |
| App.AppRouteShows | src/App.tsx:63-81 | the login page iff on "/login" without a session; the layout iff elsewhere with one |
| App.LoginDetour | src/App.tsx:63-81 | a visitor without a session goes to "/login" and sees the login page; after login the target shows the layout |
| App.AppShell.constructor | src/App.tsx:16-29 | the theme is the initial one, and it is persisted and mirrored in `data-theme` |
| App.AppShell.PersistTheme | src/App.tsx:24-29 | the theme is written to storage with a window, and to `data-theme` |
| App.AppShell.ToggleTheme | src/App.tsx:43-45 | the checked switch sets dark; a reload would read the same theme |
| Env.RequireString | src/config/env.ts:3-7 | throws "Missing env: NAME" iff the value is missing or empty, else returns it |
| Env.LoadEnv | src/config/env.ts:9-14 | succeeds iff all four settings are present, holding their values |
| Env.FirstMissingReported | src/config/env.ts:9-14 | the error names the first missing setting in declaration order |
| Env.AppEnvUnchecked | src/config/env.ts:11 | any non-empty text passes as the environment name |

## Left out

- The network, promises and the event loop. Each response, and how `queryFulfilled` settles, is a parameter. The refresh coordinator is a sequential state machine over the single-threaded loop.
- Cookie expiry dates. `new Date()` and `toUTCString` are not modelled: a positive lifetime keeps the cookie and a non-positive one deletes it at once. The `path` and `SameSite` attributes are not modelled.
- `crypto.randomUUID()` is a parameter, `uuid`, assumed non-empty.
- `i18n.language` is a parameter. Language detection (src/i18n/index.ts) is not part of this model. `t()` translations are parameters or the default texts. `message.success`/`message.error` are the returned notices.
- `console.log` in the login page is not modelled.
- `setAccessTokenCookie`, `clearAccessTokenCookie` and `saveServerFingerprint` are imported but not defined in src/services/authHelpers.ts. They are modelled as the operations their names and call sites describe: write the access cookie for 7 days, expire it, overwrite the stored fingerprint.
- `setUser` is imported by MainLayout.tsx but not defined in src/features/auth/authSlice.ts. Only the normalised user it would receive is modelled (`NormalizeMeUser`).
- Strings are sequences of Unicode scalar values, not UTF-16 code units. The URIError that `encodeURIComponent` throws on a lone surrogate cannot arise.
- Browser.Valid: the jar holds only values this client wrote through `encodeURIComponent` (`DecodableJar`). A cookie set by the server or another script that is not valid percent-encoding (say "accessToken=%E0") is not modelled. On it `decodeURIComponent` throws a URIError inside `getAccessTokenFromCookie`, and so inside `prepareHeaders` and `selectIsAuthenticated`. `GetCookie` alone returns `Malformed` for such a value, and `CookieValue` maps it to None.
- `JSON.stringify` of a register error is a given string, and `Headers` are a map with case-sensitive names.
- The user in a refresh response is trusted as it comes. Its shape is not checked, as in the source.
- Salary inputs are `<Input type="number">` and give strings at run time. They are modelled as `Option<int>`, the type the form declares.
- VacancyDto, SalaryLabel: salaries are `number | null` in src/features/vacancies/types.ts:15-16, but whole numbers here. A fractional salary (`${1500.5}` is "1500.5") and the exponent form JavaScript prints from 1e21 up are not modelled.
- The archive confirmation dialog, the table columns other than salary, and `data ?? []` for the rows are rendering only.
- App.AppRoute: React Router's matching of "/login" (case-insensitive, optional trailing slash, percent-decoding) is not modelled. Only the exact pathname "/login" routes to the login page.
- Routes.ProtectedRoute: the whole location is carried in the redirect state, but only `from.pathname` is used; search and hash are lost on the way back, as in the source.
- AuthSlice.StatusInvariant: the reducers keep only one direction of the link between status and credentials. `CheckingKeepsCredentials` shows the other direction fails.
- VacanciesApi: a vacancy whose id is the text "LIST" collides with the list tag, as in the source (`ProvidedIdTag` states it).
- BaseApi.LogoutWaiters: the waiters' returned results are recorded once, by `Settle`, not one per `localLogout`.
- LoginPage.HandleFinish: the contract describes a login request that is not answered with a 401. On a 401, `baseQueryWithReauth` (src/services/baseApi.ts:55-91) first tries a refresh. If that refresh fails, it dispatches `localLogout`: status "anonymous" and the access cookie expired. If it succeeds, it writes the refreshed token, its `fingerprintHash` and the credentials before the login is retried. Neither wrapper effect is composed into this method; the wrapper alone is modelled by `BaseApi.Gateway` and `BaseApi.ApplyRefresh`.
- MainLayout.MainLayoutView.HandleLogout: the contract describes a logout PATCH that is not answered with a 401. On a 401 whose refresh succeeds, the wrapper stores the refreshed `fingerprintHash` (src/services/baseApi.ts:73), the cookie and the credentials before the retry. Only then does `onQueryStarted`'s `localLogout` run, so the stored fingerprint would be the server's hash and not what the contract states. A failed refresh adds one more `localLogout`, which changes nothing (`AuthSlice.LogoutIdempotent`).
- HandleMenuClick: its "logout" branch is `handleLogout` and has the same gap: the effects of a 401 on the logout PATCH (src/services/baseApi.ts:55-91) are not modelled.
- `prepareHeaders` creates the fingerprint for every request (src/services/baseApi.ts:42). `UsersPage.RegisterForm.BeginRegister` and `VacanciesPage.CreateVacancyDialog.OnCreate` return only the request they send, and they do not model that write to the browser storage.
- Browser.GetCookieValue, and every lemma about reading the jar, requires the name to be an RFC 6265 token. The two names the client uses are tokens without '.' (`AuthKeysAreNames`), so for them the reading as written and the literal reading agree (`AsWrittenAgrees`).

## Findings

| source | as written | input that shows it | evidently intended | confidence | as-written member | corrected member |
|---|---|---|---|---|---|---|
| src/services/authHelpers.ts:36 | the name is escaped for regex metacharacters, but '.' is missing from the list, so a '.' in the name matches any character | jar "axb=1; a.b=2", `getCookie("a.b")` returns "1" | every metacharacter escaped; `getCookie` reads the cookie with exactly that name | not executed; only names with '.' affected, the client's own two names have none | AuthHelpers.DotWildcardMisreads | AuthHelpers.SetCookieThenGetCookie |
