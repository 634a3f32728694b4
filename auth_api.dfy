/**
 * The authentication endpoints: their request descriptors, the envelope
 * unwrapping of their responses, and the side effects of login and logout.
 */
module AuthApi {
  import opened Wrappers
  import opened Text
  import opened AuthTypes
  import opened AuthHelpers
  import opened AuthSlice
  import opened BaseApi
  import UriCodec

  /** `transformResponse`: the payload inside the envelope. */
  function TransformResponse<T>(response: Envelope<T>): T {
    response.data
  }

  /** Unwrapping gives back exactly the payload that was wrapped, whatever the success flag. */
  lemma UnwrapEnvelope<T>(success: bool, data: T)
    ensures TransformResponse(Envelope(success, data)) == data
  {
  }

  /** `LoginPayload`; the login page sends no fingerprint, so it is optional here. */
  datatype LoginPayload = LoginPayload(email: string, password: string, language: string, rememberUser: bool, fingerprint: Option<string>)

  datatype LoginResponseData = LoginResponseData(accessToken: string, user: UserDto, fingerprintHash: Option<string>)

  datatype CurrentResponseData = CurrentResponseData(user: UserDto)

  datatype MeResponseData = MeResponseData(userType: UserType, user: UserDto, company: Option<CompanyDto>)

  datatype RegisterCompanyUserPayload = RegisterCompanyUserPayload(
    email: string, password: string, role: CompanyUserRole, position: Option<string>, language: string)

  datatype RegisterCompanyUserResponseData = RegisterCompanyUserResponseData(
    id: string, email: string, role: CompanyUserRole, position: Option<string>, language: string, companyId: string)

  /** The logout body: the fingerprint, under the key `refreshToken`. */
  datatype LogoutBody = LogoutBody(refreshToken: string)

  /** `login.query`: the payload's fields, forwarded as the body. */
  function LoginQuery(p: LoginPayload): (r: FetchArgs<LoginPayload, ()>)
    ensures r.url == "/auth/login" && r.httpMethod == Post && r.body == Some(p) && r.params == None
  {
    FetchArgs("/auth/login", Post, Some(LoginPayload(p.email, p.password, p.language, p.rememberUser, p.fingerprint)), None)
  }

  const CurrentQuery: FetchArgs<(), ()> := FetchArgs("/auth/current", Get, None, None)

  const MeQuery: FetchArgs<(), ()> := FetchArgs("/auth/me", Get, None, None)

  function RegisterCompanyUserQuery(body: RegisterCompanyUserPayload): FetchArgs<RegisterCompanyUserPayload, ()> {
    FetchArgs("/auth/register/company-user", Post, Some(body), None)
  }

  /** The session after the login handler: the new credentials on success, unchanged on failure. */
  function SessionAfterLogin(s: AuthState, outcome: Result<LoginResponseData>): (r: AuthState)
    ensures outcome.Ok? ==> r.status == Authenticated && r.accessToken == Some(outcome.value.accessToken) && r.user == Some(outcome.value.user)
    ensures outcome.Err? ==> r == s
  {
    match outcome
    case Ok(data) => Reduce(s, SetCredentials(data.accessToken, data.user))
    case Err(_) => s
  }

  /** Local storage after the login handler: the fingerprint is overwritten iff the response carries a hash. */
  function StorageAfterLogin(storage: map<string, string>, hasWindow: bool, outcome: Result<LoginResponseData>): (r: map<string, string>)
    ensures hasWindow && outcome.Ok? && TruthyOpt(outcome.value.fingerprintHash) ==> StoredFingerprint(r) == outcome.value.fingerprintHash
    ensures forall k :: k in storage && k != FingerprintKey ==> k in r && r[k] == storage[k]
    ensures !(hasWindow && outcome.Ok? && TruthyOpt(outcome.value.fingerprintHash)) ==> r == storage
  {
    if hasWindow && outcome.Ok? && TruthyOpt(outcome.value.fingerprintHash) then storage[FingerprintKey := outcome.value.fingerprintHash.value]
    else storage
  }

  /**
   * The login `onQueryStarted`: `outcome` is how `queryFulfilled` settles. On
   * success the fingerprint (when a hash came back), the access cookie and the
   * credentials are written; a failure is swallowed and changes nothing.
   */
  method OnLoginStarted(store: AuthStore, outcome: Result<LoginResponseData>)
    requires store.Valid()
    modifies store, store.browser
    ensures store.Valid()
    ensures store.State() == SessionAfterLogin(old(store.State()), outcome)
    ensures store.browser.storage == StorageAfterLogin(old(store.browser.storage), store.browser.hasWindow, outcome)
    ensures store.browser.jar ==
      if outcome.Ok? && store.browser.hasDocument
      then SetInJar(old(store.browser.jar), AccessTokenKey, UriCodec.Encode(outcome.value.accessToken), AccessCookieDays)
      else old(store.browser.jar)
  {
    if outcome.Err? {
      return;
    }
    var data := outcome.value;
    if TruthyOpt(data.fingerprintHash) {
      store.browser.SaveServerFingerprint(data.fingerprintHash.value);
    }
    store.browser.SetAccessTokenCookie(data.accessToken);
    store.SetCredentials(data.accessToken, data.user);
  }

  /** A successful login leaves the access cookie holding the returned token. */
  lemma LoginSetsCookie(jar: seq<Cookie>, data: LoginResponseData)
    requires WellFormedJar(jar)
    ensures GetCookieAsWritten(Some(CookieHeader(SetInJar(jar, AccessTokenKey, UriCodec.Encode(data.accessToken), AccessCookieDays))), AccessTokenKey)
      == Present(data.accessToken)
  {
    AuthKeysAreNames();
    AsWrittenAgrees(Some(CookieHeader(SetInJar(jar, AccessTokenKey, UriCodec.Encode(data.accessToken), AccessCookieDays))), AccessTokenKey);
    SetCookieThenGetCookie(jar, AccessTokenKey, data.accessToken, AccessCookieDays);
  }

  /** `logout.query`: the body carries the current (possibly new) fingerprint as `refreshToken`. */
  method LogoutQuery(browser: Browser, uuid: string) returns (args: FetchArgs<LogoutBody, ()>)
    requires browser.Valid() && uuid != ""
    modifies browser
    ensures browser.Valid() && browser.jar == old(browser.jar)
    ensures browser.hasWindow ==> browser.storage == FingerprintStep(old(browser.storage), uuid).1
    ensures !browser.hasWindow ==> browser.storage == old(browser.storage)
    ensures args == FetchArgs("/auth/logout", Patch, Some(LogoutBody(FingerprintOf(browser.hasWindow, old(browser.storage), uuid))), None)
  {
    var fingerprint := browser.GetOrCreateFingerprint(uuid);
    args := FetchArgs("/auth/logout", Patch, Some(LogoutBody(fingerprint)), None);
  }

  /** The logout `onQueryStarted`: `localLogout` runs in `finally`, whatever the server answered. */
  method OnLogoutStarted(store: AuthStore, outcome: Result<()>)
    requires store.Valid()
    modifies store, store.browser
    ensures store.Valid() && store.State() == Reduce(old(store.State()), LocalLogout)
    ensures store.browser.storage == old(store.browser.storage)
    ensures store.browser.jar == if store.browser.hasDocument then RemoveFromJar(old(store.browser.jar), AccessTokenKey) else old(store.browser.jar)
  {
    store.LocalLogout();
  }
}
