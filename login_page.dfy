/** The login page: the request it sends, where it goes afterwards, and the error it shows. */
module LoginPage {
  import opened Wrappers
  import opened Text
  import opened AuthTypes
  import opened AuthHelpers
  import opened AuthSlice
  import opened Selectors
  import opened BaseApi
  import opened AuthApi
  import opened Routes
  import UriCodec

  /** `LoginFormValues`; `remember` may be missing. */
  datatype LoginFormValues = LoginFormValues(email: string, password: string, remember: Option<bool>)

  /** The payload `handleFinish` sends: no fingerprint, and `rememberUser` is `Boolean(remember)`. */
  function LoginRequest(values: LoginFormValues, language: string): (r: LoginPayload)
    ensures r.email == values.email && r.password == values.password && r.language == language
    ensures r.rememberUser <==> values.remember == Some(true)
    ensures r.fingerprint == None
  {
    LoginPayload(values.email, values.password, language, values.remember.GetOr(false), None)
  }

  /** `state?.from?.pathname ?? "/"` */
  function RedirectTarget(state: Option<NavState>): (r: string)
    ensures state.Some? && state.value.from.Some? ==> r == state.value.from.value.pathname
    ensures state.None? || state.value.from.None? ==> r == "/"
  {
    match state
    case None => "/"
    case Some(st) =>
      match st.from
      case None => "/"
      case Some(from) => from.pathname
  }

  /** `err.data` when present: its `message` may be missing. */
  datatype ErrorBody = ErrorBody(message: Option<string>)

  /** The `error` member of the rejection, when it has one. */
  datatype ErrorMember = StringError(text: string) | OtherError

  /** What `unwrap()` rejects with: `data` may be missing (or falsy), `error` may be missing or not a string. */
  datatype LoginError = LoginError(data: Option<ErrorBody>, error: Option<ErrorMember>)

  predicate HasStringError(err: LoginError) {
    err.error.Some? && err.error.value.StringError?
  }

  predicate HasDataMessage(err: LoginError) {
    err.data.Some? && TruthyOpt(err.data.value.message)
  }

  /**
   * The message shown for a failed login: a string `error` (even an empty one)
   * wins over a non-empty `data.message`, which wins over the default text.
   */
  predicate IsLoginErrorText(err: LoginError, defaultText: string, text: string) {
    (HasStringError(err) ==> text == err.error.value.text)
    && (!HasStringError(err) && HasDataMessage(err) ==> text == err.data.value.message.value)
    && (!HasStringError(err) && !HasDataMessage(err) ==> text == defaultText)
  }

  /** The precedence leaves exactly one message for each error. */
  lemma LoginErrorTextUnique(err: LoginError, defaultText: string, a: string, b: string)
    requires IsLoginErrorText(err, defaultText, a) && IsLoginErrorText(err, defaultText, b)
    ensures a == b
  {
  }

  /** `errMessage`, built step by step: the default, then `data.message`, then a string `error`. */
  method ErrorMessage(err: LoginError, defaultText: string) returns (errMessage: string)
    ensures IsLoginErrorText(err, defaultText, errMessage)
  {
    errMessage := defaultText;
    if err.data.Some? {
      var body := err.data.value;
      if TruthyOpt(body.message) {
        errMessage := body.message.value;
      }
    }
    if err.error.Some? && err.error.value.StringError? {
      errMessage := err.error.value.text;
    }
  }

  /** How the login mutation settles for the page. */
  datatype LoginAttempt = Succeeded(data: LoginResponseData) | Failed(error: LoginError)

  /** The same settlement as the endpoint's `onQueryStarted` sees it. */
  function Fulfilled(a: LoginAttempt): Result<LoginResponseData> {
    match a
    case Succeeded(data) => Ok(data)
    case Failed(_) => Err("login failed")
  }

  /** A `<Navigate>`/`navigate()` call: the target and whether it replaces the entry. */
  datatype Navigation = Navigation(to: string, replace: bool)

  /** The login form's fields, which the page updates in place. */
  class LoginForm {
    var email: string
    var password: string
    var remember: Option<bool>

    constructor (email: string, password: string, remember: Option<bool>)
      ensures this.email == email && this.password == password && this.remember == remember
    {
      this.email := email;
      this.password := password;
      this.remember := remember;
    }

    function Values(): LoginFormValues
      reads this
    {
      LoginFormValues(email, password, remember)
    }
  }

  /**
   * `handleFinish`. The request is the form's payload, sent with the headers
   * `prepareHeaders` fills in (creating the fingerprint if none is stored); then
   * the endpoint's effects run (see `OnLoginStarted`). On success the page
   * navigates, replacing the entry, to where the user was going; on failure it
   * reports the message and clears the password. `successText` and `defaultText`
   * are the translations of "messages.loginSuccess" and "messages.loginError";
   * `shown` is the notice; `uuid` is what `crypto.randomUUID()` would give.
   */
  method HandleFinish(form: LoginForm, store: AuthStore, headers: Headers, language: string, uuid: string,
                      state: Option<NavState>, attempt: LoginAttempt, successText: string, defaultText: string)
    returns (request: LoginPayload, navigation: Option<Navigation>, shown: Option<string>)
    requires store.Valid() && uuid != ""
    modifies form, store, store.browser, headers
    ensures request == LoginRequest(old(form.Values()), language)
    ensures headers.entries == PreparedHeaders(old(headers.entries),
      AuthorizationHeader(old(store.State()), old(store.browser.AccessTokenCookie())),
      AcceptLanguage(Some(language)),
      FingerprintOf(store.browser.hasWindow, old(store.browser.storage), uuid))
    ensures store.Valid() && store.State() == SessionAfterLogin(old(store.State()), Fulfilled(attempt))
    ensures store.browser.storage == StorageAfterLogin(
      if store.browser.hasWindow then FingerprintStep(old(store.browser.storage), uuid).1 else old(store.browser.storage),
      store.browser.hasWindow, Fulfilled(attempt))
    ensures store.browser.jar ==
      if attempt.Succeeded? && store.browser.hasDocument
      then SetInJar(old(store.browser.jar), AccessTokenKey, UriCodec.Encode(attempt.data.accessToken), AccessCookieDays)
      else old(store.browser.jar)
    ensures attempt.Succeeded? ==>
      navigation == Some(Navigation(RedirectTarget(state), true)) && shown == Some(successText)
      && form.Values() == old(form.Values())
    ensures attempt.Failed? ==>
      navigation == None && shown.Some? && IsLoginErrorText(attempt.error, defaultText, shown.value)
      && form.Values() == old(form.Values()).(password := "")
  {
    request := LoginRequest(form.Values(), language);
    PrepareHeaders(headers, store, Some(language), uuid);
    OnLoginStarted(store, Fulfilled(attempt));
    if attempt.Succeeded? {
      shown := Some(successText);
      navigation := Some(Navigation(RedirectTarget(state), true));
    } else {
      var text := ErrorMessage(attempt.error, defaultText);
      shown := Some(text);
      navigation := None;
      form.password := "";
    }
  }

  /**
   * The round trip: a user the protected guard turns away is sent to "/login"
   * remembering the location, the login page then navigates to that location's
   * path, and after a login with a non-empty token the guard lets them in.
   */
  lemma ReturnToDeniedPage<T>(s: AuthState, cookie: Option<string>, location: Location, children: T,
                              data: LoginResponseData, cookie': Option<string>)
    requires !IsAuthenticated(s, cookie) && data.accessToken != ""
    ensures var v := ProtectedRoute(s, cookie, location, children);
      v.Navigate? && v.to == "/login" && v.replace && RedirectTarget(v.state) == location.pathname
    ensures var s' := SessionAfterLogin(s, Ok(data));
      ProtectedRoute(s', cookie', Location(location.pathname, "", ""), children) == Children(children)
  {
  }
}
