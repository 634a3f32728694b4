/**
 * The authenticated request gateway: header preparation for every request and
 * the 401 handling of `baseQueryWithReauth`, where all requests that meet a 401
 * share one pending refresh and are then retried once or logged out.
 *
 * The event loop is single-threaded, so the gateway is a sequential state
 * machine: a request's first response arrives, the refresh settles, a retry's
 * response arrives. `GatewayState` and its transitions are the reference; the
 * class `Gateway` is the same machine over mutable fields, with the store and
 * browser side effects.
 */
module BaseApi {
  import opened Wrappers
  import opened Text
  import opened AuthTypes
  import opened AuthHelpers
  import opened AuthSlice
  import opened Selectors
  import UriCodec

  /** `ApiSuccessResponse<T>`: the backend's envelope. */
  datatype Envelope<T> = Envelope(success: bool, data: T)

  datatype HttpMethod = Get | Post | Patch | Delete

  /** RTK Query's `FetchArgs`: a path under the base URL, a method, an optional JSON body and query params. */
  datatype FetchArgs<B, P> = FetchArgs(url: string, httpMethod: HttpMethod, body: Option<B>, params: Option<P>)

  /** `${API_BASE_URL}${API_PREFIX}`: an unset base reads "undefined", an unset prefix is "/api". */
  function BaseUrl(apiBaseUrl: Option<string>, apiPrefix: Option<string>): (r: string)
    ensures apiBaseUrl.Some? && apiPrefix.None? ==> r == apiBaseUrl.value + "/api"
    ensures apiBaseUrl.Some? && apiPrefix.Some? ==> r == apiBaseUrl.value + apiPrefix.value
  {
    apiBaseUrl.GetOr("undefined") + apiPrefix.GetOr("/api")
  }

  // ---------------------------------------------------------------------------
  // prepareHeaders
  // ---------------------------------------------------------------------------

  const AuthorizationName := "Authorization"
  const AcceptLanguageName := "Accept-Language"
  const FingerprintHeaderName := "X-Client-Fingerprint"

  /** The Authorization value: "Bearer " and the store token, or else the cookie token, when that is non-empty. */
  function AuthorizationHeader(s: AuthState, cookie: Option<string>): (r: Option<string>)
    ensures r.Some? <==> IsAuthenticated(s, cookie)
    ensures TruthyOpt(s.accessToken) ==> r == Some("Bearer " + s.accessToken.value)
    ensures !TruthyOpt(s.accessToken) && TruthyOpt(cookie) ==> r == Some("Bearer " + cookie.value)
  {
    var token := OrElse(s.accessToken, cookie);
    if TruthyOpt(token) then Some("Bearer " + token.value) else None
  }

  /** `i18n.language || "en"` */
  function AcceptLanguage(language: Option<string>): (r: string)
    ensures r != ""
    ensures TruthyOpt(language) ==> r == language.value
    ensures !TruthyOpt(language) ==> r == "en"
  {
    OrElse(language, Some("en")).value
  }

  /** The header map after `prepareHeaders`: Authorization only with a token, the other two always. */
  function PreparedHeaders(headers: map<string, string>, authorization: Option<string>, language: string, fingerprint: string): (r: map<string, string>)
    ensures AuthorizationName in r <==> authorization.Some? || AuthorizationName in headers
    ensures authorization.Some? ==> r[AuthorizationName] == authorization.value
    ensures AcceptLanguageName in r && r[AcceptLanguageName] == language
    ensures FingerprintHeaderName in r && r[FingerprintHeaderName] == fingerprint
    ensures forall k :: k in headers && k !in {AuthorizationName, AcceptLanguageName, FingerprintHeaderName} ==> k in r && r[k] == headers[k]
  {
    var withAuth := if authorization.Some? then headers[AuthorizationName := authorization.value] else headers;
    withAuth[AcceptLanguageName := language][FingerprintHeaderName := fingerprint]
  }

  /** The fingerprint `getOrCreateFingerprint` returns for this browser state. */
  function FingerprintOf(hasWindow: bool, storage: map<string, string>, uuid: string): string {
    if hasWindow then FingerprintStep(storage, uuid).0 else ServerFingerprint
  }

  /** After a refresh to a non-empty token, requests carry that token whatever the cookie holds. */
  lemma AuthorizationAfterCredentials(s: AuthState, token: string, user: UserDto, cookie: Option<string>)
    requires token != ""
    ensures AuthorizationHeader(Reduce(s, SetCredentials(token, user)), cookie) == Some("Bearer " + token)
  {
  }

  /** After `localLogout` with the access cookie expired, requests carry no Authorization header. */
  lemma NoAuthorizationAfterLogout(s: AuthState, hasDocument: bool, jar: seq<Cookie>)
    requires WellFormedJar(jar) && DecodableJar(jar)
    ensures var document := if hasDocument then Some(CookieHeader(RemoveFromJar(jar, AccessTokenKey))) else None;
      AuthorizationHeader(Reduce(s, LocalLogout), CookieValue(document, AccessTokenKey)) == None
  {
    NotAuthenticatedAfterLogout(s, hasDocument, jar);
  }

  /** The `Headers` object `prepareHeaders` fills in place. */
  class Headers {
    var entries: map<string, string>

    constructor (entries: map<string, string>)
      ensures this.entries == entries
    {
      this.entries := entries;
    }

    /** `headers.set(name, value)` */
    method Set(name: string, value: string)
      modifies this
      ensures entries == old(entries)[name := value]
    {
      entries := entries[name := value];
    }
  }

  /**
   * `prepareHeaders(headers, { getState })`. `language` is `i18n.language`;
   * `uuid` is the id `crypto.randomUUID()` would give.
   */
  method PrepareHeaders(headers: Headers, store: AuthStore, language: Option<string>, uuid: string)
    requires store.Valid() && uuid != ""
    modifies headers, store.browser
    ensures store.Valid() && store.browser.jar == old(store.browser.jar)
    ensures store.browser.hasWindow ==> store.browser.storage == FingerprintStep(old(store.browser.storage), uuid).1
    ensures !store.browser.hasWindow ==> store.browser.storage == old(store.browser.storage)
    ensures headers.entries == PreparedHeaders(old(headers.entries),
      AuthorizationHeader(old(store.State()), old(store.browser.AccessTokenCookie())),
      AcceptLanguage(language),
      FingerprintOf(store.browser.hasWindow, old(store.browser.storage), uuid))
  {
    var token := OrElse(store.accessToken, store.browser.AccessTokenCookie());
    if TruthyOpt(token) {
      headers.Set(AuthorizationName, "Bearer " + token.value);
    }
    headers.Set(AcceptLanguageName, OrElse(language, Some("en")).value);
    var fingerprint := store.browser.GetOrCreateFingerprint(uuid);
    headers.Set(FingerprintHeaderName, fingerprint);
  }

  // ---------------------------------------------------------------------------
  // Results and the refresh response
  // ---------------------------------------------------------------------------

  /** `FetchBaseQueryError.status`: an HTTP status or one of the transport failures. */
  datatype ErrorStatus = HttpStatus(code: int) | FetchError | ParsingError | TimeoutError | CustomError

  /** A query's result; `data` stands for the parsed body. */
  datatype QueryResult = Success(data: string) | Failure(status: ErrorStatus, errorData: Option<string>)

  predicate Is401(r: QueryResult) {
    r.Failure? && r.status == HttpStatus(401)
  }

  /** The fields of a refresh payload; the token may be missing or empty. */
  datatype RefreshData = RefreshData(accessToken: Option<string>, user: UserDto, fingerprintHash: Option<string>)

  /**
   * What `POST /auth/refresh` yields: `data` is None for an error result or an
   * empty body, and the envelope's own `data` may be missing.
   */
  datatype RefreshResult = RefreshResult(data: Option<Envelope<Option<RefreshData>>>)

  /** The checks of the refresh body. `Ok` carries a payload with a non-empty token. */
  function ValidateRefresh(r: RefreshResult): (res: Result<RefreshData>)
    ensures res.Ok? <==> r.data.Some? && r.data.value.data.Some? && TruthyOpt(r.data.value.data.value.accessToken)
    ensures res.Ok? ==> res.value == r.data.value.data.value
    ensures r.data.None? ==> res == Err("Refresh failed: empty response")
    ensures r.data.Some? && res.Err? ==> res == Err("Refresh failed: no accessToken")
  {
    if r.data.None? then Err("Refresh failed: empty response")
    else
      var payload := r.data.value.data;
      if payload.None? || !TruthyOpt(payload.value.accessToken) then Err("Refresh failed: no accessToken")
      else Ok(payload.value)
  }

  // ---------------------------------------------------------------------------
  // The refresh coordinator as a state machine
  // ---------------------------------------------------------------------------

  /**
   * `inFlight` is `refreshPromise !== null`. Each request has an id: `waiting`
   * holds the ones parked on the refresh with their original 401, `retrying`
   * the ones whose single retry is outstanding, `returned` what each request
   * handed back to its caller.
   */
  datatype GatewayState = GatewayState(
    inFlight: bool,
    refreshCalls: nat,
    settlements: nat,
    waiting: map<nat, QueryResult>,
    retrying: set<nat>,
    returned: map<nat, QueryResult>)

  const InitialGateway := GatewayState(false, 0, 0, map[], {}, map[])

  predicate Unseen(g: GatewayState, id: nat) {
    id !in g.waiting && id !in g.retrying && id !in g.returned
  }

  /**
   * At most one refresh is pending, it is pending exactly while requests wait
   * on it, every refresh call but the pending one has settled, only 401s wait,
   * and each request is in one phase.
   */
  predicate GatewayInvariant(g: GatewayState) {
    (g.inFlight <==> g.waiting != map[])
    && g.refreshCalls == g.settlements + (if g.inFlight then 1 else 0)
    && (forall id :: id in g.waiting ==> Is401(g.waiting[id]))
    && g.waiting.Keys !! g.retrying && g.waiting.Keys !! g.returned.Keys && g.retrying !! g.returned.Keys
  }

  /**
   * A request's first response. Anything but a 401 is returned as it is; a 401
   * parks the request and starts a refresh unless one is pending.
   */
  function Respond(g: GatewayState, id: nat, result: QueryResult): (r: GatewayState)
    requires Unseen(g, id)
    ensures GatewayInvariant(g) ==> GatewayInvariant(r)
    ensures !Is401(result) ==> r == g.(returned := g.returned[id := result])
    ensures Is401(result) ==> r.inFlight && id in r.waiting && r.returned == g.returned
    ensures r.refreshCalls == g.refreshCalls + (if Is401(result) && !g.inFlight then 1 else 0)
  {
    if !Is401(result) then g.(returned := g.returned[id := result])
    else
      var calls := if g.inFlight then g.refreshCalls else g.refreshCalls + 1;
      g.(inFlight := true, refreshCalls := calls, waiting := g.waiting[id := result])
  }

  /**
   * The refresh settles and `refreshPromise` is cleared. On success every waiter
   * goes on to its retry; on failure every waiter returns its original 401.
   */
  function Settle(g: GatewayState, ok: bool): (r: GatewayState)
    requires g.inFlight
    ensures GatewayInvariant(g) ==> GatewayInvariant(r)
    ensures !r.inFlight && r.waiting == map[] && r.refreshCalls == g.refreshCalls && r.settlements == g.settlements + 1
    ensures ok ==> r.retrying == g.retrying + g.waiting.Keys && r.returned == g.returned
    ensures !ok ==> r.retrying == g.retrying && r.returned == g.returned + g.waiting
  {
    var base := g.(inFlight := false, settlements := g.settlements + 1, waiting := map[]);
    if ok then base.(retrying := g.retrying + g.waiting.Keys)
    else base.(returned := g.returned + g.waiting)
  }

  /** The retry's response is returned as it is, even another 401: there is no second refresh. */
  function RetryDone(g: GatewayState, id: nat, result: QueryResult): (r: GatewayState)
    requires id in g.retrying
    ensures GatewayInvariant(g) ==> GatewayInvariant(r)
    ensures r.returned == g.returned[id := result] && id !in r.retrying
    ensures r.inFlight == g.inFlight && r.refreshCalls == g.refreshCalls
  {
    g.(retrying := g.retrying - {id}, returned := g.returned[id := result])
  }

  datatype GatewayEvent =
    | FirstResponse(id: nat, result: QueryResult)
    | RefreshSettled(ok: bool)
    | RetryResponse(id: nat, result: QueryResult)

  /** One event, or None when it cannot happen in `g`. */
  function Step(g: GatewayState, e: GatewayEvent): Option<GatewayState> {
    match e
    case FirstResponse(id, result) => if Unseen(g, id) then Some(Respond(g, id, result)) else None
    case RefreshSettled(ok) => if g.inFlight then Some(Settle(g, ok)) else None
    case RetryResponse(id, result) => if id in g.retrying then Some(RetryDone(g, id, result)) else None
  }

  /** A run of events from `g`, or None if one of them cannot happen. */
  function Run(g: GatewayState, events: seq<GatewayEvent>): Option<GatewayState>
    decreases |events|
  {
    if events == [] then Some(g)
    else match Step(g, events[0])
      case None => None
      case Some(g') => Run(g', events[1..])
  }

  lemma {:induction false} RunPreserves(g: GatewayState, events: seq<GatewayEvent>)
    requires GatewayInvariant(g)
    ensures Run(g, events).Some? ==> GatewayInvariant(Run(g, events).value)
    decreases |events|
  {
    if events != [] {
      match Step(g, events[0])
      case None =>
      case Some(g') => RunPreserves(g', events[1..]);
    }
  }

  /**
   * In every reachable state at most one refresh call has not settled: between
   * two settlements at most one refresh is issued.
   */
  lemma OneRefreshAtATime(events: seq<GatewayEvent>)
    ensures Run(InitialGateway, events).Some? ==>
      var g := Run(InitialGateway, events).value;
      GatewayInvariant(g) && g.settlements <= g.refreshCalls <= g.settlements + 1
  {
    RunPreserves(InitialGateway, events);
  }

  /** A 401 while a refresh is pending waits on it and issues no call of its own. */
  lemma PendingRefreshIsShared(g: GatewayState, id: nat, result: QueryResult)
    requires GatewayInvariant(g) && g.inFlight && Unseen(g, id) && Is401(result)
    ensures var r := Respond(g, id, result);
      r.refreshCalls == g.refreshCalls && r.waiting == g.waiting[id := result]
  {
  }

  /** Once the refresh has settled, either way, the next 401 starts a new one. */
  lemma SettledAllowsNewCycle(g: GatewayState, ok: bool, id: nat, result: QueryResult)
    requires GatewayInvariant(g) && g.inFlight && Unseen(g, id) && Is401(result)
    ensures Unseen(Settle(g, ok), id)
    ensures Respond(Settle(g, ok), id, result).refreshCalls == g.refreshCalls + 1
  {
  }

  /**
   * Every waiter of one refresh meets the same outcome: on success each is
   * retried once, on failure each returns the 401 it got first.
   */
  lemma WaitersShareOutcome(g: GatewayState, ok: bool, id: nat)
    requires GatewayInvariant(g) && g.inFlight && id in g.waiting
    ensures ok ==> id in Settle(g, ok).retrying && id !in Settle(g, ok).returned
    ensures !ok ==> id !in Settle(g, ok).retrying && Settle(g, ok).returned[id] == g.waiting[id] && Is401(g.waiting[id])
  {
  }

  /**
   * The effects of a valid refresh payload, in the order of the source: the
   * access cookie, the server fingerprint when there is one, the credentials.
   */
  method ApplyRefresh(store: AuthStore, d: RefreshData)
    requires store.Valid() && d.accessToken.Some?
    modifies store, store.browser
    ensures store.Valid()
    ensures store.State() == Reduce(old(store.State()), SetCredentials(d.accessToken.value, d.user))
    ensures var b := store.browser;
      b.jar == (if b.hasDocument then SetInJar(old(b.jar), AccessTokenKey, UriCodec.Encode(d.accessToken.value), AccessCookieDays) else old(b.jar))
      && b.storage == (if b.hasWindow && TruthyOpt(d.fingerprintHash) then old(b.storage)[FingerprintKey := d.fingerprintHash.value] else old(b.storage))
  {
    store.browser.SetAccessTokenCookie(d.accessToken.value);
    if TruthyOpt(d.fingerprintHash) {
      store.browser.SaveServerFingerprint(d.fingerprintHash.value);
    }
    store.SetCredentials(d.accessToken.value, d.user);
  }

  /** Each parked request, in turn, dispatches `localLogout`. */
  method LogoutWaiters(store: AuthStore, parked: set<nat>)
    requires store.Valid() && parked != {}
    modifies store, store.browser
    ensures store.Valid() && store.browser.storage == old(store.browser.storage)
    ensures store.State() == Reduce(old(store.State()), LocalLogout)
    ensures store.browser.jar == if store.browser.hasDocument then RemoveFromJar(old(store.browser.jar), AccessTokenKey) else old(store.browser.jar)
  {
    var pending := parked;
    ghost var state0 := store.State();
    ghost var jar0 := store.browser.jar;
    ghost var gone := RemoveFromJar(jar0, AccessTokenKey);
    while pending != {}
      invariant pending <= parked
      invariant store.Valid() && store.browser.storage == old(store.browser.storage)
      invariant store.State() == if pending == parked then state0 else Reduce(state0, LocalLogout)
      invariant store.browser.jar == if pending == parked || !store.browser.hasDocument then jar0 else gone
      modifies store, store.browser
      decreases pending
    {
      var id :| id in pending;
      store.LocalLogout();
      LogoutIdempotent(state0, jar0);
      pending := pending - {id};
    }
  }

  // ---------------------------------------------------------------------------
  // The gateway over mutable state
  // ---------------------------------------------------------------------------

  /** `refreshPromise` and the requests in progress, next to the store the gateway dispatches to. */
  class Gateway {
    var inFlight: bool
    var refreshCalls: nat
    var settlements: nat
    var waiting: map<nat, QueryResult>
    var retrying: set<nat>
    var returned: map<nat, QueryResult>
    const store: AuthStore

    function Model(): GatewayState
      reads this
    {
      GatewayState(inFlight, refreshCalls, settlements, waiting, retrying, returned)
    }

    ghost predicate Valid()
      reads this, store, store.browser
    {
      store.Valid() && GatewayInvariant(Model())
    }

    constructor (store: AuthStore)
      requires store.Valid()
      ensures Valid() && Model() == InitialGateway && this.store == store
    {
      this.store := store;
      inFlight := false;
      refreshCalls := 0;
      settlements := 0;
      waiting := map[];
      retrying := {};
      returned := map[];
    }

    /** The first response to request `id`: returned at once unless it is a 401. */
    method OnResponse(id: nat, result: QueryResult) returns (done: Option<QueryResult>)
      requires Valid() && Unseen(Model(), id)
      modifies this
      ensures Valid() && Model() == Respond(old(Model()), id, result)
      ensures done == if Is401(result) then None else Some(result)
    {
      if !Is401(result) {
        returned := returned[id := result];
        return Some(result);
      }
      if !inFlight {
        refreshCalls := refreshCalls + 1;
        inFlight := true;
      }
      waiting := waiting[id := result];
      done := None;
    }

    /**
     * The refresh settles with `response`. A valid payload sets the access cookie,
     * the fingerprint (when the payload has one) and the credentials; then the
     * pending handle is cleared and every waiter moves to its retry. An invalid
     * one clears the handle and every waiter dispatches `localLogout`.
     */
    method OnRefreshSettled(response: RefreshResult)
      requires Valid() && inFlight
      modifies this, store, store.browser
      ensures Valid() && Model() == Settle(old(Model()), ValidateRefresh(response).Ok?)
      ensures var b := store.browser;
        match ValidateRefresh(response)
        case Ok(d) =>
          store.State() == Reduce(old(store.State()), SetCredentials(d.accessToken.value, d.user))
          && b.jar == (if b.hasDocument then SetInJar(old(b.jar), AccessTokenKey, UriCodec.Encode(d.accessToken.value), AccessCookieDays) else old(b.jar))
          && b.storage == (if b.hasWindow && TruthyOpt(d.fingerprintHash) then old(b.storage)[FingerprintKey := d.fingerprintHash.value] else old(b.storage))
        case Err(_) =>
          store.State() == Reduce(old(store.State()), LocalLogout)
          && b.jar == (if b.hasDocument then RemoveFromJar(old(b.jar), AccessTokenKey) else old(b.jar))
          && b.storage == old(b.storage)
    {
      var outcome := ValidateRefresh(response);
      if outcome.Ok? {
        ApplyRefresh(store, outcome.value);
        SettleFields(true);
      } else {
        var parked := waiting.Keys;
        SettleFields(false);
        LogoutWaiters(store, parked);
      }
    }

    /**
     * The `finally` that clears the pending handle, and what becomes of the
     * waiters: all move to their retry, or all answer with their original 401.
     */
    method SettleFields(ok: bool)
      requires Valid() && inFlight
      modifies this
      ensures Valid() && Model() == Settle(old(Model()), ok)
    {
      inFlight := false;
      settlements := settlements + 1;
      if ok {
        retrying := retrying + waiting.Keys;
      } else {
        returned := returned + waiting;
      }
      waiting := map[];
    }

    /** The response to the one retry of request `id`, returned as it is. */
    method OnRetryResponse(id: nat, result: QueryResult) returns (done: QueryResult)
      requires Valid() && id in retrying
      modifies this
      ensures Valid() && Model() == RetryDone(old(Model()), id, result)
      ensures done == result
    {
      retrying := retrying - {id};
      returned := returned[id := result];
      done := result;
    }
  }
}
