/** `authorize()`: the three-way decision over the stored token set —
    return it, refresh it, or run the PKCE flow — and the process-wide PKCE
    client. The client's token store is explicit state; refreshing, the
    authorization request, the interactive consent and the code exchange
    are oracles. */
module GoogleAuth {
  import opened Wrappers
  import opened Text
  import opened Calls

  const GOOGLE_SCOPES: seq<string> := ["https://www.googleapis.com/auth/contacts.readonly"]

  const REDIRECT_URI := "https://raycast.com/redirect?packageName=Extension"

  const CLIENT_DESCRIPTION := "Connect your Google account to access your contacts"

  const AUTH_ENDPOINT := "https://accounts.google.com/o/oauth2/v2/auth"

  datatype PkceClient = PkceClient(redirectUri: string, description: string)

  /** Module-level state of one process: the lazily built PKCE client. */
  datatype Session = Session(oauthClient: Option<PkceClient>)

  /** The client `GetOAuthClient` hands out, the session afterwards, and the
      calls made. */
  datatype ClientLookup = ClientLookup(client: PkceClient, session: Session, calls: seq<Call>)

  /** A stored token set. `expired` is what the client's `isExpired()`
      reports at the time of the call. */
  datatype TokenSet = TokenSet(accessToken: string, refreshToken: Option<string>, expired: bool)

  /** The process's session and the client's token store. */
  datatype AuthState = AuthState(session: Session, tokens: Option<TokenSet>)

  /** What the collaborators answer when called: the refreshed token set,
      whether the authorization request is built, the authorization code of
      the interactive consent, and what the store holds after the code
      exchange. Each may throw, carrying an error message. */
  datatype AuthOracles = AuthOracles(
    refresh: Result<TokenSet, string>,
    request: Outcome<string>,
    consent: Result<string, string>,
    exchange: Result<Option<TokenSet>, string>)

  /** The access token returned or the error thrown, the state afterwards,
      and the calls made. */
  datatype AuthOutcome = AuthOutcome(result: Result<string, string>, state: AuthState, calls: seq<Call>)

  /** The scopes joined with single spaces. */
  function JoinScopes(scopes: seq<string>): string {
    if |scopes| == 0 then ""
    else if |scopes| == 1 then scopes[0]
    else scopes[0] + " " + JoinScopes(scopes[1..])
  }

  /** The parameters of the authorization request for a client id. */
  function AuthParams(clientId: string): (p: AuthorizationParams)
    ensures p.endpoint == AUTH_ENDPOINT && p.clientId == clientId
    ensures p.scope == "https://www.googleapis.com/auth/contacts.readonly"
  {
    AuthorizationParams(AUTH_ENDPOINT, clientId, JoinScopes(GOOGLE_SCOPES))
  }

  /** `getOAuthClient()`: the session's client, built on first use with the
      fixed redirect target; the construction is the only call it makes. */
  function GetOAuthClient(s: Session): (r: ClientLookup)
    ensures r.session.oauthClient == Some(r.client)
    ensures s.oauthClient.Some? ==> r.client == s.oauthClient.value && r.session == s && r.calls == []
    ensures s.oauthClient.None? ==> r.calls == [NewPkceClient(REDIRECT_URI)] && r.client.redirectUri == REDIRECT_URI
  {
    match s.oauthClient
    case Some(c) => ClientLookup(c, s, [])
    case None =>
      var c := PkceClient(REDIRECT_URI, CLIENT_DESCRIPTION);
      ClientLookup(c, Session(Some(c)), [NewPkceClient(REDIRECT_URI)])
  }

  /** A token set is stored and its access token is non-empty. */
  predicate HasAccessToken(tokens: Option<TokenSet>) {
    tokens.Some? && tokens.value.accessToken != ""
  }

  /** The stored token set would be refreshed: it has an access token, a
      non-empty refresh token, and is expired. */
  predicate NeedsRefresh(tokens: Option<TokenSet>) {
    HasAccessToken(tokens) && Truthy(tokens.value.refreshToken) && tokens.value.expired
  }

  /** The token read back from the store: its access token, or the empty
      string when nothing is stored. */
  function StoredAccessToken(tokens: Option<TokenSet>): (token: string)
    ensures token == "" <==> !HasAccessToken(tokens)
    ensures token != "" ==> tokens == Some(tokens.value) && tokens.value.accessToken == token
  {
    if tokens.Some? then tokens.value.accessToken else ""
  }

  /** `authorize()`. With a stored access token: refresh once if the set is
      expired and has a refresh token (a thrown refresh propagates), and
      otherwise return the stored token as is, expired or not. Without one:
      authorization request, interactive consent, code exchange, in that
      order, each of which may throw. Whatever succeeds returns the token
      the store holds afterwards. */
  function Authorize(st: AuthState, clientId: string, o: AuthOracles): (out: AuthOutcome)
    ensures out.state.session.oauthClient.Some?
    ensures st.session.oauthClient.Some? ==> out.state.session == st.session
    ensures |out.calls| > 0
    ensures out.calls[0] == NewPkceClient(REDIRECT_URI) <==> st.session.oauthClient.None?
    ensures forall i :: 0 < i < |out.calls| ==> !out.calls[i].NewPkceClient?
    ensures out.result.Success? ==> out.result.value == StoredAccessToken(out.state.tokens)
    ensures out.result.Failure? ==> out.state.tokens == st.tokens
    ensures HasAccessToken(st.tokens) ==> !StartsFlow(out.calls)
    ensures !Fetches(out.calls)
    ensures !NeedsRefresh(st.tokens) ==> RefreshTokens !in out.calls
  {
    var lookup := GetOAuthClient(st.session);
    var session := lookup.session;
    var calls := lookup.calls + [GetTokens];
    var tokens := st.tokens;
    if HasAccessToken(tokens) then
      if Truthy(tokens.value.refreshToken) && tokens.value.expired then
        match o.refresh
        case Failure(e) =>
          AuthOutcome(Failure(e), AuthState(session, tokens), calls + [RefreshTokens])
        case Success(refreshed) =>
          AuthOutcome(Success(refreshed.accessToken), AuthState(session, Some(refreshed)),
                      calls + [RefreshTokens, SetTokens, GetTokens])
      else
        AuthOutcome(Success(tokens.value.accessToken), AuthState(session, tokens), calls)
    else
      var calls := calls + [AuthorizationRequest(AuthParams(clientId))];
      match o.request
      case Fail(e) => AuthOutcome(Failure(e), AuthState(session, tokens), calls)
      case Pass =>
        var calls := calls + [InteractiveAuthorize];
        match o.consent
        case Failure(e) => AuthOutcome(Failure(e), AuthState(session, tokens), calls)
        case Success(code) =>
          var calls := calls + [ExchangeCode(code)];
          match o.exchange
          case Failure(e) => AuthOutcome(Failure(e), AuthState(session, tokens), calls)
          case Success(stored) =>
            AuthOutcome(Success(StoredAccessToken(stored)), AuthState(session, stored), calls + [GetTokens])
  }

  /** The calls `Authorize` makes after building the client, if it builds it. */
  function AfterClient(st: AuthState, out: AuthOutcome): seq<Call>
    requires |out.calls| >= |GetOAuthClient(st.session).calls|
  {
    out.calls[|GetOAuthClient(st.session).calls|..]
  }

  /** A stored, unexpired access token is returned as is: one store read,
      no refresh, no authorization flow, nothing written. */
  lemma ValidTokenReturnedAsIs(st: AuthState, clientId: string, o: AuthOracles)
    requires HasAccessToken(st.tokens) && !st.tokens.value.expired
    ensures var out := Authorize(st, clientId, o);
      && out.result == Success(st.tokens.value.accessToken)
      && out.state.tokens == st.tokens
      && AfterClient(st, out) == [GetTokens]
  {
  }

  /** An expired token without a refresh token is still returned, stale:
      neither a refresh nor a new authorization is attempted. */
  lemma ExpiredWithoutRefreshTokenReturnedStale(st: AuthState, clientId: string, o: AuthOracles)
    requires HasAccessToken(st.tokens) && st.tokens.value.expired && !Truthy(st.tokens.value.refreshToken)
    ensures var out := Authorize(st, clientId, o);
      && out.result == Success(st.tokens.value.accessToken)
      && out.state.tokens == st.tokens
      && AfterClient(st, out) == [GetTokens]
  {
  }

  /** An expired token with a refresh token is refreshed exactly once. On
      success the new set is stored before the token is read back; a thrown
      refresh propagates without falling back to the authorization flow. */
  lemma ExpiredWithRefreshTokenRefreshedOnce(st: AuthState, clientId: string, o: AuthOracles)
    requires NeedsRefresh(st.tokens)
    ensures var out := Authorize(st, clientId, o);
      && multiset(out.calls)[RefreshTokens] == 1
      && !StartsFlow(out.calls)
      && (o.refresh.Failure? ==>
            out.result == Failure(o.refresh.error) && AfterClient(st, out) == [GetTokens, RefreshTokens])
      && (o.refresh.Success? ==>
            && out.state.tokens == Some(o.refresh.value)
            && out.result == Success(o.refresh.value.accessToken)
            && AfterClient(st, out) == [GetTokens, RefreshTokens, SetTokens, GetTokens])
  {
  }

  /** Without a usable stored token the PKCE flow runs: one authorization
      request for the read-only contacts scope, one interactive consent,
      one code exchange, in that order, and the result is what the store
      then holds. A step that throws ends the flow with its error. */
  lemma MissingTokenRunsFlowInOrder(st: AuthState, clientId: string, o: AuthOracles)
    requires !HasAccessToken(st.tokens)
    ensures var out := Authorize(st, clientId, o);
      var request := AuthorizationRequest(AuthorizationParams(AUTH_ENDPOINT, clientId, "https://www.googleapis.com/auth/contacts.readonly"));
      && RefreshTokens !in out.calls
      && (o.request.Fail? ==> out.result == Failure(o.request.error) && AfterClient(st, out) == [GetTokens, request])
      && (o.request.Pass? && o.consent.Failure? ==>
            out.result == Failure(o.consent.error) && AfterClient(st, out) == [GetTokens, request, InteractiveAuthorize])
      && (o.request.Pass? && o.consent.Success? && o.exchange.Failure? ==>
            && out.result == Failure(o.exchange.error)
            && AfterClient(st, out) == [GetTokens, request, InteractiveAuthorize, ExchangeCode(o.consent.value)])
      && (o.request.Pass? && o.consent.Success? && o.exchange.Success? ==>
            && out.state.tokens == o.exchange.value
            && out.result == Success(StoredAccessToken(o.exchange.value))
            && AfterClient(st, out) == [GetTokens, request, InteractiveAuthorize, ExchangeCode(o.consent.value), GetTokens])
  {
    assert JoinScopes(GOOGLE_SCOPES) == "https://www.googleapis.com/auth/contacts.readonly";
  }

  /** The PKCE client is built at most once per process: over two calls in
      a row, a construction appears only as the very first call, only when
      the process had no client yet, and with the fixed redirect target. */
  lemma ClientBuiltOnce(st: AuthState, clientId: string, o1: AuthOracles, o2: AuthOracles)
    ensures var first := Authorize(st, clientId, o1);
      var both := first.calls + Authorize(first.state, clientId, o2).calls;
      && (forall i :: 0 < i < |both| ==> !both[i].NewPkceClient?)
      && (both[0].NewPkceClient? <==> st.session.oauthClient.None?)
      && (both[0].NewPkceClient? ==> both[0].redirectUri == REDIRECT_URI)
  {
  }
}
