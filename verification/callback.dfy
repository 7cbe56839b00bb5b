/** `Micropub._handle_response`: the callback after the authorization server
    redirects back. It rediscovers the endpoints from the `me` query parameter,
    validates the code at the authorization endpoint, then requests an access
    token from the token endpoint, and yields the tuple
    `(confirmed_me, access_token, next_url, error)`. */
module Callback {
  import opened Wrappers
  import opened Http
  import opened Discovery

  /** Both POSTs send an empty client id. */
  const ClientId := ""

  const NoAuthorizationEndpointText := "no authorization endpoint"
  const MissingMeText := "missing \"me\" in response"

  /** The callback's query parameters; each may be absent. */
  datatype Query = Query(me: Option<string>, code: Option<string>, state: Option<string>)

  /** Why a callback did not end with an access token. The formatted messages
      of the source are kept as the values they embed. */
  datatype ErrorKind =
    | NoAuthorizationEndpoint
    | AuthorizationFailed(error: Option<FieldValues>, description: Option<FieldValues>)
    | MissingMe
    | BadTokenResponse(status: int)
    | MissingAccessToken(data: FormData)

  /** The tuple handed to the decorated view. */
  datatype AuthResult = AuthResult(
    confirmedMe: Option<string>,
    accessToken: Option<string>,
    nextUrl: Option<string>,
    error: Option<ErrorKind>)

  /** One callback: the requests issued, in order, and the tuple returned or
      the fault raised. */
  datatype Exchange = Exchange(requests: seq<Request>, outcome: Result<AuthResult, Fault>)

  /** The text of an error: the two literal messages exactly, and the fixed
      leading words of the formatted ones. Never empty, so the view always
      sees a truthy error. */
  function ErrorText(e: ErrorKind): (m: string)
    ensures m != ""
    ensures m == NoAuthorizationEndpointText <==> e.NoAuthorizationEndpoint?
    ensures m == MissingMeText <==> e.MissingMe?
  {
    match e
    case NoAuthorizationEndpoint => NoAuthorizationEndpointText
    case AuthorizationFailed(_, _) => "authorization failed. "
    case MissingMe => MissingMeText
    case BadTokenResponse(_) => "bad response from token endpoint: "
    case MissingAccessToken(_) => "response from token endpoint missing access_token: "
  }

  /** The result invariant: no error exactly when there is an access token, and
      an access token only with a confirmed identity (so an absent identity
      always comes with an error). */
  predicate WellFormed(t: AuthResult) {
    && (t.error.None? <==> t.accessToken.Some?)
    && (t.accessToken.Some? ==> t.confirmedMe.Some?)
  }

  /** The body of the code-validation POST. */
  function AuthBody(code: Option<string>, redirectUri: string, state: Option<string>): (b: map<string, Option<string>>)
    ensures b.Keys == {"code", "client_id", "redirect_uri", "state"}
    ensures b["code"] == code && b["client_id"] == Some(ClientId)
    ensures b["redirect_uri"] == Some(redirectUri) && b["state"] == state
  {
    map["code" := code, "client_id" := Some(ClientId), "redirect_uri" := Some(redirectUri), "state" := state]
  }

  /** The body of the token POST: the code-validation fields plus the confirmed identity. */
  function TokenBody(code: Option<string>, me: string, redirectUri: string, state: Option<string>): (b: map<string, Option<string>>)
    ensures b.Keys == AuthBody(code, redirectUri, state).Keys + {"me"}
    ensures b["me"] == Some(me)
    ensures forall k :: k in AuthBody(code, redirectUri, state) ==> b[k] == AuthBody(code, redirectUri, state)[k]
  {
    AuthBody(code, redirectUri, state)["me" := Some(me)]
  }

  /** Token stage, reached once the identity is confirmed: POST to the token
      endpoint (a missing endpoint is handed to the HTTP client as `None`,
      which raises) and read `access_token` from a 200 reply. */
  function RequestToken(sent: seq<Request>, token: Option<string>, code: Option<string>, confirmed: string,
                        redirectUri: string, state: Option<string>, tokenReply: Reply): (r: Exchange)
    ensures r.outcome.Success? ==> WellFormed(r.outcome.value) && r.outcome.value.confirmedMe == Some(confirmed)
    ensures r.outcome.Success? ==> r.outcome.value.nextUrl == state
    ensures token.Some? && tokenReply.status != StatusOk ==>
      r.outcome == Success(AuthResult(Some(confirmed), None, state, Some(BadTokenResponse(tokenReply.status))))
    ensures token.Some? && tokenReply.status == StatusOk && "access_token" !in tokenReply.form ==>
      r.outcome == Success(AuthResult(Some(confirmed), None, state, Some(MissingAccessToken(tokenReply.form))))
    ensures r.outcome.Failure? <==> token.None?
    ensures token.None? ==> r == Exchange(sent, Failure(MissingUrl))
    ensures token.Some? ==> r.requests == sent + [Post(token.value, TokenBody(code, confirmed, redirectUri, state))]
    ensures r.outcome.Success? && r.outcome.value.accessToken.Some? <==>
      token.Some? && tokenReply.status == StatusOk && "access_token" in tokenReply.form
    ensures r.outcome.Success? && r.outcome.value.accessToken.Some? ==>
      r.outcome.value.accessToken.value == tokenReply.form["access_token"][0]
  {
    match token
    case None => Exchange(sent, Failure(MissingUrl))
    case Some(url) =>
      var issued := sent + [Post(url, TokenBody(code, confirmed, redirectUri, state))];
      var outcome :=
        if tokenReply.status != StatusOk then
          AuthResult(Some(confirmed), None, state, Some(BadTokenResponse(tokenReply.status)))
        else if "access_token" !in tokenReply.form then
          AuthResult(Some(confirmed), None, state, Some(MissingAccessToken(tokenReply.form)))
        else
          AuthResult(Some(confirmed), Some(tokenReply.form["access_token"][0]), state, None);
      Exchange(issued, Success(outcome))
  }

  /** The callback. `redirectUri` is this view's own external URL, `query` its
      query parameters, `page` the reply to the discovery GET of the query's
      `me`, and `authReply` and `tokenReply` the replies the two POSTs would
      receive; a reply whose request is never issued is never consulted. */
  function HandleResponse(redirectUri: string, query: Query, page: Page, authReply: Reply, tokenReply: Reply)
    : (r: Exchange)
    // the result invariant and the echo of `state`
    ensures r.outcome.Success? ==> WellFormed(r.outcome.value)
    ensures r.outcome.Success? ==> r.outcome.value.nextUrl == query.state
    // the shape of the request trace: one GET, then at most two POSTs
    ensures |r.requests| <= 3
    ensures r.requests == [] <==> query.me.None?
    ensures query.me.Some? ==> r.requests[0] == Get(query.me.value)
    ensures |r.requests| >= 2 ==>
      && Discover(page).Success?
      && Truthy(Discover(page).value.authorization)
      && r.requests[1] == Post(Discover(page).value.authorization.value, AuthBody(query.code, redirectUri, query.state))
    ensures |r.requests| == 3 ==>
      && authReply.status == StatusOk && "me" in authReply.form
      && Discover(page).value.token.Some?
      && r.requests[2] == Post(Discover(page).value.token.value,
                               TokenBody(query.code, authReply.form["me"][0], redirectUri, query.state))
    // the confirmed identity comes from the authorization endpoint, after the token POST was issued
    ensures r.outcome.Success? && r.outcome.value.confirmedMe.Some? ==>
      && |r.requests| == 3
      && r.outcome.value.confirmedMe.value == authReply.form["me"][0]
    ensures r.outcome.Success? && r.outcome.value.accessToken.Some? ==>
      && tokenReply.status == StatusOk && "access_token" in tokenReply.form
      && r.outcome.value.accessToken.value == tokenReply.form["access_token"][0]
  {
    match query.me
    case None => Exchange([], Failure(MissingUrl))
    case Some(me) =>
      var fetched := [Get(me)];
      match Discover(page)
      case Failure(f) => Exchange(fetched, Failure(f))
      case Success(found) =>
        if !Truthy(found.authorization) then
          Exchange(fetched, Success(AuthResult(None, None, query.state, Some(NoAuthorizationEndpoint))))
        else
          var sent := fetched + [Post(found.authorization.value, AuthBody(query.code, redirectUri, query.state))];
          if authReply.status != StatusOk then
            var failed := AuthorizationFailed(Field(authReply.form, "error"), Field(authReply.form, "error_description"));
            Exchange(sent, Success(AuthResult(None, None, query.state, Some(failed))))
          else if "me" !in authReply.form then
            Exchange(sent, Success(AuthResult(None, None, query.state, Some(MissingMe))))
          else
            RequestToken(sent, found.token, query.code, authReply.form["me"][0], redirectUri, query.state, tokenReply)
  }
}
