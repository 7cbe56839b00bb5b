/** Properties of the callback that relate its outcome to its inputs across
    whole classes of runs. */
module CallbackProperties {
  import opened Wrappers
  import opened Http
  import opened Discovery
  import opened Callback

  /** Discovery succeeded for the callback and found a usable authorization endpoint. */
  predicate HasAuthorizationEndpoint(page: Page) {
    Discover(page).Success? && Truthy(Discover(page).value.authorization)
  }

  /** Without a usable authorization endpoint the callback returns exactly
      `(None, None, state, 'no authorization endpoint')` and issues no POST. */
  lemma NoAuthorizationEndpointIssuesNoPost(redirectUri: string, query: Query, page: Page, authReply: Reply, tokenReply: Reply)
    ensures var r := HandleResponse(redirectUri, query, page, authReply, tokenReply);
      (query.me.Some? && Discover(page).Success? && !HasAuthorizationEndpoint(page)) ==>
      (&& r.outcome == Success(AuthResult(None, None, query.state, Some(NoAuthorizationEndpoint)))
      && ErrorText(r.outcome.value.error.value) == "no authorization endpoint"
      && forall k :: 0 <= k < |r.requests| ==> !r.requests[k].Post?)
  {
  }

  /** A non-200 reply to the code validation fails the callback with no identity,
      no token, the endpoint's `error` and `error_description` fields, and no token POST. */
  lemma AuthorizationRejected(redirectUri: string, query: Query, page: Page, authReply: Reply, tokenReply: Reply)
    ensures var r := HandleResponse(redirectUri, query, page, authReply, tokenReply);
      (query.me.Some? && HasAuthorizationEndpoint(page) && authReply.status != StatusOk) ==>
      (&& |r.requests| == 2
      && r.outcome == Success(AuthResult(None, None, query.state,
           Some(AuthorizationFailed(Field(authReply.form, "error"), Field(authReply.form, "error_description"))))))
  {
  }

  /** A 200 reply to the code validation without `me` fails the callback with
      `'missing "me" in response'`, no identity, no token and no token POST. */
  lemma MissingMeRejected(redirectUri: string, query: Query, page: Page, authReply: Reply, tokenReply: Reply)
    ensures var r := HandleResponse(redirectUri, query, page, authReply, tokenReply);
      (&& query.me.Some? && HasAuthorizationEndpoint(page)
       && authReply.status == StatusOk && "me" !in authReply.form) ==>
      (&& |r.requests| == 2
      && r.outcome == Success(AuthResult(None, None, query.state, Some(MissingMe)))
      && ErrorText(MissingMe) == "missing \"me\" in response")
  {
  }

  /** Token stage failures keep the confirmed identity: a non-200 token reply or
      one without `access_token` yields the first `me` value of the
      authorization reply, no token, and an error. */
  lemma TokenFailureKeepsIdentity(redirectUri: string, query: Query, page: Page, authReply: Reply, tokenReply: Reply)
    ensures var r := HandleResponse(redirectUri, query, page, authReply, tokenReply);
      (&& query.me.Some? && HasAuthorizationEndpoint(page)
       && authReply.status == StatusOk && "me" in authReply.form
       && Discover(page).value.token.Some?
       && (tokenReply.status != StatusOk || "access_token" !in tokenReply.form)) ==>
      (&& |r.requests| == 3
      && r.outcome.Success?
      && r.outcome.value.confirmedMe == Some(authReply.form["me"][0])
      && r.outcome.value.accessToken.None?
      && r.outcome.value.error == Some(
           if tokenReply.status != StatusOk then BadTokenResponse(tokenReply.status)
           else MissingAccessToken(tokenReply.form)))
  {
  }

  /** Once the identity is confirmed, a missing token endpoint is handed to the
      HTTP client as `None`, which raises: the callback yields no tuple at all. */
  lemma MissingTokenEndpointRaises(redirectUri: string, query: Query, page: Page, authReply: Reply, tokenReply: Reply)
    ensures var r := HandleResponse(redirectUri, query, page, authReply, tokenReply);
      (&& query.me.Some? && HasAuthorizationEndpoint(page)
       && authReply.status == StatusOk && "me" in authReply.form
       && Discover(page).value.token.None?) ==>
      (|r.requests| == 2 && r.outcome == Failure(MissingUrl))
  {
  }

  /** The callback ends with an access token and no error exactly when every
      stage succeeds: the query names `me`, discovery finds a usable
      authorization endpoint and a token endpoint, the code validation replies
      200 with `me`, and the token request replies 200 with `access_token`. */
  lemma FullSuccessIff(redirectUri: string, query: Query, page: Page, authReply: Reply, tokenReply: Reply)
    ensures var r := HandleResponse(redirectUri, query, page, authReply, tokenReply);
      (r.outcome.Success? && r.outcome.value.error.None?) <==>
        && query.me.Some?
        && HasAuthorizationEndpoint(page)
        && Discover(page).value.token.Some?
        && authReply.status == StatusOk && "me" in authReply.form
        && tokenReply.status == StatusOk && "access_token" in tokenReply.form
  {
  }

  /** The returned identity is the authorization endpoint's, not the query's:
      two callbacks that differ only in the `me` they were given (and so in
      the URL they fetched) return the same tuple. */
  lemma OutcomeIgnoresQueryMe(redirectUri: string, me1: string, me2: string, code: Option<string>, state: Option<string>,
                              page: Page, authReply: Reply, tokenReply: Reply)
    ensures HandleResponse(redirectUri, Query(Some(me1), code, state), page, authReply, tokenReply).outcome
         == HandleResponse(redirectUri, Query(Some(me2), code, state), page, authReply, tokenReply).outcome
  {
  }

  /** The token reply matters only if the token POST was issued. */
  lemma TokenReplyUnusedWithoutTokenPost(redirectUri: string, query: Query, page: Page, authReply: Reply, tokenReply: Reply, other: Reply)
    requires |HandleResponse(redirectUri, query, page, authReply, tokenReply).requests| < 3
    ensures HandleResponse(redirectUri, query, page, authReply, other)
         == HandleResponse(redirectUri, query, page, authReply, tokenReply)
  {
  }

  /** The authorization reply matters only if the code-validation POST was issued. */
  lemma AuthReplyUnusedWithoutAuthPost(redirectUri: string, query: Query, page: Page, authReply: Reply, tokenReply: Reply, other: Reply)
    requires |HandleResponse(redirectUri, query, page, authReply, tokenReply).requests| < 2
    ensures HandleResponse(redirectUri, query, page, other, tokenReply)
         == HandleResponse(redirectUri, query, page, authReply, tokenReply)
  {
  }

  /** Both POSTs carry the same code, empty client id, redirect URI and state. */
  lemma PostsShareFields(redirectUri: string, query: Query, page: Page, authReply: Reply, tokenReply: Reply)
    ensures var rs := HandleResponse(redirectUri, query, page, authReply, tokenReply).requests;
      |rs| == 3 ==>
      && rs[1].Post? && rs[2].Post?
      && forall k :: k in {"code", "client_id", "redirect_uri", "state"} ==>
           k in rs[1].body && k in rs[2].body && rs[1].body[k] == rs[2].body[k]
  {
  }

  /** An identifier page with an authorization link to
      `https://auth.example/a` and, optionally, a token link to
      `https://auth.example/t`. */
  function AlicePage(withToken: bool): Page {
    Page(200, [Link(["authorization_endpoint"], Some("https://auth.example/a"))]
      + (if withToken then [Link(["token_endpoint"], Some("https://auth.example/t"))] else []))
  }

  /** End to end: the authorization endpoint confirms `https://alice.example/`
      and the token endpoint issues `tok_xyz`. */
  lemma AliceObtainsToken()
    ensures HandleResponse("https://client.example/cb", Query(Some("http://alice.example"), Some("abc123"), Some("/next")),
              AlicePage(true), Reply(200, map["me" := ["https://alice.example/"]]),
              Reply(200, map["access_token" := ["tok_xyz"]])).outcome
         == Success(AuthResult(Some("https://alice.example/"), Some("tok_xyz"), Some("/next"), None))
  {
    var links := AlicePage(true).links;
    assert !Carries(links[1], AuthorizationRel) by { assert links[1].rels == [TokenRel]; }
    assert !Carries(links[0], TokenRel) by { assert links[0].rels == [AuthorizationRel]; }
    assert !Carries(links[0], MicropubRel) by { assert links[0].rels == [AuthorizationRel]; }
    assert !Carries(links[1], MicropubRel) by { assert links[1].rels == [TokenRel]; }
    assert Discover(AlicePage(true)) == Success(Endpoints(Some("https://auth.example/a"), Some("https://auth.example/t"), None));
  }

  /** End to end without a token endpoint: the identity is confirmed, then the
      token POST to a missing URL raises instead of returning a tuple. */
  lemma AliceWithoutTokenEndpointRaises()
    ensures HandleResponse("https://client.example/cb", Query(Some("http://alice.example"), Some("abc123"), Some("/next")),
              AlicePage(false), Reply(200, map["me" := ["https://alice.example/"]]),
              Reply(200, map["access_token" := ["tok_xyz"]])).outcome
         == Failure(MissingUrl)
  {
    var links := AlicePage(false).links;
    assert !Carries(links[0], TokenRel) by { assert links[0].rels == [AuthorizationRel]; }
    assert !Carries(links[0], MicropubRel) by { assert links[0].rels == [AuthorizationRel]; }
    assert Discover(AlicePage(false)) == Success(Endpoints(Some("https://auth.example/a"), None, None));
  }

  /** The callback raises exactly in three cases, each with its own fault: the
      query has no `me` (nothing is sent), discovery hits a link without
      `href` (only the GET is sent), or the identity is confirmed but no token
      endpoint was discovered (the GET and the code validation are sent). */
  lemma RaisesIff(redirectUri: string, query: Query, page: Page, authReply: Reply, tokenReply: Reply)
    ensures var r := HandleResponse(redirectUri, query, page, authReply, tokenReply);
      r.outcome.Failure? <==>
        || query.me.None?
        || Discover(page).Failure?
        || (&& HasAuthorizationEndpoint(page)
            && authReply.status == StatusOk && "me" in authReply.form
            && Discover(page).value.token.None?)
    ensures var r := HandleResponse(redirectUri, query, page, authReply, tokenReply);
      query.me.None? ==> r == Exchange([], Failure(MissingUrl))
    ensures var r := HandleResponse(redirectUri, query, page, authReply, tokenReply);
      query.me.Some? && Discover(page).Failure? ==>
        r == Exchange([Get(query.me.value)], Failure(Discover(page).error))
  {
  }
}
