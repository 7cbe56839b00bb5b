# flask-micropub, modelled in Dafny

This project models the logic of the `flask_micropub` Flask extension. The
extension lets a site sign a user in with IndieAuth and request a Micropub
access token. The model has three decision procedures. The network and the
HTML and form parsing are replaced by abstract inputs.

- **Authorize** (`Micropub.authorize`). The step normalises the user's
  identifier `me`, then discovers its endpoints. When no authorization
  endpoint is found it falls back to `https://indieauth.com/auth`. It then
  builds the redirect parameters `me`, `client_id`, `redirect_uri`, `scope`,
  and adds `state` only when `next` is truthy.
- **Discovery** (`_discover_endpoints`). The fetched identifier page is
  modelled as a status plus its `<link>` elements in document order. Each of
  `authorization_endpoint`, `token_endpoint` and `micropub` resolves on its
  own, by a recursive first-match search.
- **Callback** (`_handle_response`). This is a linear state machine over the
  discovered endpoints and the two POST replies. It yields
  `(confirmed_me, access_token, next_url, error)` or an escaping exception,
  together with the trace of requests it issued.

Files, one module each:
- `wrappers.dfy`: `Option` and `Result`.
- `http.dfy`: replies, requests, faults, decoded forms, Python truthiness.
- `identifier.dfy`: normalisation of `me`.
- `discovery.dfy`: endpoint discovery.
- `authorization.dfy`: the redirect.
- `callback.dfy`: the callback.
- `callback_properties.dfy`: properties of the callback across runs.

Modelling choices that follow the code:
- A bs4 tag is always truthy, so `tag and tag['href']` is the tag's `href`.
  If the first matching `<link>` has no `href`, the lookup raises `KeyError`.
  This is `Fault.MissingHref`. The three lookups run in the order
  authorization, token, micropub, so the first missing `href` in that order
  is the one reported.
- `if not auth_url` treats an empty `href` like a missing one, both in
  `authorize` (fallback) and in the callback (`'no authorization endpoint'`).
- Python's `None` given to the HTTP client as a URL raises
  (`Fault.MissingUrl`). This happens for a callback without a `me` query
  parameter. It also happens when the identity is confirmed but no token
  endpoint was discovered. The code has no "no micropub endpoint found"
  outcome, so neither does the model.
- The callback rediscovers endpoints from the raw `me` query parameter,
  which is not normalised. The identity it returns is the first `me` value
  of the authorization endpoint's reply.
- Both POSTs send `client_id = ''`.
- The form decoder drops blank values. So a decoded field has at least one
  value, and every value is non-empty (`Http.FieldValue`).
- The code implements no CSRF token bound into `state`, no endpoints cached
  in the session, no `Link`-header lookup, and does not return the micropub
  endpoint from the callback. The model has none of them either. Here
  `state` is just `next`.

## Model

| member | source | states |
|---|---|---|
| Identifier.Normalize | flask_micropub.py:29-30 | the normalised identifier always starts with `http://` or `https://`; one that already did is unchanged; otherwise exactly `http://` is prepended |
| Identifier.NormalizeIdempotent | flask_micropub.py:29-30 | normalising twice equals normalising once |
| Identifier.NormalizeKeepsInput | flask_micropub.py:29-30 | the input is the tail of the result, and seven characters are added exactly when the input had no scheme |
| Identifier.NormalizeExamples | flask_micropub.py:29-30 | `example.com` becomes `http://example.com`; `https://example.com` is unchanged |
| Discovery.FirstIndex | flask_micropub.py:120-122 | the search finds nothing exactly when no link carries the rel; otherwise it returns the position of the first link that does |
| Discovery.Lookup | flask_micropub.py:120-126 | absent exactly when no link carries the rel; otherwise the first carrier's `href`, or a raised fault when that first carrier has no `href` |
| Discovery.LookupSeesOnlyCarriers | flask_micropub.py:120-126 | the lookup of a rel gives the same answer on the page and on the sub-sequence of links carrying that rel |
| Discovery.EndpointOf | flask_micropub.py:116-126 | one endpoint resolved on its own: absent for a non-200 page; on a 200 page absent exactly when no link carries the rel, and otherwise the first carrier's `href`, or a raised fault when that carrier has none |
| Discovery.Discover | flask_micropub.py:114-126 | non-200 gives three absent endpoints; otherwise each endpoint is its own rel's lookup, and a missing `href` raises; the fault names the first failing rel in the order authorization, token, micropub |
| Discovery.EndpointIndependent | flask_micropub.py:120-126 | an endpoint depends only on the status and on the links carrying its rel, so other links cannot change it |
| Discovery.HtmlDiscoveryExample | tests/test_micropub_client.py:33-52 | the HTML page of the discovery test yields its three `href`s |
| Discovery.TokenOnlyExample | flask_micropub.py:114-126 | a page with only a token link yields only a token endpoint |
| Authorization.Target | flask_micropub.py:31-33 | the redirect goes to the discovered authorization endpoint when it is non-empty, else to `https://indieauth.com/auth`; it is never empty |
| Authorization.Params | flask_micropub.py:35-43 | the keys are exactly `me`, `client_id`, `redirect_uri` and `scope`, plus `state` if and only if `next` is truthy; `state` then equals `next` |
| Authorization.Authorize | flask_micropub.py:28-46 | discovery fetches the normalised identifier; a discovery fault escapes; otherwise the redirect is the fallback target with the parameters for the normalised `me` |
| Authorization.AuthorizeWithDefaults | flask_micropub.py:28 | with the default arguments the scope is `read` and there is no `state` |
| Authorization.EmptyNextAddsNoState | flask_micropub.py:42-43 | an empty `next` gives the same parameters as no `next` |
| Authorization.FallbackExactlyWhenUndiscovered | flask_micropub.py:31-33 | for a page that does not itself name `https://indieauth.com/auth` as its authorization endpoint, the default endpoint is used exactly when the page is not 200, no link carries the rel, or its `href` is empty |
| Callback.ErrorText | flask_micropub.py:64-109 | every error text is non-empty; `'no authorization endpoint'` and `'missing "me" in response'` belong exactly to their two error kinds |
| Callback.AuthBody | flask_micropub.py:68-77 | the code-validation body has exactly `code`, `client_id = ''`, `redirect_uri` and `state` |
| Callback.TokenBody | flask_micropub.py:91-98 | the token body is the code-validation body plus `me` set to the confirmed identity |
| Callback.RequestToken | flask_micropub.py:89-112 | a missing token endpoint raises without issuing the token POST; otherwise one POST is issued, and a token is returned exactly when the reply is 200 with `access_token` (its first value); a non-200 reply and a reply without `access_token` give their own error kinds; the identity is kept and `next_url` is `state` |
| Callback.HandleResponse | flask_micropub.py:55-112 | the invariant (no error exactly when there is a token; a token implies an identity); `next_url` equals `state`; the trace is one GET to the query's `me`, then a POST to the authorization endpoint only if it is usable, then a token POST only after `me` is confirmed; the identity and token are the first values of the replies |
| CallbackProperties.NoAuthorizationEndpointIssuesNoPost | flask_micropub.py:61-66 | without a usable authorization endpoint the result is `(None, None, state, 'no authorization endpoint')` and no POST is issued |
| CallbackProperties.AuthorizationRejected | flask_micropub.py:79-83 | a non-200 code validation gives no identity, no token, the reply's `error` and `error_description`, and no token POST |
| CallbackProperties.MissingMeRejected | flask_micropub.py:85-87 | a 200 code validation without `me` gives `'missing "me" in response'`, no identity and no token POST |
| CallbackProperties.TokenFailureKeepsIdentity | flask_micropub.py:89-109 | a non-200 token reply, or one without `access_token`, keeps the confirmed identity with no token and the matching error |
| CallbackProperties.MissingTokenEndpointRaises | flask_micropub.py:92-98 | once `me` is confirmed, a missing token endpoint raises after two requests |
| CallbackProperties.FullSuccessIff | flask_micropub.py:55-112 | the result has no error exactly when every stage succeeds |
| CallbackProperties.OutcomeIgnoresQueryMe | flask_micropub.py:61-62 | the returned tuple does not depend on which `me` the query supplied, given the same discovered page |
| CallbackProperties.TokenReplyUnusedWithoutTokenPost | flask_micropub.py:92-111 | the token reply affects nothing unless the token POST was issued |
| CallbackProperties.AuthReplyUnusedWithoutAuthPost | flask_micropub.py:72-89 | the authorization reply affects nothing unless its POST was issued |
| CallbackProperties.PostsShareFields | flask_micropub.py:68-98 | both POSTs carry the same `code`, `client_id`, `redirect_uri` and `state` |
| CallbackProperties.RaisesIff | flask_micropub.py:61-98 | the callback raises exactly when the query lacks `me` (nothing sent), discovery raises (only the GET sent), or `me` is confirmed without a token endpoint; the fault is stated for the first two cases |
| CallbackProperties.AliceObtainsToken | flask_micropub.py:55-112 | end-to-end run: a page with both endpoints and replies `me`, `access_token` give `(https://alice.example/, tok_xyz, state, None)` |
| CallbackProperties.AliceWithoutTokenEndpointRaises | flask_micropub.py:89-98 | the same run without a token endpoint raises instead of returning a tuple |

## Left out

- HTTP I/O. `requests.get` and `requests.post` are replaced by their replies, given as inputs. `flask.redirect`, `flask.url_for` and `flask.request.args` are replaced by parameters (`redirectUri`, `Query`). Network errors and timeouts are not modelled.
- URL validation inside the HTTP client. Only the `None` URL is modelled as raising. An empty or scheme-less discovered URL is treated as an ordinary POST target. The callback's discovery GET of an empty or scheme-less query `me` is also treated as an ordinary fetch, although the HTTP client raises on it.
- HTML parsing by `bs4.BeautifulSoup`. A page is a status plus its `<link>` elements. A rel matches when it is one of the element's space-separated values. bs4 also matches the whole attribute string, and that is not modelled.
- `urlencode` and the concatenated redirect URL. A `Redirect` holds the target and the parameter map. Byte-level encoding is not modelled.
- Form encoding of POST bodies. `Request.body` is the `data=` dict handed to `requests.post`, with Python's `None` kept as `None`. The HTTP client leaves `None`-valued fields out of the encoded body, so a callback without `code` or `state` sends fewer fields on the wire.
- `parse_qs`. A reply's body is given already decoded, as a map from field to its non-empty list of non-empty values.
- `authorized_handler` (flask_micropub.py:48-53). It is a decorator that only prepends the tuple to the view's arguments.
- `init_app` (flask_micropub.py:25-26). The client id (`app.name`) is a parameter.
- Discovery from the HTTP `Link` header (tests/test_micropub_client.py:23-31). That test targets a `MicropubClient` class that the extension does not define, and the code reads only HTML.
- Callback.ErrorText: for the three formatted messages, only their fixed leading words are produced. The Python reprs they embed have no stable wording, so `ErrorKind` keeps the embedded values instead.
- `setup.py` (packaging) and `example.py` (routes and HTML), beyond the default-argument call they show.
