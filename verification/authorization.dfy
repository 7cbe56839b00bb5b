/** `Micropub.authorize`: normalise the identifier, discover its endpoints and
    build the redirect to the authorization endpoint. */
module Authorization {
  import opened Wrappers
  import opened Http
  import opened Identifier
  import opened Discovery

  /** The public broker used when the identifier declares no authorization endpoint. */
  const DefaultAuthorizationEndpoint := "https://indieauth.com/auth"

  /** The scope requested when the caller names none. */
  const DefaultScope := "read"

  /** The keys every redirect carries. */
  const BaseKeys: set<string> := {"me", "client_id", "redirect_uri", "scope"}

  /** A redirect: the endpoint to send the user-agent to and its query parameters
      (before URL encoding). */
  datatype Redirect = Redirect(target: string, params: map<string, string>)

  /** One run of `authorize`: the URL fetched for discovery and the redirect,
      or the fault discovery raised. */
  datatype Initiation = Initiation(fetched: string, outcome: Result<Redirect, Fault>)

  /** The redirect target: the discovered authorization endpoint when it is a
      non-empty string, the public default otherwise; never empty. */
  function Target(discovered: Option<string>): (r: string)
    ensures r != ""
    ensures Truthy(discovered) ==> r == discovered.value
    ensures !Truthy(discovered) ==> r == DefaultAuthorizationEndpoint
  {
    if Truthy(discovered) then discovered.value else DefaultAuthorizationEndpoint
  }

  /** The redirect's query parameters: exactly `me`, `client_id`,
      `redirect_uri` and `scope`, plus `state` exactly when `next` is truthy,
      in which case it carries `next`. */
  function Params(clientId: string, me: string, redirectUri: string, next: Option<string>, scope: string)
    : (r: map<string, string>)
    ensures r.Keys == BaseKeys + (if Truthy(next) then {"state"} else {})
    ensures BaseKeys <= r.Keys
    ensures r["me"] == me && r["client_id"] == clientId
    ensures r["redirect_uri"] == redirectUri && r["scope"] == scope
    ensures "state" in r <==> Truthy(next)
    ensures "state" in r ==> r["state"] == next.value
  {
    var base := map["me" := me, "client_id" := clientId, "redirect_uri" := redirectUri, "scope" := scope];
    if Truthy(next) then base["state" := next.value] else base
  }

  /** `authorize(me, redirect_uri, next, scope)` where `page` is the reply to
      the discovery GET: the GET goes to the normalised identifier, a discovery
      fault escapes unchanged, and otherwise the redirect goes to `Target` of
      the discovered authorization endpoint with `Params` for the normalised
      identifier. */
  function Authorize(clientId: string, me: string, redirectUri: string, next: Option<string>, scope: string, page: Page)
    : (r: Initiation)
    ensures HasScheme(r.fetched)
    ensures r.fetched == Normalize(me)
    ensures r.outcome.Failure? <==> Discover(page).Failure?
    ensures r.outcome.Failure? ==> r.outcome.error == Discover(page).error
    ensures r.outcome.Success? ==>
      && r.outcome.value.target == Target(Discover(page).value.authorization)
      && r.outcome.value.params == Params(clientId, Normalize(me), redirectUri, next, scope)
    ensures r.outcome.Success? ==> HasScheme(r.outcome.value.params["me"])
  {
    var normalized := Normalize(me);
    var outcome :=
      match Discover(page)
      case Failure(f) => Failure(f)
      case Success(found) =>
        Success(Redirect(Target(found.authorization), Params(clientId, normalized, redirectUri, next, scope)));
    Initiation(normalized, outcome)
  }

  /** `authorize(me, redirect_uri)` with the default arguments, as the example
      application calls it: scope `read` and no `state`. */
  function AuthorizeWithDefaults(clientId: string, me: string, redirectUri: string, page: Page): (r: Initiation)
    ensures r.outcome.Success? ==> r.outcome.value.params.Keys == BaseKeys
    ensures r.outcome.Success? ==> r.outcome.value.params["scope"] == "read"
  {
    Authorize(clientId, me, redirectUri, None, DefaultScope, page)
  }

  /** An empty `next` adds no `state`: it gives the same parameters as no `next`. */
  lemma EmptyNextAddsNoState(clientId: string, me: string, redirectUri: string, scope: string)
    ensures Params(clientId, me, redirectUri, Some(""), scope) == Params(clientId, me, redirectUri, None, scope)
  {
  }

  /** The redirect falls back to the public default exactly when discovery
      produced no usable authorization endpoint: a non-200 page, no element
      carrying the rel, or an empty `href` (unless the page itself names the
      default endpoint). */
  lemma FallbackExactlyWhenUndiscovered(clientId: string, me: string, redirectUri: string, next: Option<string>, scope: string, page: Page)
    requires Discover(page).Success?
    requires Discover(page).value.authorization != Some(DefaultAuthorizationEndpoint)
    ensures Authorize(clientId, me, redirectUri, next, scope, page).outcome.Success?
    ensures Authorize(clientId, me, redirectUri, next, scope, page).outcome.value.target == DefaultAuthorizationEndpoint
      <==> page.status != StatusOk || !Truthy(Lookup(page.links, AuthorizationRel).value)
  {
  }
}
