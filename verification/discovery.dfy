/** Endpoint discovery: the three endpoints a fetched identifier page declares
    through `<link rel=... href=...>` elements. The fetched page is given as its
    status and its `<link>` elements in document order. */
module Discovery {
  import opened Wrappers
  import opened Http

  const AuthorizationRel := "authorization_endpoint"
  const TokenRel := "token_endpoint"
  const MicropubRel := "micropub"

  /** A `<link>` element: its space-separated `rel` values and its `href`
      attribute, which may be missing. */
  datatype Link = Link(rels: seq<string>, href: Option<string>)

  /** The reply to the discovery GET. */
  datatype Page = Page(status: int, links: seq<Link>)

  /** What discovery found; each endpoint may be absent. */
  datatype Endpoints = Endpoints(authorization: Option<string>, token: Option<string>, micropub: Option<string>)

  const NoEndpoints := Endpoints(None, None, None)

  /** The element matches a search for `rel` (one of its rel values is `rel`). */
  predicate Carries(link: Link, rel: string) {
    rel in link.rels
  }

  /** Position `i` holds the first element carrying `rel`. */
  ghost predicate FirstCarrier(links: seq<Link>, rel: string, i: int) {
    && 0 <= i < |links|
    && Carries(links[i], rel)
    && forall j :: 0 <= j < i ==> !Carries(links[j], rel)
  }

  /** The search for the first element carrying `rel`, front to back. */
  function FirstIndex(links: seq<Link>, rel: string): (r: Option<nat>)
    ensures r.None? <==> forall i :: 0 <= i < |links| ==> !Carries(links[i], rel)
    ensures r.Some? ==> FirstCarrier(links, rel, r.value)
    decreases |links|
  {
    if |links| == 0 then None
    else if Carries(links[0], rel) then Some(0)
    else match FirstIndex(links[1..], rel)
      case None => None
      case Some(i) => Some(i + 1)
  }

  /** `tag and tag['href']` for the first element carrying `rel`: absent when
      no element carries it, its `href` when it has one, and a raised fault
      when the first carrier has no `href` (later carriers are not consulted). */
  function Lookup(links: seq<Link>, rel: string): (r: Result<Option<string>, Fault>)
    ensures (r.Success? && r.value.None?) <==> forall i :: 0 <= i < |links| ==> !Carries(links[i], rel)
    ensures r.Success? && r.value.Some? ==> exists i :: FirstCarrier(links, rel, i) && links[i].href == r.value
    ensures r.Failure? <==> exists i :: FirstCarrier(links, rel, i) && links[i].href.None?
    ensures r.Failure? ==> r.error == MissingHref(rel)
  {
    match FirstIndex(links, rel)
    case None => Success(None)
    case Some(i) =>
      if links[i].href.Some? then Success(links[i].href) else Failure(MissingHref(rel))
  }

  /** The elements carrying `rel`, in document order. */
  function Carriers(links: seq<Link>, rel: string): (r: seq<Link>)
    ensures |r| <= |links|
    ensures forall k :: 0 <= k < |r| ==> Carries(r[k], rel)
    ensures forall k :: 0 <= k < |links| && Carries(links[k], rel) ==> links[k] in r
    ensures forall i :: FirstCarrier(links, rel, i) ==> |r| > 0 && r[0] == links[i]
  {
    if |links| == 0 then []
    else (if Carries(links[0], rel) then [links[0]] else []) + Carriers(links[1..], rel)
  }

  /** Skipping a leading element that does not carry `rel` leaves the lookup unchanged. */
  lemma LookupSkip(links: seq<Link>, rel: string)
    requires |links| > 0 && !Carries(links[0], rel)
    ensures Lookup(links, rel) == Lookup(links[1..], rel)
  {
    match FirstIndex(links[1..], rel)
    case None =>
    case Some(i) =>
      assert links[1..][i] == links[i + 1];
  }

  /** Elements not carrying `rel` play no part in its lookup. */
  lemma {:induction false} LookupSeesOnlyCarriers(links: seq<Link>, rel: string)
    ensures Lookup(links, rel) == Lookup(Carriers(links, rel), rel)
    decreases |links|
  {
    if |links| == 0 {
    } else if Carries(links[0], rel) {
      var c := Carriers(links, rel);
      assert c[0] == links[0];
    } else {
      LookupSkip(links, rel);
      assert Carriers(links, rel) == Carriers(links[1..], rel);
      LookupSeesOnlyCarriers(links[1..], rel);
    }
  }

  /** One endpoint, resolved on its own: absent for a non-200 page; on a 200
      page absent exactly when no link carries its rel, and otherwise decided
      by the first carrier alone (its `href`, or a fault when it has none). */
  function EndpointOf(page: Page, rel: string): (r: Result<Option<string>, Fault>)
    ensures page.status != StatusOk ==> r == Success(None)
    ensures page.status == StatusOk ==>
      (r == Success(None) <==> forall i :: 0 <= i < |page.links| ==> !Carries(page.links[i], rel))
    ensures page.status == StatusOk ==> forall i :: FirstCarrier(page.links, rel, i) ==>
      r == (if page.links[i].href.Some? then Success(page.links[i].href) else Failure(MissingHref(rel)))
  {
    if page.status != StatusOk then Success(None) else Lookup(page.links, rel)
  }

  /** `_discover_endpoints`: a non-200 page yields three absent endpoints;
      otherwise each endpoint is resolved on its own, and a fault in the
      authorization, token or micropub lookup (tried in that order) escapes. */
  function Discover(page: Page): (r: Result<Endpoints, Fault>)
    ensures page.status != StatusOk ==> r == Success(NoEndpoints)
    ensures r.Success? ==>
      && EndpointOf(page, AuthorizationRel) == Success(r.value.authorization)
      && EndpointOf(page, TokenRel) == Success(r.value.token)
      && EndpointOf(page, MicropubRel) == Success(r.value.micropub)
    ensures r.Failure? <==>
      || EndpointOf(page, AuthorizationRel).Failure?
      || EndpointOf(page, TokenRel).Failure?
      || EndpointOf(page, MicropubRel).Failure?
    ensures r.Failure? ==> r.error == MissingHref(
      if EndpointOf(page, AuthorizationRel).Failure? then AuthorizationRel
      else if EndpointOf(page, TokenRel).Failure? then TokenRel
      else MicropubRel)
  {
    if page.status != StatusOk then Success(NoEndpoints)
    else
      var auth :- Lookup(page.links, AuthorizationRel);
      var token :- Lookup(page.links, TokenRel);
      var micropub :- Lookup(page.links, MicropubRel);
      Success(Endpoints(auth, token, micropub))
  }

  /** Discovery independence: one endpoint depends only on the page status and
      on the elements carrying its own rel, so adding, removing or changing
      elements that do not carry it leaves it as it was. */
  lemma EndpointIndependent(p: Page, q: Page, rel: string)
    requires p.status == q.status
    requires Carriers(p.links, rel) == Carriers(q.links, rel)
    ensures EndpointOf(p, rel) == EndpointOf(q, rel)
  {
    LookupSeesOnlyCarriers(p.links, rel);
    LookupSeesOnlyCarriers(q.links, rel);
  }

  /** The page of the repository's HTML discovery test: three `<link>` elements,
      one per rel, each with an `href`. */
  lemma HtmlDiscoveryExample()
    ensures Discover(Page(200, [
      Link(["authorization_endpoint"], Some("http://foo.bar/auth")),
      Link(["token_endpoint"], Some("http://baz.bux/token")),
      Link(["micropub"], Some("http://do.re/micropub"))]))
      == Success(Endpoints(Some("http://foo.bar/auth"), Some("http://baz.bux/token"), Some("http://do.re/micropub")))
  {
    var links := [
      Link(["authorization_endpoint"], Some("http://foo.bar/auth")),
      Link(["token_endpoint"], Some("http://baz.bux/token")),
      Link(["micropub"], Some("http://do.re/micropub"))];
    assert FirstCarrier(links, AuthorizationRel, 0);
    assert FirstCarrier(links, TokenRel, 1) by {
      assert !Carries(links[0], TokenRel) by { assert links[0].rels == [AuthorizationRel]; }
    }
    assert FirstCarrier(links, MicropubRel, 2) by {
      assert !Carries(links[0], MicropubRel) by { assert links[0].rels == [AuthorizationRel]; }
      assert !Carries(links[1], MicropubRel) by { assert links[1].rels == [TokenRel]; }
    }
  }

  /** A page declaring only a token endpoint yields just that endpoint. */
  lemma TokenOnlyExample()
    ensures Discover(Page(200, [Link(["token_endpoint"], Some("https://auth.example/t"))]))
      == Success(Endpoints(None, Some("https://auth.example/t"), None))
  {
    var links := [Link(["token_endpoint"], Some("https://auth.example/t"))];
    assert !Carries(links[0], AuthorizationRel) by { assert links[0].rels == [TokenRel]; }
    assert !Carries(links[0], MicropubRel) by { assert links[0].rels == [TokenRel]; }
  }
}
