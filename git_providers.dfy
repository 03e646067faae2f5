/** `src/git_api/git_providers.rs`: choosing the client for a provider kind,
    and listing a collection page by page (`get_repos_paralell`).

    Every page request is spawned before any is awaited, and the results are
    awaited in page order, so the listing is the concatenation of the pages in
    page order. The tasks are modelled as running in that same order: a send
    failure, which ends the process from inside its own task, is taken to
    happen when its page is reached, so the first page (in page order) that
    failed decides how the listing fails. */
module GitProviders {
  import opened Common
  import opened GitApi
  import Github
  import Gitlab
  import Config

  datatype Provider = GitlabProvider | GithubProvider

  /** `get_provider`: the two supported kinds; any other kind panics. */
  function GetProvider(kind: string): (r: Run<Provider>)
    ensures r == Ok(GitlabProvider) <==> kind == "gitlab"
    ensures r == Ok(GithubProvider) <==> kind == "github"
    ensures r != Exit
  {
    if kind == "gitlab" then Ok(GitlabProvider)
    else if kind == "github" then Ok(GithubProvider)
    else Panic
  }

  // ---------------------------------------------------------------- page requests

  /** The query of page `page`: the listing's query with `page` appended
      last; no query stays no query. */
  function PageParams(params: Option<seq<Pair>>, page: nat): (r: Option<seq<Pair>>)
    ensures r.None? <==> params.None?
    ensures params.Some? ==> |r.value| == |params.value| + 1 && r.value[..|params.value|] == params.value
    ensures params.Some? ==> r.value[|params.value|].0 == "page"
  {
    match params
    case None => None
    case Some(ps) => Some(ps + [("page", NatToString(page))])
  }

  /** The page number a page request asks for reads back as that page. */
  lemma PageParamNumber(params: seq<Pair>, page: nat)
    requires page <= I32Max
    ensures ParseI32(PageParams(Some(params), page).value[|params|].1) == Some(page)
  {
    ParseNatToString(page);
  }

  function PageRequest(endpoint: string, params: Option<seq<Pair>>, headers: Option<seq<Pair>>, page: nat): Request {
    Request(endpoint, PageParams(params, page), headers)
  }

  /** The requests for pages `1..=n`, in page order. */
  function PageRequests(endpoint: string, params: Option<seq<Pair>>, headers: Option<seq<Pair>>, n: nat): (r: seq<Request>)
    ensures |r| == n
    ensures forall k :: 0 <= k < n ==> r[k] == PageRequest(endpoint, params, headers, k + 1)
  {
    if n == 0 then [] else PageRequests(endpoint, params, headers, n - 1) + [PageRequest(endpoint, params, headers, n)]
  }

  /** How many pages `1..=pages` names. */
  function PageTotal(pages: int): (n: nat)
    ensures pages <= 0 ==> n == 0
    ensures pages > 0 ==> n == pages
  {
    if pages <= 0 then 0 else pages
  }

  // ---------------------------------------------------------------- page results

  /** The decoder of a provider kind's repositories (GitHub's for any kind
      but `gitlab`; the other kinds never get that far). */
  function Decoder(kind: string): Json -> Option<Repo> {
    if kind == "gitlab" then Gitlab.DecodeRepo else Github.DecodeRepo
  }

  /** Decoding a page as the provider's repositories: the body must be a JSON
      array whose every element decodes, or the task fails and awaiting it
      panics. A kind other than the two reaches `unreachable!`. */
  function DecodePage(kind: string, resp: Response): (r: Run<seq<Repo>>)
    ensures r != Exit
    ensures kind != "gitlab" && kind != "github" ==> r == Panic
    ensures (kind == "gitlab" || kind == "github") ==>
      (r.Ok? <==> resp.body.Some? && resp.body.value.JArray?
                  && forall k :: 0 <= k < |resp.body.value.items| ==> Decoder(kind)(resp.body.value.items[k]).Some?)
    ensures r.Ok? ==> resp.body.Some? && resp.body.value.JArray? && |r.value| == |resp.body.value.items|
    ensures r.Ok? ==> forall k :: 0 <= k < |r.value| ==> r.value[k] == Decoder(kind)(resp.body.value.items[k]).value
  {
    if kind != "gitlab" && kind != "github" then Panic
    else match resp.body
      case Some(JArray(items)) =>
        (match DecodeAll(items, Decoder(kind))
         case Some(repos) => Ok(repos)
         case None => Panic)
      case _ => Panic
  }

  /** One page task: send the request, then decode the response. */
  function FetchPage(fetch: Request -> Fetched, req: Request, kind: string): (r: Run<seq<Repo>>)
    ensures r == Exit <==> CallApi(fetch, req) == Exit
    ensures CallApi(fetch, req) == Panic ==> r == Panic
    ensures CallApi(fetch, req).Ok? ==> fetch(req).Received? && r == DecodePage(kind, fetch(req).response)
  {
    var resp :- CallApi(fetch, req);
    DecodePage(kind, resp)
  }

  /** Fail-fast concatenation: the first failure, or both listings joined. */
  function Then(x: Run<seq<Repo>>, y: Run<seq<Repo>>): (r: Run<seq<Repo>>)
    ensures r.Ok? <==> x.Ok? && y.Ok?
    ensures !x.Ok? ==> r == x
  {
    if !x.Ok? then x else if !y.Ok? then y else Ok(x.value + y.value)
  }

  lemma ThenAssociative(x: Run<seq<Repo>>, y: Run<seq<Repo>>, z: Run<seq<Repo>>)
    ensures Then(x, Then(y, z)) == Then(Then(x, y), z)
  {
    if x.Ok? && y.Ok? && z.Ok? {
      assert x.value + (y.value + z.value) == (x.value + y.value) + z.value;
    }
  }

  /** Awaiting the page tasks in order. */
  function Collect(fetch: Request -> Fetched, reqs: seq<Request>, kind: string): (r: Run<seq<Repo>>)
    ensures r.Ok? <==> forall k :: 0 <= k < |reqs| ==> FetchPage(fetch, reqs[k], kind).Ok?
    ensures reqs != [] && !FetchPage(fetch, reqs[0], kind).Ok? ==> r == FetchPage(fetch, reqs[0], kind)
    decreases |reqs|
  {
    if reqs == [] then Ok([]) else Then(FetchPage(fetch, reqs[0], kind), Collect(fetch, reqs[1..], kind))
  }

  /** Collecting two runs of pages is collecting the first, then the second:
      the listing keeps page order. */
  lemma {:induction false} CollectAppend(fetch: Request -> Fetched, a: seq<Request>, b: seq<Request>, kind: string)
    ensures Collect(fetch, a + b, kind) == Then(Collect(fetch, a, kind), Collect(fetch, b, kind))
  {
    if a == [] {
      assert a + b == b;
      var y := Collect(fetch, b, kind);
      if y.Ok? {
        assert [] + y.value == y.value;
      }
    } else {
      assert (a + b)[0] == a[0] && (a + b)[1..] == a[1..] + b;
      CollectAppend(fetch, a[1..], b, kind);
      ThenAssociative(FetchPage(fetch, a[0], kind), Collect(fetch, a[1..], kind), Collect(fetch, b, kind));
    }
  }

  lemma CollectOne(fetch: Request -> Fetched, req: Request, kind: string)
    ensures Collect(fetch, [req], kind) == FetchPage(fetch, req, kind)
  {
    assert [req][1..] == [];
    var x := FetchPage(fetch, req, kind);
    if x.Ok? {
      assert x.value + [] == x.value;
    }
  }

  /** No partial listing: the listing succeeds exactly when every page does. */
  lemma {:induction false} CollectOk(fetch: Request -> Fetched, reqs: seq<Request>, kind: string)
    ensures Collect(fetch, reqs, kind).Ok? <==> forall k :: 0 <= k < |reqs| ==> FetchPage(fetch, reqs[k], kind).Ok?
  {
    if reqs != [] {
      CollectOk(fetch, reqs[1..], kind);
      assert forall k :: 1 <= k < |reqs| ==> reqs[k] == reqs[1..][k - 1];
    }
  }

  /** When pages before `k` succeed and page `k` fails, the listing fails
      the way page `k` did, whatever the later pages do. */
  lemma FirstFailureDecides(fetch: Request -> Fetched, reqs: seq<Request>, kind: string, k: nat)
    requires k < |reqs| && !FetchPage(fetch, reqs[k], kind).Ok?
    requires forall j :: 0 <= j < k ==> FetchPage(fetch, reqs[j], kind).Ok?
    ensures Collect(fetch, reqs, kind) == FetchPage(fetch, reqs[k], kind)
  {
    var before, at, after := reqs[..k], reqs[k], reqs[k + 1..];
    assert reqs == before + ([at] + after);
    CollectAppend(fetch, before, [at] + after, kind);
    CollectAppend(fetch, [at], after, kind);
    CollectOne(fetch, at, kind);
    CollectOk(fetch, before, kind);
  }

  /** A listing in which each page `k` returns the repositories `pages[k]`
      is their concatenation in page order. */
  lemma {:induction false} CollectConcatenates(fetch: Request -> Fetched, reqs: seq<Request>, kind: string, pages: seq<seq<Repo>>)
    requires |pages| == |reqs|
    requires forall k :: 0 <= k < |reqs| ==> FetchPage(fetch, reqs[k], kind) == Ok(pages[k])
    ensures Collect(fetch, reqs, kind) == Ok(Flatten(pages))
  {
    if reqs != [] {
      CollectConcatenates(fetch, reqs[1..], kind, pages[1..]);
    }
  }

  /** One more page awaited: its repositories are appended. */
  lemma CollectStep(fetch: Request -> Fetched, reqs: seq<Request>, kind: string, i: nat, all: seq<Repo>)
    requires i < |reqs| && Collect(fetch, reqs[..i], kind) == Ok(all)
    requires FetchPage(fetch, reqs[i], kind).Ok?
    ensures Collect(fetch, reqs[..i + 1], kind) == Ok(all + FetchPage(fetch, reqs[i], kind).value)
  {
    assert reqs[..i + 1] == reqs[..i] + [reqs[i]];
    CollectAppend(fetch, reqs[..i], [reqs[i]], kind);
    CollectOne(fetch, reqs[i], kind);
  }

  /** A failed page, after pages that all succeeded, is the outcome. */
  lemma CollectStops(fetch: Request -> Fetched, reqs: seq<Request>, kind: string, i: nat, all: seq<Repo>)
    requires i < |reqs| && Collect(fetch, reqs[..i], kind) == Ok(all)
    requires !FetchPage(fetch, reqs[i], kind).Ok?
    ensures Collect(fetch, reqs, kind) == FetchPage(fetch, reqs[i], kind)
  {
    assert reqs == reqs[..i] + reqs[i..];
    CollectAppend(fetch, reqs[..i], reqs[i..], kind);
    assert reqs[i..] == [reqs[i]] + reqs[i + 1..];
    CollectAppend(fetch, [reqs[i]], reqs[i + 1..], kind);
    CollectOne(fetch, reqs[i], kind);
  }

  function Flatten(pages: seq<seq<Repo>>): seq<Repo> {
    if pages == [] then [] else pages[0] + Flatten(pages[1..])
  }

  /** `get_repos_paralell`: one request per page `1..=pages` (none when
      `pages <= 0`), then the page results awaited in order and appended;
      the first failed page ends the process. */
  method GetReposParallel(fetch: Request -> Fetched, pages: int, endpoint: string, params: Option<seq<Pair>>,
                          headers: Option<seq<Pair>>, kind: string)
    returns (requests: seq<Request>, repos: Run<seq<Repo>>)
    ensures requests == PageRequests(endpoint, params, headers, PageTotal(pages))
    ensures repos == Collect(fetch, requests, kind)
  {
    requests := [];
    var page := 1;
    while page <= pages
      invariant 1 <= page && (pages >= 1 ==> page <= pages + 1) && (pages < 1 ==> page == 1)
      invariant requests == PageRequests(endpoint, params, headers, page - 1)
    {
      requests := requests + [PageRequest(endpoint, params, headers, page)];
      page := page + 1;
    }
    assert page - 1 == PageTotal(pages);
    var all: seq<Repo> := [];
    var i := 0;
    while i < |requests|
      invariant 0 <= i <= |requests|
      invariant Collect(fetch, requests[..i], kind) == Ok(all)
    {
      var got := FetchPage(fetch, requests[i], kind);
      if !got.Ok? {
        CollectStops(fetch, requests, kind, i, all);
        repos := got;
        return;
      }
      CollectStep(fetch, requests, kind, i, all);
      all := all + got.value;
      i := i + 1;
    }
    assert requests[..i] == requests;
    repos := Ok(all);
  }

  // ---------------------------------------------------------------- listing a collection

  /** The requests a listing sent and its outcome. */
  datatype Listing = Listing(requests: seq<Request>, repos: Run<seq<Repo>>)

  function ListingEndpoint(provider: Provider, profile: Config.Profile, collection: string, user: bool): string {
    match provider
    case GithubProvider =>
      Github.Endpoint(profile.baseaddress, Github.Segment(user, profile.username, profile.token, collection))
    case GitlabProvider => Gitlab.Endpoint(profile.baseaddress, user, collection)
  }

  function ListingHeaders(provider: Provider, pat: Option<string>): Option<seq<Pair>> {
    match provider
    case GithubProvider => Github.Headers(pat)
    case GitlabProvider => Gitlab.Headers(pat)
  }

  function ListingParams(provider: Provider): seq<Pair> {
    match provider
    case GithubProvider => Github.ListingParams
    case GitlabProvider => Gitlab.ListingParams
  }

  function ProbeParams(provider: Provider): seq<Pair> {
    match provider
    case GithubProvider => Github.ProbeParams
    case GitlabProvider => Gitlab.ProbeParams
  }

  function PageCount(provider: Provider, resp: Response): Run<int> {
    match provider
    case GithubProvider => Github.PageCount(resp.headers)
    case GitlabProvider => Gitlab.PageCount(resp.headers)
  }

  /** The probe that asks for the number of pages. */
  function ProbeRequest(provider: Provider, pat: Option<string>, collection: string, user: bool,
                        profile: Config.Profile): Request {
    Request(ListingEndpoint(provider, profile, collection, user), Some(ProbeParams(provider)), ListingHeaders(provider, pat))
  }

  /** `GitProvider::get_repos`: a probe for the number of pages, then
      `get_repos_paralell` over the listing endpoint, decoding with the
      profile's provider kind. */
  function GetRepos(fetch: Request -> Fetched, provider: Provider, pat: Option<string>, collection: string,
                    user: bool, profile: Config.Profile): (r: Listing)
    ensures |r.requests| >= 1 && r.requests[0] == ProbeRequest(provider, pat, collection, user, profile)
    ensures forall k :: 0 <= k < |r.requests| ==>
      r.requests[k].endpoint == ListingEndpoint(provider, profile, collection, user)
      && r.requests[k].headers == ListingHeaders(provider, pat)
    ensures forall k :: 1 <= k < |r.requests| ==>
      r.requests[k].params == Some(ListingParams(provider) + [("page", NatToString(k))])
    ensures r.repos.Ok? ==> (CallApi(fetch, r.requests[0]).Ok?
      && PageCount(provider, CallApi(fetch, r.requests[0]).value).Ok?
      && |r.requests| == 1 + PageTotal(PageCount(provider, CallApi(fetch, r.requests[0]).value).value)
      && r.repos == Collect(fetch, r.requests[1..], profile.provider))
    ensures var probe := CallApi(fetch, ProbeRequest(provider, pat, collection, user, profile));
      !probe.Ok? ==> |r.requests| == 1 && r.repos == probe.PropagateFailure()
    ensures var probe := CallApi(fetch, ProbeRequest(provider, pat, collection, user, profile));
      probe.Ok? && !PageCount(provider, probe.value).Ok? ==> |r.requests| == 1 && r.repos == Panic
    ensures var probe := CallApi(fetch, ProbeRequest(provider, pat, collection, user, profile));
      probe.Ok? && PageCount(provider, probe.value).Ok? ==>
        |r.requests| == 1 + PageTotal(PageCount(provider, probe.value).value)
        && r.repos == Collect(fetch, r.requests[1..], profile.provider)
  {
    var endpoint := ListingEndpoint(provider, profile, collection, user);
    var headers := ListingHeaders(provider, pat);
    var probe := ProbeRequest(provider, pat, collection, user, profile);
    match CallApi(fetch, probe)
    case Exit => Listing([probe], Exit)
    case Panic => Listing([probe], Panic)
    case Ok(resp) =>
      match PageCount(provider, resp)
      case Ok(pages) =>
        var reqs := PageRequests(endpoint, Some(ListingParams(provider)), headers, PageTotal(pages));
        assert ([probe] + reqs)[1..] == reqs;
        Listing([probe] + reqs, Collect(fetch, reqs, profile.provider))
      case _ => Listing([probe], Panic)
  }

  /** The listing holds, in page order, the repositories decoded from each
      page's response, once the probe and every page succeed. */
  lemma ListingDecodesPages(fetch: Request -> Fetched, provider: Provider, pat: Option<string>, collection: string,
                            user: bool, profile: Config.Profile, pages: seq<seq<Repo>>)
    requires var r := GetRepos(fetch, provider, pat, collection, user, profile);
      |pages| == |r.requests| - 1
      && forall k :: 1 <= k < |r.requests| ==> FetchPage(fetch, r.requests[k], profile.provider) == Ok(pages[k - 1])
    requires var probe := CallApi(fetch, ProbeRequest(provider, pat, collection, user, profile));
      probe.Ok? && PageCount(provider, probe.value).Ok?
    ensures GetRepos(fetch, provider, pat, collection, user, profile).repos == Ok(Flatten(pages))
  {
    var r := GetRepos(fetch, provider, pat, collection, user, profile);
    var reqs := r.requests[1..];
    forall k | 0 <= k < |reqs|
      ensures FetchPage(fetch, reqs[k], profile.provider) == Ok(pages[k])
    {
      assert reqs[k] == r.requests[k + 1];
    }
    CollectConcatenates(fetch, reqs, profile.provider, pages);
  }
}
