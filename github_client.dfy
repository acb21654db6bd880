/**
 * The GitHub REST client behind the open-issue collector: the records it
 * reads and produces, the HTTP error classifier, request headers, the
 * link-header paginator, the pull-request filter, the projection of a raw
 * issue to a summary and the repository visibility/archival filter.
 *
 * The network is a parameter: a paginated endpoint is the sequence of
 * responses the server gives to successive requests.
 */
module GitHubClient {
  import opened Base
  import opened JsText
  import opened LinkHeader

  // ------------------------------------------------------------- records

  /** A label as the collector hands it on. */
  datatype IssueLabel = IssueLabel(id: int, name: string, color: Option<string>, description: Option<string>)

  datatype IssueState = Open | Closed

  /** The compact, read-only projection of one issue. */
  datatype IssueSummary = IssueSummary(
    id: int, number: int, title: string, htmlUrl: string, state: IssueState,
    createdAt: string, updatedAt: string, author: Option<string>,
    labels: seq<IssueLabel>, body: Option<string>, bodyPreview: Option<string>)

  /** The account record of `GET /users/{login}`; `kind` is its `type` field. */
  datatype GitHubUser = GitHubUser(login: string, kind: string)

  /** A repository; `archived` may be absent. */
  datatype GitHubRepo = GitHubRepo(id: int, name: string, fullName: string, isPrivate: bool, archived: Option<bool>)

  /** A label as the issues endpoint returns it: a bare name or a structured label. */
  datatype RawLabel =
    | BareLabel(name: string)
    | LabelObject(id: int, name: string, color: Option<string>, description: Option<string>)

  /** The `user` object of an issue; its `login` may be absent or null. */
  datatype UserRef = UserRef(login: Option<string>)

  /**
   * An item of the issues endpoint. `hasPullRequest` records whether the item
   * has its own `pull_request` property (whatever its value).
   */
  datatype GitHubIssue = GitHubIssue(
    id: int, number: int, title: string, htmlUrl: string, state: IssueState,
    createdAt: string, updatedAt: string, user: Option<UserRef>,
    labels: Option<seq<RawLabel>>, body: Option<string>, hasPullRequest: bool)

  /** The options record; `None` is an omitted option. */
  datatype Options = Options(
    includeArchivedRepos: Option<bool>, includePrivateRepos: Option<bool>,
    token: Option<string>, perPage: Option<int>, bodyPreviewChars: Option<int>)

  const GitHubApi: string := "https://api.github.com"
  const DefaultPerPage: int := 100
  const DefaultBodyPreviewChars: int := 280

  // ---------------------------------------------------------------- HTTP

  /** One HTTP response: status, the headers the client reads, and the decoded JSON body. */
  datatype Response<T> = Response(
    status: int, link: Option<string>, rateRemaining: Option<string>,
    rateReset: Option<string>, body: T)
  {
    /** `res.ok`. */
    predicate Ok() { 200 <= status <= 299 }
  }

  /** The `Error` the client throws, with the `status` it attaches. */
  datatype HttpError = HttpError(message: string, status: int)

  const RateLimitPrefix: string := "GitHub rate limit exceeded."

  /** Messages of the rate-limit class all start with the same sentence. */
  predicate IsRateLimitMessage(m: string)
  {
    IsPrefix(RateLimitPrefix, m)
  }

  /** The reset header counts when it is present and not empty. */
  predicate HasReset<T>(resp: Response<T>)
  {
    resp.rateReset.Some? && resp.rateReset.value != ""
  }

  /** The rate-limit hint; `when` is "soon" or "at <time>". */
  function RateLimitHint(when: string): (m: string)
    ensures IsRateLimitMessage(m)
  {
    var m := "GitHub rate limit exceeded. Resets " + when + ". Add a token or try later.";
    assert m[..|RateLimitPrefix|] == RateLimitPrefix;
    m
  }

  /** The generic hint, reporting the bare status. */
  function StatusHint(status: int): (m: string)
    ensures !IsRateLimitMessage(m)
  {
    var m := "GitHub API error " + IntToString(status) + ".";
    assert m[7] == 'A' && RateLimitPrefix[7] == 'r';
    m
  }

  /**
   * parseRateLimit: the rate-limit hint when `X-RateLimit-Remaining` is
   * exactly "0" (the reset time rendered by `isoOf` when the reset header is
   * there, "soon" otherwise), the bare status otherwise; the error always
   * carries the response status.
   */
  function ParseRateLimit<T>(resp: Response<T>, isoOf: string -> string): (e: HttpError)
    ensures e.status == resp.status
    ensures IsRateLimitMessage(e.message) <==> resp.rateRemaining == Some("0")
    ensures resp.rateRemaining == Some("0") && !HasReset(resp) ==> e.message == RateLimitHint("soon")
    ensures resp.rateRemaining == Some("0") && HasReset(resp) ==>
              e.message == RateLimitHint("at " + isoOf(resp.rateReset.value))
    ensures resp.rateRemaining != Some("0") ==> e.message == StatusHint(resp.status)
  {
    var when := if HasReset(resp) then "at " + isoOf(resp.rateReset.value) else "soon";
    HttpError(if resp.rateRemaining == Some("0") then RateLimitHint(when) else StatusHint(resp.status), resp.status)
  }

  /** getJsonOrThrow: the decoded body of a successful response, the classified error otherwise. */
  function GetJsonOrThrow<T>(resp: Response<T>, isoOf: string -> string): (r: Result<T, HttpError>)
    ensures r.Success? <==> resp.Ok()
    ensures r.Success? ==> r.value == resp.body
    ensures r.Failure? ==> r.error == ParseRateLimit(resp, isoOf) && r.error.status == resp.status
  {
    if resp.Ok() then Success(resp.body) else Failure(ParseRateLimit(resp, isoOf))
  }

  /** `if (token)`: a token is used when it is present and not empty. */
  predicate HasToken(token: Option<string>)
  {
    token.Some? && token.value != ""
  }

  /** buildHeaders: the two fixed headers, plus a bearer token when one is given. */
  method BuildHeaders(token: Option<string>) returns (headers: map<string, string>)
    ensures headers.Keys == {"Accept", "X-GitHub-Api-Version"} + (if HasToken(token) then {"Authorization"} else {})
    ensures headers["Accept"] == "application/vnd.github+json"
    ensures headers["X-GitHub-Api-Version"] == "2022-11-28"
    ensures HasToken(token) ==> headers["Authorization"] == "Bearer " + token.value
  {
    headers := map["Accept" := "application/vnd.github+json", "X-GitHub-Api-Version" := "2022-11-28"];
    if HasToken(token) {
      headers := headers["Authorization" := "Bearer " + token.value];
    }
  }

  // ----------------------------------------------------------- paginator

  /** Why a walk over pages produced nothing. */
  datatype FetchError =
    | Http(error: HttpError)
      /** The walk needed more responses than the server was given. */
    | Exhausted

  /** `while (url)`: the walk goes on while the URL is present and not empty. */
  predicate Continues(url: Option<string>)
  {
    url.Some? && url.value != ""
  }

  /** `items` in front of a successful walk; failures pass through unchanged. */
  function Prepend<T>(items: seq<T>, r: Result<seq<T>, FetchError>): Result<seq<T>, FetchError>
  {
    match r
    case Success(rest) => Success(items + rest)
    case Failure(e) => Failure(e)
  }

  /**
   * What getAllPages returns from `url` when the server answers successive
   * requests with `pages`: every page's items in fetch order, or the
   * classified error of the first failed response and nothing else.
   */
  function Walk<T>(url: Option<string>, pages: seq<Response<seq<T>>>, isoOf: string -> string): Result<seq<T>, FetchError>
    decreases |pages|
  {
    if !Continues(url) then Success([])
    else if pages == [] then Failure(Exhausted)
    else if !pages[0].Ok() then Failure(Http(ParseRateLimit(pages[0], isoOf)))
    else Prepend(pages[0].body, Walk(GetNextLink(pages[0].link), pages[1..], isoOf))
  }

  /** The URLs getAllPages requests from `url`, in order. */
  function WalkRequests<T>(url: Option<string>, pages: seq<Response<seq<T>>>): seq<string>
    decreases |pages|
  {
    if !Continues(url) || pages == [] then []
    else if !pages[0].Ok() then [url.value]
    else [url.value] + WalkRequests(GetNextLink(pages[0].link), pages[1..])
  }

  /** getAllPages: follows `rel="next"` links, appending each page's items. */
  method GetAllPages<T>(initialUrl: string, pages: seq<Response<seq<T>>>, isoOf: string -> string)
    returns (r: Result<seq<T>, FetchError>, requests: seq<string>)
    ensures r == Walk(Some(initialUrl), pages, isoOf)
    ensures requests == WalkRequests(Some(initialUrl), pages)
  {
    var out: seq<T> := [];
    var url: Option<string> := Some(initialUrl);
    var k := 0;
    requests := [];
    assert pages[0..] == pages;
    assert Prepend(out, Walk(url, pages[k..], isoOf)) == Walk(url, pages, isoOf) by {
      match Walk(url, pages, isoOf)
      case Success(rest) => assert [] + rest == rest;
      case Failure(e) =>
    }
    while Continues(url)
      invariant k <= |pages|
      invariant Walk(Some(initialUrl), pages, isoOf) == Prepend(out, Walk(url, pages[k..], isoOf))
      invariant WalkRequests(Some(initialUrl), pages) == requests + WalkRequests(url, pages[k..])
      decreases |pages| - k
    {
      if k == |pages| {
        assert pages[k..] == [];
        return Failure(Exhausted), requests;
      }
      var res := pages[k];
      WalkStep(url, pages, k, isoOf);
      AppendAssoc(requests, [url.value], WalkRequests(GetNextLink(res.link), pages[k + 1..]));
      requests := requests + [url.value];
      if !res.Ok() {
        return Failure(Http(ParseRateLimit(res, isoOf))), requests;
      }
      PrependTwice(out, res.body, Walk(GetNextLink(res.link), pages[k + 1..], isoOf));
      out := out + res.body;
      url := GetNextLink(res.link);
      k := k + 1;
    }
    assert out + [] == out;
    r := Success(out);
  }

  /** One step of a walk, read at the `k`-th response. */
  lemma WalkStep<T>(url: Option<string>, pages: seq<Response<seq<T>>>, k: nat, isoOf: string -> string)
    requires k < |pages| && Continues(url)
    ensures pages[k].Ok() ==>
              Walk(url, pages[k..], isoOf)
              == Prepend(pages[k].body, Walk(GetNextLink(pages[k].link), pages[k + 1..], isoOf))
    ensures pages[k].Ok() ==>
              WalkRequests(url, pages[k..])
              == [url.value] + WalkRequests(GetNextLink(pages[k].link), pages[k + 1..])
    ensures !pages[k].Ok() ==> Walk(url, pages[k..], isoOf) == Failure(Http(ParseRateLimit(pages[k], isoOf)))
    ensures !pages[k].Ok() ==> WalkRequests(url, pages[k..]) == [url.value]
  {
    assert pages[k..][0] == pages[k] && pages[k..][1..] == pages[k + 1..];
  }

  lemma PrependTwice<T>(a: seq<T>, b: seq<T>, r: Result<seq<T>, FetchError>)
    ensures Prepend(a, Prepend(b, r)) == Prepend(a + b, r)
  {
    if r.Success? {
      assert a + (b + r.value) == (a + b) + r.value;
    }
  }

  /** The URL of the `k`-th request of a walk from `url` (if it gets that far). */
  function UrlAt<T>(url: Option<string>, pages: seq<Response<seq<T>>>, k: nat): Option<string>
    requires k <= |pages|
    decreases k
  {
    if k == 0 then url else UrlAt(GetNextLink(pages[0].link), pages[1..], k - 1)
  }

  /** The first `n` requests of a walk go out and are answered successfully. */
  ghost predicate ChainOk<T>(url: Option<string>, pages: seq<Response<seq<T>>>, n: nat)
    requires n <= |pages|
  {
    forall k :: 0 <= k < n ==> Continues(UrlAt(url, pages, k)) && pages[k].Ok()
  }

  /** All the items of `pages`, page after page. */
  function Concat<T>(pages: seq<Response<seq<T>>>): seq<T>
  {
    if pages == [] then [] else pages[0].body + Concat(pages[1..])
  }

  lemma ChainTail<T>(url: Option<string>, pages: seq<Response<seq<T>>>, n: nat)
    requires 0 < n <= |pages| && ChainOk(url, pages, n)
    ensures ChainOk(GetNextLink(pages[0].link), pages[1..], n - 1)
  {
    forall k | 0 <= k < n - 1
      ensures Continues(UrlAt(GetNextLink(pages[0].link), pages[1..], k)) && pages[1..][k].Ok()
    {
      assert UrlAt(url, pages, k + 1) == UrlAt(GetNextLink(pages[0].link), pages[1..], k);
    }
  }

  /**
   * Pagination stops exactly when the link of the last page gives no URL:
   * after `n` good pages the walk returns their items in order and has made
   * exactly `n` requests.
   */
  lemma {:induction false} WalkCollectsPages<T>(url: Option<string>, pages: seq<Response<seq<T>>>, n: nat, isoOf: string -> string)
    requires n <= |pages| && ChainOk(url, pages, n) && !Continues(UrlAt(url, pages, n))
    ensures Walk(url, pages, isoOf) == Success(Concat(pages[..n]))
    ensures |WalkRequests(url, pages)| == n
    decreases n
  {
    if n > 0 {
      var next := GetNextLink(pages[0].link);
      assert Continues(UrlAt(url, pages, 0)) && pages[0].Ok();
      ChainTail(url, pages, n);
      assert UrlAt(url, pages, n) == UrlAt(next, pages[1..], n - 1);
      WalkCollectsPages(next, pages[1..], n - 1, isoOf);
      WalkFirst(url, pages, isoOf);
      ConcatFirst(pages, n);
    } else {
      assert pages[..0] == [];
    }
  }

  /** A walk whose first request is answered successfully, unfolded once. */
  lemma WalkFirst<T>(url: Option<string>, pages: seq<Response<seq<T>>>, isoOf: string -> string)
    requires pages != [] && Continues(url) && pages[0].Ok()
    ensures Walk(url, pages, isoOf) == Prepend(pages[0].body, Walk(GetNextLink(pages[0].link), pages[1..], isoOf))
    ensures WalkRequests(url, pages) == [url.value] + WalkRequests(GetNextLink(pages[0].link), pages[1..])
  {
  }

  /** The items of the first `n` pages: those of the first page, then those of the next `n - 1`. */
  lemma ConcatFirst<T>(pages: seq<Response<seq<T>>>, n: nat)
    requires 0 < n <= |pages|
    ensures Concat(pages[..n]) == pages[0].body + Concat(pages[1..][..n - 1])
  {
    assert pages[..n][0] == pages[0] && pages[..n][1..] == pages[1..][..n - 1];
  }

  /** A failed response within the chain aborts the walk with its classified error and no items. */
  lemma {:induction false} WalkAbortsOnError<T>(url: Option<string>, pages: seq<Response<seq<T>>>, n: nat, isoOf: string -> string)
    requires n < |pages| && ChainOk(url, pages, n) && Continues(UrlAt(url, pages, n)) && !pages[n].Ok()
    ensures Walk(url, pages, isoOf) == Failure(Http(ParseRateLimit(pages[n], isoOf)))
    ensures |WalkRequests(url, pages)| == n + 1
    decreases n
  {
    if n > 0 {
      assert Continues(UrlAt(url, pages, 0)) && pages[0].Ok();
      ChainTail(url, pages, n);
      WalkAbortsOnError(GetNextLink(pages[0].link), pages[1..], n - 1, isoOf);
    }
  }

  /** One page of a walk whose link header lists `entries`. */
  function Page<T>(items: seq<T>, entries: seq<LinkEntry>): Response<seq<T>>
  {
    Response(200, if entries == [] then None else Some(Format(entries)), None, None, items)
  }

  const Page1Url: string := "https://api.github.com/p1"
  const Page2Url: string := "https://api.github.com/p2"
  const Page3Url: string := "https://api.github.com/p3"
  const FirstLinks: seq<LinkEntry> := [LinkEntry(Page2Url, "next"), LinkEntry(Page3Url, "last")]
  const SecondLinks: seq<LinkEntry> := [LinkEntry(Page1Url, "prev"), LinkEntry(Page3Url, "next")]
  const LastLinks: seq<LinkEntry> := [LinkEntry(Page2Url, "prev")]

  /** The fixture URLs share their first 24 characters, none of them `>` or `,`. */
  lemma FixtureUrlShape(u: string, last: char)
    requires u == "https://api.github.com/p" + [last] && '0' <= last <= '9'
    ensures u != [] && '>' !in u && ',' !in u
  {
    var stem := "https://api.github.com/p";
    assert forall k :: 0 <= k < |stem| ==> stem[k] != '>' && stem[k] != ',';
  }

  lemma FixtureUrlsWellFormed()
    ensures WellFormed(LinkEntry(Page1Url, "prev")) && WellFormed(LinkEntry(Page2Url, "next"))
    ensures WellFormed(LinkEntry(Page2Url, "prev")) && WellFormed(LinkEntry(Page3Url, "next"))
    ensures WellFormed(LinkEntry(Page3Url, "last"))
  {
    FixtureUrlShape(Page1Url, '1');
    FixtureUrlShape(Page2Url, '2');
    FixtureUrlShape(Page3Url, '3');
  }

  lemma FirstLinksNext()
    ensures GetNextLink(Some(Format(FirstLinks))) == Some(Page2Url)
  {
    FixtureUrlsWellFormed();
    assert FirstNextUrl(FirstLinks) == Some(Page2Url);
    FormatRoundTrip(FirstLinks);
  }

  lemma SecondLinksNext()
    ensures GetNextLink(Some(Format(SecondLinks))) == Some(Page3Url)
  {
    FixtureUrlsWellFormed();
    assert FirstNextUrl(SecondLinks) == Some(Page3Url);
    FormatRoundTrip(SecondLinks);
  }

  lemma LastLinksNext()
    ensures GetNextLink(Some(Format(LastLinks))) == None
  {
    FixtureUrlsWellFormed();
    assert FirstNextUrl(LastLinks) == None;
    FormatRoundTrip(LastLinks);
  }

  /** Three good pages, each linking to the next and the last to none, are walked in order. */
  lemma ThreeChained<T>(pages: seq<Response<seq<T>>>, u1: string, u2: string, u3: string, isoOf: string -> string)
    requires |pages| == 3 && pages[0].Ok() && pages[1].Ok() && pages[2].Ok()
    requires u1 != "" && u2 != "" && u3 != ""
    requires GetNextLink(pages[0].link) == Some(u2) && GetNextLink(pages[1].link) == Some(u3)
    requires GetNextLink(pages[2].link) == None
    ensures Walk(Some(u1), pages, isoOf) == Success(pages[0].body + pages[1].body + pages[2].body)
    ensures WalkRequests(Some(u1), pages) == [u1, u2, u3]
  {
    WalkStep(Some(u1), pages, 0, isoOf);
    WalkStep(Some(u2), pages, 1, isoOf);
    WalkStep(Some(u3), pages, 2, isoOf);
    assert pages[0..] == pages;
    assert pages[3..] == [];
    AppendAssoc(pages[0].body, pages[1].body, pages[2].body + []);
    assert pages[2].body + [] == pages[2].body;
  }

  /** Three pages, the first two advertising `rel="next"`: three requests, all items in page order. */
  lemma ThreePageWalk<T>(a: seq<T>, b: seq<T>, c: seq<T>, isoOf: string -> string)
    ensures var pages := [Page(a, FirstLinks), Page(b, SecondLinks), Page(c, LastLinks)];
      && Walk(Some(Page1Url), pages, isoOf) == Success(a + b + c)
      && WalkRequests(Some(Page1Url), pages) == [Page1Url, Page2Url, Page3Url]
  {
    FirstLinksNext();
    SecondLinksNext();
    LastLinksNext();
    ThreeChained([Page(a, FirstLinks), Page(b, SecondLinks), Page(c, LastLinks)], Page1Url, Page2Url, Page3Url, isoOf);
  }

  // -------------------------------------------------------------- filters

  /** `Array.prototype.filter`: keeps exactly the elements that pass, in order. */
  function Filter<T(!new)>(s: seq<T>, keep: T -> bool): (r: seq<T>)
    ensures |r| <= |s|
    ensures forall i :: 0 <= i < |r| ==> keep(r[i])
  {
    if s == [] then []
    else
      var rest := Filter(s[1..], keep);
      if keep(s[0]) then [s[0]] + rest else rest
  }

  /** Every element that passes is kept as often as it occurs; no other element is. */
  lemma {:induction false} FilterCounts<T(!new)>(s: seq<T>, keep: T -> bool)
    ensures forall x :: multiset(Filter(s, keep))[x] == if keep(x) then multiset(s)[x] else 0
  {
    if s != [] {
      FilterCounts(s[1..], keep);
      assert s == [s[0]] + s[1..];
    }
  }

  /** An element is in the filtered list exactly when it is in the list and passes. */
  lemma FilterMember<T(!new)>(s: seq<T>, keep: T -> bool, x: T)
    ensures x in Filter(s, keep) <==> x in s && keep(x)
  {
    FilterCounts(s, keep);
    assert x in Filter(s, keep) <==> multiset(Filter(s, keep))[x] > 0;
    assert x in s <==> multiset(s)[x] > 0;
  }

  /** One step of `Filter` on a non-empty list. */
  lemma FilterCons<T(!new)>(s: seq<T>, keep: T -> bool)
    requires s != []
    ensures Filter(s, keep) == (if keep(s[0]) then [s[0]] else []) + Filter(s[1..], keep)
  {
  }

  /** Filtering commutes with concatenation: the relative order of kept elements is preserved. */
  lemma {:induction false} FilterAppend<T(!new)>(a: seq<T>, b: seq<T>, keep: T -> bool)
    ensures Filter(a + b, keep) == Filter(a, keep) + Filter(b, keep)
  {
    if a == [] {
      assert a + b == b;
    } else {
      var ab := a + b;
      assert ab[0] == a[0] && ab[1..] == a[1..] + b;
      FilterAppend(a[1..], b, keep);
      FilterCons(ab, keep);
      FilterCons(a, keep);
    }
  }

  /** An item of the issues endpoint that is a real issue. */
  predicate IsIssue(it: GitHubIssue)
  {
    !it.hasPullRequest
  }

  /** The pull-request filter of listOpenIssues. */
  function WithoutPullRequests(items: seq<GitHubIssue>): (r: seq<GitHubIssue>)
    ensures forall i :: 0 <= i < |r| ==> !r[i].hasPullRequest
    ensures forall x :: multiset(r)[x] == if x.hasPullRequest then 0 else multiset(items)[x]
  {
    FilterCounts(items, IsIssue);
    Filter(items, IsIssue)
  }

  /** listOpenIssues: every page of open issues, pull requests removed. */
  method ListOpenIssues(owner: string, repo: string, perPage: int, pages: seq<Response<seq<GitHubIssue>>>, isoOf: string -> string)
    returns (r: Result<seq<GitHubIssue>, FetchError>)
    ensures r.Success? <==> Walk(Some(IssuesUrl(owner, repo, perPage)), pages, isoOf).Success?
    ensures r.Success? ==> r.value == WithoutPullRequests(Walk(Some(IssuesUrl(owner, repo, perPage)), pages, isoOf).value)
    ensures r.Failure? ==> r.error == Walk(Some(IssuesUrl(owner, repo, perPage)), pages, isoOf).error
  {
    var items, _ := GetAllPages(IssuesUrl(owner, repo, perPage), pages, isoOf);
    match items
    case Success(all) => r := Success(WithoutPullRequests(all));
    case Failure(e) => r := Failure(e);
  }

  /** The repository visibility/archival rule of getOpenIssuesByRepo. */
  predicate KeepRepo(r: GitHubRepo, includePrivate: bool, includeArchived: bool)
  {
    (includePrivate || !r.isPrivate) && (includeArchived || r.archived != Some(true))
  }

  function FilterRepos(repos: seq<GitHubRepo>, includePrivate: bool, includeArchived: bool): (r: seq<GitHubRepo>)
    ensures forall i :: 0 <= i < |r| ==> (includePrivate || !r[i].isPrivate) && (includeArchived || r[i].archived != Some(true))
    ensures forall x :: multiset(r)[x] == if KeepRepo(x, includePrivate, includeArchived) then multiset(repos)[x] else 0
  {
    var keep := x => KeepRepo(x, includePrivate, includeArchived);
    FilterCounts(repos, keep);
    Filter(repos, keep)
  }

  // -------------------------------------------------------------- summary

  function NormalizeLabel(l: RawLabel): IssueLabel
  {
    match l
    case BareLabel(name) => IssueLabel(-1, name, None, None)
    case LabelObject(id, name, color, description) => IssueLabel(id, name, color, description)
  }

  /** `issue.labels || []`. */
  function LabelsOf(issue: GitHubIssue): seq<RawLabel>
  {
    if issue.labels.Some? then issue.labels.value else []
  }

  /** `issue.user?.login ?? null`. */
  function Author(user: Option<UserRef>): (a: Option<string>)
    ensures a.Some? <==> user.Some? && user.value.login.Some?
    ensures a.Some? ==> a.value == user.value.login.value
  {
    match user
    case None => None
    case Some(u) => u.login
  }

  /** `body ? body.slice(0, chars) : null`: an empty body is falsy and has no preview. */
  function BodyPreview(body: Option<string>, chars: int): (p: Option<string>)
    ensures p.Some? <==> body.Some? && body.value != ""
    ensures p.Some? ==> IsPrefix(p.value, body.value)
    ensures p.Some? && chars >= 0 ==> p.value == body.value[..Min(|body.value|, chars)]
    ensures p.Some? && chars >= 0 ==> |p.value| <= chars
  {
    if body.Some? && body.value != "" then Some(SlicePrefix(body.value, chars)) else None
  }

  /** toIssueSummary. */
  function ToIssueSummary(issue: GitHubIssue, chars: int): (s: IssueSummary)
    ensures |s.labels| == |LabelsOf(issue)|
    ensures forall i :: 0 <= i < |s.labels| ==> s.labels[i].name == LabelsOf(issue)[i].name
    ensures forall i :: 0 <= i < |s.labels| ==>
              match LabelsOf(issue)[i]
              case BareLabel(name) => s.labels[i] == IssueLabel(-1, name, None, None)
              case LabelObject(id, name, color, description) => s.labels[i] == IssueLabel(id, name, color, description)
    ensures s.author.Some? <==> issue.user.Some? && issue.user.value.login.Some?
    ensures s.author.Some? ==> s.author.value == issue.user.value.login.value
    ensures s.id == issue.id && s.number == issue.number && s.title == issue.title
    ensures s.htmlUrl == issue.htmlUrl && s.state == issue.state
    ensures s.createdAt == issue.createdAt && s.updatedAt == issue.updatedAt
    ensures s.body == issue.body
    ensures s.bodyPreview.Some? <==> issue.body.Some? && issue.body.value != ""
    ensures s.bodyPreview.Some? && chars >= 0 ==>
              s.bodyPreview.value == issue.body.value[..Min(|issue.body.value|, chars)]
  {
    var raw := LabelsOf(issue);
    IssueSummary(
      issue.id, issue.number, issue.title, issue.htmlUrl, issue.state,
      issue.createdAt, issue.updatedAt, Author(issue.user),
      seq(|raw|, i requires 0 <= i < |raw| => NormalizeLabel(raw[i])),
      issue.body, BodyPreview(issue.body, chars))
  }

  /** An empty body is kept as `""` but gets no preview. */
  lemma EmptyBodyHasNoPreview(issue: GitHubIssue, chars: int)
    requires issue.body == Some("")
    ensures ToIssueSummary(issue, chars).body == Some("")
    ensures ToIssueSummary(issue, chars).bodyPreview == None
  {
  }

  /** `issues.map((it) => toIssueSummary(it, chars))`. */
  function Summaries(items: seq<GitHubIssue>, chars: int): (s: seq<IssueSummary>)
    ensures |s| == |items|
    ensures forall i :: 0 <= i < |s| ==> s[i] == ToIssueSummary(items[i], chars)
  {
    seq(|items|, i requires 0 <= i < |items| => ToIssueSummary(items[i], chars))
  }

  // ------------------------------------------------------------ endpoints

  /** The repository listing endpoint of an organization or a user, most recently updated first. */
  function ReposUrl(account: string, isOrg: bool, perPage: int): string
  {
    GitHubApi + (if isOrg then "/orgs/" else "/users/") + account
      + "/repos?per_page=" + IntToString(perPage) + "&sort=updated"
  }

  /** The open-issues endpoint of one repository. */
  function IssuesUrl(owner: string, repo: string, perPage: int): string
  {
    GitHubApi + "/repos/" + owner + "/" + repo + "/issues?state=open&per_page=" + IntToString(perPage)
  }
}
