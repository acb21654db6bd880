/**
 * getOpenIssuesByRepo: resolve the account, list its repositories, keep the
 * visible ones and collect the open issues of each through a pool of at most
 * five workers that share one claim counter; a repository whose issues cannot
 * be fetched maps to an empty list.
 *
 * The server is a parameter: the answer to the account lookup, the pages of the
 * user and organization repository listings, and the pages of the issues
 * listing of each repository, by repository name.
 */
module IssueCollector {
  import opened Base
  import opened JsText
  import opened GitHubClient

  /** Why the whole collection failed. */
  datatype CollectError =
    | AccountRequired
    | Fetch(error: FetchError)

  /** What the GitHub API answers to each request of one collection. */
  datatype GitHubServer = GitHubServer(
    user: Response<GitHubUser>,
    userRepoPages: seq<Response<seq<GitHubRepo>>>,
    orgRepoPages: seq<Response<seq<GitHubRepo>>>,
    issuePages: string -> seq<Response<seq<GitHubIssue>>>)

  const PoolSize: int := 5

  /** The options after their defaults are applied. */
  function IncludeArchived(o: Options): bool { if o.includeArchivedRepos.Some? then o.includeArchivedRepos.value else false }
  function IncludePrivate(o: Options): bool { if o.includePrivateRepos.Some? then o.includePrivateRepos.value else false }
  function PerPage(o: Options): int { if o.perPage.Some? then o.perPage.value else DefaultPerPage }
  function PreviewChars(o: Options): int { if o.bodyPreviewChars.Some? then o.bodyPreviewChars.value else DefaultBodyPreviewChars }

  /** `type === "Organization"`. */
  predicate IsOrganization(u: GitHubUser)
  {
    u.kind == "Organization"
  }

  function RepoPages(server: GitHubServer, isOrg: bool): seq<Response<seq<GitHubRepo>>>
  {
    if isOrg then server.orgRepoPages else server.userRepoPages
  }

  /**
   * The entry one worker writes for one repository: the summaries of its open
   * issues, or the empty list when listing them failed (fail soft).
   */
  function RepoIssues(server: GitHubServer, owner: string, name: string, perPage: int, chars: int,
                      isoOf: string -> string): (r: seq<IssueSummary>)
    ensures Walk(Some(IssuesUrl(owner, name, perPage)), server.issuePages(name), isoOf).Failure? ==> r == []
    ensures Walk(Some(IssuesUrl(owner, name, perPage)), server.issuePages(name), isoOf).Success? ==>
              var items := Walk(Some(IssuesUrl(owner, name, perPage)), server.issuePages(name), isoOf).value;
              r == Summaries(WithoutPullRequests(items), chars)
  {
    match Walk(Some(IssuesUrl(owner, name, perPage)), server.issuePages(name), isoOf)
    case Success(items) => Summaries(WithoutPullRequests(items), chars)
    case Failure(_) => []
  }

  /** The names of a list of repositories. */
  function Names(repos: seq<GitHubRepo>): (names: set<string>)
    ensures forall i :: 0 <= i < |repos| ==> repos[i].name in names
    ensures forall n :: n in names ==> exists i :: 0 <= i < |repos| && repos[i].name == n
  {
    set i | 0 <= i < |repos| :: repos[i].name
  }

  /** The one key a plain object does not store as an entry. */
  const ProtoKey: string := "__proto__"

  /**
   * `result[key] = value` on the plain object `{}`: the key `__proto__` sets
   * the object's prototype and adds no entry; any other key is written.
   */
  function SetEntry(m: map<string, seq<IssueSummary>>, key: string, value: seq<IssueSummary>)
    : map<string, seq<IssueSummary>>
  {
    if key == ProtoKey then m else m[key := value]
  }

  /** The collected map: one entry per repository name, except `__proto__`. */
  function ByName(repos: seq<GitHubRepo>, server: GitHubServer, owner: string, perPage: int, chars: int,
                  isoOf: string -> string): (m: map<string, seq<IssueSummary>>)
    ensures m.Keys == Names(repos) - {ProtoKey}
  {
    map n | n in Names(repos) && n != ProtoKey :: RepoIssues(server, owner, n, perPage, chars, isoOf)
  }

  /** getOpenIssuesByRepo, as a function of the account, the options and the server. */
  function OpenIssuesByRepo(account: string, o: Options, server: GitHubServer, isoOf: string -> string)
    : (r: Result<map<string, seq<IssueSummary>>, CollectError>)
    ensures IsBlank(account) ==> r == Failure(AccountRequired)
    ensures !IsBlank(account) && !server.user.Ok() ==> r == Failure(Fetch(Http(ParseRateLimit(server.user, isoOf))))
    ensures r.Success? ==> !IsBlank(account) && server.user.Ok()
    ensures !IsBlank(account) && server.user.Ok() ==>
              var isOrg := IsOrganization(server.user.body);
              var repos := Walk(Some(ReposUrl(account, isOrg, PerPage(o))), RepoPages(server, isOrg), isoOf);
              && (r.Success? <==> repos.Success?)
              && (repos.Failure? ==> r == Failure(Fetch(repos.error)))
  {
    if IsBlank(account) then Failure(AccountRequired)
    else
      match GetJsonOrThrow(server.user, isoOf)
      case Failure(e) => Failure(Fetch(Http(e)))
      case Success(user) =>
        var isOrg := IsOrganization(user);
        match Walk(Some(ReposUrl(account, isOrg, PerPage(o))), RepoPages(server, isOrg), isoOf)
        case Failure(e) => Failure(Fetch(e))
        case Success(repos) =>
          var filtered := FilterRepos(repos, IncludePrivate(o), IncludeArchived(o));
          Success(ByName(filtered, server, account, PerPage(o), PreviewChars(o), isoOf))
  }

  // ---------------------------------------------------------------- the pool

  /**
   * The map the workers have written after the repositories `repos` were
   * handled in order; a later repository with the same name overwrites the
   * entry, with the same value, and `__proto__` never gets one.
   */
  function Collected(repos: seq<GitHubRepo>, server: GitHubServer, owner: string, perPage: int, chars: int,
                     isoOf: string -> string): map<string, seq<IssueSummary>>
  {
    if repos == [] then map[]
    else
      var last := repos[|repos| - 1];
      SetEntry(Collected(repos[..|repos| - 1], server, owner, perPage, chars, isoOf),
               last.name, RepoIssues(server, owner, last.name, perPage, chars, isoOf))
  }

  /** Handling repositories one by one builds exactly the map with one entry per name. */
  lemma {:induction false} CollectedByName(repos: seq<GitHubRepo>, server: GitHubServer, owner: string, perPage: int,
                                           chars: int, isoOf: string -> string)
    ensures Collected(repos, server, owner, perPage, chars, isoOf) == ByName(repos, server, owner, perPage, chars, isoOf)
  {
    if repos != [] {
      CollectedByName(repos[..|repos| - 1], server, owner, perPage, chars, isoOf);
      ByNameLast(repos, server, owner, perPage, chars, isoOf);
    }
  }

  /** The map for a list is that of the list without its last repository, with the last one's entry set. */
  lemma ByNameLast(repos: seq<GitHubRepo>, server: GitHubServer, owner: string, perPage: int, chars: int,
                   isoOf: string -> string)
    requires repos != []
    ensures var last := repos[|repos| - 1];
            ByName(repos, server, owner, perPage, chars, isoOf)
            == SetEntry(ByName(repos[..|repos| - 1], server, owner, perPage, chars, isoOf),
                        last.name, RepoIssues(server, owner, last.name, perPage, chars, isoOf))
  {
    NamesLast(repos);
  }

  /** The names of a list are those of the list without its last repository, plus the last one's. */
  lemma NamesLast(repos: seq<GitHubRepo>)
    requires repos != []
    ensures Names(repos) == Names(repos[..|repos| - 1]) + {repos[|repos| - 1].name}
  {
    var init := repos[..|repos| - 1];
    forall n | n in Names(repos) ensures n in Names(init) + {repos[|repos| - 1].name} {
      var i :| 0 <= i < |repos| && repos[i].name == n;
      if i < |repos| - 1 {
        assert init[i].name == n;
      }
    }
    forall n | n in Names(init) ensures n in Names(repos) {
      var i :| 0 <= i < |init| && init[i].name == n;
      assert repos[i].name == n;
    }
  }

  lemma CollectedStep(repos: seq<GitHubRepo>, i: nat, server: GitHubServer, owner: string, perPage: int,
                      chars: int, isoOf: string -> string)
    requires i < |repos|
    ensures Collected(repos[..i + 1], server, owner, perPage, chars, isoOf)
            == SetEntry(Collected(repos[..i], server, owner, perPage, chars, isoOf),
                        repos[i].name, RepoIssues(server, owner, repos[i].name, perPage, chars, isoOf))
  {
    assert repos[..i + 1][..i] == repos[..i];
  }

  /** The state the workers share: the claim counter and the result object. */
  class IssuePool {
    const repos: seq<GitHubRepo>
    const server: GitHubServer
    const owner: string
    const perPage: int
    const chars: int
    const isoOf: string -> string

    /** `idx`: the next index to claim. */
    var idx: nat
    /** `result`: repository name to summaries. */
    var result: map<string, seq<IssueSummary>>

    /** The result holds the entries of every repository claimed so far. */
    ghost predicate Valid()
      reads this
    {
      result == Collected(repos[..Min(idx, |repos|)], server, owner, perPage, chars, isoOf)
    }

    constructor (repos: seq<GitHubRepo>, server: GitHubServer, owner: string, perPage: int, chars: int,
                 isoOf: string -> string)
      ensures this.repos == repos && this.server == server && this.owner == owner
      ensures this.perPage == perPage && this.chars == chars && this.isoOf == isoOf
      ensures idx == 0 && result == map[]
      ensures Valid()
    {
      this.repos := repos;
      this.server := server;
      this.owner := owner;
      this.perPage := perPage;
      this.chars := chars;
      this.isoOf := isoOf;
      idx := 0;
      result := map[];
    }

    /** The body of the `try`/`catch` for repository `i`: its summaries, or `[]` on any error. */
    method FetchRepo(i: nat)
      requires i < |repos|
      modifies this
      ensures idx == old(idx)
      ensures result == SetEntry(old(result), repos[i].name, RepoIssues(server, owner, repos[i].name, perPage, chars, isoOf))
    {
      var name := repos[i].name;
      var issues := ListOpenIssues(owner, name, perPage, server.issuePages(name), isoOf);
      match issues
      case Success(items) =>
        result := SetEntry(result, name, Summaries(items, chars));
      case Failure(_) =>
        result := SetEntry(result, name, []);
    }

    /**
     * worker: claim indices until they run out. It handles every repository
     * not yet claimed, in order, and its last claim is the one that fails.
     */
    method Worker()
      requires Valid()
      modifies this
      ensures idx == Max(old(idx), |repos|) + 1
      ensures result == Collected(repos, server, owner, perPage, chars, isoOf)
      ensures Valid()
    {
      while true
        invariant Valid()
        invariant old(idx) <= idx
        invariant idx <= Max(old(idx), |repos|)
        decreases |repos| + 1 - idx
      {
        var i := idx;
        idx := idx + 1;
        if i >= |repos| {
          assert repos[..Min(i, |repos|)] == repos;
          break;
        }
        CollectedStep(repos, i, server, owner, perPage, chars, isoOf);
        FetchRepo(i);
      }
    }
  }

  /** Runs `min(5, repos.length)` workers over a fresh pool and returns its result. */
  method RunPool(repos: seq<GitHubRepo>, server: GitHubServer, owner: string, perPage: int, chars: int,
                 isoOf: string -> string)
    returns (result: map<string, seq<IssueSummary>>, claims: nat)
    ensures result == ByName(repos, server, owner, perPage, chars, isoOf)
    ensures claims == |repos| + Min(PoolSize, |repos|)
  {
    var pool := new IssuePool(repos, server, owner, perPage, chars, isoOf);
    var workers := Min(PoolSize, |repos|);
    var w := 0;
    while w < workers
      invariant 0 <= w <= workers
      invariant pool.repos == repos && pool.server == server && pool.owner == owner
      invariant pool.perPage == perPage && pool.chars == chars && pool.isoOf == isoOf
      invariant pool.Valid()
      invariant w == 0 ==> pool.idx == 0
      invariant w > 0 ==> pool.idx == |repos| + w
    {
      pool.Worker();
      w := w + 1;
    }
    assert repos[..Min(pool.idx, |repos|)] == repos;
    CollectedByName(repos, server, owner, perPage, chars, isoOf);
    result := pool.result;
    claims := pool.idx;
  }

  /** getOpenIssuesByRepo. */
  method GetOpenIssuesByRepo(account: string, o: Options, server: GitHubServer, isoOf: string -> string)
    returns (r: Result<map<string, seq<IssueSummary>>, CollectError>)
    ensures r == OpenIssuesByRepo(account, o, server, isoOf)
  {
    if IsBlank(account) {
      return Failure(AccountRequired);
    }
    var user := GetJsonOrThrow(server.user, isoOf);
    if user.Failure? {
      return Failure(Fetch(Http(user.error)));
    }
    var isOrg := IsOrganization(user.value);
    var repos, _ := GetAllPages(ReposUrl(account, isOrg, PerPage(o)), RepoPages(server, isOrg), isoOf);
    if repos.Failure? {
      return Failure(Fetch(repos.error));
    }
    var filtered := FilterRepos(repos.value, IncludePrivate(o), IncludeArchived(o));
    var result, _ := RunPool(filtered, server, account, PerPage(o), PreviewChars(o), isoOf);
    r := Success(result);
  }

  // -------------------------------------------------------------- properties

  /** The result has an entry for exactly the visible repositories of the listing, `__proto__` excepted. */
  lemma ResultKeys(account: string, o: Options, server: GitHubServer, isoOf: string -> string, n: string)
    requires OpenIssuesByRepo(account, o, server, isoOf).Success?
    ensures var isOrg := IsOrganization(server.user.body);
            var repos := Walk(Some(ReposUrl(account, isOrg, PerPage(o))), RepoPages(server, isOrg), isoOf);
            && repos.Success?
            && (n in OpenIssuesByRepo(account, o, server, isoOf).value <==>
                n != ProtoKey
                && exists i :: 0 <= i < |repos.value| && repos.value[i].name == n
                                && KeepRepo(repos.value[i], IncludePrivate(o), IncludeArchived(o)))
  {
    var isOrg := IsOrganization(server.user.body);
    var repos := Walk(Some(ReposUrl(account, isOrg, PerPage(o))), RepoPages(server, isOrg), isoOf).value;
    VisibleNames(repos, IncludePrivate(o), IncludeArchived(o), n);
  }

  lemma VisibleNames(repos: seq<GitHubRepo>, includePrivate: bool, includeArchived: bool, n: string)
    ensures n in Names(FilterRepos(repos, includePrivate, includeArchived)) <==>
            exists i :: 0 <= i < |repos| && repos[i].name == n && KeepRepo(repos[i], includePrivate, includeArchived)
  {
    var keep := x => KeepRepo(x, includePrivate, includeArchived);
    NamesOfFilter(repos, keep, n);
  }

  /** A name survives a filter exactly when some repository of that name passes it. */
  lemma NamesOfFilter(repos: seq<GitHubRepo>, keep: GitHubRepo -> bool, n: string)
    ensures n in Names(Filter(repos, keep)) <==> exists i :: 0 <= i < |repos| && repos[i].name == n && keep(repos[i])
  {
    var filtered := Filter(repos, keep);
    if n in Names(filtered) {
      var j :| 0 <= j < |filtered| && filtered[j].name == n;
      FilterMember(repos, keep, filtered[j]);
      var i :| 0 <= i < |repos| && repos[i] == filtered[j];
      assert repos[i].name == n && keep(repos[i]);
    }
    if exists i :: 0 <= i < |repos| && repos[i].name == n && keep(repos[i]) {
      var i :| 0 <= i < |repos| && repos[i].name == n && keep(repos[i]);
      FilterMember(repos, keep, repos[i]);
      var j :| 0 <= j < |filtered| && filtered[j] == repos[i];
      assert filtered[j].name == n;
    }
  }

  /** With the default options, private and archived repositories never get an entry. */
  lemma DefaultsSkipPrivateAndArchived(account: string, o: Options, server: GitHubServer, isoOf: string -> string,
                                       n: string)
    requires o.includePrivateRepos.None? && o.includeArchivedRepos.None?
    requires OpenIssuesByRepo(account, o, server, isoOf).Success?
    requires n in OpenIssuesByRepo(account, o, server, isoOf).value
    ensures var isOrg := IsOrganization(server.user.body);
            var repos := Walk(Some(ReposUrl(account, isOrg, PerPage(o))), RepoPages(server, isOrg), isoOf);
            exists i :: 0 <= i < |repos.value| && repos.value[i].name == n
                        && !repos.value[i].isPrivate && repos.value[i].archived != Some(true)
  {
    ResultKeys(account, o, server, isoOf, n);
  }

  /**
   * Fail soft: once the account and its repository listing were read, the
   * call succeeds, and a kept repository whose issues cannot be listed maps
   * to the empty list.
   */
  lemma FailSoft(account: string, o: Options, server: GitHubServer, isoOf: string -> string, n: string)
    requires !IsBlank(account) && server.user.Ok()
    requires var isOrg := IsOrganization(server.user.body);
             var repos := Walk(Some(ReposUrl(account, isOrg, PerPage(o))), RepoPages(server, isOrg), isoOf);
             && repos.Success?
             && n != ProtoKey
             && exists i :: 0 <= i < |repos.value| && repos.value[i].name == n
                             && KeepRepo(repos.value[i], IncludePrivate(o), IncludeArchived(o))
    requires Walk(Some(IssuesUrl(account, n, PerPage(o))), server.issuePages(n), isoOf).Failure?
    ensures OpenIssuesByRepo(account, o, server, isoOf).Success?
    ensures n in OpenIssuesByRepo(account, o, server, isoOf).value
    ensures OpenIssuesByRepo(account, o, server, isoOf).value[n] == []
  {
    ResultKeys(account, o, server, isoOf, n);
    EntryOf(account, o, server, isoOf, n);
  }

  /** No entry summarizes a pull request: each entry has one summary per real issue of the listing. */
  lemma EntriesAreIssues(account: string, o: Options, server: GitHubServer, isoOf: string -> string, n: string)
    requires OpenIssuesByRepo(account, o, server, isoOf).Success?
    requires n in OpenIssuesByRepo(account, o, server, isoOf).value
    requires Walk(Some(IssuesUrl(account, n, PerPage(o))), server.issuePages(n), isoOf).Success?
    ensures var items := Walk(Some(IssuesUrl(account, n, PerPage(o))), server.issuePages(n), isoOf).value;
            var entry := OpenIssuesByRepo(account, o, server, isoOf).value[n];
            && |entry| == |WithoutPullRequests(items)|
            && forall k :: 0 <= k < |entry| ==>
                 exists i :: 0 <= i < |items| && !items[i].hasPullRequest && entry[k] == ToIssueSummary(items[i], PreviewChars(o))
  {
    var items := Walk(Some(IssuesUrl(account, n, PerPage(o))), server.issuePages(n), isoOf).value;
    EntryOf(account, o, server, isoOf, n);
    SummariesOfIssues(items, PreviewChars(o));
  }

  /** The entry of a kept repository is what its issue listing gives. */
  lemma EntryOf(account: string, o: Options, server: GitHubServer, isoOf: string -> string, n: string)
    requires OpenIssuesByRepo(account, o, server, isoOf).Success?
    requires n in OpenIssuesByRepo(account, o, server, isoOf).value
    ensures OpenIssuesByRepo(account, o, server, isoOf).value[n]
            == RepoIssues(server, account, n, PerPage(o), PreviewChars(o), isoOf)
  {
  }

  /** Each summary of the pull-request-free listing summarizes a real issue of the listing. */
  lemma SummariesOfIssues(items: seq<GitHubIssue>, chars: int)
    ensures var s := Summaries(WithoutPullRequests(items), chars);
      forall k :: 0 <= k < |s| ==>
        exists i :: 0 <= i < |items| && !items[i].hasPullRequest && s[k] == ToIssueSummary(items[i], chars)
  {
    var issues := WithoutPullRequests(items);
    forall k | 0 <= k < |issues|
      ensures exists i :: 0 <= i < |items| && !items[i].hasPullRequest && issues[k] == items[i]
    {
      FilterMember(items, IsIssue, issues[k]);
      var i :| 0 <= i < |items| && items[i] == issues[k];
    }
  }
}
