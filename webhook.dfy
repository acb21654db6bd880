/**
 * The GitHub webhook route of the backend: a signature gate, a switch on the
 * event name, and three handlers that turn pull-request, issue and push
 * events into contribution records of the project the repository belongs to.
 *
 * HMAC-SHA256 and `JSON.stringify` are parameters: `hmac(secret, text)` is the
 * hex digest and the request carries the serialized body it was sent with.
 * The store is a class holding the project table and the contribution table.
 */
module Webhook {
  import opened Base
  import opened JsText

  // ------------------------------------------------------------------ tables

  datatype Status = Pending | Approved

  datatype ContributionType = Feature | BugFix | Other

  /** A row of the contribution table. */
  datatype Contribution = Contribution(
    projectId: string, channelId: string, contributor: string, kind: ContributionType,
    title: string, description: Option<string>, amount: int, status: Status, githubUrl: string)

  /** A row of the project table; `repository` is the repository's web URL. */
  datatype Project = Project(id: string, name: string, repository: string)

  // ---------------------------------------------------------------- payloads

  datatype PullRequest = PullRequest(htmlUrl: string, number: int, title: string, body: Option<string>,
                                     merged: bool, login: string)

  datatype Issue = Issue(htmlUrl: string, number: int, title: string, body: Option<string>, login: string)

  /** A pushed commit; `username` is `commit.author.username`. */
  datatype Commit = Commit(id: string, message: string, url: string, username: string)

  /** The parts of a request body the handlers read; a missing part is `None`. */
  datatype Payload = Payload(
    action: Option<string>, pullRequest: Option<PullRequest>, issue: Option<Issue>,
    repository: Option<string>, commits: Option<seq<Commit>>)

  /**
   * A delivery: the signature and event headers, the body, and the text
   * `JSON.stringify` gives for the body.
   */
  datatype Request = Request(signature: Option<string>, event: Option<string>, body: Payload, serialized: string)

  // ------------------------------------------------------------- the gate

  /** `process.env.GITHUB_WEBHOOK_SECRET || ''`. */
  function SecretOrEmpty(secret: Option<string>): string
  {
    if secret.Some? then secret.value else ""
  }

  /**
   * `expectedSignature !== providedSignature` fails: the header is present and,
   * once its first `sha256=` is removed, equals the hex digest of the body.
   */
  predicate SignatureValid(req: Request, secret: Option<string>, hmac: (string, string) -> string)
  {
    req.signature.Some?
    && RemoveFirst(req.signature.value, "sha256=") == hmac(SecretOrEmpty(secret), req.serialized)
  }

  lemma RemoveLeading(pat: string, s: string)
    ensures RemoveFirst(pat + s, pat) == s
  {
    assert IsPrefix(pat, pat + s);
    assert (pat + s)[|pat|..] == s;
  }

  /**
   * The header GitHub sends, `sha256=<digest>`, is accepted, and so is the
   * bare digest; a delivery without the header never is.
   */
  lemma GateAcceptsDigest(req: Request, secret: Option<string>, hmac: (string, string) -> string)
    requires IsHexDigits(hmac(SecretOrEmpty(secret), req.serialized))
    ensures req.signature == Some("sha256=" + hmac(SecretOrEmpty(secret), req.serialized)) ==> SignatureValid(req, secret, hmac)
    ensures req.signature == Some(hmac(SecretOrEmpty(secret), req.serialized)) ==> SignatureValid(req, secret, hmac)
    ensures req.signature.None? ==> !SignatureValid(req, secret, hmac)
  {
    var d := hmac(SecretOrEmpty(secret), req.serialized);
    RemoveLeading("sha256=", d);
    assert !IsHexDigit('s');
    NotIncludesFirst(d, "sha256=");
  }

  // ------------------------------------------------------------- the rules

  /** `prisma.project.findFirst({ where: { repository } })`. */
  function FindProject(projects: seq<Project>, repository: string): (p: Option<Project>)
    ensures p.Some? ==> p.value in projects && p.value.repository == repository
    ensures p.None? <==> forall i :: 0 <= i < |projects| ==> projects[i].repository != repository
  {
    if projects == [] then None
    else if projects[0].repository == repository then Some(projects[0])
    else
      var r := FindProject(projects[1..], repository);
      assert forall i :: 1 <= i < |projects| ==> projects[i] == projects[1..][i - 1];
      r
  }

  /** Actions that touch the table. */
  predicate Handled(action: Option<string>)
  {
    action == Some("opened") || action == Some("closed")
  }

  /** The status an existing record gets from a pull-request event. */
  function PullRequestStatus(action: Option<string>, pr: PullRequest): (s: Status)
    ensures s == Approved <==> action == Some("closed") && pr.merged
  {
    if action == Some("closed") && pr.merged then Approved else Pending
  }

  /** The status an existing record gets from an issue event. */
  function IssueStatus(action: Option<string>): (s: Status)
    ensures s == Approved <==> action == Some("closed")
  {
    if action == Some("closed") then Approved else Pending
  }

  /** The record a first pull-request event creates: pending, a feature, nothing paid yet. */
  function NewPullRequestRecord(project: Project, pr: PullRequest): (r: Contribution)
    ensures r.status == Pending && r.kind == Feature && r.amount == 0 && r.channelId == ""
    ensures r.projectId == project.id && r.githubUrl == pr.htmlUrl && r.contributor == pr.login
    ensures r.title == pr.title && r.description == pr.body
  {
    Contribution(project.id, "", pr.login, Feature, pr.title, pr.body, 0, Pending, pr.htmlUrl)
  }

  /** The record a first issue event creates: pending, a bug fix, nothing paid yet. */
  function NewIssueRecord(project: Project, issue: Issue): (r: Contribution)
    ensures r.status == Pending && r.kind == BugFix && r.amount == 0 && r.channelId == ""
    ensures r.projectId == project.id && r.githubUrl == issue.htmlUrl && r.contributor == issue.login
    ensures r.title == issue.title && r.description == issue.body
  {
    Contribution(project.id, "", issue.login, BugFix, issue.title, issue.body, 0, Pending, issue.htmlUrl)
  }

  /** Position of the first record with `url`, or `|cs|`. */
  function IndexOfUrl(cs: seq<Contribution>, url: string): (i: nat)
    ensures i <= |cs|
    ensures i < |cs| ==> cs[i].githubUrl == url
    ensures forall j :: 0 <= j < i ==> cs[j].githubUrl != url
  {
    if cs == [] then 0 else if cs[0].githubUrl == url then 0 else 1 + IndexOfUrl(cs[1..], url)
  }

  /**
   * `prisma.contribution.upsert` keyed by `url`: the record with that URL gets
   * `status` and keeps every other field; without one, `create` is appended.
   */
  function Upsert(cs: seq<Contribution>, url: string, status: Status, create: Contribution): (r: seq<Contribution>)
    requires create.githubUrl == url
    ensures IndexOfUrl(cs, url) < |cs| ==>
              |r| == |cs| && r[IndexOfUrl(cs, url)] == cs[IndexOfUrl(cs, url)].(status := status)
              && forall j :: 0 <= j < |cs| && j != IndexOfUrl(cs, url) ==> r[j] == cs[j]
    ensures IndexOfUrl(cs, url) == |cs| ==> r == cs + [create]
    ensures exists j :: 0 <= j < |r| && r[j].githubUrl == url
  {
    var i := IndexOfUrl(cs, url);
    if i < |cs| then cs[i := cs[i].(status := status)]
    else
      var r := cs + [create];
      assert r[|cs|].githubUrl == url;
      r
  }

  /** No two records share a URL. */
  ghost predicate UniqueUrls(cs: seq<Contribution>)
  {
    forall i, j :: 0 <= i < j < |cs| ==> cs[i].githubUrl != cs[j].githubUrl
  }

  /** Upserting keeps the URLs of the table unique. */
  lemma UpsertKeepsUrlsUnique(cs: seq<Contribution>, url: string, status: Status, create: Contribution)
    requires create.githubUrl == url && UniqueUrls(cs)
    ensures UniqueUrls(Upsert(cs, url, status, create))
  {
    var r := Upsert(cs, url, status, create);
    forall i, j | 0 <= i < j < |r|
      ensures r[i].githubUrl != r[j].githubUrl
    {
      if IndexOfUrl(cs, url) == |cs| && j == |cs| {
        assert r[i] == cs[i];
      }
    }
  }

  /** The keyword test of the push handler. */
  predicate IsContributionMessage(message: string)
  {
    var m := ToLower(message);
    Includes(m, "fix") || Includes(m, "feature") || Includes(m, "docs") || Includes(m, "test")
  }

  /** `message.split('\n')[0]`: the text before the first line break. */
  function FirstLine(message: string): (t: string)
    ensures IsPrefix(t, message) && '\n' !in t
    ensures |t| < |message| ==> message[|t|] == '\n'
    ensures t == message <==> '\n' !in message
  {
    var i := IndexOfChar(message, '\n');
    var t := Split(message, '\n')[0];
    assert t == message[..i];
    assert '\n' !in message ==> i == |message|;
    t
  }

  /** The record a keyword commit creates. */
  function CommitRecord(project: Project, c: Commit): (r: Contribution)
    ensures r.title == FirstLine(c.message) && r.description == Some(c.message)
    ensures r.status == Pending && r.kind == Other && r.amount == 0 && r.githubUrl == c.url
    ensures r.projectId == project.id && r.contributor == c.username && r.channelId == ""
  {
    Contribution(project.id, "", c.username, Other, FirstLine(c.message), Some(c.message), 0, Pending, c.url)
  }

  /** The records a push creates, in commit order: one per keyword commit. */
  function CommitRecords(project: Project, commits: seq<Commit>): (rs: seq<Contribution>)
    ensures |rs| <= |commits|
    ensures forall k :: 0 <= k < |rs| ==> rs[k].status == Pending && rs[k].kind == Other
  {
    if commits == [] then []
    else
      var last := commits[|commits| - 1];
      CommitRecords(project, commits[..|commits| - 1])
        + (if IsContributionMessage(last.message) then [CommitRecord(project, last)] else [])
  }

  /** The records of the first `k + 1` commits: those of the first `k`, then the one of commit `k`, if any. */
  lemma CommitRecordsStep(project: Project, commits: seq<Commit>, k: nat)
    requires k < |commits|
    ensures CommitRecords(project, commits[..k + 1])
            == CommitRecords(project, commits[..k])
               + (if IsContributionMessage(commits[k].message) then [CommitRecord(project, commits[k])] else [])
  {
    assert commits[..k + 1][..k] == commits[..k];
  }

  /** `CommitRecords` unfolded once on a non-empty push. */
  lemma CommitRecordsLast(project: Project, commits: seq<Commit>)
    requires commits != []
    ensures var last := commits[|commits| - 1];
      CommitRecords(project, commits)
      == CommitRecords(project, commits[..|commits| - 1])
         + (if IsContributionMessage(last.message) then [CommitRecord(project, last)] else [])
  {
  }

  /** Records of a longer push extend those of its prefix. */
  lemma {:induction false} CommitRecordsAppend(project: Project, a: seq<Commit>, b: seq<Commit>)
    ensures CommitRecords(project, a + b) == CommitRecords(project, a) + CommitRecords(project, b)
    decreases |b|
  {
    if b == [] {
      assert a + b == a;
    } else {
      var init := b[..|b| - 1];
      CommitRecordsAppend(project, a, init);
      assert (a + b)[..|a + b| - 1] == a + init;
      assert (a + b)[|a + b| - 1] == b[|b| - 1];
      CommitRecordsLast(project, a + b);
      CommitRecordsLast(project, b);
      var last := b[|b| - 1];
      AppendAssoc(CommitRecords(project, a), CommitRecords(project, init),
                  if IsContributionMessage(last.message) then [CommitRecord(project, last)] else []);
    }
  }

  /** A commit without a keyword creates nothing; one with a keyword creates exactly its record. */
  lemma OneCommit(project: Project, c: Commit)
    ensures IsContributionMessage(c.message) ==> CommitRecords(project, [c]) == [CommitRecord(project, c)]
    ensures !IsContributionMessage(c.message) ==> CommitRecords(project, [c]) == []
  {
    assert [c][..0] == [];
  }

  // ------------------------------------------------------------ the handlers

  /**
   * handlePullRequest as a function of the tables: `None` when it throws (a
   * missing repository or pull request), the new contribution table otherwise.
   */
  function PullRequestEffect(projects: seq<Project>, cs: seq<Contribution>, p: Payload): (r: Option<seq<Contribution>>)
    ensures !Handled(p.action) ==> r == Some(cs)
    ensures Handled(p.action) && p.repository.None? ==> r.None?
    ensures Handled(p.action) && p.repository.Some? && FindProject(projects, p.repository.value).None? ==> r == Some(cs)
  {
    if !Handled(p.action) then Some(cs)
    else if p.repository.None? then None
    else
      match FindProject(projects, p.repository.value)
      case None => Some(cs)
      case Some(project) =>
        if p.pullRequest.None? then None
        else
          var pr := p.pullRequest.value;
          Some(Upsert(cs, pr.htmlUrl, PullRequestStatus(p.action, pr), NewPullRequestRecord(project, pr)))
  }

  /** handleIssue, in the same form. */
  function IssueEffect(projects: seq<Project>, cs: seq<Contribution>, p: Payload): (r: Option<seq<Contribution>>)
    ensures !Handled(p.action) ==> r == Some(cs)
    ensures Handled(p.action) && p.repository.None? ==> r.None?
    ensures Handled(p.action) && p.repository.Some? && FindProject(projects, p.repository.value).None? ==> r == Some(cs)
  {
    if !Handled(p.action) then Some(cs)
    else if p.repository.None? then None
    else
      match FindProject(projects, p.repository.value)
      case None => Some(cs)
      case Some(project) =>
        if p.issue.None? then None
        else
          var issue := p.issue.value;
          Some(Upsert(cs, issue.htmlUrl, IssueStatus(p.action), NewIssueRecord(project, issue)))
  }

  /**
   * For a handled action on a known repository, a pull-request event without
   * its pull request throws, and otherwise the pull request is upserted by its
   * URL: an existing record gets the event's status, a new one is created.
   */
  lemma PullRequestUpserts(projects: seq<Project>, cs: seq<Contribution>, p: Payload)
    requires Handled(p.action) && p.repository.Some? && FindProject(projects, p.repository.value).Some?
    ensures p.pullRequest.None? ==> PullRequestEffect(projects, cs, p).None?
    ensures p.pullRequest.Some? ==>
              var pr := p.pullRequest.value;
              var project := FindProject(projects, p.repository.value).value;
              PullRequestEffect(projects, cs, p)
              == Some(Upsert(cs, pr.htmlUrl, PullRequestStatus(p.action, pr), NewPullRequestRecord(project, pr)))
  {
  }

  /** The same for issue events. */
  lemma IssueUpserts(projects: seq<Project>, cs: seq<Contribution>, p: Payload)
    requires Handled(p.action) && p.repository.Some? && FindProject(projects, p.repository.value).Some?
    ensures p.issue.None? ==> IssueEffect(projects, cs, p).None?
    ensures p.issue.Some? ==>
              var issue := p.issue.value;
              var project := FindProject(projects, p.repository.value).value;
              IssueEffect(projects, cs, p)
              == Some(Upsert(cs, issue.htmlUrl, IssueStatus(p.action), NewIssueRecord(project, issue)))
  {
  }

  /** What a handler that may throw halfway leaves: whether it returned, and the table. */
  datatype Effect = Effect(ok: bool, table: seq<Contribution>)

  /** Some record of the table has `url`. */
  predicate HasUrl(cs: seq<Contribution>, url: string)
  {
    IndexOfUrl(cs, url) < |cs|
  }

  /**
   * The commit loop of handlePush, from table `cs`: each keyword commit's
   * `create` appends its record, and the first `create` whose URL is already
   * in the table throws, leaving the records created before it.
   */
  function CreateAll(project: Project, cs: seq<Contribution>, commits: seq<Commit>): (e: Effect)
    ensures |e.table| >= |cs| && e.table[..|cs|] == cs
    ensures UniqueUrls(cs) ==> UniqueUrls(e.table)
    decreases |commits|
  {
    if commits == [] then Effect(true, cs)
    else
      var c := commits[0];
      if !IsContributionMessage(c.message) then CreateAll(project, cs, commits[1..])
      else if HasUrl(cs, c.url) then Effect(false, cs)
      else
        var next := cs + [CommitRecord(project, c)];
        var e := CreateAll(project, next, commits[1..]);
        assert UniqueUrls(cs) ==> UniqueUrls(next) by {
          if UniqueUrls(cs) {
            forall i, j | 0 <= i < j < |next| ensures next[i].githubUrl != next[j].githubUrl {
              if j == |cs| {
                assert next[i] == cs[i];
              }
            }
          }
        }
        assert e.table[..|cs|] == e.table[..|next|][..|cs|];
        e
  }

  /**
   * handlePush, in the same form: a missing repository or commit list throws
   * before anything is written, an unknown repository changes nothing, and
   * otherwise the commit loop runs.
   */
  function PushEffect(projects: seq<Project>, cs: seq<Contribution>, p: Payload): (r: Effect)
    ensures p.repository.None? ==> r == Effect(false, cs)
    ensures p.repository.Some? && FindProject(projects, p.repository.value).None? ==> r == Effect(true, cs)
    ensures |r.table| >= |cs| && r.table[..|cs|] == cs
    ensures UniqueUrls(cs) ==> UniqueUrls(r.table)
  {
    if p.repository.None? then Effect(false, cs)
    else
      match FindProject(projects, p.repository.value)
      case None => Effect(true, cs)
      case Some(project) =>
        if p.commits.None? then Effect(false, cs)
        else CreateAll(project, cs, p.commits.value)
  }

  /** `CreateAll` unfolded once on a commit with a keyword. */
  lemma CreateAllKeyword(project: Project, cs: seq<Contribution>, commits: seq<Commit>)
    requires commits != [] && IsContributionMessage(commits[0].message)
    ensures CreateAll(project, cs, commits)
            == if HasUrl(cs, commits[0].url) then Effect(false, cs)
               else CreateAll(project, cs + [CommitRecord(project, commits[0])], commits[1..])
  {
  }

  /** The records of a push, split after its first commit. */
  lemma CommitRecordsFirst(project: Project, commits: seq<Commit>)
    requires commits != []
    ensures CommitRecords(project, commits)
            == (if IsContributionMessage(commits[0].message) then [CommitRecord(project, commits[0])] else [])
               + CommitRecords(project, commits[1..])
  {
    assert commits == [commits[0]] + commits[1..];
    CommitRecordsAppend(project, [commits[0]], commits[1..]);
    OneCommit(project, commits[0]);
  }

  /** A loop that returns normally has appended exactly the records of the push. */
  lemma {:induction false} CreateAllRecords(project: Project, cs: seq<Contribution>, commits: seq<Commit>)
    requires CreateAll(project, cs, commits).ok
    ensures CreateAll(project, cs, commits).table == cs + CommitRecords(project, commits)
    decreases |commits|
  {
    if commits == [] {
      assert cs + [] == cs;
    } else {
      var c := commits[0];
      CommitRecordsFirst(project, commits);
      if IsContributionMessage(c.message) {
        CreateAllKeyword(project, cs, commits);
        CreateAllRecords(project, cs + [CommitRecord(project, c)], commits[1..]);
        AppendAssoc(cs, [CommitRecord(project, c)], CommitRecords(project, commits[1..]));
      } else {
        CreateAllRecords(project, cs, commits[1..]);
        assert [] + CommitRecords(project, commits[1..]) == CommitRecords(project, commits[1..]);
      }
    }
  }

  /** The loop returns normally when the table with the push's records appended has unique URLs. */
  lemma {:induction false} CreateAllSucceeds(project: Project, cs: seq<Contribution>, commits: seq<Commit>)
    requires UniqueUrls(cs + CommitRecords(project, commits))
    ensures CreateAll(project, cs, commits).ok
    decreases |commits|
  {
    if commits != [] {
      var c := commits[0];
      var rest := CommitRecords(project, commits[1..]);
      CommitRecordsFirst(project, commits);
      if IsContributionMessage(c.message) {
        var rec := CommitRecord(project, c);
        var all := cs + CommitRecords(project, commits);
        AppendAssoc(cs, [rec], rest);
        assert all[|cs|] == rec;
        forall i | 0 <= i < |cs|
          ensures cs[i].githubUrl != c.url
        {
          assert all[i] == cs[i];
        }
        assert !HasUrl(cs, c.url);
        CreateAllKeyword(project, cs, commits);
        CreateAllSucceeds(project, cs + [rec], commits[1..]);
      } else {
        assert [] + rest == rest;
        CreateAllSucceeds(project, cs, commits[1..]);
      }
    }
  }

  /**
   * From a table with unique URLs, the loop returns normally exactly when the
   * push's records can all be appended without repeating a URL.
   */
  lemma CreateAllOkIff(project: Project, cs: seq<Contribution>, commits: seq<Commit>)
    requires UniqueUrls(cs)
    ensures CreateAll(project, cs, commits).ok <==> UniqueUrls(cs + CommitRecords(project, commits))
  {
    if CreateAll(project, cs, commits).ok {
      CreateAllRecords(project, cs, commits);
    }
    if UniqueUrls(cs + CommitRecords(project, commits)) {
      CreateAllSucceeds(project, cs, commits);
    }
  }

  /** A URL in a table stays in every extension of it. */
  lemma HasUrlExtends(cs: seq<Contribution>, longer: seq<Contribution>, url: string)
    requires HasUrl(cs, url) && |longer| >= |cs| && longer[..|cs|] == cs
    ensures HasUrl(longer, url)
  {
    var i := IndexOfUrl(cs, url);
    assert longer[i] == cs[i];
  }

  /** A loop that returns normally leaves every keyword commit's URL in the table. */
  lemma {:induction false} CreateAllCovers(project: Project, cs: seq<Contribution>, commits: seq<Commit>)
    requires CreateAll(project, cs, commits).ok
    ensures forall k :: 0 <= k < |commits| && IsContributionMessage(commits[k].message) ==>
              HasUrl(CreateAll(project, cs, commits).table, commits[k].url)
    decreases |commits|
  {
    if commits != [] {
      var c := commits[0];
      var e := CreateAll(project, cs, commits);
      if IsContributionMessage(c.message) {
        CreateAllKeyword(project, cs, commits);
        var next := cs + [CommitRecord(project, c)];
        CreateAllCovers(project, next, commits[1..]);
        assert next[|cs|].githubUrl == c.url;
        assert HasUrl(next, c.url);
        HasUrlExtends(next, e.table, c.url);
      } else {
        CreateAllCovers(project, cs, commits[1..]);
      }
      forall k | 0 <= k < |commits| && IsContributionMessage(commits[k].message)
        ensures HasUrl(e.table, commits[k].url)
      {
        if k > 0 {
          assert commits[k] == commits[1..][k - 1];
        }
      }
    }
  }

  /** A push whose keyword commits all have URLs in the table throws at its first keyword commit. */
  lemma {:induction false} CreateAllRejects(project: Project, cs: seq<Contribution>, commits: seq<Commit>, k: nat)
    requires k < |commits| && IsContributionMessage(commits[k].message)
    requires forall j :: 0 <= j < |commits| && IsContributionMessage(commits[j].message) ==> HasUrl(cs, commits[j].url)
    ensures CreateAll(project, cs, commits) == Effect(false, cs)
    decreases |commits|
  {
    if !IsContributionMessage(commits[0].message) {
      assert commits[k] == commits[1..][k - 1];
      forall j | 0 <= j < |commits[1..]| && IsContributionMessage(commits[1..][j].message)
        ensures HasUrl(cs, commits[1..][j].url)
      {
        assert commits[1..][j] == commits[j + 1];
      }
      CreateAllRejects(project, cs, commits[1..], k - 1);
    }
  }

  /**
   * The route: the status it answers and the contribution table it leaves. A
   * handler that throws is answered 500; only the push handler can throw after
   * it has written something.
   */
  function Route(projects: seq<Project>, cs: seq<Contribution>, req: Request, secret: Option<string>,
                 hmac: (string, string) -> string): (r: (int, seq<Contribution>))
    ensures !SignatureValid(req, secret, hmac) ==> r == (401, cs)
    ensures SignatureValid(req, secret, hmac) ==> r.0 == 200 || r.0 == 500
    ensures SignatureValid(req, secret, hmac) && req.event == Some("pull_request") ==>
              var e := PullRequestEffect(projects, cs, req.body);
              r == (if e.Some? then (200, e.value) else (500, cs))
    ensures SignatureValid(req, secret, hmac) && req.event == Some("issues") ==>
              var e := IssueEffect(projects, cs, req.body);
              r == (if e.Some? then (200, e.value) else (500, cs))
    ensures SignatureValid(req, secret, hmac) && req.event == Some("push") ==>
              var e := PushEffect(projects, cs, req.body);
              r == (if e.ok then 200 else 500, e.table)
    ensures r.0 != 200 && req.event != Some("push") ==> r.1 == cs
  {
    if !SignatureValid(req, secret, hmac) then (401, cs)
    else if req.event == Some("push") then
      var e := PushEffect(projects, cs, req.body);
      (if e.ok then 200 else 500, e.table)
    else
      var effect :=
        if req.event == Some("pull_request") then PullRequestEffect(projects, cs, req.body)
        else if req.event == Some("issues") then IssueEffect(projects, cs, req.body)
        else Some(cs);
      match effect
      case None => (500, cs)
      case Some(next) => (200, next)
  }

  /** The store behind the route. */
  class Database {
    var projects: seq<Project>
    var contributions: seq<Contribution>

    constructor (projects: seq<Project>, contributions: seq<Contribution>)
      ensures this.projects == projects && this.contributions == contributions
    {
      this.projects := projects;
      this.contributions := contributions;
    }

    /** handlePullRequest; `ok` is false when it throws. */
    method HandlePullRequest(p: Payload) returns (ok: bool)
      modifies this
      ensures projects == old(projects)
      ensures var e := PullRequestEffect(old(projects), old(contributions), p);
              ok == e.Some? && contributions == (if ok then e.value else old(contributions))
    {
      if !Handled(p.action) {
        return true;
      }
      if p.repository.None? {
        return false;
      }
      var project := FindProject(projects, p.repository.value);
      if project.None? {
        return true;
      }
      if p.pullRequest.None? {
        return false;
      }
      var pr := p.pullRequest.value;
      var i := IndexOfUrl(contributions, pr.htmlUrl);
      if i < |contributions| {
        contributions := contributions[i := contributions[i].(status := PullRequestStatus(p.action, pr))];
      } else {
        contributions := contributions + [NewPullRequestRecord(project.value, pr)];
      }
      return true;
    }

    /** handleIssue; `ok` is false when it throws. */
    method HandleIssue(p: Payload) returns (ok: bool)
      modifies this
      ensures projects == old(projects)
      ensures var e := IssueEffect(old(projects), old(contributions), p);
              ok == e.Some? && contributions == (if ok then e.value else old(contributions))
    {
      if !Handled(p.action) {
        return true;
      }
      if p.repository.None? {
        return false;
      }
      var project := FindProject(projects, p.repository.value);
      if project.None? {
        return true;
      }
      if p.issue.None? {
        return false;
      }
      var issue := p.issue.value;
      var i := IndexOfUrl(contributions, issue.htmlUrl);
      if i < |contributions| {
        contributions := contributions[i := contributions[i].(status := IssueStatus(p.action))];
      } else {
        contributions := contributions + [NewIssueRecord(project.value, issue)];
      }
      return true;
    }

    /** handlePush; `ok` is false when it throws, possibly after some records were created. */
    method HandlePush(p: Payload) returns (ok: bool)
      modifies this
      ensures projects == old(projects)
      ensures var e := PushEffect(old(projects), old(contributions), p);
              ok == e.ok && contributions == e.table
    {
      if p.repository.None? {
        return false;
      }
      var project := FindProject(projects, p.repository.value);
      if project.None? {
        return true;
      }
      if p.commits.None? {
        return false;
      }
      ok := CreateCommitRecords(project.value, p.commits.value);
    }

    /**
     * The loop of handlePush: one `create` per keyword commit, in commit order;
     * a `create` whose URL is taken throws and ends the loop.
     */
    method CreateCommitRecords(project: Project, commits: seq<Commit>) returns (ok: bool)
      modifies this
      ensures projects == old(projects)
      ensures var e := CreateAll(project, old(contributions), commits);
              ok == e.ok && contributions == e.table
    {
      var k := 0;
      while k < |commits|
        invariant k <= |commits|
        invariant projects == old(projects)
        invariant CreateAll(project, contributions, commits[k..]) == CreateAll(project, old(contributions), commits)
      {
        var c := commits[k];
        assert commits[k..][0] == c && commits[k..][1..] == commits[k + 1..];
        if IsContributionMessage(c.message) {
          if IndexOfUrl(contributions, c.url) < |contributions| {
            return false;
          }
          contributions := contributions + [CommitRecord(project, c)];
        }
        k := k + 1;
      }
      assert commits[k..] == [];
      return true;
    }

    /** The route: gate, switch, handler; 500 when the handler throws. */
    method Webhook(req: Request, secret: Option<string>, hmac: (string, string) -> string) returns (status: int)
      modifies this
      ensures projects == old(projects)
      ensures (status, contributions) == Route(old(projects), old(contributions), req, secret, hmac)
    {
      if !SignatureValid(req, secret, hmac) {
        return 401;
      }
      var ok := true;
      if req.event == Some("pull_request") {
        ok := HandlePullRequest(req.body);
      } else if req.event == Some("issues") {
        ok := HandleIssue(req.body);
      } else if req.event == Some("push") {
        ok := HandlePush(req.body);
      }
      status := if ok then 200 else 500;
    }
  }

  // -------------------------------------------------------------- properties

  /** An event outside the three handled ones is answered 200 and changes nothing. */
  lemma OtherEventsIgnored(projects: seq<Project>, cs: seq<Contribution>, req: Request, secret: Option<string>,
                           hmac: (string, string) -> string)
    requires SignatureValid(req, secret, hmac)
    requires req.event != Some("pull_request") && req.event != Some("issues") && req.event != Some("push")
    ensures Route(projects, cs, req, secret, hmac) == (200, cs)
  {
  }

  /**
   * A merged pull request whose first delivery is the `closed` event is
   * recorded as pending; delivering the same event again approves it.
   */
  lemma MergedPullRequestNeedsTwoDeliveries(projects: seq<Project>, cs: seq<Contribution>, p: Payload)
    requires p.action == Some("closed") && p.repository.Some? && p.pullRequest.Some? && p.pullRequest.value.merged
    requires FindProject(projects, p.repository.value).Some?
    requires forall i :: 0 <= i < |cs| ==> cs[i].githubUrl != p.pullRequest.value.htmlUrl
    ensures var once := PullRequestEffect(projects, cs, p).value;
            && once == cs + [NewPullRequestRecord(FindProject(projects, p.repository.value).value, p.pullRequest.value)]
            && once[|cs|].status == Pending
            && var twice := PullRequestEffect(projects, once, p).value;
               && |twice| == |once| && twice[|cs|].status == Approved
               && twice[|cs|] == once[|cs|].(status := Approved)
  {
    var pr := p.pullRequest.value;
    var once := PullRequestEffect(projects, cs, p).value;
    assert IndexOfUrl(once, pr.htmlUrl) == |cs| by {
      assert once[|cs|].githubUrl == pr.htmlUrl;
    }
  }

  /** The route keeps the URLs of the contribution table unique, whatever it answers. */
  lemma RouteKeepsUrlsUnique(projects: seq<Project>, cs: seq<Contribution>, req: Request, secret: Option<string>,
                             hmac: (string, string) -> string)
    requires UniqueUrls(cs)
    ensures UniqueUrls(Route(projects, cs, req, secret, hmac).1)
  {
    var p := req.body;
    if SignatureValid(req, secret, hmac) && Handled(p.action) && p.repository.Some?
       && FindProject(projects, p.repository.value).Some? {
      var project := FindProject(projects, p.repository.value).value;
      if req.event == Some("pull_request") && p.pullRequest.Some? {
        var pr := p.pullRequest.value;
        UpsertKeepsUrlsUnique(cs, pr.htmlUrl, PullRequestStatus(p.action, pr), NewPullRequestRecord(project, pr));
      } else if req.event == Some("issues") && p.issue.Some? {
        var issue := p.issue.value;
        UpsertKeepsUrlsUnique(cs, issue.htmlUrl, IssueStatus(p.action), NewIssueRecord(project, issue));
      }
    }
  }

  /**
   * A push to a known repository returns normally exactly when its records
   * can be appended without repeating a URL, and then it appends them all.
   */
  lemma PushAppendsRecords(projects: seq<Project>, cs: seq<Contribution>, p: Payload)
    requires UniqueUrls(cs)
    requires p.repository.Some? && FindProject(projects, p.repository.value).Some? && p.commits.Some?
    ensures var rs := CommitRecords(FindProject(projects, p.repository.value).value, p.commits.value);
            && (PushEffect(projects, cs, p).ok <==> UniqueUrls(cs + rs))
            && (PushEffect(projects, cs, p).ok ==> PushEffect(projects, cs, p).table == cs + rs)
  {
    var project := FindProject(projects, p.repository.value).value;
    CreateAllOkIff(project, cs, p.commits.value);
    if PushEffect(projects, cs, p).ok {
      CreateAllRecords(project, cs, p.commits.value);
    }
  }

  /**
   * Delivering a push again after it went through: its first keyword commit's
   * URL is taken, so the second delivery throws before writing anything.
   */
  lemma PushRedeliveryRejected(projects: seq<Project>, cs: seq<Contribution>, p: Payload, k: nat)
    requires p.repository.Some? && FindProject(projects, p.repository.value).Some? && p.commits.Some?
    requires k < |p.commits.value| && IsContributionMessage(p.commits.value[k].message)
    requires PushEffect(projects, cs, p).ok
    ensures var once := PushEffect(projects, cs, p).table;
            PushEffect(projects, once, p) == Effect(false, once)
  {
    var project := FindProject(projects, p.repository.value).value;
    var once := PushEffect(projects, cs, p).table;
    CreateAllCovers(project, cs, p.commits.value);
    CreateAllRejects(project, once, p.commits.value, k);
  }

  /**
   * A push that lists the same keyword commit twice creates its record, then
   * throws at the second `create`: the answer is 500 and the record stays.
   */
  lemma RepeatedCommitThrows(projects: seq<Project>, cs: seq<Contribution>, p: Payload, c: Commit)
    requires p.repository.Some? && FindProject(projects, p.repository.value).Some? && p.commits == Some([c, c])
    requires IsContributionMessage(c.message) && !HasUrl(cs, c.url)
    ensures PushEffect(projects, cs, p)
            == Effect(false, cs + [CommitRecord(FindProject(projects, p.repository.value).value, c)])
  {
    var project := FindProject(projects, p.repository.value).value;
    var next := cs + [CommitRecord(project, c)];
    CreateAllKeyword(project, cs, [c, c]);
    assert [c, c][1..] == [c];
    assert next[|cs|].githubUrl == c.url;
    CreateAllKeyword(project, next, [c]);
  }
}
