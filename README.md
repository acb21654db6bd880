# Open-issue collector, issue table rules and GitHub webhook, in Dafny

This project models three parts of a bounty dApp that pays contributors for GitHub work.

- **The open-issue collector** (`web/github/github.ts`):
  - the GitHub REST client that, for one account, lists the repositories and keeps the visible ones;
  - it collects every repository's open issues as compact summaries, through a pool of at most five workers;
  - its pieces are the `Link` header reader, the paginator, the HTTP error classifier, the pull-request filter, the issue projection, the repository filter and the pool.
- **The label rules of the issues table** (`web/src/components/IssuesTable.tsx`):
  - task type, priority icon and priority cell;
  - label badges, overflow marker and text colour;
  - the integer step of the seeded bounty generator and the type abbreviation.
- **The webhook route of the backend** (`backend/src/routes/github.ts`):
  - the signature gate and the event switch;
  - the pull-request, issue and push handlers that write the contribution table.

Files:

- `base.dfy`: `Option` and `Result`.
- `js_text.dfy`: the JavaScript string operations the code relies on, with their laws.
  - `toLowerCase` on ASCII, `includes`, `split` on one character, `replace` of the first occurrence, `slice(0, n)`, `trim` emptiness, `parseInt(_, 16)` and decimal rendering.
  - The laws: split/join, decimal and hex round trips, and `includes` against an occurrence definition.
- `link_header.dfy`: `getNextLink`.
  - It is specified directly as a string function for its one regular expression.
  - It is proved against a reference reading of link headers written from well-formed entries.
- `github_client.dfy`: records, the error classifier, headers, the paginator (`GetAllPages`, a loop proved against the function `Walk`), the pull-request filter, the projection and the repository filter.
- `issue_collector.dfy`: `getOpenIssuesByRepo`.
  - The pool is a class with the shared counter `idx` and the `result` map.
  - The whole call is proved equal to a specification function.
- `issues_table.dfy`: the table's label rules.
- `webhook.dfy`: the route, with the store as a class holding the project and contribution tables.

The network is a parameter:
- an endpoint is the sequence of responses the server gives to successive requests;
- a response carries its status, the `link`, `X-RateLimit-Remaining` and `X-RateLimit-Reset` headers, and the decoded body.

`isoOf` stands for `new Date(parseInt(reset, 10) * 1000).toISOString()`. `hmac(secret, text)` stands for the hex HMAC-SHA256 digest.

## Model

| member | source | states |
|---|---|---|
| LinkHeader.MatchAtShape | web/github/github.ts:99 | a match of `<([^>]+)>;\s*rel="(\w+)"` at a position has a non-empty URL free of `>` drawn from the part, and a non-empty word relation |
| LinkHeader.FirstMatchLeftmost | web/github/github.ts:99 | `match` returns the leftmost match of the pattern in a part, and null exactly when no position matches |
| LinkHeader.NextInNone | web/github/github.ts:97-102 | the loop over parts finds nothing exactly when no part's leftmost match has relation `next` |
| LinkHeader.NextInFirst | web/github/github.ts:97-102 | a found URL is that of the first part whose match has relation exactly `next`; earlier parts are skipped |
| LinkHeader.NextLinkShape | web/github/github.ts:95-103 | a null or empty header gives null; a returned URL is non-empty and holds neither `>` nor `,` |
| LinkHeader.FormatRoundTrip | web/github/github.ts:95-103 | reading a header written from well-formed `<url>; rel="x"` entries gives the URL of the first `next` entry, whatever other relations come before it |
| LinkHeader.NoNextEntry | web/github/github.ts:95-103 | a header none of whose entries is `next` gives null |
| GitHubClient.ParseRateLimit | web/github/github.ts:74-87 | the rate-limit message exactly when the remaining count is `"0"`, with "soon" without a reset header and the reset time otherwise; `GitHub API error <status>.` otherwise; the status is always attached |
| GitHubClient.GetJsonOrThrow | web/github/github.ts:89-93 | the body on a 2xx response, the classified error otherwise |
| GitHubClient.BuildHeaders | web/github/github.ts:65-72 | exactly the Accept and API-version headers, plus `Authorization: Bearer <token>` when a non-empty token is given |
| GitHubClient.GetAllPages | web/github/github.ts:105-116 | the loop returns what `Walk` gives and requests exactly the URLs `WalkRequests` lists |
| GitHubClient.WalkCollectsPages | web/github/github.ts:105-116 | after n good pages whose last link gives null, the result is the pages' items concatenated in fetch order and exactly n requests were made |
| GitHubClient.WalkAbortsOnError | web/github/github.ts:105-116 | a non-ok response in the chain aborts with its classified error, no partial items, after n+1 requests |
| GitHubClient.ThreePageWalk | web/github/github.ts:105-116 | three pages chained by `rel="next"` links, among `prev` and `last` ones, are fetched once each and concatenated in order |
| GitHubClient.ThreeChained | web/github/github.ts:105-116 | any three good pages whose links chain by `next` are requested in order and their items concatenated |
| GitHubClient.FilterCounts | web/github/github.ts:138 | `filter` keeps every passing element as often as it occurs and drops every other |
| GitHubClient.FilterAppend | web/github/github.ts:138 | filtering preserves relative order: it distributes over concatenation |
| GitHubClient.WithoutPullRequests | web/github/github.ts:134-139 | no item with a `pull_request` field survives, and every real issue survives with its multiplicity |
| GitHubClient.ListOpenIssues | web/github/github.ts:134-139 | the issues endpoint's items with pull requests removed, or the paginator's error |
| GitHubClient.FilterRepos | web/github/github.ts:193-195 | a repository is kept exactly when `(includePrivate or not private) and (includeArchived or not archived)`, with an absent `archived` counting as false |
| GitHubClient.Author | web/github/github.ts:158 | the user's login, or null when the user or the login is absent |
| GitHubClient.BodyPreview | web/github/github.ts:148-149 | a preview exactly for a non-empty body; it is the body's prefix of length min(length, chars) |
| GitHubClient.ToIssueSummary | web/github/github.ts:141-163 | labels keep length and order, a string label becomes `{id: -1, name}`, an object label is copied; identity fields are copied; author and preview as above |
| GitHubClient.EmptyBodyHasNoPreview | web/github/github.ts:148-149 | an empty body stays `""` but has no preview |
| GitHubClient.Summaries | web/github/github.ts:211 | one summary per issue, in order |
| IssueCollector.RepoIssues | web/github/github.ts:209-215 | a repository's entry is its issue summaries, or `[]` when listing them failed |
| IssueCollector.OpenIssuesByRepo | web/github/github.ts:174-226 | a blank account fails before any request; a failed account lookup fails with its classified error; after a good lookup the call succeeds exactly when the repository listing does, whatever the issue listings give, and a failed repository listing fails it with that listing's error |
| IssueCollector.CollectedByName | web/github/github.ts:204-217 | writing the entries repository by repository yields one entry per distinct name, each that repository's issues |
| IssueCollector.IssuePool.Worker | web/github/github.ts:204-217 | a worker claims every unclaimed index in turn, writes its entry, and stops after one failed claim, leaving the counter at max(old, n) + 1 |
| IssueCollector.IssuePool.FetchRepo | web/github/github.ts:209-215 | a claimed repository's entry is set to its summaries, or to `[]` when fetching throws; a repository named `__proto__` sets the object's prototype and gets no entry |
| IssueCollector.RunPool | web/github/github.ts:197-221 | min(5, n) workers leave the map with one entry per filtered name; the counter ends at n + min(5, n), so each index was claimed once |
| IssueCollector.GetOpenIssuesByRepo | web/github/github.ts:174-226 | the method computes exactly `OpenIssuesByRepo` |
| IssueCollector.ResultKeys | web/github/github.ts:192-217 | the result's keys are exactly the names of the listed repositories that pass the visibility filter, except `__proto__`, which the plain result object does not store as an entry |
| IssueCollector.DefaultsSkipPrivateAndArchived | web/github/github.ts:179-180 | with the default options every key names a public, unarchived repository |
| IssueCollector.FailSoft | web/github/github.ts:197-221 | once the account and its repository listing are read, a kept repository whose issues cannot be listed still gets an entry, `[]`, and the call succeeds |
| IssueCollector.EntriesAreIssues | web/github/github.ts:134-139 | each entry has one summary per real issue and each summary comes from an item without `pull_request` |
| IssueCollector.SummariesOfIssues | web/github/github.ts:134-139 | every summary of the filtered listing is the projection of an item of the listing that has no `pull_request` field |
| IssuesTable.FindIff | web/src/components/IssuesTable.tsx:54-59 | `find` returns a label exactly when `some` holds, and it returns the first passing label |
| IssuesTable.GetTaskType | web/src/components/IssuesTable.tsx:72-81 | Bug iff some label mentions bug; else Feature iff feature/enhancement; else Documentation iff doc; else Task |
| IssuesTable.Abbreviation | web/src/components/IssuesTable.tsx:172 | `Doc` for Documentation, `Feat` for Feature, the type name otherwise |
| IssuesTable.TaskBadge | web/src/components/IssuesTable.tsx:167-173 | the badge's title is the type name and its text the abbreviation; its variant is `destructive` iff a label mentions bug, `default` iff feature/enhancement without bug, `secondary` iff doc without either, `outline` iff no keyword occurs |
| IssuesTable.VariantInjective | web/src/components/IssuesTable.tsx:77-80 | each task type has its own badge variant |
| IssuesTable.AbbreviationInjective | web/src/components/IssuesTable.tsx:172 | no two task types share a badge text, and no badge text is longer than four characters |
| IssuesTable.GetPriorityIcon | web/src/components/IssuesTable.tsx:53-70 | High iff high/urgent; Low iff low and neither high/urgent nor medium; the grey default iff no keyword at all |
| IssuesTable.PriorityCell | web/src/components/IssuesTable.tsx:125-131 | High iff high/urgent; Low iff low without high/urgent; medium labels are not consulted |
| IssuesTable.PriorityCellDisagrees | web/src/components/IssuesTable.tsx:124-131 | the cell's text differs from its tooltip exactly when a medium and a low label occur without a high/urgent one |
| IssuesTable.MediumLowExample | web/src/components/IssuesTable.tsx:124-131 | labels `medium` and `low` show `↓ Low` under the tooltip `→ Medium` |
| IssuesTable.RenderedPriority | web/src/components/IssuesTable.tsx:53-70 | a cell rendered from the icon's level: always the same text as its tooltip |
| IssuesTable.RenderedPriorityAgrees | web/src/components/IssuesTable.tsx:125-131 | the corrected cell differs from the written one only on the medium-and-low labels |
| IssuesTable.VisibleLabels | web/src/components/IssuesTable.tsx:136 | the badges are the first min(2, n) labels |
| IssuesTable.Overflow | web/src/components/IssuesTable.tsx:157-158 | a `+digits` marker exactly when there are more than two labels |
| IssuesTable.OverflowCountsRest | web/src/components/IssuesTable.tsx:136-158 | the badges plus the marker's number account for every label |
| IssuesTable.BadgeBackground | web/src/components/IssuesTable.tsx:137 | `#<color>` for a present colour, `#6b7280` otherwise |
| IssuesTable.BadgeText | web/src/components/IssuesTable.tsx:139-140 | black exactly when a colour is present and parses as hex above `0x888888`, white otherwise |
| IssuesTable.SixDigitThreshold | web/src/components/IssuesTable.tsx:139-140 | for a six-digit colour code the text is black exactly when its value exceeds `0x888888` |
| JsText.ParseIntHexDigits | web/src/components/IssuesTable.tsx:139 | `parseInt(s, 16)` of a non-empty string of hexadecimal digits is the value those digits denote |
| IssuesTable.NoColourIsGrey | web/src/components/IssuesTable.tsx:137-140 | a missing or empty colour gives a grey badge with white text |
| IssuesTable.JsRem | web/src/components/IssuesTable.tsx:27-28 | JavaScript `%`: Euclidean for non-negative dividends, sign of the dividend otherwise |
| IssuesTable.BountySeed | web/src/components/IssuesTable.tsx:27 | the seed lies strictly between -1000 and 1000, and is non-negative for non-negative ids |
| IssuesTable.LcgValue | web/src/components/IssuesTable.tsx:28 | the integer step lies in [0, 233280) for non-negative ids, in (-233280, 233280) always |
| IssuesTable.LcgPeriodic | web/src/components/IssuesTable.tsx:27-28 | for non-negative ids the value depends only on the id modulo 1000 |
| IssuesTable.HighPriorityIsHighIcon | web/src/components/IssuesTable.tsx:31-34 | a bounty is raised exactly for issues whose icon shows High |
| IssuesTable.BaseMilli | web/src/components/IssuesTable.tsx:36-44 | base amounts by task type; high priority multiplies by exactly 1.5 |
| IssuesTable.BaseOrder | web/src/components/IssuesTable.tsx:38-41 | Feature > Task > Bug > Documentation at either priority |
| Webhook.GateAcceptsDigest | backend/src/routes/github.ts:10-23 | a `sha256=<digest>` header and a bare digest are accepted; a missing header never is |
| Webhook.FindProject | backend/src/routes/github.ts:55-57 | a project whose repository URL matches, or none exactly when no project matches |
| Webhook.PullRequestStatus | backend/src/routes/github.ts:67 | APPROVED iff the action is `closed` and the pull request is merged |
| Webhook.IssueStatus | backend/src/routes/github.ts:104 | APPROVED iff the action is `closed` |
| Webhook.NewPullRequestRecord | backend/src/routes/github.ts:69-80 | a new pull-request record is PENDING, a FEATURE, amount 0, with an empty channel, and carries the project, author, title, body and URL |
| Webhook.NewIssueRecord | backend/src/routes/github.ts:106-117 | a new issue record is PENDING, a BUG_FIX, amount 0, with an empty channel, and carries the project, author, title, body and URL |
| Webhook.Upsert | backend/src/routes/github.ts:62-80 | the record with the URL gets the status and keeps its other fields, all others unchanged; without one, the new record is appended |
| Webhook.UpsertKeepsUrlsUnique | backend/src/routes/github.ts:99-117 | upserting keeps URLs unique in the table |
| Webhook.FirstLine | backend/src/routes/github.ts:150 | the title is the prefix of the message before its first line break, the whole message iff it has none |
| Webhook.CommitRecord | backend/src/routes/github.ts:144-156 | a commit record is pending, of type OTHER, amount 0, with an empty channel, credited to the commit author in the repository's project, titled by the first line, described by the full message, keyed by the commit URL |
| Webhook.CommitRecords | backend/src/routes/github.ts:135-159 | at most one record per commit, all pending and of type OTHER |
| Webhook.CommitRecordsAppend | backend/src/routes/github.ts:135-159 | a push's records are created in commit order: they distribute over concatenation |
| Webhook.OneCommit | backend/src/routes/github.ts:137-143 | a commit creates its record exactly when its lowercased message mentions fix, feature, docs or test |
| Webhook.PullRequestEffect | backend/src/routes/github.ts:50-84 | actions other than opened/closed change nothing; a missing repository throws; an unknown repository changes nothing |
| Webhook.IssueEffect | backend/src/routes/github.ts:87-121 | the same rules for issue events |
| Webhook.PullRequestUpserts | backend/src/routes/github.ts:50-84 | for a handled action on a known repository, a missing pull request throws, and otherwise the pull request is upserted by its URL with the event's status and its new record |
| Webhook.IssueUpserts | backend/src/routes/github.ts:87-121 | the same for issue events |
| Webhook.CreateAll | backend/src/routes/github.ts:135-159 | the commit loop only appends to the table, and from a table with unique URLs it leaves one with unique URLs, even when a `create` throws halfway |
| Webhook.CreateAllOkIff | backend/src/routes/github.ts:135-159 | from a table with unique URLs, the loop returns normally exactly when appending the push's records repeats no URL |
| Webhook.CreateAllRecords | backend/src/routes/github.ts:135-159 | a loop that returns normally has appended exactly the push's records, in commit order |
| Webhook.PushEffect | backend/src/routes/github.ts:124-161 | a missing repository throws before writing, an unknown one changes nothing, otherwise the table is only appended to and keeps its URLs unique |
| Webhook.PushAppendsRecords | backend/src/routes/github.ts:124-161 | a push to a known repository returns normally exactly when its records repeat no URL, and then it appends them all |
| Webhook.Route | backend/src/routes/github.ts:8-47 | an invalid signature gives 401 and changes nothing; a valid one gives 200 or 500; `pull_request`, `issues` and `push` reach their handler's effect, answered 200 when it returns and 500 when it throws; outside `push`, a non-200 answer changes nothing |
| Webhook.RouteKeepsUrlsUnique | backend/src/routes/github.ts:8-161 | whatever the route answers, a table whose URLs are unique keeps them unique |
| Webhook.Database.HandlePullRequest | backend/src/routes/github.ts:50-84 | the handler leaves the table `PullRequestEffect` gives, or unchanged when it throws |
| Webhook.Database.HandleIssue | backend/src/routes/github.ts:87-121 | the handler leaves the table `IssueEffect` gives, or unchanged when it throws |
| Webhook.Database.HandlePush | backend/src/routes/github.ts:124-161 | the handler leaves the table `PushEffect` gives, and throws exactly when it says so |
| Webhook.Database.CreateCommitRecords | backend/src/routes/github.ts:135-159 | the commit loop leaves the table `CreateAll` gives, stopping at the first `create` whose URL is taken, and leaves the project table alone |
| Webhook.Database.Webhook | backend/src/routes/github.ts:8-47 | the route answers and updates the table as `Route` says |
| Webhook.OtherEventsIgnored | backend/src/routes/github.ts:38-42 | an event other than pull_request, issues or push is answered 200 and changes nothing |
| Webhook.MergedPullRequestNeedsTwoDeliveries | backend/src/routes/github.ts:62-80 | a merged pull request first seen as `closed` is created PENDING; the same delivery again approves it |
| Webhook.PushRedeliveryRejected | backend/src/routes/github.ts:144-156 | delivering a push with a keyword commit again after it went through throws at the first `create` and writes nothing |
| Webhook.RepeatedCommitThrows | backend/src/routes/github.ts:135-159 | a push listing the same keyword commit twice creates its record, then throws, and the record stays |

## Left out

- I/O is not modelled: `fetch`, header objects and JSON decoding. Each endpoint is a sequence of already-decoded responses, and the items are assumed to have the declared shapes.
- Concurrency is not modelled.
  - The pool's workers run one after another. JavaScript interleaves them at each `await`, but the result is the same: each index is claimed once, and an entry depends only on the repository's name.
  - The bound of five requests in flight is a property of the interleaving and is not stated.
- `GitHubClient.Walk`: a walk that needs more responses than the sequence holds ends in the failure `Exhausted`. It stands for a `fetch` that rejects, such as a network error; for a repository's issues the worker's catch turns it into `[]`. A server that keeps answering forever is not modelled, and the model does not prove that real pagination ends.
- `isoOf` (the reset time's ISO rendering) is a parameter, and the `RangeError` it throws for a non-numeric reset header is not modelled.
- `encodeURIComponent` in the account lookup is not modelled: the lookup's answer is a parameter of the server.
- The request headers built by `buildHeaders` do not influence the modelled server; a token's effect on rate limits and visibility is part of the server parameter.
- The floating-point part of `generateBounty` (variation, product and `toFixed`) is left out. Only the integer seed step and the base amounts, counted in thousandths of an ether, are modelled.
- `toLowerCase` maps only `A`-`Z`; non-ASCII case mapping is left out.
- GitHubClient.BodyPreview: strings are sequences of Unicode code points, while JavaScript's `length` and `slice(0, n)` count UTF-16 code units. A body with characters outside the Basic Multilingual Plane gets a shorter preview in the source than in the model, and the source may cut such a character in half.
- The JSX rendering of the table is left out; only the values it renders are modelled.
- HMAC-SHA256 and `JSON.stringify` are parameters. The timing of the string comparison is not modelled.
- Payload shapes are only partly modelled: a missing top-level part (`repository`, `pull_request`, `issue`, `commits`) is modelled as the handler throwing, but the fields inside commits, pull requests and issues (`html_url`, `title`, `user.login`, `merged`, `message`, `url`, `author.username`) and `repository.html_url` are assumed present. A missing `repository.html_url` would reach the project lookup as `undefined`, which Prisma reads as no filter, so any project would match; the model does not capture that.
- The schema of the contribution table is not part of this model.
  - `githubUrl` is taken to be a unique key, because both upserts select a record by it.
  - `upsert` updates the record with the URL.
  - `create` appends, and throws when the URL is already in the table. No other constraint is modelled. In particular, every `create` sets `channelId` to `""`. If `channelId` is a foreign key to the channel table, every `create` would throw in a real database; the model has `create` succeed.
  - A push's records are not created in a transaction: a throw halfway leaves the records created before it.
- Logging is left out.
- The model follows the code for an empty issue body: the body is kept as `""` and has no preview, because the empty string is falsy.

## Findings

| source | as written | input that shows it | evidently intended | confidence | as-written member | corrected member |
|---|---|---|---|---|---|---|
| web/src/components/IssuesTable.tsx:124-131 | the priority cell picks High, else Low, else Medium, ignoring medium labels; its tooltip comes from `getPriorityIcon`, which checks medium before low | labels `medium` and `low`: the cell shows `↓ Low`, the tooltip `→ Medium` | the cell shows the level its tooltip names | not executed; medium | IssuesTable.PriorityCell, IssuesTable.MediumLowExample | IssuesTable.RenderedPriority, IssuesTable.RenderedPriorityAgrees |
