/** The GitHub fetcher of src/lib/fetchers/github.ts: lists the most
    recently pushed repositories, looks up each one's latest commit,
    normalises the answers into commit records, drops the repositories whose
    lookup threw, and replaces the `github_commits` table with the rest.
    The upstream answers are arguments: `reply` for the repository list and
    `commitsFor` for the commit lookup of each repository name. */
module GitHubFetcher {
  import opened Wrappers
  import opened JsStrings
  import opened Snapshots

  const CredentialsMissing := "GitHub credentials not configured"
  const NotAnArrayMessage := "GitHub API did not return an array of repositories"
  const NoDescription := "No description"
  const UnknownLanguage := "Unknown"
  const NoCommits := "No commits"
  const CommitUnavailable := "Could not fetch latest commit"

  datatype GitHubEnv = GitHubEnv(token: Option<string>, username: Option<string>)

  predicate Credentialed(env: GitHubEnv) {
    Truthy(env.token) && Truthy(env.username)
  }

  /** An element of the repository list. */
  datatype Repo = Repo(name: string, description: Option<string>, htmlUrl: string, stars: int,
                       forks: int, language: Option<string>, pushedAt: string)

  /** `commits[0]`, as far as the normalisation reads it. */
  datatype LatestCommit = LatestCommit(message: Option<string>, authorDate: Option<string>)

  /** The answer to one repository's commit lookup: it threw (the request,
      or reading its body), a non-ok status, or the first commit of the list
      (`None` for an empty list). */
  datatype CommitLookup = LookupThrew | LookupNotOk | LookupOk(latest: Option<LatestCommit>)

  datatype ReposPayload = ReposNotArray | RepoList(repos: seq<Repo>)

  /** The answer to the repository-list request: it threw (the request, or
      reading its body), a non-ok status (`status` is never in 200-299: an
      ok reply is a `ReposBody`), or an ok reply with its payload. */
  datatype ReposReply =
    | ReposFailed(message: string)
    | ReposStatus(status: int, statusText: string, resetHeader: Option<string>)
    | ReposBody(payload: ReposPayload)

  /** A row of `github_commits`. */
  datatype CommitRecord = CommitRecord(name: string, description: string, lastCommitMessage: string,
                                       date: string, url: string, stars: int, forks: int, language: string)

  /** The record for one repository, or `None` (the source's `null`) when its
      commit lookup threw. */
  function NormalizeRepo(repo: Repo, lookup: CommitLookup): (r: Option<CommitRecord>)
    ensures r.None? <==> lookup.LookupThrew?
    ensures r.Some? ==>
              && r.value.name == repo.name && r.value.url == repo.htmlUrl
              && r.value.stars == repo.stars && r.value.forks == repo.forks
              && r.value.description == OrElse(repo.description, NoDescription)
              && r.value.language == OrElse(repo.language, UnknownLanguage)
    ensures lookup.LookupNotOk? ==>
              r.value.lastCommitMessage == CommitUnavailable && r.value.date == repo.pushedAt
    ensures lookup == LookupOk(None) ==>
              r.value.lastCommitMessage == NoCommits && r.value.date == repo.pushedAt
    ensures lookup.LookupOk? && lookup.latest.Some? ==>
              r.value.lastCommitMessage == OrElse(lookup.latest.value.message, NoCommits) &&
              r.value.date == OrElse(lookup.latest.value.authorDate, repo.pushedAt)
  {
    match lookup
    case LookupThrew => None
    case LookupNotOk =>
      Some(CommitRecord(repo.name, OrElse(repo.description, NoDescription), CommitUnavailable,
                        repo.pushedAt, repo.htmlUrl, repo.stars, repo.forks,
                        OrElse(repo.language, UnknownLanguage)))
    case LookupOk(latest) =>
      var message := if latest.Some? then latest.value.message else None;
      var date := if latest.Some? then latest.value.authorDate else None;
      Some(CommitRecord(repo.name, OrElse(repo.description, NoDescription), OrElse(message, NoCommits),
                        OrElse(date, repo.pushedAt), repo.htmlUrl, repo.stars, repo.forks,
                        OrElse(repo.language, UnknownLanguage)))
  }

  /** `repos.map(...)` under `Promise.all`: one answer per repository, in
      the order of the list, whichever lookup finishes first. The lookup is
      keyed by repository name, so two entries with the same name would share
      one answer where the source makes one request each; the names of one
      user's repositories are unique, so this loses nothing. */
  function NormalizeAll(repos: seq<Repo>, commitsFor: string -> CommitLookup): (rs: seq<Option<CommitRecord>>)
    ensures |rs| == |repos|
    ensures forall i :: 0 <= i < |repos| ==> rs[i] == NormalizeRepo(repos[i], commitsFor(repos[i].name))
  {
    if repos == [] then []
    else [NormalizeRepo(repos[0], commitsFor(repos[0].name))] + NormalizeAll(repos[1..], commitsFor)
  }

  /** `filter((commit) => commit !== null)`. */
  function FilterNulls<T>(xs: seq<Option<T>>): (r: seq<T>)
    ensures |r| <= |xs|
    ensures forall i :: 0 <= i < |r| ==> Some(r[i]) in xs
    ensures forall i :: 0 <= i < |xs| && xs[i].Some? ==> xs[i].value in r
  {
    if xs == [] then []
    else
      assert xs == [xs[0]] + xs[1..];
      (if xs[0].Some? then [xs[0].value] else []) + FilterNulls(xs[1..])
  }

  /** Filtering distributes over concatenation: the kept values stay in
      their original relative order. */
  lemma {:induction false} FilterNullsAppend<T>(xs: seq<Option<T>>, ys: seq<Option<T>>)
    ensures FilterNulls(xs + ys) == FilterNulls(xs) + FilterNulls(ys)
  {
    if xs == [] {
      assert xs + ys == ys;
    } else {
      assert (xs + ys)[1..] == xs[1..] + ys;
      FilterNullsAppend(xs[1..], ys);
    }
  }

  /** Exactly the `null` entries are dropped. */
  lemma {:induction false} FilterNullsCount<T>(xs: seq<Option<T>>)
    ensures |FilterNulls(xs)| == |xs| - multiset(xs)[None]
  {
    if xs != [] {
      assert xs == [xs[0]] + xs[1..];
      FilterNullsCount(xs[1..]);
    }
  }

  /** The records kept from a repository list. */
  function CollectCommits(repos: seq<Repo>, commitsFor: string -> CommitLookup): (r: seq<CommitRecord>)
    ensures |r| <= |repos|
  {
    FilterNulls(NormalizeAll(repos, commitsFor))
  }

  /** The number of repositories whose commit lookup threw. */
  function ThrownLookups(repos: seq<Repo>, commitsFor: string -> CommitLookup): (n: nat)
    ensures n <= |repos|
  {
    if repos == [] then 0
    else (if commitsFor(repos[0].name).LookupThrew? then 1 else 0) + ThrownLookups(repos[1..], commitsFor)
  }

  /** Given N repositories of which M lookups threw, exactly N - M records
      are kept. */
  lemma CollectCommitsCount(repos: seq<Repo>, commitsFor: string -> CommitLookup)
    ensures |CollectCommits(repos, commitsFor)| == |repos| - ThrownLookups(repos, commitsFor)
  {
    FilterNullsCount(NormalizeAll(repos, commitsFor));
    NullsAreThrownLookups(repos, commitsFor);
  }

  /** The records of a list split in two are those of its halves, in
      order: the output keeps the order of the repository list. */
  lemma CollectCommitsAppend(repos: seq<Repo>, more: seq<Repo>, commitsFor: string -> CommitLookup)
    ensures CollectCommits(repos + more, commitsFor) == CollectCommits(repos, commitsFor) + CollectCommits(more, commitsFor)
  {
    var ns := NormalizeAll(repos, commitsFor);
    var ms := NormalizeAll(more, commitsFor);
    var all := NormalizeAll(repos + more, commitsFor);
    assert all == ns + ms by {
      forall i | 0 <= i < |all| ensures all[i] == (ns + ms)[i] {
        if i < |repos| { assert (repos + more)[i] == repos[i]; }
        else { assert (repos + more)[i] == more[i - |repos|]; }
      }
    }
    FilterNullsAppend(ns, ms);
  }

  lemma {:induction false} NullsAreThrownLookups(repos: seq<Repo>, commitsFor: string -> CommitLookup)
    ensures multiset(NormalizeAll(repos, commitsFor))[None] == ThrownLookups(repos, commitsFor)
  {
    if repos != [] {
      var ns := NormalizeAll(repos, commitsFor);
      assert ns == [ns[0]] + NormalizeAll(repos[1..], commitsFor);
      NullsAreThrownLookups(repos[1..], commitsFor);
    }
  }

  /** What `fetchGitHubData` decides before touching the table. */
  function PlanGitHub(env: GitHubEnv, reply: ReposReply, commitsFor: string -> CommitLookup): (p: Plan<CommitRecord>)
    ensures !Credentialed(env) ==> p == Abort(ConfigError(CredentialsMissing))
    ensures Credentialed(env) && reply.ReposFailed? ==> p == Abort(RequestFailed(reply.message))
    ensures Credentialed(env) && reply.ReposStatus? ==>
              p == Abort(if reply.status == 403 then RateLimited(reply.resetHeader)
                         else HttpError(reply.status, reply.statusText))
    ensures Credentialed(env) && reply == ReposBody(ReposNotArray) ==> p == Abort(MalformedPayload(NotAnArrayMessage))
    ensures Credentialed(env) && reply == ReposBody(RepoList([])) ==> p == KeepTable
    ensures Credentialed(env) && reply.ReposBody? && reply.payload.RepoList? && reply.payload.repos != [] ==>
              p == Replace(CollectCommits(reply.payload.repos, commitsFor))
  {
    if !Credentialed(env) then Abort(ConfigError(CredentialsMissing))
    else
      match reply
      case ReposFailed(message) => Abort(RequestFailed(message))
      case ReposStatus(status, statusText, resetHeader) =>
        if status == 403 then Abort(RateLimited(resetHeader)) else Abort(HttpError(status, statusText))
      case ReposBody(payload) =>
        match payload
        case ReposNotArray => Abort(MalformedPayload(NotAnArrayMessage))
        case RepoList(repos) =>
          if repos == [] then KeepTable else Replace(CollectCommits(repos, commitsFor))
  }

  /** `fetchGitHubData`: the plan, then the table replacement. */
  method FetchGitHubData(table: Table<CommitRecord>, env: GitHubEnv, reply: ReposReply,
                         commitsFor: string -> CommitLookup,
                         deleteFailure: Option<string>, insertFailure: Option<string>)
    returns (r: Result<Snapshot<CommitRecord>, FetchError>)
    modifies table
    ensures r == CycleResult(PlanGitHub(env, reply, commitsFor), insertFailure)
    ensures table.rows == CycleRows(PlanGitHub(env, reply, commitsFor), old(table.rows),
                                    deleteFailure, insertFailure)
  {
    var plan := PlanGitHub(env, reply, commitsFor);
    r := RunCycle(table, plan, deleteFailure, insertFailure);
  }
}
