/** The read-through route src/app/api/recent-commits/route.ts: the same
    per-repository normalisation as the GitHub fetcher, with no table and
    with the policy that every failure answers an empty array. */
module RecentCommitsRoute {
  import opened GitHubFetcher

  /** `GET /api/recent-commits`: always a JSON array. Missing credentials,
      a failed request, any non-ok status (403 included) and a payload that
      is not an array all give `[]`. */
  function RecentCommits(env: GitHubEnv, reply: ReposReply, commitsFor: string -> CommitLookup): (r: seq<CommitRecord>)
    ensures !Credentialed(env) ==> r == []
    ensures !(reply.ReposBody? && reply.payload.RepoList?) ==> r == []
    ensures reply.ReposBody? && reply.payload.RepoList? ==> |r| <= |reply.payload.repos|
    ensures Credentialed(env) && reply.ReposBody? && reply.payload.RepoList? ==>
              r == CollectCommits(reply.payload.repos, commitsFor)
  {
    if !Credentialed(env) then []
    else
      match reply
      case ReposBody(RepoList(repos)) => CollectCommits(repos, commitsFor)
      case _ => []
  }

  /** The route answers exactly the records the fetcher would store, and
      `[]` whenever the fetcher fails or finds no repository. */
  lemma RouteAgreesWithFetcher(env: GitHubEnv, reply: ReposReply, commitsFor: string -> CommitLookup)
    ensures PlanGitHub(env, reply, commitsFor).Replace? ==>
              RecentCommits(env, reply, commitsFor) == PlanGitHub(env, reply, commitsFor).rows
    ensures !PlanGitHub(env, reply, commitsFor).Replace? ==> RecentCommits(env, reply, commitsFor) == []
  {
  }

  /** Given N repositories of which M commit lookups threw, the route
      answers N - M records. */
  lemma RouteDropsThrownLookups(env: GitHubEnv, repos: seq<Repo>, commitsFor: string -> CommitLookup)
    requires Credentialed(env)
    ensures |RecentCommits(env, ReposBody(RepoList(repos)), commitsFor)| == |repos| - ThrownLookups(repos, commitsFor)
  {
    CollectCommitsCount(repos, commitsFor);
  }
}
