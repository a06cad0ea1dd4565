/** The manual refresh trigger src/app/api/refresh-all/route.ts: an
    optional bearer-token check, then both fetch cycles, each caught on its
    own and reported as `{count, error}`. The two cycles' outcomes are the
    arguments; the fetchers' own effects are modelled by their methods. */
module RefreshAllRoute {
  import opened Wrappers
  import opened JsStrings
  import opened Snapshots
  import GitHubFetcher
  import LeetCodeFetcher

  /** `{count, error}` for one source. */
  datatype SourceReport = SourceReport(count: nat, error: Option<FetchError>)

  datatype RefreshResponse =
    | Unauthorized                                                   // 401 `{ error: 'Unauthorized' }`
    | Refreshed(github: SourceReport, leetcode: SourceReport)        // 200 `{ success: true, ... }`

  function Status(r: RefreshResponse): (status: int)
    ensures r.Unauthorized? ==> status == 401
    ensures r.Refreshed? ==> status == 200
  {
    if r.Unauthorized? then 401 else 200
  }

  /** The `Authorization` header is checked only when `REFRESH_TOKEN` is set
      (non-empty); it must then be exactly `Bearer <token>`. An absent header
      is `None` and never matches. */
  predicate Authorized(header: Option<string>, token: Option<string>) {
    !Truthy(token) || header == Some("Bearer " + token.value)
  }

  /** The `.catch` around one fetcher and the read of its result: a failed
      cycle counts 0 and carries its error, a successful one its own count
      and no error. */
  function Report<Row>(outcome: Result<Snapshot<Row>, FetchError>): (r: SourceReport)
    ensures outcome.Ok? ==> r == SourceReport(outcome.value.count, None)
    ensures outcome.Err? ==> r == SourceReport(0, Some(outcome.error))
  {
    match outcome
    case Ok(s) => SourceReport(s.count, None)
    case Err(e) => SourceReport(0, Some(e))
  }

  /** `GET /api/refresh-all`. Once the caller is authorised the response is
      always a success, and each source's report depends on that source's
      outcome alone. */
  function RefreshAll(header: Option<string>, token: Option<string>,
                      github: Result<Snapshot<GitHubFetcher.CommitRecord>, FetchError>,
                      leetcode: Result<Snapshot<LeetCodeFetcher.SubmissionRecord>, FetchError>): (r: RefreshResponse)
    ensures r.Unauthorized? <==> Truthy(token) && header != Some("Bearer " + token.value)
    ensures !Truthy(token) ==> r.Refreshed?
    ensures r.Refreshed? ==> r.github == Report(github) && r.leetcode == Report(leetcode)
  {
    if !Authorized(header, token) then Unauthorized
    else Refreshed(Report(github), Report(leetcode))
  }

  /** One source fetched 5 rows while the other failed: the response reports
      both, and the failure does not hide the success. */
  lemma PartialFailureIsReported(header: Option<string>, token: Option<string>,
                                 rows: seq<GitHubFetcher.CommitRecord>, e: FetchError)
    requires Authorized(header, token) && |rows| == 5
    ensures RefreshAll(header, token, Ok(Snapshot(5, rows)), Err(e)) ==
              Refreshed(SourceReport(5, None), SourceReport(0, Some(e)))
  {
  }
}
