/** The scheduled refresh trigger src/app/api/cron/refresh-data/route.ts:
    an exact bearer-token check against `CRON_SECRET`, a summary of the two
    settled fetch cycles, and one entry appended to the `cron_logs` table
    per authorised run. */
module CronRefreshRoute {
  import opened Wrappers
  import opened Snapshots
  import GitHubFetcher
  import LeetCodeFetcher

  const JobName := "refresh-data"

  /** A settled promise. A rejection's reason is the thrown error, or `None`
      for a rejection with reason `null` or `undefined`, whose `message`
      cannot be read. */
  datatype Settled<T> = Fulfilled(value: T) | Rejected(reason: Option<FetchError>)

  /** `{status, count, error}` for one source. */
  datatype SourceStatus = SourceStatus(status: string, count: nat, error: Option<FetchError>)

  datatype CronSummary = CronSummary(timestamp: int, github: SourceStatus, leetcode: SourceStatus)

  datatype RunStatus = Success | Failure

  /** The logged details: the summary, or the stringified error. */
  datatype CronDetails = SummaryDetails(summary: CronSummary) | ErrorDetails

  datatype CronEntry = CronEntry(jobName: string, status: RunStatus, details: CronDetails, executedAt: int)

  datatype CronResponse =
    | Unauthorized               // 401 `{ error: 'Unauthorized' }`
    | Completed(summary: CronSummary)   // 200 `{ success: true, message, ...summary }`
    | CronFailed                 // 500 `{ error: 'Cron job failed' }`

  function Status(r: CronResponse): (status: int)
    ensures r.Unauthorized? ==> status == 401
    ensures r.Completed? ==> status == 200
    ensures r.CronFailed? ==> status == 500
  {
    match r
    case Unauthorized => 401
    case Completed(_) => 200
    case CronFailed => 500
  }

  /** `Bearer ${process.env.CRON_SECRET}`: an unset secret is interpolated as
      the text `undefined`. */
  function ExpectedHeader(secret: Option<string>): (h: string)
    ensures secret.Some? ==> h == "Bearer " + secret.value
    ensures secret.None? ==> h == "Bearer undefined"
  {
    "Bearer " + (if secret.Some? then secret.value else "undefined")
  }

  predicate Authorized(header: Option<string>, secret: Option<string>) {
    header == Some(ExpectedHeader(secret))
  }

  /** With `CRON_SECRET` unset, the one header accepted is the literal
      `Bearer undefined`, and a missing header is still refused. */
  lemma UnsetSecretAcceptsUndefined(header: Option<string>)
    ensures Authorized(header, None) <==> header == Some("Bearer undefined")
    ensures !Authorized(None, None)
  {
  }

  /** One source's summary, or `None` when reading a rejection's `message`
      throws. */
  function Summarize<Row>(s: Settled<Snapshot<Row>>): (r: Option<SourceStatus>)
    ensures s.Fulfilled? ==> r == Some(SourceStatus("fulfilled", s.value.count, None))
    ensures s.Rejected? && s.reason.Some? ==> r == Some(SourceStatus("rejected", 0, s.reason))
    ensures r.None? <==> s == Rejected(None)
  {
    match s
    case Fulfilled(v) => Some(SourceStatus("fulfilled", v.count, None))
    case Rejected(reason) => if reason.Some? then Some(SourceStatus("rejected", 0, reason)) else None
  }

  /** The `cron_logs` table, as far as this route writes it. */
  class CronLog {
    var entries: seq<CronEntry>

    constructor ()
      ensures entries == []
    {
      entries := [];
    }

    /** `logCronExecution(jobName, status, details)`. */
    method Append(jobName: string, status: RunStatus, details: CronDetails, now: int)
      modifies this
      ensures entries == old(entries) + [CronEntry(jobName, status, details, now)]
    {
      entries := entries + [CronEntry(jobName, status, details, now)];
    }
  }

  /** `GET /api/cron/refresh-data` with the two settled fetch cycles. An
      unauthorised call writes nothing; an authorised one appends exactly one
      log entry, `success` with the summary or `failure`. */
  method RefreshData(log: CronLog, header: Option<string>, secret: Option<string>, now: int,
                     github: Settled<Snapshot<GitHubFetcher.CommitRecord>>,
                     leetcode: Settled<Snapshot<LeetCodeFetcher.SubmissionRecord>>)
    returns (resp: CronResponse)
    modifies log
    ensures !Authorized(header, secret) ==> resp == Unauthorized && log.entries == old(log.entries)
    ensures Authorized(header, secret) && Summarize(github).Some? && Summarize(leetcode).Some? ==>
              var summary := CronSummary(now, Summarize(github).value, Summarize(leetcode).value);
              resp == Completed(summary) &&
              log.entries == old(log.entries) + [CronEntry(JobName, Success, SummaryDetails(summary), now)]
    ensures Authorized(header, secret) && (Summarize(github).None? || Summarize(leetcode).None?) ==>
              resp == CronFailed &&
              log.entries == old(log.entries) + [CronEntry(JobName, Failure, ErrorDetails, now)]
  {
    if header != Some(ExpectedHeader(secret)) {
      return Unauthorized;
    }
    var gh := Summarize(github);
    var lc := Summarize(leetcode);
    if gh.None? || lc.None? {
      log.Append(JobName, Failure, ErrorDetails, now);
      return CronFailed;
    }
    var summary := CronSummary(now, gh.value, lc.value);
    log.Append(JobName, Success, SummaryDetails(summary), now);
    resp := Completed(summary);
  }
}
