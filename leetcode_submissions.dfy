/** The read-through route src/app/api/leetcode-submissions/route.ts: the
    same submission mapping as the LeetCode fetcher, with no table; a missing
    username answers an empty array, any other failure a 500. */
module LeetCodeSubmissionsRoute {
  import opened Wrappers
  import opened JsStrings
  import opened Snapshots
  import opened LeetCodeFetcher

  const FailureMessage := "Failed to fetch submissions"

  /** The route's answer: a JSON array, or status 500 with
      `{ error: 'Failed to fetch submissions' }`. */
  datatype SubmissionsResponse = Rows(rows: seq<SubmissionRecord>) | Failed

  function Status(r: SubmissionsResponse): (status: int)
    ensures r.Rows? ==> status == 200
    ensures r.Failed? ==> status == 500
  {
    if r.Rows? then 200 else 500
  }

  /** `GET /api/leetcode-submissions`. */
  function LeetCodeSubmissions(username: Option<string>, reply: LeetCodeReply, now: int,
                               parseDate: string -> Option<int>): (r: SubmissionsResponse)
    ensures !Truthy(username) ==> r == Rows([])
    ensures Truthy(username) && reply == LeetCodeBody(NoList) ==> r == Rows([])
    ensures Truthy(username) && (reply.LeetCodeFailed? || reply.LeetCodeStatus? || reply == LeetCodeBody(NotAList)) ==>
              r == Failed
    ensures Truthy(username) && reply.LeetCodeBody? && reply.payload.SubmissionList? ==>
              r.Rows? && |r.rows| == |reply.payload.subs| &&
              forall i :: 0 <= i < |r.rows| ==> r.rows[i] == ToRecord(reply.payload.subs[i], now, parseDate)
  {
    if !Truthy(username) then Rows([])
    else
      match reply
      case LeetCodeBody(NoList) => Rows([])
      case LeetCodeBody(SubmissionList(subs)) => Rows(ToRecords(subs, now, parseDate))
      case _ => Failed
  }

  /** The route answers exactly the rows the fetcher would store; an empty
      array where the fetcher leaves the table alone or lacks a username;
      and a 500 where the fetcher fails for any other reason. */
  lemma RouteAgreesWithFetcher(username: Option<string>, reply: LeetCodeReply, now: int,
                               parseDate: string -> Option<int>)
    ensures var p := PlanLeetCode(username, reply, now, parseDate);
            var r := LeetCodeSubmissions(username, reply, now, parseDate);
            && (p.Replace? ==> r == Rows(p.rows))
            && (p.KeepTable? || p == Abort(ConfigError(UsernameMissing)) ==> r == Rows([]))
            && (p.Abort? && p != Abort(ConfigError(UsernameMissing)) ==> r == Failed)
  {
    var p := PlanLeetCode(username, reply, now, parseDate);
    var r := LeetCodeSubmissions(username, reply, now, parseDate);
    if p.Replace? {
      assert r.rows == p.rows;
    }
  }
}
