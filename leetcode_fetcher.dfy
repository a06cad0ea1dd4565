/** The LeetCode fetcher of src/lib/fetchers/leetcode.ts: normalises the
    recent-submission list returned by the GraphQL endpoint and replaces the
    `leetcode_submissions` table with it. Instants are milliseconds since the
    epoch; the clock (`new Date()`) is the argument `now`, and the parsing of
    date strings by `new Date(text)` is the argument `parseDate`, which
    answers `None` for an invalid date. */
module LeetCodeFetcher {
  import opened Wrappers
  import opened JsStrings
  import opened Snapshots

  /** Numeric timestamps below this are seconds, the others milliseconds. */
  const SecondsThreshold := 10_000_000_000
  /** A JavaScript `Date` holds at most 8.64e15 ms either side of the epoch. */
  const MaxTimeMs := 8_640_000_000_000_000

  const UsernameMissing := "LeetCode username not configured"
  const NotAnArrayMessage := "LeetCode API did not return submissions array"
  const UnknownProblem := "Unknown Problem"
  const UnknownStatus := "Unknown"

  /** A submission's `timestamp` as it arrives: a number, a string, or any
      other JSON value (including `null` and a missing field). */
  datatype Timestamp = NumberStamp(n: int) | TextStamp(text: string) | OtherStamp

  predicate IsValidTime(ms: int) {
    -MaxTimeMs <= ms <= MaxTimeMs
  }

  /** The seconds-or-milliseconds reading of a numeric timestamp. */
  function ToMillis(n: int): (ms: int)
    ensures n < SecondsThreshold ==> ms == n * 1000
    ensures n >= SecondsThreshold ==> ms == n
  {
    if n < SecondsThreshold then n * 1000 else n
  }

  /** `formatTimestamp`: the instant a timestamp denotes. A falsy timestamp
      (`0`, `""`, `null`), a value that is neither number nor string, and an
      invalid date all fall back to `now`; nothing is ever raised. */
  function FormatTimestamp(ts: Timestamp, now: int, parseDate: string -> Option<int>): (instant: int)
    ensures IsValidTime(now) ==> IsValidTime(instant)
    ensures ts == NumberStamp(0) || ts == TextStamp("") || ts.OtherStamp? ==> instant == now
    ensures ts.NumberStamp? && ts.n != 0 ==>
              instant == (if IsValidTime(ToMillis(ts.n)) then ToMillis(ts.n) else now)
    ensures ts.TextStamp? && ts.text != "" ==>
              instant == (if parseDate(ts.text).Some? && IsValidTime(parseDate(ts.text).value)
                          then parseDate(ts.text).value else now)
  {
    match ts
    case NumberStamp(n) =>
      if n == 0 then now
      else
        var ms := ToMillis(n);
        if IsValidTime(ms) then ms else now
    case TextStamp(text) =>
      if text == "" then now
      else
        var parsed := parseDate(text);
        if parsed.Some? && IsValidTime(parsed.value) then parsed.value else now
    case OtherStamp => now
  }

  /** A count of seconds from 10^7 up to 10^10 - 1 (the eight- to ten-digit
      counts) and the count of milliseconds for the same instant denote the
      same instant. */
  lemma SecondsAndMillisecondsAgree(s: int, now: int, parseDate: string -> Option<int>)
    requires 10_000_000 <= s < SecondsThreshold
    ensures FormatTimestamp(NumberStamp(s), now, parseDate) == FormatTimestamp(NumberStamp(s * 1000), now, parseDate)
    ensures FormatTimestamp(NumberStamp(s), now, parseDate) == s * 1000
  {
  }

  /** One element of `recentSubmissionList`. A missing or empty title or
      status is `None`. */
  datatype RawSubmission = RawSubmission(title: Option<string>, timestamp: Timestamp, statusDisplay: Option<string>)

  /** A row of `leetcode_submissions`. */
  datatype SubmissionRecord = SubmissionRecord(problemName: string, submissionDate: int, submissionStatus: string)

  function ToRecord(sub: RawSubmission, now: int, parseDate: string -> Option<int>): (r: SubmissionRecord)
    ensures r.problemName == OrElse(sub.title, UnknownProblem)
    ensures r.submissionStatus == OrElse(sub.statusDisplay, UnknownStatus)
    ensures r.submissionDate == FormatTimestamp(sub.timestamp, now, parseDate)
  {
    SubmissionRecord(OrElse(sub.title, UnknownProblem),
                     FormatTimestamp(sub.timestamp, now, parseDate),
                     OrElse(sub.statusDisplay, UnknownStatus))
  }

  /** `submissions.map(...)`: one record per submission, in the same order. */
  function ToRecords(subs: seq<RawSubmission>, now: int, parseDate: string -> Option<int>): (rs: seq<SubmissionRecord>)
    ensures |rs| == |subs|
    ensures forall i :: 0 <= i < |subs| ==> rs[i] == ToRecord(subs[i], now, parseDate)
  {
    if subs == [] then []
    else [ToRecord(subs[0], now, parseDate)] + ToRecords(subs[1..], now, parseDate)
  }

  /** `result.data?.recentSubmissionList || []`: missing (or any falsy
      value), something that is not an array, or the list. */
  datatype SubmissionsPayload = NoList | NotAList | SubmissionList(subs: seq<RawSubmission>)

  /** The GraphQL reply: the request or the reading of its body threw, a
      non-ok status (`status` is never in 200-299: an ok reply is a
      `LeetCodeBody`), or an ok reply with its payload. */
  datatype LeetCodeReply =
    | LeetCodeFailed(message: string)
    | LeetCodeStatus(status: int, statusText: string)
    | LeetCodeBody(payload: SubmissionsPayload)

  /** What `fetchLeetCodeData` decides before touching the table. */
  function PlanLeetCode(username: Option<string>, reply: LeetCodeReply, now: int,
                        parseDate: string -> Option<int>): (p: Plan<SubmissionRecord>)
    ensures !Truthy(username) ==> p == Abort(ConfigError(UsernameMissing))
    ensures Truthy(username) && reply.LeetCodeFailed? ==> p == Abort(RequestFailed(reply.message))
    ensures Truthy(username) && reply.LeetCodeStatus? ==> p == Abort(HttpError(reply.status, reply.statusText))
    ensures Truthy(username) && reply == LeetCodeBody(NotAList) ==> p == Abort(MalformedPayload(NotAnArrayMessage))
    ensures Truthy(username) && (reply == LeetCodeBody(NoList) || reply == LeetCodeBody(SubmissionList([]))) ==>
              p == KeepTable
    ensures Truthy(username) && reply.LeetCodeBody? && reply.payload.SubmissionList? && reply.payload.subs != [] ==>
              p == Replace(ToRecords(reply.payload.subs, now, parseDate))
    ensures p.Replace? ==>
              Truthy(username) && reply.LeetCodeBody? && reply.payload.SubmissionList? &&
              |p.rows| == |reply.payload.subs| > 0
    ensures p.Replace? ==> forall i :: 0 <= i < |p.rows| ==>
              p.rows[i] == ToRecord(reply.payload.subs[i], now, parseDate)
  {
    if !Truthy(username) then Abort(ConfigError(UsernameMissing))
    else
      match reply
      case LeetCodeFailed(message) => Abort(RequestFailed(message))
      case LeetCodeStatus(status, statusText) => Abort(HttpError(status, statusText))
      case LeetCodeBody(payload) =>
        match payload
        case NotAList => Abort(MalformedPayload(NotAnArrayMessage))
        case NoList => KeepTable
        case SubmissionList(subs) =>
          if |subs| == 0 then KeepTable else Replace(ToRecords(subs, now, parseDate))
  }

  /** `fetchLeetCodeData`: the plan, then the table replacement. */
  method FetchLeetCodeData(table: Table<SubmissionRecord>, username: Option<string>, reply: LeetCodeReply,
                           now: int, parseDate: string -> Option<int>,
                           deleteFailure: Option<string>, insertFailure: Option<string>)
    returns (r: Result<Snapshot<SubmissionRecord>, FetchError>)
    modifies table
    ensures r == CycleResult(PlanLeetCode(username, reply, now, parseDate), insertFailure)
    ensures table.rows == CycleRows(PlanLeetCode(username, reply, now, parseDate), old(table.rows),
                                    deleteFailure, insertFailure)
  {
    var plan := PlanLeetCode(username, reply, now, parseDate);
    r := RunCycle(table, plan, deleteFailure, insertFailure);
  }
}
