# Portfolio site back end: rate limiter, contact endpoint, data fetchers

This project models the server-side core of a personal portfolio site in
Dafny and proves properties of the model. The site is built with Next.js.

- **Rate limiter.** An in-memory, fixed-window limiter keeps one record per
  client key (`src/lib/rate-limit.ts`).
- **Contact endpoint.** It is rate-limited by the first entry of the
  `x-forwarded-for` header. It then runs its checks in a fixed order:
  - required fields;
  - sanitizing (trim, then strip `<` and `>`);
  - the anchored email expression;
  - UTF-16 length bounds;
  - a silent spam filter (six expressions, five of them case-insensitive).

  Mail goes out only for a submission that passes all of them
  (`src/app/api/contact/route.ts`).
- **Client-side contact form.** Its state, its field-change handler, its
  looser validation, and its submit gate (`src/components/ContactSection.tsx`).
- **Two fetchers.** The GitHub and LeetCode fetchers normalise an upstream
  answer into rows. They then replace a table's contents: a delete of every
  row, then an insert of the new snapshot (`src/lib/fetchers/github.ts`,
  `src/lib/fetchers/leetcode.ts`).
- **Two read-through routes.** They share the fetchers' normalisation but
  have their own failure policies (`src/app/api/recent-commits/route.ts`,
  `src/app/api/leetcode-submissions/route.ts`).
- **Two refresh triggers.** Each runs both fetchers and reports each
  source separately. The cron trigger also appends an entry to the cron log
  (`src/app/api/refresh-all/route.ts`,
  `src/app/api/cron/refresh-data/route.ts`).

Modules:

| module | file | models |
|---|---|---|
| `Wrappers` | `wrappers.dfy` | `Option`, `Result` |
| `JsStrings` | `js_strings.dfy` | JavaScript `trim` and its white-space set, `||` on strings, `length` in UTF-16 units, `i`-flag case folding |
| `RateLimit` | `rate_limit.dfy` | `rateLimit`, `rateLimitResponse`; the store is the `RateLimiter` class |
| `ContactRoute` | `contact_route.dfy` | `POST /api/contact` |
| `ContactForm` | `contact_form.dfy` | the `ContactSection` component's state and handlers, as the `ContactSection` class |
| `Snapshots` | `snapshots.dfy` | the fetch errors, `{count, data}`, a table as a class, the delete-then-insert cycle |
| `GitHubFetcher` | `github_fetcher.dfy` | `fetchGitHubData` |
| `LeetCodeFetcher` | `leetcode_fetcher.dfy` | `fetchLeetCodeData`, `formatTimestamp` |
| `RecentCommitsRoute` | `recent_commits.dfy` | `GET /api/recent-commits` |
| `LeetCodeSubmissionsRoute` | `leetcode_submissions.dfy` | `GET /api/leetcode-submissions` |
| `RefreshAllRoute` | `refresh_all.dfy` | `GET /api/refresh-all` |
| `CronRefreshRoute` | `cron_refresh.dfy` | `GET /api/cron/refresh-data` |

**Arguments in place of the outside world.** Everything outside the
program becomes an argument:
- the clock, as `now` in milliseconds since the epoch;
- environment variables, as `Option<string>`;
- the upstream HTTP answers, as datatypes that list what the code tells apart;
- the per-repository commit lookup, as a function `commitsFor`;
- the parsing of date strings by `new Date(text)`, as a function `parseDate`;
- whether each database write fails, as `Option<string>`;
- whether the mail was delivered, as a `bool`.

**Duplicated code modelled once.** The two read-through routes repeat the
fetchers' normalisation code. It is modelled once, and lemmas show that each
route answers what the matching fetcher would store.

**A failed delete is ignored.** The fetchers' own comment says they delete
the old data and insert the new (`src/lib/fetchers/github.ts:123`,
`src/lib/fetchers/leetcode.ts:119`). The code logs a failed delete and goes on
to insert. The model follows the code: a failed delete followed by a
successful insert leaves the old rows followed by the new ones
(`Snapshots.CycleRows`). The table holds exactly the new snapshot only when
the delete succeeded (`Snapshots.SuccessfulCycleReadsBack`).

**Keys named after `Object.prototype` members are never limited.** The rate
limit store is a plain object literal (`src/lib/rate-limit.ts:10`). For a key
such as `constructor`, `toString` or `__proto__`, the lookup finds an
inherited, truthy value. Both comparisons with its missing `resetTime` and
`count` are false, and `count++` writes onto the inherited value, not into
the store. The call is allowed and nothing is stored. The model follows the
code: `RateLimit.InheritedKeys` lists these names, `RateLimit.Call` allows
them without touching the store, and `RateLimit.InheritedKeyNeverLimited`
proves that such a key is never refused. A contact client that sends
`x-forwarded-for: constructor` is therefore never rate limited
(`ContactRoute.ConstructorKeyIsInherited`). Every other key follows its own
record (`RateLimit.CallVerdictsFollowRecord`).

## Model

| member | source | states |
|---|---|---|
| RateLimit.Admit | src/lib/rate-limit.ts:17-33 | A missing record, or one with `now > resetTime`, opens a new window with count 1 and reset `now + windowMs`. Inside a window the call is refused at `count >= limit` and the record is left as it was. Otherwise the call is counted. A count within `1..max(limit,1)` stays within it. |
| RateLimit.Verdicts | src/lib/rate-limit.ts:12-34 | Successive calls for one key, each starting from the record the previous one left, give one verdict per call. |
| RateLimit.OpenWindowVerdicts | src/lib/rate-limit.ts:28-33 | Inside an open window with `count` calls, the i-th further call is allowed exactly when `count + i < limit`. Once refused, every call is refused until the window ends. |
| RateLimit.FreshWindowVerdicts | src/lib/rate-limit.ts:20-33 | A window opened at the first call admits exactly the first `max(limit, 1)` calls made before it ends. |
| RateLimit.RateLimitResponse | src/lib/rate-limit.ts:36-41 | The refusal answer has status 429. |
| RateLimit.RateLimiter.constructor | src/lib/rate-limit.ts:10 | The store starts empty. |
| RateLimit.Call | src/lib/rate-limit.ts:10-34 | A key inherited from `Object.prototype` is allowed and the store is left as it was. Any other key gets the verdict and the new record of `Admit`. No other key's record changes, and a refusal changes nothing. |
| RateLimit.CallVerdictsFollowRecord | src/lib/rate-limit.ts:12-34 | For a key that is not inherited, successive calls on the store give exactly the verdicts of the key's own record (`Verdicts`). |
| RateLimit.InheritedKeyNeverLimited | src/lib/rate-limit.ts:10-33 | A key inherited from `Object.prototype` is allowed on every call, however many calls it makes. |
| RateLimit.RateLimiter.RateLimit | src/lib/rate-limit.ts:12-34 | The verdict and the new store are those of `Call`. An inherited key is allowed and stores nothing. Any other key gets the verdict and new record of `Admit`. Other keys are untouched. A refusal changes nothing. Counts stay at least 1, and within the window capacity if they were. No inherited key is ever stored. |
| JsStrings.Trim | src/app/api/contact/route.ts:7 | `trim()` never lengthens its input. What it keeps is stated by `TrimSpec`. |
| JsStrings.TrimSpec | src/app/api/contact/route.ts:7 | `trim()` keeps the infix of the input between its leading and its trailing white space. Everything after the result is white space, and a non-empty result starts and ends with non-space. |
| JsStrings.BlankIffAllSpace | src/components/ContactSection.tsx:36-39 | A string trims to `""` exactly when all its characters are white space. |
| JsStrings.Utf16Length | src/app/api/contact/route.ts:51-63 | `length` counts at least one and at most two code units per character, and exactly one each when all characters lie in the Basic Multilingual Plane. |
| ContactRoute.FirstField | src/app/api/contact/route.ts:19 | `split(',')[0]` is the prefix before the first comma, or the whole text when there is none, and contains no comma. |
| ContactRoute.ClientKey | src/app/api/contact/route.ts:18-19 | The key is `"unknown"` for a missing or empty header. Otherwise it is the header's prefix up to the first comma, with no comma in it. |
| ContactRoute.ConstructorKeyIsInherited | src/app/api/contact/route.ts:17-23 | A client whose `x-forwarded-for` header is `constructor` is keyed as `constructor` and is admitted on every call, with a fresh store. |
| ContactRoute.StripAngles | src/app/api/contact/route.ts:7 | No `<` or `>` is left. Every other character keeps its number of occurrences. |
| ContactRoute.Sanitize | src/app/api/contact/route.ts:6-8 | A sanitized string has no `<` or `>` and is no longer than its input. |
| ContactRoute.SanitizeNotIdempotent | src/app/api/contact/route.ts:6-8 | Trimming before stripping makes sanitizing non-idempotent: `"< a"` gives `" a"`, which gives `"a"`. |
| ContactRoute.IsValidEmail | src/app/api/contact/route.ts:10-13 | The check's definition: a non-empty part without `@` or white space before the first `@`, then a part of `[^\s@]` characters with a `.` that is neither its first nor its last character. |
| ContactRoute.IsValidEmailMatchesPattern | src/app/api/contact/route.ts:10-13 | The email check accepts exactly the strings of the form one or more `[^\s@]`, `@`, one or more `[^\s@]`, `.`, one or more `[^\s@]`, with nothing else. Both directions are proved. |
| ContactRoute.ValidEmailHasOneAt | src/app/api/contact/route.ts:10-13 | An accepted address has no white space and exactly one `@`. |
| ContactRoute.HasSpam | src/app/api/contact/route.ts:66-78 | The filter's definition: some of the six expressions occurs in the message or the name, with five of them compared ignoring ASCII case and `$$$` compared exactly. |
| ContactRoute.SpamIgnoresCase | src/app/api/contact/route.ts:66-78 | For all names and messages, the filter gives the same verdict after every ASCII capital is folded to its small letter. The five words match in any case, and `$$$` has no letter. |
| ContactRoute.CapitalisedWordIsSpam | src/app/api/contact/route.ts:66-78 | Because of the ignore-case flag, a message containing `WINNER` is spam. |
| ContactRoute.Screen | src/app/api/contact/route.ts:26-86 | The checks in the source's order: missing fields give 400, an invalid email 400, a bad name length 400, a bad message length 400. A body that is not JSON, or a truthy non-string field, gives 500. Spam gets a silent success. A mail is produced only with the success response, from fields that are sanitized, valid, within bounds and not spam. |
| ContactRoute.Finish | src/app/api/contact/route.ts:155-169 | A failed delivery turns the planned success into the 500 response. Without a mail the planned response stands. |
| ContactRoute.TooManyRequests | src/app/api/contact/route.ts:22-24 | A refused caller gets status 429. |
| ContactRoute.Post | src/app/api/contact/route.ts:15-169 | The limiter is charged first, at 5 per hour under the client key, before the body is read. A refused call gets 429. An admitted call gets the screened, delivered answer. The limiter's new store is the one `Call` gives, so a client keyed under an inherited name is never refused. |
| ContactForm.FormData.With | src/components/ContactSection.tsx:20-23 | The changed field takes the new value, and the others keep theirs. |
| ContactForm.ValidateForm | src/components/ContactSection.tsx:34-41 | There is an error exactly for each blank field, and for a non-blank email without the `x@y.z` shape, each with its message. |
| ContactForm.LooseEmail | src/components/ContactSection.tsx:38 | The unanchored `\S+@\S+\.\S+`: somewhere in the text, a non-space character, `@`, one or more non-space characters, `.`, and a non-space character. |
| ContactForm.SubmittableIff | src/components/ContactSection.tsx:46-50 | A form passes validation exactly when no field is blank and the email has the `x@y.z` shape. |
| ContactForm.SubmittableFieldsAreFilled | src/components/ContactSection.tsx:34-41 | A form that passes validation has no empty field, so the endpoint's required-field check passes too. |
| ContactForm.FeedbackFor | src/components/ContactSection.tsx:64-71 | The feedback shown for an ok reply, a non-ok reply and a network error, with the source's three texts. |
| ContactForm.ContactSection.constructor | src/components/ContactSection.tsx:8-15 | Empty fields, no errors, not submitting, no feedback. |
| ContactForm.ContactSection.HandleChange | src/components/ContactSection.tsx:18-31 | The field takes the new value. A non-empty error on that field is blanked. Nothing else changes. |
| ContactForm.ContactSection.HandleSubmit | src/components/ContactSection.tsx:44-75 | On failed validation the errors are replaced and nothing is posted. Otherwise the form is posted and the feedback matches how the request ended. The fields are cleared only after an ok reply, and `submitting` ends false. |
| Snapshots.Table.DeleteAll | src/lib/fetchers/github.ts:124-131 | Either every row is removed, or the error is returned and no row is removed. |
| Snapshots.Table.Insert | src/lib/fetchers/github.ts:133-140 | Either the batch is appended, or the error is returned and nothing is appended. |
| Snapshots.CycleResult | src/lib/fetchers/github.ts:133-143 | Only the insert's failure is raised. A successful cycle reports a count equal to the number of rows it reports. |
| Snapshots.CycleRows | src/lib/fetchers/github.ts:123-140 | The table after a cycle, in all four delete/insert outcomes. It is untouched when nothing is written. |
| Snapshots.SuccessfulCycleReadsBack | src/lib/fetchers/leetcode.ts:119-139 | After a successful cycle whose delete succeeded, the table holds exactly the reported snapshot. |
| Snapshots.RunCycle | src/lib/fetchers/leetcode.ts:119-139 | Carrying out a plan gives `CycleResult` and leaves the table at `CycleRows`. |
| GitHubFetcher.NormalizeRepo | src/lib/fetchers/github.ts:76-117 | A lookup that threw gives `null`, and every other lookup gives a record. The record carries the repository's name, URL, stars and forks, with description and language defaulted. Its message and date come from the latest commit, fall back as in the source, or are the fixed unavailable text. |
| GitHubFetcher.NormalizeAll | src/lib/fetchers/github.ts:75-118 | There is one answer per repository, in the order of the list. |
| GitHubFetcher.FilterNulls | src/lib/fetchers/github.ts:121 | Every kept value was present, and every present value is kept. |
| GitHubFetcher.FilterNullsAppend | src/lib/fetchers/github.ts:121 | Filtering distributes over concatenation, so order is kept. |
| GitHubFetcher.FilterNullsCount | src/lib/fetchers/github.ts:121 | Exactly the `null` entries are dropped. |
| GitHubFetcher.CollectCommits | src/lib/fetchers/github.ts:75-121 | No more records than repositories. |
| GitHubFetcher.NullsAreThrownLookups | src/lib/fetchers/github.ts:113-116 | The `null` answers are exactly the lookups that threw. |
| GitHubFetcher.CollectCommitsCount | src/lib/fetchers/github.ts:75-121 | From N repositories of which M lookups threw, exactly N - M records are kept. |
| GitHubFetcher.CollectCommitsAppend | src/lib/fetchers/github.ts:75-121 | The records follow the order of the repository list. |
| GitHubFetcher.PlanGitHub | src/lib/fetchers/github.ts:29-121 | Missing credentials, a failed request, status 403 (rate limit, with the reset header), any other non-ok status and a non-array payload each abort with their own error. An empty list leaves the table alone. Otherwise the table is replaced with the collected records. |
| GitHubFetcher.FetchGitHubData | src/lib/fetchers/github.ts:25-148 | The result and the table afterwards are those of the plan carried out. |
| LeetCodeFetcher.ToMillis | src/lib/fetchers/leetcode.ts:30-34 | Numbers below 10^10 are seconds and are multiplied by 1000. The others are already milliseconds. |
| LeetCodeFetcher.FormatTimestamp | src/lib/fetchers/leetcode.ts:18-49 | The instant is always a valid date when `now` is. Falsy and non-number, non-string timestamps give `now`. A number gives its millisecond reading when that is a valid date, and a string its parsed date when there is one; otherwise `now`. |
| LeetCodeFetcher.SecondsAndMillisecondsAgree | src/lib/fetchers/leetcode.ts:28-34 | A seconds count and the matching milliseconds count denote the same instant. |
| LeetCodeFetcher.ToRecord | src/lib/fetchers/leetcode.ts:113-117 | The title falls back to `Unknown Problem` and the status to `Unknown`. The date is `FormatTimestamp`. |
| LeetCodeFetcher.ToRecords | src/lib/fetchers/leetcode.ts:113-117 | There is one record per submission, in order. |
| LeetCodeFetcher.PlanLeetCode | src/lib/fetchers/leetcode.ts:55-117 | A missing username, a failed request, a non-ok status and a non-array payload each abort with their own error. A missing or empty list leaves the table alone. Otherwise the table is replaced with one record per submission. |
| LeetCodeFetcher.FetchLeetCodeData | src/lib/fetchers/leetcode.ts:51-144 | The result and the table afterwards are those of the plan carried out. |
| RecentCommitsRoute.RecentCommits | src/app/api/recent-commits/route.ts:22-105 | Missing credentials, a failed request, any non-ok status and a non-array payload all answer `[]`. Otherwise the answer is the records collected from the repositories, at most one per repository. |
| RecentCommitsRoute.RouteAgreesWithFetcher | src/app/api/recent-commits/route.ts:52-95 | The route answers exactly the rows the fetcher would store, and `[]` whenever the fetcher would not replace the table. |
| RecentCommitsRoute.RouteDropsThrownLookups | src/app/api/recent-commits/route.ts:86-93 | From N repositories of which M lookups threw, the route answers N - M records. |
| LeetCodeSubmissionsRoute.LeetCodeSubmissions | src/app/api/leetcode-submissions/route.ts:48-117 | A missing username and a missing list answer `[]`. A failed request, a non-ok status and a non-array payload answer 500. A list answers one record per submission, in order. |
| LeetCodeSubmissionsRoute.Status | src/app/api/leetcode-submissions/route.ts:109-115 | A JSON array of rows answers 200; the failure answers 500. |
| LeetCodeSubmissionsRoute.RouteAgreesWithFetcher | src/app/api/leetcode-submissions/route.ts:48-117 | The route answers the fetcher's rows. It answers `[]` where the fetcher keeps the table or lacks a username, and 500 where the fetcher fails otherwise. |
| RefreshAllRoute.Authorized | src/app/api/refresh-all/route.ts:11 | The header is checked only when `REFRESH_TOKEN` is set and non-empty, and must then be exactly `Bearer <token>`. |
| RefreshAllRoute.Status | src/app/api/refresh-all/route.ts:11-38 | A refused call answers 401; a completed refresh answers 200. |
| RefreshAllRoute.Report | src/app/api/refresh-all/route.ts:16-37 | A failed cycle reports count 0 with its error. A successful one reports its count and no error. |
| RefreshAllRoute.RefreshAll | src/app/api/refresh-all/route.ts:8-38 | The call is refused exactly when a token is set and the header differs from `Bearer <token>`. Otherwise it succeeds, with each source's report depending only on that source's outcome. |
| RefreshAllRoute.PartialFailureIsReported | src/app/api/refresh-all/route.ts:16-38 | One source's failure does not hide the other's count. |
| CronRefreshRoute.Status | src/app/api/cron/refresh-data/route.ts:12-69 | A refused call answers 401, a completed run 200, and a run that failed 500. |
| CronRefreshRoute.ExpectedHeader | src/app/api/cron/refresh-data/route.ts:12 | The expected header is `Bearer <secret>`, or `Bearer undefined` when the secret is unset. |
| CronRefreshRoute.Authorized | src/app/api/cron/refresh-data/route.ts:12 | The header must be exactly the expected one, whether or not the secret is set. |
| CronRefreshRoute.UnsetSecretAcceptsUndefined | src/app/api/cron/refresh-data/route.ts:12 | With the secret unset, only the literal header `Bearer undefined` is accepted. |
| CronRefreshRoute.Summarize | src/app/api/cron/refresh-data/route.ts:24-46 | A fulfilled cycle reports `fulfilled` with its count. A rejected one reports `rejected`, 0 and its error. A reason whose `message` cannot be read gives no summary. |
| CronRefreshRoute.CronLog.Append | src/app/api/cron/refresh-data/route.ts:51 | Exactly one entry is appended. |
| CronRefreshRoute.RefreshData | src/app/api/cron/refresh-data/route.ts:6-71 | An unauthorised call answers 401 and logs nothing. An authorised call appends exactly one entry: `success` with the summary it answers, or `failure` with the 500 answer. |

## Left out

- Network I/O (`fetch`), mail transport (`nodemailer`) and the hosted database client are not modelled. Their outcomes are arguments.
- Concurrency is not modelled. `Promise.all` and `Promise.allSettled` appear as their results, in list order, which is what they return.
- Dates are modelled as integer milliseconds, without ISO and locale formatting (`toISOString`, `toLocaleString`). `new Date(text)` is the uninterpreted argument `parseDate`. The clock is read once per cycle as `now`, where the source reads it again for each fallback.
- LeetCodeFetcher.FormatTimestamp: does not model fractional, `NaN` or infinite numeric timestamps, because numbers are modelled as integers.
- Error message texts built with template strings, including the rate-limit reset time, are represented as structured `FetchError` values.
- The delete filter `neq('id', <nil uuid>)` is taken to match every row.
- The logger, the console output and the failure of the cron log write itself are left out. The cron log is modelled as an append-only table.
- The LeetCode session cookie header is left out: it changes only the request.
- The 500 catch path of `GET /api/refresh-all` is not modelled. Once each fetcher is caught on its own nothing in the route can throw, for the rejections the fetchers produce.
- The HTML and text mail templates are left out. The mail is modelled by its three sanitized fields.
- UTF-16 is modelled only through `length`. Strings are sequences of Unicode code points.
- ContactForm.ContactSection.HandleSubmit: states the state before and after the request, not the intermediate render where `submitting` is true and the feedback is empty.
- RateLimit.RateLimitResponse: states only the status. The body text is the constant `TooManyRequestsMessage`.
- The remaining API routes, the admin page, the seeding scripts and the UI are not part of this model.
