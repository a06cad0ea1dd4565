/** What the two fetchers (src/lib/fetchers/github.ts and
    src/lib/fetchers/leetcode.ts) share: the errors a fetch cycle can raise,
    the `{count, data}` result, and the replacement of a table's contents by
    a delete of every row followed by an insert of the new snapshot. The
    hosted database is reduced to a table of rows whose delete and insert
    either succeed or fail with a message; which one happens is an argument. */
module Snapshots {
  import opened Wrappers

  /** Why a fetch cycle failed. */
  datatype FetchError =
    | ConfigError(message: string)                       // a credential is not configured
    | RequestFailed(message: string)                     // the request or the reading of its body threw
    | RateLimited(resetHeader: Option<string>)           // status 403 with the `x-ratelimit-reset` header
    | HttpError(status: int, statusText: string)         // any other non-ok status
    | MalformedPayload(message: string)                  // the payload is not the expected array
    | WriteFailed(message: string)                       // the insert into the table failed

  /** The `{count, data}` a fetch cycle returns. */
  datatype Snapshot<Row> = Snapshot(count: nat, data: seq<Row>)

  /** What a fetch cycle decides to do once the upstream has answered:
      fail, leave the table alone (nothing was found), or replace the
      table's rows with a new snapshot. */
  datatype Plan<Row> = Abort(error: FetchError) | KeepTable | Replace(rows: seq<Row>)

  /** A database table. */
  class Table<Row> {
    var rows: seq<Row>

    constructor (initial: seq<Row>)
      ensures rows == initial
    {
      rows := initial;
    }

    /** `delete().neq('id', <nil uuid>)`: removes every row, or fails and
        removes none. */
    method DeleteAll(failure: Option<string>) returns (error: Option<string>)
      modifies this
      ensures error == failure
      ensures rows == if failure.None? then [] else old(rows)
    {
      if failure.None? {
        rows := [];
      }
      error := failure;
    }

    /** `insert(batch)`: appends the batch, or fails and appends nothing. */
    method Insert(batch: seq<Row>, failure: Option<string>) returns (error: Option<string>)
      modifies this
      ensures error == failure
      ensures rows == if failure.None? then old(rows) + batch else old(rows)
    {
      if failure.None? {
        rows := rows + batch;
      }
      error := failure;
    }
  }

  /** The result of a cycle: only the insert's failure is raised; a failed
      delete is logged and ignored. A successful cycle reports as many rows
      as it wrote. */
  function CycleResult<Row>(plan: Plan<Row>, insertFailure: Option<string>): (r: Result<Snapshot<Row>, FetchError>)
    ensures plan.Abort? ==> r == Err(plan.error)
    ensures plan.KeepTable? ==> r == Ok(Snapshot(0, []))
    ensures plan.Replace? && insertFailure.Some? ==> r == Err(WriteFailed(insertFailure.value))
    ensures plan.Replace? && insertFailure.None? ==> r.Ok? && r.value.data == plan.rows
    ensures r.Ok? ==> r.value.count == |r.value.data|
  {
    match plan
    case Abort(e) => Err(e)
    case KeepTable => Ok(Snapshot(0, []))
    case Replace(rows) =>
      if insertFailure.Some? then Err(WriteFailed(insertFailure.value))
      else Ok(Snapshot(|rows|, rows))
  }

  /** The table's rows after a cycle that started with `prior`. Only a
      cycle whose delete and insert both succeed leaves exactly the new
      snapshot; a failed delete followed by a successful insert leaves the old
      rows followed by the new ones, and a successful delete followed by a
      failed insert leaves the table empty. */
  function CycleRows<Row>(plan: Plan<Row>, prior: seq<Row>, deleteFailure: Option<string>,
                          insertFailure: Option<string>): (rows: seq<Row>)
    ensures !plan.Replace? ==> rows == prior
    ensures plan.Replace? && deleteFailure.None? && insertFailure.None? ==> rows == plan.rows
    ensures plan.Replace? && deleteFailure.Some? && insertFailure.None? ==> rows == prior + plan.rows
    ensures plan.Replace? && deleteFailure.None? && insertFailure.Some? ==> rows == []
    ensures plan.Replace? && deleteFailure.Some? && insertFailure.Some? ==> rows == prior
  {
    match plan
    case Replace(batch) =>
      var afterDelete := if deleteFailure.None? then [] else prior;
      if insertFailure.None? then afterDelete + batch else afterDelete
    case _ => prior
  }

  /** Reading the table back after a successful cycle whose delete succeeded
      gives exactly the snapshot the cycle reported, with no row of an
      earlier snapshot. */
  lemma SuccessfulCycleReadsBack<Row>(plan: Plan<Row>, prior: seq<Row>, deleteFailure: Option<string>,
                                      insertFailure: Option<string>)
    requires plan.Replace? && deleteFailure.None?
    requires CycleResult(plan, insertFailure).Ok?
    ensures CycleRows(plan, prior, deleteFailure, insertFailure) == CycleResult(plan, insertFailure).value.data
    ensures |CycleRows(plan, prior, deleteFailure, insertFailure)| == CycleResult(plan, insertFailure).value.count
  {
  }

  /** Carries out `plan` on `table`: delete every row, then insert the
      snapshot (src/lib/fetchers/github.ts:124-143,
      src/lib/fetchers/leetcode.ts:120-139). */
  method RunCycle<Row>(table: Table<Row>, plan: Plan<Row>, deleteFailure: Option<string>,
                       insertFailure: Option<string>)
    returns (r: Result<Snapshot<Row>, FetchError>)
    modifies table
    ensures r == CycleResult(plan, insertFailure)
    ensures table.rows == CycleRows(plan, old(table.rows), deleteFailure, insertFailure)
  {
    match plan {
      case Abort(e) =>
        return Err(e);
      case KeepTable =>
        return Ok(Snapshot(0, []));
      case Replace(rows) =>
        var deleteError := table.DeleteAll(deleteFailure);
        var insertError := table.Insert(rows, insertFailure);
        if insertError.Some? {
          return Err(WriteFailed(insertError.value));
        }
        return Ok(Snapshot(|rows|, rows));
    }
  }
}
