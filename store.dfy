/**
 * The database as the handlers see it: the `notice` and `schedules` tables as
 * sequences of records, and the connection pool of src/lib/db.ts reduced to a
 * count of connections that are checked out.
 */
module Store {
  import opened Wrappers
  import opened Types
  import Json

  /** One row of `notice` with its attached images and files. Times in ms. */
  datatype Notice = Notice(
    id: int,
    title: string,
    aiSummaryTitle: Option<string>,
    aiSummaryContent: Option<string>,
    markdownContent: string,
    writer: string,
    createdAt: int,
    publishDate: int,
    category: Option<int>,
    originalUrl: string,
    isNotice: bool,
    ignoreFlag: bool,
    images: seq<AttachmentImage>,
    files: seq<AttachmentFile>)

  /**
   * One row of `schedules`: the two columns the endpoint filters and orders on,
   * and the JSON object PostgREST returns for it (every column plus the
   * embedded `notice`).
   */
  datatype ScheduleRecord = ScheduleRecord(end: int, isIgnored: bool, row: Json.Object)

  /** The calendar day (days since the epoch, UTC) of a millisecond timestamp. */
  function DayOf(ms: int): int {
    ms / 86_400_000
  }

  /** The `pg` pool: how many clients are checked out and not yet released. */
  class Pool {
    var inUse: nat

    constructor ()
      ensures inUse == 0
    {
      inUse := 0;
    }

    /** `pool.connect()`; `fails` is the outcome the network decides. */
    method Connect(fails: bool) returns (ok: bool)
      modifies this
      ensures ok == !fails
      ensures inUse == old(inUse) + (if ok then 1 else 0)
    {
      ok := !fails;
      if ok {
        inUse := inUse + 1;
      }
    }

    /** `client.release()`. */
    method Release()
      requires inUse > 0
      modifies this
      ensures inUse == old(inUse) - 1
    {
      inUse := inUse - 1;
    }
  }
}
