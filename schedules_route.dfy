/**
 * GET /api/schedules (src/app/api/schedules/route.ts): upcoming schedules,
 * each row reshaped so that the flattened `notice_*` columns become one
 * nested `notice` object (or null).
 */
module SchedulesRoute {
  import opened Json
  import opened Store
  import Sorting

  const ErrorMessage := "Error fetching schedules"

  datatype Response =
    | Schedules(schedules: seq<Object>)
    | Failure(status: int, message: string)

  /** The keys the mapper destructures out of each row. */
  const DestructuredKeys: set<string> := {
    "notice_id_alias", "notice_title", "notice_created_at", "notice_writer",
    "notice_category", "notice_markdown_content", "notice_ai_summary_title",
    "notice_ai_summary_content", "notice_original_url", "notice_publish_date",
    "images", "files"
  }

  /**
   * `v[0]` for an array or an object. Other values have no element `0` here; a
   * non-empty string's first character would not be null either.
   */
  function FirstElement(v: Value): Value {
    match v
    case Arr(items) => if items == [] then Undefined else items[0]
    case Obj(fields) => Get(fields, "0")
    case _ => Undefined
  }

  /** `images && images[0] !== null ? images : []`. */
  function AttachmentList(v: Value): (r: Value)
    ensures r == Arr([]) <==> !Truthy(v) || FirstElement(v) == Null || v == Arr([])
    ensures r != v ==> r == Arr([])
  {
    if Truthy(v) && FirstElement(v) != Null then v else Arr([])
  }

  /** The nested announcement, or null when `notice_id_alias` is falsy. */
  function NoticeOf(row: Object): (r: Value)
    ensures r == Null <==> !Truthy(Get(row, "notice_id_alias"))
    ensures r != Null ==> r.Obj? && Get(r.fields, "id") == Get(row, "notice_id_alias")
  {
    var alias := Get(row, "notice_id_alias");
    if Truthy(alias) then
      Obj(map[
        "id" := alias,
        "title" := Get(row, "notice_title"),
        "ai_summary_title" := Get(row, "notice_ai_summary_title"),
        "ai_summary_content" := Get(row, "notice_ai_summary_content"),
        "markdown_content" := Get(row, "notice_markdown_content"),
        "writer" := Get(row, "notice_writer"),
        "created_at" := Get(row, "notice_created_at"),
        "publish_date" := Get(row, "notice_publish_date"),
        "category" := Get(row, "notice_category"),
        "original_url" := Get(row, "notice_original_url"),
        "images" := AttachmentList(Get(row, "images")),
        "files" := AttachmentList(Get(row, "files"))])
    else Null
  }

  /** `{ ...scheduleData, notice }`. */
  function Reshape(row: Object): (r: Object)
    ensures "notice" in r && r["notice"] == NoticeOf(row)
    ensures forall k :: k in r <==> k == "notice" || (k in row && k !in DestructuredKeys)
    ensures forall k :: k in r && k != "notice" ==> r[k] == row[k]
  {
    (row - DestructuredKeys)["notice" := NoticeOf(row)]
  }

  /** `data.map(...)`. */
  function ReshapeAll(rows: seq<Object>): (r: seq<Object>)
    ensures |r| == |rows|
    ensures forall i :: 0 <= i < |rows| ==> r[i] == Reshape(rows[i])
  {
    seq(|rows|, i requires 0 <= i < |rows| => Reshape(rows[i]))
  }

  /** The nested announcement's attachment lists are the row's, or `[]` when missing or `[null]`. */
  lemma NoticeAttachments(row: Object)
    requires Truthy(Get(row, "notice_id_alias"))
    ensures var n := NoticeOf(row).fields;
            && Get(n, "images") == (if Truthy(Get(row, "images")) && FirstElement(Get(row, "images")) != Null
                                    then Get(row, "images") else Arr([]))
            && Get(n, "files") == (if Truthy(Get(row, "files")) && FirstElement(Get(row, "files")) != Null
                                   then Get(row, "files") else Arr([]))
  {
  }

  /**
   * The embed PostgREST returns under `notice` is always replaced: a row without
   * the flattened `notice_id_alias` column comes out with `notice: null`.
   */
  lemma EmbeddedNoticeOverridden(row: Object)
    requires "notice_id_alias" !in row
    ensures Reshape(row)["notice"] == Null
  {
  }

  /** `end` is what the query orders on. */
  function EndOf(s: ScheduleRecord): int {
    s.end
  }

  /** `.eq('is_ignored', false).gt('end', now)`, in table order. */
  function Upcoming(db: seq<ScheduleRecord>, now: int): (r: seq<ScheduleRecord>)
    ensures forall s :: s in r <==> s in db && !s.isIgnored && s.end > now
  {
    if db == [] then []
    else (if !db[0].isIgnored && db[0].end > now then [db[0]] else []) + Upcoming(db[1..], now)
  }

  /** The query's rows: upcoming schedules, earliest end first. */
  function Query(db: seq<ScheduleRecord>, now: int): (r: seq<ScheduleRecord>)
    ensures forall s :: s in r <==> s in db && !s.isIgnored && s.end > now
    ensures forall i, j :: 0 <= i < j < |r| ==> r[i].end <= r[j].end
  {
    Sorting.SortByMembers(Upcoming(db, now), EndOf);
    Sorting.SortBy(Upcoming(db, now), EndOf)
  }

  function Rows(records: seq<ScheduleRecord>): (r: seq<Object>)
    ensures |r| == |records|
    ensures forall i :: 0 <= i < |records| ==> r[i] == records[i].row
  {
    seq(|records|, i requires 0 <= i < |records| => records[i].row)
  }

  /** GET at time `now`; `queryFails` is the query's error outcome. */
  function Handle(db: seq<ScheduleRecord>, now: int, queryFails: bool): (r: Response)
    ensures queryFails <==> r == Failure(500, ErrorMessage)
    ensures !queryFails ==> r == Schedules(ReshapeAll(Rows(Query(db, now))))
  {
    if queryFails then Failure(500, ErrorMessage) else Schedules(ReshapeAll(Rows(Query(db, now))))
  }
}
