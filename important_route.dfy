/**
 * GET /api/important-announcements (src/app/api/important-announcements/route.ts):
 * pinned announcements through the PostgREST query builder. The handler is
 * straight-line arithmetic on page, limit and offset plus one response per
 * outcome; PostgREST itself is modelled by the reference function `Select`.
 */
module ImportantAnnouncementsRoute {
  import opened Wrappers
  import opened Text
  import opened Types
  import opened Store
  import Sorting
  import AR = AnnouncementsRoute

  const ErrorMessage := "Error fetching important announcements"

  /** PostgREST's "requested range not satisfiable" error code. */
  const RangeNotSatisfiable := "PGRST103"

  /** The code this model's PostgREST gives a range bound that is not a number. */
  const MalformedQuery := "PGRST100"

  datatype EmbeddedImage = EmbeddedImage(id: int, url: string, noticeId: int)

  datatype EmbeddedFile = EmbeddedFile(id: int, filename: string, url: string, noticeId: int)

  /** One row as selected, with its images and files embedded through the foreign keys. */
  datatype PinnedRow = PinnedRow(
    id: int,
    title: string,
    createdAt: int,
    writer: string,
    category: Option<int>,
    markdownContent: string,
    aiSummaryTitle: Option<string>,
    aiSummaryContent: Option<string>,
    originalUrl: string,
    publishDate: int,
    noticeImages: seq<EmbeddedImage>,
    noticeFiles: seq<EmbeddedFile>)

  /** `{ data, count, error }` as the query builder returns it. */
  datatype QueryResult = QueryResult(data: Option<seq<PinnedRow>>, count: Option<int>, error: Option<string>)

  datatype Response =
    | Listing(announcements: Option<seq<PinnedRow>>, total: Option<int>, hasMore: bool)
    | Failure(status: int, message: string)

  /** The page size when the request names none. */
  const DefaultLimit := 15

  /**
   * `parseInt(searchParams.get('limit') || '15', 10)`, with the parse of the
   * fallback `'15'` already done (`LimitOfParsesFallback`).
   */
  function LimitOf(limitParam: Option<string>): Option<int> {
    if limitParam.None? || limitParam.value == "" then Some(DefaultLimit) else ParseInt(limitParam.value)
  }

  /** The fallback string parses to the default page size. */
  lemma DefaultLimitParses()
    ensures ParseInt("15") == Some(DefaultLimit)
  {
    assert IntToString(15) == "15";
    ParseIntRoundTrip(15);
  }

  /** `LimitOf` is `parseInt` applied to the parameter or, when it is absent or empty, to `'15'`. */
  lemma LimitOfParsesFallback(limitParam: Option<string>)
    ensures LimitOf(limitParam) == ParseInt(if limitParam.None? || limitParam.value == "" then "15" else limitParam.value)
  {
    if limitParam.None? || limitParam.value == "" {
      DefaultLimitParses();
    }
  }

  /** `(offset + (data?.length || 0)) < (count || 0)`; a NaN offset compares false. */
  function HasMore(offset: Option<int>, data: Option<seq<PinnedRow>>, count: Option<int>): bool {
    offset.Some? && offset.value + (if data.Some? then |data.value| else 0) < count.GetOr(0)
  }

  /** The handler's response to the query's outcome. */
  function Respond(offset: Option<int>, result: QueryResult): (r: Response)
    ensures result.error.Some? && result.error.value == RangeNotSatisfiable ==>
              r == Listing(Some([]), Some(result.count.GetOr(0)), false)
    ensures result.error.Some? && result.error.value != RangeNotSatisfiable ==> r == Failure(500, ErrorMessage)
    ensures result.error.None? ==> r.Listing? && r.announcements == result.data && r.total == result.count
  {
    if result.error.Some? then
      if result.error.value == RangeNotSatisfiable then Listing(Some([]), Some(result.count.GetOr(0)), false)
      else Failure(500, ErrorMessage)
    else Listing(result.data, result.count, HasMore(offset, result.data, result.count))
  }

  predicate Pinned(n: Notice) {
    n.isNotice && !n.ignoreFlag
  }

  /** `.eq('is_notice', true).eq('ignore_flag', false)`, in table order. */
  function PinnedNotices(db: seq<Notice>): (r: seq<Notice>)
    ensures forall n :: n in r <==> n in db && Pinned(n)
  {
    if db == [] then []
    else (if Pinned(db[0]) then [db[0]] else []) + PinnedNotices(db[1..])
  }

  /** `.order('publish_date', { ascending: false })`. */
  function LatestFirst(n: Notice): int {
    -n.publishDate
  }

  function Embed(n: Notice): PinnedRow {
    PinnedRow(n.id, n.title, n.createdAt, n.writer, n.category, n.markdownContent,
              n.aiSummaryTitle, n.aiSummaryContent, n.originalUrl, n.publishDate,
              seq(|n.images|, i requires 0 <= i < |n.images| => EmbeddedImage(n.images[i].id, n.images[i].url, n.id)),
              seq(|n.files|, i requires 0 <= i < |n.files| =>
                EmbeddedFile(n.files[i].id, n.files[i].filename, n.files[i].url, n.id)))
  }

  function Ordered(db: seq<Notice>): seq<Notice> {
    Sorting.SortBy(PinnedNotices(db), LatestFirst)
  }

  /** The ordered selection is exactly the pinned notices, latest publish date first. */
  lemma OrderedRows(db: seq<Notice>)
    ensures forall n :: n in Ordered(db) <==> n in db && Pinned(n)
    ensures forall i, j :: 0 <= i < j < |Ordered(db)| ==> Ordered(db)[i].publishDate >= Ordered(db)[j].publishDate
  {
    var all := Ordered(db);
    Sorting.SortByMembers(PinnedNotices(db), LatestFirst);
    forall i, j | 0 <= i < j < |all|
      ensures all[i].publishDate >= all[j].publishDate
    {
      assert LatestFirst(all[i]) <= LatestFirst(all[j]);
    }
  }

  /** Each row of a page with its images and files embedded. */
  function EmbedAll(page: seq<Notice>): (r: seq<PinnedRow>)
    ensures |r| == |page|
    ensures forall i :: 0 <= i < |page| ==> r[i] == Embed(page[i])
  {
    seq(|page|, i requires 0 <= i < |page| => Embed(page[i]))
  }

  /**
   * PostgREST's answer to `.range(from, to)` with an exact count, as this model
   * assumes it: a bound that is not a number is malformed; a negative start, a
   * reversed range, or a start past the end of the rows is not satisfiable (a
   * start exactly at the end is an empty page); otherwise rows `from..to` of the ordered selection. The client
   * reads the count only from a successful response, so an error carries none.
   */
  function Select(db: seq<Notice>, from: Option<int>, to: Option<int>): (r: QueryResult)
    ensures r.error == Some(MalformedQuery) <==> from.None? || to.None?
    ensures r.error.Some? ==> r.data.None? && r.count.None?
    ensures r.error.None? ==>
              && from.Some? && to.Some? && r.data.Some? && r.count == Some(|Ordered(db)|)
              && |r.data.value| <= to.value - from.value + 1
  {
    var rows := Ordered(db);
    if from.None? || to.None? then QueryResult(None, None, Some(MalformedQuery))
    else if from.value < 0 || to.value < from.value - 1 || from.value > |rows| then
      QueryResult(None, None, Some(RangeNotSatisfiable))
    else
      QueryResult(Some(EmbedAll(AR.Window(rows, from.value, to.value - from.value + 1))), Some(|rows|), None)
  }

  /** The offset the handler computes from the raw `page` and `limit` parameters. */
  function OffsetFor(pageParam: Option<string>, limitParam: Option<string>): Option<int> {
    var limit := LimitOf(limitParam);
    if limit.None? then None else AR.OffsetOf(AR.PageOf(pageParam), limit.value)
  }

  /** `.range(offset, offset + limit - 1)` and the response, once page and limit are parsed. */
  function Answer(db: seq<Notice>, offset: Option<int>, limit: Option<int>): Response {
    var to := if offset.None? || limit.None? then None else Some(offset.value + limit.value - 1);
    Respond(offset, Select(db, offset, to))
  }

  /** The handler against the reference database. */
  function Get(db: seq<Notice>, pageParam: Option<string>, limitParam: Option<string>): Response {
    Answer(db, OffsetFor(pageParam, limitParam), LimitOf(limitParam))
  }

  /** A window of the ordered selection holds pinned notices only, latest first. */
  lemma WindowOfOrdered(db: seq<Notice>, offset: nat, limit: nat)
    ensures var page := AR.Window(Ordered(db), offset, limit);
            && (forall n :: n in page ==> n in db && Pinned(n))
            && (forall i, j :: 0 <= i < j < |page| ==> page[i].publishDate >= page[j].publishDate)
  {
    var all := Ordered(db);
    OrderedRows(db);
    var lo := AR.Min(offset, |all|);
    var page := AR.Window(all, offset, limit);
    AR.WindowAt(all, offset, limit);
    forall n | n in page
      ensures n in all
    {
      var k :| 0 <= k < |page| && page[k] == n;
      assert all[lo + k] in all;
    }
    forall i, j | 0 <= i < j < |page|
      ensures page[i].publishDate >= page[j].publishDate
    {
      assert all[lo + i].publishDate >= all[lo + j].publishDate;
    }
  }

  /** Embedding keeps where each row comes from and the publish-date order. */
  lemma EmbeddedRows(db: seq<Notice>, page: seq<Notice>)
    requires forall n :: n in page ==> n in db && Pinned(n)
    requires forall i, j :: 0 <= i < j < |page| ==> page[i].publishDate >= page[j].publishDate
    ensures var rows := EmbedAll(page);
            && (forall r :: r in rows ==> exists n :: n in db && Pinned(n) && Embed(n) == r)
            && (forall i, j :: 0 <= i < j < |rows| ==> rows[i].publishDate >= rows[j].publishDate)
  {
    var rows := EmbedAll(page);
    forall r | r in rows
      ensures exists n :: n in db && Pinned(n) && Embed(n) == r
    {
      var k :| 0 <= k < |rows| && rows[k] == r;
      assert page[k] in page;
    }
  }

  /** What PostgREST returns for a satisfiable range: pinned rows, latest first, no more than asked for. */
  lemma SelectedRows(db: seq<Notice>, from: int, to: int)
    requires Select(db, Some(from), Some(to)).error.None?
    ensures var result := Select(db, Some(from), Some(to));
            && 0 <= from && from - 1 <= to
            && result.data.Some? && result.count == Some(|Ordered(db)|)
            && var rows := result.data.value;
            && |rows| == AR.Min(to - from + 1, |Ordered(db)| - from)
            && (forall r :: r in rows ==> exists n :: n in db && Pinned(n) && Embed(n) == r)
            && (forall i, j :: 0 <= i < j < |rows| ==> rows[i].publishDate >= rows[j].publishDate)
  {
    var all := Ordered(db);
    assert 0 <= from && from - 1 <= to && from <= |all|;
    var page := AR.Window(all, from, to - from + 1);
    assert Select(db, Some(from), Some(to)) == QueryResult(Some(EmbedAll(page)), Some(|all|), None);
    assert |page| == AR.Min(to - from + 1, |all| - from);
    WindowOfOrdered(db, from, to - from + 1);
    EmbeddedRows(db, page);
  }

  /**
   * Whatever the parsed offset and limit, a listing holds at most `limit` rows
   * (none when the range is refused), each one a pinned, non-ignored notice,
   * latest publish date first, and `has_more` says exactly whether pinned rows
   * remain after it.
   */
  lemma AnsweredPage(db: seq<Notice>, offset: Option<int>, limit: Option<int>)
    requires Answer(db, offset, limit).Listing?
    ensures var response := Answer(db, offset, limit);
            && response.announcements.Some? && limit.Some? && offset.Some?
            && var rows := response.announcements.value;
            && (|rows| <= limit.value || rows == [])
            && (forall r :: r in rows ==> exists n :: n in db && Pinned(n) && Embed(n) == r)
            && (forall i, j :: 0 <= i < j < |rows| ==> rows[i].publishDate >= rows[j].publishDate)
            && (response.hasMore <==> 0 <= offset.value && 0 <= limit.value && offset.value + |rows| < |Ordered(db)|)
  {
    assert offset.Some? && limit.Some?;
    var to := offset.value + limit.value - 1;
    if Select(db, offset, Some(to)).error.None? {
      SelectedRows(db, offset.value, to);
    }
  }

  /** `AnsweredPage` for the page and limit the handler parses from the request. */
  lemma PinnedPage(db: seq<Notice>, pageParam: Option<string>, limitParam: Option<string>)
    requires Get(db, pageParam, limitParam).Listing?
    ensures var response := Get(db, pageParam, limitParam);
            var limit := LimitOf(limitParam);
            var offset := OffsetFor(pageParam, limitParam);
            && response.announcements.Some? && limit.Some? && offset.Some?
            && var rows := response.announcements.value;
            && (|rows| <= limit.value || rows == [])
            && (forall r :: r in rows ==> exists n :: n in db && Pinned(n) && Embed(n) == r)
            && (forall i, j :: 0 <= i < j < |rows| ==> rows[i].publishDate >= rows[j].publishDate)
            && (response.hasMore <==> 0 <= offset.value && 0 <= limit.value && offset.value + |rows| < |Ordered(db)|)
  {
    AnsweredPage(db, OffsetFor(pageParam, limitParam), LimitOf(limitParam));
  }

  /**
   * Asking for a page that starts past the last pinned row gives the empty
   * page with a total of 0 (`count ?? 0`, the count being absent), not an error.
   */
  lemma PastTheEnd(db: seq<Notice>, pageParam: Option<string>)
    requires var offset := OffsetFor(pageParam, None);
             offset.Some? && offset.value > |Ordered(db)|
    ensures Get(db, pageParam, None) == Listing(Some([]), Some(0), false)
  {
    var offset := OffsetFor(pageParam, None).value;
    assert Select(db, Some(offset), Some(offset + DefaultLimit - 1)).error == Some(RangeNotSatisfiable);
  }

  /**
   * A page that starts exactly at the end of the pinned rows is not refused:
   * it comes back empty, with the full count and no more pages.
   */
  lemma AtTheEnd(db: seq<Notice>, pageParam: Option<string>)
    requires var offset := OffsetFor(pageParam, None);
             offset.Some? && offset.value == |Ordered(db)|
    ensures Get(db, pageParam, None) == Listing(Some([]), Some(|Ordered(db)|), false)
  {
    var offset := OffsetFor(pageParam, None).value;
    var rows := Ordered(db);
    assert AR.Window(rows, offset, DefaultLimit) == [];
    assert Select(db, Some(offset), Some(offset + DefaultLimit - 1)) == QueryResult(Some([]), Some(|rows|), None);
  }
}
