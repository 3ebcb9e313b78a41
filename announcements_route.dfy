/**
 * GET /api/announcements (src/app/api/announcements/route.ts): the raw-SQL
 * listing. The handler grows a list of WHERE clauses and a list of query
 * parameters, numbering each `$k` placeholder by the parameter list's length at
 * the time, runs a COUNT query and then a page query with LIMIT/OFFSET.
 * PostgreSQL is modelled by reference functions: filter, order, slice.
 */
module AnnouncementsRoute {
  import opened Wrappers
  import opened Text
  import opened Types
  import opened Store
  import Like
  import Sorting

  const PageSize := 15

  /** The largest PostgreSQL `bigint`, the type LIMIT and OFFSET take. */
  const MaxBigint := 0x7fff_ffff_ffff_ffff
  const ErrorMessage := "Error fetching announcements"

  /** A bound query parameter: the search pattern, the category array, or a number (None: NaN). */
  datatype Param = Pattern(text: string) | IntArray(values: seq<int>) | Number(value: Option<int>)

  /** A WHERE clause; `placeholder` is the `k` of the `$k` it refers to. */
  datatype Clause = NotIgnored | SearchMatches(placeholder: nat) | CategoryIn(placeholder: nat)

  /** The SQL text the handler pushes for each clause. */
  function ClauseText(c: Clause): string {
    match c
    case NotIgnored => "n.ignore_flag = false"
    case SearchMatches(k) =>
      "(n.ai_summary_title ILIKE $" + NatToString(k) + " OR n.ai_summary_content ILIKE $" + NatToString(k) + ")"
    case CategoryIn(k) => "n.category = ANY($" + NatToString(k) + "::int[])"
  }

  /** `WHERE ${whereClauses.join(' AND ')}`. */
  function WhereQuery(cs: seq<Clause>): string {
    "WHERE " + Join(seq(|cs|, i requires 0 <= i < |cs| => ClauseText(cs[i])), " AND ")
  }

  /** Every `$k` in the clauses names one of the parameters. */
  predicate PlaceholdersInRange(cs: seq<Clause>, params: seq<Param>) {
    forall i :: 0 <= i < |cs| ==> cs[i].NotIgnored? || 1 <= cs[i].placeholder <= |params|
  }

  /** `text ILIKE pattern` on either summary column; a NULL column never matches. */
  predicate SearchHit(n: Notice, pattern: string) {
    || (n.aiSummaryTitle.Some? && Like.Match(n.aiSummaryTitle.value, pattern))
    || (n.aiSummaryContent.Some? && Like.Match(n.aiSummaryContent.value, pattern))
  }

  /** Whether PostgreSQL evaluates the clause to TRUE for the row. */
  predicate ClauseHolds(c: Clause, params: seq<Param>, n: Notice) {
    match c
    case NotIgnored => !n.ignoreFlag
    case SearchMatches(k) =>
      1 <= k <= |params| && params[k - 1].Pattern? && SearchHit(n, params[k - 1].text)
    case CategoryIn(k) =>
      1 <= k <= |params| && params[k - 1].IntArray? && n.category.Some? && n.category.value in params[k - 1].values
  }

  predicate WhereHolds(cs: seq<Clause>, params: seq<Param>, n: Notice) {
    forall i :: 0 <= i < |cs| ==> ClauseHolds(cs[i], params, n)
  }

  /** No parameter is a LIKE pattern PostgreSQL refuses (one ending in a lone escape character). */
  predicate ParamsAccepted(params: seq<Param>) {
    forall i :: 0 <= i < |params| && params[i].Pattern? ==> Like.ValidPattern(params[i].text)
  }

  /** The selection the endpoint means: not ignored, matching the search, in one of the categories. */
  predicate Selected(n: Notice, searchTerm: string, categories: seq<int>) {
    && !n.ignoreFlag
    && (searchTerm != "" ==> SearchHit(n, "%" + searchTerm + "%"))
    && (categories != [] ==> n.category.Some? && n.category.value in categories)
  }

  /** Builds the clause and parameter lists exactly as the handler pushes them. */
  method BuildWhere(searchTerm: string, categories: seq<int>) returns (whereClauses: seq<Clause>, queryParams: seq<Param>)
    ensures whereClauses != [] && whereClauses[0] == NotIgnored
    ensures |whereClauses| == 1 + |queryParams|
    ensures |queryParams| == (if searchTerm != "" then 1 else 0) + (if categories != [] then 1 else 0)
    ensures searchTerm != "" ==> queryParams[0] == Pattern("%" + searchTerm + "%") && whereClauses[1] == SearchMatches(1)
    ensures categories != [] ==>
      queryParams[|queryParams| - 1] == IntArray(categories) && whereClauses[|queryParams|] == CategoryIn(|queryParams|)
    ensures PlaceholdersInRange(whereClauses, queryParams)
    ensures ParamsAccepted(queryParams)
    ensures forall n :: WhereHolds(whereClauses, queryParams, n) <==> Selected(n, searchTerm, categories)
  {
    queryParams := [];
    whereClauses := [NotIgnored];
    if searchTerm != "" {
      Like.EndingInPercentValid("%" + searchTerm);
      queryParams := queryParams + [Pattern("%" + searchTerm + "%")];
      whereClauses := whereClauses + [SearchMatches(|queryParams|)];
    }
    if categories != [] {
      queryParams := queryParams + [IntArray(categories)];
      whereClauses := whereClauses + [CategoryIn(|queryParams|)];
    }
    forall n
      ensures WhereHolds(whereClauses, queryParams, n) <==> Selected(n, searchTerm, categories)
    {
      if Selected(n, searchTerm, categories) {
        assert forall i :: 0 <= i < |whereClauses| ==> ClauseHolds(whereClauses[i], queryParams, n);
      }
      if WhereHolds(whereClauses, queryParams, n) {
        assert ClauseHolds(whereClauses[0], queryParams, n);
        if searchTerm != "" {
          assert ClauseHolds(whereClauses[1], queryParams, n);
        }
        if categories != [] {
          assert ClauseHolds(whereClauses[|whereClauses| - 1], queryParams, n);
        }
      }
    }
  }

  /** The rows of `db` for which the WHERE clauses hold, in table order. */
  function Where(db: seq<Notice>, cs: seq<Clause>, params: seq<Param>): (r: seq<Notice>)
    ensures |r| <= |db|
    ensures forall n :: n in r <==> n in db && WhereHolds(cs, params, n)
  {
    if db == [] then []
    else (if WhereHolds(cs, params, db[0]) then [db[0]] else []) + Where(db[1..], cs, params)
  }

  /** The rows the endpoint means to list, in table order. */
  function Matching(db: seq<Notice>, searchTerm: string, categories: seq<int>): (r: seq<Notice>)
    ensures |r| <= |db|
    ensures forall n :: n in r <==> n in db && Selected(n, searchTerm, categories)
  {
    if db == [] then []
    else (if Selected(db[0], searchTerm, categories) then [db[0]] else []) + Matching(db[1..], searchTerm, categories)
  }

  /** Evaluating the built clauses selects exactly the intended rows, in the same order. */
  lemma {:induction false} WhereIsMatching(db: seq<Notice>, cs: seq<Clause>, params: seq<Param>, searchTerm: string, categories: seq<int>)
    requires forall n :: WhereHolds(cs, params, n) <==> Selected(n, searchTerm, categories)
    ensures Where(db, cs, params) == Matching(db, searchTerm, categories)
  {
    if db != [] {
      WhereIsMatching(db[1..], cs, params, searchTerm, categories);
    }
  }

  /** Appending LIMIT and OFFSET parameters does not change what the clauses select. */
  lemma {:induction false} ExtraParamsKeepWhere(db: seq<Notice>, cs: seq<Clause>, params: seq<Param>, extra: seq<Param>)
    requires PlaceholdersInRange(cs, params)
    ensures Where(db, cs, params + extra) == Where(db, cs, params)
  {
    if db != [] {
      var n := db[0];
      forall i | 0 <= i < |cs|
        ensures ClauseHolds(cs[i], params + extra, n) == ClauseHolds(cs[i], params, n)
      {
        if !cs[i].NotIgnored? {
          assert (params + extra)[cs[i].placeholder - 1] == params[cs[i].placeholder - 1];
        }
      }
      assert WhereHolds(cs, params + extra, n) == WhereHolds(cs, params, n);
      ExtraParamsKeepWhere(db[1..], cs, params, extra);
    }
  }

  /** ORDER BY n.created_at DESC. */
  function NewestFirst(n: Notice): int {
    -n.createdAt
  }

  function Ordered(rows: seq<Notice>): seq<Notice> {
    Sorting.SortBy(rows, NewestFirst)
  }

  function Min(a: int, b: int): int {
    if a <= b then a else b
  }

  /** LIMIT `limit` OFFSET `offset`. */
  function Window<T>(rows: seq<T>, offset: nat, limit: nat): (r: seq<T>)
    ensures |r| == Min(limit, |rows| - Min(offset, |rows|))
  {
    var lo := Min(offset, |rows|);
    rows[lo..Min(lo + limit, |rows|)]
  }

  /** Row `k` of a window is row `offset + k` of the input. */
  lemma WindowAt<T>(rows: seq<T>, offset: nat, limit: nat)
    ensures forall k :: 0 <= k < |Window(rows, offset, limit)| ==>
              Window(rows, offset, limit)[k] == rows[Min(offset, |rows|) + k]
  {
  }

  /** A row of the page query's result (`title` is not selected). */
  datatype ListedNotice = ListedNotice(
    id: int,
    aiSummaryTitle: Option<string>,
    aiSummaryContent: Option<string>,
    markdownContent: string,
    writer: string,
    publishDate: int,
    category: Option<int>,
    originalUrl: string,
    createdAt: int,
    images: Option<seq<AttachmentImage>>,
    files: Option<seq<AttachmentFile>>)

  /** `json_agg(...) FILTER (WHERE id IS NOT NULL)` is NULL when there is nothing to aggregate. */
  function Aggregate<T>(items: seq<T>): Option<seq<T>> {
    if items == [] then None else Some(items)
  }

  function Shape(n: Notice): ListedNotice {
    ListedNotice(n.id, n.aiSummaryTitle, n.aiSummaryContent, n.markdownContent, n.writer, n.publishDate,
                 n.category, n.originalUrl, n.createdAt, Aggregate(n.images), Aggregate(n.files))
  }

  /** One output row per selected row, in order, each shaped from its own row. */
  function ShapeAll(rows: seq<Notice>): (r: seq<ListedNotice>)
    ensures |r| == |rows|
    ensures forall i :: 0 <= i < |rows| ==> r[i] == Shape(rows[i])
  {
    seq(|rows|, i requires 0 <= i < |rows| => Shape(rows[i]))
  }

  /**
   * A shaped row carries the row's own columns, and `images` and `files` are
   * NULL exactly when the notice has none, its list otherwise.
   */
  lemma ShapedAttachments(n: Notice)
    ensures var s := Shape(n);
            && s.id == n.id && s.createdAt == n.createdAt && s.publishDate == n.publishDate
            && s.category == n.category && s.originalUrl == n.originalUrl
            && (s.images.None? <==> n.images == []) && (s.images.Some? ==> s.images.value == n.images)
            && (s.files.None? <==> n.files == []) && (s.files.Some? ==> s.files.value == n.files)
  {
  }

  /**
   * The page query: LIMIT and OFFSET are bound to the last two parameters.
   * None when PostgreSQL rejects them: NaN, negative, or beyond `bigint`.
   */
  function DataQuery(db: seq<Notice>, cs: seq<Clause>, params: seq<Param>): Option<seq<ListedNotice>>
    requires |params| >= 2
  {
    var limit := params[|params| - 2];
    var offset := params[|params| - 1];
    if limit.Number? && limit.value.Some? && 0 <= limit.value.value <= MaxBigint
       && offset.Number? && offset.value.Some? && 0 <= offset.value.value <= MaxBigint
    then Some(ShapeAll(Window(Ordered(Where(db, cs, params)), offset.value.value, limit.value.value)))
    else None
  }

  /**
   * `parseInt(searchParams.get('page') || '1', 10)`, with the parse of the
   * fallback `'1'` already done (`PageOfParsesFallback`).
   */
  function PageOf(pageParam: Option<string>): Option<int> {
    if pageParam.None? || pageParam.value == "" then Some(1) else ParseInt(pageParam.value)
  }

  /** `PageOf` is `parseInt` applied to the parameter or, when it is absent or empty, to `'1'`. */
  lemma PageOfParsesFallback(pageParam: Option<string>)
    ensures PageOf(pageParam) == ParseInt(if pageParam.None? || pageParam.value == "" then "1" else pageParam.value)
  {
    if pageParam.None? || pageParam.value == "" {
      ParseIntRoundTrip(1);
      assert IntToString(1) == "1";
    }
  }

  /** `searchParams.get('search') || ''`. */
  function SearchOf(searchParam: Option<string>): string {
    if searchParam.None? then "" else searchParam.value
  }

  /** `(page - 1) * limit`; NaN stays NaN. */
  function OffsetOf(page: Option<int>, limit: int): Option<int> {
    if page.None? then None else Some((page.value - 1) * limit)
  }

  /** What the database does: the connection or one of the two queries may fail. */
  datatype Faults = Faults(connectFails: bool, countFails: bool, dataFails: bool)

  datatype Response =
    | Listing(announcements: seq<ListedNotice>, total: int, hasMore: bool)
    | Failure(status: int, message: string)

  /** The rows the endpoint is meant to return for one page. */
  function ReferencePage(db: seq<Notice>, searchTerm: string, categories: seq<int>, offset: nat): seq<Notice> {
    Window(Ordered(Matching(db, searchTerm, categories)), offset, PageSize)
  }

  /** The handler. `categories` are the `category` values already converted by `Number`. */
  method Get(pool: Pool, db: seq<Notice>, pageParam: Option<string>, searchParam: Option<string>,
             categories: seq<int>, faults: Faults) returns (response: Response)
    modifies pool
    ensures var offset := OffsetOf(PageOf(pageParam), PageSize);
            var term := SearchOf(searchParam);
            response.Listing? <==>
              && !faults.connectFails && !faults.countFails && !faults.dataFails
              && offset.Some? && 0 <= offset.value <= MaxBigint
    ensures response.Listing? ==>
              var offset := OffsetOf(PageOf(pageParam), PageSize).value;
              var matching := Matching(db, SearchOf(searchParam), categories);
              && 0 <= offset <= MaxBigint
              && response.total == |matching|
              && response.announcements == ShapeAll(ReferencePage(db, SearchOf(searchParam), categories, offset))
              && response.hasMore == (offset + |response.announcements| < response.total)
    ensures response.Failure? ==> response == Failure(500, ErrorMessage)
    ensures pool.inUse == old(pool.inUse) + (if faults.connectFails || response.Listing? then 0 else 1)
  {
    var page := PageOf(pageParam);
    var searchTerm := SearchOf(searchParam);
    var offset := OffsetOf(page, PageSize);

    var connected := pool.Connect(faults.connectFails);
    if !connected {
      return Failure(500, ErrorMessage);
    }
    var whereClauses, queryParams := BuildWhere(searchTerm, categories);

    // COUNT(*) over the same WHERE.
    if faults.countFails {
      return Failure(500, ErrorMessage);
    }
    var total := |Where(db, whereClauses, queryParams)|;

    var countParams := queryParams;
    queryParams := queryParams + [Number(Some(PageSize)), Number(offset)];
    var rows := DataQuery(db, whereClauses, queryParams);
    if faults.dataFails || rows.None? {
      return Failure(500, ErrorMessage);
    }

    pool.Release();
    WhereIsMatching(db, whereClauses, countParams, searchTerm, categories);
    ExtraParamsKeepWhere(db, whereClauses, countParams, [Number(Some(PageSize)), Number(offset)]);
    return Listing(rows.value, total, offset.value + |rows.value| < total);
  }

  /** A page never holds more than 15 rows, and every listed row is a selected, non-ignored row. */
  lemma PageContents(db: seq<Notice>, searchTerm: string, categories: seq<int>, offset: nat)
    ensures var page := ReferencePage(db, searchTerm, categories, offset);
            && |page| <= PageSize
            && forall n :: n in page ==> n in db && !n.ignoreFlag && Selected(n, searchTerm, categories)
  {
    var rows := Ordered(Matching(db, searchTerm, categories));
    Sorting.SortByMembers(Matching(db, searchTerm, categories), NewestFirst);
    var page := ReferencePage(db, searchTerm, categories, offset);
    WindowAt(rows, offset, PageSize);
    forall n | n in page
      ensures n in rows
    {
      var j :| 0 <= j < |page| && page[j] == n;
      assert rows[Min(offset, |rows|) + j] in rows;
    }
  }

  /** Pages are ordered newest first. */
  lemma PageNewestFirst(db: seq<Notice>, searchTerm: string, categories: seq<int>, offset: nat)
    ensures var page := ReferencePage(db, searchTerm, categories, offset);
            forall i, j :: 0 <= i < j < |page| ==> page[i].createdAt >= page[j].createdAt
  {
    var rows := Ordered(Matching(db, searchTerm, categories));
    var lo := Min(offset, |rows|);
    var page := ReferencePage(db, searchTerm, categories, offset);
    WindowAt(rows, offset, PageSize);
    forall i, j | 0 <= i < j < |page|
      ensures page[i].createdAt >= page[j].createdAt
    {
      assert NewestFirst(rows[lo + i]) <= NewestFirst(rows[lo + j]);
    }
  }

  /** The rows of pages 1..k, concatenated. */
  function Pages<T>(rows: seq<T>, k: nat): seq<T> {
    if k == 0 then [] else Pages(rows, k - 1) + Window(rows, (k - 1) * PageSize, PageSize)
  }

  /** Pages 1..k together are the first 15k rows: no gap and no duplicate. */
  lemma {:induction false} PagesAreAPrefix<T>(rows: seq<T>, k: nat)
    ensures Pages(rows, k) == rows[..Min(k * PageSize, |rows|)]
  {
    if k > 0 {
      PagesAreAPrefix(rows, k - 1);
      var lo := Min((k - 1) * PageSize, |rows|);
      assert rows[..lo] + rows[lo..Min(lo + PageSize, |rows|)] == rows[..Min(k * PageSize, |rows|)];
    }
  }

  /** `has_more` says exactly whether rows remain after this page. */
  lemma HasMoreMeansRowsRemain<T>(rows: seq<T>, offset: nat)
    ensures offset + |Window(rows, offset, PageSize)| < |rows| <==> offset + PageSize < |rows|
  {
  }

  /** An empty match set gives an empty page with total 0 and no more pages. */
  lemma EmptySelection(db: seq<Notice>, searchTerm: string, categories: seq<int>, offset: nat)
    requires forall n :: n in db ==> !Selected(n, searchTerm, categories)
    ensures |Matching(db, searchTerm, categories)| == 0
    ensures ReferencePage(db, searchTerm, categories, offset) == []
  {
  }
}
