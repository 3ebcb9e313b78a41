# cnu-noticer core, modelled in Dafny

cnu-noticer is a Next.js portal for a university department's announcements.
Its server has five handlers:

- a paged, searchable announcement listing on raw SQL;
- a paged listing of pinned announcements through the PostgREST query builder;
- a 31-day histogram of announcements per day;
- upcoming deadlines ("schedules");
- Discord webhook registration.

Its client keeps paging state in two hooks. It keeps read marks in browser
storage and shows them as "read n ago" tags on a self-adjusting timer. It shows
deadlines as D-day tags and countdowns, and validates webhook URLs before
posting them.

This project models those rules and proves what they promise.

**How the model is built**

- Times are integers: milliseconds for timestamps, seconds for elapsed times,
  and day numbers for calendar days.
- The database is a `seq` of records. SQL and PostgREST are modelled as
  reference functions: filter, then order (a stable insertion sort), then slice.
- JavaScript values are a small JSON datatype with JavaScript truthiness, `??`
  and property access.
- `parseInt`, `String(n)`, `padStart`, `join` and dayjs's truncating `diff`
  are written out.
- Code that updates state step by step is a class with fields and methods:
  - the histogram map;
  - the connection pool, as a counter;
  - the webhook table;
  - the two paging hooks;
  - the read-status hook and its storage;
  - the home page;
  - the read-time indicator;
  - the countdown timer and the schedule list;
  - the webhook input box;
  - the modal's scroll lock.
- An asynchronous handler is split into a method that starts the request and
  one that applies its outcome. The outcome (ok, not ok, threw, or the decoded
  body) is a parameter.
- Pure code is datatypes, functions and lemmas. This covers the category
  table, the pinned-listing handler, schedule reshaping, time formatting,
  D-day classification and the view predicates.

**Behaviour of the code worth knowing**

The model keeps these behaviours as the code has them:

- The webhook endpoint rejects only a missing or falsy `url`. The
  `^https?://` check exists only in the client.
- The listing endpoint releases its connection only on the success path. A
  failed query leaves one connection checked out (`AnnouncementsRoute.Get`).
- The pinned-announcements hook sets `hasMore` to "the page was not empty" and
  ignores the server's `has_more`.
- The schedules mapper always overwrites the row's `notice` key with the
  notice it recomputes. A row without `notice_id_alias` therefore gets
  `notice: null`.
- The stats handler appends a key for any row whose day is not among the 31
  seeded days. The histogram then has more than 31 entries
  (`StatsRoute.HistogramShape`).
- The pinned endpoint answers a page that starts past the last row with an
  empty list and a total of 0: the range is refused, the client library then
  reports no count, and `count ?? 0` is 0 (`ImportantAnnouncementsRoute.PastTheEnd`).
  A page that starts exactly at the end is not refused and carries the full
  count (`ImportantAnnouncementsRoute.AtTheEnd`).
- The hooks' item normalisation reads `notice_images` and `notice_files`. The
  raw-SQL listing returns `images` and `files`, so the listing's items end up
  with empty attachment lists. `Feed.NormalizeItem` states this as written.

## Model

| member | source | states |
|---|---|---|
| Types.LookupCategory | src/types/index.ts:27-32 | a category lookup is defined exactly for the keys 0..3 and yields that key's entry of the table |
| Types.CategoryTable | src/types/index.ts:27-32 | the table's keys are exactly {0,1,2,3}, mapped to 학사/blue, 교내/green, 사업단/orange, 학부News/purple |
| Text.ParseIntRoundTrip | src/app/api/announcements/route.ts:10 | `parseInt(String(i), 10) == i` for every integer, so a page number sent as text is read back unchanged (within unbounded integers) |
| Text.ParseInt | src/app/api/announcements/route.ts:10 | `parseInt(s, 10)` is a number only when `s` holds a digit, and negative only when it holds a `-` |
| Text.IntToString | src/hooks/useAnnouncements.ts:16 | `String(i)` is never empty and starts with `-` exactly for a negative number |
| Text.PadStart | src/components/ScheduleView/index.tsx:48 | `padStart` gives the longer of the width and the input, ends with the input and is filled with the fill character in front |
| Text.SplitJoin | src/components/DiscordWebhookInput.tsx:106-118 | lines without the separator, joined by it, split back into the same lines |
| Sorting.SortBy | src/components/ScheduleView/index.tsx:86-88 | the sort returns a permutation of its input that is non-decreasing in the key |
| Sorting.InsertBySorted | src/components/ScheduleView/index.tsx:86-88 | inserting into a sorted sequence keeps it sorted, and the head is the new element or the old head |
| Sorting.SortByMembers | src/app/api/important-announcements/route.ts:28 | ordering neither adds nor drops rows: an element is in the sorted sequence exactly when it is in the input |
| Json.Coalesce | src/hooks/useAnnouncements.ts:24-25 | `v ?? fallback` is the fallback exactly for `null`/`undefined`, and `v` otherwise |
| Like.SubstringSearch | src/app/api/announcements/route.ts:27-28 | for a term without `%`, `_` or `\`, `ILIKE '%term%'` holds exactly when the term occurs in the text, ignoring ASCII case |
| Like.LeadingPercent | src/app/api/announcements/route.ts:27-28 | a leading `%` matches exactly when the rest of the pattern matches some suffix of the text |
| Like.LiteralThenPercent | src/app/api/announcements/route.ts:27-28 | a plain term followed by `%` matches exactly the texts that start with the term, ignoring ASCII case |
| Like.PercentMatchesAll | src/app/api/announcements/route.ts:27-28 | the pattern `%` matches every text |
| Like.Match | src/app/api/announcements/route.ts:27-28 | `ILIKE` with `%`, `_` and `\` escapes and ASCII case folding; a pattern without wildcards or escapes matches only texts of its own length |
| Like.EndingInPercentValid | src/app/api/announcements/route.ts:27 | every pattern ending in `%` is accepted by PostgreSQL, so `%term%` is valid for every term, including one ending in `\` |
| Like.PercentTermMatchesEverything | src/app/api/announcements/route.ts:27 | the search term is not escaped: searching for `%` matches every text |
| Store.Pool.Connect | src/app/api/announcements/route.ts:19 | a successful `pool.connect()` checks out exactly one more client; a failed one checks out none |
| Store.Pool.Release | src/app/api/announcements/route.ts:70 | `client.release()` returns exactly one client |
| AnnouncementsRoute.BuildWhere | src/app/api/announcements/route.ts:22-36 | the clauses start with `ignore_flag = false`; a non-empty search adds one `%term%` parameter used by both ILIKEs as `$1`; a non-empty category list adds one array parameter and one `= ANY` clause at the last index; every `$k` is within the parameters; no parameter is a pattern PostgreSQL refuses; the clauses hold for a row exactly when it is the intended selection |
| AnnouncementsRoute.Where | src/app/api/announcements/route.ts:36-40 | the WHERE filter keeps exactly the rows of the table for which every clause holds |
| AnnouncementsRoute.Matching | src/app/api/announcements/route.ts:23-34 | the intended selection holds exactly the non-ignored rows that match the search and the categories |
| AnnouncementsRoute.WhereIsMatching | src/app/api/announcements/route.ts:23-40 | clauses that agree with the intended selection filter the table to exactly the intended rows, in the same order |
| AnnouncementsRoute.ExtraParamsKeepWhere | src/app/api/announcements/route.ts:44-65 | pushing LIMIT and OFFSET after the count query does not change what the WHERE clauses select |
| AnnouncementsRoute.Window | src/app/api/announcements/route.ts:63-65 | LIMIT/OFFSET returns min(limit, rows left after the offset) rows |
| AnnouncementsRoute.WindowAt | src/app/api/announcements/route.ts:63-65 | row k of a LIMIT/OFFSET window is row offset+k of the ordered rows |
| AnnouncementsRoute.ShapeAll | src/app/api/announcements/route.ts:45-62 | the page query returns one row per selected row, in order, each shaped from its own row |
| AnnouncementsRoute.ShapedAttachments | src/app/api/announcements/route.ts:56-57 | a shaped row keeps the row's columns, and `images`/`files` are NULL exactly when the notice has none, the list otherwise |
| AnnouncementsRoute.PageOfParsesFallback | src/app/api/announcements/route.ts:10 | the page is `parseInt` of the parameter, or of `'1'` when it is absent or empty |
| AnnouncementsRoute.Get | src/app/api/announcements/route.ts:7-82 | a listing comes back exactly when connect and both queries succeed and the offset is a number within `0..2^63-1` (PostgreSQL's bigint). It holds the shaped reference page, total = number of matching rows, and has_more = offset + returned < total. Every failure is 500 with the fixed message. The pool gains one checked-out client exactly when a query fails after connecting |
| AnnouncementsRoute.PageContents | src/app/api/announcements/route.ts:63-65 | a page has at most 15 rows, each one a non-ignored row of the table that matches the search and categories |
| AnnouncementsRoute.PageNewestFirst | src/app/api/announcements/route.ts:63 | a page is ordered by `created_at`, newest first |
| AnnouncementsRoute.PagesAreAPrefix | src/app/api/announcements/route.ts:14-15 | pages 1..k together are exactly the first 15k ordered rows: no gap and no duplicate |
| AnnouncementsRoute.HasMoreMeansRowsRemain | src/app/api/announcements/route.ts:76 | `offset + returned < total` holds exactly when rows remain after the page |
| AnnouncementsRoute.EmptySelection | src/app/api/announcements/route.ts:73-77 | with no matching row the total is 0 and the page is empty |
| ImportantAnnouncementsRoute.DefaultLimitParses | src/app/api/important-announcements/route.ts:7 | the fallback `'15'` parses to the default page size 15 |
| ImportantAnnouncementsRoute.LimitOfParsesFallback | src/app/api/important-announcements/route.ts:7 | the limit is `parseInt` of the parameter, or of `'15'` when it is absent or empty |
| ImportantAnnouncementsRoute.Respond | src/app/api/important-announcements/route.ts:31-48 | PGRST103 gives an empty listing with total `count ?? 0` and has_more false; any other error gives 500 with the fixed message; success passes data and count through |
| ImportantAnnouncementsRoute.PinnedNotices | src/app/api/important-announcements/route.ts:26-27 | the filter keeps exactly the rows with `is_notice` true and `ignore_flag` false |
| ImportantAnnouncementsRoute.OrderedRows | src/app/api/important-announcements/route.ts:26-28 | the ordered selection is exactly the pinned rows, by `publish_date` descending |
| ImportantAnnouncementsRoute.EmbedAll | src/app/api/important-announcements/route.ts:23-24 | each selected row is returned once, in order, with its images and files embedded |
| ImportantAnnouncementsRoute.Select | src/app/api/important-announcements/route.ts:10-29 | the range query: malformed exactly when a bound is NaN; an error carries neither rows nor count; success carries the full count and at most `to - from + 1` rows |
| ImportantAnnouncementsRoute.WindowOfOrdered | src/app/api/important-announcements/route.ts:26-29 | any range of the ordered selection holds pinned rows only, latest first |
| ImportantAnnouncementsRoute.EmbeddedRows | src/app/api/important-announcements/route.ts:12-25 | embedding keeps each row's origin and the publish-date order |
| ImportantAnnouncementsRoute.SelectedRows | src/app/api/important-announcements/route.ts:10-29 | a satisfiable range has a non-negative start and at most `to - from + 1` rows (fewer only at the end of the selection). The count is the whole selection, and the rows are pinned rows, latest first |
| ImportantAnnouncementsRoute.AnsweredPage | src/app/api/important-announcements/route.ts:29-48 | for any parsed offset and limit, a listing has at most `limit` rows (or none when the range is refused), each pinned, latest first, and has_more holds exactly when pinned rows remain after it |
| ImportantAnnouncementsRoute.PinnedPage | src/app/api/important-announcements/route.ts:4-49 | the same, for the page and limit the handler parses from the request |
| ImportantAnnouncementsRoute.PastTheEnd | src/app/api/important-announcements/route.ts:31-38 | a page starting past the last pinned row gives the empty listing with total 0 (`count ?? 0` on an absent count) and has_more false, not an error |
| ImportantAnnouncementsRoute.AtTheEnd | src/app/api/important-announcements/route.ts:29-48 | a page starting exactly at the end of the pinned rows gives the empty listing with the full count and has_more false |
| StatsRoute.DailyCounts.constructor | src/app/api/announcements/stats/route.ts:26 | `new Map()` is empty |
| StatsRoute.DailyCounts.Get | src/app/api/announcements/stats/route.ts:37 | `get` finds a value exactly for a key that is present |
| StatsRoute.DailyCounts.Set | src/app/api/announcements/stats/route.ts:31 | `set` updates the value and appends the key to the insertion order only when it is new; keys stay distinct |
| StatsRoute.DailyCounts.Entries | src/app/api/announcements/stats/route.ts:42-46 | the entries follow insertion order, one per key, with that key's count |
| StatsRoute.Seeded | src/app/api/announcements/stats/route.ts:29-32 | the seed loop yields the 31 days today−30 .. today in ascending order |
| StatsRoute.Tally | src/app/api/announcements/stats/route.ts:35-39 | counting yields one entry per key |
| StatsRoute.Histogram | src/app/api/announcements/stats/route.ts:26-46 | each entry of the returned histogram counts exactly the rows on its day |
| StatsRoute.BuildStats | src/app/api/announcements/stats/route.ts:26-46 | the seeding loop and the counting loop build exactly the reference histogram |
| StatsRoute.KeysAfterFacts | src/app/api/announcements/stats/route.ts:35-39 | counting keeps the seeded keys first and in order, keys stay distinct, and every added key is a row's day that was not seeded |
| StatsRoute.HistogramShape | src/app/api/announcements/stats/route.ts:29-46 | the first 31 entries are today−30 .. today; each count is the number of rows on that day; dates are distinct; every row's day appears; extra entries are out-of-window row days; with all rows in the window there are exactly 31 |
| StatsRoute.CountInDistinct | src/app/api/announcements/stats/route.ts:35-39 | a day occurs once among distinct keys exactly when it is a key |
| StatsRoute.TallyStep | src/app/api/announcements/stats/route.ts:35-39 | one more row adds one to the sum for each key equal to its day |
| StatsRoute.TallyTotal | src/app/api/announcements/stats/route.ts:35-39 | over distinct keys covering every row's day, the counts sum to the number of rows |
| StatsRoute.ZeroTally | src/app/api/announcements/stats/route.ts:31 | the zero-filled seed sums to 0 |
| StatsRoute.HistogramTotal | src/app/api/announcements/stats/route.ts:35-39 | the sum of all counts is the number of rows |
| StatsRoute.Respond | src/app/api/announcements/stats/route.ts:20-52 | a query error gives 500 with the fixed message; otherwise the histogram with the window bounds today−30 and today |
| StatsRoute.QueryDays | src/app/api/announcements/stats/route.ts:12-18 | every queried day lies in the inclusive window |
| StatsRoute.Selected | src/app/api/announcements/stats/route.ts:12-17 | the query keeps exactly the non-ignored rows published within the window |
| StatsRoute.Get | src/app/api/announcements/stats/route.ts:5-58 | the handler answers with the histogram of the queried rows, or 500 on a query error |
| StatsRoute.QueriedStats | src/app/api/announcements/stats/route.ts:8-46 | for the handler's own query there are exactly 31 entries and their counts sum to the number of selected rows |
| SchedulesRoute.AttachmentList | src/app/api/schedules/route.ts:54-55 | an attachment list becomes `[]` exactly when it is falsy, its first element is null, or it is already empty; otherwise it is kept |
| SchedulesRoute.NoticeOf | src/app/api/schedules/route.ts:43-56 | `notice` is null exactly when `notice_id_alias` is falsy, and otherwise an object whose id is that alias |
| SchedulesRoute.Reshape | src/app/api/schedules/route.ts:35-61 | the output has `notice` set to the recomputed notice, drops the destructured keys, and copies every other key unchanged |
| SchedulesRoute.ReshapeAll | src/app/api/schedules/route.ts:35-62 | the mapping keeps length and order, reshaping each row |
| SchedulesRoute.NoticeAttachments | src/app/api/schedules/route.ts:54-55 | the embedded notice's images and files follow the collapse rule |
| SchedulesRoute.EmbeddedNoticeOverridden | src/app/api/schedules/route.ts:58-61 | without `notice_id_alias` the output's notice is null, whatever the row carried |
| SchedulesRoute.Upcoming | src/app/api/schedules/route.ts:26-27 | the filter keeps exactly the non-ignored schedules ending after now |
| SchedulesRoute.Query | src/app/api/schedules/route.ts:26-28 | the query result is exactly the upcoming schedules, ordered by `end` ascending |
| SchedulesRoute.Rows | src/app/api/schedules/route.ts:7-28 | the selected records are returned as their rows, in order |
| SchedulesRoute.Handle | src/app/api/schedules/route.ts:5-65 | a query error gives exactly the 500 response; otherwise the reshaped rows of the query |
| WebhooksRoute.WebhookTable.Insert | src/app/api/webhooks/route.ts:12 | a successful insert appends exactly one row; a failed one leaves the table unchanged |
| WebhooksRoute.Post | src/app/api/webhooks/route.ts:4-20 | a falsy url gives 400; a truthy url gives 200 after inserting exactly one `(url, true)` row, or 500 on a connect or insert failure; the table changes only on 200; every checked-out client is released |
| Feed.Items | src/hooks/useAnnouncements.ts:22 | `data.announcements \|\| []`: a nullish body throws; a falsy property gives no items; a truthy one gives its items when it is an array and throws otherwise |
| Feed.NormalizeItem | src/hooks/useAnnouncements.ts:22-26 | an item is copied with `images := notice_images ?? []` and `files := notice_files ?? []` and every other key kept; a nullish item throws |
| Feed.NormalizeAll | src/hooks/useAnnouncements.ts:22-26 | normalising the page succeeds exactly when no item is nullish, item by item, in order |
| Feed.PageItems | src/hooks/useAnnouncements.ts:20-26 | a body yields items exactly when its item list can be read and no item is nullish, and then one normalised item per listed item, in order |
| Feed.Received | src/hooks/useAnnouncements.ts:17-26 | a failed request, a non-ok response or an unreadable body yields nothing; otherwise the body's page items |
| Feed.Merge | src/hooks/useAnnouncements.ts:28 | the new page always ends the list, and the old list stays in front of it exactly when this is not page 1 |
| Feed.Replay | src/hooks/useAnnouncements.ts:28 | applying responses in order never gives more items than the start plus everything delivered |
| Feed.LastPageEndsList | src/hooks/useAnnouncements.ts:28 | whatever came before, the last page delivered ends the list |
| Feed.ReplayAppends | src/hooks/useAnnouncements.ts:28 | with no page-1 delivery the list is the old list followed by every delivered item, in order |
| Feed.ReplayForgets | src/hooks/useAnnouncements.ts:28 | a page-1 delivery discards everything before it |
| Feed.ListSinceLastReset | src/hooks/useAnnouncements.ts:28 | the list is the last page-1 result followed by every later delivered page |
| Feed.ReplayAfterFirst | src/hooks/useAnnouncements.ts:28 | applying deliveries one after another is the same as applying them all |
| UseAnnouncements.ServerReadsPage | src/hooks/useAnnouncements.ts:16 | the endpoint parses back exactly the page number the hook sent |
| UseAnnouncements.AnnouncementsHook.constructor | src/hooks/useAnnouncements.ts:5-8 | the initial state is an empty list, page 1, hasMore true and isLoading true |
| UseAnnouncements.AnnouncementsHook.StartFetch | src/hooks/useAnnouncements.ts:10-16 | a fetch sets isLoading only for page 1 and sends the page, search and categories |
| UseAnnouncements.AnnouncementsHook.FinishFetch | src/hooks/useAnnouncements.ts:20-37 | a page-1 success replaces the list and a later page appends; hasMore becomes `has_more`; a failure keeps the list and clears hasMore; only page 1 clears isLoading |
| UseAnnouncements.AnnouncementsHook.FiltersChanged | src/hooks/useAnnouncements.ts:40-43 | a filter change resets page to 1 and fetches page 1 |
| UseAnnouncements.AnnouncementsHook.LoadMore | src/hooks/useAnnouncements.ts:45-49 | load-more advances the page before the result is known and requests that page |
| UseImportantAnnouncements.ServerPaging | src/hooks/useImportantAnnouncements.ts:15 | with no limit sent, the endpoint pages by 15 from offset (page−1)·15 for the page the hook sent |
| UseImportantAnnouncements.ImportantAnnouncementsHook.constructor | src/hooks/useImportantAnnouncements.ts:5-8 | the initial state is an empty list, page 1, hasMore true and isLoading true |
| UseImportantAnnouncements.ImportantAnnouncementsHook.StartFetch | src/hooks/useImportantAnnouncements.ts:10-15 | a fetch sets isLoading only for page 1 and sends only the page |
| UseImportantAnnouncements.ImportantAnnouncementsHook.FinishFetch | src/hooks/useImportantAnnouncements.ts:19-35 | a page-1 success replaces the list and a later page appends; hasMore is "the page was not empty", ignoring `has_more`; a failure keeps the list and clears hasMore |
| UseImportantAnnouncements.ImportantAnnouncementsHook.Mount | src/hooks/useImportantAnnouncements.ts:38-40 | mounting fetches page 1 only |
| UseImportantAnnouncements.ImportantAnnouncementsHook.LoadMore | src/hooks/useImportantAnnouncements.ts:42-46 | load-more advances the page and requests it |
| UseReadStatus.LocalStorage.Write | src/hooks/useReadStatus.ts:28-37 | a write stores the map when there is a window and the write succeeds; otherwise storage is unchanged |
| UseReadStatus.GetReadStatuses | src/hooks/useReadStatus.ts:15-26 | the stored map is read back when there is a window and a parseable item; every other case gives `{}` |
| UseReadStatus.Marked | src/hooks/useReadStatus.ts:56 | marking sets the id to now and leaves every other stored key and value unchanged |
| UseReadStatus.MarkOverwrites | src/hooks/useReadStatus.ts:56 | marking the same id twice keeps only the later time |
| UseReadStatus.WrittenReadsBack | src/hooks/useReadStatus.ts:15-37 | a map written to storage is read back unchanged |
| UseReadStatus.ReadStatusHook.constructor | src/hooks/useReadStatus.ts:40 | the initial state is what storage holds |
| UseReadStatus.ReadStatusHook.Reload | src/hooks/useReadStatus.ts:42-47 | a storage event replaces the state with what storage holds |
| UseReadStatus.ReadStatusHook.MarkAsRead | src/hooks/useReadStatus.ts:55-59 | the new state is the stored map (not the previous state) with the id set to now; storage then holds that same map unless the write failed |
| UseReadStatus.ReadStatusHook.RelativeReadTime | src/hooks/useReadStatus.ts:61-67 | no read time exactly when the id has no entry; otherwise the time elapsed since the stored mark |
| HomePage.ReadKeysDistinct | src/app/page.tsx:31 | different announcement ids are stored under different keys |
| HomePage.Home.constructor | src/app/page.tsx:20-21 | initially nothing is selected and the modal is hidden |
| HomePage.Home.ShowModal | src/app/page.tsx:24-27 | opening selects the announcement and shows the modal |
| HomePage.Home.HandleCancel | src/app/page.tsx:29-35 | closing hides the modal and clears the selection; with a selection, the state becomes the stored map marked with its id, and storage then holds that same map unless there is no window or the write fails; without one, nothing is marked |
| ReadStatusIndicator.TruncDiv | src/components/ReadStatusIndicator.tsx:17 | dayjs's `diff` truncates toward zero for negative differences too |
| ReadStatusIndicator.FormatTimeRanges | src/components/ReadStatusIndicator.tsx:14-34 | "방금" exactly below one second (future reads included); exact seconds up to 10 s; tens of seconds below a minute; whole minutes, hours and days in their ranges; months from 30 days on. Each range has exactly one wording |
| ReadStatusIndicator.RefreshIntervalBounds | src/components/ReadStatusIndicator.tsx:54-69 | the interval is a whole number of seconds between 1 s and 1 h, and in each range it lands on the next multiple of 10 s, 60 s or 3600 s |
| ReadStatusIndicator.NextTen | src/components/ReadStatusIndicator.tsx:57-59 | in the tens range the wait is 1..10 s and ends on a multiple of ten seconds |
| ReadStatusIndicator.NextMinute | src/components/ReadStatusIndicator.tsx:60-62 | in the minutes range the wait is 1..60 s and ends on a whole minute |
| ReadStatusIndicator.NextHour | src/components/ReadStatusIndicator.tsx:63-65 | in the hours range the wait is 1..3600 s and ends on a whole hour |
| ReadStatusIndicator.WholeSeconds | src/components/ReadStatusIndicator.tsx:17-27 | within a day, the wording at whole second s by range |
| ReadStatusIndicator.RefreshWhenWordingChanges | src/components/ReadStatusIndicator.tsx:49-71 | within a day, the wording stays the same until the timer fires and is different when it does |
| ReadStatusIndicator.WordingHolds | src/components/ReadStatusIndicator.tsx:49-71 | before the timer fires the wording does not change |
| ReadStatusIndicator.WordingChanges | src/components/ReadStatusIndicator.tsx:49-71 | when the timer fires the wording is different |
| ReadStatusIndicator.Render | src/components/ReadStatusIndicator.tsx:79-92 | nothing is shown without an entry; otherwise `${displayText} 읽음` or `읽음` by `showTime` |
| ReadStatusIndicator.Indicator.constructor | src/components/ReadStatusIndicator.tsx:42 | the initial text is the formatted time, or empty without an entry |
| ReadStatusIndicator.Indicator.ScheduleUpdate | src/components/ReadStatusIndicator.tsx:49-71 | an update shows the current wording and arms the timer with the computed interval |
| ReadStatusIndicator.Indicator.Effect | src/components/ReadStatusIndicator.tsx:44-77 | without an entry nothing changes and no timer is armed; with one, the text becomes the current wording and the timer is armed with exactly the refresh interval for the elapsed whole seconds, which lies in 1 s .. 1 h |
| ReadStatusIndicator.Indicator.Cleanup | src/components/ReadStatusIndicator.tsx:76 | cleanup clears the timer and keeps the text |
| ScheduleView.CalculateTimeLeft | src/components/ScheduleView/index.tsx:16-26 | null exactly when the difference is ≤ 0; otherwise hours ≥ 0 and minutes and seconds in 0..59 with h·3600 + m·60 + s = whole seconds left |
| ScheduleView.ExpiredStaysExpired | src/components/ScheduleView/index.tsx:30-39 | once the time left is null it stays null later |
| ScheduleView.Pad | src/components/ScheduleView/index.tsx:48 | at least two characters, zeros in front, ending with the number's own digits (never truncated) |
| ScheduleView.PadTwoDigits | src/components/ScheduleView/index.tsx:48 | a number below 100 pads to exactly its two decimal digits |
| ScheduleView.CountdownText | src/components/ScheduleView/index.tsx:52 | the countdown text has at least the `HH:MM:SS 남음` length and ends in ` 남음` |
| ScheduleView.CountdownWithinADay | src/components/ScheduleView/index.tsx:48-52 | on the last day the hours are below 24 and the label is hh:mm:ss 남음 |
| ScheduleView.GetDday | src/components/ScheduleView/index.tsx:57-75 | each day difference gets exactly one tag: closed below 0, the countdown at 0, gold D-n for 1..7, green D-n for 8..365, indefinite above 365 |
| ScheduleView.SortByEnd | src/components/ScheduleView/index.tsx:86-88 | the fetched schedules are sorted into a permutation ordered by `end` |
| ScheduleView.ClickTarget | src/components/ScheduleView/index.tsx:145 | a click opens the notice exactly when the row has one |
| ScheduleView.CountdownTimer.constructor | src/components/ScheduleView/index.tsx:28 | the timer starts with the time left now and running |
| ScheduleView.CountdownTimer.Tick | src/components/ScheduleView/index.tsx:30-39 | each tick stores the time left, and the interval keeps running exactly while time is left |
| ScheduleView.CountdownTimer.Label | src/components/ScheduleView/index.tsx:44-52 | the tag reads `마감` exactly when no time is left, and the countdown text otherwise |
| ScheduleView.ScheduleList.constructor | src/components/ScheduleView/index.tsx:78-79 | the list starts empty and loading |
| ScheduleView.ScheduleList.FetchFinished | src/components/ScheduleView/index.tsx:81-95 | a fetched list is stored sorted by end, a failure keeps the old list, and loading ends either way |
| DiscordWebhookInput.SchemeMatchesPrefixes | src/components/DiscordWebhookInput.tsx:67 | `/^https?:\/\//` matches exactly the urls starting with `http://` or `https://`, case-sensitively |
| DiscordWebhookInput.Validate | src/components/DiscordWebhookInput.tsx:61-71 | an empty url is rejected first; a non-empty one is accepted exactly when it starts with `http://` or `https://` |
| DiscordWebhookInput.TestMessage | src/components/DiscordWebhookInput.tsx:106-118 | the test message splits back at newlines into exactly its 11 lines |
| DiscordWebhookInput.WebhookInputBox.InputDisabled | src/components/DiscordWebhookInput.tsx:158 | the input can be edited only when neither request runs |
| DiscordWebhookInput.WebhookInputBox.TestDisabled | src/components/DiscordWebhookInput.tsx:165 | whenever the test button is disabled, the input is disabled too |
| DiscordWebhookInput.WebhookInputBox.constructor | src/components/DiscordWebhookInput.tsx:50-54 | the box starts empty, idle and without error |
| DiscordWebhookInput.WebhookInputBox.Edit | src/components/DiscordWebhookInput.tsx:156 | typing replaces the url and nothing else |
| DiscordWebhookInput.WebhookInputBox.ErrorTimeout | src/components/DiscordWebhookInput.tsx:56-59 | the error timeout clears only the error status |
| DiscordWebhookInput.WebhookInputBox.HandleSave | src/components/DiscordWebhookInput.tsx:61-78 | a request is sent exactly when the url passes validation, with loading set and the error status and toasts left as they were; otherwise the error status is set and the matching warning is shown |
| DiscordWebhookInput.WebhookInputBox.SaveFinished | src/components/DiscordWebhookInput.tsx:79-89 | the url is cleared only on an ok response; each outcome shows its own toast; loading always ends |
| DiscordWebhookInput.WebhookInputBox.HandleTest | src/components/DiscordWebhookInput.tsx:93-123 | the same two-step validation; when it passes, the joined test message is posted to the entered url with testLoading set and the error status and toasts left as they were; otherwise the error status is set and the matching warning is shown |
| DiscordWebhookInput.WebhookInputBox.TestFinished | src/components/DiscordWebhookInput.tsx:124-133 | each outcome shows its own toast and testLoading always ends |
| DailyStatsChart.Last | src/components/DailyStatsChart.tsx:32-33 | `slice(-k)` is the suffix of length min(k, n) |
| DailyStatsChart.DisplayStats | src/components/DailyStatsChart.tsx:32-33 | the shown entries are an order-preserving suffix: the last min(10, n) up to 850 px, the last min(20, n) up to 1100 px, otherwise all |
| DailyStatsChart.WiderShowsMore | src/components/DailyStatsChart.tsx:32-33 | a wider window never shows fewer entries, and the narrower view is a suffix of the wider one |
| DailyStatsChart.Render | src/components/DailyStatsChart.tsx:35-202 | loading wins, then a non-empty error, then an empty list, then the chart; the chart's total sums all counts, not only the shown ones |
| DailyStatsChart.ChartOfHistogram | src/components/DailyStatsChart.tsx:11-33 | fed the endpoint's histogram, the chart shows its last 10 days up to 850 px, its last 20 up to 1100 px and all of it (at least 31 days) beyond, and the total is the number of rows |
| AnnouncementModal.ListedFiles | src/components/AnnouncementModal.tsx:121 | only files with a truthy id are listed; a single file is kept exactly when its id is truthy |
| AnnouncementModal.ListedFilesAppend | src/components/AnnouncementModal.tsx:121 | filtering distributes over concatenation, so order and repeats are kept |
| AnnouncementModal.FilesShownWhenListed | src/components/AnnouncementModal.tsx:20-121 | some file has a truthy id exactly when the filtered list is non-empty |
| AnnouncementModal.HasImages | src/components/AnnouncementModal.tsx:19 | `hasImages` holds exactly when some image slot shows a picture |
| AnnouncementModal.HasFiles | src/components/AnnouncementModal.tsx:20 | `hasFiles` holds exactly when the filtered file list is non-empty |
| AnnouncementModal.ShowDivider | src/components/AnnouncementModal.tsx:97 | the divider shows exactly when a picture or a listed file follows it |
| AnnouncementModal.ImageSlots | src/components/AnnouncementModal.tsx:103-111 | each image with a truthy id becomes a picture of its url; an image with id 0 renders the text "0" |
| AnnouncementModal.Title | src/components/AnnouncementModal.tsx:54 | the title is the summary title when non-empty, otherwise the title; no announcement, no title |
| AnnouncementModal.OriginalLink | src/components/AnnouncementModal.tsx:59 | the original-link button appears exactly when `original_url` is non-empty |
| AnnouncementModal.CategoryTag | src/components/AnnouncementModal.tsx:83-87 | a category tag appears exactly for a non-null category present in the table, with that entry |
| AnnouncementModal.WheelPassesThrough | src/components/AnnouncementModal.tsx:37-45 | the wheel is never blocked without vertical motion, strictly inside the content, scrolling down from the top of overflowing content, or scrolling up from the bottom |
| AnnouncementModal.PreventWheel | src/components/AnnouncementModal.tsx:39-41 | only a moving wheel event at the top or at the bottom is ever stopped |
| AnnouncementModal.ScrollLock.Effect | src/components/AnnouncementModal.tsx:22-25 | opening saves the body overflow and sets it to `hidden`; a closed modal changes nothing |
| AnnouncementModal.ScrollLock.Cleanup | src/components/AnnouncementModal.tsx:26-28 | cleanup restores the saved overflow |
| AnnouncementModal.OpenThenClose | src/components/AnnouncementModal.tsx:22-30 | after opening and closing the body overflow is what it was before |

## Left out

- Server I/O is abstracted. The request, the response serialisation, `console.error` logging, and the `pg` and Supabase clients become parameters. Connect, query and insert failures are booleans, and the pool is a counter.
- src/app/api/image-proxy/route.ts and src/lib/db.ts are not part of this model. One is a fetch passthrough and the other is pool configuration.
- Calendar arithmetic is left out. This covers dayjs and date-fns, time zones, ISO-8601 strings, the `YYYY-MM-DD` formatting of stats keys and the `MM/DD` `dateLabel`. Days are day numbers and times are milliseconds.
- StatsRoute.DailyCounts.Entries: entries carry day numbers instead of `YYYY-MM-DD` strings, and there is no `dateLabel`, because of the calendar abstraction.
- StatsRoute.Get: the outer `catch` that answers "Internal server error" is not modelled. Nothing in the modelled handler throws once the query has returned.
- ReadStatusIndicator.FormatTimeRanges: the month count past 30 days is a parameter instead of dayjs's calendar month difference.
- ScheduleView.GetDday: `differenceInCalendarDays` is a subtraction of day numbers. Local-time day boundaries are not modelled.
- The database engine is not modelled. SQL and PostgREST become reference filter, order and slice functions. `json_agg(DISTINCT …)`'s own ordering and de-duplication of attachments are not modelled: the lists are the record's own.
- AnnouncementsRoute.Get: categories arrive already converted by `Number`. A `NaN` or fractional category (`?category=1.5`), which PostgreSQL rejects in the `int[]` cast so that the program answers 500, is not modelled: categories here are integers.
- StatsRoute.QueriedStats: "exactly 31 entries" holds because the model filters rows and keys them with the same day function. In the program the database compares `publish_date` with `YYYY-MM-DD` strings while the key is dayjs local-time formatting. When the two disagree, the handler's own rows can add a 32nd key, which this member does not show.
- AnnouncementsRoute.PagesAreAPrefix: "no gap and no duplicate" relies on the model's fixed order among rows with equal `created_at`. PostgreSQL promises no order among ties, so two page queries can split them differently. The same holds for equal `publish_date` in the pinned listing.
- AnnouncementsRoute.Get: numbers are unbounded. JavaScript's `parseInt` loses digits above 2^53, and `String` switches to exponent notation from 1e21; neither is modelled. OFFSET beyond PostgreSQL's bigint range is modelled, as a 500.
- Text.ParseIntRoundTrip: holds for every integer only because integers are unbounded here. JavaScript numbers are exact only up to 2^53.
- ImportantAnnouncementsRoute.Select: PostgREST's range answer is an assumption of this model. A non-numeric bound is a malformed query. A negative start, a reversed range, or a start past the row count is "not satisfiable" (PGRST103); a start equal to the row count gives an empty page with the count. An error answer carries no count.
- Like.Match: only ASCII letters are case-folded. Unicode case folding and collations are left out.
- Text.ParseIntRoundTrip: `parseInt` skips only ASCII whitespace. The other Unicode spaces JavaScript skips are left out.
- Feed.NormalizeItem: spreading a string or an array item copies no keys here, whereas JavaScript copies their indices.
- JSON serialisation dropping `undefined` fields is not modelled.
- UseAnnouncements.AnnouncementsHook.StartFetch: the request carries the page, search and categories as values. `encodeURIComponent` and the query-string layout are left out.
- Only the computed values of timers are modelled: the timeout intervals, the interval's stop condition, and the 1500 ms error reset as a method. The timers themselves are left out, and so are the 500 ms search debounce and cross-tab `storage` events (a reload method stands for them).
- Concurrency is left out. Responses are applied in the order given, so the race where a superseded page-1 response arrives late is not modelled.
- WebhooksRoute.Post: a request body that is not a JSON object is not modelled.
- Rendering is not modelled: React, antd, markdown, images and charts. This includes the list components, header, footer, view switcher and the stats hook, which hold only trivial predicates.
- The Discord webhook POST itself is an outcome parameter.
