/**
 * src/components/DailyStatsChart.tsx: which days the bar chart shows for the
 * viewport width, which card is rendered, and the total under the chart.
 */
module DailyStatsChart {
  import opened Wrappers
  import opened StatsRoute

  function Min(a: int, b: int): int {
    if a <= b then a else b
  }

  /** `stats.slice(-k)` for `k > 0`: the last `k` entries, or all of them when there are fewer. */
  function Last<T>(s: seq<T>, k: nat): (r: seq<T>)
    requires k > 0
    ensures |r| == Min(k, |s|)
    ensures r == s[|s| - |r|..]
  {
    if |s| <= k then s else s[|s| - k..]
  }

  /** `displayStats`: ten days up to 850 px, twenty up to 1100 px, else all of them. */
  function DisplayStats<T>(width: int, stats: seq<T>): (r: seq<T>)
    ensures |r| <= |stats| && r == stats[|stats| - |r|..]
    ensures |r| == (if width <= 850 then Min(10, |stats|) else if width <= 1100 then Min(20, |stats|) else |stats|)
  {
    if width <= 850 then Last(stats, 10)
    else if width <= 1100 then Last(stats, 20)
    else stats
  }

  /** A wider viewport never shows fewer days. */
  lemma WiderShowsMore<T>(narrow: int, wide: int, stats: seq<T>)
    requires narrow <= wide
    ensures |DisplayStats(narrow, stats)| <= |DisplayStats(wide, stats)|
    ensures DisplayStats(narrow, stats) == DisplayStats(wide, stats)[|DisplayStats(wide, stats)| - |DisplayStats(narrow, stats)|..]
  {
  }

  /** The card the component renders. */
  datatype View = Loading | Failed(message: string) | NoData | Chart(shown: seq<DailyStat>, total: int)

  /**
   * Loading wins over an error, an error over empty data, and only then is the
   * chart drawn; its total adds up every day, not only the days shown.
   */
  function Render(isLoading: bool, error: Option<string>, stats: seq<DailyStat>, width: int): (r: View)
    ensures isLoading <==> r == Loading
    ensures r.Failed? <==> !isLoading && error.Some? && error.value != ""
    ensures r == NoData <==> !isLoading && (error.None? || error.value == "") && stats == []
    ensures r.Chart? ==> r.shown == DisplayStats(width, stats) && r.total == TotalCount(stats)
  {
    if isLoading then Loading
    else if error.Some? && error.value != "" then Failed(error.value)
    else if stats == [] then NoData
    else Chart(DisplayStats(width, stats), TotalCount(stats))
  }

  /**
   * Fed the stats endpoint's histogram, the chart shows the last ten days up
   * to 850 px, the last twenty up to 1100 px and every day beyond that (at
   * least the 31 seeded ones); its total is the number of counted rows.
   */
  lemma ChartOfHistogram(today: int, days: seq<int>, width: int)
    ensures var h := Histogram(today, days);
            var v := Render(false, None, h, width);
            && v.Chart?
            && |v.shown| == (if width <= 850 then 10 else if width <= 1100 then 20 else |h|)
            && |v.shown| >= 10
            && v.shown == h[|h| - |v.shown|..]
            && v.total == |days|
  {
    HistogramShape(today, days);
    HistogramTotal(today, days);
  }
}
