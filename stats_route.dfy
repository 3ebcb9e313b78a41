/**
 * GET /api/announcements/stats (src/app/api/announcements/stats/route.ts):
 * a 31-day histogram of publish dates. Dates are day numbers; the
 * `YYYY-MM-DD` keys and `MM/DD` labels the route formats from them are not
 * part of this model.
 */
module StatsRoute {
  import opened Wrappers
  import opened Store
  import Sorting

  /** The histogram covers `today - WindowDays .. today`, both ends included. */
  const WindowDays := 30

  const ErrorMessage := "Error fetching announcement stats"

  datatype DailyStat = DailyStat(date: int, count: int)

  datatype Response =
    | Stats(stats: seq<DailyStat>, startDate: int, endDate: int)
    | Failure(status: int, message: string)

  predicate InWindow(today: int, day: int) {
    today - WindowDays <= day <= today
  }

  predicate Distinct(s: seq<int>) {
    forall i, j :: 0 <= i < j < |s| ==> s[i] != s[j]
  }

  /**
   * A JavaScript `Map<day, count>`: `keys` lists the keys in insertion order
   * and `counts` holds the value of each.
   */
  class DailyCounts {
    var keys: seq<int>
    var counts: map<int, int>

    ghost predicate Valid()
      reads this
    {
      && Distinct(keys)
      && (forall k :: k in counts <==> k in keys)
      && (forall i :: 0 <= i < |keys| ==> keys[i] in counts)
    }

    constructor ()
      ensures Valid() && keys == [] && counts == map[]
    {
      keys := [];
      counts := map[];
    }

    /** `get(k)`: undefined for a key never set. */
    function Get(k: int): (r: Option<int>)
      reads this
      ensures r.Some? <==> k in counts
      ensures r.Some? ==> r.value == counts[k]
    {
      if k in counts then Some(counts[k]) else None
    }

    /** `set(k, v)`: a new key goes last; an existing key keeps its place. */
    method Set(k: int, v: int)
      requires Valid()
      modifies this
      ensures Valid()
      ensures keys == old(keys) + (if k in old(counts) then [] else [k])
      ensures counts == old(counts)[k := v]
    {
      if k !in counts {
        keys := keys + [k];
      }
      counts := counts[k := v];
    }

    /** `Array.from(entries())`, in insertion order. */
    function Entries(): (r: seq<DailyStat>)
      requires Valid()
      reads this
      ensures |r| == |keys|
      ensures forall i :: 0 <= i < |r| ==> r[i] == DailyStat(keys[i], counts[keys[i]])
    {
      var ks, cs := keys, counts;
      seq(|ks|, i requires 0 <= i < |ks| && ks[i] in cs => DailyStat(ks[i], cs[ks[i]]))
    }
  }

  /** The seeded keys `today - 30 .. today`, oldest first. */
  function Seeded(today: int): (r: seq<int>)
    ensures |r| == WindowDays + 1
    ensures forall i :: 0 <= i < |r| ==> r[i] == today - WindowDays + i
  {
    seq(WindowDays + 1, i requires 0 <= i <= WindowDays => today - WindowDays + i)
  }

  /** The key order after the rows' days are counted into a map seeded with `seed`. */
  function KeysAfter(seed: seq<int>, days: seq<int>): seq<int> {
    if days == [] then seed
    else
      var before := KeysAfter(seed, days[..|days| - 1]);
      if days[|days| - 1] in before then before else before + [days[|days| - 1]]
  }

  /** One entry per key, counting how many of `days` fall on it. */
  function Tally(keys: seq<int>, days: seq<int>): (r: seq<DailyStat>)
    ensures |r| == |keys|
  {
    seq(|keys|, i requires 0 <= i < |keys| => DailyStat(keys[i], multiset(days)[keys[i]]))
  }

  /** The histogram the route returns for the rows' days: each entry counts the rows on its day. */
  function Histogram(today: int, days: seq<int>): (r: seq<DailyStat>)
    ensures forall i :: 0 <= i < |r| ==> r[i].count == multiset(days)[r[i].date]
  {
    Tally(KeysAfter(Seeded(today), days), days)
  }

  /** `stats.reduce((sum, stat) => sum + stat.count, 0)`. */
  function TotalCount(stats: seq<DailyStat>): int {
    if stats == [] then 0 else TotalCount(stats[..|stats| - 1]) + stats[|stats| - 1].count
  }

  /**
   * Seeds the map with 31 zero buckets, then counts each day, `|| 0`
   * standing in for a day that is not a key yet.
   */
  method BuildStats(today: int, days: seq<int>) returns (stats: seq<DailyStat>)
    ensures stats == Histogram(today, days)
  {
    var dailyStats := new DailyCounts();
    var i := WindowDays;
    while i >= 0
      invariant -1 <= i <= WindowDays
      invariant dailyStats.Valid()
      invariant dailyStats.keys == Seeded(today)[..WindowDays - i]
      invariant forall k :: k in dailyStats.counts ==> dailyStats.counts[k] == 0
    {
      ghost var seeded := Seeded(today);
      assert seeded[..WindowDays - i + 1] == seeded[..WindowDays - i] + [today - i];
      assert today - i !in dailyStats.counts by {
        forall j | 0 <= j < WindowDays - i
          ensures dailyStats.keys[j] != today - i
        {
          assert dailyStats.keys[j] == seeded[j];
        }
      }
      dailyStats.Set(today - i, 0);
      i := i - 1;
    }
    assert dailyStats.keys == Seeded(today);
    var j := 0;
    while j < |days|
      invariant 0 <= j <= |days|
      invariant dailyStats.Valid()
      invariant dailyStats.keys == KeysAfter(Seeded(today), days[..j])
      invariant forall k :: k in dailyStats.counts ==> dailyStats.counts[k] == multiset(days[..j])[k]
      invariant forall k :: k in days[..j] ==> k in dailyStats.counts
    {
      assert days[..j + 1][..j] == days[..j];
      assert multiset(days[..j + 1]) == multiset(days[..j]) + multiset{days[j]} by {
        assert days[..j + 1] == days[..j] + [days[j]];
      }
      var currentCount := dailyStats.Get(days[j]).GetOr(0);
      dailyStats.Set(days[j], currentCount + 1);
      j := j + 1;
    }
    assert days[..|days|] == days;
    stats := dailyStats.Entries();
  }

  /**
   * Counting never reorders or drops a key: the seed stays first, keys stay
   * distinct, and each later key is a counted day that was not seeded.
   */
  lemma {:induction false} KeysAfterFacts(seed: seq<int>, days: seq<int>)
    requires Distinct(seed)
    ensures var keys := KeysAfter(seed, days);
            && Distinct(keys)
            && |seed| <= |keys|
            && keys[..|seed|] == seed
            && (forall k :: k in keys <==> k in seed || k in days)
            && (forall i :: |seed| <= i < |keys| ==> keys[i] in days && keys[i] !in seed)
  {
    if days != [] {
      var init := days[..|days| - 1];
      KeysAfterFacts(seed, init);
      assert days == init + [days[|days| - 1]];
    }
  }

  /**
   * The histogram starts with the 31 window days, oldest first; every counted
   * day has exactly one entry, holding the number of rows on that day; any
   * further entry is a counted day outside the window, so when every row falls
   * in the window there are exactly 31 entries.
   */
  lemma HistogramShape(today: int, days: seq<int>)
    ensures var h := Histogram(today, days);
            && |h| >= WindowDays + 1
            && (forall i :: 0 <= i <= WindowDays ==> h[i].date == today - WindowDays + i)
            && (forall i :: 0 <= i < |h| ==> h[i].count == multiset(days)[h[i].date])
            && (forall i, j :: 0 <= i < j < |h| ==> h[i].date != h[j].date)
            && (forall d :: d in days ==> exists i :: 0 <= i < |h| && h[i].date == d)
            && (forall i :: WindowDays < i < |h| ==> h[i].date in days && !InWindow(today, h[i].date))
            && ((forall d :: d in days ==> InWindow(today, d)) ==> |h| == WindowDays + 1)
  {
    var seed := Seeded(today);
    KeysAfterFacts(seed, days);
    var keys := KeysAfter(seed, days);
    var h := Histogram(today, days);
    forall i | 0 <= i <= WindowDays
      ensures h[i].date == today - WindowDays + i
    {
      assert keys[i] == keys[..|seed|][i];
    }
    forall d | d in days
      ensures exists i :: 0 <= i < |h| && h[i].date == d
    {
      var i :| 0 <= i < |keys| && keys[i] == d;
      assert h[i].date == d;
    }
    forall d
      ensures InWindow(today, d) <==> d in seed
    {
      if InWindow(today, d) {
        assert seed[d - today + WindowDays] == d;
      }
    }
    if |h| > WindowDays + 1 {
      assert keys[WindowDays + 1] in days && !InWindow(today, keys[WindowDays + 1]);
    }
  }

  /** How many times `d` appears in `keys`. */
  function CountIn(keys: seq<int>, d: int): nat {
    if keys == [] then 0 else CountIn(keys[..|keys| - 1], d) + (if keys[|keys| - 1] == d then 1 else 0)
  }

  lemma {:induction false} CountInDistinct(keys: seq<int>, d: int)
    requires Distinct(keys)
    ensures CountIn(keys, d) == (if d in keys then 1 else 0)
  {
    if keys != [] {
      var init := keys[..|keys| - 1];
      CountInDistinct(init, d);
      assert keys == init + [keys[|keys| - 1]];
    }
  }

  /** Counting one more day adds one to the total for each key on that day. */
  lemma {:induction false} TallyStep(keys: seq<int>, days: seq<int>, d: int)
    ensures TotalCount(Tally(keys, days + [d])) == TotalCount(Tally(keys, days)) + CountIn(keys, d)
  {
    if keys != [] {
      var init := keys[..|keys| - 1];
      TallyStep(init, days, d);
      assert Tally(keys, days + [d])[..|keys| - 1] == Tally(init, days + [d]);
      assert Tally(keys, days)[..|keys| - 1] == Tally(init, days);
      assert multiset(days + [d]) == multiset(days) + multiset{d};
    }
  }

  /** With every day a key, the counts sum to the number of days. */
  lemma {:induction false} TallyTotal(keys: seq<int>, days: seq<int>)
    requires Distinct(keys)
    requires forall d :: d in days ==> d in keys
    ensures TotalCount(Tally(keys, days)) == |days|
  {
    if days == [] {
      ZeroTally(keys);
    } else {
      var init := days[..|days| - 1];
      var last := days[|days| - 1];
      assert days == init + [last];
      TallyTotal(keys, init);
      TallyStep(keys, init, last);
      CountInDistinct(keys, last);
    }
  }

  lemma {:induction false} ZeroTally(keys: seq<int>)
    ensures TotalCount(Tally(keys, [])) == 0
  {
    if keys != [] {
      ZeroTally(keys[..|keys| - 1]);
      assert Tally(keys, [])[..|keys| - 1] == Tally(keys[..|keys| - 1], []);
    }
  }

  /** Every row is counted once: the histogram's counts sum to the number of rows. */
  lemma HistogramTotal(today: int, days: seq<int>)
    ensures TotalCount(Histogram(today, days)) == |days|
  {
    KeysAfterFacts(Seeded(today), days);
    TallyTotal(KeysAfter(Seeded(today), days), days);
  }

  /** The route's body over the rows the query returned, or its 500 response. */
  method Respond(today: int, queryFails: bool, days: seq<int>) returns (response: Response)
    ensures queryFails ==> response == Failure(500, ErrorMessage)
    ensures !queryFails ==> response == Stats(Histogram(today, days), today - WindowDays, today)
  {
    if queryFails {
      return Failure(500, ErrorMessage);
    }
    var stats := BuildStats(today, days);
    response := Stats(stats, today - WindowDays, today);
  }

  /**
   * `.eq('ignore_flag', false).gte(startDate).lte(endDate).order('publish_date')`,
   * as publish days.
   */
  function QueryDays(db: seq<Notice>, today: int): (r: seq<int>)
    ensures forall d :: d in r ==> InWindow(today, d)
  {
    var rows := Sorting.SortBy(Selected(db, today), PublishedAt);
    Sorting.SortByMembers(Selected(db, today), PublishedAt);
    seq(|rows|, i requires 0 <= i < |rows| => DayOf(rows[i].publishDate))
  }

  function PublishedAt(n: Notice): int {
    n.publishDate
  }

  function Selected(db: seq<Notice>, today: int): (r: seq<Notice>)
    ensures forall n :: n in r <==> n in db && !n.ignoreFlag && InWindow(today, DayOf(n.publishDate))
  {
    if db == [] then []
    else
      (if !db[0].ignoreFlag && InWindow(today, DayOf(db[0].publishDate)) then [db[0]] else [])
      + Selected(db[1..], today)
  }

  /** GET against the reference database. */
  method Get(db: seq<Notice>, today: int, queryFails: bool) returns (response: Response)
    ensures queryFails ==> response == Failure(500, ErrorMessage)
    ensures !queryFails ==> response == Stats(Histogram(today, QueryDays(db, today)), today - WindowDays, today)
  {
    response := Respond(today, queryFails, QueryDays(db, today));
  }

  /**
   * Over the rows the query selects, the histogram has exactly the 31 window
   * days and its counts add up to the number of non-ignored notices published
   * in the window.
   */
  lemma QueriedStats(db: seq<Notice>, today: int)
    ensures |Histogram(today, QueryDays(db, today))| == WindowDays + 1
    ensures TotalCount(Histogram(today, QueryDays(db, today))) == |Selected(db, today)|
  {
    HistogramShape(today, QueryDays(db, today));
    HistogramTotal(today, QueryDays(db, today));
  }
}
