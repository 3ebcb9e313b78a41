/**
 * src/components/ReadStatusIndicator.tsx: the "read n minutes ago" tag and
 * the timer that refreshes it just when its wording would change. Elapsed
 * times are in ms; the calendar month count is a parameter.
 */
module ReadStatusIndicator {
  import opened Wrappers
  import opened Text

  /** dayjs's `diff`: the quotient truncated toward zero. */
  function TruncDiv(a: int, b: int): (r: int)
    requires b > 0
    ensures a >= 0 ==> r == a / b
    ensures a < 0 ==> r == -((-a) / b)
  {
    if a >= 0 then a / b else -((-a) / b)
  }

  /** The wording `formatTime` picks, with the count it shows. */
  datatype Label =
    | JustNow
    | SecondsAgo(n: int)
    | MinutesAgo(n: int)
    | HoursAgo(n: int)
    | DaysAgo(n: int)
    | MonthsAgo(n: int)

  function Wording(l: Label): string {
    match l
    case JustNow => "방금"
    case SecondsAgo(n) => IntToString(n) + "초 전"
    case MinutesAgo(n) => IntToString(n) + "분 전"
    case HoursAgo(n) => IntToString(n) + "시간 전"
    case DaysAgo(n) => IntToString(n) + "일 전"
    case MonthsAgo(n) => IntToString(n) + "달 전"
  }

  /**
   * `formatTime` for a read `elapsedMs` ago; `months` is dayjs's calendar month
   * difference, used only past 30 days.
   */
  function FormatTime(elapsedMs: int, months: int): Label {
    var seconds := TruncDiv(elapsedMs, 1000);
    if seconds < 1 then JustNow
    else if seconds <= 10 then SecondsAgo(seconds)
    else if seconds < 60 then SecondsAgo((seconds / 10) * 10)
    else
      var minutes := TruncDiv(elapsedMs, 60_000);
      if minutes < 60 then MinutesAgo(minutes)
      else
        var hours := TruncDiv(elapsedMs, 3_600_000);
        if hours < 24 then HoursAgo(hours)
        else
          var days := TruncDiv(elapsedMs, 86_400_000);
          if days < 30 then DaysAgo(days)
          else MonthsAgo(months)
  }

  /**
   * Which wording applies is decided by the elapsed time alone, one range
   * each: under a second (including a read time in the future), up to ten
   * seconds exactly, then tens of seconds, whole minutes, hours and days.
   */
  lemma FormatTimeRanges(elapsedMs: int, months: int)
    ensures var l := FormatTime(elapsedMs, months);
            && (l == JustNow <==> elapsedMs < 1000)
            && (1000 <= elapsedMs < 11_000 ==> l == SecondsAgo(elapsedMs / 1000))
            && (11_000 <= elapsedMs < 60_000 ==> l == SecondsAgo(elapsedMs / 10_000 * 10))
            && (60_000 <= elapsedMs < 3_600_000 <==> l.MinutesAgo?)
            && (l.MinutesAgo? ==> l.n == elapsedMs / 60_000 && 1 <= l.n < 60)
            && (3_600_000 <= elapsedMs < 86_400_000 <==> l.HoursAgo?)
            && (l.HoursAgo? ==> l.n == elapsedMs / 3_600_000 && 1 <= l.n < 24)
            && (86_400_000 <= elapsedMs < 2_592_000_000 <==> l.DaysAgo?)
            && (l.DaysAgo? ==> l.n == elapsedMs / 86_400_000 && 1 <= l.n < 30)
            && (2_592_000_000 <= elapsedMs <==> l == MonthsAgo(months))
  {
    if 11_000 <= elapsedMs < 60_000 {
      assert elapsedMs / 1000 / 10 == elapsedMs / 10_000;
    }
  }

  /** The timeout `scheduleUpdate` arms after showing the text, in ms. */
  function RefreshInterval(elapsedSeconds: int): int {
    if elapsedSeconds < 10 then 1000
    else if elapsedSeconds < 60 then
      var secondsUntilNextTen := 10 - elapsedSeconds % 10;
      (if secondsUntilNextTen == 0 then 10 else secondsUntilNextTen) * 1000
    else if elapsedSeconds < 3600 then
      var secondsUntilNextMinute := 60 - elapsedSeconds % 60;
      (if secondsUntilNextMinute == 0 then 60 else secondsUntilNextMinute) * 1000
    else if elapsedSeconds < 86400 then
      var secondsUntilNextHour := 3600 - elapsedSeconds % 3600;
      (if secondsUntilNextHour == 0 then 3600 else secondsUntilNextHour) * 1000
    else 3_600_000
  }

  /**
   * The timer fires between once a second and once an hour, and in the tens,
   * minutes and hours ranges it fires at the next whole ten seconds, minute or
   * hour: the next moment the wording can change.
   */
  lemma RefreshIntervalBounds(s: int)
    ensures 1000 <= RefreshInterval(s) <= 3_600_000
    ensures RefreshInterval(s) % 1000 == 0
    ensures var next := s + RefreshInterval(s) / 1000;
            && (10 <= s < 60 ==> next % 10 == 0 && s < next <= s + 10)
            && (60 <= s < 3600 ==> next % 60 == 0 && s < next <= s + 60)
            && (3600 <= s < 86400 ==> next % 3600 == 0 && s < next <= s + 3600)
  {
    if 10 <= s < 60 {
      NextTen(s);
    } else if 60 <= s < 3600 {
      NextMinute(s);
    } else if 3600 <= s < 86400 {
      NextHour(s);
    }
  }

  /** In the tens range the timer waits for the next multiple of ten seconds. */
  lemma NextTen(s: int)
    requires 10 <= s < 60
    ensures RefreshInterval(s) == (10 - s % 10) * 1000
    ensures (s + (10 - s % 10)) % 10 == 0 && 1 <= 10 - s % 10 <= 10
  {
    assert s + (10 - s % 10) == (s / 10 + 1) * 10;
  }

  /** In the minutes range the timer waits for the next whole minute. */
  lemma NextMinute(s: int)
    requires 60 <= s < 3600
    ensures RefreshInterval(s) == (60 - s % 60) * 1000
    ensures (s + (60 - s % 60)) % 60 == 0 && 1 <= 60 - s % 60 <= 60
  {
    assert s + (60 - s % 60) == (s / 60 + 1) * 60;
  }

  /** In the hours range the timer waits for the next whole hour. */
  lemma NextHour(s: int)
    requires 3600 <= s < 86400
    ensures RefreshInterval(s) == (3600 - s % 3600) * 1000
    ensures (s + (3600 - s % 3600)) % 3600 == 0 && 1 <= 3600 - s % 3600 <= 3600
  {
    assert s + (3600 - s % 3600) == (s / 3600 + 1) * 3600;
  }

  /** At a whole number of seconds within the first day, the wording in seconds. */
  lemma WholeSeconds(s: int, months: int)
    requires 0 <= s <= 86400
    ensures FormatTime(s * 1000, months) ==
              if s < 1 then JustNow
              else if s <= 10 then SecondsAgo(s)
              else if s < 60 then SecondsAgo(s / 10 * 10)
              else if s < 3600 then MinutesAgo(s / 60)
              else if s < 86400 then HoursAgo(s / 3600)
              else DaysAgo(1)
  {
    assert s * 1000 / 1000 == s;
    assert s * 1000 / 60_000 == s / 60;
    assert s * 1000 / 3_600_000 == s / 3600;
  }

  /**
   * Within the first day, the wording shown at whole second `s` stays the same
   * until the timer fires and is different when it does.
   */
  lemma RefreshWhenWordingChanges(s: int, t: int, months: int)
    requires 0 <= s < 86400
    ensures s <= t < s + RefreshInterval(s) / 1000 ==> FormatTime(t * 1000, months) == FormatTime(s * 1000, months)
    ensures FormatTime((s + RefreshInterval(s) / 1000) * 1000, months) != FormatTime(s * 1000, months)
  {
    RefreshIntervalBounds(s);
    if s <= t < s + RefreshInterval(s) / 1000 {
      WordingHolds(s, t, months);
    }
    WordingChanges(s, months);
  }

  /** Before the timer fires, the wording stays the same. */
  lemma WordingHolds(s: int, t: int, months: int)
    requires 0 <= s < 86400
    requires s <= t < s + RefreshInterval(s) / 1000
    ensures FormatTime(t * 1000, months) == FormatTime(s * 1000, months)
  {
    RefreshIntervalBounds(s);
    WholeSeconds(s, months);
    WholeSeconds(t, months);
    if s < 10 {
      assert t == s;
    } else if s < 60 {
      assert s / 10 == t / 10;
    } else if s < 3600 {
      assert s / 60 == t / 60;
    } else {
      assert s / 3600 == t / 3600;
    }
  }

  /** When the timer fires, the wording is a different one. */
  lemma WordingChanges(s: int, months: int)
    requires 0 <= s < 86400
    ensures FormatTime((s + RefreshInterval(s) / 1000) * 1000, months) != FormatTime(s * 1000, months)
  {
    var next := s + RefreshInterval(s) / 1000;
    RefreshIntervalBounds(s);
    WholeSeconds(s, months);
    WholeSeconds(next, months);
  }

  /** What the tag reads: nothing without an entry, else with or without the time. */
  function Render(hasEntry: bool, showTime: bool, displayText: string): (r: Option<string>)
    ensures r.None? <==> !hasEntry
    ensures r.Some? ==> r.value == (if showTime then displayText + " 읽음" else "읽음")
  {
    if !hasEntry then None else Some(if showTime then displayText + " 읽음" else "읽음")
  }

  /** One mounted indicator for the read status `readAt` (None: no entry). */
  class Indicator {
    var displayText: string
    /** The interval of the armed timeout, if any. */
    var timer: Option<int>

    /** The initial text: formatted once, empty without an entry. */
    constructor (readAt: Option<int>, now: int, months: int)
      ensures displayText == (if readAt.Some? then Wording(FormatTime(now - readAt.value, months)) else "")
      ensures timer == None
    {
      displayText := if readAt.Some? then Wording(FormatTime(now - readAt.value, months)) else "";
      timer := None;
    }

    /** `scheduleUpdate` at time `now`, also what the effect runs when there is an entry. */
    method ScheduleUpdate(readAt: int, now: int, months: int)
      modifies this
      ensures displayText == Wording(FormatTime(now - readAt, months))
      ensures timer == Some(RefreshInterval(TruncDiv(now - readAt, 1000)))
    {
      displayText := Wording(FormatTime(now - readAt, months));
      timer := Some(RefreshInterval(TruncDiv(now - readAt, 1000)));
    }

    /** The effect: without an entry it does nothing, so no timer is armed. */
    method Effect(readAt: Option<int>, now: int, months: int)
      modifies this
      ensures readAt.None? ==> displayText == old(displayText) && timer == old(timer)
      ensures readAt.Some? ==> displayText == Wording(FormatTime(now - readAt.value, months))
      ensures readAt.Some? ==> timer == Some(RefreshInterval(TruncDiv(now - readAt.value, 1000)))
      ensures readAt.Some? ==> timer.Some? && 1000 <= timer.value <= 3_600_000
    {
      if readAt.Some? {
        ScheduleUpdate(readAt.value, now, months);
        RefreshIntervalBounds(TruncDiv(now - readAt.value, 1000));
      }
    }

    /** The effect's cleanup: `clearTimeout`. */
    method Cleanup()
      modifies this
      ensures timer == None && displayText == old(displayText)
    {
      timer := None;
    }
  }
}
