/**
 * src/components/ScheduleView/index.tsx: the deadline list. Times are ms
 * since the epoch; `differenceInCalendarDays` is a difference of day numbers.
 */
module ScheduleView {
  import opened Wrappers
  import opened Text
  import opened Types
  import Sorting

  datatype TimeLeft = TimeLeft(hours: int, minutes: int, seconds: int)

  /** `calculateTimeLeft`: null once the end has passed, else whole hours, minutes and seconds. */
  function CalculateTimeLeft(end: int, now: int): (r: Option<TimeLeft>)
    ensures r.None? <==> end - now <= 0
    ensures r.Some? ==>
              && r.value.hours >= 0 && 0 <= r.value.minutes < 60 && 0 <= r.value.seconds < 60
              && r.value.hours * 3600 + r.value.minutes * 60 + r.value.seconds == (end - now) / 1000
  {
    var difference := end - now;
    if difference > 0 then
      Some(TimeLeft(difference / 3_600_000, (difference / 60_000) % 60, (difference / 1000) % 60))
    else None
  }

  /** Once the time left is null it stays null, so clearing the interval then loses nothing. */
  lemma ExpiredStaysExpired(end: int, now: int, later: int)
    requires CalculateTimeLeft(end, now).None? && now <= later
    ensures CalculateTimeLeft(end, later).None?
  {
  }

  /** `num.toString().padStart(2, '0')`. */
  function Pad(n: int): (r: string)
    ensures |r| >= 2 && |r| >= |IntToString(n)|
    ensures r[|r| - |IntToString(n)|..] == IntToString(n)
    ensures forall i :: 0 <= i < |r| - |IntToString(n)| ==> r[i] == '0'
  {
    PadStart(IntToString(n), 2, '0')
  }

  /** The two decimal digits of `n`, for `0 <= n < 100`. */
  function TwoDigits(n: int): string
    requires 0 <= n < 100
  {
    [DigitChar(n / 10), DigitChar(n % 10)]
  }

  /** Below 100, `pad` gives exactly the two decimal digits of `n`. */
  lemma PadTwoDigits(n: int)
    requires 0 <= n < 100
    ensures Pad(n) == TwoDigits(n)
  {
    if n >= 10 {
      assert NatToString(n) == NatToString(n / 10) + [DigitChar(n % 10)];
    }
  }

  /** The countdown tag's text: at least `HH:MM:SS 남음`, ending in ` 남음`. */
  function CountdownText(t: TimeLeft): (r: string)
    ensures |r| >= 11
    ensures r[|r| - 3..] == " 남음"
  {
    Pad(t.hours) + ":" + Pad(t.minutes) + ":" + Pad(t.seconds) + " 남음"
  }

  /** Within the last day the countdown always reads `HH:MM:SS 남음`, two digits each. */
  lemma CountdownWithinADay(end: int, now: int)
    requires 0 < end - now < 86_400_000
    ensures var t := CalculateTimeLeft(end, now).value;
            && t.hours < 24
            && CountdownText(t) == TwoDigits(t.hours) + ":" + TwoDigits(t.minutes) + ":" + TwoDigits(t.seconds) + " 남음"
  {
    var t := CalculateTimeLeft(end, now).value;
    assert t.hours < 24;
    PadTwoDigits(t.hours);
    PadTwoDigits(t.minutes);
    PadTwoDigits(t.seconds);
  }

  /** The tag `getDday` shows, by calendar days from today to the end. */
  datatype Dday = Closed | Countdown | Soon(days: int) | Indefinite | Later(days: int)

  function GetDday(endDay: int, today: int): (r: Dday)
    ensures r == Closed <==> endDay < today
    ensures r == Countdown <==> endDay == today
    ensures r.Soon? <==> 1 <= endDay - today <= 7
    ensures r.Indefinite? <==> endDay - today > 365
    ensures r.Later? <==> 8 <= endDay - today <= 365
    ensures (r.Soon? || r.Later?) ==> r.days == endDay - today
  {
    var diff := endDay - today;
    if diff < 0 then Closed
    else if diff == 0 then Countdown
    else if diff <= 7 then Soon(diff)
    else if diff > 365 then Indefinite
    else Later(diff)
  }

  /** One schedule as the list shows it. */
  datatype ScheduleItem = ScheduleItem(title: string, begin: int, end: int, notice: Option<Announcement>)

  function EndOf(s: ScheduleItem): int {
    s.end
  }

  /** `data.sort((a, b) => end(a) - end(b))`: a stable sort by end time. */
  function SortByEnd(data: seq<ScheduleItem>): (r: seq<ScheduleItem>)
    ensures multiset(r) == multiset(data)
    ensures forall i, j :: 0 <= i < j < |r| ==> r[i].end <= r[j].end
  {
    Sorting.SortBy(data, EndOf)
  }

  /** `onClick`: the announcement to open, only when the schedule has one. */
  function ClickTarget(item: ScheduleItem): (r: Option<Announcement>)
    ensures r.Some? <==> item.notice.Some?
    ensures r.Some? ==> r.value == item.notice.value
  {
    item.notice
  }

  /** `CountdownTimer` for one end time: the time left and whether its interval still runs. */
  class CountdownTimer {
    const end: int
    var timeLeft: Option<TimeLeft>
    var running: bool

    constructor (end: int, now: int)
      ensures this.end == end && timeLeft == CalculateTimeLeft(end, now) && running
    {
      this.end := end;
      timeLeft := CalculateTimeLeft(end, now);
      running := true;
    }

    /** One tick of the interval: update, and clear the interval once the time is up. */
    method Tick(now: int)
      requires running
      modifies this
      ensures timeLeft == CalculateTimeLeft(end, now)
      ensures running <==> timeLeft.Some?
    {
      var newTimeLeft := CalculateTimeLeft(end, now);
      if newTimeLeft.Some? {
        timeLeft := newTimeLeft;
      } else {
        timeLeft := None;
        running := false;
      }
    }

    /** The tag's text: `마감` exactly once the time is up, the countdown before. */
    function Label(): (r: string)
      reads this
      ensures r == "마감" <==> timeLeft.None?
      ensures timeLeft.Some? ==> r == CountdownText(timeLeft.value)
    {
      if timeLeft.None? then "마감" else CountdownText(timeLeft.value)
    }
  }

  /** The list's state: the sorted schedules and the skeleton flag. */
  class ScheduleList {
    var schedules: seq<ScheduleItem>
    var loading: bool

    constructor ()
      ensures schedules == [] && loading
    {
      schedules := [];
      loading := true;
    }

    /** The end of `fetchSchedules`: sorted data on success, the old list on failure; never loading after. */
    method FetchFinished(data: Option<seq<ScheduleItem>>)
      modifies this
      ensures schedules == (if data.Some? then SortByEnd(data.value) else old(schedules))
      ensures !loading
    {
      if data.Some? {
        schedules := SortByEnd(data.value);
      }
      loading := false;
    }
  }
}
