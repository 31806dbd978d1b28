/** Placement helpers of the weekly calendar grid
    (src/features/calendar/utils/gridHelpers.js). Pixel values are exact
    reals here. */
module GridHelpers {
  import opened Time

  /** Height of one hour row, in pixels. */
  const HourHeight: real := 64.0
  /** The grid's first row is 05:00. */
  const GridStartHour := 5
  /** Shortest height an event box is drawn with, in pixels. */
  const MinHeight: real := 20.0

  datatype EventStyle = EventStyle(top: real, height: real)

  /** Pixel offset of a minute-of-day below the 05:00 line. */
  function PixelsBelowGridStart(t: int): real {
    (MinuteOfDay(t) - GridStartHour * MinutesPerHour) as real * HourHeight / 60.0
  }

  /** `calculateEventStyle(startTime, endTime)`: `top` is the start's offset
      from 05:00 in pixels, clamped at 0; `height` is the duration in pixels,
      at least 20. */
  function CalculateEventStyle(startTime: int, endTime: int): (s: EventStyle)
    ensures s.top >= 0.0 && s.height >= MinHeight
    ensures MinuteOfDay(startTime) <= GridStartHour * MinutesPerHour ==> s.top == 0.0
    ensures HourOf(startTime) >= GridStartHour ==>
      s.top == (HourOf(startTime) - GridStartHour) as real * HourHeight
               + MinuteOf(startTime) as real * HourHeight / 60.0
    ensures (endTime - startTime) as real >= 18.75 ==>
      s.height == (endTime - startTime) as real * HourHeight / 60.0
    ensures (endTime - startTime) as real < 18.75 ==> s.height == MinHeight
  {
    var hoursFromGridStart := HourOf(startTime) - GridStartHour;
    var top := hoursFromGridStart as real * HourHeight + MinuteOf(startTime) as real / 60.0 * HourHeight;
    var height := (endTime - startTime) as real / 60.0 * HourHeight;
    EventStyle(if top > 0.0 then top else 0.0, if height > MinHeight then height else MinHeight)
  }

  /** Later in the day is never higher on the grid: `top` is monotone in the
      start's minute of the day, whatever the two ends are. */
  lemma TopMonotone(a: int, x: int, b: int, y: int)
    requires MinuteOfDay(a) <= MinuteOfDay(b)
    ensures CalculateEventStyle(a, x).top <= CalculateEventStyle(b, y).top
  {
    assert CalculateEventStyle(a, x).top ==
      if PixelsBelowGridStart(a) > 0.0 then PixelsBelowGridStart(a) else 0.0;
    assert CalculateEventStyle(b, y).top ==
      if PixelsBelowGridStart(b) > 0.0 then PixelsBelowGridStart(b) else 0.0;
  }

  /** A one-hour event is exactly one row tall. */
  lemma OneHourIsOneRow(t: int)
    ensures CalculateEventStyle(t, t + 60).height == HourHeight
  {
  }

  /** `isEventOnDay`: same day of month, month and full year, that is the
      same calendar day number. */
  predicate IsEventOnDay(eventDate: int, dayDate: int) {
    DayOf(eventDate) == DayOf(dayDate)
  }

  /** Being on the same day is an equivalence, and it holds exactly when
      the event lies in the 1440 minutes that begin at the day's midnight. */
  lemma IsEventOnDayMeaning(a: int, b: int, c: int)
    ensures IsEventOnDay(a, a)
    ensures IsEventOnDay(a, b) <==> IsEventOnDay(b, a)
    ensures IsEventOnDay(a, b) && IsEventOnDay(b, c) ==> IsEventOnDay(a, c)
    ensures IsEventOnDay(a, b) <==>
      DayOf(b) * MinutesPerDay <= a < DayOf(b) * MinutesPerDay + MinutesPerDay
  {
    var _ := MinuteOfDay(a);
    var _ := MinuteOfDay(b);
  }

  /** `getEventDayIndex(eventDate, weekDays)`: `findIndex` over the days,
      so -1 when no day matches and otherwise the first matching column. */
  function GetEventDayIndex(eventDate: int, weekDays: seq<int>): (r: int)
    ensures -1 <= r < |weekDays|
    ensures r == -1 <==> forall i :: 0 <= i < |weekDays| ==> !IsEventOnDay(eventDate, weekDays[i])
    ensures r >= 0 ==> IsEventOnDay(eventDate, weekDays[r])
    ensures r >= 0 ==> forall i :: 0 <= i < r ==> !IsEventOnDay(eventDate, weekDays[i])
  {
    if weekDays == [] then -1
    else if IsEventOnDay(eventDate, weekDays[0]) then 0
    else
      var k := GetEventDayIndex(eventDate, weekDays[1..]);
      if k == -1 then -1 else k + 1
  }

  /** `formatEventTime(date)`: the zero-padded "HH:MM" of the instant's hour
      and minute. */
  function FormatEventTime(date: int): (s: string)
    ensures WellFormedTime(s)
    ensures ParseClock(s) == Clock(HourOf(date), MinuteOf(date))
  {
    FormatClock(Clock(HourOf(date), MinuteOf(date)))
  }
}
