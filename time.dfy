/** The optional values of the planner: a profile field or an event field that
    may be absent (undefined or null in the source). */
module Optional {
  datatype Option<T> = None | Some(value: T)
}

/** Instants and clock text.

    An instant is a whole number of minutes counted from a Monday 00:00 in
    local time; time zones and daylight-saving shifts are not modelled, so
    every calendar day is 1440 minutes long and every week 10080. A calendar
    day is named by its day number `t / 1440`; two instants fall on the same
    (day-of-month, month, full year) exactly when their day numbers agree.

    Clock text is the "HH:MM" form that the planner writes with
    `String(n).padStart(2, '0')` and reads back by splitting on ':' and
    converting each half to a number. */
module Time {

  const MinutesPerHour := 60
  const MinutesPerDay := 1440
  const MinutesPerWeek := 10080

  /** Calendar day number of an instant (Euclidean division, so instants
      before the epoch get negative day numbers). */
  function DayOf(t: int): int {
    t / MinutesPerDay
  }

  /** Minutes since local midnight of the instant's own day. */
  function MinuteOfDay(t: int): (m: int)
    ensures 0 <= m < MinutesPerDay
    ensures t == DayOf(t) * MinutesPerDay + m
  {
    t % MinutesPerDay
  }

  /** `getHours`: hour of the day, 0 to 23. */
  function HourOf(t: int): (h: int)
    ensures 0 <= h < 24
    ensures h * MinutesPerHour <= MinuteOfDay(t) < h * MinutesPerHour + MinutesPerHour
  {
    MinuteOfDay(t) / MinutesPerHour
  }

  /** `getMinutes`: minute within the hour, 0 to 59. */
  function MinuteOf(t: int): (m: int)
    ensures 0 <= m < MinutesPerHour
    ensures MinuteOfDay(t) == HourOf(t) * MinutesPerHour + m
  {
    MinuteOfDay(t) % MinutesPerHour
  }

  /** `startOfWeek(t, { weekStartsOn: 1 })`: the Monday 00:00 that begins
      the week holding `t`. */
  function WeekStart(t: int): (w: int)
    ensures w <= t < w + MinutesPerWeek
    ensures w % MinutesPerWeek == 0
    ensures MinuteOfDay(w) == 0
  {
    var days := (t / MinutesPerWeek) * 7;
    DayAndMinute(days, 0);
    days * MinutesPerDay
  }

  /** The instant `m` minutes after the midnight that begins day `d`. */
  lemma DayAndMinute(d: int, m: int)
    requires 0 <= m < MinutesPerDay
    ensures DayOf(d * MinutesPerDay + m) == d && MinuteOfDay(d * MinutesPerDay + m) == m
  {
  }

  /** A time of day as hour and minute. */
  datatype Clock = Clock(hour: int, minute: int)

  predicate ValidClock(c: Clock) {
    0 <= c.hour < 24 && 0 <= c.minute < MinutesPerHour
  }

  /** Minutes since midnight of a time of day. */
  function ClockMinutes(c: Clock): (m: int)
    requires ValidClock(c)
    ensures 0 <= m < MinutesPerDay
    ensures m / MinutesPerHour == c.hour && m % MinutesPerHour == c.minute
  {
    c.hour * MinutesPerHour + c.minute
  }

  /** The time of day of a minute count since midnight. */
  function ClockOfMinutes(m: int): (c: Clock)
    requires 0 <= m < MinutesPerDay
    ensures ValidClock(c) && ClockMinutes(c) == m
  {
    Clock(m / MinutesPerHour, m % MinutesPerHour)
  }

  predicate IsDigit(ch: char) {
    '0' <= ch <= '9'
  }

  function DigitValue(ch: char): (d: int)
    requires IsDigit(ch)
    ensures 0 <= d < 10
  {
    ch as int - '0' as int
  }

  function DigitChar(d: int): (ch: char)
    requires 0 <= d < 10
    ensures IsDigit(ch) && DigitValue(ch) == d
  {
    (d + '0' as int) as char
  }

  /** Value of two decimal digits. */
  function TwoDigitValue(hi: char, lo: char): (n: int)
    requires IsDigit(hi) && IsDigit(lo)
    ensures 0 <= n < 100
  {
    DigitValue(hi) * 10 + DigitValue(lo)
  }

  /** `String(n).padStart(2, '0')` for a number below 100: exactly two
      digits, read back as `n`. */
  function Pad2(n: int): (s: string)
    requires 0 <= n < 100
    ensures |s| == 2 && IsDigit(s[0]) && IsDigit(s[1])
    ensures TwoDigitValue(s[0], s[1]) == n
  {
    [DigitChar(n / 10), DigitChar(n % 10)]
  }

  /** Well-formed clock text: two digits, a colon, two digits, an hour
      below 24 and a minute below 60 (what an HTML time input yields). */
  predicate WellFormedTime(s: string) {
    && |s| == 5
    && IsDigit(s[0]) && IsDigit(s[1]) && s[2] == ':' && IsDigit(s[3]) && IsDigit(s[4])
    && TwoDigitValue(s[0], s[1]) < 24
    && TwoDigitValue(s[3], s[4]) < MinutesPerHour
  }

  /** Split on ':' and convert both halves, on well-formed text. */
  function ParseClock(s: string): (c: Clock)
    requires WellFormedTime(s)
    ensures ValidClock(c)
  {
    Clock(TwoDigitValue(s[0], s[1]), TwoDigitValue(s[3], s[4]))
  }

  /** Zero-padded "HH:MM" text of a time of day; parsing it gives the time
      of day back. */
  function FormatClock(c: Clock): (s: string)
    requires ValidClock(c)
    ensures WellFormedTime(s)
    ensures ParseClock(s) == c
  {
    Pad2(c.hour) + ":" + Pad2(c.minute)
  }

  /** The other half of the round trip: formatting what was parsed gives the
      text back, so well-formed clock text and valid clocks are in one-to-one
      correspondence. */
  lemma {:induction false} FormatParseClock(s: string)
    requires WellFormedTime(s)
    ensures FormatClock(ParseClock(s)) == s
  {
    var c := ParseClock(s);
    var r := FormatClock(c);
    DigitsDetermined(s[0], s[1], r[0], r[1]);
    DigitsDetermined(s[3], s[4], r[3], r[4]);
    assert r == [r[0], r[1], r[2], r[3], r[4]];
  }

  /** Two-digit text is determined by its value. */
  lemma DigitsDetermined(a: char, b: char, c: char, d: char)
    requires IsDigit(a) && IsDigit(b) && IsDigit(c) && IsDigit(d)
    requires TwoDigitValue(a, b) == TwoDigitValue(c, d)
    ensures a == c && b == d
  {
    assert DigitValue(a) == TwoDigitValue(a, b) / 10 && DigitValue(c) == TwoDigitValue(c, d) / 10;
  }
}
