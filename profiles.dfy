/** The user profile and its derived values: the chronotype display table,
    the sleep-duration options and the bedtime calculation
    (src/features/profile/services/profileService.js). */
module Profiles {
  import opened Optional
  import opened Time

  /** A profile record as stored: every field may be absent. */
  datatype Profile = Profile(
    chronotype: Option<string>,
    wakeupTime: Option<string>,
    sleepDuration: Option<real>)

  /** JavaScript truthiness of an optional string: absent and "" are falsy. */
  predicate PresentText(s: Option<string>) {
    s.Some? && s.value != ""
  }

  /** JavaScript truthiness of an optional number: absent and 0 are falsy. */
  predicate PresentNumber(x: Option<real>) {
    x.Some? && x.value != 0.0
  }

  /** The clock-text fields the model can read: absent, empty, or
      well-formed "HH:MM". */
  predicate ReadableTime(s: Option<string>) {
    PresentText(s) ==> WellFormedTime(s.value)
  }

  /** One entry of the chronotype table shown on the profile page;
      `labelText` is the source's `label` (a reserved word in Dafny). */
  datatype ChronotypeInfo = ChronotypeInfo(
    labelText: string,
    description: string,
    peakHours: string,
    traits: string,
    color: string)

  const ChronotypeConfig: map<string, ChronotypeInfo> := map[
    "lion" := ChronotypeInfo(
      "Le\U{F3}n \U{1F981}", "Madrugador extremo", "08:00 - 12:00",
      "Despierta temprano naturalmente, m\U{E1}xima energ\U{ED}a en la ma\U{F1}ana", "amber"),
    "bear" := ChronotypeInfo(
      "Oso \U{1F43B}", "Ritmo solar (50% de la poblaci\U{F3}n)", "10:00 - 14:00",
      "Sigue el ritmo del sol, energ\U{ED}a equilibrada durante el d\U{ED}a", "purple"),
    "wolf" := ChronotypeInfo(
      "Lobo \U{1F43A}", "Nocturno / Vespertino", "16:00 - 21:00",
      "Dif\U{ED}cil despertar temprano, creativo en la noche", "blue"),
    "dolphin" := ChronotypeInfo(
      "Delf\U{ED}n \U{1F42C}", "Sue\U{F1}o ligero / Irregular", "15:00 - 21:00",
      "Sue\U{F1}o fragmentado, sensible al entorno, ansioso", "green")
  ]

  /** One choice of the sleep-duration selector. */
  datatype SleepOption = SleepOption(value: real, labelText: string, description: string)

  const SleepDurationOptions: seq<SleepOption> := [
    SleepOption(7.5, "7.5 horas (5 ciclos)", "M\U{ED}nimo recomendado"),
    SleepOption(9.0, "9 horas (6 ciclos)", "\U{D3}ptimo para recuperaci\U{F3}n")
  ]

  /** Length of one sleep cycle, in hours. */
  const SleepCycleHours: real := 1.5

  /** The table offers exactly 7.5 and 9 hours, which are five and six
      ninety-minute cycles. */
  lemma SleepOptionsAreWholeCycles()
    ensures |SleepDurationOptions| == 2
    ensures SleepDurationOptions[0].value == 5.0 * SleepCycleHours
    ensures SleepDurationOptions[1].value == 6.0 * SleepCycleHours
    ensures forall o :: o in SleepDurationOptions ==> WholeMinutes(o.value)
  {
  }

  /** The chronotype table has exactly the four chronotypes. */
  lemma ChronotypeKeys()
    ensures ChronotypeConfig.Keys == {"lion", "bear", "wolf", "dolphin"}
  {
  }

  /** A duration in hours that is a whole number of minutes. */
  predicate WholeMinutes(hours: real) {
    (hours * 60.0).Floor as real == hours * 60.0
  }

  /** Bedtime as minutes since midnight: the wake time minus the sleep
      duration, wrapped into one day. The fractional part of a minute is
      dropped the way a JavaScript date drops it (towards the earlier
      minute). */
  function BedtimeMinutes(wake: Clock, sleepHours: real): (m: int)
    requires ValidClock(wake)
    ensures 0 <= m < MinutesPerDay
    ensures (m - ((ClockMinutes(wake) as real - sleepHours * 60.0).Floor)) % MinutesPerDay == 0
  {
    (ClockMinutes(wake) as real - sleepHours * 60.0).Floor % MinutesPerDay
  }

  /** `calculateBedtime(wakeupTime, sleepDuration)`: null (None) when either
      argument is falsy, otherwise the "HH:MM" text of the bedtime. */
  function CalculateBedtime(wakeupTime: Option<string>, sleepDuration: Option<real>): (r: Option<string>)
    requires ReadableTime(wakeupTime)
    ensures r.None? <==> !PresentText(wakeupTime) || !PresentNumber(sleepDuration)
    ensures r.Some? ==> WellFormedTime(r.value)
    ensures r.Some? ==>
      ClockMinutes(ParseClock(r.value)) == BedtimeMinutes(ParseClock(wakeupTime.value), sleepDuration.value)
  {
    if !PresentText(wakeupTime) || !PresentNumber(sleepDuration) then None
    else
      var wake := ParseClock(wakeupTime.value);
      Some(FormatClock(ClockOfMinutes(BedtimeMinutes(wake, sleepDuration.value))))
  }

  /** Round trip: reading the bedtime back and adding the sleep duration,
      modulo a day, gives the wake time again (for a duration that is a
      whole number of minutes, as both offered durations are). */
  lemma {:induction false} BedtimeRoundTrip(wakeupTime: string, sleepHours: real)
    requires WellFormedTime(wakeupTime)
    requires sleepHours != 0.0 && WholeMinutes(sleepHours)
    ensures CalculateBedtime(Some(wakeupTime), Some(sleepHours)).Some?
    ensures
      var bed := ParseClock(CalculateBedtime(Some(wakeupTime), Some(sleepHours)).value);
      (ClockMinutes(bed) + (sleepHours * 60.0).Floor) % MinutesPerDay
        == ClockMinutes(ParseClock(wakeupTime))
  {
    var w := ClockMinutes(ParseClock(wakeupTime));
    var k := (sleepHours * 60.0).Floor;
    assert (w as real - sleepHours * 60.0).Floor == w - k;
    var b := BedtimeMinutes(ParseClock(wakeupTime), sleepHours);
    assert b == (w - k) % MinutesPerDay;
    ModAddBack(w - k, k);
    assert (b + k) % MinutesPerDay == w;
    var r := CalculateBedtime(Some(wakeupTime), Some(sleepHours));
    assert ClockMinutes(ParseClock(r.value)) == b;
  }

  /** Adding back what was taken away before reducing to one day gives the
      original residue. */
  lemma ModAddBack(a: int, k: int)
    ensures (a % MinutesPerDay + k) % MinutesPerDay == (a + k) % MinutesPerDay
  {
    var q := a / MinutesPerDay;
    assert a + k == (a % MinutesPerDay + k) + q * MinutesPerDay;
  }

  /** The two worked examples: waking at 07:00 after 7.5 hours means going
      to bed at 23:30; waking at 06:00 after 9 hours means 21:00. */
  lemma BedtimeExamples()
    ensures CalculateBedtime(Some("07:00"), Some(7.5)) == Some("23:30")
    ensures CalculateBedtime(Some("06:00"), Some(9.0)) == Some("21:00")
  {
    assert ClockMinutes(ParseClock("07:00")) == 420;
    assert BedtimeMinutes(ParseClock("07:00"), 7.5) == 1410;
    assert ClockOfMinutes(1410) == ParseClock("23:30");
    FormatParseClock("23:30");
    assert ClockMinutes(ParseClock("06:00")) == 360;
    assert BedtimeMinutes(ParseClock("06:00"), 9.0) == 1260;
    assert ClockOfMinutes(1260) == ParseClock("21:00");
    FormatParseClock("21:00");
  }
}
