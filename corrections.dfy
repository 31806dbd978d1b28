/** Two defects of the busy-event selection in `generateStudySchedule`
    (src/core/bio-algorithms/scheduler.js), each shown on a concrete week,
    and the corrected selection with the property the generator evidently
    intends: no suggestion overlaps a stored event, and none falls outside
    the day's active window.

    As written, the busy events of a day are those that START on that
    calendar day. That misses an event that began the evening before and is
    still running at wake time, and it keeps an event that starts after
    bedtime, whose gap is then offered as a free slot. The correction takes
    as busy every event that shares an instant with the day's active
    window. */
module Corrections {
  import opened Optional
  import opened Time
  import opened EventModel
  import opened Profiles
  import opened Scheduler

  /* ---------------------------------------------------------------------
     As written
     --------------------------------------------------------------------- */

  /** A night shift from Monday 23:00 to Tuesday 08:00 of the week that
      begins at instant 0. */
  const NightShift := Event("Turno", Work, 1380, 1920, true, false, "")

  /** A bear who wakes at 07:00 and sleeps 7.5 hours. */
  const EarlyBear := Some(Profile(Some("bear"), Some("07:00"), Some(7.5)))

  /** The shift starts on Monday, so Tuesday sees no busy event and offers
      a review session from 07:00 to 08:00 on Tuesday, in the middle of the
      shift. */
  lemma NightShiftOverlooked()
    ensures var s := Event(ReviewTitle, Study, 1860, 1920, false, true, ReviewDescription);
      s in StudySchedule([NightShift], EarlyBear, 0) && Conflicts(s, NightShift)
  {
    var s := Event(ReviewTitle, Study, 1860, 1920, false, true, ReviewDescription);
    BearPlan();
    var plan := Plan(Clock(7, 0), Clock(23, 30), PeakRange(10, 14));
    var days := DayNumbers(0, DaysPerWeek);
    WeekFromMonday([NightShift], EarlyBear, plan);
    TuesdayDuringShift();
    ScheduleOfDaysMembers([NightShift], plan, days);
    assert s in DaySchedule([NightShift], plan, days[1]);
  }

  /** Tuesday's only suggestion for that bear runs from 07:00 to 08:00: the
      shift is not busy on Tuesday, so the whole window is one slot. */
  lemma TuesdayDuringShift()
    ensures DaySchedule([NightShift], Plan(Clock(7, 0), Clock(23, 30), PeakRange(10, 14)), 1)
      == [Event(ReviewTitle, Study, 1860, 1920, false, true, ReviewDescription)]
  {
    var plan := Plan(Clock(7, 0), Clock(23, 30), PeakRange(10, 14));
    var slot := Slot(1860, 2850);
    assert ActiveWindow(1, plan.wake, plan.bed) == Window(1860, 2850);
    DayAndMinute(0, 1380);
    assert [NightShift][1..] == [];
    assert EventsOnDay([NightShift], 1) == [];
    assert FreeSlots(1860, 2850, []) == [slot];
    DayAndMinute(1, 420);
    assert HourOf(1860) == 7;
    assert SuggestionsFor([slot], plan.peak) == SuggestionsOf(slot, plan.peak);
  }

  /** For a complete profile with the given plan, the week that begins at
      instant 0 is the schedule of its seven days, Monday first. */
  lemma WeekFromMonday(events: seq<Event>, profile: Option<Profile>, plan: Plan)
    requires ReadableProfile(profile) && Complete(profile) && PlanOf(profile) == plan
    ensures StudySchedule(events, profile, 0) == ScheduleOfDays(events, plan, DayNumbers(0, DaysPerWeek))
  {
    assert WeekStart(0) == 0;
  }

  /** A wolf who wakes at 10:00 and sleeps 9 hours: the window runs from
      10:00 to 01:00 of the next day. */
  const LateWolf := Some(Profile(Some("wolf"), Some("10:00"), Some(9.0)))

  /** A Monday class from 10:00 to 23:30 and a Tuesday event from 00:00 to
      00:30; each starts and ends on one date. */
  const LateClass := Event("Clase", Class, 600, 1410, true, false, "")
  const EarlyTuesday := Event("Llamada", Personal, 1440, 1470, true, false, "")

  /** The same defect with events that each lie within one date: Monday's
      window runs past midnight, the Tuesday event is not busy on Monday,
      and Monday's trailing slot yields a review session from 23:30 to 00:30
      that overlaps it. */
  lemma MidnightEventOverlooked()
    ensures var s := Event(ReviewTitle, Study, 1410, 1470, false, true, ReviewDescription);
      s in StudySchedule([LateClass, EarlyTuesday], LateWolf, 0) && Conflicts(s, EarlyTuesday)
  {
    var s := Event(ReviewTitle, Study, 1410, 1470, false, true, ReviewDescription);
    var events := [LateClass, EarlyTuesday];
    WolfPlan();
    var plan := Plan(Clock(10, 0), Clock(1, 0), PeakRange(16, 21));
    var days := DayNumbers(0, DaysPerWeek);
    WeekFromMonday(events, LateWolf, plan);
    MondayPastMidnight();
    ScheduleOfDaysMembers(events, plan, days);
    assert s in DaySchedule(events, plan, days[0]);
  }

  /** Monday's only suggestion for that wolf runs from 23:30 to 00:30. */
  lemma MondayPastMidnight()
    ensures DaySchedule([LateClass, EarlyTuesday], Plan(Clock(10, 0), Clock(1, 0), PeakRange(16, 21)), 0)
      == [Event(ReviewTitle, Study, 1410, 1470, false, true, ReviewDescription)]
  {
    var plan := Plan(Clock(10, 0), Clock(1, 0), PeakRange(16, 21));
    var slot := Slot(1410, 1500);
    assert ActiveWindow(0, plan.wake, plan.bed) == Window(600, 1500);
    MondayClassOnly();
    assert SortByStart([LateClass]) == [LateClass];
    assert Sweep(1410, 1500, []) == [slot];
    assert FreeSlots(600, 1500, [LateClass]) == [slot];
    DayAndMinute(0, 1410);
    assert HourOf(1410) == 23;
    assert SuggestionsFor([slot], plan.peak) == SuggestionsOf(slot, plan.peak);
  }

  /** Only the class starts on Monday; the Tuesday event is not busy. */
  lemma MondayClassOnly()
    ensures EventsOnDay([LateClass, EarlyTuesday], 0) == [LateClass]
  {
    DayAndMinute(0, 600);
    DayAndMinute(1, 0);
    assert DayOf(LateClass.startTime) == 0 && DayOf(EarlyTuesday.startTime) == 1;
    assert [LateClass, EarlyTuesday][1..] == [EarlyTuesday];
    assert [EarlyTuesday][1..] == [];
    assert EventsOnDay([EarlyTuesday], 0) == [];
  }

  /** Waking at 10:00 after 9 hours of sleep means a bedtime of 01:00. */
  lemma WolfBedtime()
    ensures CalculateBedtime(Some("10:00"), Some(9.0)) == Some("01:00")
  {
    assert ClockMinutes(ParseClock("10:00")) == 600;
    assert BedtimeMinutes(ParseClock("10:00"), 9.0) == 60;
    assert ClockOfMinutes(60) == ParseClock("01:00");
    FormatParseClock("01:00");
  }

  /** That wolf's plan: awake from 10:00 to 01:00, peak from 16 to 21. */
  lemma WolfPlan()
    ensures ReadableProfile(LateWolf) && Complete(LateWolf)
    ensures PlanOf(LateWolf) == Plan(Clock(10, 0), Clock(1, 0), PeakRange(16, 21))
  {
    WolfBedtime();
    ParsedClock("10:00", 10, 0);
    ParsedClock("01:00", 1, 0);
  }

  /** Waking at 06:00 after 9 hours of sleep means a bedtime of 21:00. */
  const NineHourBear := Some(Profile(Some("bear"), Some("06:00"), Some(9.0)))

  /** Monday's commitments: a class from 06:00 to 21:30, and a call from
      23:00 to 23:30, after bedtime. */
  const LongClass := Event("Clase", Class, 360, 1290, true, false, "")
  const LateCall := Event("Llamada", Personal, 1380, 1410, true, false, "")

  /** The late call starts on Monday, so it is busy; the sweep then records
      the gap from 21:30 to 23:00 before it as a free slot although the
      window closed at 21:00, and a review session is offered from 21:30 to
      22:30, after bedtime. */
  lemma SessionAfterBedtime()
    ensures var s := Event(ReviewTitle, Study, 1290, 1350, false, true, ReviewDescription);
      && s in StudySchedule([LongClass, LateCall], NineHourBear, 0)
      && ActiveWindow(0, Clock(6, 0), Clock(21, 0)).end == 1260
      && forall d :: !InsideDay(s, PlanOf(NineHourBear), d)
  {
    SessionInWeek();
    SessionOutsideWindows();
  }

  /** The session from 21:30 to 22:30 is part of that bear's week. */
  lemma SessionInWeek()
    ensures Event(ReviewTitle, Study, 1290, 1350, false, true, ReviewDescription)
      in StudySchedule([LongClass, LateCall], NineHourBear, 0)
  {
    var s := Event(ReviewTitle, Study, 1290, 1350, false, true, ReviewDescription);
    var events := [LongClass, LateCall];
    NineHourPlan();
    var plan := Plan(Clock(6, 0), Clock(21, 0), PeakRange(10, 14));
    var days := DayNumbers(0, DaysPerWeek);
    WeekFromMonday(events, NineHourBear, plan);
    MondayAfterBedtime();
    ScheduleOfDaysMembers(events, plan, days);
    assert s in DaySchedule(events, plan, days[0]);
  }

  /** The session lies in no day's active window of that bear's plan. */
  lemma SessionOutsideWindows()
    ensures Complete(NineHourBear) && ReadableProfile(NineHourBear)
    ensures forall d ::
      !InsideDay(Event(ReviewTitle, Study, 1290, 1350, false, true, ReviewDescription), PlanOf(NineHourBear), d)
  {
    NineHourPlan();
    OutsideEveryWindow(Event(ReviewTitle, Study, 1290, 1350, false, true, ReviewDescription),
      Plan(Clock(6, 0), Clock(21, 0), PeakRange(10, 14)));
  }

  /** A session from 21:30 to 22:30 on Monday lies in no day's window of a
      plan that is awake from 06:00 to 21:00. */
  lemma OutsideEveryWindow(s: Event, plan: Plan)
    requires s.startTime == 1290 && s.endTime == 1350
    requires plan.wake == Clock(6, 0) && plan.bed == Clock(21, 0)
    ensures forall d :: !InsideDay(s, plan, d)
  {
    forall d ensures !InsideDay(s, plan, d) {
      var w := ActiveWindow(d, plan.wake, plan.bed);
      assert w == Window(d * MinutesPerDay + 360, d * MinutesPerDay + 1260);
      if d <= 0 {
        assert d * MinutesPerDay <= 0;
      } else {
        assert d * MinutesPerDay >= MinutesPerDay;
      }
    }
  }

  /** Monday's only suggestion for that bear starts at 21:30. */
  lemma MondayAfterBedtime()
    ensures DaySchedule([LongClass, LateCall], Plan(Clock(6, 0), Clock(21, 0), PeakRange(10, 14)), 0)
      == [Event(ReviewTitle, Study, 1290, 1350, false, true, ReviewDescription)]
  {
    var events := [LongClass, LateCall];
    var plan := Plan(Clock(6, 0), Clock(21, 0), PeakRange(10, 14));
    var slot := Slot(1290, 1380);
    assert ActiveWindow(0, plan.wake, plan.bed) == Window(360, 1260);
    MondayBusy();
    GapAfterBedtime();
    DayAndMinute(0, 1290);
    assert HourOf(1290) == 21;
    assert SuggestionsFor([slot], plan.peak) == SuggestionsOf(slot, plan.peak);
  }

  /** Both of Monday's events start on Monday, so both are busy. */
  lemma MondayBusy()
    ensures EventsOnDay([LongClass, LateCall], 0) == [LongClass, LateCall]
  {
    DayAndMinute(0, 360);
    DayAndMinute(0, 1380);
    assert DayOf(LongClass.startTime) == 0 && DayOf(LateCall.startTime) == 0;
    assert [LongClass, LateCall][1..] == [LateCall];
    assert [LateCall][1..] == [];
    assert EventsOnDay([LateCall], 0) == [LateCall];
  }

  /** The sweep over the 06:00 to 21:00 window records the gap from 21:30
      to 23:00, past the window's end. */
  lemma GapAfterBedtime()
    ensures FreeSlots(360, 1260, [LongClass, LateCall]) == [Slot(1290, 1380)]
  {
    var events := [LongClass, LateCall];
    assert events[1..] == [LateCall];
    assert SortByStart([LateCall]) == [LateCall];
    assert SortByStart(events) == events;
    assert Sweep(1410, 1260, []) == [];
    assert Sweep(1290, 1260, [LateCall]) == [Slot(1290, 1380)];
  }

  /** That bear's plan: awake from 06:00 to 21:00, peak from 10 to 14. */
  lemma NineHourPlan()
    ensures ReadableProfile(NineHourBear) && Complete(NineHourBear)
    ensures PlanOf(NineHourBear) == Plan(Clock(6, 0), Clock(21, 0), PeakRange(10, 14))
  {
    BedtimeExamples();
    ParsedClock("06:00", 6, 0);
    ParsedClock("21:00", 21, 0);
  }

  /* ---------------------------------------------------------------------
     Corrected
     --------------------------------------------------------------------- */

  /** The events that share an instant with the window, in their original
      order. */
  function EventsInWindow(events: seq<Event>, w: Window): seq<Event> {
    if events == [] then []
    else
      var rest := EventsInWindow(events[1..], w);
      if events[0].startTime < w.end && w.start < events[0].endTime then [events[0]] + rest else rest
  }

  /** An event is selected exactly when it is one of the input events and
      meets the window. */
  lemma {:induction false} EventsInWindowMembers(events: seq<Event>, w: Window)
    ensures forall e :: e in EventsInWindow(events, w) <==>
      e in events && e.startTime < w.end && w.start < e.endTime
  {
    if events != [] {
      EventsInWindowMembers(events[1..], w);
      assert events == [events[0]] + events[1..];
    }
  }

  /** The suggestions of calendar day `day` with the corrected selection of
      busy events. */
  function CorrectedDaySchedule(events: seq<Event>, plan: Plan, day: int): seq<Event>
    requires ValidPlan(plan)
  {
    var w := ActiveWindow(day, plan.wake, plan.bed);
    SuggestionsFor(FreeSlots(w.start, w.end, EventsInWindow(events, w)), plan.peak)
  }

  /** A suggestion lies inside the active window of calendar day `day`. */
  predicate InsideDay(s: Event, plan: Plan, day: int)
    requires ValidPlan(plan)
  {
    var w := ActiveWindow(day, plan.wake, plan.bed);
    w.start <= s.startTime && s.endTime <= w.end
  }

  /** Every corrected suggestion lies inside the day's active window. */
  lemma CorrectedDayInsideWindow(events: seq<Event>, plan: Plan, day: int)
    requires ValidPlan(plan)
    ensures var w := ActiveWindow(day, plan.wake, plan.bed);
      forall s :: s in CorrectedDaySchedule(events, plan, day) ==>
        w.start <= s.startTime < s.endTime <= w.end
  {
    var w := ActiveWindow(day, plan.wake, plan.bed);
    var busy := EventsInWindow(events, w);
    var slots := FreeSlots(w.start, w.end, busy);
    EventsInWindowMembers(events, w);
    FreeSlotsAvoidEvents(w.start, w.end, busy);
    FreeSlotsEndpoints(w.start, w.end, busy);
    SuggestionsFromSlots(slots, plan.peak);
    forall s | s in CorrectedDaySchedule(events, plan, day)
      ensures w.start <= s.startTime < s.endTime <= w.end
    {
      var slot :| slot in slots && SuggestionFor(slot, plan.peak) == Some(s);
      assert slot.end <= w.end;
    }
  }

  /** No corrected suggestion conflicts with any well-formed event, whatever
      day that event starts on. */
  lemma CorrectedDayAvoidsEvents(events: seq<Event>, plan: Plan, day: int)
    requires ValidPlan(plan)
    ensures forall s, e :: (s in CorrectedDaySchedule(events, plan, day) && e in events
      && WellFormedEvent(e)) ==> !Conflicts(s, e)
  {
    var w := ActiveWindow(day, plan.wake, plan.bed);
    var busy := EventsInWindow(events, w);
    var slots := FreeSlots(w.start, w.end, busy);
    EventsInWindowMembers(events, w);
    FreeSlotsAvoidEvents(w.start, w.end, busy);
    SuggestionsFromSlots(slots, plan.peak);
    CorrectedDayInsideWindow(events, plan, day);
    forall s, e | s in CorrectedDaySchedule(events, plan, day) && e in events && WellFormedEvent(e)
      ensures !Conflicts(s, e)
    {
      var slot :| slot in slots && SuggestionFor(slot, plan.peak) == Some(s);
      SuggestionInsideSlot(slot, plan.peak, e);
      ConflictsIsIntersection(s, e);
    }
  }

  /** The corrected suggestions of the given days, one day after another. */
  function CorrectedScheduleOfDays(events: seq<Event>, plan: Plan, days: seq<int>): seq<Event>
    requires ValidPlan(plan)
    decreases |days|
  {
    if days == [] then []
    else
      CorrectedScheduleOfDays(events, plan, days[..|days| - 1])
        + CorrectedDaySchedule(events, plan, days[|days| - 1])
  }

  /** `generateStudySchedule` with the corrected selection of busy events. */
  function CorrectedStudySchedule(events: seq<Event>, profile: Option<Profile>, startDate: int): seq<Event>
    requires ReadableProfile(profile)
  {
    if !Complete(profile) then []
    else CorrectedScheduleOfDays(events, PlanOf(profile), DayNumbers(DayOf(WeekStart(startDate)), DaysPerWeek))
  }

  /** Over any days, no corrected suggestion conflicts with a well-formed
      event. */
  lemma {:induction false} CorrectedDaysAvoidEvents(events: seq<Event>, plan: Plan, days: seq<int>)
    requires ValidPlan(plan)
    ensures forall s, e :: (s in CorrectedScheduleOfDays(events, plan, days) && e in events
      && WellFormedEvent(e)) ==> !Conflicts(s, e)
    decreases |days|
  {
    if days != [] {
      CorrectedDaysAvoidEvents(events, plan, days[..|days| - 1]);
      CorrectedDayAvoidsEvents(events, plan, days[|days| - 1]);
    }
  }

  /** The intended guarantee of the generator: every corrected suggestion
      passes `validateSuggestion` against all the well-formed stored
      events. */
  lemma CorrectedScheduleAvoidsEvents(events: seq<Event>, profile: Option<Profile>, startDate: int)
    requires ReadableProfile(profile)
    ensures forall s, e :: (s in CorrectedStudySchedule(events, profile, startDate) && e in events
      && WellFormedEvent(e)) ==> !Conflicts(s, e)
  {
    if Complete(profile) {
      CorrectedDaysAvoidEvents(events, PlanOf(profile),
        DayNumbers(DayOf(WeekStart(startDate)), DaysPerWeek));
    }
  }

  /** Over any days, every corrected suggestion lies inside the active
      window of one of them. */
  lemma {:induction false} CorrectedDaysInsideWindows(events: seq<Event>, plan: Plan, days: seq<int>)
    requires ValidPlan(plan)
    ensures forall s :: s in CorrectedScheduleOfDays(events, plan, days) ==>
      exists d :: d in days && InsideDay(s, plan, d)
    decreases |days|
  {
    if days != [] {
      var init := days[..|days| - 1];
      var last := days[|days| - 1];
      CorrectedDaysInsideWindows(events, plan, init);
      CorrectedDayInsideWindow(events, plan, last);
      assert forall d :: d in init ==> d in days;
      assert last in days;
    }
  }

  /** The intended guarantee on time of day: every corrected suggestion of
      the week lies inside the active window of one of its seven days, so
      none falls before wake time or after bedtime. */
  lemma CorrectedScheduleInsideWindows(events: seq<Event>, profile: Option<Profile>, startDate: int)
    requires ReadableProfile(profile)
    ensures forall s :: s in CorrectedStudySchedule(events, profile, startDate) ==>
      && Complete(profile)
      && (exists d :: DayOf(WeekStart(startDate)) <= d < DayOf(WeekStart(startDate)) + DaysPerWeek
            && InsideDay(s, PlanOf(profile), d))
  {
    if Complete(profile) {
      var firstDay := DayOf(WeekStart(startDate));
      var days := DayNumbers(firstDay, DaysPerWeek);
      CorrectedDaysInsideWindows(events, PlanOf(profile), days);
      forall d | d in days ensures firstDay <= d < firstDay + DaysPerWeek {
        var j :| 0 <= j < |days| && days[j] == d;
      }
    }
  }
}
