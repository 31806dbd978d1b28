/** The automatic study-session generator
    (src/core/bio-algorithms/scheduler.js): for each day of a week it takes
    the active window from wake time to bedtime, sweeps that day's events to
    find the free slots, and turns every slot of at least 45 minutes into one
    tentative study session whose length depends on whether the slot starts
    inside the chronotype's energy peak. */
module Scheduler {
  import opened Optional
  import opened Time
  import opened EventModel
  import opened Profiles

  /* ---------------------------------------------------------------------
     Energy peaks
     --------------------------------------------------------------------- */

  /** An hour-of-day range, half open: `start <= hour < end`. */
  datatype PeakRange = PeakRange(start: int, end: int)

  /** `PEAK_ENERGY_RANGES`. */
  const PeakEnergyRanges: map<string, PeakRange> := map[
    "lion" := PeakRange(8, 12),
    "bear" := PeakRange(10, 14),
    "wolf" := PeakRange(16, 21),
    "dolphin" := PeakRange(10, 12)
  ]

  /** `PEAK_ENERGY_RANGES[chronotype] || PEAK_ENERGY_RANGES.bear`: a known
      chronotype gets its own range, anything else falls back to bear's. */
  function PeakRangeFor(chronotype: string): (r: PeakRange)
    ensures 0 <= r.start < r.end <= 24
    ensures chronotype in PeakEnergyRanges ==> r == PeakEnergyRanges[chronotype]
    ensures chronotype !in PeakEnergyRanges ==> r == PeakRange(10, 14)
  {
    if chronotype in PeakEnergyRanges then PeakEnergyRanges[chronotype]
    else PeakEnergyRanges["bear"]
  }

  /** Text of the form "HH:00 - HH:00", the way the profile page writes a
      peak range. */
  predicate PeakTextShape(s: string) {
    && |s| == 13 && IsDigit(s[0]) && IsDigit(s[1]) && IsDigit(s[8]) && IsDigit(s[9])
    && s[2] == ':' && s[3] == '0' && s[4] == '0' && s[5] == ' ' && s[6] == '-' && s[7] == ' '
    && s[10] == ':' && s[11] == '0' && s[12] == '0'
  }

  /** The hour range such a text names. */
  function ShownPeak(s: string): (r: PeakRange)
    requires PeakTextShape(s)
    ensures 0 <= r.start < 100 && 0 <= r.end < 100
  {
    PeakRange(TwoDigitValue(s[0], s[1]), TwoDigitValue(s[8], s[9]))
  }

  /** The scheduler's table and the profile page's table name the same four
      chronotypes. */
  lemma PeakTablesSameKeys()
    ensures PeakEnergyRanges.Keys == ChronotypeConfig.Keys
  {
    ChronotypeKeys();
  }

  /** The peak hours the profile page shows for every chronotype but
      dolphin name the range the scheduler uses. */
  lemma PeakHoursShownAgree(c: string)
    requires c in PeakEnergyRanges && c != "dolphin"
    ensures c in ChronotypeConfig && PeakTextShape(ChronotypeConfig[c].peakHours)
    ensures ShownPeak(ChronotypeConfig[c].peakHours) == PeakEnergyRanges[c]
  {
    ChronotypeKeys();
    if c == "lion" {
      assert ChronotypeConfig[c].peakHours == "08:00 - 12:00";
    } else if c == "bear" {
      assert ChronotypeConfig[c].peakHours == "10:00 - 14:00";
    } else {
      assert c == "wolf";
      assert ChronotypeConfig[c].peakHours == "16:00 - 21:00";
    }
  }

  /** For dolphin they differ: the page shows 15 to 21, while the
      scheduler's range for dolphin is 10 to 12. */
  lemma DolphinPeakHoursDisagree()
    ensures PeakTextShape(ChronotypeConfig["dolphin"].peakHours)
    ensures ShownPeak(ChronotypeConfig["dolphin"].peakHours) == PeakRange(15, 21)
    ensures PeakEnergyRanges["dolphin"] == PeakRange(10, 12)
  {
    assert ChronotypeConfig["dolphin"].peakHours == "15:00 - 21:00";
  }

  /** Whether an instant's hour of day lies in the peak range. */
  predicate InPeak(t: int, peak: PeakRange) {
    peak.start <= HourOf(t) < peak.end
  }

  /* ---------------------------------------------------------------------
     Profile to active window
     --------------------------------------------------------------------- */

  /** `!profile?.wakeupTime || !profile?.sleepDuration || !profile?.chronotype`
      negated: the profile exists and all three fields are truthy. */
  predicate Complete(profile: Option<Profile>) {
    && profile.Some?
    && PresentText(profile.value.wakeupTime)
    && PresentNumber(profile.value.sleepDuration)
    && PresentText(profile.value.chronotype)
  }

  /** Profiles whose wake time the model can read. */
  predicate ReadableProfile(profile: Option<Profile>) {
    profile.Some? ==> ReadableTime(profile.value.wakeupTime)
  }

  /** `parseTime(timeStr)`: absent or empty text gives 07:00; well-formed
      text gives its hour and minute. (The source returns the pair twice,
      under the names wakeHour/wakeMinute and bedHour/bedMinute.) */
  function ParseTime(timeStr: Option<string>): (c: Clock)
    requires ReadableTime(timeStr)
    ensures ValidClock(c)
    ensures !PresentText(timeStr) ==> c == Clock(7, 0)
    ensures PresentText(timeStr) ==> FormatClock(c) == timeStr.value
  {
    if !PresentText(timeStr) then Clock(7, 0)
    else
      FormatParseClock(timeStr.value);
      ParseClock(timeStr.value)
  }

  /** What the generator derives from a complete profile before the day
      loop: wake time, bedtime and peak range. */
  datatype Plan = Plan(wake: Clock, bed: Clock, peak: PeakRange)

  predicate ValidPlan(plan: Plan) {
    ValidClock(plan.wake) && ValidClock(plan.bed)
  }

  /** Wake time from `parseTime(wakeupTime)`, bedtime from
      `parseTime(calculateBedtime(wakeupTime, sleepDuration))`, peak from
      the chronotype. */
  function PlanOf(profile: Option<Profile>): (plan: Plan)
    requires Complete(profile) && ReadableProfile(profile)
    ensures ValidPlan(plan)
    ensures plan.peak == PeakRangeFor(profile.value.chronotype.value)
    ensures FormatClock(plan.wake) == profile.value.wakeupTime.value
    ensures ClockMinutes(plan.bed)
      == BedtimeMinutes(plan.wake, profile.value.sleepDuration.value)
  {
    var p := profile.value;
    var wake := ParseTime(p.wakeupTime);
    var bedtimeStr := CalculateBedtime(p.wakeupTime, p.sleepDuration);
    var bed := ParseTime(bedtimeStr);
    FormatParseClock(bedtimeStr.value);
    Plan(wake, bed, PeakRangeFor(p.chronotype.value))
  }

  /** An interval of instants, half open. */
  datatype Window = Window(start: int, end: int)

  /** The active window of calendar day `day`: it starts at wake time on
      that day and ends at bedtime, on the same day unless the bedtime hour
      is earlier than the wake hour, in which case on the next day. Only the
      hours are compared. */
  function ActiveWindow(day: int, wake: Clock, bed: Clock): Window
    requires ValidClock(wake) && ValidClock(bed)
  {
    var midnight := day * MinutesPerDay;
    var endMidnight := if bed.hour < wake.hour then midnight + MinutesPerDay else midnight;
    Window(midnight + ClockMinutes(wake), endMidnight + ClockMinutes(bed))
  }

  /** The window starts at the wake time of day `day` and ends at the
      bedtime of that day or, when the bedtime hour is earlier than the wake
      hour, of the next day. */
  lemma ActiveWindowPlacement(day: int, wake: Clock, bed: Clock)
    requires ValidClock(wake) && ValidClock(bed)
    ensures var w := ActiveWindow(day, wake, bed);
      && DayOf(w.start) == day && MinuteOfDay(w.start) == ClockMinutes(wake)
      && DayOf(w.end) == (if bed.hour < wake.hour then day + 1 else day)
      && MinuteOfDay(w.end) == ClockMinutes(bed)
  {
    var w := ActiveWindow(day, wake, bed);
    var endDay := if bed.hour < wake.hour then day + 1 else day;
    assert w.start == day * MinutesPerDay + ClockMinutes(wake);
    assert w.end == endDay * MinutesPerDay + ClockMinutes(bed);
    var _ := MinuteOfDay(w.start);
    var _ := MinuteOfDay(w.end);
  }

  /** A bedtime `k` minutes (one to 23 hours) before the wake time, wrapped
      into one day, makes the hours-only comparison pick the right day: the
      window lasts exactly a day minus `k`. */
  lemma WindowLengthFromBedtime(day: int, wake: Clock, bed: Clock, k: int)
    requires ValidClock(wake) && ValidClock(bed)
    requires MinutesPerHour <= k <= MinutesPerDay - MinutesPerHour
    requires ClockMinutes(bed) == (ClockMinutes(wake) - k) % MinutesPerDay
    ensures ActiveWindow(day, wake, bed).end - ActiveWindow(day, wake, bed).start == MinutesPerDay - k
  {
    var wm, bm := ClockMinutes(wake), ClockMinutes(bed);
    if wm >= k {
      assert bm == wm - k;
      assert bed.hour < wake.hour;
    } else {
      assert bm == wm - k + MinutesPerDay;
      assert bed.hour > wake.hour;
    }
  }

  /** For a sleep duration between one hour and 23 hours (both offered
      durations are), the active window lasts exactly a day minus the
      sleep, whichever day the bedtime falls on. */
  lemma {:induction false} ActiveWindowLength(day: int, chronotype: string, wakeupTime: string, sleepHours: real)
    requires chronotype != "" && WellFormedTime(wakeupTime)
    requires WholeMinutes(sleepHours) && 60.0 <= sleepHours * 60.0 <= 1380.0
    ensures
      var plan := PlanOf(Some(Profile(Some(chronotype), Some(wakeupTime), Some(sleepHours))));
      var w := ActiveWindow(day, plan.wake, plan.bed);
      w.end - w.start == MinutesPerDay - (sleepHours * 60.0).Floor
  {
    var plan := PlanOf(Some(Profile(Some(chronotype), Some(wakeupTime), Some(sleepHours))));
    SleepWindowLength(day, plan.wake, plan.bed, sleepHours);
  }

  /** The same, for any wake time and the bedtime computed from it. */
  lemma SleepWindowLength(day: int, wake: Clock, bed: Clock, sleepHours: real)
    requires ValidClock(wake) && ValidClock(bed)
    requires WholeMinutes(sleepHours) && 60.0 <= sleepHours * 60.0 <= 1380.0
    requires ClockMinutes(bed) == BedtimeMinutes(wake, sleepHours)
    ensures ActiveWindow(day, wake, bed).end - ActiveWindow(day, wake, bed).start
      == MinutesPerDay - (sleepHours * 60.0).Floor
  {
    var wm := ClockMinutes(wake);
    var k := (sleepHours * 60.0).Floor;
    assert (wm as real - sleepHours * 60.0).Floor == wm - k;
    WindowLengthFromBedtime(day, wake, bed, k);
  }

  /* ---------------------------------------------------------------------
     Busy events of a day
     --------------------------------------------------------------------- */

  /** `existingEvents.filter(...)`: the events whose start falls on
      calendar day `day`, in their original order. */
  function EventsOnDay(events: seq<Event>, day: int): seq<Event> {
    if events == [] then []
    else
      var rest := EventsOnDay(events[1..], day);
      if DayOf(events[0].startTime) == day then [events[0]] + rest else rest
  }

  /** The filter keeps exactly the events that start on the day, and never
      more events than it was given. */
  lemma {:induction false} EventsOnDayMembers(events: seq<Event>, day: int)
    ensures forall e :: e in EventsOnDay(events, day) <==> e in events && DayOf(e.startTime) == day
    ensures |EventsOnDay(events, day)| <= |events|
    decreases |events|
  {
    if events != [] {
      EventsOnDayMembers(events[1..], day);
      assert events == [events[0]] + events[1..];
    }
  }

  /* ---------------------------------------------------------------------
     Free-slot sweep
     --------------------------------------------------------------------- */

  /** An interval of free time, half open. */
  datatype Slot = Slot(start: int, end: int)

  predicate SortedByStart(es: seq<Event>) {
    forall i, j :: 0 <= i < j < |es| ==> es[i].startTime <= es[j].startTime
  }

  /** Inserts before the first event that does not start earlier, so equal
      starts keep their input order. */
  function InsertByStart(e: Event, sorted: seq<Event>): seq<Event> {
    if sorted == [] || e.startTime <= sorted[0].startTime then [e] + sorted
    else [sorted[0]] + InsertByStart(e, sorted[1..])
  }

  /** Inserting into a sorted list keeps it sorted and adds exactly the
      one event. */
  lemma {:induction false} InsertByStartSpec(e: Event, sorted: seq<Event>)
    requires SortedByStart(sorted)
    ensures SortedByStart(InsertByStart(e, sorted))
    ensures multiset(InsertByStart(e, sorted)) == multiset(sorted) + multiset{e}
  {
    if sorted == [] || e.startTime <= sorted[0].startTime {
      SortedCons(e, sorted);
    } else {
      var rest := InsertByStart(e, sorted[1..]);
      InsertByStartSpec(e, sorted[1..]);
      assert sorted == [sorted[0]] + sorted[1..];
      StartsNoEarlier(sorted[0].startTime, e, sorted[1..], rest);
      SortedCons(sorted[0], rest);
    }
  }

  /** An event that starts no later than every event of a sorted list can
      go in front of it. */
  lemma SortedCons(x: Event, rest: seq<Event>)
    requires SortedByStart(rest)
    requires forall k :: 0 <= k < |rest| ==> x.startTime <= rest[k].startTime
    ensures SortedByStart([x] + rest)
  {
    var r := [x] + rest;
    forall i, j | 0 <= i < j < |r| ensures r[i].startTime <= r[j].startTime {
      assert r[j] == rest[j - 1];
      if i > 0 {
        assert r[i] == rest[i - 1];
      }
    }
  }

  /** Inserting an event that starts no earlier than `bound` into events
      that all start no earlier than `bound` keeps that lower bound. */
  lemma StartsNoEarlier(bound: int, e: Event, tail: seq<Event>, rest: seq<Event>)
    requires bound <= e.startTime
    requires forall k :: 0 <= k < |tail| ==> bound <= tail[k].startTime
    requires multiset(rest) == multiset(tail) + multiset{e}
    ensures forall k :: 0 <= k < |rest| ==> bound <= rest[k].startTime
  {
    forall k | 0 <= k < |rest| ensures bound <= rest[k].startTime {
      assert rest[k] in multiset(rest);
      if rest[k] != e {
        assert rest[k] in multiset(tail);
        var j :| 0 <= j < |tail| && tail[j] == rest[k];
      }
    }
  }

  /** `[...events].sort((a, b) => a.startTime - b.startTime)`: a stable
      sort by start; the result is ordered and a permutation of the input. */
  function SortByStart(es: seq<Event>): seq<Event>
  {
    if es == [] then [] else InsertByStart(es[0], SortByStart(es[1..]))
  }

  /** The sort is ordered by start and a permutation of its input. */
  lemma {:induction false} SortByStartSpec(es: seq<Event>)
    ensures SortedByStart(SortByStart(es))
    ensures multiset(SortByStart(es)) == multiset(es)
  {
    if es != [] {
      SortByStartSpec(es[1..]);
      InsertByStartSpec(es[0], SortByStart(es[1..]));
      assert es == [es[0]] + es[1..];
    }
  }

  /** The cursor after an event: it moves to the event's end only when that
      is later, so it never moves back. */
  function Advance(cursor: int, e: Event): int {
    if e.endTime > cursor then e.endTime else cursor
  }

  /** The sweep over events in the given order, from cursor `cursor`: a gap
      before each event that starts after the cursor, then the cursor
      advances; a last gap up to `dayEnd` if the cursor is still before it. */
  function Sweep(cursor: int, dayEnd: int, sorted: seq<Event>): seq<Slot>
    decreases |sorted|
  {
    if sorted == [] then
      if cursor < dayEnd then [Slot(cursor, dayEnd)] else []
    else
      Gap(cursor, sorted[0]) + Sweep(Advance(cursor, sorted[0]), dayEnd, sorted[1..])
  }

  /** Neither interval is empty and they share an instant. */
  predicate SlotMeetsEvent(s: Slot, e: Event) {
    s.start < e.endTime && e.startTime < s.end
  }

  /** Slots in chronological order and pairwise disjoint. */
  predicate Ordered(slots: seq<Slot>) {
    forall i, j :: 0 <= i < j < |slots| ==> slots[i].end <= slots[j].start
  }

  /** No event covers instant `t`. */
  predicate Free(t: int, events: seq<Event>) {
    forall e :: e in events ==> !(e.startTime <= t < e.endTime)
  }

  /** No event ends before it starts (an empty event is allowed). */
  predicate NotInverted(events: seq<Event>) {
    forall e :: e in events ==> e.startTime <= e.endTime
  }

  /** `findFreeSlots(dayStart, dayEnd, events)` as a function of its inputs:
      the sweep over the events sorted by start. Every slot is non-empty,
      starts no earlier than `dayStart`, and meets no event. */
  function FreeSlots(dayStart: int, dayEnd: int, events: seq<Event>): seq<Slot> {
    Sweep(dayStart, dayEnd, SortByStart(events))
  }

  /** Every slot is non-empty, starts no earlier than `dayStart`, and meets
      no event. */
  lemma FreeSlotsAvoidEvents(dayStart: int, dayEnd: int, events: seq<Event>)
    ensures forall s :: s in FreeSlots(dayStart, dayEnd, events) ==> dayStart <= s.start < s.end
    ensures forall s, e :: s in FreeSlots(dayStart, dayEnd, events) && e in events ==> !SlotMeetsEvent(s, e)
  {
    var sorted := SortByStart(events);
    SortByStartSpec(events);
    assert forall e :: e in events <==> e in sorted by {
      assert forall e :: e in events <==> e in multiset(sorted);
    }
    SweepBounds(dayStart, dayEnd, sorted);
    SweepAvoidsEvents(dayStart, dayEnd, sorted);
  }

  /** `findFreeSlots`: the cursor loop over the sorted events. */
  method FindFreeSlots(dayStart: int, dayEnd: int, events: seq<Event>) returns (freeSlots: seq<Slot>)
    ensures freeSlots == FreeSlots(dayStart, dayEnd, events)
  {
    var sortedEvents := SortByStart(events);
    freeSlots := [];
    var currentTime := dayStart;
    var i := 0;
    while i < |sortedEvents|
      invariant 0 <= i <= |sortedEvents|
      invariant freeSlots + Sweep(currentTime, dayEnd, sortedEvents[i..])
             == Sweep(dayStart, dayEnd, sortedEvents)
    {
      var event := sortedEvents[i];
      SweepStep(currentTime, dayEnd, sortedEvents, i);
      ghost var found, cursor := freeSlots, currentTime;
      ghost var gap := Gap(currentTime, event);
      if currentTime < event.startTime {
        freeSlots := freeSlots + [Slot(currentTime, event.startTime)];
      }
      if event.endTime > currentTime {
        currentTime := event.endTime;
      }
      assert freeSlots == found + gap && currentTime == Advance(cursor, event);
      ghost var rest := Sweep(currentTime, dayEnd, sortedEvents[i + 1..]);
      AppendAssoc(found, gap, rest);
      assert gap + rest == Sweep(cursor, dayEnd, sortedEvents[i..]);
      i := i + 1;
    }
    assert sortedEvents[i..] == [];
    if currentTime < dayEnd {
      freeSlots := freeSlots + [Slot(currentTime, dayEnd)];
    }
  }

  /** The slot the sweep records before an event: the gap from the cursor
      to the event's start, if there is one. */
  function Gap(cursor: int, e: Event): seq<Slot> {
    if cursor < e.startTime then [Slot(cursor, e.startTime)] else []
  }

  /** One step of the sweep, from the `i`-th event on. */
  lemma SweepStep(cursor: int, dayEnd: int, sorted: seq<Event>, i: int)
    requires 0 <= i < |sorted|
    ensures Sweep(cursor, dayEnd, sorted[i..])
      == Gap(cursor, sorted[i]) + Sweep(Advance(cursor, sorted[i]), dayEnd, sorted[i + 1..])
  {
    assert sorted[i..][1..] == sorted[i + 1..];
  }

  /** Regrouping the slots found so far, the next gap and the rest of the
      sweep; stated as a lemma so the loop's proof stays small. */
  lemma AppendAssoc(a: seq<Slot>, b: seq<Slot>, c: seq<Slot>)
    ensures (a + b) + c == a + (b + c)
  {
  }

  /** Every slot is non-empty and starts at or after the cursor: the cursor
      only moves forward. */
  lemma {:induction false} SweepBounds(cursor: int, dayEnd: int, sorted: seq<Event>)
    ensures forall s :: s in Sweep(cursor, dayEnd, sorted) ==> cursor <= s.start < s.end
    decreases |sorted|
  {
    if sorted != [] {
      SweepBounds(Advance(cursor, sorted[0]), dayEnd, sorted[1..]);
    }
  }

  /** On events sorted by start, no slot meets any event, nested ones
      included: the gap before an event ends where it starts, and later gaps
      begin after the cursor has passed the event's end. */
  lemma {:induction false} SweepAvoidsEvents(cursor: int, dayEnd: int, sorted: seq<Event>)
    requires SortedByStart(sorted)
    ensures forall s, e :: s in Sweep(cursor, dayEnd, sorted) && e in sorted ==> !SlotMeetsEvent(s, e)
    decreases |sorted|
  {
    if sorted != [] {
      var first := sorted[0];
      var next := Advance(cursor, first);
      var rest := sorted[1..];
      SweepAvoidsEvents(next, dayEnd, rest);
      SweepBounds(next, dayEnd, rest);
      forall e | e in sorted ensures first.startTime <= e.startTime {
        var k :| 0 <= k < |sorted| && sorted[k] == e;
      }
      forall e | e in sorted ensures e == first || e in rest {
        var k :| 0 <= k < |sorted| && sorted[k] == e;
        if k > 0 { assert rest[k - 1] == e; }
      }
    }
  }

  /** Without events in an inverted order of start and end, the slots are
      ordered and pairwise disjoint. */
  lemma {:induction false} SweepOrdered(cursor: int, dayEnd: int, sorted: seq<Event>)
    requires NotInverted(sorted)
    ensures Ordered(Sweep(cursor, dayEnd, sorted))
    decreases |sorted|
  {
    if sorted != [] {
      var first := sorted[0];
      var next := Advance(cursor, first);
      var rest := sorted[1..];
      assert forall e :: e in rest ==> e in sorted;
      SweepOrdered(next, dayEnd, rest);
      SweepBounds(next, dayEnd, rest);
      var gap := if cursor < first.startTime then [Slot(cursor, first.startTime)] else [];
      var tail := Sweep(next, dayEnd, rest);
      assert Sweep(cursor, dayEnd, sorted) == gap + tail;
      assert first in sorted;
      OrderedConcat(gap, tail);
    }
  }

  /** Two ordered lists of slots, the first ending before the second
      begins, make one ordered list. */
  lemma OrderedConcat(a: seq<Slot>, b: seq<Slot>)
    requires Ordered(a) && Ordered(b)
    requires forall x, y :: x in a && y in b ==> x.end <= y.start
    ensures Ordered(a + b)
  {
    var r := a + b;
    forall i, j | 0 <= i < j < |r| ensures r[i].end <= r[j].start {
      if j < |a| {
        assert r[i] == a[i] && r[j] == a[j];
      } else if i < |a| {
        assert r[i] == a[i] && a[i] in a;
        assert r[j] == b[j - |a|] && b[j - |a|] in b;
      } else {
        assert r[i] == b[i - |a|] && r[j] == b[j - |a|];
      }
    }
  }

  /** Every free instant between the cursor and `dayEnd` lies in some slot,
      whatever the order of the events. */
  lemma {:induction false} SweepCovers(cursor: int, dayEnd: int, sorted: seq<Event>, t: int)
    requires cursor <= t < dayEnd && Free(t, sorted)
    ensures exists s :: s in Sweep(cursor, dayEnd, sorted) && s.start <= t < s.end
    decreases |sorted|
  {
    if sorted == [] {
      assert Slot(cursor, dayEnd) in Sweep(cursor, dayEnd, sorted);
    } else {
      var first := sorted[0];
      var gap := if cursor < first.startTime then [Slot(cursor, first.startTime)] else [];
      var tail := Sweep(Advance(cursor, first), dayEnd, sorted[1..]);
      assert Sweep(cursor, dayEnd, sorted) == gap + tail;
      if t < first.startTime {
        assert Slot(cursor, first.startTime) in gap + tail;
      } else {
        assert first in sorted;
        assert forall e :: e in sorted[1..] ==> e in sorted;
        SweepCovers(Advance(cursor, first), dayEnd, sorted[1..], t);
        var s :| s in tail && s.start <= t < s.end;
        assert s in gap + tail;
      }
    }
  }

  /** Slots are maximal: each starts at the initial cursor or at the end of
      an event, and ends at `dayEnd` or at the start of an event. Only the
      last slot is cut at `dayEnd`; a gap before an event ends at that
      event's start, wherever `dayEnd` lies. */
  lemma {:induction false} SweepEndpoints(cursor: int, dayEnd: int, sorted: seq<Event>)
    ensures forall s :: s in Sweep(cursor, dayEnd, sorted) ==>
      (s.start == cursor || exists e :: e in sorted && s.start == e.endTime)
    ensures forall s :: s in Sweep(cursor, dayEnd, sorted) ==>
      (s.end == dayEnd || exists e :: e in sorted && s.end == e.startTime)
    decreases |sorted|
  {
    if sorted != [] {
      var first := sorted[0];
      var next := Advance(cursor, first);
      SweepEndpoints(next, dayEnd, sorted[1..]);
      assert forall e :: e in sorted[1..] ==> e in sorted;
      assert first in sorted;
    }
  }

  /** A slot that does not end where an event starts is the trailing one:
      it ends at `dayEnd` and starts after every event has ended. So every
      other gap ends at an event's start, even past `dayEnd`. */
  lemma {:induction false} SweepTrailingSlot(cursor: int, dayEnd: int, sorted: seq<Event>)
    ensures forall s ::
      (s in Sweep(cursor, dayEnd, sorted) && forall e :: e in sorted ==> s.end != e.startTime) ==>
        (s.end == dayEnd && forall e :: e in sorted ==> e.endTime <= s.start)
    decreases |sorted|
  {
    if sorted != [] {
      var first := sorted[0];
      var next := Advance(cursor, first);
      SweepTrailingSlot(next, dayEnd, sorted[1..]);
      SweepBounds(next, dayEnd, sorted[1..]);
      assert first in sorted;
      assert forall e :: e in sorted[1..] ==> e in sorted;
      assert forall e :: e in sorted ==> e == first || e in sorted[1..];
    }
  }

  /** Every free instant of the active window lies in some free slot. */
  lemma FreeSlotsCover(dayStart: int, dayEnd: int, events: seq<Event>, t: int)
    requires dayStart <= t < dayEnd && Free(t, events)
    ensures exists s :: s in FreeSlots(dayStart, dayEnd, events) && s.start <= t < s.end
  {
    var sorted := SortByStart(events);
    SortByStartSpec(events);
    assert forall e :: e in sorted ==> e in multiset(events);
    SweepCovers(dayStart, dayEnd, sorted, t);
  }

  /** With well-formed events the free slots are ordered and pairwise
      disjoint. */
  lemma FreeSlotsOrdered(dayStart: int, dayEnd: int, events: seq<Event>)
    requires NotInverted(events)
    ensures Ordered(FreeSlots(dayStart, dayEnd, events))
  {
    var sorted := SortByStart(events);
    SortByStartSpec(events);
    assert forall e :: e in sorted ==> e in multiset(events);
    SweepOrdered(dayStart, dayEnd, sorted);
  }

  /** With no events, the only slot is the whole window, if it is not
      empty. */
  lemma FreeSlotsNoEvents(dayStart: int, dayEnd: int)
    ensures FreeSlots(dayStart, dayEnd, []) ==
      if dayStart < dayEnd then [Slot(dayStart, dayEnd)] else []
  {
  }

  /** Each slot starts at `dayStart` or where an event ends, and ends at
      `dayEnd` or where an event starts; only the trailing slot, after every
      event has ended, is cut at `dayEnd`. */
  lemma FreeSlotsEndpoints(dayStart: int, dayEnd: int, events: seq<Event>)
    ensures forall s :: s in FreeSlots(dayStart, dayEnd, events) ==>
      (s.start == dayStart || exists e :: e in events && s.start == e.endTime)
    ensures forall s :: s in FreeSlots(dayStart, dayEnd, events) ==>
      (s.end == dayEnd || exists e :: e in events && s.end == e.startTime)
    ensures forall s ::
      (s in FreeSlots(dayStart, dayEnd, events) && forall e :: e in events ==> s.end != e.startTime) ==>
        (s.end == dayEnd && forall e :: e in events ==> e.endTime <= s.start)
  {
    var sorted := SortByStart(events);
    SortByStartSpec(events);
    assert forall e :: e in events <==> e in sorted by {
      assert forall e :: e in events <==> e in multiset(sorted);
    }
    SweepEndpoints(dayStart, dayEnd, sorted);
    SweepTrailingSlot(dayStart, dayEnd, sorted);
  }

  /** Why the ordering needs events that do not end before they start: an
      inverted event (10 to 5) pulls the cursor back below the next gap's
      start, and the two slots overlap. */
  lemma InvertedEventOverlaps()
    ensures var inverted := Event("", Personal, 10, 5, false, false, "");
      var later := Event("", Personal, 12, 20, false, false, "");
      && FreeSlots(0, 20, [inverted, later]) == [Slot(0, 10), Slot(5, 12)]
      && !Ordered(FreeSlots(0, 20, [inverted, later]))
  {
    var inverted := Event("", Personal, 10, 5, false, false, "");
    var later := Event("", Personal, 12, 20, false, false, "");
    var events := [inverted, later];
    assert events[1..] == [later];
    assert SortByStart([later]) == [later];
    assert SortByStart(events) == events;
    assert Sweep(20, 20, []) == [];
    assert Sweep(5, 20, [later]) == [Slot(5, 12)];
    var slots := FreeSlots(0, 20, events);
    assert slots[0].end > slots[1].start;
  }

  /* ---------------------------------------------------------------------
     Suggestions
     --------------------------------------------------------------------- */

  const MinSlotMinutes := 45
  const PeakSessionMinutes := 90
  const OffPeakSessionMinutes := 60
  const DeepStudyTitle := "\U{1F9E0} Estudio Profundo"
  const ReviewTitle := "\U{1F4D6} Repaso / Tareas"
  const DeepStudyDescription := "Sesi\U{F3}n de estudio intensivo durante tu pico de energ\U{ED}a"
  const ReviewDescription := "Repaso ligero de conceptos o tareas pendientes"

  function Min(a: int, b: int): int {
    if a < b then a else b
  }

  /** The shape every generated event has: a tentative, movable study
      session of 45 to 90 minutes, titled and described either as deep
      study or as review. */
  predicate IsSuggestion(e: Event) {
    && e.kind == Study && !e.isFixed && e.isTentative
    && MinSlotMinutes <= e.endTime - e.startTime <= PeakSessionMinutes
    && ((e.title == DeepStudyTitle && e.description == DeepStudyDescription)
        || (e.title == ReviewTitle && e.description == ReviewDescription))
  }

  /** The body of the per-slot `forEach`: nothing for a slot shorter than
      45 minutes; otherwise one session at the slot's start, at most 90
      minutes in the peak and at most 60 outside it, never past the slot. */
  function SuggestionFor(slot: Slot, peak: PeakRange): (r: Option<Event>)
    ensures r.Some? <==> slot.end - slot.start >= MinSlotMinutes
    ensures r.Some? ==> IsSuggestion(r.value)
    ensures r.Some? ==> r.value.startTime == slot.start && r.value.endTime <= slot.end
    ensures r.Some? ==> (r.value.title == DeepStudyTitle <==> InPeak(slot.start, peak))
    ensures r.Some? && InPeak(slot.start, peak) ==>
      r.value.endTime - r.value.startTime == Min(PeakSessionMinutes, slot.end - slot.start)
    ensures r.Some? && !InPeak(slot.start, peak) ==>
      r.value.endTime - r.value.startTime == Min(OffPeakSessionMinutes, slot.end - slot.start)
  {
    var slotDuration := slot.end - slot.start;
    if slotDuration < MinSlotMinutes then None
    else
      var isInPeakHour := InPeak(slot.start, peak);
      var sessionDuration := Min(if isInPeakHour then PeakSessionMinutes else OffPeakSessionMinutes, slotDuration);
      Some(Event(
        if isInPeakHour then DeepStudyTitle else ReviewTitle,
        Study,
        slot.start,
        slot.start + sessionDuration,
        false,
        true,
        if isInPeakHour then DeepStudyDescription else ReviewDescription))
  }

  /** The suggestion of a slot as a sequence of zero or one events. */
  function SuggestionsOf(slot: Slot, peak: PeakRange): seq<Event> {
    match SuggestionFor(slot, peak)
    case Some(e) => [e]
    case None => []
  }

  /** `freeSlots.forEach(...)`: the suggestions of the slots, in slot
      order. Each comes from one of the slots. */
  function SuggestionsFor(slots: seq<Slot>, peak: PeakRange): seq<Event>
    decreases |slots|
  {
    if slots == [] then []
    else SuggestionsFor(slots[..|slots| - 1], peak) + SuggestionsOf(slots[|slots| - 1], peak)
  }

  /** At most one suggestion per slot, and each suggestion comes from one
      of the slots. */
  lemma {:induction false} SuggestionsFromSlots(slots: seq<Slot>, peak: PeakRange)
    ensures |SuggestionsFor(slots, peak)| <= |slots|
    ensures forall e :: e in SuggestionsFor(slots, peak) ==>
      exists s :: s in slots && SuggestionFor(s, peak) == Some(e)
    decreases |slots|
  {
    if slots != [] {
      var init := slots[..|slots| - 1];
      SuggestionsFromSlots(init, peak);
      assert forall s :: s in init ==> s in slots;
      assert slots[|slots| - 1] in slots;
    }
  }

  /** The slots long enough for a session, in order. */
  function LongSlots(slots: seq<Slot>): (r: seq<Slot>)
    ensures forall s :: s in r <==> s in slots && s.end - s.start >= MinSlotMinutes
    decreases |slots|
  {
    if slots == [] then []
    else
      var init := slots[..|slots| - 1];
      var last := slots[|slots| - 1];
      assert slots == init + [last];
      LongSlots(init) + (if last.end - last.start >= MinSlotMinutes then [last] else [])
  }

  /** Exactly one suggestion per slot of at least 45 minutes, in slot order:
      a long slot is never split and a short one never yields anything. */
  lemma {:induction false} OneSuggestionPerLongSlot(slots: seq<Slot>, peak: PeakRange)
    ensures |SuggestionsFor(slots, peak)| == |LongSlots(slots)|
    ensures forall i :: 0 <= i < |LongSlots(slots)| ==>
      SuggestionFor(LongSlots(slots)[i], peak) == Some(SuggestionsFor(slots, peak)[i])
    decreases |slots|
  {
    if slots != [] {
      OneSuggestionPerLongSlot(slots[..|slots| - 1], peak);
    }
  }

  /** A suggestion built from a slot lies inside it, so it meets no event
      the slot does not meet. */
  lemma SuggestionInsideSlot(slot: Slot, peak: PeakRange, e: Event)
    requires SuggestionFor(slot, peak).Some?
    ensures var s := SuggestionFor(slot, peak).value;
      slot.start <= s.startTime < s.endTime <= slot.end
      && (SlotMeetsEvent(Slot(s.startTime, s.endTime), e) ==> SlotMeetsEvent(slot, e))
  {
  }

  /* ---------------------------------------------------------------------
     Weekly orchestration
     --------------------------------------------------------------------- */

  const DaysPerWeek := 7

  /** The suggestions of calendar day `day`: the free slots of its active
      window among the events that start on that day. */
  function DaySchedule(events: seq<Event>, plan: Plan, day: int): seq<Event>
    requires ValidPlan(plan)
  {
    var w := ActiveWindow(day, plan.wake, plan.bed);
    SuggestionsFor(FreeSlots(w.start, w.end, EventsOnDay(events, day)), plan.peak)
  }

  /** The calendar day numbers of `n` consecutive days from `firstDay`:
      `addDays(weekStart, dayOffset)` for each offset. */
  function DayNumbers(firstDay: int, n: nat): (r: seq<int>)
    ensures |r| == n
    ensures forall i :: 0 <= i < n ==> r[i] == firstDay + i
  {
    if n == 0 then [] else DayNumbers(firstDay, n - 1) + [firstDay + n - 1]
  }

  /** The suggestions of the given days, one day after another, the way
      `suggestions.push` appends them. */
  function ScheduleOfDays(events: seq<Event>, plan: Plan, days: seq<int>): seq<Event>
    requires ValidPlan(plan)
    decreases |days|
  {
    if days == [] then []
    else ScheduleOfDays(events, plan, days[..|days| - 1]) + DaySchedule(events, plan, days[|days| - 1])
  }

  /** An event is in the schedule of several days exactly when it is in the
      schedule of one of them. */
  lemma {:induction false} ScheduleOfDaysMembers(events: seq<Event>, plan: Plan, days: seq<int>)
    requires ValidPlan(plan)
    ensures forall s :: s in ScheduleOfDays(events, plan, days) <==>
      exists j :: 0 <= j < |days| && s in DaySchedule(events, plan, days[j])
    decreases |days|
  {
    if days != [] {
      var init := days[..|days| - 1];
      var last := days[|days| - 1];
      ScheduleOfDaysMembers(events, plan, init);
      assert ScheduleOfDays(events, plan, days)
          == ScheduleOfDays(events, plan, init) + DaySchedule(events, plan, last);
      forall s ensures s in ScheduleOfDays(events, plan, days) <==>
        exists j :: 0 <= j < |days| && s in DaySchedule(events, plan, days[j])
      {
        if s in ScheduleOfDays(events, plan, init) {
          var j :| 0 <= j < |init| && s in DaySchedule(events, plan, init[j]);
          assert init[j] == days[j];
        } else if s in DaySchedule(events, plan, last) {
          assert days[|days| - 1] == last;
        }
        if exists j :: 0 <= j < |days| && s in DaySchedule(events, plan, days[j]) {
          var j :| 0 <= j < |days| && s in DaySchedule(events, plan, days[j]);
          if j < |days| - 1 {
            assert init[j] == days[j];
          }
        }
      }
    }
  }

  /** When each of the days holds exactly one suggestion, the schedule is
      those suggestions in day order. */
  lemma {:induction false} ScheduleOfDaysSingletons(events: seq<Event>, plan: Plan, days: seq<int>)
    requires ValidPlan(plan)
    requires forall j :: 0 <= j < |days| ==> |DaySchedule(events, plan, days[j])| == 1
    ensures |ScheduleOfDays(events, plan, days)| == |days|
    ensures forall j :: 0 <= j < |days| ==>
      ScheduleOfDays(events, plan, days)[j] == DaySchedule(events, plan, days[j])[0]
    decreases |days|
  {
    if days != [] {
      var init := days[..|days| - 1];
      var last := days[|days| - 1];
      forall j | 0 <= j < |init|
        ensures |DaySchedule(events, plan, init[j])| == 1
      {
        assert init[j] == days[j];
      }
      ScheduleOfDaysSingletons(events, plan, init);
      var front := ScheduleOfDays(events, plan, init);
      var back := DaySchedule(events, plan, last);
      assert |back| == 1;
      assert ScheduleOfDays(events, plan, days) == front + back;
      forall j | 0 <= j < |days|
        ensures ScheduleOfDays(events, plan, days)[j] == DaySchedule(events, plan, days[j])[0]
      {
        if j < |init| {
          assert init[j] == days[j];
          assert (front + back)[j] == front[j];
        } else {
          assert j == |front|;
          assert days[j] == last;
        }
      }
    }
  }

  /** `freeSlots.forEach(...)`: the loop over one day's free slots, pushing
      the suggestion of each long enough slot. */
  method SuggestSlots(freeSlots: seq<Slot>, peakRange: PeakRange) returns (suggestions: seq<Event>)
    ensures suggestions == SuggestionsFor(freeSlots, peakRange)
  {
    suggestions := [];
    for k := 0 to |freeSlots|
      invariant suggestions == SuggestionsFor(freeSlots[..k], peakRange)
    {
      var slot := freeSlots[k];
      assert freeSlots[..k + 1][..k] == freeSlots[..k];
      match SuggestionFor(slot, peakRange) {
        case Some(suggestion) =>
          suggestions := suggestions + [suggestion];
        case None =>
      }
    }
    assert freeSlots[..|freeSlots|] == freeSlots;
  }

  /** The schedule of the first `k + 1` days is that of the first `k` days
      followed by day `k`'s. */
  lemma ScheduleOfDaysStep(events: seq<Event>, plan: Plan, days: seq<int>, k: nat)
    requires ValidPlan(plan) && k < |days|
    ensures ScheduleOfDays(events, plan, days[..k + 1])
      == ScheduleOfDays(events, plan, days[..k]) + DaySchedule(events, plan, days[k])
  {
    assert days[..k + 1][..k] == days[..k];
    assert days[..k + 1][k] == days[k];
  }

  /** Day `dayOffset` of the week that begins at midnight `weekStart` begins
      at a midnight too, that of calendar day `DayOf(weekStart) + dayOffset`. */
  lemma DayOffset(weekStart: int, dayOffset: int, currentDay: int)
    requires MinuteOfDay(weekStart) == 0
    requires currentDay == weekStart + dayOffset * MinutesPerDay
    ensures MinuteOfDay(currentDay) == 0
    ensures DayOf(currentDay) == DayOf(weekStart) + dayOffset
  {
    var day := DayOf(weekStart) + dayOffset;
    assert currentDay == day * MinutesPerDay;
    DayAndMinute(day, 0);
  }

  /** The bounds the day loop computes from the midnight `currentDay` are
      the active window of its calendar day. */
  lemma MidnightWindow(currentDay: int, wake: Clock, bed: Clock)
    requires MinuteOfDay(currentDay) == 0
    requires ValidClock(wake) && ValidClock(bed)
    ensures ActiveWindow(DayOf(currentDay), wake, bed) == Window(
      currentDay + ClockMinutes(wake),
      if bed.hour < wake.hour then currentDay + MinutesPerDay + ClockMinutes(bed)
      else currentDay + ClockMinutes(bed))
  {
    assert DayOf(currentDay) * MinutesPerDay == currentDay;
  }

  /** The body of the day loop for the day that begins at midnight
      `currentDay`: its active window, its events, their free slots, and
      the slots' suggestions. */
  method SuggestDay(existingEvents: seq<Event>, currentDay: int, wake: Clock, bed: Clock, peakRange: PeakRange)
    returns (daySuggestions: seq<Event>)
    requires MinuteOfDay(currentDay) == 0
    requires ValidClock(wake) && ValidClock(bed)
    ensures daySuggestions == DaySchedule(existingEvents, Plan(wake, bed, peakRange), DayOf(currentDay))
  {
    var dayStart := currentDay + ClockMinutes(wake);
    var actualDayEnd := if bed.hour < wake.hour
      then currentDay + MinutesPerDay + ClockMinutes(bed)
      else currentDay + ClockMinutes(bed);
    var dayEvents := EventsOnDay(existingEvents, DayOf(currentDay));
    var freeSlots := FindFreeSlots(dayStart, actualDayEnd, dayEvents);
    daySuggestions := SuggestSlots(freeSlots, peakRange);
    MidnightWindow(currentDay, wake, bed);
    ghost var w := ActiveWindow(DayOf(currentDay), wake, bed);
    assert w.start == dayStart && w.end == actualDayEnd;
    assert DaySchedule(existingEvents, Plan(wake, bed, peakRange), DayOf(currentDay))
        == SuggestionsFor(FreeSlots(dayStart, actualDayEnd, dayEvents), peakRange);
  }

  /** `generateStudySchedule(existingEvents, profile, startDate)` as a
      function: nothing for an incomplete profile, otherwise the suggestions
      of the seven days of the Monday-first week holding `startDate`, day
      after day. */
  function StudySchedule(existingEvents: seq<Event>, profile: Option<Profile>, startDate: int): seq<Event>
    requires ReadableProfile(profile)
  {
    if !Complete(profile) then []
    else ScheduleOfDays(existingEvents, PlanOf(profile), DayNumbers(DayOf(WeekStart(startDate)), DaysPerWeek))
  }

  /** `generateStudySchedule`: the day loop and, inside it, the loop over
      the day's free slots, each slot handled as `SuggestionFor` says. */
  method GenerateStudySchedule(existingEvents: seq<Event>, profile: Option<Profile>, startDate: int)
    returns (suggestions: seq<Event>)
    requires ReadableProfile(profile)
    ensures suggestions == StudySchedule(existingEvents, profile, startDate)
  {
    if !Complete(profile) {
      return [];
    }
    var p := profile.value;
    var weekStart := WeekStart(startDate);
    var wake := ParseTime(p.wakeupTime);
    var bedtimeStr := CalculateBedtime(p.wakeupTime, p.sleepDuration);
    var bed := ParseTime(bedtimeStr);
    var peakRange := PeakRangeFor(p.chronotype.value);
    ghost var plan := PlanOf(profile);
    assert plan == Plan(wake, bed, peakRange);
    ghost var firstDay := DayOf(weekStart);
    ghost var days := DayNumbers(firstDay, DaysPerWeek);
    suggestions := [];
    for dayOffset := 0 to DaysPerWeek
      invariant suggestions == ScheduleOfDays(existingEvents, plan, days[..dayOffset])
    {
      var currentDay := weekStart + dayOffset * MinutesPerDay;
      DayOffset(weekStart, dayOffset, currentDay);
      var daySuggestions := SuggestDay(existingEvents, currentDay, wake, bed, peakRange);
      assert days[dayOffset] == DayOf(currentDay);
      assert daySuggestions == DaySchedule(existingEvents, plan, days[dayOffset]);
      ScheduleOfDaysStep(existingEvents, plan, days, dayOffset);
      suggestions := suggestions + daySuggestions;
    }
    assert days[..DaysPerWeek] == days;
  }

  /** Every suggestion of a day lies in a free slot of that day, starts no
      earlier than the wake time, and meets none of the events that start on
      that day; for well-formed events this is exactly what
      `validateSuggestion` accepts. */
  lemma DayScheduleAvoidsDayEvents(events: seq<Event>, plan: Plan, day: int)
    requires ValidPlan(plan)
    ensures forall s :: s in DaySchedule(events, plan, day) ==>
      ActiveWindow(day, plan.wake, plan.bed).start <= s.startTime
    ensures forall s, e :: (s in DaySchedule(events, plan, day) && e in events
      && DayOf(e.startTime) == day) ==> !SlotMeetsEvent(Slot(s.startTime, s.endTime), e)
    ensures forall s, e :: (s in DaySchedule(events, plan, day) && e in events
      && DayOf(e.startTime) == day && WellFormedEvent(e)) ==> !Conflicts(s, e)
  {
    var w := ActiveWindow(day, plan.wake, plan.bed);
    var dayEvents := EventsOnDay(events, day);
    EventsOnDayMembers(events, day);
    var slots := FreeSlots(w.start, w.end, dayEvents);
    FreeSlotsAvoidEvents(w.start, w.end, dayEvents);
    SuggestionsFromSlots(slots, plan.peak);
    forall s, e | s in DaySchedule(events, plan, day) && e in events && DayOf(e.startTime) == day
      ensures !SlotMeetsEvent(Slot(s.startTime, s.endTime), e)
    {
      var slot :| slot in slots && SuggestionFor(slot, plan.peak) == Some(s);
      SuggestionInsideSlot(slot, plan.peak, e);
    }
    forall s | s in DaySchedule(events, plan, day) ensures w.start <= s.startTime {
      var slot :| slot in slots && SuggestionFor(slot, plan.peak) == Some(s);
    }
  }

  /** A suggestion passes `validateSuggestion` against the well-formed events
      that start on calendar day `day`. */
  predicate RespectsDay(s: Event, events: seq<Event>, day: int) {
    forall e :: e in events && WellFormedEvent(e) && DayOf(e.startTime) == day ==> !Conflicts(s, e)
  }

  /** The generated week respects the events of each day: every suggestion
      belongs to one of the seven days of the week and passes
      `validateSuggestion` against the well-formed events that start on that
      day. (A suggestion may start after midnight, in a window that runs
      into the next day.) */
  lemma ScheduleAvoidsEventsOfItsDay(events: seq<Event>, profile: Option<Profile>, startDate: int)
    requires ReadableProfile(profile)
    ensures forall s :: s in StudySchedule(events, profile, startDate) ==>
      && Complete(profile)
      && (exists d :: DayOf(WeekStart(startDate)) <= d < DayOf(WeekStart(startDate)) + DaysPerWeek
            && s in DaySchedule(events, PlanOf(profile), d)
            && RespectsDay(s, events, d))
  {
    if Complete(profile) {
      var plan := PlanOf(profile);
      var firstDay := DayOf(WeekStart(startDate));
      var days := DayNumbers(firstDay, DaysPerWeek);
      ScheduleOfDaysMembers(events, plan, days);
      forall s | s in StudySchedule(events, profile, startDate)
        ensures exists d ::
          firstDay <= d < firstDay + DaysPerWeek && s in DaySchedule(events, plan, d) && RespectsDay(s, events, d)
      {
        var j :| 0 <= j < |days| && s in DaySchedule(events, plan, days[j]);
        DayScheduleAvoidsDayEvents(events, plan, days[j]);
        assert RespectsDay(s, events, days[j]);
      }
    }
  }

  /** Every suggestion of a day has the shape of a generated session. */
  lemma DayScheduleSuggestions(events: seq<Event>, plan: Plan, day: int)
    requires ValidPlan(plan)
    ensures forall s :: s in DaySchedule(events, plan, day) ==> IsSuggestion(s)
  {
    var w := ActiveWindow(day, plan.wake, plan.bed);
    SuggestionsFromSlots(FreeSlots(w.start, w.end, EventsOnDay(events, day)), plan.peak);
  }

  /** An incomplete profile gets no suggestions, and everything the
      generator returns is a tentative, movable study session of 45 to 90
      minutes. */
  lemma ScheduleIsSuggestions(events: seq<Event>, profile: Option<Profile>, startDate: int)
    requires ReadableProfile(profile)
    ensures !Complete(profile) ==> StudySchedule(events, profile, startDate) == []
    ensures forall s :: s in StudySchedule(events, profile, startDate) ==> IsSuggestion(s)
  {
    if Complete(profile) {
      var plan := PlanOf(profile);
      var days := DayNumbers(DayOf(WeekStart(startDate)), DaysPerWeek);
      ScheduleOfDaysMembers(events, plan, days);
      forall s | s in StudySchedule(events, profile, startDate) ensures IsSuggestion(s) {
        var j :| 0 <= j < |days| && s in DaySchedule(events, plan, days[j]);
        DayScheduleSuggestions(events, plan, days[j]);
      }
    }
  }

  /** With no events at all, a day whose window lasts at least 45 minutes
      gets exactly one suggestion: the session at the start of its window. */
  lemma EmptyDaySchedule(plan: Plan, day: int)
    requires ValidPlan(plan)
    requires ActiveWindow(day, plan.wake, plan.bed).end - ActiveWindow(day, plan.wake, plan.bed).start >= MinSlotMinutes
    ensures var w := ActiveWindow(day, plan.wake, plan.bed);
      DaySchedule([], plan, day) == [SuggestionFor(Slot(w.start, w.end), plan.peak).value]
  {
    var w := ActiveWindow(day, plan.wake, plan.bed);
    var slot := Slot(w.start, w.end);
    assert EventsOnDay([], day) == [];
    FreeSlotsNoEvents(w.start, w.end);
    assert [slot][..0] == [];
    assert SuggestionsFor([slot], plan.peak) == SuggestionsOf(slot, plan.peak);
  }

  /** A bear who wakes at 07:00 and sleeps 7.5 hours: awake from 07:00 to
      23:30, peak from 10 to 14. */
  lemma BearPlan()
    ensures PlanOf(Some(Profile(Some("bear"), Some("07:00"), Some(7.5))))
      == Plan(Clock(7, 0), Clock(23, 30), PeakRange(10, 14))
  {
    BedtimeExamples();
    ParsedClock("07:00", 7, 0);
    ParsedClock("23:30", 23, 30);
  }

  /** Reading clock text that formats a given time of day. */
  lemma ParsedClock(text: string, hour: int, minute: int)
    requires ValidClock(Clock(hour, minute)) && text == FormatClock(Clock(hour, minute))
    ensures ParseTime(Some(text)) == Clock(hour, minute)
  {
  }

  /** With no events, that plan gives each day one 60-minute review session
      at 07:00: the only slot is the whole 07:00 to 23:30 window, and 07:00
      is outside the peak. */
  lemma BearEmptyDay(day: int)
    ensures var r := DaySchedule([], Plan(Clock(7, 0), Clock(23, 30), PeakRange(10, 14)), day);
      && |r| == 1
      && r[0].startTime == day * MinutesPerDay + 420
      && r[0].endTime == r[0].startTime + 60
      && r[0].title == ReviewTitle
  {
    var plan := Plan(Clock(7, 0), Clock(23, 30), PeakRange(10, 14));
    var w := ActiveWindow(day, plan.wake, plan.bed);
    assert w == Window(day * MinutesPerDay + 420, day * MinutesPerDay + 1410);
    EmptyDaySchedule(plan, day);
    DayAndMinute(day, 420);
    assert HourOf(w.start) == 7;
  }

  /** The empty-week scenario: for that bear, each of the seven days of the
      week gets one 60-minute review session at 07:00, Monday first. */
  lemma EmptyWeekScenario(startDate: int)
    ensures
      var r := StudySchedule([], Some(Profile(Some("bear"), Some("07:00"), Some(7.5))), startDate);
      && |r| == DaysPerWeek
      && forall i :: 0 <= i < DaysPerWeek ==>
        && r[i].startTime == WeekStart(startDate) + i * MinutesPerDay + 420
        && r[i].endTime == r[i].startTime + 60
        && r[i].title == ReviewTitle
  {
    BearPlan();
    var profile := Some(Profile(Some("bear"), Some("07:00"), Some(7.5)));
    var plan := Plan(Clock(7, 0), Clock(23, 30), PeakRange(10, 14));
    var firstDay := DayOf(WeekStart(startDate));
    var days := DayNumbers(firstDay, DaysPerWeek);
    assert Complete(profile);
    assert StudySchedule([], profile, startDate) == ScheduleOfDays([], plan, days);
    assert WeekStart(startDate) == firstDay * MinutesPerDay;
    forall j | 0 <= j < DaysPerWeek
      ensures |DaySchedule([], plan, days[j])| == 1
      ensures DaySchedule([], plan, days[j])[0].startTime == WeekStart(startDate) + j * MinutesPerDay + 420
      ensures DaySchedule([], plan, days[j])[0].endTime == DaySchedule([], plan, days[j])[0].startTime + 60
      ensures DaySchedule([], plan, days[j])[0].title == ReviewTitle
    {
      BearEmptyDay(days[j]);
    }
    ScheduleOfDaysSingletons([], plan, days);
  }

  /* ---------------------------------------------------------------------
     Overlap validator
     --------------------------------------------------------------------- */

  /** The three-way test of `validateSuggestion`: the suggestion starts
      inside the event, ends inside it, or contains it. */
  predicate Conflicts(s: Event, e: Event) {
    || (s.startTime >= e.startTime && s.startTime < e.endTime)
    || (s.endTime > e.startTime && s.endTime <= e.endTime)
    || (s.startTime <= e.startTime && s.endTime >= e.endTime)
  }

  /** `validateSuggestion(suggestion, existingEvents)`: true when no event
      conflicts with the suggestion, returning false at the first one that
      does. */
  method ValidateSuggestion(suggestion: Event, existingEvents: seq<Event>) returns (ok: bool)
    ensures ok <==> forall e :: e in existingEvents ==> !Conflicts(suggestion, e)
    ensures existingEvents == [] ==> ok
  {
    for i := 0 to |existingEvents|
      invariant forall k :: 0 <= k < i ==> !Conflicts(suggestion, existingEvents[k])
    {
      var event := existingEvents[i];
      var hasOverlap :=
        || (suggestion.startTime >= event.startTime && suggestion.startTime < event.endTime)
        || (suggestion.endTime > event.startTime && suggestion.endTime <= event.endTime)
        || (suggestion.startTime <= event.startTime && suggestion.endTime >= event.endTime);
      if hasOverlap {
        assert event in existingEvents && Conflicts(suggestion, event);
        return false;
      }
    }
    return true;
  }

  /** For well-formed intervals the three-way test is plain interval
      intersection. */
  lemma ConflictsIsIntersection(s: Event, e: Event)
    requires WellFormedEvent(s) && WellFormedEvent(e)
    ensures Conflicts(s, e) <==> s.startTime < e.endTime && e.startTime < s.endTime
  {
  }
}
