# Study-session planner: a verified model of its scheduling core

This project is a Dafny model of the scheduling core of a weekly study planner, a React and Firebase web app. A user stores the following in a profile:

- a chronotype (lion, bear, wolf or dolphin);
- a wake-up time;
- a sleep duration of 7.5 or 9 hours.

The user also keeps a calendar of events: classes, work, personal commitments. The planner proposes tentative study sessions for a week. For each of the seven days, Monday first, it works as follows:

1. It takes the active window from wake time to bedtime. Bedtime is the wake time minus the sleep duration, wrapped into one day.
2. It selects as busy the events that start on that calendar day.
3. It sorts the busy events by start and sweeps a cursor over them, collecting the free gaps.
4. It turns every gap of at least 45 minutes into one session at the gap's start. In the chronotype's energy peak the session is "deep study" of at most 90 minutes; outside it, "review" of at most 60 minutes.

The model also covers the helpers around this generator:

- the check run on an event before it is saved;
- the chronotype and sleep-duration tables of the profile page;
- the placement arithmetic of the weekly calendar grid.

## Time model

- **Instants.** An instant is a whole number of minutes from a Monday 00:00. A calendar day is `t / 1440`, the hour is `(t % 1440) / 60`, and a week starts at a multiple of 10080. "Same date, month and full year" is therefore "same day number", and `differenceInMinutes` is subtraction.
- **Clock text.** Clock text is "HH:MM" with two digits on each side. Formatting and parsing are proved to be mutual inverses on well-formed text.

## Modules and shape

| file | module | models |
|---|---|---|
| `time.dfy` | `Optional`, `Time` | absent values; instants, hours and minutes, the start of a week, clock text |
| `events.dfy` | `EventModel`, `EventValidation` | the event record; `validateEventData` as a method that builds the error list step by step |
| `profiles.dfy` | `Profiles` | the profile record, `CHRONOTYPE_CONFIG`, `SLEEP_DURATION_OPTIONS`, `calculateBedtime` |
| `grid.dfy` | `GridHelpers` | `calculateEventStyle`, `isEventOnDay`, `getEventDayIndex`, `formatEventTime` |
| `scheduler.dfy` | `Scheduler` | `PEAK_ENERGY_RANGES`, `parseTime`, `findFreeSlots`, `generateStudySchedule`, `validateSuggestion` |
| `corrections.dfy` | `Corrections` | the two defects listed under Findings and the corrected busy-event selection |

**Loops as methods.** The loops of the source are methods with loop invariants:

- `FindFreeSlots` is the cursor sweep;
- `SuggestSlots` is the per-slot `forEach`;
- `SuggestDay` and `GenerateStudySchedule` are the day loop;
- `ValidateSuggestion` is the loop with an early return.

`ValidateEventData` has no loop. Its four `push` checks are the method `PushErrors`; `ValidateEventData` returns that list, its message texts and the validity flag.

**Specification functions.** Five of these methods are proved equal to a pure function:

| method | function |
|---|---|
| `FindFreeSlots` | `FreeSlots` |
| `SuggestSlots` | `SuggestionsFor` |
| `SuggestDay` | `DaySchedule` |
| `GenerateStudySchedule` | `StudySchedule` |
| `PushErrors` | `Errors` |

The promised properties (ordering, disjointness, avoidance of events, coverage, session bounds) are proved as lemmas about those functions. `ValidateSuggestion` is specified directly, by an `ensures` clause that characterises its result. `ValidateEventData` states the properties of `Errors` that `ErrorsSpec` proves, directly about the list it returns.

## Model

| member | source | states |
|---|---|---|
| `Time.HourOf` | src/features/calendar/utils/gridHelpers.js:21 | `getHours`: the hour lies in 0..23 and brackets the instant's minute of the day |
| `Time.MinuteOf` | src/features/calendar/utils/gridHelpers.js:22 | `getMinutes`: the minute lies in 0..59, and hour and minute together give back the minute of the day |
| `Time.WeekStart` | src/core/bio-algorithms/scheduler.js:40 | `startOfWeek` with Monday first: a midnight at a multiple of a week, at most one week before the given instant and not after it |
| `Time.Pad2` | src/features/calendar/utils/gridHelpers.js:76 | `padStart(2, '0')` of a number below 100: exactly two digits that read back as the number |
| `Time.FormatClock` | src/features/profile/services/profileService.js:151-154 | "HH:MM" text of a time of day is well-formed and parses back to that time of day |
| `Time.FormatParseClock` | src/core/bio-algorithms/scheduler.js:181-183 | the other half of the round trip: formatting parsed well-formed text gives the same text |
| `Time.ClockOfMinutes` | src/features/profile/services/profileService.js:151-152 | a minute count of one day converts to a valid time of day with the same minute count |
| `EventValidation.Messages` | src/features/events/services/eventsService.js:128-145 | one message text per error, in the same order, each the text pushed for that error |
| `EventValidation.PushErrors` | src/features/events/services/eventsService.js:128-145 | the four checks in order push exactly the list `Errors` |
| `EventValidation.ErrorsSpec` | src/features/events/services/eventsService.js:128-145 | each error is in the list iff its check fails; errors come in check order; at most three |
| `EventValidation.ValidateEventData` | src/features/events/services/eventsService.js:126-151 | valid iff no error; each of the four errors appears iff its condition holds (blank title after trimming, missing type, missing start or end, end not after start); errors in check order; at most three; the returned texts are the errors' messages, one per error, in the same order |
| `Profiles.SleepOptionsAreWholeCycles` | src/features/profile/services/profileService.js:125-128 | the sleep options are exactly 7.5 and 9 hours, five and six 90-minute cycles, each a whole number of minutes |
| `Profiles.ChronotypeKeys` | src/features/profile/services/profileService.js:79-120 | the chronotype table has exactly the keys lion, bear, wolf and dolphin |
| `Profiles.BedtimeMinutes` | src/features/profile/services/profileService.js:140-152 | bedtime minute lies within one day and is congruent, modulo a day, to the wake minute minus the sleep duration rounded down to a minute |
| `Profiles.CalculateBedtime` | src/features/profile/services/profileService.js:137-155 | null exactly when the wake time is absent or empty or the duration absent or zero; otherwise well-formed "HH:MM" text whose minute count is the bedtime minute |
| `Profiles.BedtimeRoundTrip` | src/features/profile/services/profileService.js:140-154 | parsing the bedtime and adding the sleep duration modulo a day gives the wake time back |
| `Profiles.BedtimeExamples` | src/features/profile/services/profileService.js:137-155 | "07:00" with 7.5 hours gives "23:30"; "06:00" with 9 hours gives "21:00" |
| `GridHelpers.CalculateEventStyle` | src/features/calendar/utils/gridHelpers.js:20-41 | `top` is at least 0 and is 0 for a start at or before 05:00, otherwise (h-5)*64 + m*64/60; `height` is at least 20 and is duration*64/60 from 18.75 minutes on |
| `GridHelpers.TopMonotone` | src/features/calendar/utils/gridHelpers.js:25-38 | a later minute of the day is never drawn higher, whatever either event's end is |
| `GridHelpers.OneHourIsOneRow` | src/features/calendar/utils/gridHelpers.js:32-39 | a 60-minute event is exactly one 64-pixel row tall |
| `GridHelpers.IsEventOnDay` | src/features/calendar/utils/gridHelpers.js:50-56 | same day of month, month and year, i.e. the same day number; what that means is stated by `GridHelpers.IsEventOnDayMeaning` |
| `GridHelpers.IsEventOnDayMeaning` | src/features/calendar/utils/gridHelpers.js:50-56 | same-day is reflexive, symmetric and transitive, and holds iff the event lies in the 1440 minutes from the day's midnight |
| `GridHelpers.GetEventDayIndex` | src/features/calendar/utils/gridHelpers.js:65-67 | `findIndex`: -1 iff no day matches, otherwise a matching index with no match before it |
| `GridHelpers.FormatEventTime` | src/features/calendar/utils/gridHelpers.js:75-79 | well-formed zero-padded "HH:MM" that parses back to the instant's hour and minute |
| `Scheduler.PeakRangeFor` | src/core/bio-algorithms/scheduler.js:49 | a known chronotype gets its table entry, anything else bear's 10 to 14; every range is non-empty within 0..24 |
| `Scheduler.PeakTablesSameKeys` | src/core/bio-algorithms/scheduler.js:19-24 | the peak table and the chronotype display table have the same four keys |
| `Scheduler.PeakHoursShownAgree` | src/features/profile/services/profileService.js:83-103 | for lion, bear and wolf the peak hours the profile page shows are the range the generator uses |
| `Scheduler.DolphinPeakHoursDisagree` | src/features/profile/services/profileService.js:110-119 | for dolphin the page shows 15 to 21 while the generator uses 10 to 12 |
| `Scheduler.ParseTime` | src/core/bio-algorithms/scheduler.js:178-191 | absent or empty text gives 07:00; well-formed text gives the time of day that formats back to it |
| `Scheduler.PlanOf` | src/core/bio-algorithms/scheduler.js:44-49 | wake time is the parsed wake text, bedtime is `calculateBedtime`'s minute, the peak is the chronotype's range |
| `Scheduler.ActiveWindow` | src/core/bio-algorithms/scheduler.js:58-64 | the day's `dayStart` and `actualDayEnd`; placement and length are stated by `Scheduler.ActiveWindowPlacement`, `Scheduler.WindowLengthFromBedtime` and `Scheduler.SleepWindowLength` |
| `Scheduler.ActiveWindowPlacement` | src/core/bio-algorithms/scheduler.js:58-64 | the window starts at wake time of the day and ends at bedtime, on the next day exactly when the bedtime hour is before the wake hour |
| `Scheduler.WindowLengthFromBedtime` | src/core/bio-algorithms/scheduler.js:58-64 | a bedtime k minutes before wake time, for one to 23 hours, gives a window of 1440 - k minutes |
| `Scheduler.SleepWindowLength` | src/core/bio-algorithms/scheduler.js:44-64 | with the computed bedtime, the window lasts one day minus the sleep duration |
| `Scheduler.ActiveWindowLength` | src/core/bio-algorithms/scheduler.js:44-64 | the same for a profile's wake text and sleep duration, through `PlanOf` |
| `Scheduler.EventsOnDay` | src/core/bio-algorithms/scheduler.js:67-72 | the date filter of a day's busy events; which events it keeps is stated by `Scheduler.EventsOnDayMembers` |
| `Scheduler.EventsOnDayMembers` | src/core/bio-algorithms/scheduler.js:67-72 | an event is busy on a day iff it is one of the events and starts on that calendar day |
| `Scheduler.InsertByStartSpec` | src/core/bio-algorithms/scheduler.js:136-138 | inserting into a list sorted by start keeps it sorted and adds exactly that event |
| `Scheduler.SortByStartSpec` | src/core/bio-algorithms/scheduler.js:136-138 | the sort is ordered by start and a permutation of its input |
| `Scheduler.FindFreeSlots` | src/core/bio-algorithms/scheduler.js:134-170 | the cursor loop computes exactly the sweep `FreeSlots` over the sorted events |
| `Scheduler.SweepStep` | src/core/bio-algorithms/scheduler.js:143-159 | the sweep from the i-th event is that event's gap followed by the sweep from the advanced cursor |
| `Scheduler.SweepBounds` | src/core/bio-algorithms/scheduler.js:141-167 | every slot is non-empty and starts at or after the cursor, which only moves forward |
| `Scheduler.SweepAvoidsEvents` | src/core/bio-algorithms/scheduler.js:143-159 | over events sorted by start, no slot meets any event, including events nested inside earlier ones |
| `Scheduler.SweepOrdered` | src/core/bio-algorithms/scheduler.js:141-169 | without inverted events, the slots are in order and pairwise disjoint |
| `Scheduler.SweepCovers` | src/core/bio-algorithms/scheduler.js:141-169 | every instant from the cursor to the day end that no event covers lies in some slot |
| `Scheduler.SweepEndpoints` | src/core/bio-algorithms/scheduler.js:148-167 | each slot starts at the cursor or at an event's end, and ends at the day end or at an event's start |
| `Scheduler.FreeSlotsAvoidEvents` | src/core/bio-algorithms/scheduler.js:134-170 | `findFreeSlots`: every slot is non-empty, starts at or after the day start, and meets no input event, in any input order |
| `Scheduler.FreeSlotsCover` | src/core/bio-algorithms/scheduler.js:134-170 | every free instant of the window lies in a slot |
| `Scheduler.FreeSlotsOrdered` | src/core/bio-algorithms/scheduler.js:134-170 | with no inverted events the slots are ordered and pairwise disjoint |
| `Scheduler.FreeSlotsNoEvents` | src/core/bio-algorithms/scheduler.js:161-167 | without events the only slot is the whole window if it is non-empty, and there is none otherwise |
| `Scheduler.SweepTrailingSlot` | src/core/bio-algorithms/scheduler.js:148-167 | a slot that does not end where an event starts ends at the day end and starts after every event has ended |
| `Scheduler.FreeSlotsEndpoints` | src/core/bio-algorithms/scheduler.js:148-167 | each slot starts at the day start or an event's end, and ends at the day end or an event's start; a slot that does not end at an event's start is the trailing one, after every event's end, so every other gap ends at an event's start even past the day end |
| `Scheduler.InvertedEventOverlaps` | src/core/bio-algorithms/scheduler.js:148-158 | an inverted event (10 to 5) followed by one from 12 to 20 yields the overlapping slots 0 to 10 and 5 to 12, which are not ordered |
| `Scheduler.SuggestionFor` | src/core/bio-algorithms/scheduler.js:78-115 | a suggestion exists iff the slot has at least 45 minutes; it is a tentative, movable study session starting at the slot start and not ending past the slot; titled deep study iff the start hour is in the peak; lasting min(90, slot) in the peak and min(60, slot) outside |
| `Scheduler.SuggestionsFromSlots` | src/core/bio-algorithms/scheduler.js:78-116 | at most one suggestion per slot, each built from one of the slots |
| `Scheduler.LongSlots` | src/core/bio-algorithms/scheduler.js:79-82 | the slots of at least 45 minutes, exactly |
| `Scheduler.OneSuggestionPerLongSlot` | src/core/bio-algorithms/scheduler.js:78-116 | exactly one suggestion per slot of at least 45 minutes, in slot order |
| `Scheduler.SuggestionInsideSlot` | src/core/bio-algorithms/scheduler.js:102-106 | a suggestion lies inside its slot, so it meets no event the slot avoids |
| `Scheduler.SuggestSlots` | src/core/bio-algorithms/scheduler.js:78-116 | the per-slot loop pushes exactly `SuggestionsFor` of the slots |
| `Scheduler.DayNumbers` | src/core/bio-algorithms/scheduler.js:54-55 | the seven day numbers from the week's first day, consecutive |
| `Scheduler.ScheduleOfDaysMembers` | src/core/bio-algorithms/scheduler.js:54-117 | a suggestion is in the week iff it is in the schedule of one of its days |
| `Scheduler.ScheduleOfDaysSingletons` | src/core/bio-algorithms/scheduler.js:54-117 | when each day yields one suggestion, the week is those suggestions in day order |
| `Scheduler.ScheduleOfDaysStep` | src/core/bio-algorithms/scheduler.js:54-117 | the first k + 1 days' schedule is the first k days' followed by day k's |
| `Scheduler.DayOffset` | src/core/bio-algorithms/scheduler.js:55 | `addDays(weekStart, dayOffset)` is a midnight whose day number is the week's first day plus the offset |
| `Scheduler.MidnightWindow` | src/core/bio-algorithms/scheduler.js:58-64 | the bounds the loop computes from the day's midnight are the active window of that day |
| `Scheduler.SuggestDay` | src/core/bio-algorithms/scheduler.js:55-116 | the loop body for one day appends exactly `DaySchedule` of that day |
| `Scheduler.GenerateStudySchedule` | src/core/bio-algorithms/scheduler.js:34-124 | the generator returns exactly `StudySchedule`: nothing for an incomplete profile, else the seven days' suggestions in order |
| `Scheduler.DayScheduleAvoidsDayEvents` | src/core/bio-algorithms/scheduler.js:66-116 | each suggestion of a day lies in the window from wake time on, and conflicts with no well-formed event that starts on that day |
| `Scheduler.ScheduleAvoidsEventsOfItsDay` | src/core/bio-algorithms/scheduler.js:34-124 | every suggestion of the week is in the schedule of one of the seven days, and passes `validateSuggestion` against the well-formed events that start on that same day |
| `Scheduler.DayScheduleSuggestions` | src/core/bio-algorithms/scheduler.js:102-112 | every suggestion of a day is a tentative, movable study session of 45 to 90 minutes with a matching title and description |
| `Scheduler.Complete` | src/core/bio-algorithms/scheduler.js:35 | a profile with a wake time, a sleep duration and a chronotype; `Scheduler.ScheduleIsSuggestions` and `Scheduler.GenerateStudySchedule` state that anything less yields no suggestions |
| `Scheduler.ScheduleIsSuggestions` | src/core/bio-algorithms/scheduler.js:35-38 | an incomplete profile yields no suggestions; everything generated has the suggestion shape |
| `Scheduler.EmptyDaySchedule` | src/core/bio-algorithms/scheduler.js:75-115 | without events, a window of at least 45 minutes yields one session at wake time |
| `Scheduler.BearPlan` | src/core/bio-algorithms/scheduler.js:44-49 | a bear waking at 07:00 after 7.5 hours is awake from 07:00 to 23:30 with peak 10 to 14 |
| `Scheduler.ParsedClock` | src/core/bio-algorithms/scheduler.js:178-191 | reading formatted clock text gives the time of day back |
| `Scheduler.BearEmptyDay` | src/core/bio-algorithms/scheduler.js:54-116 | for that bear, an empty day yields one 60-minute review session at 07:00 |
| `Scheduler.EmptyWeekScenario` | src/core/bio-algorithms/scheduler.js:34-124 | for that bear and an empty calendar, the week is seven 60-minute review sessions at 07:00 of each day, in order |
| `Scheduler.ValidateSuggestion` | src/core/bio-algorithms/scheduler.js:200-220 | true iff no event meets the three-way overlap test; true for no events |
| `Scheduler.Conflicts` | src/core/bio-algorithms/scheduler.js:209-212 | the three-way overlap test of `validateSuggestion`; `Scheduler.ConflictsIsIntersection` states it is interval intersection for well-formed intervals |
| `Scheduler.ConflictsIsIntersection` | src/core/bio-algorithms/scheduler.js:209-212 | for well-formed intervals the three-way test is plain interval intersection |
| `Corrections.NightShiftOverlooked` | src/core/bio-algorithms/scheduler.js:67-72 | as written, a shift from Monday 23:00 to Tuesday 08:00 is not busy on Tuesday, and a session from 07:00 to 08:00 on Tuesday conflicts with it |
| `Corrections.TuesdayDuringShift` | src/core/bio-algorithms/scheduler.js:54-116 | with only that shift stored, Tuesday for that bear gets one review session, from 07:00 to 08:00, inside the shift |
| `Corrections.MidnightEventOverlooked` | src/core/bio-algorithms/scheduler.js:67-72 | as written, with a window past midnight, a Tuesday 00:00 to 00:30 event is not busy on Monday, and Monday's 23:30 to 00:30 session conflicts with it |
| `Corrections.MondayPastMidnight` | src/core/bio-algorithms/scheduler.js:54-116 | for a wolf awake from 10:00 to 01:00 with a class until 23:30, Monday yields exactly the session from 23:30 to 00:30 |
| `Corrections.MondayClassOnly` | src/core/bio-algorithms/scheduler.js:67-72 | of the Monday class and the Tuesday event, only the class is busy on Monday |
| `Corrections.WolfBedtime` | src/features/profile/services/profileService.js:137-155 | "10:00" with 9 hours gives the bedtime "01:00" |
| `Corrections.WolfPlan` | src/core/bio-algorithms/scheduler.js:44-49 | a wolf waking at 10:00 after 9 hours is awake from 10:00 to 01:00 with peak 16 to 21 |
| `Corrections.SessionAfterBedtime` | src/core/bio-algorithms/scheduler.js:67-72 | as written, an event after bedtime is busy, and the gap before it yields a session in no day's active window |
| `Corrections.SessionInWeek` | src/core/bio-algorithms/scheduler.js:34-124 | the session from 21:30 to 22:30 on Monday is part of that bear's generated week |
| `Corrections.SessionOutsideWindows` | src/core/bio-algorithms/scheduler.js:58-64 | that session lies in no day's active window of that bear's plan |
| `Corrections.WeekFromMonday` | src/core/bio-algorithms/scheduler.js:40-55 | for a complete profile, the week that begins at instant 0 is the schedule of its seven days, Monday first |
| `Corrections.OutsideEveryWindow` | src/core/bio-algorithms/scheduler.js:58-64 | a session from 21:30 to 22:30 lies in no day's window of an 06:00 to 21:00 plan |
| `Corrections.MondayAfterBedtime` | src/core/bio-algorithms/scheduler.js:54-116 | the Monday of that scenario yields exactly the session from 21:30 to 22:30 |
| `Corrections.MondayBusy` | src/core/bio-algorithms/scheduler.js:67-72 | both of that Monday's events are busy, the one after bedtime included |
| `Corrections.GapAfterBedtime` | src/core/bio-algorithms/scheduler.js:143-153 | the sweep over the 06:00 to 21:00 window records the gap from 21:30 to 23:00 |
| `Corrections.NineHourPlan` | src/core/bio-algorithms/scheduler.js:44-49 | a bear waking at 06:00 after 9 hours is awake from 06:00 to 21:00 |
| `Corrections.EventsInWindowMembers` | src/core/bio-algorithms/scheduler.js:67-72 | corrected selection: an event is busy iff it shares an instant with the active window |
| `Corrections.CorrectedDayInsideWindow` | src/core/bio-algorithms/scheduler.js:58-75 | corrected: every suggestion of a day lies inside that day's active window |
| `Corrections.CorrectedDayAvoidsEvents` | src/core/bio-algorithms/scheduler.js:67-116 | corrected: no suggestion of a day conflicts with any well-formed event, whatever day it starts on |
| `Corrections.CorrectedDaysAvoidEvents` | src/core/bio-algorithms/scheduler.js:54-117 | corrected: the same over any list of days |
| `Corrections.CorrectedScheduleAvoidsEvents` | src/core/bio-algorithms/scheduler.js:34-124 | corrected generator: every suggestion passes `validateSuggestion` against all well-formed events |
| `Corrections.CorrectedDaysInsideWindows` | src/core/bio-algorithms/scheduler.js:54-117 | corrected: every suggestion over a list of days lies in the window of one of them |
| `Corrections.CorrectedScheduleInsideWindows` | src/core/bio-algorithms/scheduler.js:34-124 | corrected generator: every suggestion lies inside the active window of one of the week's seven days |

## Left out

- **The rest of the app.** Firestore reads and writes, React components and hooks, authentication and console logging are not modelled. They are I/O or UI. Of the source files, only the four core files are modelled; the others are not part of this model.
- **JavaScript dates.** Time zones, daylight-saving shifts and the current date are not modelled. An instant is a whole number of minutes; `startDate` and `calculateBedtime`'s `new Date()` become plain parameters. On a daylight-saving day the source's day is 23 or 25 hours long; the model's is always 1440 minutes.
- **Seconds and milliseconds.** They are not modelled. Events start and end on whole minutes.
- `Scheduler.ParseTime`: only absent, empty and two-digit "HH:MM" text is covered, through the `ReadableTime` precondition. The profile page's `<input type="time">` (src/features/profile/pages/ProfilePage.jsx:172) only produces that form, and text with a non-numeric half makes `parseInt` give NaN. Other numeric text, such as "7:00", "07:00:00" or "24:00", does parse to numbers in the source; the model does not say what the generator does with it. The function returns one time of day, where the source returns the same pair twice under wake and bed names.
- `Profiles.CalculateBedtime`: the wake text must be absent, empty or two-digit "HH:MM", for the same reason: the profile page produces only that form, and a non-numeric half makes `Number` give NaN. Other numeric text, such as "7:00" or "24:00", gives a defined bedtime in the source that the model does not cover. The sleep duration is an exact real, so floating-point rounding of `sleepDuration * 60 * 60 * 1000` is not modelled. Fractional minutes round down, as a JavaScript date drops them.
- `Profiles.BedtimeRoundTrip`: the round trip is stated only for durations that are a whole number of minutes. Both offered durations are.
- `GridHelpers.CalculateEventStyle`: pixel values are exact reals, not IEEE doubles.
- **Chronotype lookup.** Only the four table keys count as known. JavaScript would also find inherited object properties such as "toString"; those are not modelled.
- **Display classes.** `CHRONOTYPE_CONFIG` is kept with its label, description, peak hours, traits and colour. Its three CSS-class fields are presentation and are left out.
- `Scheduler.SortByStartSpec`: sortedness and permutation are proved. Stability is not stated, although the insertion keeps equal starts in input order.
- **`weekEnd`.** It is computed by the source and never used, so it is not modelled.
- **Event times.** The sweep is modelled for any events, inverted ones included. Ordering and disjointness of the slots (`FreeSlotsOrdered`) are proved only for events that do not end before they start, because the sweep really does emit overlapping slots after an inverted event. `Scheduler.InvertedEventOverlaps` shows this: from cursor 0, the events 10 to 5 and 12 to 20 give the slots 0 to 10 and 5 to 12. Stored events pass `validateEventData`, which rejects such events. The lemmas that use the three-way test of `validateSuggestion` also speak of well-formed events (end after start), because that test treats an inverted event differently from interval intersection.

## Findings

| source | as written | input that shows it | evidently intended | confidence | as-written member | corrected member |
|---|---|---|---|---|---|---|
| src/core/bio-algorithms/scheduler.js:67-72 | a day's busy events are those that start on that calendar date | a wolf waking at 10:00 after 9 hours (window to 01:00 Tuesday); a class on Monday from 10:00 to 23:30; an event on Tuesday from 00:00 to 00:30: Monday gets a review session from 23:30 to 00:30 that overlaps the Tuesday event (`Corrections.NightShiftOverlooked` shows the same for an event spanning midnight) | no suggestion overlaps a stored event, the guarantee `validateSuggestion` checks | not executed | `Corrections.MidnightEventOverlooked` | `Corrections.CorrectedScheduleAvoidsEvents` |
| src/core/bio-algorithms/scheduler.js:67-72 | an event after bedtime that starts on the same date counts as busy; the sweep ends the gap before it at the event's start, not at bedtime | a bear waking at 06:00 after 9 hours (bedtime 21:00); a class from Monday 06:00 to 21:30 and a call from Monday 23:00 to 23:30: Monday gets a review session from 21:30 to 22:30, after bedtime | every suggestion lies inside the day's active window, from wake time to bedtime | not executed | `Corrections.SessionAfterBedtime` | `Corrections.CorrectedScheduleInsideWindows` |

Both corrections select as busy the events that share an instant with the day's active window (`Corrections.EventsInWindow`). The dolphin peak shown on the profile page (15 to 21) differs from the one the generator uses (10 to 12). This is stated as `Scheduler.DolphinPeakHoursDisagree`, not claimed as a defect, because the source does not say which table is meant.
