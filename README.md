# Availability engine — a Dafny model

This project models the availability engine of `src/getAvailabilities.js`. The engine answers one question: which 30-minute slots are free on each day of a window?

It takes three inputs:
- a query instant;
- a window length `daysFromDate` (7 when not given);
- the `events` table.

It returns one `{ date, slots }` record per calendar day of the window. Its four steps are modelled file by file:

- `time.dfy` (module `Time`) holds the timeline. Instants are whole minutes on one local timeline. A calendar date is the number of the day an instant falls on; this number stands in for the `"D-MM-YYYY"` key the engine uses. The module also holds moment's week difference, truncated toward zero, and `Math.ceil`.
- `events.dfy` (module `Events`) models the event rows and `getEvents`. The store query is modelled as a function of the table: the `where` clause row by row (`Where`), then `orderBy('starts_at', 'asc')` as an insertion sort (`OrderByStart`).
- `slots.dfy` (module `Slots`) models `getHours`:
  - `SlotLabels` is the reference definition and `GetHours` is its loop.
  - The `"H:mm"` text of a label (`FormatLabel`) is shown injective, so the model compares labels as minutes of the day.
  - The opening-minus-appointment `filter` is `Without`.
- `occurrences.dfy` (module `Occurrences`) computes the candidate dates of one event. This is the recurrence branch of `getDaysWithEvents`: `CandidateDates` is the reference definition and `EventDates` is its loop.
- `day_buckets.dfy` (module `DayBuckets`) models the two nested `reduce`s that build the day-bucket map (`DaysWithEvents`).
  - An event whose kind tag names an `Object.prototype` member makes the spread at src/getAvailabilities.js:48 throw, so the call rejects (`Settled`).
  - `Contributions` is an independent per-date reference definition.
  - `DaysWithEventsPerDate` proves that the fold agrees with it.
  - `GetDaysWithEvents` is the outer loop.
- `availability.dfy` (module `Availability`) models `getAvailabilities`. It is split into its three steps: `EmptyWindow` (the `for` loop filling the `Map`), `FillSlots` (the `forEach` that appends each day's free labels) and `Values`. The result is proved equal to the specification function `Availabilities`, and the engine's properties are proved about that function.
- `scenarios.dfy` (module `Scenarios`) holds the inputs of `src/getAvailabilities.test.js` and their expected outputs as lemmas. It also holds three inputs that show how the recurrence rule behaves at its edges.

Two behaviours of the code are easy to misread, and the model follows the code in both:
- `getHours` (src/getAvailabilities.js:13-15) starts its cursor 30 minutes before `starts_at` and advances it before each push. The first label is therefore `starts_at` itself, not `starts_at + 30`. This matches the tests' `9:00 … 11:30` for 09:00–12:00 (`Slots.SlotLabelsExactly`).
- When the query comes a week or more before a weekly event's start, the truncated week difference is negative. Line 32 then moves the cursor back by that many weeks; it does not leave the start date in place. The model keeps this: `Scenarios.LateOpeningBeforeItStarts` shows the weekly event's slots on a date four years before its first occurrence.

## Model

The rows name the lemmas and methods whose contracts state each property. The definitions they are stated about are these: `Occurrences.WeeksToSkip`, `WeeksCount`, `WeeklyDates` and `CandidateDates` (src/getAvailabilities.js:26-38); `DayBuckets.Append` (src/getAvailabilities.js:45-50), `Lookup`, `OnDates`, `AddEvent` and `DaysWithEvents` (src/getAvailabilities.js:25-59); `Events.OrderByStart` and `SelectedEvents` (src/getAvailabilities.js:4-10); and `Availability.Availabilities` (src/getAvailabilities.js:64-89). Each is covered by the rows of the lemmas about it.

| member | source | states |
|---|---|---|
| Time.TruncDiv | src/getAvailabilities.js:27 | the whole weeks between two instants, rounded toward zero: non-negative and at most the true quotient for a non-negative difference, non-positive and at least the true quotient for a negative one |
| Time.Ceil | src/getAvailabilities.js:33 | `Math.ceil(a / b)`: the least integer r with a <= r·b |
| Time.AddDays | src/getAvailabilities.js:73 | moving an instant by i days moves its date by i and keeps its time of day |
| Time.AddWeeks | src/getAvailabilities.js:32-35 | moving an instant by j weeks moves its date by 7j days and keeps its time of day |
| Events.Where | src/getAvailabilities.js:8-10 | a row is kept exactly when it is weekly or ends strictly after the query instant; the result is never longer than the table |
| Events.WhereAll | src/getAvailabilities.js:8-10 | a table all of whose rows are selected passes through whole, in its order |
| Events.WhereConcat | src/getAvailabilities.js:8-10 | selection works row by row: selecting a concatenation selects each part |
| Events.InsertPermutes | src/getAvailabilities.js:7 | inserting a row into a list adds exactly that row |
| Events.InsertByStart | src/getAvailabilities.js:7 | inserting into a list ordered by start keeps it ordered by start |
| Events.OrderByStartPermutes | src/getAvailabilities.js:7 | the sort returns the same rows, each as often |
| Events.OrderByStartSorted | src/getAvailabilities.js:7 | the sort returns its rows in ascending `starts_at` |
| Events.OrderByStartOrdered | src/getAvailabilities.js:7 | rows already in start order come back unchanged |
| Events.SelectedEventsOrdered | src/getAvailabilities.js:4-10 | `getEvents` returns the selected rows, each as often as the table holds it, in ascending `starts_at`; a row is returned exactly when it is weekly or ends after the query |
| Events.SelectedEventsSkipEnded | src/getAvailabilities.js:9 | a one-off event that ended by the query instant changes nothing, wherever it sits in the table |
| Slots.SlotLabels | src/getAvailabilities.js:12-20 | an event gets no labels exactly when it does not end after it starts |
| Slots.SlotLabelsExactly | src/getAvailabilities.js:12-20 | label k exists exactly when `starts_at + 30k < ends_at`, and it is the time of day of that instant: labels start at `starts_at` and ascend 30 minutes apart |
| Slots.GetHours | src/getAvailabilities.js:12-20 | the cursor loop returns exactly the event's labels |
| Slots.FormatLabel | src/getAvailabilities.js:16 | `"H:mm"` text: four characters before 10:00 and five from then on, decimal digits everywhere except a colon before the last two, a first minute digit of at most 5, a leading "0" only in the hour after midnight, and reading the digits back as hours and minutes gives the label |
| Slots.FormatInjective | src/getAvailabilities.js:16 | two labels print alike exactly when they are equal |
| Slots.FormatCommutesWithWithout | src/getAvailabilities.js:81 | filtering minute labels and then printing them gives what filtering the printed strings gives |
| Slots.Without | src/getAvailabilities.js:81 | an element is kept exactly when it is in the list and nowhere among the removed ones; the result is never longer |
| Slots.WithoutConcat | src/getAvailabilities.js:81 | the filter keeps the order of the list: filtering a concatenation filters each part in place |
| Slots.WithoutCount | src/getAvailabilities.js:81 | every kept element keeps its multiplicity and every removed one vanishes |
| Slots.WithoutDisjoint | src/getAvailabilities.js:81 | a list none of whose elements is removed comes through unchanged |
| Slots.WithoutCovered | src/getAvailabilities.js:81 | a list all of whose elements are removed vanishes |
| Slots.WithoutCutsOut | src/getAvailabilities.js:81 | a removed stretch in the middle of a list is cut out and the parts around it close up |
| Occurrences.WeeklyDatesAt | src/getAvailabilities.js:34-37 | the recurrence loop pushes one date per remaining step, the k-th being 7(k+1) days after the cursor's date |
| Occurrences.CandidateDatesExactly | src/getAvailabilities.js:26-38 | a one-off event's only candidate is its own date; a weekly one has its own date, then `base + 7i` days for i = 1 .. ceil(daysFromDate/7), where base is its date plus the truncated weeks to the query |
| Occurrences.EventDates | src/getAvailabilities.js:26-38 | the cursor loop pushes exactly the candidate dates |
| Occurrences.CandidatesAreOccurrences | src/getAvailabilities.js:26-38 | every candidate falls on the event's weekday, and none is before the start date unless the query comes two weeks or more before the start |
| Occurrences.RecurringCoverage | src/getAvailabilities.js:27-37 | a weekly event's candidates include every window date `start + 7j`, for any window length, when the query is within a week after the start, earlier than that, or earlier in the day than the event |
| DayBuckets.OnDatesRebuildsFromCollector | src/getAvailabilities.js:40-53 | each listed date is rebuilt from the outer collector, so a date listed twice gets the event's labels once; other dates keep their entry |
| DayBuckets.ContributionsConcat | src/getAvailabilities.js:47-50 | a date's labels are those of the earlier events followed by those of the later ones, never re-sorted |
| DayBuckets.DaysWithEventsPerDate | src/getAvailabilities.js:25-59 | after the fold, each date's entry (empty lists when absent) holds, per kind, the labels of every event of that kind having the date among its candidates, once per event, in event order |
| DayBuckets.SelectsInheritedTag | src/getAvailabilities.js:4-10 | the store selects an event with an inherited kind tag exactly when one of the events `getEvents` returns has one |
| DayBuckets.GetDaysWithEvents | src/getAvailabilities.js:22-62 | the call rejects exactly when the store selects an event whose kind tag names an `Object.prototype` member, which line 48 tries to spread; otherwise the outer loop over the store's events builds exactly that map |
| Availability.EmptyWindow | src/getAvailabilities.js:65-74 | one entry per window day, keyed by its date, holding the query instant moved that many days and no slots; the keys are set in ascending date order |
| Availability.FillSlots | src/getAvailabilities.js:78-86 | each window day with a bucket gets its openings minus its appointments appended; other days are unchanged; bucket dates outside the window are dropped |
| Availability.Values | src/getAvailabilities.js:88 | the entries come out in the order their keys were set |
| Availability.GetAvailabilities | src/getAvailabilities.js:64-89 | the call rejects exactly when `getDaysWithEvents` does, that is when the store selects an event with an inherited kind tag; otherwise it resolves to the specification `Availabilities` of the store's selected events |
| Availability.AssembledWindow | src/getAvailabilities.js:64-89 | the window EmptyWindow builds, filled by FillSlots from a bucket map holding each date's contributions from the events and read in key order, is exactly the specification `Availabilities` of those events |
| Availability.AssembledDay | src/getAvailabilities.js:79-85 | a day assembled from its bucket, or from nothing when it has none, is that day of the specification when the bucket holds the date's contributions |
| Availability.WindowShape | src/getAvailabilities.js:67-74 | the result has `daysFromDate` entries (none for 0 or less); entry i is on the query's date plus i days, at the query's time of day |
| Availability.NoEventsNoSlots | src/getAvailabilities.test.js:7-46 | with no events every day of every window has no slots |
| Availability.SlotsAreOpeningsMinusAppointments | src/getAvailabilities.js:80-85 | a label is a slot of a day exactly when it is among the day's openings and not among its appointments, and it occurs as often as in the openings |
| Availability.SlotsFollowEventOrder | src/getAvailabilities.js:47-50 | the openings of earlier events come first in a day's slots, each part filtered by the whole day's appointments |
| Availability.IgnoredEvent | src/getAvailabilities.js:78-85 | an event of another kind, or one none of whose candidates is a window day, changes nothing in the result |
| Availability.RecurringOpeningOnItsWeekday | src/getAvailabilities.js:26-38 | a weekly opening alone in the store shows all its labels on every window day that is its start date plus whole weeks, under the conditions of RecurringCoverage |
| Scenarios.NineToNoonLabels | src/getAvailabilities.test.js:73-80 | 09:00–12:00 gives the labels "9:00", "9:30", "10:00", "10:30", "11:00", "11:30" |
| Scenarios.NineToNoonEveryWeek | src/getAvailabilities.test.js:60-83 | with the weekly 09:00–12:00 opening, every window day on a Monday from 2014-08-04 on gets those six labels, for a midnight query of any day and a window of any length |
| Scenarios.NineToNoonTests | src/getAvailabilities.test.js:85-113 | the instances the recurrence tests check: 1365 days from 2014-08-11, 100 days from 2018-01-12, 200 days from 2022-01-12, windows of 1 to 6 days, and day 1 of the window from 2014-08-10 |
| Scenarios.MixedEventsSorted | src/getAvailabilities.js:7 | the rows of the "multiple events" test, in the test's insertion order, come out of the sort in start order |
| Scenarios.MixedEventsSelected | src/getAvailabilities.test.js:116-145 | the store returns every row of that test, ordered by start, for the query 2014-08-10 |
| Scenarios.MixedEventsWindow | src/getAvailabilities.test.js:147-179 | the window has seven days, the first has no slots, and the seventh is 2014-08-16 |
| Scenarios.MixedEventsSecondDay | src/getAvailabilities.test.js:156-164 | on 2014-08-11 the weekly opening loses 10:30 and 11:00 to the appointment |
| Scenarios.MixedEventsThirdDay | src/getAvailabilities.test.js:166-175 | on 2014-08-12 the two openings, in event order, lose everything from 09:30 to 15:00 |
| Scenarios.EleventhTexts | src/getAvailabilities.test.js:159-164 | the texts of the 2014-08-11 labels are "9:30", "10:00", "11:30", "12:00" |
| Scenarios.TwelfthTexts | src/getAvailabilities.test.js:166-175 | the texts of the 2014-08-12 labels are "8:00" … "17:30" as listed |
| Scenarios.LateOpeningSelected | src/getAvailabilities.test.js:240-255 | the store returns the third case's table as it is |
| Scenarios.LateOpeningCandidates | src/getAvailabilities.js:26-38 | for the opening that starts on 2018-08-04, queried from 2014-08-10, the weeks to skip are -207 and the candidates reach back to 2014-08-23 |
| Scenarios.LateOpeningScenario | src/getAvailabilities.test.js:257-270 | the third case: the first and last days of the 7-day window have no slots |
| Scenarios.LateOpeningBeforeItStarts | src/getAvailabilities.js:27-37 | with a 14-day window the same store shows the opening's labels on 2014-08-23, four years before it starts |
| Scenarios.QueryAtOpeningTime | src/getAvailabilities.js:27-37 | a query at 09:00 on 2014-08-11, a week after the opening starts and at its time of day, skips the 11th: its first window day gets nothing |
| Scenarios.QueryBeforeOpening | src/getAvailabilities.js:29-53 | a query on 2014-07-25 lists the start date twice, and that date still gets the labels once |

## Left out

- The knex query (`src/getAvailabilities.js:4-10`) is not executed. Its result is modelled as a function of the table (`Events.SelectedEvents`).
- Events.OrderByStart: SQL leaves the order of rows with equal `starts_at` open. The model keeps their table order, so a day's slots for two openings starting together may come out in the other order in a real store.
- `async`/`await` are left out: they are plumbing with a single suspension point.
- moment.js time zones, daylight saving and locales are left out. Every day has 1440 minutes, and dates are day numbers on one local timeline.
- Seconds and milliseconds are left out. Instants are whole minutes, as every instant in the tests is.
- The `"D-MM-YYYY"` keys are replaced by day numbers. Distinct dates have distinct keys, so the map is keyed the same way.
- Labels are kept as minutes of the day. Their text is `Slots.FormatLabel`, and `Slots.FormatCommutesWithWithout` shows that filtering the texts is filtering the minutes. The results are stated on minutes.
- A non-integer `daysFromDate` is left out. The window length is an `int`, and a non-positive value gives an empty window, as the `for` loop does.
- Availability.IgnoredEvent: it states what the window a call resolves to does with another kind. A tag that names an `Object.prototype` member ("toString", "constructor", "__proto__" and the rest of `DayBuckets.PrototypeNames`) is not ignored by the source: line 48 spreads the inherited member and throws. `DayBuckets.GetDaysWithEvents` and `Availability.GetAvailabilities` model that rejection. Members added to `Object.prototype` by other code are not modelled.
- Events.Kind: `Other` stands for the tags other than "opening" and "appointment" and is never given those two strings. The model does not enforce this with a subset type, because that made the proofs about kinds too costly for the verifier.
- DayBuckets.Bucket keeps only the `opening` and `appointment` lists. The lists of other kind tags are never read by `getAvailabilities`. A date that only such an event touches still gets an entry, which `FillSlots` fills with no labels.
- Availability.FillSlots visits the bucket dates in an order it chooses. `Object.keys` order is therefore not modelled; each visit touches only its own date's entry, so the order cannot change the result.
- Availability.GetAvailabilities returns a fresh sequence of values. The in-place update of `availabilityDay.slots` through the `Map`'s shared objects is modelled as replacing the entry.
- The edge behaviours of the recurrence rule are kept as written, not corrected. `LateOpeningBeforeItStarts`, `QueryAtOpeningTime` and `QueryBeforeOpening` exhibit them:
  - a query two weeks or more before a weekly event's start can give slots before its first occurrence;
  - a query a week or more after the start, at or after the event's time of day, misses the query's own day when that day falls on the event's weekday;
  - a query between one and two weeks before the start has a skip of -1 and lists the start date twice, which is harmless.
- The test harness's table truncation, inserts and `console.log` output are left out. The "case 2" test (the "multiple events" store without its 2014-08-12 rows) is not stated as a scenario of its own.
