/** Occurrence dates: the calendar dates one event contributes its slots to
    for a query instant and a window length. */
module Occurrences {
  import opened Time
  import opened Events

  /** `moment(queryDate).diff(starts_at, 'weeks')`: the whole weeks from the
      event's start to the query instant, truncated toward zero, so negative
      when the query comes first. */
  function WeeksToSkip(queryDate: Instant, startsAt: Instant): int
  {
    TruncDiv(queryDate - startsAt, MinutesPerWeek)
  }

  /** `Math.ceil(daysFromDate / 7)`: how many weeks the recurrence loop adds. */
  function WeeksCount(daysFromDate: int): int
  {
    Ceil(daysFromDate, DaysPerWeek)
  }

  /** The dates the recurrence loop pushes from a cursor at `eventDate` with
      `weeksCount` steps left: each step advances the cursor a week and pushes
      the date it lands on. */
  function WeeklyDates(eventDate: Instant, weeksCount: int): seq<Date>
    decreases weeksCount
  {
    if weeksCount > 0 then
      [Day(eventDate + MinutesPerWeek)] + WeeklyDates(eventDate + MinutesPerWeek, weeksCount - 1)
    else
      []
  }

  /** The candidate dates of one event: its own start date, then, for a weekly
      event, one date per week after the start moved forward by WeeksToSkip weeks. */
  function CandidateDates(event: Event, queryDate: Instant, daysFromDate: int): seq<Date>
  {
    [Day(event.startsAt)] +
    if event.weeklyRecurring then
      WeeklyDates(event.startsAt + WeeksToSkip(queryDate, event.startsAt) * MinutesPerWeek, WeeksCount(daysFromDate))
    else
      []
  }

  /** The recurrence loop pushes one date per remaining step, a week apart. */
  lemma {:induction false} WeeklyDatesAt(eventDate: Instant, weeksCount: int, k: nat)
    ensures |WeeklyDates(eventDate, weeksCount)| == if weeksCount > 0 then weeksCount else 0
    ensures k < |WeeklyDates(eventDate, weeksCount)| ==>
              WeeklyDates(eventDate, weeksCount)[k] == Day(eventDate) + DaysPerWeek * (k + 1)
    decreases weeksCount
  {
    if weeksCount > 0 {
      AddWeeks(eventDate, 1);
      if k > 0 {
        WeeklyDatesAt(eventDate + MinutesPerWeek, weeksCount - 1, k - 1);
      } else {
        WeeklyDatesAt(eventDate + MinutesPerWeek, weeksCount - 1, 0);
      }
    }
  }

  /** Lines 26-38 of the source: a one-off event has only its own date; a weekly
      event has its own date followed by `base + 7k` days for k = 1 ..
      ceil(daysFromDate / 7), where `base` is the start date moved by the
      truncated number of weeks between start and query. */
  lemma CandidateDatesExactly(event: Event, queryDate: Instant, daysFromDate: int, i: nat)
    ensures |CandidateDates(event, queryDate, daysFromDate)|
         == 1 + if event.weeklyRecurring && WeeksCount(daysFromDate) > 0 then WeeksCount(daysFromDate) else 0
    ensures CandidateDates(event, queryDate, daysFromDate)[0] == Day(event.startsAt)
    ensures 1 <= i < |CandidateDates(event, queryDate, daysFromDate)| ==>
              CandidateDates(event, queryDate, daysFromDate)[i]
              == Day(event.startsAt) + DaysPerWeek * (WeeksToSkip(queryDate, event.startsAt) + i)
  {
    if event.weeklyRecurring {
      var skip := WeeksToSkip(queryDate, event.startsAt);
      var base := event.startsAt + skip * MinutesPerWeek;
      WeeklyDatesAt(base, WeeksCount(daysFromDate), if i > 0 then i - 1 else 0);
      AddWeeks(event.startsAt, skip);
    }
  }

  /** `getDaysWithEvents`, lines 26-38: the list of dates starts with the
      event's own date; for a weekly event the cursor is moved by the weeks
      to skip and then pushed forward a week at a time while `weeksCount`
      counts down. */
  method EventDates(event: Event, queryDate: Instant, daysFromDate: int) returns (eventDates: seq<Date>)
    ensures eventDates == CandidateDates(event, queryDate, daysFromDate)
  {
    var eventDate := event.startsAt;
    var weeksToSkip := WeeksToSkip(queryDate, eventDate);
    eventDates := [Day(eventDate)];
    if event.weeklyRecurring {
      eventDate := eventDate + weeksToSkip * MinutesPerWeek;
      var weeksCount := WeeksCount(daysFromDate);
      while weeksCount > 0
        invariant eventDates + WeeklyDates(eventDate, weeksCount) == CandidateDates(event, queryDate, daysFromDate)
        decreases weeksCount
      {
        eventDate := eventDate + MinutesPerWeek;
        eventDates := eventDates + [Day(eventDate)];
        weeksCount := weeksCount - 1;
      }
    }
  }

  /** Every candidate of an event falls on the event's weekday; when the query is
      less than two weeks before the event's start (WeeksToSkip >= -1), no
      candidate is earlier than the start date. */
  lemma CandidatesAreOccurrences(event: Event, queryDate: Instant, daysFromDate: int, d: Date)
    requires d in CandidateDates(event, queryDate, daysFromDate)
    ensures (d - Day(event.startsAt)) % DaysPerWeek == 0
    ensures queryDate - event.startsAt > -2 * MinutesPerWeek ==> d >= Day(event.startsAt)
  {
    var c := CandidateDates(event, queryDate, daysFromDate);
    var i :| 0 <= i < |c| && c[i] == d;
    CandidateDatesExactly(event, queryDate, daysFromDate, i);
  }

  /** A weekly event's candidates include every date of the window that is its
      start date plus a whole number of weeks, provided the query is within a
      week after the start or earlier, or its time of day is earlier than the
      event's (as for a query at midnight). This holds for windows of any
      length, including those shorter than a week, because the week count is
      rounded up. */
  lemma RecurringCoverage(event: Event, queryDate: Instant, daysFromDate: int, j: nat)
    requires event.weeklyRecurring
    requires queryDate < event.startsAt + MinutesPerWeek || TimeOfDay(queryDate) < TimeOfDay(event.startsAt)
    requires Day(queryDate) <= Day(event.startsAt) + DaysPerWeek * j < Day(queryDate) + daysFromDate
    ensures Day(event.startsAt) + DaysPerWeek * j in CandidateDates(event, queryDate, daysFromDate)
  {
    var s := event.startsAt;
    var c := CandidateDates(event, queryDate, daysFromDate);
    if j > 0 {
      var skip := WeeksToSkip(queryDate, s);
      var count := WeeksCount(daysFromDate);
      // the occurrence comes after the base the loop starts from ...
      if queryDate - s >= 0 && queryDate >= s + MinutesPerWeek && j <= skip {
        DayMonotone(s + j * MinutesPerWeek, queryDate);
        AddWeeks(s, j);
        assert false;
      }
      assert j > skip;
      // ... and no later than the last week it pushes
      if queryDate - s >= 0 {
        DayMonotone(queryDate, s + (skip + 1) * MinutesPerWeek);
        AddWeeks(s, skip + 1);
      } else {
        DayMonotone(queryDate, s + skip * MinutesPerWeek);
        AddWeeks(s, skip);
      }
      assert j - skip <= count;
      CandidateDatesExactly(event, queryDate, daysFromDate, j - skip);
      assert c[j - skip] == Day(s) + DaysPerWeek * j;
    } else {
      CandidateDatesExactly(event, queryDate, daysFromDate, 0);
    }
  }
}
