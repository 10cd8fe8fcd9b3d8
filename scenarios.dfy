/** Concrete calls of the engine: the scenarios of src/getAvailabilities.test.js
    and three inputs that show how the recurrence rule behaves at its edges.
    Dates are day numbers counted from 1970-01-01; every query is at midnight. */
module Scenarios {
  import opened Time
  import opened Events
  import opened Slots
  import opened Occurrences
  import opened DayBuckets
  import opened Availability

  const Jul25_2014: Date := 16276
  const Aug04_2014: Date := 16286
  const Aug10_2014: Date := 16292
  const Aug11_2014: Date := 16293
  const Aug12_2014: Date := 16294
  const Aug16_2014: Date := 16298
  const Jan12_2018: Date := 17543
  const Aug04_2018: Date := 17747
  const Jan12_2022: Date := 19004

  /** The instant `minutes` after midnight of `day`. */
  function At(day: Date, minutes: int): Instant
  {
    day * MinutesPerDay + minutes
  }

  /** Minutes of the day from `lo`, 30 apart, while before `hi`. */
  function Steps(lo: int, hi: int): seq<int>
    decreases hi - lo
  {
    if lo < hi then [lo] + Steps(lo + Granularity, hi) else []
  }

  /** Within one day, an event's labels are its minutes of the day, 30 apart. */
  lemma {:induction false} SameDayLabels(day: Date, lo: int, hi: int)
    requires 0 <= lo && hi <= MinutesPerDay
    ensures SlotLabels(At(day, lo), At(day, hi)) == Steps(lo, hi)
    decreases hi - lo
  {
    if lo < hi {
      DivisionUnique(At(day, lo), day, lo);
      SameDayLabels(day, lo + Granularity, hi);
      assert At(day, lo) + Granularity == At(day, lo + Granularity);
    }
  }

  /** The weekly opening 2014-08-04 09:00–12:00 of the recurrence tests. */
  function NineToNoon(): Event
  {
    Event(Opening, At(Aug04_2014, 540), At(Aug04_2014, 720), true)
  }

  /** The events of the "multiple events" test, as the store returns them: by start
      (MixedEventsSelected). */
  function MixedEvents(): seq<Event>
  {
    [ Event(Opening, At(Aug04_2014, 570), At(Aug04_2014, 750), true),
      Event(Appointment, At(Aug11_2014, 630), At(Aug11_2014, 690), false),
      Event(Opening, At(Aug12_2014, 480), At(Aug12_2014, 660), false),
      Event(Appointment, At(Aug12_2014, 570), At(Aug12_2014, 930), false),
      Event(Opening, At(Aug12_2014, 780), At(Aug12_2014, 1080), false) ]
  }

  /** 09:00–12:00 gives the six labels "9:00" … "11:30". */
  lemma NineToNoonLabels()
    ensures SlotLabels(NineToNoon().startsAt, NineToNoon().endsAt) == [540, 570, 600, 630, 660, 690]
    ensures FormatLabel(540) == "9:00" && FormatLabel(570) == "9:30" && FormatLabel(600) == "10:00"
    ensures FormatLabel(630) == "10:30" && FormatLabel(660) == "11:00" && FormatLabel(690) == "11:30"
  {
    SameDayLabels(Aug04_2014, 540, 720);
    assert Steps(540, 720) == [540, 570, 600, 630, 660, 690];
  }

  /** Candidate dates of the five events for the query 2014-08-10 and 7 days. */
  lemma MixedEventsDates()
    ensures var events, q := MixedEvents(), At(Aug10_2014, 0);
            CandidateDates(events[0], q, 7) == [Aug04_2014, Aug11_2014] &&
            CandidateDates(events[1], q, 7) == [Aug11_2014] &&
            CandidateDates(events[2], q, 7) == [Aug12_2014] &&
            CandidateDates(events[3], q, 7) == [Aug12_2014] &&
            CandidateDates(events[4], q, 7) == [Aug12_2014]
  {
  }

  /** Labels of the five events. */
  lemma MixedEventsLabels()
    ensures var events := MixedEvents();
            SlotLabels(events[0].startsAt, events[0].endsAt) == [570, 600, 630, 660, 690, 720] &&
            SlotLabels(events[1].startsAt, events[1].endsAt) == [630, 660] &&
            SlotLabels(events[2].startsAt, events[2].endsAt) == [480, 510, 540, 570, 600, 630] &&
            SlotLabels(events[3].startsAt, events[3].endsAt)
              == [570, 600, 630, 660, 690, 720, 750, 780, 810, 840, 870, 900] &&
            SlotLabels(events[4].startsAt, events[4].endsAt)
              == [780, 810, 840, 870, 900, 930, 960, 990, 1020, 1050]
  {
    SameDayLabels(Aug04_2014, 570, 750);
    SameDayLabels(Aug11_2014, 630, 690);
    SameDayLabels(Aug12_2014, 480, 660);
    SameDayLabels(Aug12_2014, 570, 930);
    SameDayLabels(Aug12_2014, 780, 1080);
  }

  /** The labels the 10th receives: no opening. */
  lemma MixedEventsTenth()
    ensures Contributions(MixedEvents(), At(Aug10_2014, 0), 7, Aug10_2014, Opening) == []
  {
    MixedEventsDates();
    MixedEventsLabels();
    var events := MixedEvents();
    assert events[1..][1..][1..][1..][1..] == [];
  }

  /** The labels the 11th receives: the weekly opening and one appointment. */
  lemma MixedEventsEleventh()
    ensures Contributions(MixedEvents(), At(Aug10_2014, 0), 7, Aug11_2014, Opening) == [570, 600, 630, 660, 690, 720]
    ensures Contributions(MixedEvents(), At(Aug10_2014, 0), 7, Aug11_2014, Appointment) == [630, 660]
  {
    MixedEventsDates();
    MixedEventsLabels();
    var events := MixedEvents();
    assert events[1..][1..][1..][1..][1..] == [];
  }

  /** The labels the 12th receives: two openings, in event order, and one appointment. */
  lemma MixedEventsTwelfth()
    ensures Contributions(MixedEvents(), At(Aug10_2014, 0), 7, Aug12_2014, Opening)
         == [480, 510, 540, 570, 600, 630] + [780, 810, 840, 870, 900, 930, 960, 990, 1020, 1050]
    ensures Contributions(MixedEvents(), At(Aug10_2014, 0), 7, Aug12_2014, Appointment)
         == [570, 600, 630, 660, 690, 720, 750, 780, 810, 840, 870, 900]
  {
    MixedEventsDates();
    MixedEventsLabels();
    var events := MixedEvents();
    assert events[1..][1..][1..][1..][1..] == [];
  }

  /** The table of the "multiple events" test, in the order the test inserts
      its rows: the 11th's appointment, the weekly opening, the 12th's
      afternoon opening, its morning opening, its appointment. */
  function MixedEventsTable(): seq<Event>
  {
    var m := MixedEvents();
    [m[1], m[0], m[4], m[2], m[3]]
  }

  /** A row that starts no later than the head of a list goes in front of it. */
  lemma InsertAhead(event: Event, sorted: seq<Event>)
    requires sorted == [] || event.startsAt <= sorted[0].startsAt
    ensures Insert(event, sorted) == [event] + sorted
  {
  }

  /** A row that starts after the head of a list goes somewhere behind it. */
  lemma InsertBehind(event: Event, head: Event, tail: seq<Event>)
    requires head.startsAt < event.startsAt
    ensures Insert(event, [head] + tail) == [head] + Insert(event, tail)
  {
    assert ([head] + tail)[1..] == tail;
  }

  /** The sort inserts the first row into the sorted rest. */
  lemma OrderByStartCons(event: Event, rest: seq<Event>)
    ensures OrderByStart([event] + rest) == Insert(event, OrderByStart(rest))
  {
    assert ([event] + rest)[1..] == rest;
  }

  /** Two rows already in start order stay as they are. */
  lemma SortTwo(a: Event, b: Event)
    requires a.startsAt <= b.startsAt
    ensures OrderByStart([a, b]) == [a, b]
  {
    OrderByStartCons(a, [b]);
    OrderByStartCons(b, []);
    InsertAhead(b, []);
    InsertAhead(a, [b]);
  }

  /** A row starting after two others goes behind both. */
  lemma InsertLast(a: Event, b: Event, c: Event)
    requires a.startsAt < c.startsAt && b.startsAt < c.startsAt
    ensures Insert(c, [a, b]) == [a, b, c]
  {
    InsertBehind(c, a, [b]);
    InsertBehind(c, b, []);
    InsertAhead(c, []);
  }

  /** The last three rows the test inserts, (e4, e2, e3), come out of the
      sort as e2, e3, e4. */
  lemma SortThree(e2: Event, e3: Event, e4: Event)
    requires e2.startsAt <= e3.startsAt < e4.startsAt
    ensures OrderByStart([e4, e2, e3]) == [e2, e3, e4]
  {
    OrderByStartCons(e4, [e2, e3]);
    SortTwo(e2, e3);
    InsertLast(e2, e3, e4);
  }

  /** The last four rows the test inserts, (e0, e4, e2, e3), come out of the
      sort as e0, e2, e3, e4. */
  lemma SortFour(e0: Event, e2: Event, e3: Event, e4: Event)
    requires e0.startsAt <= e2.startsAt <= e3.startsAt < e4.startsAt
    ensures OrderByStart([e0, e4, e2, e3]) == [e0, e2, e3, e4]
  {
    OrderByStartCons(e0, [e4, e2, e3]);
    assert [e0] + [e4, e2, e3] == [e0, e4, e2, e3];
    SortThree(e2, e3, e4);
    InsertAhead(e0, [e2, e3, e4]);
    assert [e0] + [e2, e3, e4] == [e0, e2, e3, e4];
  }

  /** A row starting after the head of a list but no later than the rest goes second. */
  lemma InsertSecond(head: Event, event: Event, rest: seq<Event>)
    requires head.startsAt < event.startsAt
    requires rest == [] || event.startsAt <= rest[0].startsAt
    ensures Insert(event, [head] + rest) == [head, event] + rest
  {
    InsertBehind(event, head, rest);
    InsertAhead(event, rest);
  }

  /** Five rows inserted in the test's order, (e1, e0, e4, e2, e3), come out
      of the sort as e0 … e4 when their starts are ordered that way. */
  lemma SortFive(e0: Event, e1: Event, e2: Event, e3: Event, e4: Event)
    requires e0.startsAt < e1.startsAt <= e2.startsAt <= e3.startsAt < e4.startsAt
    ensures OrderByStart([e1, e0, e4, e2, e3]) == [e0, e1, e2, e3, e4]
  {
    SortFour(e0, e2, e3, e4);
    OrderByStartCons(e1, [e0, e4, e2, e3]);
    assert [e1] + [e0, e4, e2, e3] == [e1, e0, e4, e2, e3];
    InsertSecond(e0, e1, [e2, e3, e4]);
    assert [e0, e1] + [e2, e3, e4] == [e0, e1, e2, e3, e4];
  }

  /** Sorting that table by start gives the events in the order MixedEvents lists them. */
  lemma MixedEventsSorted()
    ensures OrderByStart(MixedEventsTable()) == MixedEvents()
  {
    var m := MixedEvents();
    SortFive(m[0], m[1], m[2], m[3], m[4]);
  }

  /** For the query 2014-08-10 the store selects every row of that table and
      returns them by start. */
  lemma MixedEventsSelected()
    ensures SelectedEvents(MixedEventsTable(), At(Aug10_2014, 0)) == MixedEvents()
  {
    WhereAll(MixedEventsTable(), At(Aug10_2014, 0));
    MixedEventsSorted();
  }

  /** The "multiple events" test, query 2014-08-10: seven days, the seventh
      being the 16th, and nothing on the first day. */
  lemma MixedEventsWindow()
    ensures var r := Availabilities(MixedEvents(), At(Aug10_2014, 0), 7);
            |r| == 7 && r[0].slots == [] && r[6].date == At(Aug16_2014, 0)
  {
    var events, q := MixedEvents(), At(Aug10_2014, 0);
    MixedEventsTenth();
    AvailabilityAt(events, q, 7, 0);
    AvailabilityAt(events, q, 7, 6);
  }

  /** The 11th's weekly opening 09:30–12:30 minus its 10:30–11:30 appointment. */
  lemma EleventhFilter()
    ensures Without<Label>([570, 600, 630, 660, 690, 720], [630, 660]) == [570, 600, 690, 720]
  {
    assert [570, 600, 630, 660, 690, 720] == [570, 600] + [630, 660] + [690, 720];
    WithoutCutsOut<Label>([570, 600], [630, 660], [690, 720], [630, 660]);
  }

  /** The 12th's openings 08:00–11:00 and 13:00–18:00 minus its 09:30–15:30 appointment. */
  lemma TwelfthFilter()
    ensures Without<Label>([480, 510, 540, 570, 600, 630] + [780, 810, 840, 870, 900, 930, 960, 990, 1020, 1050],
                    [570, 600, 630, 660, 690, 720, 750, 780, 810, 840, 870, 900])
         == [480, 510, 540, 930, 960, 990, 1020, 1050]
  {
    var early, late := [480, 510, 540, 570, 600, 630], [780, 810, 840, 870, 900, 930, 960, 990, 1020, 1050];
    assert early == [480, 510, 540] + [570, 600, 630];
    assert late == [780, 810, 840, 870, 900] + [930, 960, 990, 1020, 1050];
    var inside := [570, 600, 630] + [780, 810, 840, 870, 900];
    assert inside == [570, 600, 630, 780, 810, 840, 870, 900];
    assert early + late == [480, 510, 540] + inside + [930, 960, 990, 1020, 1050];
    WithoutCutsOut<Label>([480, 510, 540], [570, 600, 630, 780, 810, 840, 870, 900], [930, 960, 990, 1020, 1050],
                   [570, 600, 630, 660, 690, 720, 750, 780, 810, 840, 870, 900]);
  }

  /** On the 11th the weekly opening loses 10:30 and 11:00 to the appointment. */
  lemma MixedEventsSecondDay()
    ensures Availabilities(MixedEvents(), At(Aug10_2014, 0), 7)[1].slots == [570, 600, 690, 720]
  {
    AvailabilityAt(MixedEvents(), At(Aug10_2014, 0), 7, 1);
    MixedEventsEleventh();
    EleventhFilter();
  }

  /** On the 12th the two openings keep their event order around the
      09:30–15:30 appointment. */
  lemma MixedEventsThirdDay()
    ensures Availabilities(MixedEvents(), At(Aug10_2014, 0), 7)[2].slots
         == [480, 510, 540, 930, 960, 990, 1020, 1050]
  {
    AvailabilityAt(MixedEvents(), At(Aug10_2014, 0), 7, 2);
    MixedEventsTwelfth();
    TwelfthFilter();
  }

  /** The texts the test expects for the labels of the 11th. */
  lemma EleventhTexts()
    ensures FormatLabel(570) == "9:30" && FormatLabel(600) == "10:00"
    ensures FormatLabel(690) == "11:30" && FormatLabel(720) == "12:00"
  {
  }

  /** The texts the test expects for the labels of the 12th. */
  lemma TwelfthTexts()
    ensures FormatLabel(480) == "8:00" && FormatLabel(510) == "8:30" && FormatLabel(540) == "9:00"
    ensures FormatLabel(930) == "15:30" && FormatLabel(960) == "16:00" && FormatLabel(990) == "16:30"
    ensures FormatLabel(1020) == "17:00" && FormatLabel(1050) == "17:30"
  {
  }

  /** The recurrence tests: with the weekly 09:00–12:00 opening alone in the
      store and a query at midnight of any day, every window day that falls
      on a Monday from 2014-08-04 on shows the six labels, for a window of any
      length. */
  lemma NineToNoonEveryWeek(day: Date, daysFromDate: int, i: int)
    requires 0 <= i < WindowSize(daysFromDate)
    requires day + i >= Aug04_2014 && (day + i - Aug04_2014) % DaysPerWeek == 0
    ensures Availabilities([NineToNoon()], At(day, 0), daysFromDate)[i].slots == [540, 570, 600, 630, 660, 690]
  {
    var q := At(day, 0);
    DivisionUnique(q, day, 0);
    DivisionUnique(NineToNoon().startsAt, Aug04_2014, 540);
    RecurringOpeningOnItsWeekday(NineToNoon(), q, daysFromDate, i);
    NineToNoonLabels();
  }

  /** The instances the tests check: from 2014-08-11 over 1365 days every
      seventh day from the first; from 2018-01-12 over 100 days and from
      2022-01-12 over 200 days every seventh day from the fourth and the
      sixth; and the first day of every window shorter than a week, which
      rounding the week count down would leave empty. */
  lemma NineToNoonTests(i: int, daysFromDate: int)
    ensures 0 <= i < 1365 && i % 7 == 0 ==>
              Availabilities([NineToNoon()], At(Aug11_2014, 0), 1365)[i].slots == [540, 570, 600, 630, 660, 690]
    ensures 0 <= i < 100 && i % 7 == 3 ==>
              Availabilities([NineToNoon()], At(Jan12_2018, 0), 100)[i].slots == [540, 570, 600, 630, 660, 690]
    ensures 0 <= i < 200 && i % 7 == 5 ==>
              Availabilities([NineToNoon()], At(Jan12_2022, 0), 200)[i].slots == [540, 570, 600, 630, 660, 690]
    ensures 0 < daysFromDate < 7 ==>
              Availabilities([NineToNoon()], At(Aug11_2014, 0), daysFromDate)[0].slots == [540, 570, 600, 630, 660, 690]
    ensures Availabilities([NineToNoon()], At(Aug10_2014, 0), 7)[1].slots == [540, 570, 600, 630, 660, 690]
  {
    NineToNoonEveryWeek(Aug10_2014, 7, 1);
    if 0 <= i < 1365 && i % 7 == 0 {
      NineToNoonEveryWeek(Aug11_2014, 1365, i);
    }
    if 0 <= i < 100 && i % 7 == 3 {
      NineToNoonEveryWeek(Jan12_2018, 100, i);
    }
    if 0 <= i < 200 && i % 7 == 5 {
      NineToNoonEveryWeek(Jan12_2022, 200, i);
    }
    if 0 < daysFromDate < 7 {
      NineToNoonEveryWeek(Aug11_2014, daysFromDate, 0);
    }
  }

  /** The store of the third initial test case: the 2014-08-11 appointment
      and a weekly opening that starts only on 2018-08-04. */
  function LateOpening(): seq<Event>
  {
    [ Event(Appointment, At(Aug11_2014, 630), At(Aug11_2014, 690), false),
      Event(Opening, At(Aug04_2018, 570), At(Aug04_2018, 750), true) ]
  }

  /** For the query 2014-08-10 the store returns that table as it is. */
  lemma LateOpeningSelected()
    ensures SelectedEvents(LateOpening(), At(Aug10_2014, 0)) == LateOpening()
  {
    WhereAll(LateOpening(), At(Aug10_2014, 0));
    OrderByStartOrdered(LateOpening());
  }

  /** Queried from 2014-08-10, four years before the opening starts, the
      weeks to skip are -207: the candidates are the start date and, one per
      window week, the dates 206, 205, … weeks before it; 206 weeks before
      is 2014-08-23. */
  lemma LateOpeningCandidates()
    ensures WeeksToSkip(At(Aug10_2014, 0), LateOpening()[1].startsAt) == -207
    ensures Aug04_2018 - 7 * 206 == Aug10_2014 + 13
    ensures CandidateDates(LateOpening()[1], At(Aug10_2014, 0), 7) == [Aug04_2018, Aug10_2014 + 13]
    ensures CandidateDates(LateOpening()[1], At(Aug10_2014, 0), 14) == [Aug04_2018, Aug10_2014 + 13, Aug10_2014 + 20]
  {
    var q, opening := At(Aug10_2014, 0), LateOpening()[1];
    DivisionUnique(opening.startsAt, Aug04_2018, 570);
    assert WeeksToSkip(q, opening.startsAt) == -207;
    CandidateDatesExactly(opening, q, 7, 1);
    CandidateDatesExactly(opening, q, 14, 1);
    CandidateDatesExactly(opening, q, 14, 2);
  }

  /** The appointment labels each date of that store receives. */
  lemma LateOpeningAppointments(daysFromDate: int, d: Date)
    ensures Contributions(LateOpening(), At(Aug10_2014, 0), daysFromDate, d, Appointment)
         == if d == Aug11_2014 then [630, 660] else []
  {
    var events := LateOpening();
    SameDayLabels(Aug11_2014, 630, 690);
    assert events[1..][1..] == [];
  }

  /** The opening labels each date of that store receives. */
  lemma LateOpeningOpenings(daysFromDate: int, d: Date)
    requires daysFromDate == 7 || daysFromDate == 14
    ensures Contributions(LateOpening(), At(Aug10_2014, 0), daysFromDate, d, Opening)
         == if d == Aug04_2018 || d == Aug10_2014 + 13 || (daysFromDate == 14 && d == Aug10_2014 + 20)
            then [570, 600, 630, 660, 690, 720] else []
  {
    var events := LateOpening();
    LateOpeningCandidates();
    SameDayLabels(Aug04_2018, 570, 750);
    assert events[1..][1..] == [];
  }

  /** The test's window of seven days is empty on its first and last days. */
  lemma LateOpeningScenario()
    ensures Availabilities(LateOpening(), At(Aug10_2014, 0), 7)[0].slots == []
    ensures Availabilities(LateOpening(), At(Aug10_2014, 0), 7)[6].slots == []
  {
    var events, q := LateOpening(), At(Aug10_2014, 0);
    DivisionUnique(q, Aug10_2014, 0);
    AvailabilityAt(events, q, 7, 0);
    AvailabilityAt(events, q, 7, 6);
    LateOpeningOpenings(7, Aug10_2014);
    LateOpeningOpenings(7, Aug10_2014 + 6);
  }

  /** A window of fourteen days gets the opening's labels on 2014-08-23,
      four years before the opening's first occurrence. */
  lemma LateOpeningBeforeItStarts()
    ensures Aug10_2014 + 13 < Aug04_2018
    ensures Availabilities(LateOpening(), At(Aug10_2014, 0), 14)[13].slots == [570, 600, 630, 660, 690, 720]
  {
    var events, q := LateOpening(), At(Aug10_2014, 0);
    DivisionUnique(q, Aug10_2014, 0);
    AvailabilityAt(events, q, 14, 13);
    LateOpeningOpenings(14, Aug10_2014 + 13);
    LateOpeningAppointments(14, Aug10_2014 + 13);
    WithoutDisjoint<Label>([570, 600, 630, 660, 690, 720], []);
  }

  /** A query at 09:00 on 2014-08-11, a week after the weekly opening starts
      and at its very time of day: the whole week counts as skipped, so the
      candidates jump from the start date to 2014-08-18 and the window's
      first day, a Monday, gets nothing. */
  lemma QueryAtOpeningTime()
    ensures (Aug11_2014 - Aug04_2014) % DaysPerWeek == 0
    ensures CandidateDates(NineToNoon(), At(Aug11_2014, 540), 7) == [Aug04_2014, Aug11_2014 + 7]
    ensures Availabilities([NineToNoon()], At(Aug11_2014, 540), 7)[0].slots == []
  {
    var q, event := At(Aug11_2014, 540), NineToNoon();
    DivisionUnique(q, Aug11_2014, 540);
    DivisionUnique(event.startsAt, Aug04_2014, 540);
    assert WeeksToSkip(q, event.startsAt) == 1;
    CandidateDatesExactly(event, q, 7, 1);
    AvailabilityAt([event], q, 7, 0);
    assert [event][1..] == [];
  }

  /** A query on 2014-07-25, between one and two weeks before the opening
      starts: the weeks to skip are -1, so the start date is listed twice;
      the second listing rebuilds the date from the collector as it was
      before the event, and the date gets the labels once. */
  lemma QueryBeforeOpening()
    ensures CandidateDates(NineToNoon(), At(Jul25_2014, 0), 14) == [Aug04_2014, Aug04_2014, Aug11_2014]
    ensures Availabilities([NineToNoon()], At(Jul25_2014, 0), 14)[10].slots == [540, 570, 600, 630, 660, 690]
  {
    var q, event := At(Jul25_2014, 0), NineToNoon();
    DivisionUnique(q, Jul25_2014, 0);
    DivisionUnique(event.startsAt, Aug04_2014, 540);
    assert WeeksToSkip(q, event.startsAt) == -1;
    CandidateDatesExactly(event, q, 14, 1);
    CandidateDatesExactly(event, q, 14, 2);
    NineToNoonEveryWeek(Jul25_2014, 14, 10);
  }
}
