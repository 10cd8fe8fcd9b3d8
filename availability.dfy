/** The availability resolver (`getAvailabilities`): one record per calendar
    day of the window, holding that day's opening labels with every
    appointment label of the day removed. */
module Availability {
  import opened Time
  import opened Events
  import opened Slots
  import opened Occurrences
  import opened DayBuckets

  /** `{ date, slots }`: the day's instant (the query's time of day kept) and its free labels. */
  datatype AvailabilityDay = AvailabilityDay(date: Instant, slots: seq<Label>)

  /** The number of days the window loop produces: `daysFromDate`, or none when it is not positive. */
  function WindowSize(daysFromDate: int): nat
  {
    if daysFromDate > 0 then daysFromDate else 0
  }

  /** The free labels of date `d`: the opening labels the date receives, in
      event order, without any label among its appointment labels. */
  function FreeSlots(events: seq<Event>, queryDate: Instant, daysFromDate: int, d: Date): seq<Label>
  {
    Without(Contributions(events, queryDate, daysFromDate, d, Opening),
            Contributions(events, queryDate, daysFromDate, d, Appointment))
  }

  /** What a call returns: day i of the window is the query instant moved
      forward i days, with the free labels of its date. */
  function Availabilities(events: seq<Event>, queryDate: Instant, daysFromDate: int): seq<AvailabilityDay>
  {
    seq(WindowSize(daysFromDate), i requires 0 <= i < WindowSize(daysFromDate) =>
      AvailabilityDay(queryDate + i * MinutesPerDay, FreeSlots(events, queryDate, daysFromDate, Day(queryDate) + i)))
  }

  /** Day i of the result, read off the definition. */
  lemma AvailabilityAt(events: seq<Event>, queryDate: Instant, daysFromDate: int, i: int)
    requires 0 <= i < WindowSize(daysFromDate)
    ensures |Availabilities(events, queryDate, daysFromDate)| == WindowSize(daysFromDate)
    ensures Availabilities(events, queryDate, daysFromDate)[i]
         == AvailabilityDay(queryDate + i * MinutesPerDay, FreeSlots(events, queryDate, daysFromDate, Day(queryDate) + i))
  {
  }

  /** Lines 64-73: one entry per day of the window, keyed by its date, each
      holding the query instant moved that many days and no slots yet; `keys`
      is the order the entries were set in. */
  method EmptyWindow(queryDate: Instant, daysFromDate: int)
    returns (availabilities: map<Date, AvailabilityDay>, keys: seq<Date>)
    ensures |keys| == WindowSize(daysFromDate)
    ensures forall k :: 0 <= k < |keys| ==> keys[k] == Day(queryDate) + k
    ensures forall d :: d in availabilities <==> Day(queryDate) <= d < Day(queryDate) + WindowSize(daysFromDate)
    ensures forall d :: d in availabilities ==>
              availabilities[d] == AvailabilityDay(queryDate + (d - Day(queryDate)) * MinutesPerDay, [])
  {
    availabilities := map[];
    keys := [];
    var tmpDate := queryDate;
    var i := 0;
    while i < daysFromDate
      invariant 0 <= i <= WindowSize(daysFromDate)
      invariant tmpDate == queryDate + i * MinutesPerDay
      invariant |keys| == i && forall k :: 0 <= k < i ==> keys[k] == Day(queryDate) + k
      invariant forall d :: d in availabilities <==> Day(queryDate) <= d < Day(queryDate) + i
      invariant forall d :: d in availabilities ==>
                  availabilities[d] == AvailabilityDay(queryDate + (d - Day(queryDate)) * MinutesPerDay, [])
    {
      AddDays(queryDate, i);
      availabilities := availabilities[Day(tmpDate) := AvailabilityDay(tmpDate, [])];
      keys := keys + [Day(tmpDate)];
      tmpDate := tmpDate + MinutesPerDay;
      i := i + 1;
    }
  }

  /** Lines 77-85: for every date of the bucket map, its openings minus its
      appointments are appended to that date's entry, when the window has
      one; dates outside the window are skipped. The order the dates are
      visited in does not matter, since each touches only its own entry. */
  method FillSlots(availabilities: map<Date, AvailabilityDay>, daysWithEvents: map<Date, Bucket>)
    returns (filled: map<Date, AvailabilityDay>)
    ensures filled.Keys == availabilities.Keys
    ensures forall d :: d in filled ==>
              filled[d] == availabilities[d].(slots := availabilities[d].slots +
                if d in daysWithEvents then Without(daysWithEvents[d].opening, daysWithEvents[d].appointment) else [])
  {
    filled := availabilities;
    var pending := daysWithEvents.Keys;
    while pending != {}
      invariant pending <= daysWithEvents.Keys
      invariant filled.Keys == availabilities.Keys
      invariant forall d :: d in filled ==>
                  filled[d] == availabilities[d].(slots := availabilities[d].slots +
                    if d in daysWithEvents && d !in pending
                    then Without(daysWithEvents[d].opening, daysWithEvents[d].appointment) else [])
      decreases pending
    {
      // a non-empty set has an element
      if forall d :: d !in pending {
        assert false;
      }
      var day :| day in pending;
      var bucket := daysWithEvents[day];
      var availableHours := Without(bucket.opening, bucket.appointment);
      if day in filled {
        var availabilityDay := filled[day];
        filled := filled[day := availabilityDay.(slots := availabilityDay.slots + availableHours)];
      }
      pending := pending - {day};
    }
  }

  /** `getAvailabilities(queryDate, daysFromDate = 7)`, with the store's
      events table passed in as `table`. The insertion-ordered `Map` of the
      source is kept as its entries and its key order. The call rejects when
      `getDaysWithEvents` does, and otherwise resolves to the window. */
  method GetAvailabilities(table: seq<Event>, queryDate: Instant, daysFromDate: int := 7)
    returns (result: Settled<seq<AvailabilityDay>>)
    ensures result.Rejected? <==> exists e :: e in table && Selected(e, queryDate) && InheritedTag(e.kind)
    ensures result.Fulfilled? ==>
              result.value == Availabilities(SelectedEvents(table, queryDate), queryDate, daysFromDate)
  {
    var window, keys := EmptyWindow(queryDate, daysFromDate);
    var settled := GetDaysWithEvents(table, queryDate, daysFromDate);
    if settled.Rejected? {
      result := Rejected;
      return;
    }
    var daysWithEvents := settled.value;
    var availabilities := FillSlots(window, daysWithEvents);
    forall d {
      DaysWithEventsPerDate(SelectedEvents(table, queryDate), queryDate, daysFromDate, d);
    }

    var values := Values(availabilities, keys);
    AssembledWindow(SelectedEvents(table, queryDate), queryDate, daysFromDate,
                    window, keys, daysWithEvents, availabilities, values);
    result := Fulfilled(values);
  }

  /** Line 88, `Array.from(availabilities.values())`: the entries in the order
      their keys were set. */
  method Values(availabilities: map<Date, AvailabilityDay>, keys: seq<Date>) returns (values: seq<AvailabilityDay>)
    requires forall k :: 0 <= k < |keys| ==> keys[k] in availabilities
    ensures |values| == |keys|
    ensures forall k :: 0 <= k < |keys| ==> values[k] == availabilities[keys[k]]
  {
    values := [];
    for k := 0 to |keys|
      invariant |values| == k
      invariant forall j :: 0 <= j < k ==> values[j] == availabilities[keys[j]]
    {
      values := values + [availabilities[keys[k]]];
    }
  }

  /** The resolver's three steps assemble the specification: given the
      window EmptyWindow builds, a bucket map holding each date's
      contributions from `events`, the entries
      FillSlots fills in and the values read in key order, the result is
      `Availabilities(events, …)`. */
  lemma AssembledWindow(events: seq<Event>, queryDate: Instant, daysFromDate: int,
                        window: map<Date, AvailabilityDay>, keys: seq<Date>, daysWithEvents: map<Date, Bucket>,
                        availabilities: map<Date, AvailabilityDay>, result: seq<AvailabilityDay>)
    requires |keys| == WindowSize(daysFromDate)
    requires forall k :: 0 <= k < |keys| ==> keys[k] == Day(queryDate) + k
    requires forall d :: d in window <==> Day(queryDate) <= d < Day(queryDate) + WindowSize(daysFromDate)
    requires forall d :: d in window ==>
               window[d] == AvailabilityDay(queryDate + (d - Day(queryDate)) * MinutesPerDay, [])
    requires forall d :: Lookup(daysWithEvents, d)
               == Bucket(Contributions(events, queryDate, daysFromDate, d, Opening),
                         Contributions(events, queryDate, daysFromDate, d, Appointment))
    requires availabilities.Keys == window.Keys
    requires forall d :: d in availabilities ==>
               availabilities[d] == window[d].(slots := window[d].slots +
                 if d in daysWithEvents then Without(daysWithEvents[d].opening, daysWithEvents[d].appointment) else [])
    requires |result| == |keys|
    requires forall k :: 0 <= k < |keys| ==> keys[k] in availabilities && result[k] == availabilities[keys[k]]
    ensures result == Availabilities(events, queryDate, daysFromDate)
  {
    AssembledEntries(queryDate, daysFromDate, window, keys, daysWithEvents, availabilities, result);
    forall k | 0 <= k < |keys|
      ensures result[k] == Availabilities(events, queryDate, daysFromDate)[k]
    {
      AssembledDay(events, queryDate, daysFromDate, daysWithEvents, k);
    }
    WindowShape(events, queryDate, daysFromDate, 0);
  }

  /** Entry k of the values is day k of the window: its instant, and the
      filtered openings of its bucket when the bucket map has its date. */
  lemma AssembledEntries(queryDate: Instant, daysFromDate: int,
                         window: map<Date, AvailabilityDay>, keys: seq<Date>, daysWithEvents: map<Date, Bucket>,
                         availabilities: map<Date, AvailabilityDay>, result: seq<AvailabilityDay>)
    requires forall k :: 0 <= k < |keys| ==> keys[k] == Day(queryDate) + k
    requires forall d :: d in window ==>
               window[d] == AvailabilityDay(queryDate + (d - Day(queryDate)) * MinutesPerDay, [])
    requires availabilities.Keys == window.Keys
    requires forall d :: d in availabilities ==>
               availabilities[d] == window[d].(slots := window[d].slots +
                 if d in daysWithEvents then Without(daysWithEvents[d].opening, daysWithEvents[d].appointment) else [])
    requires |result| == |keys|
    requires forall k :: 0 <= k < |keys| ==> keys[k] in availabilities && result[k] == availabilities[keys[k]]
    ensures forall k :: 0 <= k < |keys| ==>
              var d := Day(queryDate) + k;
              result[k] == AvailabilityDay(queryDate + k * MinutesPerDay,
                if d in daysWithEvents then Without(daysWithEvents[d].opening, daysWithEvents[d].appointment) else [])
  {
    forall k | 0 <= k < |keys|
      ensures var d := Day(queryDate) + k;
              result[k] == AvailabilityDay(queryDate + k * MinutesPerDay,
                if d in daysWithEvents then Without(daysWithEvents[d].opening, daysWithEvents[d].appointment) else [])
    {
      var d := keys[k];
      var availableHours := if d in daysWithEvents
                            then Without(daysWithEvents[d].opening, daysWithEvents[d].appointment) else [];
      assert window[d] == AvailabilityDay(queryDate + k * MinutesPerDay, []);
      assert [] + availableHours == availableHours;
    }
  }

  /** Day k as the resolver assembles it (its instant, then the filtered
      openings of its bucket if the bucket map has its date) is day k of the
      specification, when the bucket holds the date's contributions. */
  lemma AssembledDay(events: seq<Event>, queryDate: Instant, daysFromDate: int,
                     daysWithEvents: map<Date, Bucket>, k: int)
    requires 0 <= k < WindowSize(daysFromDate)
    requires Lookup(daysWithEvents, Day(queryDate) + k)
          == Bucket(Contributions(events, queryDate, daysFromDate, Day(queryDate) + k, Opening),
                    Contributions(events, queryDate, daysFromDate, Day(queryDate) + k, Appointment))
    ensures var d := Day(queryDate) + k;
            AvailabilityDay(queryDate + k * MinutesPerDay,
              if d in daysWithEvents then Without(daysWithEvents[d].opening, daysWithEvents[d].appointment) else [])
            == Availabilities(events, queryDate, daysFromDate)[k]
  {
    AvailabilityAt(events, queryDate, daysFromDate, k);
    if Day(queryDate) + k !in daysWithEvents {
      assert Without<Label>([], []) == [];
    }
  }

  /** The window has `daysFromDate` days (none for 0); day i is the query
      instant moved i calendar days, so the dates ascend one day apart and
      keep the query's time of day. */
  lemma WindowShape(events: seq<Event>, queryDate: Instant, daysFromDate: int, i: int)
    ensures |Availabilities(events, queryDate, daysFromDate)| == WindowSize(daysFromDate)
    ensures daysFromDate >= 0 ==> |Availabilities(events, queryDate, daysFromDate)| == daysFromDate
    ensures 0 <= i < WindowSize(daysFromDate) ==>
              var date := Availabilities(events, queryDate, daysFromDate)[i].date;
              Day(date) == Day(queryDate) + i && TimeOfDay(date) == TimeOfDay(queryDate)
  {
    AddDays(queryDate, i);
  }

  /** With no events, every day of every window is empty. */
  lemma NoEventsNoSlots(queryDate: Instant, daysFromDate: int, i: int)
    requires 0 <= i < WindowSize(daysFromDate)
    ensures Availabilities([], queryDate, daysFromDate)[i].slots == []
  {
    AvailabilityAt([], queryDate, daysFromDate, i);
  }

  /** A day's slots are exactly the opening labels of its date not found among
      its appointment labels: none of them is an appointment label, and each
      kept label appears as often as in the openings. */
  lemma SlotsAreOpeningsMinusAppointments(events: seq<Event>, queryDate: Instant, daysFromDate: int, i: int, x: Label)
    requires 0 <= i < WindowSize(daysFromDate)
    ensures var d := Day(queryDate) + i;
            var opening := Contributions(events, queryDate, daysFromDate, d, Opening);
            var appointment := Contributions(events, queryDate, daysFromDate, d, Appointment);
            var slots := Availabilities(events, queryDate, daysFromDate)[i].slots;
            (x in slots <==> x in opening && x !in appointment) &&
            multiset(slots)[x] == if x in appointment then 0 else multiset(opening)[x]
  {
    var d := Day(queryDate) + i;
    var opening := Contributions(events, queryDate, daysFromDate, d, Opening);
    var appointment := Contributions(events, queryDate, daysFromDate, d, Appointment);
    AvailabilityAt(events, queryDate, daysFromDate, i);
    assert Availabilities(events, queryDate, daysFromDate)[i].slots == Without(opening, appointment);
    WithoutCount(opening, appointment, x);
  }

  /** The openings of earlier events come first in a day's slots: splitting
      the events anywhere splits the slots the same way, each part filtered by
      the whole day's appointments. */
  lemma SlotsFollowEventOrder(first: seq<Event>, rest: seq<Event>, queryDate: Instant, daysFromDate: int, i: int)
    requires 0 <= i < WindowSize(daysFromDate)
    ensures var d := Day(queryDate) + i;
            var appointment := Contributions(first + rest, queryDate, daysFromDate, d, Appointment);
            Availabilities(first + rest, queryDate, daysFromDate)[i].slots
            == Without(Contributions(first, queryDate, daysFromDate, d, Opening), appointment)
             + Without(Contributions(rest, queryDate, daysFromDate, d, Opening), appointment)
  {
    var d := Day(queryDate) + i;
    var appointment := Contributions(first + rest, queryDate, daysFromDate, d, Appointment);
    var early, late := Contributions(first, queryDate, daysFromDate, d, Opening), Contributions(rest, queryDate, daysFromDate, d, Opening);
    AvailabilityAt(first + rest, queryDate, daysFromDate, i);
    assert Availabilities(first + rest, queryDate, daysFromDate)[i].slots
        == Without(Contributions(first + rest, queryDate, daysFromDate, d, Opening), appointment);
    ContributionsConcat(first, rest, queryDate, daysFromDate, d, Opening);
    WithoutConcat(early, late, appointment);
  }

  /** An event changes nothing in the result when its kind is neither opening
      nor appointment, or when none of its candidate dates is a window day:
      its bucket entries are never read. This is the window a call resolves
      to; an event with an inherited tag makes the call reject instead. */
  lemma IgnoredEvent(first: seq<Event>, event: Event, rest: seq<Event>, queryDate: Instant, daysFromDate: int)
    requires event.kind.Other? ||
             forall d :: d in CandidateDates(event, queryDate, daysFromDate) ==>
               !(Day(queryDate) <= d < Day(queryDate) + daysFromDate)
    ensures Availabilities(first + [event] + rest, queryDate, daysFromDate)
         == Availabilities(first + rest, queryDate, daysFromDate)
  {
    var a := Availabilities(first + [event] + rest, queryDate, daysFromDate);
    var b := Availabilities(first + rest, queryDate, daysFromDate);
    assert |a| == |b| == WindowSize(daysFromDate);
    forall i | 0 <= i < |a|
      ensures a[i] == b[i]
    {
      IgnoredEventOnDay(first, event, rest, queryDate, daysFromDate, i);
    }
  }

  /** Day i of the window, with and without the ignored event. */
  lemma IgnoredEventOnDay(first: seq<Event>, event: Event, rest: seq<Event>, queryDate: Instant, daysFromDate: int, i: int)
    requires event.kind.Other? ||
             forall d :: d in CandidateDates(event, queryDate, daysFromDate) ==>
               !(Day(queryDate) <= d < Day(queryDate) + daysFromDate)
    requires 0 <= i < WindowSize(daysFromDate)
    ensures Availabilities(first + [event] + rest, queryDate, daysFromDate)[i]
         == Availabilities(first + rest, queryDate, daysFromDate)[i]
  {
    var d := Day(queryDate) + i;
    AvailabilityAt(first + [event] + rest, queryDate, daysFromDate, i);
    AvailabilityAt(first + rest, queryDate, daysFromDate, i);
    IgnoredContributions(first, event, rest, queryDate, daysFromDate, d, Opening);
    IgnoredContributions(first, event, rest, queryDate, daysFromDate, d, Appointment);
  }

  /** A date gets nothing from an event of another kind or one whose candidates miss it. */
  lemma IgnoredContributions(first: seq<Event>, event: Event, rest: seq<Event>,
                             queryDate: Instant, daysFromDate: int, d: Date, kind: Kind)
    requires event.kind != kind || d !in CandidateDates(event, queryDate, daysFromDate)
    ensures Contributions(first + [event] + rest, queryDate, daysFromDate, d, kind)
         == Contributions(first + rest, queryDate, daysFromDate, d, kind)
  {
    ContributionsConcat(first + [event], rest, queryDate, daysFromDate, d, kind);
    ContributionsConcat(first, [event], queryDate, daysFromDate, d, kind);
    ContributionsConcat(first, rest, queryDate, daysFromDate, d, kind);
    assert Contributions([event], queryDate, daysFromDate, d, kind) == [];
  }

  /** A weekly opening alone in the store shows all its labels on every window
      day that is its start date plus whole weeks, whatever the window length
      and however many years after the start, when the query is within a week
      after the start or earlier, or earlier in the day than the event. */
  lemma RecurringOpeningOnItsWeekday(event: Event, queryDate: Instant, daysFromDate: int, i: int)
    requires event.kind == Opening && event.weeklyRecurring
    requires queryDate < event.startsAt + MinutesPerWeek || TimeOfDay(queryDate) < TimeOfDay(event.startsAt)
    requires 0 <= i < WindowSize(daysFromDate)
    requires Day(queryDate) + i >= Day(event.startsAt)
    requires (Day(queryDate) + i - Day(event.startsAt)) % DaysPerWeek == 0
    ensures Availabilities([event], queryDate, daysFromDate)[i].slots == SlotLabels(event.startsAt, event.endsAt)
  {
    var d := Day(queryDate) + i;
    var j := (d - Day(event.startsAt)) / DaysPerWeek;
    assert d == Day(event.startsAt) + DaysPerWeek * j;
    RecurringCoverage(event, queryDate, daysFromDate, j);
    OpeningAloneOnItsDate(event, queryDate, daysFromDate, d);
    AvailabilityAt([event], queryDate, daysFromDate, i);
  }

  /** An opening alone in the store leaves all its labels free on each of its candidate dates. */
  lemma OpeningAloneOnItsDate(event: Event, queryDate: Instant, daysFromDate: int, d: Date)
    requires event.kind == Opening && d in CandidateDates(event, queryDate, daysFromDate)
    ensures FreeSlots([event], queryDate, daysFromDate, d) == SlotLabels(event.startsAt, event.endsAt)
  {
    var labels := SlotLabels(event.startsAt, event.endsAt);
    SingleContributions(event, queryDate, daysFromDate, d, Opening);
    SingleContributions(event, queryDate, daysFromDate, d, Appointment);
    WithoutDisjoint(labels, []);
  }
}
