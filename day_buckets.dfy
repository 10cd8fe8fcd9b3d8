/** Day buckets: the map from calendar date to the concatenated opening and
    appointment labels of every event occurring on that date
    (`getDaysWithEvents`). */
module DayBuckets {
  import opened Time
  import opened Events
  import opened Slots
  import opened Occurrences

  /** The entry of one date. The source keeps one list per kind tag; only the
      two the availability step reads are kept, and an absent list is []. */
  datatype Bucket = Bucket(opening: seq<Label>, appointment: seq<Label>)

  /** `collector[date] || {}`. */
  function Lookup(days: map<Date, Bucket>, d: Date): Bucket
  {
    if d in days then days[d] else Bucket([], [])
  }

  /** The entry of a date after an event of `kind` with labels `hours` is added:
      the labels go after those already listed for that kind; a kind other
      than opening or appointment changes neither list. */
  function Append(b: Bucket, kind: Kind, hours: seq<Label>): (r: Bucket)
    ensures r.opening == b.opening + (if kind == Opening then hours else [])
    ensures r.appointment == b.appointment + (if kind == Appointment then hours else [])
  {
    match kind
    case Opening => b.(opening := b.opening + hours)
    case Appointment => b.(appointment := b.appointment + hours)
    case Other(_) => b
  }

  /** The inner `reduce` over one event's dates: `col` gains, for each date in
      turn, the collector's entry for that date with the event's labels added. */
  function OnDates(collector: map<Date, Bucket>, col: map<Date, Bucket>, dates: seq<Date>,
                   kind: Kind, hours: seq<Label>): map<Date, Bucket>
    decreases |dates|
  {
    if dates == [] then col
    else OnDates(collector, col[dates[0] := Append(Lookup(collector, dates[0]), kind, hours)], dates[1..], kind, hours)
  }

  /** Each listed date is rebuilt from the outer collector, so a date listed
      twice still gets the event's labels once. */
  lemma {:induction false} OnDatesRebuildsFromCollector(collector: map<Date, Bucket>, col: map<Date, Bucket>,
                                                      dates: seq<Date>, kind: Kind, hours: seq<Label>, d: Date)
    ensures d in OnDates(collector, col, dates, kind, hours) <==> d in col || d in dates
    ensures d in dates ==> OnDates(collector, col, dates, kind, hours)[d] == Append(Lookup(collector, d), kind, hours)
    ensures d !in dates && d in col ==> OnDates(collector, col, dates, kind, hours)[d] == col[d]
    decreases |dates|
  {
    if dates != [] {
      var col' := col[dates[0] := Append(Lookup(collector, dates[0]), kind, hours)];
      OnDatesRebuildsFromCollector(collector, col', dates[1..], kind, hours, d);
      assert d in dates <==> d == dates[0] || d in dates[1..];
    }
  }

  /** The outer `reduce` step for one event: the collector, overwritten by the
      rebuilt entries of the event's dates. */
  function AddEvent(collector: map<Date, Bucket>, event: Event, queryDate: Instant, daysFromDate: int): map<Date, Bucket>
  {
    collector + OnDates(collector, map[], CandidateDates(event, queryDate, daysFromDate),
                        event.kind, SlotLabels(event.startsAt, event.endsAt))
  }

  /** The day-bucket map after the events have been folded in, in their order. */
  function DaysWithEvents(events: seq<Event>, queryDate: Instant, daysFromDate: int): map<Date, Bucket>
    decreases |events|
  {
    if events == [] then map[]
    else AddEvent(DaysWithEvents(events[..|events| - 1], queryDate, daysFromDate), events[|events| - 1], queryDate, daysFromDate)
  }

  /** Reference definition, date by date: the labels of `kind` that date `d`
      receives are those of each event of that kind having `d` among its
      candidates, once per event, in the order the events come. */
  function Contributions(events: seq<Event>, queryDate: Instant, daysFromDate: int, d: Date, kind: Kind): seq<Label>
    decreases |events|
  {
    if events == [] then []
    else
      (if events[0].kind == kind && d in CandidateDates(events[0], queryDate, daysFromDate)
       then SlotLabels(events[0].startsAt, events[0].endsAt) else [])
      + Contributions(events[1..], queryDate, daysFromDate, d, kind)
  }

  /** What one event alone gives a date. */
  lemma SingleContributions(event: Event, queryDate: Instant, daysFromDate: int, d: Date, kind: Kind)
    ensures Contributions([event], queryDate, daysFromDate, d, kind)
         == if event.kind == kind && d in CandidateDates(event, queryDate, daysFromDate)
            then SlotLabels(event.startsAt, event.endsAt) else []
  {
    assert [event][1..] == [];
  }

  /** The labels of a list of events are those of its first part followed by
      those of the rest: they are concatenated in event order, never re-sorted. */
  lemma {:induction false} ContributionsConcat(first: seq<Event>, rest: seq<Event>, queryDate: Instant,
                                              daysFromDate: int, d: Date, kind: Kind)
    ensures Contributions(first + rest, queryDate, daysFromDate, d, kind)
         == Contributions(first, queryDate, daysFromDate, d, kind) + Contributions(rest, queryDate, daysFromDate, d, kind)
    decreases |first|
  {
    if first == [] {
      assert first + rest == rest;
    } else {
      assert (first + rest)[0] == first[0] && (first + rest)[1..] == first[1..] + rest;
      ContributionsConcat(first[1..], rest, queryDate, daysFromDate, d, kind);
    }
  }

  /** The fold agrees with the reference definition on every date: the entry
      of a date (empty lists when it has none) holds that date's opening and
      appointment contributions. */
  lemma {:induction false} DaysWithEventsPerDate(events: seq<Event>, queryDate: Instant, daysFromDate: int, d: Date)
    ensures Lookup(DaysWithEvents(events, queryDate, daysFromDate), d)
         == Bucket(Contributions(events, queryDate, daysFromDate, d, Opening),
                   Contributions(events, queryDate, daysFromDate, d, Appointment))
    decreases |events|
  {
    if events != [] {
      var n := |events| - 1;
      var init, last := events[..n], events[n];
      var before := DaysWithEvents(init, queryDate, daysFromDate);
      var dates := CandidateDates(last, queryDate, daysFromDate);
      var hours := SlotLabels(last.startsAt, last.endsAt);
      DaysWithEventsPerDate(init, queryDate, daysFromDate, d);
      OnDatesRebuildsFromCollector(before, map[], dates, last.kind, hours, d);
      LastSplit(events);
      ContributionsConcat(init, [last], queryDate, daysFromDate, d, Opening);
      ContributionsConcat(init, [last], queryDate, daysFromDate, d, Appointment);
      SingleContributions(last, queryDate, daysFromDate, d, Opening);
      SingleContributions(last, queryDate, daysFromDate, d, Appointment);
      var after := DaysWithEvents(events, queryDate, daysFromDate);
      assert after == AddEvent(before, last, queryDate, daysFromDate);
      if d in dates {
        assert Lookup(after, d) == Append(Lookup(before, d), last.kind, hours);
      } else {
        assert Lookup(after, d) == Lookup(before, d);
      }
    }
  }

  /** One more event folds one more step. */
  lemma FoldPrefix(events: seq<Event>, i: int, queryDate: Instant, daysFromDate: int)
    requires 0 <= i < |events|
    ensures DaysWithEvents(events[..i + 1], queryDate, daysFromDate)
         == AddEvent(DaysWithEvents(events[..i], queryDate, daysFromDate), events[i], queryDate, daysFromDate)
  {
    assert events[..i + 1][..i] == events[..i];
  }

  /** A non-empty list is its prefix followed by its last element. */
  lemma LastSplit<T>(s: seq<T>)
    requires s != []
    ensures s == s[..|s| - 1] + [s[|s| - 1]]
  {
    assert forall k :: 0 <= k < |s| ==> s[k] == (s[..|s| - 1] + [s[|s| - 1]])[k];
  }

  /** The members every plain object inherits from `Object.prototype`. Read
      as `eventsOnDate[event.kind]` (src/getAvailabilities.js:47), such a tag
      yields an inherited function, or the prototype itself for `__proto__`:
      a truthy value that line 48 then spreads, and that is not iterable. */
  const PrototypeNames: set<string> :=
    {"constructor", "__proto__", "toString", "toLocaleString", "valueOf", "hasOwnProperty",
     "isPrototypeOf", "propertyIsEnumerable", "__defineGetter__", "__defineSetter__",
     "__lookupGetter__", "__lookupSetter__"}

  /** A kind tag that names an inherited member of the day entries. */
  predicate InheritedTag(kind: Kind)
  {
    kind.Other? && kind.name in PrototypeNames
  }

  /** How an `async` call settles: with a value, or rejected by a thrown error. */
  datatype Settled<T> = Fulfilled(value: T) | Rejected

  /** The store selects an event with an inherited tag exactly when one of
      the events `getEvents` returns has one. */
  lemma SelectsInheritedTag(table: seq<Event>, queryDate: Instant)
    ensures (exists e :: e in table && Selected(e, queryDate) && InheritedTag(e.kind))
        <==> exists k :: 0 <= k < |SelectedEvents(table, queryDate)| && InheritedTag(SelectedEvents(table, queryDate)[k].kind)
  {
    var events := SelectedEvents(table, queryDate);
    SelectedEventsOrdered(table, queryDate);
    if e :| e in table && Selected(e, queryDate) && InheritedTag(e.kind) {
      assert e in events;
      var k :| 0 <= k < |events| && events[k] == e;
    }
  }

  /** `getDaysWithEvents`: it selects the events from the store, then a
      `reduce` over them enumerates, for each, its labels and its dates and
      merges them into the collector. Every event has at least its own date,
      so an event with an inherited tag always reaches the spread of line 48,
      which throws: the call rejects exactly when the store selects such an
      event. */
  method GetDaysWithEvents(table: seq<Event>, queryDate: Instant, daysFromDate: int)
    returns (settled: Settled<map<Date, Bucket>>)
    ensures settled.Rejected? <==> exists e :: e in table && Selected(e, queryDate) && InheritedTag(e.kind)
    ensures settled.Fulfilled? ==>
              settled.value == DaysWithEvents(SelectedEvents(table, queryDate), queryDate, daysFromDate)
  {
    var events := SelectedEvents(table, queryDate);
    SelectsInheritedTag(table, queryDate);
    var daysWithEvents := map[];
    for i := 0 to |events|
      invariant daysWithEvents == DaysWithEvents(events[..i], queryDate, daysFromDate)
      invariant forall k :: 0 <= k < i ==> !InheritedTag(events[k].kind)
    {
      var event := events[i];
      var hoursInterval := GetHours(event);
      var eventDates := EventDates(event, queryDate, daysFromDate);
      if InheritedTag(event.kind) {
        settled := Rejected;
        return;
      }
      var eventsOnDates := OnDates(daysWithEvents, map[], eventDates, event.kind, hoursInterval);
      FoldPrefix(events, i, queryDate, daysFromDate);
      daysWithEvents := daysWithEvents + eventsOnDates;
    }
    assert events[..|events|] == events;
    settled := Fulfilled(daysWithEvents);
  }
}
