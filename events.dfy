/** The event records the engine reads from the store. */
module Events {
  import opened Time

  /** The `kind` column: "opening", "appointment", or any other tag, which the
      engine carries along but never turns into slots. `Other` stands for the
      tags besides "opening" and "appointment"; it is never given those two. */
  datatype Kind = Opening | Appointment | Other(name: string)

  datatype Event = Event(kind: Kind, startsAt: Instant, endsAt: Instant, weeklyRecurring: bool)

  /** The `where` clause of the store query (src/getAvailabilities.js:8-10):
      weekly events, and one-off events that end strictly after the query instant. */
  predicate Selected(event: Event, queryDate: Instant)
  {
    event.weeklyRecurring || event.endsAt > queryDate
  }

  /** The `where` clause applied row by row: the selected rows in table order. */
  function Where(table: seq<Event>, queryDate: Instant): (r: seq<Event>)
    ensures forall e :: e in r <==> e in table && Selected(e, queryDate)
    ensures |r| <= |table|
  {
    if table == [] then []
    else if Selected(table[0], queryDate) then [table[0]] + Where(table[1..], queryDate)
    else Where(table[1..], queryDate)
  }

  /** A table all of whose rows the query selects comes through whole. */
  lemma {:induction false} WhereAll(table: seq<Event>, queryDate: Instant)
    requires forall e :: e in table ==> Selected(e, queryDate)
    ensures Where(table, queryDate) == table
    decreases |table|
  {
    if table != [] {
      assert table[0] in table;
      WhereAll(table[1..], queryDate);
    }
  }

  /** A list ordered by `starts_at`. */
  predicate ByStart(events: seq<Event>)
  {
    forall i, j :: 0 <= i < j < |events| ==> events[i].startsAt <= events[j].startsAt
  }

  /** `event` placed in a list ordered by start, before the first row that
      does not start earlier. */
  function Insert(event: Event, sorted: seq<Event>): seq<Event>
  {
    if sorted == [] || event.startsAt <= sorted[0].startsAt then [event] + sorted
    else [sorted[0]] + Insert(event, sorted[1..])
  }

  /** Inserting adds the row and loses none. */
  lemma {:induction false} InsertPermutes(event: Event, sorted: seq<Event>)
    ensures multiset(Insert(event, sorted)) == multiset(sorted) + multiset{event}
    decreases |sorted|
  {
    if sorted != [] && event.startsAt > sorted[0].startsAt {
      assert sorted == [sorted[0]] + sorted[1..];
      InsertPermutes(event, sorted[1..]);
    }
  }

  /** The rows after the first of a list ordered by start are ordered by
      start and none starts before the first. */
  lemma ByStartTail(sorted: seq<Event>)
    requires ByStart(sorted) && sorted != []
    ensures ByStart(sorted[1..])
    ensures forall e :: e in sorted[1..] ==> sorted[0].startsAt <= e.startsAt
  {
    var tail := sorted[1..];
    forall i | 0 <= i < |tail| ensures tail[i] == sorted[i + 1] {
    }
  }

  /** A row starting no later than every row of a list ordered by start can lead it. */
  lemma ByStartCons(first: Event, rest: seq<Event>)
    requires ByStart(rest)
    requires forall e :: e in rest ==> first.startsAt <= e.startsAt
    ensures ByStart([first] + rest)
  {
    var r := [first] + rest;
    forall i, j | 0 <= i < j < |r| ensures r[i].startsAt <= r[j].startsAt {
      assert r[j] == rest[j - 1] && r[j] in rest;
      if i > 0 {
        assert r[i] == rest[i - 1];
      }
    }
  }

  /** Inserting into a list ordered by start keeps it ordered by start. */
  lemma {:induction false} InsertByStart(event: Event, sorted: seq<Event>)
    requires ByStart(sorted)
    ensures ByStart(Insert(event, sorted))
    decreases |sorted|
  {
    if sorted == [] || event.startsAt <= sorted[0].startsAt {
      if sorted != [] {
        ByStartTail(sorted);
      }
      ByStartCons(event, sorted);
    } else {
      var tail := sorted[1..];
      ByStartTail(sorted);
      InsertByStart(event, tail);
      InsertPermutes(event, tail);
      var rest := Insert(event, tail);
      forall e | e in rest ensures sorted[0].startsAt <= e.startsAt {
        assert e in multiset(rest);
      }
      ByStartCons(sorted[0], rest);
    }
  }

  /** `orderBy('starts_at', 'asc')`, as an insertion sort; rows starting
      together keep their table order. */
  function OrderByStart(events: seq<Event>): seq<Event>
  {
    if events == [] then [] else Insert(events[0], OrderByStart(events[1..]))
  }

  /** The sort returns the same rows, each as often. */
  lemma {:induction false} OrderByStartPermutes(events: seq<Event>)
    ensures multiset(OrderByStart(events)) == multiset(events)
    decreases |events|
  {
    if events != [] {
      OrderByStartPermutes(events[1..]);
      InsertPermutes(events[0], OrderByStart(events[1..]));
      assert events == [events[0]] + events[1..];
    }
  }

  /** The sort returns its rows ordered by start. */
  lemma {:induction false} OrderByStartSorted(events: seq<Event>)
    ensures ByStart(OrderByStart(events))
    decreases |events|
  {
    if events != [] {
      OrderByStartSorted(events[1..]);
      InsertByStart(events[0], OrderByStart(events[1..]));
    }
  }

  /** Rows already ordered by start come back as they are. */
  lemma {:induction false} OrderByStartOrdered(events: seq<Event>)
    requires ByStart(events)
    ensures OrderByStart(events) == events
    decreases |events|
  {
    if events != [] {
      ByStartTail(events);
      OrderByStartOrdered(events[1..]);
      if events[1..] != [] {
        assert events[1..][0] in events[1..];
      }
    }
  }

  /** `getEvents`: the rows of the table the query selects, ordered by start. */
  function SelectedEvents(table: seq<Event>, queryDate: Instant): seq<Event>
  {
    OrderByStart(Where(table, queryDate))
  }

  /** The store returns the selected rows, each as often as the table holds
      it, ordered by start: exactly the weekly rows and the one-off rows that
      end after the query instant. */
  lemma SelectedEventsOrdered(table: seq<Event>, queryDate: Instant)
    ensures ByStart(SelectedEvents(table, queryDate))
    ensures multiset(SelectedEvents(table, queryDate)) == multiset(Where(table, queryDate))
    ensures forall e :: e in SelectedEvents(table, queryDate) <==> e in table && Selected(e, queryDate)
  {
    var r := SelectedEvents(table, queryDate);
    OrderByStartSorted(Where(table, queryDate));
    OrderByStartPermutes(Where(table, queryDate));
    forall e ensures e in r <==> e in multiset(Where(table, queryDate)) {
    }
  }

  /** Selection works row by row: a table split in two is selected part by part. */
  lemma {:induction false} WhereConcat(first: seq<Event>, rest: seq<Event>, queryDate: Instant)
    ensures Where(first + rest, queryDate) == Where(first, queryDate) + Where(rest, queryDate)
    decreases |first|
  {
    if first == [] {
      assert first + rest == rest;
    } else {
      assert (first + rest)[0] == first[0] && (first + rest)[1..] == first[1..] + rest;
      WhereConcat(first[1..], rest, queryDate);
    }
  }

  /** A one-off event that has ended by the query instant is not selected,
      wherever it sits in the table. */
  lemma SelectedEventsSkipEnded(first: seq<Event>, event: Event, rest: seq<Event>, queryDate: Instant)
    requires !event.weeklyRecurring && event.endsAt <= queryDate
    ensures SelectedEvents(first + [event] + rest, queryDate) == SelectedEvents(first + rest, queryDate)
  {
    WhereConcat(first + [event], rest, queryDate);
    WhereConcat(first, [event], queryDate);
    WhereConcat(first, rest, queryDate);
    assert Where([event], queryDate) == [];
    assert Where(first + [event], queryDate) == Where(first, queryDate);
    assert Where(first + [event] + rest, queryDate) == Where(first + rest, queryDate);
  }
}
