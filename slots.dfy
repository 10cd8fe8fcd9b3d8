/** Slot labels: enumerating the 30-minute labels an event spans
    (`getHours`), their "H:mm" text, and removing labels from a list
    (the opening-minus-appointment `filter`). */
module Slots {
  import opened Time
  import opened Events

  /** Distance between two consecutive slots of one event, in minutes. */
  const Granularity: int := 30

  /** A slot label, kept as the minute of the day it prints; FormatLabel gives its text. */
  type Label = m: int | 0 <= m < MinutesPerDay

  /** The labels of `startsAt`, `startsAt + 30`, `startsAt + 60`, … while strictly before `endsAt`. */
  function SlotLabels(startsAt: Instant, endsAt: Instant): (r: seq<Label>)
    ensures r == [] <==> endsAt <= startsAt
    decreases endsAt - startsAt
  {
    if startsAt < endsAt then [TimeOfDay(startsAt)] + SlotLabels(startsAt + Granularity, endsAt) else []
  }

  /** Slot k exists exactly when `startsAt + 30k` is before `endsAt`, and it
      is the label of that instant: the slots start at `startsAt` itself and
      ascend in steps of 30 minutes. */
  lemma {:induction false} SlotLabelsExactly(startsAt: Instant, endsAt: Instant, k: nat)
    ensures k < |SlotLabels(startsAt, endsAt)| <==> startsAt + Granularity * k < endsAt
    ensures k < |SlotLabels(startsAt, endsAt)| ==>
              SlotLabels(startsAt, endsAt)[k] == TimeOfDay(startsAt + Granularity * k)
    decreases k
  {
    if k > 0 && startsAt < endsAt {
      SlotLabelsExactly(startsAt + Granularity, endsAt, k - 1);
    }
  }

  /** `getHours`: a cursor walks from `starts_at` in 30-minute steps and each
      position strictly before `ends_at` contributes its label. The source
      starts the cursor 30 minutes early and advances it inside the loop
      condition; advancing after the push is the same walk. */
  method GetHours(event: Event) returns (hours: seq<Label>)
    ensures hours == SlotLabels(event.startsAt, event.endsAt)
  {
    var date := event.startsAt;
    hours := [];
    while date < event.endsAt
      invariant hours + SlotLabels(date, event.endsAt) == SlotLabels(event.startsAt, event.endsAt)
      decreases event.endsAt - date
    {
      hours := hours + [TimeOfDay(date)];
      date := date + Granularity;
    }
  }

  function DigitChar(d: int): char
    requires 0 <= d < 10
  {
    ('0' as int + d) as char
  }

  function DigitValue(c: char): int
  {
    c as int - '0' as int
  }

  /** The "H:mm" text of a label: the hour's digits without a leading zero, a
      colon, the minutes on two digits; reading it back gives the label. */
  function FormatLabel(m: Label): (s: string)
    ensures |s| == (if m < 600 then 4 else 5)
    ensures s[|s| - 3] == ':'
    ensures forall k :: 0 <= k < |s| && k != |s| - 3 ==> '0' <= s[k] <= '9'
    ensures s[|s| - 2] <= '5'
    ensures s[0] == '0' <==> m < 60
    ensures ParseLabel(s) == m
  {
    var hour, minute := m / 60, m % 60;
    assert DigitValue(DigitChar(hour / 10)) == hour / 10 && DigitValue(DigitChar(hour % 10)) == hour % 10;
    assert DigitValue(DigitChar(minute / 10)) == minute / 10;
    assert DigitValue(DigitChar(minute % 10)) == minute % 10;
    (if hour < 10 then [DigitChar(hour)] else [DigitChar(hour / 10), DigitChar(hour % 10)])
      + [':', DigitChar(minute / 10), DigitChar(minute % 10)]
  }

  /** Reads an "H:mm" or "HH:mm" text back into a minute of the day. */
  function ParseLabel(s: string): int
  {
    if |s| == 4 then
      DigitValue(s[0]) * 60 + DigitValue(s[2]) * 10 + DigitValue(s[3])
    else if |s| == 5 then
      (DigitValue(s[0]) * 10 + DigitValue(s[1])) * 60 + DigitValue(s[3]) * 10 + DigitValue(s[4])
    else
      -1
  }

  /** Two labels print alike exactly when they are the same label, so comparing
      labels as minutes is comparing them as "H:mm" strings. */
  lemma FormatInjective(a: Label, b: Label)
    ensures FormatLabel(a) == FormatLabel(b) <==> a == b
  {
    assert ParseLabel(FormatLabel(a)) == a && ParseLabel(FormatLabel(b)) == b;
  }

  /** The texts of a list of labels, in order. */
  function FormatAll(xs: seq<Label>): (r: seq<string>)
    ensures |r| == |xs| && forall i :: 0 <= i < |xs| ==> r[i] == FormatLabel(xs[i])
  {
    if xs == [] then [] else [FormatLabel(xs[0])] + FormatAll(xs[1..])
  }

  /** `xs.filter(x => removed.indexOf(x) === -1)`: the elements of `xs` in their
      order, duplicates kept, except those found anywhere in `removed`. */
  function Without<T(==,!new)>(xs: seq<T>, removed: seq<T>): (r: seq<T>)
    ensures forall x :: x in r <==> x in xs && x !in removed
    ensures |r| <= |xs|
  {
    if xs == [] then []
    else if xs[0] in removed then Without(xs[1..], removed)
    else [xs[0]] + Without(xs[1..], removed)
  }

  /** Filtering a concatenation filters each part in place: the order of `xs` survives. */
  lemma {:induction false} WithoutConcat<T(!new)>(xs: seq<T>, ys: seq<T>, removed: seq<T>)
    ensures Without(xs + ys, removed) == Without(xs, removed) + Without(ys, removed)
    decreases |xs|
  {
    if xs != [] {
      assert (xs + ys)[0] == xs[0] && (xs + ys)[1..] == xs[1..] + ys;
      WithoutConcat(xs[1..], ys, removed);
      if xs[0] !in removed {
        assert Without(xs + ys, removed) == [xs[0]] + (Without(xs[1..], removed) + Without(ys, removed));
      }
    } else {
      assert xs + ys == ys;
    }
  }

  /** Every element not removed keeps its multiplicity; removed ones vanish. */
  lemma {:induction false} WithoutCount<T(!new)>(xs: seq<T>, removed: seq<T>, x: T)
    ensures multiset(Without(xs, removed))[x] == if x in removed then 0 else multiset(xs)[x]
    decreases |xs|
  {
    if xs != [] {
      assert xs == [xs[0]] + xs[1..];
      WithoutCount(xs[1..], removed, x);
    }
  }

  /** A list none of whose elements is removed comes through unchanged. */
  lemma {:induction false} WithoutDisjoint<T(!new)>(xs: seq<T>, removed: seq<T>)
    requires forall x :: x in xs ==> x !in removed
    ensures Without(xs, removed) == xs
    decreases |xs|
  {
    if xs != [] {
      assert xs[0] in xs;
      WithoutDisjoint(xs[1..], removed);
    }
  }

  /** A list all of whose elements are removed vanishes. */
  lemma {:induction false} WithoutCovered<T(!new)>(xs: seq<T>, removed: seq<T>)
    requires forall x :: x in xs ==> x in removed
    ensures Without(xs, removed) == []
    decreases |xs|
  {
    if xs != [] {
      assert xs[0] in xs;
      WithoutCovered(xs[1..], removed);
    }
  }

  /** A removed stretch in the middle of a list is cut out and the parts
      around it close up, in their order. */
  lemma WithoutCutsOut<T(!new)>(before: seq<T>, inside: seq<T>, after: seq<T>, removed: seq<T>)
    requires forall x :: x in before ==> x !in removed
    requires forall x :: x in inside ==> x in removed
    requires forall x :: x in after ==> x !in removed
    ensures Without(before + inside + after, removed) == before + after
  {
    WithoutConcat(before + inside, after, removed);
    WithoutConcat(before, inside, removed);
    calc {
      Without(before + inside + after, removed);
      Without(before, removed) + Without(inside, removed) + Without(after, removed);
      { WithoutDisjoint(before, removed); WithoutCovered(inside, removed); WithoutDisjoint(after, removed); }
      before + [] + after;
      { assert before + [] == before; }
      before + after;
    }
  }

  /** Filtering minute labels and then printing them gives what filtering the
      printed strings gives, as the source does. */
  lemma {:induction false} FormatCommutesWithWithout(xs: seq<Label>, removed: seq<Label>)
    ensures FormatAll(Without(xs, removed)) == Without(FormatAll(xs), FormatAll(removed))
    decreases |xs|
  {
    if xs != [] {
      var x := xs[0];
      assert FormatAll(xs)[0] == FormatLabel(x);
      assert FormatAll(xs)[1..] == FormatAll(xs[1..]);
      assert FormatLabel(x) in FormatAll(removed) <==> x in removed by {
        if FormatLabel(x) in FormatAll(removed) {
          var i :| 0 <= i < |removed| && FormatAll(removed)[i] == FormatLabel(x);
          FormatInjective(removed[i], x);
        }
        if x in removed {
          var i :| 0 <= i < |removed| && removed[i] == x;
          assert FormatAll(removed)[i] == FormatLabel(x);
        }
      }
      FormatCommutesWithWithout(xs[1..], removed);
      if x !in removed {
        assert FormatAll([x] + Without(xs[1..], removed))
            == [FormatLabel(x)] + FormatAll(Without(xs[1..], removed));
      }
    }
  }
}
