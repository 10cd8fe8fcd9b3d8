/** Instants and calendar days on one local timeline.
    An instant is a whole number of minutes; a calendar date is the number of
    the day that instant falls on. Time zones and daylight saving are not
    modelled: every day has 1440 minutes and every week 7 such days. */
module Time {

  /** Minutes since a fixed local midnight (day 0). */
  type Instant = int

  /** Day number of a calendar date; stands in for the "D-MM-YYYY" key. */
  type Date = int

  const MinutesPerDay: int := 1440
  const DaysPerWeek: int := 7
  const MinutesPerWeek: int := 10080

  /** The calendar date an instant falls on. */
  function Day(t: Instant): Date
  {
    t / MinutesPerDay
  }

  /** Minutes since midnight of the instant's own day. */
  function TimeOfDay(t: Instant): (m: int)
    ensures 0 <= m < MinutesPerDay
    ensures t == Day(t) * MinutesPerDay + m
  {
    t % MinutesPerDay
  }

  /** Moving an instant by whole days moves its date by as many days and keeps its time of day. */
  lemma AddDays(t: Instant, i: int)
    ensures Day(t + i * MinutesPerDay) == Day(t) + i
    ensures TimeOfDay(t + i * MinutesPerDay) == TimeOfDay(t)
  {
    var u := t + i * MinutesPerDay;
    assert u == (Day(t) + i) * MinutesPerDay + TimeOfDay(t);
    DivisionUnique(u, Day(t) + i, TimeOfDay(t));
  }

  /** Moving an instant by whole weeks moves its date by seven days per week. */
  lemma AddWeeks(t: Instant, j: int)
    ensures Day(t + j * MinutesPerWeek) == Day(t) + DaysPerWeek * j
    ensures TimeOfDay(t + j * MinutesPerWeek) == TimeOfDay(t)
  {
    assert j * MinutesPerWeek == (DaysPerWeek * j) * MinutesPerDay;
    AddDays(t, DaysPerWeek * j);
  }

  /** A later instant never falls on an earlier date. */
  lemma DayMonotone(a: Instant, b: Instant)
    requires a <= b
    ensures Day(a) <= Day(b)
  {
    assert Day(a) * MinutesPerDay <= a && b < Day(b) * MinutesPerDay + MinutesPerDay;
  }

  /** Day and time of day are the unique quotient and remainder. */
  lemma DivisionUnique(u: int, q: int, r: int)
    requires 0 <= r < MinutesPerDay
    requires u == q * MinutesPerDay + r
    ensures Day(u) == q && TimeOfDay(u) == r
  {
    var q', r' := Day(u), TimeOfDay(u);
    assert (q - q') * MinutesPerDay == r' - r;
  }

  /** Integer division truncated toward zero, as moment's `diff(…, 'weeks')`
      truncates the fractional number of weeks. */
  function TruncDiv(a: int, b: int): (r: int)
    requires b > 0
    ensures a >= 0 ==> r >= 0 && r * b <= a < r * b + b
    ensures a < 0 ==> r <= 0 && r * b - b < a <= r * b
  {
    if a >= 0 then DivBounds(a, b); a / b
    else DivBounds(-a, b); -((-a) / b)
  }

  /** The quotient of a non-negative number brackets it between two multiples. */
  lemma DivBounds(a: int, b: int)
    requires a >= 0 && b > 0
    ensures 0 <= a / b && (a / b) * b <= a < (a / b) * b + b
  {
    assert a == (a / b) * b + a % b;
  }

  /** Math.ceil(a / b) for integers. */
  function Ceil(a: int, b: int): (r: int)
    requires b > 0
    ensures (r - 1) * b < a <= r * b
  {
    -((-a) / b)
  }
}
