/** Cron expressions: the sets their fields denote, and the next matching minute. */
module CronSchedule {
  import opened Wrappers

  /** Microseconds since the epoch, in UTC. */
  type Time = int

  const Minute: int := 60_000_000
  const Horizon: nat := 366 * 24 * 60

  // --------------------------------------------------------------------- fields

  datatype Base = Star | Single(value: int) | Range(first: int, last: int)

  /** One comma-separated part of a field, split into base and step. */
  datatype Atom = Malformed | Atom(base: Base, step: int)

  function First(a: Atom, minimum: int): int
    requires a.Atom?
  {
    match a.base case Star => minimum case Single(v) => v case Range(f, _) => f
  }

  function Last(a: Atom, maximum: int): int
    requires a.Atom?
  {
    match a.base case Star => maximum case Single(v) => v case Range(_, l) => l
  }

  predicate WellFormed(a: Atom, minimum: int, maximum: int)
  {
    a.Atom? && a.step > 0 && minimum <= First(a, minimum) <= Last(a, maximum) <= maximum
  }

  /** A value an atom denotes: in range, a whole number of steps from the first. */
  predicate Denotes(a: Atom, minimum: int, maximum: int, v: int)
  {
    WellFormed(a, minimum, maximum) && First(a, minimum) <= v <= Last(a, maximum)
    && (v - First(a, minimum)) % a.step == 0
  }

  /** What the parts of a field mean: everything, one value, or a range; with a step, every so many from the
      first. */
  lemma {:induction false} PartsMean(minimum: int, maximum: int, v: int, first: int, last: int, step: int)
    requires minimum <= v <= maximum && minimum <= first <= last <= maximum && step > 0
    ensures Denotes(Atom(Star, step), minimum, maximum, v) <==> (v - minimum) % step == 0
    ensures Denotes(Atom(Single(first), step), minimum, maximum, v) <==> v == first
    ensures Denotes(Atom(Range(first, last), step), minimum, maximum, v)
      <==> first <= v <= last && (v - first) % step == 0
  {
  }

  method CronField(atoms: seq<Atom>, minimum: int, maximum: int) returns (r: Option<set<int>>)
    ensures r.Some? <==> forall i :: 0 <= i < |atoms| ==> WellFormed(atoms[i], minimum, maximum)
    ensures r.Some? ==> forall v ::
              v in r.value <==> exists i :: 0 <= i < |atoms| && Denotes(atoms[i], minimum, maximum, v)
  {
    var values: set<int> := {};
    for i := 0 to |atoms|
      invariant forall j :: 0 <= j < i ==> WellFormed(atoms[j], minimum, maximum)
      invariant forall v :: v in values <==> exists j :: 0 <= j < i && Denotes(atoms[j], minimum, maximum, v)
    {
      var a := atoms[i];
      if a.Malformed? || a.step <= 0 || First(a, minimum) < minimum || Last(a, maximum) > maximum
         || First(a, minimum) > Last(a, maximum) {
        assert !WellFormed(atoms[i], minimum, maximum);
        return None;
      }
      var more := Steps(a, minimum, maximum);
      values := values + more;
    }
    return Some(values);
  }

  method Steps(a: Atom, minimum: int, maximum: int) returns (values: set<int>)
    requires WellFormed(a, minimum, maximum)
    ensures forall v :: v in values <==> Denotes(a, minimum, maximum, v)
  {
    values := {};
    var v := First(a, minimum);
    while v <= Last(a, maximum)
      invariant First(a, minimum) <= v && (v - First(a, minimum)) % a.step == 0
      invariant forall u :: u in values <==> Denotes(a, minimum, maximum, u) && u < v
      decreases Last(a, maximum) + 1 - v
    {
      forall u | v < u < v + a.step ensures !Denotes(a, minimum, maximum, u) {
        Residue(v - First(a, minimum), u - v, a.step);
      }
      Residue(v - First(a, minimum), a.step, a.step);
      values := values + {v};
      v := v + a.step;
    }
  }

  lemma {:induction false} Residue(x: int, d: int, step: int)
    requires step > 0 && x % step == 0 && 0 <= d <= step
    ensures (x + d) % step == if d == step then 0 else d
  {
    if d == step { Remainder(x + d, x / step + 1, 0, step); } else { Remainder(x + d, x / step, d, step); }
  }

  lemma {:induction false} Remainder(x: int, q: int, r: int, step: int)
    requires x == q * step + r && 0 <= r < step
    ensures x % step == r
  {
    var p := x / step;
    assert x == p * step + x % step;
    if q > p { Multiple(q - p, step); } else if p > q { Multiple(p - q, step); }
  }

  lemma {:induction false} Multiple(k: int, step: int)
    requires k >= 1 && step > 0
    ensures k * step >= step
  {
  }

  // ----------------------------------------------------------- the next matching minute

  /** What a wall clock and a calendar say of a minute. */
  datatype Moment = Moment(minute: int, hour: int, day: int, month: int, weekday: int)

  datatype Cron = Cron(minutes: set<int>, hours: set<int>, days: set<int>, months: set<int>, weekdays: set<int>)

  type Calendar = Time -> Moment

  /** All five fields must match; day and weekday too. */
  predicate Matches(cal: Calendar, c: Cron, t: Time)
  {
    var m := cal(t);
    m.minute in c.minutes && m.hour in c.hours && m.day in c.days && m.month in c.months && m.weekday in c.weekdays
  }

  function FloorMinute(t: Time): Time { t - t % Minute }

  function Search(cal: Calendar, c: Cron, candidate: Time, steps: nat): Option<Time>
    decreases steps
  {
    if steps == 0 then None
    else if Matches(cal, c, candidate) then Some(candidate)
    else Search(cal, c, candidate + Minute, steps - 1)
  }

  function NextMatch(cal: Calendar, c: Cron, after: Time): Option<Time>
  {
    Search(cal, c, FloorMinute(after) + Minute, Horizon)
  }

  method CronNext(cal: Calendar, c: Cron, after: Time) returns (r: Option<Time>)
    ensures r == NextMatch(cal, c, after)
  {
    var candidate := FloorMinute(after) + Minute;
    for k := 0 to Horizon
      invariant NextMatch(cal, c, after) == Search(cal, c, candidate, Horizon - k)
    {
      if Matches(cal, c, candidate) { return Some(candidate); }
      candidate := candidate + Minute;
    }
    return None;
  }

  predicate WholeMinute(t: Time) { t % Minute == 0 }

  lemma {:induction false} SearchIsLeast(cal: Calendar, c: Cron, candidate: Time, steps: nat, t: Time)
    requires WholeMinute(candidate) && WholeMinute(t)
    ensures Search(cal, c, candidate, steps) == Some(t)
      <==> && candidate <= t < candidate + steps * Minute && Matches(cal, c, t)
           && forall u :: candidate <= u < t && WholeMinute(u) ==> !Matches(cal, c, u)
    decreases steps
  {
    if steps > 0 {
      SearchIsLeast(cal, c, candidate + Minute, steps - 1, t);
      assert forall u :: candidate <= u < candidate + Minute && WholeMinute(u) ==> u == candidate;
    }
  }

  lemma {:induction false} SearchFinds(cal: Calendar, c: Cron, candidate: Time, steps: nat)
    requires WholeMinute(candidate)
    ensures var r := Search(cal, c, candidate, steps);
      r.Some? ==> WholeMinute(r.value) && candidate <= r.value < candidate + steps * Minute
    decreases steps
  {
    if steps > 0 { SearchFinds(cal, c, candidate + Minute, steps - 1); }
  }

  /** In terms of the calendar: the answer is a whole minute after the given time, at most 366 days on, whose
      minute, hour, day, month and weekday are all among those of the expression. */
  lemma {:induction false} NextIsOnCalendar(cal: Calendar, c: Cron, after: Time)
    ensures var r := NextMatch(cal, c, after);
      r.Some? ==>
        && r.value % 60_000_000 == 0 && after < r.value <= after + 366 * 24 * 60 * 60_000_000
        && cal(r.value).minute in c.minutes && cal(r.value).hour in c.hours && cal(r.value).day in c.days
        && cal(r.value).month in c.months && cal(r.value).weekday in c.weekdays
  {
    var r := NextMatch(cal, c, after);
    if r.Some? { NextIsFirstMatch(cal, c, after, r.value); }
  }

  /** And when there is none, each whole minute of those 366 days, counted from the next one, misses in one of
      the five. */
  lemma {:induction false} NoneMisses(cal: Calendar, c: Cron, after: Time, t: Time)
    requires NextMatch(cal, c, after).None? && t % 60_000_000 == 0
    requires after < t <= after - after % 60_000_000 + 366 * 24 * 60 * 60_000_000
    ensures || cal(t).minute !in c.minutes || cal(t).hour !in c.hours || cal(t).day !in c.days
            || cal(t).month !in c.months || cal(t).weekday !in c.weekdays
  {
    NextMinute(after, t);
    SearchMisses(cal, c, FloorMinute(after) + Minute, Horizon, t);
  }

  lemma {:induction false} SearchMisses(cal: Calendar, c: Cron, candidate: Time, steps: nat, t: Time)
    requires WholeMinute(candidate) && WholeMinute(t) && candidate <= t < candidate + steps * Minute
    requires Search(cal, c, candidate, steps).None?
    ensures !Matches(cal, c, t)
    decreases steps
  {
    if t >= candidate + Minute {
      SearchMisses(cal, c, candidate + Minute, steps - 1, t);
    } else {
      assert t == candidate;
    }
  }

  lemma {:induction false} NextMinute(after: Time, u: Time)
    requires WholeMinute(u)
    ensures after < u <==> FloorMinute(after) + Minute <= u
  {
  }

  /** The answer is the first whole minute after `after` that matches, if one comes within the horizon. */
  lemma {:induction false} NextIsFirstMatch(cal: Calendar, c: Cron, after: Time, t: Time)
    ensures NextMatch(cal, c, after) == Some(t)
      <==> && WholeMinute(t) && after < t <= FloorMinute(after) + Horizon * Minute && Matches(cal, c, t)
           && forall u :: after < u < t && WholeMinute(u) ==> !Matches(cal, c, u)
  {
    var first := FloorMinute(after) + Minute;
    SearchFinds(cal, c, first, Horizon);
    forall u | WholeMinute(u) ensures after < u <==> first <= u { NextMinute(after, u); }
    if WholeMinute(t) { SearchIsLeast(cal, c, first, Horizon, t); }
  }
}
