/** Building the prompt within its budget: section budgets are lowered in a fixed order, each down to
    its floor, until the whole fits. */
module PromptReduction {
  import opened Wrappers

  type Section = string

  /** Budgets or floors by section. */
  type Budgets = map<Section, int>

  /** What was lowered: the section, its budget before and after, and the overflow at that point. */
  datatype Cutback = Cutback(section: Section, before: int, after: int, overflow: int)

  function Get(b: Budgets, s: Section): int { if s in b then b[s] else 0 }

  // ------------------------------------------------------------------- the reduction

  /** The first section from `i` on, in the given order, that is above its floor. */
  function Pick(b: Budgets, floors: Budgets, order: seq<Section>, i: nat): (k: nat)
    requires i <= |order|
    ensures i <= k <= |order|
    ensures forall j :: i <= j < k ==> Get(b, order[j]) <= Get(floors, order[j])
    ensures k < |order| ==> Get(b, order[k]) > Get(floors, order[k])
    decreases |order| - i
  {
    if i == |order| || Get(b, order[i]) > Get(floors, order[i]) then i else Pick(b, floors, order, i + 1)
  }

  function NextCutback(b: Budgets, floors: Budgets, s: Section, overflow: int): Cutback
  {
    Cutback(s, Get(b, s), Max(Get(floors, s), Get(b, s) - overflow), overflow)
  }

  /** How far the sections of the order are above their floors. */
  function Slack(b: Budgets, floors: Budgets, order: seq<Section>, n: nat): nat
    requires n <= |order|
  {
    if n == 0 then 0 else Slack(b, floors, order, n - 1) + Max(0, Get(b, order[n - 1]) - Get(floors, order[n - 1]))
  }

  lemma {:induction false} SlackDrops(b: Budgets, floors: Budgets, order: seq<Section>, n: nat, s: Section, v: int)
    requires n <= |order| && Get(floors, s) <= v < Get(b, s)
    ensures Slack(b[s := v], floors, order, n) <= Slack(b, floors, order, n)
    ensures s in order[..n] ==> Slack(b[s := v], floors, order, n) < Slack(b, floors, order, n)
  {
    if n > 0 {
      SlackDrops(b, floors, order, n - 1, s, v);
      assert order[..n] == order[..n - 1] + [order[n - 1]];
    }
  }

  /** Whether the loop goes on, and with which section. */
  predicate Stops(size: Budgets -> nat, b: Budgets, floors: Budgets, order: seq<Section>, total: int)
  {
    size(b) <= total || Pick(b, floors, order, 0) == |order|
  }

  function Lowered(size: Budgets -> nat, b: Budgets, floors: Budgets, order: seq<Section>, total: int): (c: Cutback)
    requires !Stops(size, b, floors, order, total)
    ensures Get(floors, c.section) <= c.after < c.before == Get(b, c.section) && c.section in order
    ensures Slack(b[c.section := c.after], floors, order, |order|) < Slack(b, floors, order, |order|)
  {
    var c := NextCutback(b, floors, order[Pick(b, floors, order, 0)], size(b) - total);
    SlackDrops(b, floors, order, |order|, c.section, c.after);
    assert order[..|order|] == order;
    c
  }

  /** The budgets once the prompt fits or every section is down at its floor; `size` is what the
      prompt rendered with given budgets measures. */
  function Reduced(size: Budgets -> nat, b: Budgets, floors: Budgets, order: seq<Section>, total: int): Budgets
    decreases Slack(b, floors, order, |order|)
  {
    if Stops(size, b, floors, order, total) then b
    else
      var c := Lowered(size, b, floors, order, total);
      Reduced(size, b[c.section := c.after], floors, order, total)
  }

  function Cutbacks(size: Budgets -> nat, b: Budgets, floors: Budgets, order: seq<Section>, total: int): seq<Cutback>
    decreases Slack(b, floors, order, |order|)
  {
    if Stops(size, b, floors, order, total) then []
    else
      var c := Lowered(size, b, floors, order, total);
      [c] + Cutbacks(size, b[c.section := c.after], floors, order, total)
  }

  method ReduceBudgets(size: Budgets -> nat, start: Budgets, floors: Budgets, order: seq<Section>, total: int)
    returns (b: Budgets, log: seq<Cutback>)
    ensures b == Reduced(size, start, floors, order, total)
    ensures log == Cutbacks(size, start, floors, order, total)
  {
    b, log := start, [];
    while size(b) > total
      invariant OnTheWay(size, start, floors, order, total, b, log)
      decreases Slack(b, floors, order, |order|)
    {
      var overflow := size(b) - total;
      var i := FirstAboveFloor(b, floors, order);
      if i == |order| { break; }
      var c := NextCutback(b, floors, order[i], overflow);
      ReduceOnce(size, start, floors, order, total, b, log, c);
      b, log := b[c.section := c.after], log + [c];
    }
    Arrived(size, start, floors, order, total, b, log);
  }

  /** From here the reduction ends as it would from the start. */
  ghost predicate OnTheWay(
      size: Budgets -> nat, start: Budgets, floors: Budgets, order: seq<Section>, total: int, b: Budgets,
      log: seq<Cutback>)
  {
    && Reduced(size, b, floors, order, total) == Reduced(size, start, floors, order, total)
    && log + Cutbacks(size, b, floors, order, total) == Cutbacks(size, start, floors, order, total)
  }

  lemma {:induction false} Arrived(
      size: Budgets -> nat, start: Budgets, floors: Budgets, order: seq<Section>, total: int, b: Budgets,
      log: seq<Cutback>)
    requires OnTheWay(size, start, floors, order, total, b, log) && Stops(size, b, floors, order, total)
    ensures b == Reduced(size, start, floors, order, total) && log == Cutbacks(size, start, floors, order, total)
  {
    assert log + [] == log;
  }

  lemma {:induction false} ReduceOnce(
      size: Budgets -> nat, start: Budgets, floors: Budgets, order: seq<Section>, total: int, b: Budgets,
      log: seq<Cutback>, c: Cutback)
    requires OnTheWay(size, start, floors, order, total, b, log) && !Stops(size, b, floors, order, total)
    requires c == NextCutback(b, floors, order[Pick(b, floors, order, 0)], size(b) - total)
    ensures OnTheWay(size, start, floors, order, total, b[c.section := c.after], log + [c])
    ensures Slack(b[c.section := c.after], floors, order, |order|) < Slack(b, floors, order, |order|)
  {
    assert c == Lowered(size, b, floors, order, total);
    var rest := Cutbacks(size, b[c.section := c.after], floors, order, total);
    assert (log + [c]) + rest == log + ([c] + rest);
  }

  method FirstAboveFloor(b: Budgets, floors: Budgets, order: seq<Section>) returns (i: nat)
    ensures i == Pick(b, floors, order, 0)
  {
    i := 0;
    while i < |order| && Get(b, order[i]) <= Get(floors, order[i])
      invariant i <= |order| && Pick(b, floors, order, 0) == Pick(b, floors, order, i)
    {
      i := i + 1;
    }
  }

  /** It ends with a prompt that fits, or with every section of the order down at its floor. */
  lemma {:induction false} ReductionEnds(
      size: Budgets -> nat, b: Budgets, floors: Budgets, order: seq<Section>, total: int)
    ensures var r := Reduced(size, b, floors, order, total);
      size(r) <= total || forall i :: 0 <= i < |order| ==> Get(r, order[i]) <= Get(floors, order[i])
    decreases Slack(b, floors, order, |order|)
  {
    if !Stops(size, b, floors, order, total) {
      var c := Lowered(size, b, floors, order, total);
      ReductionEnds(size, b[c.section := c.after], floors, order, total);
    }
  }

  /** No budget is lowered below its floor or raised; one at or below its floor, or of a section
      outside the order, stays; and nothing at all is lowered when the prompt fits at once. */
  lemma {:induction false} ReductionRespectsFloors(
      size: Budgets -> nat, b: Budgets, floors: Budgets, order: seq<Section>, total: int, s: Section)
    ensures var r := Reduced(size, b, floors, order, total);
      && Min(Get(b, s), Get(floors, s)) <= Get(r, s) <= Get(b, s)
      && (Get(b, s) <= Get(floors, s) || s !in order || size(b) <= total ==> Get(r, s) == Get(b, s))
    decreases Slack(b, floors, order, |order|)
  {
    if !Stops(size, b, floors, order, total) {
      var c := Lowered(size, b, floors, order, total);
      ReductionRespectsFloors(size, b[c.section := c.after], floors, order, total, s);
    }
  }

  /** A section is touched only once all sections before it in the order are at or below their floors. */
  lemma {:induction false} EarlierSectionsFirst(
      size: Budgets -> nat, b: Budgets, floors: Budgets, order: seq<Section>, total: int, i: nat, j: nat)
    requires i < j < |order| && forall k :: 0 <= k < j ==> order[k] != order[j]
    ensures var r := Reduced(size, b, floors, order, total);
      Get(r, order[j]) != Get(b, order[j]) ==> Get(r, order[i]) <= Get(floors, order[i])
    decreases Slack(b, floors, order, |order|)
  {
    if !Stops(size, b, floors, order, total) {
      var c := Lowered(size, b, floors, order, total);
      var next := b[c.section := c.after];
      EarlierSectionsFirst(size, next, floors, order, total, i, j);
      if c.section == order[j] {
        assert Get(next, order[i]) <= Get(floors, order[i]);
        ReductionRespectsFloors(size, next, floors, order, total, order[i]);
      }
    }
  }

  /** What the cutbacks of a section add up to. */
  function CutFrom(log: seq<Cutback>, s: Section, i: nat): int
    requires i <= |log|
    decreases |log| - i
  {
    if i == |log| then 0 else (if log[i].section == s then log[i].before - log[i].after else 0) + CutFrom(log, s, i + 1)
  }

  lemma {:induction false} CutTail(c: Cutback, log: seq<Cutback>, s: Section, i: nat)
    requires i <= |log|
    ensures CutFrom([c] + log, s, i + 1) == CutFrom(log, s, i)
    decreases |log| - i
  {
    if i < |log| {
      CutTail(c, log, s, i + 1);
      assert ([c] + log)[i + 1] == log[i];
    }
  }

  /** The log accounts for every lowered budget, to the unit. */
  lemma {:induction false} LogAccounts(
      size: Budgets -> nat, b: Budgets, floors: Budgets, order: seq<Section>, total: int, s: Section)
    ensures Get(b, s) - Get(Reduced(size, b, floors, order, total), s) ==
      CutFrom(Cutbacks(size, b, floors, order, total), s, 0)
    decreases Slack(b, floors, order, |order|)
  {
    if !Stops(size, b, floors, order, total) {
      var c := Lowered(size, b, floors, order, total);
      var next := b[c.section := c.after];
      var rest := Cutbacks(size, next, floors, order, total);
      LogAccounts(size, next, floors, order, total, s);
      CutTail(c, rest, s, 0);
      assert ([c] + rest)[0] == c;
    }
  }

  /** A cutback is due: the prompt overflows, and the section is the first of the order above its floor. It takes
      the whole overflow off the section's budget, but not more than down to the floor. */
  ghost predicate Proper(
      size: Budgets -> nat, b: Budgets, floors: Budgets, order: seq<Section>, total: int, c: Cutback)
  {
    && c.overflow == size(b) - total > 0
    && (exists k :: 0 <= k < |order| && order[k] == c.section
                    && forall j :: 0 <= j < k ==> Get(b, order[j]) <= Get(floors, order[j]))
    && c.before == Get(b, c.section) > Get(floors, c.section)
    && c.after >= Get(floors, c.section) && c.after >= c.before - c.overflow
    && c.after in {Get(floors, c.section), c.before - c.overflow}
  }

  /** Each entry of the log is such a cutback at its time, and the last one leaves the budgets `end`. */
  ghost predicate Follows(
      size: Budgets -> nat, b: Budgets, floors: Budgets, order: seq<Section>, total: int, log: seq<Cutback>,
      end: Budgets)
    decreases |log|
  {
    if log == [] then end == b
    else
      && Proper(size, b, floors, order, total, log[0])
      && Follows(size, b[log[0].section := log[0].after], floors, order, total, log[1..], end)
  }

  lemma {:induction false} LogIsProper(
      size: Budgets -> nat, b: Budgets, floors: Budgets, order: seq<Section>, total: int)
    ensures Follows(size, b, floors, order, total, Cutbacks(size, b, floors, order, total),
                    Reduced(size, b, floors, order, total))
    decreases Slack(b, floors, order, |order|)
  {
    if !Stops(size, b, floors, order, total) {
      var c := Lowered(size, b, floors, order, total);
      var next := b[c.section := c.after];
      LogIsProper(size, next, floors, order, total);
      LoweredIsProper(size, b, floors, order, total);
      FollowsFirst(size, b, floors, order, total, c, Cutbacks(size, next, floors, order, total),
                   Reduced(size, next, floors, order, total));
    }
  }

  lemma {:induction false} LoweredIsProper(
      size: Budgets -> nat, b: Budgets, floors: Budgets, order: seq<Section>, total: int)
    requires !Stops(size, b, floors, order, total)
    ensures Proper(size, b, floors, order, total, Lowered(size, b, floors, order, total))
  {
    assert order[Pick(b, floors, order, 0)] == Lowered(size, b, floors, order, total).section;
  }

  lemma {:induction false} FollowsFirst(
      size: Budgets -> nat, b: Budgets, floors: Budgets, order: seq<Section>, total: int, c: Cutback,
      rest: seq<Cutback>, end: Budgets)
    requires Proper(size, b, floors, order, total, c)
    requires Follows(size, b[c.section := c.after], floors, order, total, rest, end)
    ensures Follows(size, b, floors, order, total, [c] + rest, end)
  {
    assert ([c] + rest)[1..] == rest;
  }

  // --------------------------------------------------- fitting the budgets to a token budget

  function Sum(values: seq<int>, n: nat): int
    requires n <= |values|
  {
    if n == 0 then 0 else Sum(values, n - 1) + values[n - 1]
  }

  /** One section's share of the total. */
  function ShareOf(value: int, total: int, sum: int): int
    requires sum > 0
  {
    Max(1, value * total / sum)
  }

  function Fitted(values: seq<int>, total: nat): (r: seq<int>)
    ensures |r| == |values|
  {
    var sum := Sum(values, |values|);
    if sum <= total then values else seq(|values|, i requires 0 <= i < |values| => ShareOf(values[i], total, sum))
  }

  /** A share is the section's part of the total, rounded down, or one if that is less. */
  lemma {:induction false} ShareIsProportional(value: int, total: nat, sum: int)
    requires value >= 0 && sum > 0
    ensures var share := ShareOf(value, total, sum);
      share >= 1 && (share == 1 || sum * share <= value * total) && value * total < sum * share + sum
  {
    var x := value * total;
    assert sum * (x / sum) + x % sum == x;
    NonNegative(value, total);
    if x < sum { Quotient(x, sum); }
    if x / sum < 1 { LessThanOne(sum, x / sum); }
  }

  lemma {:induction false} LessThanOne(k: int, q: int)
    requires k > 0 && q < 1
    ensures k * q <= k * 1
  {
    if q < 1 { Larger(1, q, k); }
  }

  /** Fitted budgets exceed the total by at most one unit for each section whose share is less than one;
      every fitted budget is positive. */
  lemma {:induction false} FittedWithinTotal(values: seq<int>, total: nat)
    requires forall i :: 0 <= i < |values| ==> values[i] >= 0
    ensures var sum := Sum(values, |values|); var r := Fitted(values, total);
      && Sum(r, |r|) <= total + (if sum <= total then 0 else Small(values, total, sum, |values|))
      && (sum > total ==> forall i :: 0 <= i < |r| ==> r[i] >= 1)
  {
    var sum := Sum(values, |values|);
    var r := Fitted(values, total);
    if sum > total {
      SharesWithin(values, total, sum, |values|, r);
      Cancel(Sum(r, |r|), total, Small(values, total, sum, |values|), sum);
    }
  }

  /** How many of the first `n` sections have a share below one. */
  function Small(values: seq<int>, total: nat, sum: int, n: nat): nat
    requires n <= |values| && sum > 0
  {
    if n == 0 then 0 else Small(values, total, sum, n - 1) + if values[n - 1] * total < sum then 1 else 0
  }

  lemma {:induction false} SharesWithin(values: seq<int>, total: nat, sum: int, n: nat, r: seq<int>)
    requires n <= |values| == |r| && sum > 0
    requires forall i :: 0 <= i < |values| ==> values[i] >= 0 && r[i] == ShareOf(values[i], total, sum)
    ensures sum * Sum(r, n) <= total * Sum(values, n) + sum * Small(values, total, sum, n)
  {
    if n > 0 {
      SharesWithin(values, total, sum, n - 1, r);
      OneShare(values[n - 1], total, sum);
      var small := if values[n - 1] * total < sum then 1 else 0;
      Distribute(sum, Sum(r, n - 1), r[n - 1]);
      Distribute(total, Sum(values, n - 1), values[n - 1]);
      Distribute(sum, Small(values, total, sum, n - 1), small);
    }
  }

  lemma {:induction false} OneShare(value: int, total: nat, sum: int)
    requires sum > 0 && value >= 0
    ensures sum * ShareOf(value, total, sum) <= total * value + sum * if value * total < sum then 1 else 0
  {
    var x := value * total;
    assert x == total * value;
    assert sum * (x / sum) + x % sum == x;
    NonNegative(value, total);
    if x < sum { Quotient(x, sum); }
  }

  lemma {:induction false} NonNegative(a: nat, b: nat)
    ensures a * b >= 0
  {
  }

  lemma {:induction false} Quotient(x: int, sum: int)
    requires 0 <= x < sum
    ensures x / sum == 0
  {
  }

  lemma {:induction false} Distribute(k: int, a: int, b: int)
    ensures k * (a + b) == k * a + k * b
  {
  }

  lemma {:induction false} Cancel(a: int, b: int, c: int, k: int)
    requires k > 0 && k * a <= b * k + k * c
    ensures a <= b + c
  {
    Distribute(k, b, c);
    if a > b + c { Larger(a, b + c, k); }
  }

  lemma {:induction false} Larger(a: int, b: int, k: int)
    requires a > b && k > 0
    ensures k * a > k * b
  {
  }
}
