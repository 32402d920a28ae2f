/** The last step of memory recall: candidates are taken in rank order, at most a given number of
    each kind group and at most `limit` in all. The choice is a best one. */
module MemorySelection {
  import opened Wrappers
  import opened Sorting
  import opened MemoryRecall

  function KindGroup(c: Candidate): string
  {
    if IsProcessKind(c.kind) then "episodic_process" else c.kind
  }

  /** The cap of a kind group; groups without one of their own share the overall limit. */
  function Cap(group: string, limit: int): int
  {
    if group == "file_summary" || group == "durable" then 1 else if group == "episodic_process" then 2 else limit
  }

  /** How many of the first `n` are in the group and score at least `v`. */
  function Count(cs: seq<Candidate>, n: nat, group: string, v: int): nat
    requires n <= |cs|
  {
    if n == 0 then 0
    else Count(cs, n - 1, group, v) + if KindGroup(cs[n - 1]) == group && cs[n - 1].score >= v then 1 else 0
  }

  datatype Choice = Choice(selected: seq<Candidate>, skipped: seq<Candidate>)

  function InGroup(cs: seq<Candidate>, n: nat, group: string): nat
    requires n <= |cs|
  {
    if n == 0 then 0 else InGroup(cs, n - 1, group) + if KindGroup(cs[n - 1]) == group then 1 else 0
  }

  /** The size check runs after each selection only. */
  predicate Full(c: Choice, limit: int) { c.selected != [] && |c.selected| >= limit }

  function Consider(p: Choice, c: Candidate, limit: int): Choice
  {
    if Full(p, limit) then p
    else if InGroup(p.selected, |p.selected|, KindGroup(c)) >= Cap(KindGroup(c), limit) then
      p.(skipped := p.skipped + [c])
    else p.(selected := p.selected + [c])
  }

  function Take(order: seq<Candidate>, n: nat, limit: int): Choice
    requires n <= |order|
  {
    if n == 0 then Choice([], []) else Consider(Take(order, n - 1, limit), order[n - 1], limit)
  }

  function RankedFirst(): (Candidate, Candidate) -> bool { (a: Candidate, b: Candidate) => KeyLe(b, a) }

  function Ranking(cs: seq<Candidate>): seq<Candidate> { SortBy(cs, RankedFirst()) }

  method ApplyBudgets(cs: seq<Candidate>, limit: int) returns (choice: Choice)
    ensures choice == Take(Ranking(cs), |cs|, limit)
    ensures limit >= 1 ==> WithinCaps(choice.selected, limit)
  {
    var order := Ranking(cs);
    if limit >= 1 { TakeWithinCaps(order, |order|, limit); }
    choice := Choice([], []);
    var counts: map<string, nat> := map[];
    for n := 0 to |order|
      invariant choice == Take(order, n, limit) && !Full(choice, limit)
      invariant Counts(counts, choice.selected)
    {
      var c := order[n];
      var group := KindGroup(c);
      var count := CountIn(counts, group);
      TakeOne(order, n, limit, counts);
      if count >= Cap(group, limit) {
        choice := choice.(skipped := choice.skipped + [c]);
        continue;
      }
      choice := choice.(selected := choice.selected + [c]);
      counts := counts[group := count + 1];
      if |choice.selected| >= limit { return; }
    }
  }

  /** One more candidate, seen from the running counts. */
  lemma {:induction false} TakeOne(order: seq<Candidate>, n: nat, limit: int, counts: map<string, nat>)
    requires n < |order| && !Full(Take(order, n, limit), limit) && Counts(counts, Take(order, n, limit).selected)
    ensures var p, q, c := Take(order, n, limit), Take(order, n + 1, limit), order[n];
      var count := CountIn(counts, KindGroup(c));
      && q ==
        (if count >= Cap(KindGroup(c), limit) then p.(skipped := p.skipped + [c]) else p.(selected := p.selected + [c]))
      && (count < Cap(KindGroup(c), limit) ==> Counts(counts[KindGroup(c) := count + 1], q.selected))
      && (Full(q, limit) ==> Take(order, |order|, limit) == q)
  {
    var p, c := Take(order, n, limit), order[n];
    assert CountIn(counts, KindGroup(c)) == InGroup(p.selected, |p.selected|, KindGroup(c));
    CountsSnoc(counts, p.selected, c);
    if Full(Take(order, n + 1, limit), limit) { TakeStays(order, n + 1, |order|, limit); }
  }

  function CountIn(counts: map<string, nat>, g: string): nat { if g in counts then counts[g] else 0 }

  /** The running counts are the numbers selected per group. */
  ghost predicate Counts(counts: map<string, nat>, selected: seq<Candidate>)
  {
    forall g :: CountIn(counts, g) == InGroup(selected, |selected|, g)
  }

  lemma {:induction false} CountsSnoc(counts: map<string, nat>, selected: seq<Candidate>, c: Candidate)
    requires Counts(counts, selected)
    ensures var g := KindGroup(c); Counts(counts[g := InGroup(selected, |selected|, g) + 1], selected + [c])
  {
    InGroupSnoc(selected, c);
    var g := KindGroup(c);
    var more := counts[g := InGroup(selected, |selected|, g) + 1];
    forall h ensures CountIn(more, h) == InGroup(selected + [c], |selected + [c]|, h) {
      assert CountIn(counts, h) == InGroup(selected, |selected|, h);
    }
  }

  lemma {:induction false} InGroupPrefix(a: seq<Candidate>, b: seq<Candidate>, n: nat, group: string)
    requires n <= |a|
    ensures InGroup(a + b, n, group) == InGroup(a, n, group)
  {
    if n > 0 { InGroupPrefix(a, b, n - 1, group); }
  }

  lemma {:induction false} InGroupSnoc(cs: seq<Candidate>, c: Candidate)
    ensures forall g :: InGroup(cs + [c], |cs| + 1, g) == InGroup(cs, |cs|, g) + if KindGroup(c) == g then 1 else 0
  {
    forall g ensures InGroup(cs + [c], |cs| + 1, g) == InGroup(cs, |cs|, g) + if KindGroup(c) == g then 1 else 0 {
      InGroupPrefix(cs, [c], |cs|, g);
    }
  }

  lemma {:induction false} TakeStays(order: seq<Candidate>, m: nat, n: nat, limit: int)
    requires m <= n <= |order| && Full(Take(order, m, limit), limit)
    ensures Take(order, n, limit) == Take(order, m, limit)
  {
    if m < n {
      TakeStays(order, m, n - 1, limit);
      assert Take(order, n, limit) == Consider(Take(order, n - 1, limit), order[n - 1], limit);
    }
  }

  // ------------------------------------------------------------- feasibility

  /** How many of the first `n` are of the kind. */
  function OfKind(cs: seq<Candidate>, n: nat, kind: string): nat
    requires n <= |cs|
  {
    if n == 0 then 0 else OfKind(cs, n - 1, kind) + if cs[n - 1].kind == kind then 1 else 0
  }

  /** The size limit is respected, and there is at most one file summary, one durable note and two notes of
      the episode and of the process together; a kind named like their group counts with these. */
  predicate WithinCaps(s: seq<Candidate>, limit: int)
  {
    && |s| <= limit && OfKind(s, |s|, "file_summary") <= 1 && OfKind(s, |s|, "durable") <= 1
    && OfKind(s, |s|, "episodic") + OfKind(s, |s|, "process") + OfKind(s, |s|, "episodic_process") <= 2
  }

  /** The kinds that these caps concern. */
  const CappedKinds := {"file_summary", "durable", "episodic", "process", "episodic_process"}

  /** The size limit and the cap of every group are respected. */
  ghost predicate WithinGroups(s: seq<Candidate>, limit: int)
  {
    |s| <= limit && forall g :: InGroup(s, |s|, g) <= Cap(g, limit)
  }

  lemma {:induction false} GroupsByKind(s: seq<Candidate>, n: nat, g: string)
    requires n <= |s|
    ensures g == "episodic_process" ==>
              InGroup(s, n, g) == OfKind(s, n, "episodic") + OfKind(s, n, "process") + OfKind(s, n, "episodic_process")
    ensures g in {"file_summary", "durable"} ==> InGroup(s, n, g) == OfKind(s, n, g)
    ensures InGroup(s, n, g) <= n
  {
    if n > 0 { GroupsByKind(s, n - 1, g); }
  }

  lemma {:induction false} CapsAreGroups(s: seq<Candidate>, limit: int)
    ensures WithinCaps(s, limit) <==> WithinGroups(s, limit)
  {
    forall g ensures |s| <= limit && InGroup(s, |s|, g) > Cap(g, limit) ==> g in CappedKinds {
      GroupsByKind(s, |s|, g);
    }
    GroupsByKind(s, |s|, "file_summary");
    GroupsByKind(s, |s|, "durable");
    GroupsByKind(s, |s|, "episodic_process");
    if WithinCaps(s, limit) {
      forall g ensures InGroup(s, |s|, g) <= Cap(g, limit) { GroupsByKind(s, |s|, g); }
    }
  }

  /** A choice among the candidates that respects the size limit and every cap. */
  ghost predicate Feasible(cs: seq<Candidate>, choice: seq<Candidate>, limit: int)
  {
    multiset(choice) <= multiset(cs) && WithinCaps(choice, limit)
  }

  lemma {:induction false} ConsiderWithinCaps(p: Choice, c: Candidate, limit: int)
    requires limit >= 1 && WithinGroups(p.selected, limit)
    ensures WithinGroups(Consider(p, c, limit).selected, limit)
  {
    InGroupSnoc(p.selected, c);
  }

  lemma {:induction false} TakeWithinCaps(order: seq<Candidate>, n: nat, limit: int)
    requires n <= |order| && limit >= 1
    ensures WithinCaps(Take(order, n, limit).selected, limit)
  {
    TakeWithinGroups(order, n, limit);
    CapsAreGroups(Take(order, n, limit).selected, limit);
  }

  lemma {:induction false} TakeWithinGroups(order: seq<Candidate>, n: nat, limit: int)
    requires n <= |order| && limit >= 1
    ensures WithinGroups(Take(order, n, limit).selected, limit)
  {
    if n > 0 {
      TakeWithinGroups(order, n - 1, limit);
      ConsiderWithinCaps(Take(order, n - 1, limit), order[n - 1], limit);
    }
  }

  /** A candidate is skipped only when its kind has a cap and that is used up. */
  predicate Justified(c: Candidate, s: seq<Candidate>)
  {
    || (c.kind == "file_summary" && OfKind(s, |s|, "file_summary") >= 1)
    || (c.kind == "durable" && OfKind(s, |s|, "durable") >= 1)
    || (c.kind in {"episodic", "process", "episodic_process"}
        && OfKind(s, |s|, "episodic") + OfKind(s, |s|, "process") + OfKind(s, |s|, "episodic_process") >= 2)
  }

  lemma {:induction false} OfKindGrows(s: seq<Candidate>, x: Candidate, n: nat, kind: string)
    requires n <= |s|
    ensures OfKind(s + [x], n, kind) == OfKind(s, n, kind)
    ensures n == |s| ==> OfKind(s + [x], n + 1, kind) >= OfKind(s, n, kind)
  {
    if n > 0 { OfKindGrows(s, x, n - 1, kind); }
  }

  lemma {:induction false} StaysJustified(c: Candidate, s: seq<Candidate>, x: Candidate)
    requires Justified(c, s)
    ensures Justified(c, s + [x])
  {
    OfKindGrows(s, x, |s|, "file_summary");
    OfKindGrows(s, x, |s|, "durable");
    OfKindGrows(s, x, |s|, "episodic");
    OfKindGrows(s, x, |s|, "process");
    OfKindGrows(s, x, |s|, "episodic_process");
  }

  lemma {:induction false} SkippedIsJustified(p: Choice, c: Candidate, limit: int)
    requires limit >= 1 && !Full(p, limit)
    requires InGroup(p.selected, |p.selected|, KindGroup(c)) >= Cap(KindGroup(c), limit)
    ensures Justified(c, p.selected)
  {
    GroupsByKind(p.selected, |p.selected|, KindGroup(c));
  }

  /** Nothing is left out without reason: unless the selection is full, each candidate is selected or skipped,
      and every skipped one has a kind whose cap is used up. */
  lemma {:induction false} LeftOutForReason(order: seq<Candidate>, n: nat, limit: int)
    requires n <= |order| && limit >= 1
    ensures Reasoned(Take(order, n, limit), order[..n], limit)
  {
    ReasonsStay(limit);
    TakeKeeps(order, n, limit, (p, seen) => Reasoned(p, seen, limit));
  }

  lemma {:induction false} ReasonsStay(limit: int)
    requires limit >= 1
    ensures Reasoned(Choice([], []), [], limit)
    ensures forall p, c, seen :: Reasoned(p, seen, limit) ==> Reasoned(Consider(p, c, limit), seen + [c], limit)
  {
    forall p, c, seen | Reasoned(p, seen, limit) ensures Reasoned(Consider(p, c, limit), seen + [c], limit) {
      ConsiderForReason(p, c, limit, seen);
    }
  }

  /** What holds before anything is seen and is kept by each candidate holds of the whole selection. */
  lemma {:induction false} TakeKeeps(
      order: seq<Candidate>, n: nat, limit: int, keep: (Choice, seq<Candidate>) -> bool)
    requires n <= |order| && keep(Choice([], []), [])
    requires forall p, c, seen :: keep(p, seen) ==> keep(Consider(p, c, limit), seen + [c])
    ensures keep(Take(order, n, limit), order[..n])
  {
    if n == 0 {
      assert order[..0] == [];
    } else {
      TakeKeeps(order, n - 1, limit, keep);
      var p, c, seen := Take(order, n - 1, limit), order[n - 1], order[..n - 1];
      assert keep(Consider(p, c, limit), seen + [c]);
      assert order[..n] == seen + [c];
    }
  }

  ghost predicate Reasoned(p: Choice, seen: seq<Candidate>, limit: int)
  {
    && (forall c :: c in p.skipped ==> Justified(c, p.selected))
    && (|p.selected| < limit ==> multiset(p.selected) + multiset(p.skipped) == multiset(seen))
  }

  lemma {:induction false} ConsiderForReason(p: Choice, c: Candidate, limit: int, seen: seq<Candidate>)
    requires limit >= 1 && Reasoned(p, seen, limit)
    ensures Reasoned(Consider(p, c, limit), seen + [c], limit)
  {
    MultisetSnoc(seen, c);
    MultisetSnoc(p.selected, c);
    MultisetSnoc(p.skipped, c);
    if !Full(p, limit) {
      if InGroup(p.selected, |p.selected|, KindGroup(c)) >= Cap(KindGroup(c), limit) {
        SkippedIsJustified(p, c, limit);
      } else {
        forall x | x in p.skipped ensures Justified(x, p.selected + [c]) { StaysJustified(x, p.selected, c); }
      }
    }
  }

  lemma {:induction false} TakeFromOrder(order: seq<Candidate>, n: nat, limit: int)
    requires n <= |order|
    ensures multiset(Take(order, n, limit).selected) <= multiset(order[..n])
  {
    if n > 0 {
      TakeFromOrder(order, n - 1, limit);
      ConsiderFrom(Take(order, n - 1, limit), order, n, limit);
    }
  }

  lemma {:induction false} ConsiderFrom(p: Choice, order: seq<Candidate>, n: nat, limit: int)
    requires 0 < n <= |order| && multiset(p.selected) <= multiset(order[..n - 1])
    ensures multiset(Consider(p, order[n - 1], limit).selected) <= multiset(order[..n])
  {
    OneMore(p.selected, order[..n - 1], order[n - 1]);
    assert order[..n] == order[..n - 1] + [order[n - 1]];
  }

  lemma {:induction false} OneMore<T>(a: seq<T>, b: seq<T>, x: T)
    requires multiset(a) <= multiset(b)
    ensures multiset(a + [x]) <= multiset(b + [x]) && multiset(a) <= multiset(b + [x])
  {
    assert multiset(a + [x]) == multiset(a) + multiset{x};
    assert multiset(b + [x]) == multiset(b) + multiset{x};
  }

  // -------------------------------------------------------------- optimality

  function Total(cs: seq<Candidate>, n: nat): int
    requires n <= |cs|
  {
    if n == 0 then 0 else Total(cs, n - 1) + cs[n - 1].score
  }

  /** How many of the first `n` score at least `v`. */
  function AtLeast(cs: seq<Candidate>, n: nat, v: int): nat
    requires n <= |cs|
  {
    if n == 0 then 0 else AtLeast(cs, n - 1, v) + if cs[n - 1].score >= v then 1 else 0
  }

  /** The groups, with multiplicity, of those that score at least `v`. */
  function Groups(cs: seq<Candidate>, n: nat, v: int): multiset<string>
    requires n <= |cs|
  {
    if n == 0 then multiset{}
    else Groups(cs, n - 1, v) + if cs[n - 1].score >= v then multiset{KindGroup(cs[n - 1])} else multiset{}
  }

  lemma {:induction false} GroupsCount(cs: seq<Candidate>, n: nat, v: int, g: string)
    requires n <= |cs|
    ensures Groups(cs, n, v)[g] == Count(cs, n, g, v)
    ensures |Groups(cs, n, v)| == AtLeast(cs, n, v)
  {
    if n > 0 { GroupsCount(cs, n - 1, v, g); }
  }

  /** Counts per group decide totals. */
  lemma {:induction false} TotalsFromGroups(a: seq<Candidate>, b: seq<Candidate>, v: int)
    requires forall g :: Count(a, |a|, g, v) <= Count(b, |b|, g, v)
    ensures AtLeast(a, |a|, v) <= AtLeast(b, |b|, v)
  {
    var x, y := Groups(a, |a|, v), Groups(b, |b|, v);
    forall g ensures x[g] <= y[g] {
      GroupsCount(a, |a|, v, g);
      GroupsCount(b, |b|, v, g);
    }
    assert y == x + (y - x);
    GroupsCount(a, |a|, v, "");
    GroupsCount(b, |b|, v, "");
  }

  lemma {:induction false} CountPrefix(a: seq<Candidate>, b: seq<Candidate>, n: nat, g: string, v: int)
    requires n <= |a|
    ensures Count(a + b, n, g, v) == Count(a, n, g, v)
    ensures AtLeast(a + b, n, v) == AtLeast(a, n, v)
  {
    if n > 0 { CountPrefix(a, b, n - 1, g, v); }
  }

  lemma {:induction false} CountAll(cs: seq<Candidate>, n: nat, g: string, v: int)
    requires n <= |cs| && forall i :: 0 <= i < n ==> cs[i].score >= v
    ensures Count(cs, n, g, v) == InGroup(cs, n, g) && AtLeast(cs, n, v) == n
  {
    if n > 0 { CountAll(cs, n - 1, g, v); }
  }

  lemma {:induction false} CountAtMost(cs: seq<Candidate>, n: nat, g: string, v: int)
    requires n <= |cs|
    ensures Count(cs, n, g, v) <= InGroup(cs, n, g) && AtLeast(cs, n, v) <= n
  {
    if n > 0 { CountAtMost(cs, n - 1, g, v); }
  }

  lemma {:induction false} SelectedScores(order: seq<Candidate>, n: nat, limit: int, v: int)
    requires n <= |order| && forall i :: 0 <= i < n ==> order[i].score >= v
    ensures forall i :: 0 <= i < |Take(order, n, limit).selected| ==> Take(order, n, limit).selected[i].score >= v
  {
    if n > 0 { SelectedScores(order, n - 1, limit, v); }
  }

  ghost predicate Descending(order: seq<Candidate>)
  {
    forall i, j :: 0 <= i < j < |order| ==> order[i].score >= order[j].score
  }

  /** The selection above `v` is full, or at the cap of group `g`, or has the whole supply of it. */
  ghost predicate Exhausted(s: seq<Candidate>, limit: int, g: string, v: int, supply: nat)
  {
    AtLeast(s, |s|, v) >= limit || Count(s, |s|, g, v) >= Cap(g, limit) || Count(s, |s|, g, v) >= supply
  }

  lemma {:induction false} ConsiderExhausts(p: Choice, c: Candidate, limit: int, g: string, v: int, supply: nat)
    requires limit >= 1 && Exhausted(p.selected, limit, g, v, supply)
    requires c.score >= v ==> forall i :: 0 <= i < |p.selected| ==> p.selected[i].score >= v
    ensures Exhausted(Consider(p, c, limit).selected, limit, g, v,
        supply + if KindGroup(c) == g && c.score >= v then 1 else 0)
  {
    CountPrefix(p.selected, [c], |p.selected|, g, v);
    if c.score >= v { CountAll(p.selected, |p.selected|, g, v); }
  }

  /** Among the candidates scoring at least `v`, the selection is full or takes from every group as
      many as its cap and the supply allow. */
  lemma {:induction false} GreedyIsMaximal(order: seq<Candidate>, n: nat, limit: int, g: string, v: int)
    requires n <= |order| && limit >= 1 && Descending(order)
    ensures Exhausted(Take(order, n, limit).selected, limit, g, v, Count(order, n, g, v))
  {
    if n > 0 {
      GreedyIsMaximal(order, n - 1, limit, g, v);
      if order[n - 1].score >= v { SelectedScores(order, n - 1, limit, v); }
      ConsiderExhausts(Take(order, n - 1, limit), order[n - 1], limit, g, v, Count(order, n - 1, g, v));
    }
  }

  lemma {:induction false} CountConcat(a: seq<Candidate>, b: seq<Candidate>, n: nat, g: string, v: int)
    requires n <= |b|
    ensures Count(a + b, |a| + n, g, v) == Count(a, |a|, g, v) + Count(b, n, g, v)
  {
    if n == 0 {
      CountPrefix(a, b, |a|, g, v);
    } else {
      CountConcat(a, b, n - 1, g, v);
      assert (a + b)[|a| + n - 1] == b[n - 1];
    }
  }

  lemma {:induction false} CountAround(a: seq<Candidate>, x: Candidate, b: seq<Candidate>, g: string, v: int)
    ensures var one := if KindGroup(x) == g && x.score >= v then 1 else 0;
      Count(a + [x] + b, |a + [x] + b|, g, v) == Count(a + b, |a + b|, g, v) + one
  {
    CountSum(a, b, g, v);
    CountSum(a + [x], b, g, v);
    CountSnoc(a, x, g, v);
  }

  lemma {:induction false} CountSum(a: seq<Candidate>, b: seq<Candidate>, g: string, v: int)
    ensures Count(a + b, |a + b|, g, v) == Count(a, |a|, g, v) + Count(b, |b|, g, v)
  {
    CountConcat(a, b, |b|, g, v);
  }

  lemma {:induction false} CountSnoc(a: seq<Candidate>, x: Candidate, g: string, v: int)
    ensures Count(a + [x], |a + [x]|, g, v) == Count(a, |a|, g, v) + if KindGroup(x) == g && x.score >= v then 1 else 0
  {
    CountPrefix(a, [x], |a|, g, v);
  }

  lemma {:induction false} DropOne(rest: seq<Candidate>, x: Candidate, front: seq<Candidate>, back: seq<Candidate>)
    requires multiset(rest + [x]) <= multiset(front + [x] + back)
    ensures multiset(rest) <= multiset(front + back)
  {
    var one := multiset{x};
    assert multiset(rest + [x]) == multiset(rest) + one;
    assert multiset(front + [x] + back) == multiset(front + back) + one;
    forall y ensures multiset(rest)[y] <= multiset(front + back)[y] {
      assert multiset(rest + [x])[y] <= multiset(front + [x] + back)[y];
    }
  }

  lemma {:induction false} Position<T>(s: seq<T>, x: T) returns (i: nat)
    requires x in multiset(s)
    ensures i < |s| && s[i] == x
  {
    i :| 0 <= i < |s| && s[i] == x;
  }

  /** A sub-collection has no more in any group. */
  lemma {:induction false} CountMonotone(a: seq<Candidate>, b: seq<Candidate>, g: string, v: int)
    requires multiset(a) <= multiset(b)
    ensures Count(a, |a|, g, v) <= Count(b, |b|, g, v)
  {
    if a != [] {
      var x, rest := a[|a| - 1], a[..|a| - 1];
      assert a == rest + [x];
      assert a[|a| - 1] in multiset(a);
      var i := Position(b, x);
      var front, back := b[..i], b[i + 1..];
      assert b == front + [x] + back;
      DropOne(rest, x, front, back);
      CountMonotone(rest, front + back, g, v);
      CountSnoc(rest, x, g, v);
      CountAround(front, x, back, g, v);
    }
  }

  /** For every threshold the selection has at least as many candidates above it as any feasible choice. */
  lemma {:induction false} GreedyDominates(order: seq<Candidate>, other: seq<Candidate>, limit: int, v: int)
    requires limit >= 1 && Descending(order) && Feasible(order, other, limit)
    ensures var s := Take(order, |order|, limit).selected; AtLeast(other, |other|, v) <= AtLeast(s, |s|, v)
  {
    var s := Take(order, |order|, limit).selected;
    CapsAreGroups(other, limit);
    CountAtMost(other, |other|, "", v);
    if AtLeast(s, |s|, v) < limit {
      forall g ensures Count(other, |other|, g, v) <= Count(s, |s|, g, v) {
        GreedyIsMaximal(order, |order|, limit, g, v);
        CountMonotone(other, order, g, v);
        CountAtMost(other, |other|, g, v);
      }
      TotalsFromGroups(other, s, v);
    }
  }

  /** The sum of `AtLeast` over the thresholds 1 to `top`. */
  function Levels(cs: seq<Candidate>, top: nat): nat
  {
    if top == 0 then 0 else Levels(cs, top - 1) + AtLeast(cs, |cs|, top)
  }

  lemma {:induction false} LevelsSnoc(cs: seq<Candidate>, c: Candidate, top: nat)
    requires c.score >= 0
    ensures Levels(cs + [c], top) == Levels(cs, top) + if c.score <= top then c.score else top
  {
    if top > 0 {
      LevelsSnoc(cs, c, top - 1);
      CountPrefix(cs, [c], |cs|, "", top);
    }
  }

  /** Scores between 0 and `top` add up, level by level, to the total. */
  lemma {:induction false} LevelsAreTotal(cs: seq<Candidate>, n: nat, top: nat)
    requires n <= |cs| && forall i :: 0 <= i < |cs| ==> 0 <= cs[i].score <= top
    ensures Levels(cs[..n], top) == Total(cs, n)
  {
    if n == 0 {
      LevelsEmpty(top);
    } else {
      LevelsAreTotal(cs, n - 1, top);
      LevelsSnoc(cs[..n - 1], cs[n - 1], top);
      assert cs[..n] == cs[..n - 1] + [cs[n - 1]];
    }
  }

  lemma {:induction false} LevelsEmpty(top: nat)
    ensures Levels([], top) == 0
  {
    if top > 0 { LevelsEmpty(top - 1); }
  }

  lemma {:induction false} LevelsMonotone(a: seq<Candidate>, b: seq<Candidate>, top: nat)
    requires forall v :: AtLeast(a, |a|, v) <= AtLeast(b, |b|, v)
    ensures Levels(a, top) <= Levels(b, top)
  {
    if top > 0 { LevelsMonotone(a, b, top - 1); }
  }

  lemma {:induction false} MaxScore(cs: seq<Candidate>, n: nat) returns (top: nat)
    requires n <= |cs|
    ensures forall i :: 0 <= i < n ==> cs[i].score <= top
  {
    top := 0;
    if n > 0 {
      top := MaxScore(cs, n - 1);
      if cs[n - 1].score > top { top := cs[n - 1].score; }
    }
  }

  /** Higher score first; at equal scores the later created, and then the one with the higher note index. */
  predicate AtLeastAsHigh(a: Candidate, b: Candidate)
  {
    a.score >= b.score && (a.score == b.score ==> a.created >= b.created)
    && (a.score == b.score && a.created == b.created ==> a.noteIndex >= b.noteIndex)
  }

  lemma {:induction false} RankingDescends(cs: seq<Candidate>)
    ensures Descending(Ranking(cs)) && Sorted(Ranking(cs), RankedFirst())
    ensures forall i, j :: 0 <= i < j < |Ranking(cs)| ==> AtLeastAsHigh(Ranking(cs)[i], Ranking(cs)[j])
  {
    assert TotalPreorder(RankedFirst());
    SortBySorted(cs, RankedFirst());
    forall i, j | 0 <= i < j < |Ranking(cs)|
      ensures Ranking(cs)[i].score >= Ranking(cs)[j].score && AtLeastAsHigh(Ranking(cs)[i], Ranking(cs)[j])
    {
      assert RankedFirst()(Ranking(cs)[i], Ranking(cs)[j]);
    }
  }

  /** The selection respects the limit and the caps, and no other choice that does scores more in total. */
  lemma {:induction false} SelectionIsOptimal(cs: seq<Candidate>, limit: int, other: seq<Candidate>)
    requires limit >= 1 && Feasible(cs, other, limit)
    requires forall c :: c in cs ==> c.score >= 0
    ensures var s := Take(Ranking(cs), |cs|, limit).selected;
      Feasible(cs, s, limit) && Total(other, |other|) <= Total(s, |s|)
  {
    var order := Ranking(cs);
    var s := Take(order, |order|, limit).selected;
    RankingDescends(cs);
    TakeWithinCaps(order, |order|, limit);
    TakeFromOrder(order, |order|, limit);
    assert order[..|order|] == order;
    forall v ensures AtLeast(other, |other|, v) <= AtLeast(s, |s|, v) {
      GreedyDominates(order, other, limit, v);
    }
    var top := MaxScore(cs, |cs|);
    ScoresWithin(cs, s, top);
    ScoresWithin(cs, other, top);
    LevelsMonotone(other, s, top);
    LevelsAreTotal(other, |other|, top);
    LevelsAreTotal(s, |s|, top);
    assert other[..|other|] == other && s[..|s|] == s;
  }

  lemma {:induction false} ScoresWithin(cs: seq<Candidate>, choice: seq<Candidate>, top: nat)
    requires multiset(choice) <= multiset(cs)
    requires (forall c :: c in cs ==> c.score >= 0) && forall i :: 0 <= i < |cs| ==> cs[i].score <= top
    ensures forall i :: 0 <= i < |choice| ==> 0 <= choice[i].score <= top
  {
    forall i | 0 <= i < |choice| ensures choice[i] in cs {
      assert choice[i] in multiset(choice);
      assert choice[i] in multiset(cs);
    }
  }

  // ------------------------------------------------------- limits below one

  predicate HasOwnCap(c: Candidate) { c.kind in CappedKinds }

  /** With a limit below one the size check comes too late: one candidate is selected exactly when
      some candidate's group has a cap of its own, and otherwise none. */
  lemma {:induction false} LimitBelowOne(order: seq<Candidate>, n: nat, limit: int)
    requires limit < 1 && n <= |order|
    ensures |Take(order, n, limit).selected| == if SomeOwnCap(order, n) then 1 else 0
  {
    if n > 0 {
      LimitBelowOne(order, n - 1, limit);
      LastOwnCap(order, n);
      ConsiderBelowOne(Take(order, n - 1, limit), order[n - 1], limit);
    }
  }

  predicate SomeOwnCap(order: seq<Candidate>, n: nat)
    requires n <= |order|
  {
    exists i :: 0 <= i < n && HasOwnCap(order[i])
  }

  lemma {:induction false} LastOwnCap(order: seq<Candidate>, n: nat)
    requires 0 < n <= |order|
    ensures SomeOwnCap(order, n) <==> SomeOwnCap(order, n - 1) || HasOwnCap(order[n - 1])
  {
  }

  lemma {:induction false} ConsiderBelowOne(p: Choice, c: Candidate, limit: int)
    requires limit < 1 && |p.selected| <= 1
    ensures |Consider(p, c, limit).selected| == if p.selected != [] || HasOwnCap(c) then 1 else 0
  {
    if p.selected == [] { assert InGroup(p.selected, 0, KindGroup(c)) == 0; }
  }

  /** The size limit is respected exactly for positive limits, and for a zero limit when no
      candidate's group has a cap of its own. */
  lemma {:induction false} LimitRespectedIff(cs: seq<Candidate>, limit: int)
    requires limit >= 0
    ensures |Take(Ranking(cs), |cs|, limit).selected| <= limit
      <==> limit >= 1 || forall c :: c in cs ==> c.kind !in CappedKinds
  {
    var order := Ranking(cs);
    SameElements(order, cs);
    if limit >= 1 { TakeWithinCaps(order, |order|, limit); } else { LimitBelowOne(order, |order|, limit); }
  }
}
