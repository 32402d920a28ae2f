/** What a native compile does to single groups and messages: which groups are trimmed and in which order,
    what is kept raw and why, and what the messages consist of. */
module NativeOutcome {
  import opened Wrappers
  import opened NativeMessages
  import opened NativeCompiler

  // ------------------------------------------------------------ the order of trims

  function Reversed<T>(s: seq<T>): seq<T> { if s == [] then [] else Reversed(s[1..]) + [s[0]] }

  lemma {:induction false} ReversedFirst<T>(x: T, s: seq<T>)
    ensures Reversed([x] + s) == Reversed(s) + [x]
  {
    assert ([x] + s)[1..] == s;
  }

  /** The groups among the first `n` whose message is neither from the system nor from the user. */
  function Exchanges(gs: seq<Group>, n: nat): seq<Group>
    requires n <= |gs|
  {
    if n == 0 then []
    else if gs[n - 1].message.role.System? || gs[n - 1].message.role.User? then Exchanges(gs, n - 1)
    else Exchanges(gs, n - 1) + [gs[n - 1]]
  }

  lemma {:induction false} ExchangesNone(gs: seq<Group>, n: nat)
    requires n <= |gs| && forall k :: 0 <= k < n ==> IsSeed(gs[k])
    ensures Exchanges(gs, n) == []
  {
    if n > 0 { ExchangesNone(gs, n - 1); }
  }

  lemma {:induction false} ExchangesSame(a: seq<Group>, b: seq<Group>, n: nat)
    requires n <= |a| && n <= |b| && forall k :: 0 <= k < n ==> a[k] == b[k]
    ensures Exchanges(a, n) == Exchanges(b, n)
  {
    if n > 0 { ExchangesSame(a, b, n - 1); }
  }

  lemma {:induction false} ExchangesWithout(gs: seq<Group>, i: nat, n: nat)
    requires i < n <= |gs| && !IsSeed(gs[i]) && forall k :: 0 <= k < i ==> IsSeed(gs[k])
    ensures Exchanges(gs, n) == [gs[i]] + Exchanges(Without(gs, i), n - 1)
    decreases n
  {
    var rest := Without(gs, i);
    if n == i + 1 {
      ExchangesNone(gs, i);
      ExchangesSame(rest, gs, i);
    } else {
      ExchangesWithout(gs, i, n - 1);
      assert rest[n - 2] == gs[n - 1];
    }
  }

  /** A raw group goes no later than another: it scores less, or the same and is older. */
  predicate GoesFirst(a: Group, b: Group) { a.score < b.score || (a.score == b.score && a.index <= b.index) }

  /** From `l` to `out` these raw and recent groups were taken out, in this order: raw evidence by ascending
      score, among equal ones the older first; then, when none is left, the oldest recent groups that are
      neither from the system nor from the user. Each went in front of what was older. */
  ghost predicate TakenInOrder(l: Layers, out: Layers, raw: seq<Group>, recent: seq<Group>)
  {
    && out.older == Reversed(recent) + (Reversed(raw) + l.older)
    && WeakestTaken(l.raw, raw, out.raw)
    && Exchanges(l.recent, |l.recent|) == recent + Exchanges(out.recent, |out.recent|)
    && (recent != [] ==> out.raw == [])
  }

  /** What budget enforcement takes out. */
  lemma {:induction false} TrimsInOrder(s: Setup, l: Layers) returns (raw: seq<Group>, recent: seq<Group>)
    ensures TakenInOrder(l, Enforced(s, l), raw, recent)
    decreases |l.raw| + |l.recent|
  {
    raw, recent := [], [];
    if MustTrim(s, l) {
      var next := TrimStep(s, l);
      raw, recent := TrimsInOrder(s, next);
      if l.raw != [] {
        var i := Weakest(l.raw, |l.raw|);
        RawFirst(l, next, Enforced(s, next), i, raw, recent);
        raw := [l.raw[i]] + raw;
      } else {
        var i := FirstMutable(l.recent, 0);
        RecentFirst(l, next, Enforced(s, next), i, raw, recent);
        recent := [l.recent[i]] + recent;
      }
    }
  }

  lemma {:induction false} RawFirst(l: Layers, next: Layers, out: Layers, i: nat, raw: seq<Group>, recent: seq<Group>)
    requires i < |l.raw| && forall k :: 0 <= k < |l.raw| ==> NoWeaker(l.raw[k], l.raw[i])
    requires next.raw == Without(l.raw, i) && next.recent == l.recent && next.older == [l.raw[i]] + l.older
    requires TakenInOrder(next, out, raw, recent)
    ensures TakenInOrder(l, out, [l.raw[i]] + raw, recent)
  {
    WeakestFirst(l.raw, i, raw, out.raw);
    JoinsInFront(l.raw[i], raw, l.older);
  }

  lemma {:induction false} RecentFirst(
      l: Layers, next: Layers, out: Layers, i: nat, raw: seq<Group>, recent: seq<Group>)
    requires l.raw == [] && i < |l.recent| && !IsSeed(l.recent[i])
    requires forall k :: 0 <= k < i ==> IsSeed(l.recent[k])
    requires next.raw == [] && next.recent == Without(l.recent, i) && next.older == [l.recent[i]] + l.older
    requires TakenInOrder(next, out, raw, recent)
    ensures TakenInOrder(l, out, raw, [l.recent[i]] + recent)
  {
    var x := l.recent[i];
    NothingTaken(raw, out.raw);
    assert Reversed(raw) + next.older == next.older && Reversed(raw) + l.older == l.older;
    JoinsInFront(x, recent, l.older);
    ExchangesWithout(l.recent, i, |l.recent|);
    JoinFirst(x, recent, Exchanges(out.recent, |out.recent|));
  }

  /** `taken` is what was taken from `all`, in this order; what is left goes no earlier. */
  ghost predicate WeakestTaken(all: seq<Group>, taken: seq<Group>, left: seq<Group>)
  {
    && multiset(taken) + multiset(left) == multiset(all)
    && (forall i, j :: 0 <= i < j < |taken| ==> GoesFirst(taken[i], taken[j]))
    && (forall i, g :: 0 <= i < |taken| && g in left ==> GoesFirst(taken[i], g))
  }

  lemma {:induction false} WithoutMultiset(s: seq<Group>, i: nat)
    requires i < |s|
    ensures multiset(s) == multiset{s[i]} + multiset(Without(s, i))
  {
    assert s == s[..i] + [s[i]] + s[i + 1..];
  }

  lemma {:induction false} WeakestFirst(all: seq<Group>, i: nat, taken: seq<Group>, left: seq<Group>)
    requires i < |all| && forall k :: 0 <= k < |all| ==> NoWeaker(all[k], all[i])
    requires WeakestTaken(Without(all, i), taken, left)
    ensures WeakestTaken(all, [all[i]] + taken, left)
  {
    var x := all[i];
    WithoutMultiset(all, i);
    assert multiset([x] + taken) == multiset{x} + multiset(taken);
    forall g | g in taken || g in left ensures GoesFirst(x, g) {
      assert g in multiset(taken) + multiset(left);
      assert g in multiset(all);
    }
  }

  lemma {:induction false} NothingTaken(taken: seq<Group>, left: seq<Group>)
    requires WeakestTaken([], taken, left)
    ensures taken == [] && left == []
  {
    assert |multiset(taken) + multiset(left)| == 0;
  }

  lemma {:induction false} JoinsInFront(x: Group, taken: seq<Group>, older: seq<Group>)
    ensures Reversed(taken) + ([x] + older) == Reversed([x] + taken) + older
  {
    ReversedFirst(x, taken);
  }

  lemma {:induction false} JoinFirst(x: Group, a: seq<Group>, b: seq<Group>)
    ensures [x] + (a + b) == ([x] + a) + b
  {
  }

  // --------------------------------------------------------------- raw evidence

  /** The chosen positions below `n`, or the others. */
  function Positions(at: set<nat>, inside: bool, n: nat): (p: seq<nat>)
    ensures forall k :: 0 <= k < |p| ==> p[k] < n && (p[k] in at) == inside
    ensures forall i, j :: 0 <= i < j < |p| ==> p[i] < p[j]
  {
    if n == 0 then [] else Positions(at, inside, n - 1) + if (n - 1 in at) == inside then [n - 1] else []
  }

  lemma {:induction false} PositionsAll(at: set<nat>, inside: bool, n: nat, k: nat)
    requires k < n && (k in at) == inside
    ensures k in Positions(at, inside, n)
  {
    if k < n - 1 { PositionsAll(at, inside, n - 1, k); }
  }

  /** A pick is the groups at the chosen positions, in order and all of them. */
  lemma {:induction false} PickIsChosen(gs: seq<Group>, at: set<nat>, inside: bool, n: nat)
    requires n <= |gs|
    ensures var p := Positions(at, inside, n);
      |Pick(gs, at, inside, n)| == |p| && forall i :: 0 <= i < |p| ==> Pick(gs, at, inside, n)[i] == gs[p[i]]
  {
    if n > 0 { PickIsChosen(gs, at, inside, n - 1); }
  }

  /** The groups that raw selection keeps are exactly those at the picked positions, marked with their score;
      all others remain; both in order. */
  lemma {:induction false} SelectionIsByPosition(s: Setup, older: seq<Group>, picked: set<nat>, i: nat)
    requires i < |older|
    ensures var kept, rest := Marked(s, Pick(older, picked, true, |older|)), Pick(older, picked, false, |older|);
      if i in picked then older[i].(score := s.evidence(older[i]).score) in kept else older[i] in rest
    ensures |Pick(older, picked, true, |older|)| + |Pick(older, picked, false, |older|)| == |older|
  {
    PickIsChosen(older, picked, i in picked, |older|);
    PositionsAll(picked, i in picked, |older|, i);
    var p := Positions(picked, i in picked, |older|);
    var k :| 0 <= k < |p| && p[k] == i;
    var some := Pick(older, picked, i in picked, |older|);
    assert some[k] == older[i];
    if i in picked { assert Marked(s, some)[k] in Marked(s, some); }
    PickSizes(older, picked, |older|);
  }

  lemma {:induction false} PickSizes(gs: seq<Group>, at: set<nat>, n: nat)
    requires n <= |gs|
    ensures |Pick(gs, at, true, n)| + |Pick(gs, at, false, n)| == n
  {
    if n > 0 { PickSizes(gs, at, n - 1); }
  }

  /** What is kept raw is fresh, scored above zero and the last of its kind; a group that is all this and is
      not kept would not have fitted beside the kept ones that score higher, or the same and are newer. */
  lemma {:induction false} KeptRawIff(s: Setup, older: seq<Group>, picked: set<nat>, limit: nat, i: nat)
    requires s.hybrid && PickedRaw(s, older, picked, limit) && i < |older|
    ensures var e := s.evidence(older[i]);
      var better := set j | j in picked && j < |older| && (s.evidence(older[j]).score > e.score
                                                          || (s.evidence(older[j]).score == e.score && j > i));
      && (i in picked ==> !e.stale && e.score > 0)
      && (i in picked ==> forall j :: i < j < |older| ==> s.evidence(older[j]).signature != e.signature)
      && (i !in picked && !e.stale && e.score > 0
          && (forall j :: i < j < |older| ==> s.evidence(older[j]).signature != e.signature) ==>
            CostOf(s, older, better, |older|) + Estimate(s, [older[i].message] + older[i].results) > limit)
  {
    var e := s.evidence(older[i]);
    var better := set j | j in picked && j < |older| && (s.evidence(older[j]).score > e.score
                                                        || (s.evidence(older[j]).score == e.score && j > i));
    assert Better(s, older, picked, i) == better;
    assert i in picked ==> IsCandidate(s, older, i);
  }

  /** Costs are those of the single messages, added up. */
  lemma {:induction false} EstimateAdds(s: Setup, a: seq<Message>, b: seq<Message>, n: nat)
    requires n <= |b|
    ensures Estimate(s, []) == 0 && (forall m :: Estimate(s, [m]) == s.count(m))
    ensures TokensTo(s.count, a + b, |a| + n) == Estimate(s, a) + TokensTo(s.count, b, n)
  {
    forall m ensures Estimate(s, [m]) == s.count(m) { assert TokensTo(s.count, [m], 0) == 0; }
    if n == 0 {
      TokensPrefix(s, a, b, |a|);
    } else {
      EstimateAdds(s, a, b, n - 1);
      assert (a + b)[|a| + n - 1] == b[n - 1];
    }
  }

  lemma {:induction false} TokensPrefix(s: Setup, a: seq<Message>, b: seq<Message>, n: nat)
    requires n <= |a|
    ensures TokensTo(s.count, a + b, n) == TokensTo(s.count, a, n)
  {
    if n > 0 { TokensPrefix(s, a, b, n - 1); }
  }

  // ------------------------------------------------------------- the messages

  lemma {:induction false} GroupInFlatten(gs: seq<Group>, n: nat, k: nat) returns (a: seq<Message>, b: seq<Message>)
    requires k < n <= |gs|
    ensures FlattenTo(gs, n) == a + ([gs[k].message] + gs[k].results) + b
  {
    if k == n - 1 {
      a, b := FlattenTo(gs, n - 1), [];
    } else {
      a, b := GroupInFlatten(gs, n - 1, k);
      b := b + Members(gs[n - 1]);
    }
  }

  /** Laid-out messages begin with the context the preamble gives for the summary and the repository map, as
      one system message; and every raw or recent group stands in them in one piece, its message followed by
      its results. */
  lemma {:induction false} LaidOutHolds(s: Setup, l: Layers)
    requires LaidOut(s, l)
    ensures var text := s.preamble(l.summary, s.repoMap);
      text.Some? ==> l.messages != [] && l.messages[0] == Message(System, [], "", text.value)
    ensures forall g :: g in l.raw || g in l.recent ==> Holds(l.messages, [g.message] + g.results)
  {
    var front := Preamble(s, l.summary, s.repoMap);
    forall g | g in l.raw || g in l.recent ensures Holds(l.messages, [g.message] + g.results) {
      if g in l.raw {
        var k :| 0 <= k < |l.raw| && l.raw[k] == g;
        var a, b := GroupInFlatten(l.raw, |l.raw|, k);
        assert l.messages == (front + a) + ([g.message] + g.results) + (b + Flatten(l.recent));
      } else {
        var k :| 0 <= k < |l.recent| && l.recent[k] == g;
        var a, b := GroupInFlatten(l.recent, |l.recent|, k);
        assert l.messages == (front + Flatten(l.raw) + a) + ([g.message] + g.results) + b;
      }
    }
  }
}
