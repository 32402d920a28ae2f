/** The native path of the context compiler: partition of the groups into recent and older ones,
    raw evidence, assembly, and the final budget guard that trims whole groups. */
module NativeCompiler {
  import opened Wrappers
  import opened Sorting
  import opened NativeMessages

  /** What one compile call is given. Counting, condensing, scoring and rendering are arbitrary
      functions; the condenser may answer differently on every call, hence its call number. */
  datatype Setup = Setup(
    budget: int,                                             // usable input budget
    recentBudget: int,                                       // share of the budget for recent groups
    safeTarget: int,                                         // budget times high watermark
    floor: int,                                              // groups that stay recent regardless
    hybrid: bool,                                            // raw evidence enabled
    count: Message -> int,                                   // serialized token count
    condense: (nat, seq<Group>) -> string,
    evidence: Group -> Evidence,
    preamble: (seq<string>, seq<string>) -> Option<string>,  // from summaries and repository map
    repoMap: seq<string>)

  datatype Evidence = Evidence(score: int, stale: bool, signature: string)

  function TokensTo(count: Message -> int, ms: seq<Message>, n: nat): int
    requires n <= |ms|
  {
    if n == 0 then 0 else TokensTo(count, ms, n - 1) + count(ms[n - 1])
  }

  function Estimate(s: Setup, ms: seq<Message>): int { TokensTo(s.count, ms, |ms|) }

  function GroupCost(s: Setup, g: Group): int { Estimate(s, Members(g)) }

  // --------------------------------------------------------------- partition

  /** Cost of the groups from position `k` on. */
  function CostFrom(s: Setup, gs: seq<Group>, k: nat): int
    requires k <= |gs|
    decreases |gs| - k
  {
    if k == |gs| then 0 else GroupCost(s, gs[k]) + CostFrom(s, gs, k + 1)
  }

  predicate Among(gs: seq<Group>, g: Group)
  {
    exists k :: 0 <= k < |gs| && gs[k].index == g.index
  }

  /** At least `floor` of the newest groups, and at least one if there is any. */
  method TakeFloor(s: Setup, gs: seq<Group>) returns (recent: seq<Group>, used: int, k: nat)
    ensures k <= |gs| && recent == gs[k..] && used == CostFrom(s, gs, k)
    ensures k > 0 ==> |gs| - k == Max(1, s.floor)
    ensures |gs| - k <= Max(1, s.floor)
  {
    used, k := 0, |gs|;
    recent := [];
    while k > 0
      invariant k <= |gs| && recent == gs[k..] && used == CostFrom(s, gs, k)
      invariant k < |gs| ==> |gs| - k < s.floor
    {
      k := k - 1;
      recent, used := [gs[k]] + recent, used + GroupCost(s, gs[k]);
      if |recent| >= s.floor { break; }
    }
  }

  /** The newest groups stay recent: at least `floor` of them (and at least one), then as many more,
      going back, as fit the recent budget. The rest, in order, is older. */
  method PartitionGroups(s: Setup, gs: seq<Group>) returns (recent: seq<Group>, older: seq<Group>)
    requires Increasing(gs)
    ensures Partitioned(s, gs, recent, older)
  {
    var used: int, k: nat;
    recent, used, k := TakeFloor(s, gs);
    recent, k := AbsorbRecent(s, gs, recent, used, k);
    older := OutsideOf(gs, k, recent);
  }

  /** Going back through all groups, those not recent yet join while they fit the budget. */
  method AbsorbRecent(s: Setup, gs: seq<Group>, floor: seq<Group>, floorUsed: int, floored: nat)
    returns (recent: seq<Group>, k: nat)
    requires Increasing(gs) && floored <= |gs| && floor == gs[floored..] && floorUsed == CostFrom(s, gs, floored)
    ensures k <= floored && recent == gs[k..]
    ensures forall j {:trigger CostFrom(s, gs, j)} :: k <= j < floored ==> CostFrom(s, gs, j) <= s.recentBudget
    ensures k > 0 ==> CostFrom(s, gs, k - 1) > s.recentBudget
  {
    var used, i := floorUsed, |gs|;
    recent, k := floor, floored;
    while i > 0
      invariant k <= i <= |gs| && k <= floored && recent == gs[k..] && used == CostFrom(s, gs, k)
      invariant forall j {:trigger CostFrom(s, gs, j)} :: k <= j < floored ==> CostFrom(s, gs, j) <= s.recentBudget
    {
      i := i - 1;
      AmongSuffix(gs, k, i);
      if Among(recent, gs[i]) { continue; }
      var cost := GroupCost(s, gs[i]);
      if used + cost > s.recentBudget { break; }
      assert [gs[i]] + gs[k..] == gs[i..];
      recent, used, k := [gs[i]] + recent, used + cost, i;
    }
  }

  method OutsideOf(gs: seq<Group>, k: nat, recent: seq<Group>) returns (older: seq<Group>)
    requires Increasing(gs) && k <= |gs| && recent == gs[k..]
    ensures older == gs[..k]
  {
    older := [];
    for j := 0 to |gs|
      invariant older == gs[..if j < k then j else k]
    {
      AmongSuffix(gs, k, j);
      if !Among(recent, gs[j]) { older := older + [gs[j]]; }
    }
  }

  lemma {:induction false} AmongSuffix(gs: seq<Group>, k: nat, i: nat)
    requires Increasing(gs) && k <= |gs| && i < |gs|
    ensures Among(gs[k..], gs[i]) <==> i >= k
  {
    if i >= k { assert gs[k..][i - k] == gs[i]; }
  }

  // ------------------------------------------------------------ raw evidence

  /** Fresh, scored above zero, and the last one with its signature. */
  predicate IsCandidate(s: Setup, older: seq<Group>, i: nat)
    requires i < |older|
  {
    && !s.evidence(older[i]).stale && s.evidence(older[i]).score > 0
    && forall j :: i < j < |older| ==> s.evidence(older[j]).signature != s.evidence(older[i]).signature
  }

  /** Better score first; among equals the newer group. */
  predicate RanksBefore(s: Setup, older: seq<Group>, i: nat, j: nat)
    requires i < |older| && j < |older|
  {
    var a, b := s.evidence(older[i]).score, s.evidence(older[j]).score;
    a > b || (a == b && i > j)
  }

  function CostOf(s: Setup, older: seq<Group>, at: set<nat>, n: nat): int
    requires n <= |older|
  {
    if n == 0 then 0
    else CostOf(s, older, at, n - 1) + if n - 1 in at then GroupCost(s, older[n - 1]) else 0
  }

  /** The groups at the positions in `at`, or those at all other positions, in order. */
  function Pick(gs: seq<Group>, at: set<nat>, inside: bool, n: nat): seq<Group>
    requires n <= |gs|
  {
    if n == 0 then []
    else Pick(gs, at, inside, n - 1) + if (n - 1 in at) == inside then [gs[n - 1]] else []
  }

  lemma {:induction false} CostOfAdd(s: Setup, older: seq<Group>, at: set<nat>, i: nat, n: nat)
    requires n <= |older| && i < |older| && i !in at
    ensures CostOf(s, older, at + {i}, n) == CostOf(s, older, at, n) + if i < n then GroupCost(s, older[i]) else 0
  {
    if n > 0 { CostOfAdd(s, older, at, i, n - 1); }
  }

  ghost predicate Ranked(s: Setup, older: seq<Group>, order: seq<nat>)
  {
    && (forall a :: 0 <= a < |order| ==> order[a] < |older|)
    && forall a, b :: 0 <= a < b < |order| ==> RanksBefore(s, older, order[a], order[b])
  }

  /** Those of the positions that outrank position `i`. */
  function Better(s: Setup, older: seq<Group>, at: set<nat>, i: nat): set<nat>
    requires i < |older|
  {
    set j | j in at && j < |older| && RanksBefore(s, older, j, i)
  }

  lemma {:induction false} InsertKeepsRanked(s: Setup, older: seq<Group>, order: seq<nat>, i: nat, k: nat)
    requires i < |older| && Ranked(s, older, order) && k <= |order|
    requires forall a :: 0 <= a < |order| ==> order[a] < i
    requires forall a :: 0 <= a < k ==> RanksBefore(s, older, order[a], i)
    requires k < |order| ==> !RanksBefore(s, older, order[k], i)
    ensures Ranked(s, older, order[..k] + [i] + order[k..])
  {
    var r := order[..k] + [i] + order[k..];
    forall b | k <= b < |order| ensures RanksBefore(s, older, i, order[b]) {
      assert b == k || RanksBefore(s, older, order[k], order[b]);
    }
    forall a, b | 0 <= a < b < |r| ensures RanksBefore(s, older, r[a], r[b]) {
      var a', b' := if a < k then a else a - 1, if b < k then b else b - 1;
      assert a != k ==> r[a] == order[a'];
      assert b != k ==> r[b] == order[b'];
    }
  }

  method InsertRanked(s: Setup, older: seq<Group>, order: seq<nat>, i: nat) returns (r: seq<nat>)
    requires i < |older| && Ranked(s, older, order) && forall a :: 0 <= a < |order| ==> order[a] < i
    ensures Ranked(s, older, r)
    ensures multiset(r) == multiset(order) + multiset{i}
  {
    var k := 0;
    while k < |order| && RanksBefore(s, older, order[k], i)
      invariant 0 <= k <= |order|
      invariant forall a :: 0 <= a < k ==> RanksBefore(s, older, order[a], i)
    {
      k := k + 1;
    }
    r := order[..k] + [i] + order[k..];
    assert order == order[..k] + order[k..];
    InsertKeepsRanked(s, older, order, i, k);
  }

  method RankCandidates(s: Setup, older: seq<Group>) returns (order: seq<nat>)
    ensures Ranked(s, older, order)
    ensures forall i :: i in multiset(order) <==> 0 <= i < |older| && IsCandidate(s, older, i)
  {
    order := [];
    for i := 0 to |older|
      invariant Ranked(s, older, order)
      invariant forall j :: j in multiset(order) <==> 0 <= j < i && IsCandidate(s, older, j)
    {
      if IsCandidate(s, older, i) {
        assert forall a :: 0 <= a < |order| ==> order[a] in multiset(order);
        order := InsertRanked(s, older, order, i);
      }
    }
  }

  /** Going down the ranking, a candidate is kept raw when its cost still fits the limit. `picked`
      are the positions kept; a candidate that was not picked did not fit beside the picked ones
      that outrank it. Selected and remaining groups both stay in order and lose nothing. */
  method SelectRaw(s: Setup, older: seq<Group>, limit: nat)
    returns (selected: seq<Group>, remainder: seq<Group>, picked: set<nat>)
    ensures PickedRaw(s, older, picked, limit)
    ensures selected == Marked(s, Pick(older, picked, true, |older|))
    ensures remainder == Pick(older, picked, false, |older|)
  {
    picked := {};
    NothingPicked(s, older, |older|);
    if !s.hybrid { return [], older, {}; }
    var order := RankCandidates(s, older);
    var used := 0;
    ghost var rejected: set<nat> := {};
    for k := 0 to |order|
      invariant used == CostOf(s, older, picked, |older|) <= limit
      invariant picked !! rejected
      invariant forall i :: i in picked + rejected <==> exists a :: 0 <= a < k && order[a] == i
      invariant forall i :: i in rejected ==> i < |older| && TooCostly(s, older, picked, i, limit)
    {
      var i := order[k];
      assert forall j :: j in picked + rejected ==> j < |older| && RanksBefore(s, older, j, i);
      assert Better(s, older, picked, i) == picked;
      if used + GroupCost(s, older[i]) <= limit {
        CostOfAdd(s, older, picked, i, |older|);
        forall j | j in rejected ensures TooCostly(s, older, picked + {i}, j, limit) {
          assert Better(s, older, picked + {i}, j) == Better(s, older, picked, j);
        }
        picked, used := picked + {i}, used + GroupCost(s, older[i]);
      } else {
        rejected := rejected + {i};
      }
    }
    assert forall i :: i in picked + rejected <==> i in multiset(order);
    selected := Marked(s, Pick(older, picked, true, |older|));
    remainder := Pick(older, picked, false, |older|);
  }

  /** The group does not fit the limit beside the picked ones that outrank it. */
  ghost predicate TooCostly(s: Setup, older: seq<Group>, picked: set<nat>, i: nat, limit: nat)
    requires i < |older|
  {
    CostOf(s, older, Better(s, older, picked, i), |older|) + GroupCost(s, older[i]) > limit
  }

  lemma {:induction false} NothingPicked(s: Setup, older: seq<Group>, n: nat)
    requires n <= |older|
    ensures CostOf(s, older, {}, n) == 0
    ensures Pick(older, {}, true, n) == [] && Pick(older, {}, false, n) == older[..n]
  {
    if n > 0 { NothingPicked(s, older, n - 1); }
  }

  /** The evidence score is recorded on the groups kept raw. */
  function Marked(s: Setup, gs: seq<Group>): (r: seq<Group>)
    ensures |r| == |gs|
    ensures forall i :: 0 <= i < |gs| ==> r[i] == gs[i].(score := s.evidence(gs[i]).score)
  {
    seq(|gs|, i requires 0 <= i < |gs| => gs[i].(score := s.evidence(gs[i]).score))
  }

  lemma {:induction false} PickFrom(gs: seq<Group>, at: set<nat>, inside: bool, n: nat)
    requires n <= |gs|
    ensures forall g :: g in Pick(gs, at, inside, n) ==> g in gs
  {
    if n > 0 { PickFrom(gs, at, inside, n - 1); }
  }

  /** Between them the two picks hold every group once. */
  lemma {:induction false} PickSplits(gs: seq<Group>, at: set<nat>, n: nat)
    requires n <= |gs|
    ensures multiset(Pick(gs, at, true, n)) + multiset(Pick(gs, at, false, n)) == multiset(gs[..n])
  {
    if n == 0 {
      assert gs[..0] == [];
    } else {
      PickSplits(gs, at, n - 1);
      PickOneMore(gs, at, n);
      OneMoreOf(Pick(gs, at, true, n - 1), Pick(gs, at, false, n - 1), gs[..n - 1], gs[n - 1],
                Pick(gs, at, true, n), Pick(gs, at, false, n), gs[..n], n - 1 in at);
    }
  }

  lemma {:induction false} PickOneMore(gs: seq<Group>, at: set<nat>, n: nat)
    requires 0 < n <= |gs|
    ensures gs[..n] == gs[..n - 1] + [gs[n - 1]]
    ensures Pick(gs, at, n - 1 in at, n) == Pick(gs, at, n - 1 in at, n - 1) + [gs[n - 1]]
    ensures Pick(gs, at, n - 1 !in at, n) == Pick(gs, at, n - 1 !in at, n - 1)
  {
  }

  lemma {:induction false} OneMoreOf(a: seq<Group>, b: seq<Group>, all: seq<Group>, x: Group,
                                     a': seq<Group>, b': seq<Group>, all': seq<Group>, inside: bool)
    requires multiset(a) + multiset(b) == multiset(all) && all' == all + [x]
    requires if inside then a' == a + [x] && b' == b else a' == a && b' == b + [x]
    ensures multiset(a') + multiset(b') == multiset(all')
  {
    MultisetSnoc(a, x);
    MultisetSnoc(b, x);
    MultisetSnoc(all, x);
  }

  // -------------------------------------------------------- assembly, budget

  function Preamble(s: Setup, summary: seq<string>, repoMap: seq<string>): seq<Message>
  {
    match s.preamble(summary, repoMap)
    case None => []
    case Some(text) => [Message(System, [], "", text)]
  }

  function Assemble(
      s: Setup, summary: seq<string>, repoMap: seq<string>, raw: seq<Group>, recent: seq<Group>): seq<Message>
  {
    Preamble(s, summary, repoMap) + Flatten(raw) + Flatten(recent)
  }

  /** The compiler's layers. `calls` numbers the condenser calls made so far. */
  datatype Layers = Layers(
    messages: seq<Message>, raw: seq<Group>, recent: seq<Group>, older: seq<Group>, summary: seq<string>, calls: nat)

  function Condensed(s: Setup, older: seq<Group>, calls: nat): seq<string>
  {
    if older == [] then [] else [s.condense(calls, older)]
  }

  predicate IsSeed(g: Group) { g.message.role.System? || g.message.role.User? }

  /** Position of the raw group with the least (score, index), the first one if there are several. */
  function Weakest(gs: seq<Group>, n: nat): (i: nat)
    requires 0 < n <= |gs|
    ensures i < n
    ensures forall k :: 0 <= k < n ==> NoWeaker(gs[k], gs[i])
  {
    if n == 1 then 0
    else
      var i := Weakest(gs, n - 1);
      if NoWeaker(gs[n - 1], gs[i]) then i else n - 1
  }

  predicate NoWeaker(a: Group, b: Group) { a.score > b.score || (a.score == b.score && a.index >= b.index) }

  /** Position of the oldest group that is neither system nor user, or the length. */
  function FirstMutable(gs: seq<Group>, i: nat): (r: nat)
    requires i <= |gs|
    ensures i <= r <= |gs|
    ensures forall k :: i <= k < r ==> IsSeed(gs[k])
    ensures r < |gs| ==> !IsSeed(gs[r])
    decreases |gs| - i
  {
    if i == |gs| || !IsSeed(gs[i]) then i else FirstMutable(gs, i + 1)
  }

  predicate Over(s: Setup, l: Layers) { Estimate(s, l.messages) > s.budget }

  predicate CanTrim(l: Layers) { l.raw != [] || FirstMutable(l.recent, 0) < |l.recent| }

  function Rebuilt(s: Setup, raw: seq<Group>, recent: seq<Group>, older: seq<Group>, calls: nat): Layers
  {
    var summary := Condensed(s, older, calls);
    Layers(Assemble(s, summary, s.repoMap, raw, recent), raw, recent, older, summary, calls + |summary|)
  }

  /** The groups after one trim: the weakest raw group, or else the oldest mutable recent one, joins
      the older groups in front. */
  function Trimmed(l: Layers): (r: (seq<Group>, seq<Group>, seq<Group>))
    requires CanTrim(l)
    ensures |r.0| + |r.1| < |l.raw| + |l.recent|
  {
    if l.raw != [] then
      var i := Weakest(l.raw, |l.raw|);
      (Without(l.raw, i), l.recent, [l.raw[i]] + l.older)
    else
      var i := FirstMutable(l.recent, 0);
      (l.raw, Without(l.recent, i), [l.recent[i]] + l.older)
  }

  function TrimStep(s: Setup, l: Layers): Layers
    requires CanTrim(l)
  {
    var (raw, recent, older) := Trimmed(l);
    Rebuilt(s, raw, recent, older, l.calls)
  }

  /** Trim one group at a time while over budget. */
  function Enforced(s: Setup, l: Layers): Layers
    decreases |l.raw| + |l.recent|
  {
    if Over(s, l) && CanTrim(l) then Enforced(s, TrimStep(s, l)) else l
  }

  /** The summary is of exactly these groups, by one call of the condenser; there is none for no groups. */
  ghost predicate Summarises(s: Setup, summary: seq<string>, groups: seq<Group>)
  {
    if groups == [] then summary == [] else exists call: nat :: summary == [s.condense(call, groups)]
  }

  /** What was older stays at the end of what is older now. */
  method EnforceNativeBudget(s: Setup, l: Layers) returns (out: Layers, enforced: bool)
    ensures out == Enforced(s, l)
    ensures enforced <==> Over(s, l) && CanTrim(l)
    ensures IsSuffix(l.older, out.older)
    ensures enforced || Summarises(s, l.summary, l.older) ==> Summarises(s, out.summary, out.older)
  {
    EnforcementSummarises(s, l);
    out, enforced := l, false;
    while Over(s, out) && (out.raw != [] || out.recent != [])
      invariant Enforced(s, out) == Enforced(s, l)
      invariant enforced ==> Over(s, l) && CanTrim(l)
      invariant !enforced ==> out == l
      decreases |out.raw| + |out.recent|
    {
      if out.raw != [] {
        var i := Weakest(out.raw, |out.raw|);
        enforced := true;
        out := Rebuilt(s, Without(out.raw, i), out.recent, [out.raw[i]] + out.older, out.calls);
        continue;
      }
      var i := FirstMutable(out.recent, 0);
      if i == |out.recent| { break; }
      enforced := true;
      out := Rebuilt(s, out.raw, Without(out.recent, i), [out.recent[i]] + out.older, out.calls);
    }
  }

  lemma {:induction false} EnforcementSummarises(s: Setup, l: Layers)
    ensures IsSuffix(l.older, Enforced(s, l).older)
    ensures MustTrim(s, l) || Summarises(s, l.summary, l.older) ==>
      Summarises(s, Enforced(s, l).summary, Enforced(s, l).older)
    decreases |l.raw| + |l.recent|
  {
    if MustTrim(s, l) {
      TrimSummarises(s, l);
      EnforcementSummarises(s, TrimStep(s, l));
    }
  }

  lemma {:induction false} TrimSummarises(s: Setup, l: Layers)
    requires CanTrim(l)
    ensures var next := TrimStep(s, l); IsSuffix(l.older, next.older) && Summarises(s, next.summary, next.older)
  {
    var next := TrimStep(s, l);
    assert next.summary == [s.condense(l.calls, next.older)];
  }

  /** The groups as grouping made them, without evidence scores. */
  function Plain(gs: seq<Group>): (r: seq<Group>)
    ensures |r| == |gs|
    ensures forall i :: 0 <= i < |gs| ==> r[i] == gs[i].(score := 0)
  {
    seq(|gs|, i requires 0 <= i < |gs| => gs[i].(score := 0))
  }

  /** All groups, wherever they are. */
  function Inventory(raw: seq<Group>, recent: seq<Group>, older: seq<Group>): multiset<Group>
  {
    multiset(Plain(raw)) + multiset(Plain(recent)) + multiset(Plain(older))
  }

  lemma {:induction false} MoveConserves(from: seq<Group>, i: nat, to: seq<Group>)
    requires i < |from|
    ensures multiset(Plain(Without(from, i))) + multiset(Plain([from[i]] + to)) ==
      multiset(Plain(from)) + multiset(Plain(to))
  {
    var a, b := Plain(from), Plain(to);
    assert a == a[..i] + [a[i]] + a[i + 1..];
    assert Plain(Without(from, i)) == a[..i] + a[i + 1..];
    assert Plain([from[i]] + to) == [a[i]] + b;
  }

  lemma {:induction false} MultisetMove<T>(
      a: multiset<T>, b: multiset<T>, c: multiset<T>, a': multiset<T>, b': multiset<T>, c': multiset<T>)
    requires (a + c == a' + c' && b == b') || (b + c == b' + c' && a == a')
    ensures a + b + c == a' + b' + c'
  {
    forall x ensures (a + b + c)[x] == (a' + b' + c')[x] {
      assert (a + c)[x] == a[x] + c[x] && (a' + c')[x] == a'[x] + c'[x];
      assert (b + c)[x] == b[x] + c[x] && (b' + c')[x] == b'[x] + c'[x];
    }
  }

  lemma {:induction false} TrimConserves(l: Layers)
    requires CanTrim(l)
    ensures Inventory(Trimmed(l).0, Trimmed(l).1, Trimmed(l).2) == Inventory(l.raw, l.recent, l.older)
  {
    var (raw, recent, older) := Trimmed(l);
    if l.raw != [] {
      MoveConserves(l.raw, Weakest(l.raw, |l.raw|), l.older);
    } else {
      MoveConserves(l.recent, FirstMutable(l.recent, 0), l.older);
    }
    MultisetMove(multiset(Plain(raw)), multiset(Plain(recent)), multiset(Plain(older)),
                 multiset(Plain(l.raw)), multiset(Plain(l.recent)), multiset(Plain(l.older)));
  }

  /** Enforcement moves groups between the layers and loses none. */
  lemma {:induction false} EnforcementConserves(s: Setup, l: Layers)
    ensures var e := Enforced(s, l); Inventory(e.raw, e.recent, e.older) == Inventory(l.raw, l.recent, l.older)
    decreases |l.raw| + |l.recent|
  {
    if Over(s, l) && CanTrim(l) {
      TrimConserves(l);
      EnforcementConserves(s, TrimStep(s, l));
    }
  }

  /** It stops within budget, or with no raw evidence and only system and user groups left. */
  lemma {:induction false} EnforcementEnds(s: Setup, l: Layers)
    ensures !Over(s, Enforced(s, l)) ||
      (Enforced(s, l).raw == [] && forall g :: g in Enforced(s, l).recent ==> IsSeed(g))
    decreases |l.raw| + |l.recent|
  {
    if Over(s, l) && CanTrim(l) {
      EnforcementEnds(s, TrimStep(s, l));
    }
  }

  /** The layers after `n` trims, as far as there is something to trim. */
  function Trims(s: Setup, l: Layers, n: nat): Layers
    decreases n
  {
    if n == 0 || !CanTrim(l) then l else Trims(s, TrimStep(s, l), n - 1)
  }

  predicate MustTrim(s: Setup, l: Layers) { Over(s, l) && CanTrim(l) }

  /** Nothing is trimmed without need, and no needed trim is left out: enforcement makes the first `n`
      trims, each from a state over budget, and stops at the first state that is not. */
  lemma {:induction false} EnforcementNeeded(s: Setup, l: Layers) returns (n: nat)
    ensures n == |l.raw| + |l.recent| - |Enforced(s, l).raw| - |Enforced(s, l).recent|
    ensures Enforced(s, l) == Trims(s, l, n)
    ensures forall k :: 0 <= k < n ==> MustTrim(s, Trims(s, l, k))
    ensures !MustTrim(s, Trims(s, l, n))
    decreases |l.raw| + |l.recent|
  {
    n := 0;
    if MustTrim(s, l) {
      var next := TrimStep(s, l);
      var m := EnforcementNeeded(s, next);
      n := m + 1;
      TrimTakesOne(s, l);
      forall k | 0 <= k < n ensures MustTrim(s, Trims(s, l, k)) {
        if k > 0 { assert Trims(s, l, k) == Trims(s, next, k - 1); }
      }
    }
  }

  lemma {:induction false} TrimTakesOne(s: Setup, l: Layers)
    requires CanTrim(l)
    ensures |TrimStep(s, l).raw| + |TrimStep(s, l).recent| == |l.raw| + |l.recent| - 1
  {
  }

  /** `gs` without its `n` oldest groups that are neither system nor user. */
  function TrimOldest(gs: seq<Group>, n: nat): seq<Group>
  {
    if n == 0 || FirstMutable(gs, 0) == |gs| then gs
    else TrimOldest(Without(gs, FirstMutable(gs, 0)), n - 1)
  }

  lemma {:induction false} TrimOldestNone(gs: seq<Group>)
    ensures TrimOldest(gs, 0) == gs
  {
  }

  lemma {:induction false} TrimOldestOnce(gs: seq<Group>, n: nat)
    requires FirstMutable(gs, 0) < |gs|
    ensures TrimOldest(gs, n + 1) == TrimOldest(Without(gs, FirstMutable(gs, 0)), n)
  {
  }

  /** Recent groups go oldest first, system and user groups never, and none goes while raw evidence is left. */
  lemma {:induction false} EnforcementOrder(s: Setup, l: Layers) returns (n: nat)
    ensures Enforced(s, l).recent == TrimOldest(l.recent, n)
    ensures n == |l.recent| - |Enforced(s, l).recent|
    ensures n > 0 ==> Enforced(s, l).raw == []
    decreases |l.raw| + |l.recent|
  {
    n := 0;
    if !(Over(s, l) && CanTrim(l)) {
      TrimOldestNone(l.recent);
    } else {
      var l' := TrimStep(s, l);
      var n' := EnforcementOrder(s, l');
      assert Enforced(s, l) == Enforced(s, l');
      if l.raw == [] {
        EnforcedRawShrinks(s, l');
        TrimOldestOnce(l.recent, n');
        n := n' + 1;
      } else {
        n := n';
      }
    }
  }

  function Seeds(gs: seq<Group>, n: nat): seq<Group>
    requires n <= |gs|
  {
    if n == 0 then [] else Seeds(gs, n - 1) + if IsSeed(gs[n - 1]) then [gs[n - 1]] else []
  }

  lemma {:induction false} WithoutKeepsSeeds(gs: seq<Group>, i: nat, n: nat)
    requires i < |gs| && !IsSeed(gs[i]) && n <= |gs|
    ensures Seeds(Without(gs, i), if n <= i then n else n - 1) == Seeds(gs, n)
  {
    if n > 0 { WithoutKeepsSeeds(gs, i, n - 1); }
  }

  /** Every system and user group of the recent layer survives, in order. */
  lemma {:induction false} EnforcementKeepsSeeds(s: Setup, l: Layers)
    ensures Seeds(Enforced(s, l).recent, |Enforced(s, l).recent|) == Seeds(l.recent, |l.recent|)
    decreases |l.raw| + |l.recent|
  {
    if Over(s, l) && CanTrim(l) {
      if l.raw == [] { WithoutKeepsSeeds(l.recent, FirstMutable(l.recent, 0), |l.recent|); }
      EnforcementKeepsSeeds(s, TrimStep(s, l));
    }
  }

  /** Raw evidence goes weakest first: what is kept is no weaker than what was dropped. */
  lemma {:induction false} EnforcementDropsWeakest(s: Setup, l: Layers, kept: Group, dropped: Group)
    requires Distinct(l.raw) && dropped in l.raw
    requires kept in Enforced(s, l).raw && dropped !in Enforced(s, l).raw
    ensures kept in l.raw && NoWeaker(kept, dropped)
    decreases |l.raw| + |l.recent|
  {
    EnforcedRawShrinks(s, l);
    var i := Weakest(l.raw, |l.raw|);
    if dropped != l.raw[i] {
      var l' := TrimStep(s, l);
      WithoutKeeps(l.raw, i, dropped);
      EnforcementDropsWeakest(s, l', kept, dropped);
    }
  }

  lemma {:induction false} WithoutKeeps<T>(s: seq<T>, i: nat, x: T)
    requires i < |s| && Distinct(s) && x in s && x != s[i]
    ensures x in Without(s, i) && Distinct(Without(s, i))
  {
    var k :| 0 <= k < |s| && s[k] == x;
    assert Without(s, i)[if k < i then k else k - 1] == x;
  }

  lemma {:induction false} EnforcedRawShrinks(s: Setup, l: Layers)
    ensures forall g :: g in Enforced(s, l).raw ==> g in l.raw
    ensures |Enforced(s, l).raw| <= |l.raw|
    decreases |l.raw| + |l.recent|
  {
    if Over(s, l) && CanTrim(l) { EnforcedRawShrinks(s, TrimStep(s, l)); }
  }

  // ------------------------------------------------------------ the pipeline

  ghost predicate Consistent(s: Setup, l: Layers)
  {
    && AllAtomic(l.raw) && AllAtomic(l.recent)
    && Accepted(l.messages)
  }

  lemma {:induction false} AssembledIsAccepted(
      s: Setup, summary: seq<string>, repoMap: seq<string>, raw: seq<Group>, recent: seq<Group>)
    requires AllAtomic(raw) && AllAtomic(recent)
    ensures Accepted(Assemble(s, summary, repoMap, raw, recent))
  {
    var start := Preamble(s, summary, repoMap);
    assert Accepted(start) by { assert |start| <= 1; assert ScanFrom(Open({}), start, 0) == Open({}); }
    AtomicGroupsAccepted(raw, |raw|);
    AtomicGroupsAccepted(recent, |recent|);
    AcceptedConcat(start, Flatten(raw));
    AcceptedConcat(start + Flatten(raw), Flatten(recent));
  }

  /** No number of trimming steps separates a call from its results. */
  lemma {:induction false} EnforcementKeepsPairing(s: Setup, l: Layers)
    requires Consistent(s, l)
    ensures Consistent(s, Enforced(s, l))
    decreases |l.raw| + |l.recent|
  {
    if Over(s, l) && CanTrim(l) {
      var l' := TrimStep(s, l);
      AssembledIsAccepted(s, l'.summary, s.repoMap, l'.raw, l'.recent);
      EnforcementKeepsPairing(s, l');
    }
  }

  /** Whether the history goes through unchanged, is only wrapped in the context, or is compressed. */
  datatype Mode = Untouched | Wrapped | Compressed

  function ModeOf(shouldCompress: bool, overHigh: bool, includeContext: bool): Mode
  {
    if shouldCompress || overHigh then Compressed else if includeContext then Wrapped else Untouched
  }

  /** The messages are the preamble, the raw evidence and the recent groups, in this order. */
  predicate LaidOut(s: Setup, l: Layers) { l.messages == Assemble(s, l.summary, s.repoMap, l.raw, l.recent) }

  predicate StartsWithSystem(history: seq<Message>) { history != [] && history[0].role.System? }

  /** Only wrapped: all groups behind the preamble, but for the history's own system message, which goes
      in front of it. */
  function WrappedStart(s: Setup, history: seq<Message>, calls: nat): Layers
  {
    var groups := GroupsOf(history);
    var preamble, all := Preamble(s, [], s.repoMap), Flatten(groups);
    var messages :=
      if StartsWithSystem(history) && all != [] then [history[0]] + preamble + all[1..] else preamble + all;
    Layers(messages, [], groups, [], [], calls)
  }

  method WrapNative(s: Setup, history: seq<Message>, calls: nat) returns (start: Layers)
    ensures start == WrappedStart(s, history, calls)
  {
    var groups := GroupNativeMessages(history);
    var laid := Assemble(s, [], s.repoMap, [], groups);
    ghost var preamble, all := Preamble(s, [], s.repoMap), Flatten(groups);
    assert laid == preamble + all;
    if history != [] { FirstMessageStays(history, |history|); }
    if history != [] && history[0].role.System? && |laid| >= 2 && laid[1] == history[0] {
      laid := [laid[1], laid[0]] + laid[2..];
    }
    start := Layers(laid, [], groups, [], [], calls);
    assert laid == WrappedStart(s, history, calls).messages;
  }

  lemma {:induction false} WrappedIsConsistent(s: Setup, history: seq<Message>, calls: nat)
    requires Accepted(history)
    ensures Consistent(s, WrappedStart(s, history, calls))
  {
    var groups := GroupsOf(history);
    var laid, messages := Assemble(s, [], s.repoMap, [], groups), WrappedStart(s, history, calls).messages;
    GroupsOfAcceptedAreAtomic(history);
    AssembledIsAccepted(s, [], s.repoMap, [], groups);
    assert laid == Preamble(s, [], s.repoMap) + Flatten(groups);
    if StartsWithSystem(history) {
      FirstMessageStays(history, |history|);
      if Preamble(s, [], s.repoMap) == [] {
        assert messages == laid;
      } else {
        assert messages == [laid[1], laid[0]] + laid[2..];
        SwapSystemMessages(laid);
      }
    }
  }

  lemma {:induction false} FirstMessageStays(history: seq<Message>, n: nat)
    requires 0 < n <= |history|
    ensures GroupsTo(history, n) != [] && GroupsTo(history, n)[0].message == history[0]
    ensures Flatten(GroupsTo(history, n)) != [] && Flatten(GroupsTo(history, n))[0] == history[0]
  {
    if n > 1 {
      FirstMessageStays(history, n - 1);
    } else {
      assert GroupsTo(history, 0) == [];
    }
    var gs := GroupsTo(history, n);
    assert FlattenTo(gs, 0) == [];
    assert FlattenTo(gs, 1) == Members(gs[0]);
    FlattenGrows(gs, 1, |gs|);
  }

  /** Recent and older groups as partitioning leaves them. */
  ghost predicate Partitioned(s: Setup, gs: seq<Group>, recent: seq<Group>, older: seq<Group>)
  {
    && gs == older + recent
    && (older != [] ==> |recent| >= Max(1, s.floor) && CostFrom(s, gs, |older| - 1) > s.recentBudget)
    && forall j {:trigger CostFrom(s, gs, j)} ::
         |older| <= j < |gs| - Max(1, s.floor) ==> CostFrom(s, gs, j) <= s.recentBudget
  }

  /** The positions kept raw: candidates that fit together, every other one too costly beside its betters. */
  ghost predicate PickedRaw(s: Setup, older: seq<Group>, picked: set<nat>, limit: nat)
  {
    && (!s.hybrid ==> picked == {})
    && (forall i :: i in picked ==> i < |older| && IsCandidate(s, older, i))
    && CostOf(s, older, picked, |older|) <= limit
    && (s.hybrid ==> forall i :: 0 <= i < |older| && IsCandidate(s, older, i) && i !in picked ==>
          TooCostly(s, older, picked, i, limit))
  }

  /** What raw evidence may cost: the room that a first summary of everything older leaves. */
  function RawLimit(s: Setup, recent: seq<Group>, older: seq<Group>, calls: nat): nat
  {
    Max(0, s.safeTarget - Estimate(s, Assemble(s, Condensed(s, older, calls), [], [], recent)))
  }

  /** Compressed: recent groups verbatim, the picked older ones raw, a summary of the rest; condensed anew
      when raw evidence was taken out. */
  function CompressedStart(s: Setup, recent: seq<Group>, older: seq<Group>, picked: set<nat>, calls: nat): Layers
  {
    var raw, rest := Marked(s, Pick(older, picked, true, |older|)), Pick(older, picked, false, |older|);
    var first := Condensed(s, older, calls);
    var again := Condensed(s, rest, calls + |first|);
    var summary := if raw == [] then first else again;
    Layers(Assemble(s, summary, s.repoMap, raw, recent), raw, recent, rest, summary,
           calls + |first| + if raw == [] then 0 else |again|)
  }

  method CompressNative(s: Setup, history: seq<Message>, calls: nat)
    returns (start: Layers, ghost older: seq<Group>, ghost picked: set<nat>)
    ensures start == CompressedStart(s, start.recent, older, picked, calls)
    ensures Partitioned(s, GroupsOf(history), start.recent, older)
    ensures PickedRaw(s, older, picked, RawLimit(s, start.recent, older, calls))
  {
    var groups := GroupNativeMessages(history);
    GroupIndices(history, |history|);
    var recent, earlier := PartitionGroups(s, groups);
    var chosen;
    start, chosen := CompressGroups(s, recent, earlier, calls);
    older, picked := earlier, chosen;
  }

  method CompressGroups(s: Setup, recent: seq<Group>, older: seq<Group>, calls: nat)
    returns (start: Layers, picked: set<nat>)
    ensures start == CompressedStart(s, recent, older, picked, calls)
    ensures PickedRaw(s, older, picked, RawLimit(s, recent, older, calls))
  {
    var summary := Condensed(s, older, calls);
    var calls' := calls + |summary|;
    var baseline := Estimate(s, Assemble(s, summary, [], [], recent));
    var limit := Max(0, s.safeTarget - baseline);
    assert limit == RawLimit(s, recent, older, calls);
    var selected, remainder;
    selected, remainder, picked := SelectRaw(s, older, limit);
    StartAssembled(s, recent, older, picked, calls);
    if selected != [] {
      summary := Condensed(s, remainder, calls');
      calls' := calls' + |summary|;
    }
    start := Layers(Assemble(s, summary, s.repoMap, selected, recent), selected, recent, remainder, summary, calls');
  }

  lemma {:induction false} StartAssembled(
      s: Setup, recent: seq<Group>, older: seq<Group>, picked: set<nat>, calls: nat)
    ensures var raw, rest := Marked(s, Pick(older, picked, true, |older|)), Pick(older, picked, false, |older|);
      var first := Condensed(s, older, calls); var again := Condensed(s, rest, calls + |first|);
      CompressedStart(s, recent, older, picked, calls) ==
        if raw == [] then Layers(Assemble(s, first, s.repoMap, [], recent), [], recent, rest, first, calls + |first|)
        else Layers(Assemble(s, again, s.repoMap, raw, recent), raw, recent, rest, again, calls + |first| + |again|)
  {
  }

  /** What budget enforcement starts from. */
  ghost predicate StartOf(s: Setup, history: seq<Message>, mode: Mode, calls: nat, start: Layers)
  {
    match mode
    case Untouched => start == Layers(history, [], [], [], [], calls)
    case Wrapped => start == WrappedStart(s, history, calls)
    case Compressed => exists older, picked ::
      && start == CompressedStart(s, start.recent, older, picked, calls)
      && Partitioned(s, GroupsOf(history), start.recent, older)
      && PickedRaw(s, older, picked, RawLimit(s, start.recent, older, calls))
  }

  lemma {:induction false} StartIsConsistent(s: Setup, history: seq<Message>, mode: Mode, calls: nat, start: Layers)
    requires StartOf(s, history, mode, calls, start) && !mode.Untouched? && Accepted(history)
    ensures Consistent(s, start)
  {
    if mode.Wrapped? {
      WrappedIsConsistent(s, history, calls);
    } else {
      var older, picked :| start == CompressedStart(s, start.recent, older, picked, calls)
        && Partitioned(s, GroupsOf(history), start.recent, older);
      GroupsOfAcceptedAreAtomic(history);
      SelectionKeepsAtomic(s, GroupsOf(history), start.recent, older, picked);
      AssembledIsAccepted(s, start.summary, s.repoMap, start.raw, start.recent);
    }
  }

  lemma {:induction false} StartConserves(s: Setup, history: seq<Message>, mode: Mode, calls: nat, start: Layers)
    requires StartOf(s, history, mode, calls, start) && !mode.Untouched?
    ensures Inventory(start.raw, start.recent, start.older) == multiset(GroupsOf(history))
  {
    PlainGroups(history, |history|);
    if mode.Compressed? {
      var older, picked :| start == CompressedStart(s, start.recent, older, picked, calls)
        && Partitioned(s, GroupsOf(history), start.recent, older);
      SelectionConserves(s, history, start.recent, older, picked);
    }
  }

  lemma {:induction false} StartSummarises(s: Setup, history: seq<Message>, mode: Mode, calls: nat, start: Layers)
    requires StartOf(s, history, mode, calls, start) && !mode.Untouched?
    ensures Summarises(s, start.summary, start.older)
  {
    if mode.Compressed? {
      var older, picked :| start == CompressedStart(s, start.recent, older, picked, calls)
        && Partitioned(s, GroupsOf(history), start.recent, older);
      CompressedSummarises(s, start.recent, older, picked, calls);
    }
  }

  lemma {:induction false} CompressedSummarises(
      s: Setup, recent: seq<Group>, older: seq<Group>, picked: set<nat>, calls: nat)
    ensures var start := CompressedStart(s, recent, older, picked, calls); Summarises(s, start.summary, start.older)
  {
    var raw, rest := Pick(older, picked, true, |older|), Pick(older, picked, false, |older|);
    if raw == [] {
      PickedNone(older, picked, |older|);
      assert rest == older;
      if older != [] { assert Condensed(s, older, calls) == [s.condense(calls, rest)]; }
    } else if rest != [] {
      var call := calls + |Condensed(s, older, calls)|;
      assert Condensed(s, rest, call) == [s.condense(call, rest)];
    }
  }

  lemma {:induction false} PickedNone(gs: seq<Group>, at: set<nat>, n: nat)
    requires n <= |gs| && Pick(gs, at, true, n) == []
    ensures Pick(gs, at, false, n) == gs[..n]
  {
    if n > 0 { PickedNone(gs, at, n - 1); }
  }

  lemma {:induction false} EnforcedFromStart(s: Setup, start: Layers)
    ensures var out := Enforced(s, start);
      && (if MustTrim(s, start) then LaidOut(s, out) else out == start)
      && (Estimate(s, out.messages) <= s.budget || (out.raw == [] && forall g :: g in out.recent ==> IsSeed(g)))
      && Inventory(out.raw, out.recent, out.older) == Inventory(start.raw, start.recent, start.older)
  {
    EnforcementConserves(s, start);
    EnforcementEnds(s, start);
    if MustTrim(s, start) { EnforcementLaysOut(s, start); }
  }

  /** The messages of a compile are those of its last layers: laid out in order, unless nothing was trimmed
      from the start. For every history the pairing scan accepts they are accepted too, in every mode,
      for every counter, condenser and scoring, and after any number of budget steps. */
  method CompileNative(
      s: Setup, history: seq<Message>, shouldCompress: bool, overHigh: bool, includeContext: bool, calls: nat)
    returns (messages: seq<Message>, out: Layers, ghost start: Layers)
    ensures messages == out.messages
    ensures StartOf(s, history, ModeOf(shouldCompress, overHigh, includeContext), calls, start)
    ensures Accepted(history) ==> Accepted(messages)
    ensures !shouldCompress && !overHigh && !includeContext ==> messages == history
    ensures !shouldCompress && !overHigh && includeContext ==> start == WrappedStart(s, history, calls)
    ensures shouldCompress || overHigh ==> StartOf(s, history, Compressed, calls, start)
    ensures shouldCompress || overHigh || includeContext ==>
              && out == Enforced(s, start)
              && (if MustTrim(s, start) then LaidOut(s, out) else out == start)
              && Summarises(s, out.summary, out.older) && IsSuffix(start.older, out.older)
              && (Estimate(s, messages) <= s.budget || (out.raw == [] && forall g :: g in out.recent ==> IsSeed(g)))
              && Inventory(out.raw, out.recent, out.older) == multiset(GroupsOf(history))
  {
    var mode := ModeOf(shouldCompress, overHigh, includeContext);
    if mode.Untouched? {
      out := Layers(history, [], [], [], [], calls);
      return history, out, out;
    }
    var begin;
    if mode.Wrapped? {
      begin := WrapNative(s, history, calls);
    } else {
      ghost var older, picked;
      begin, older, picked := CompressNative(s, history, calls);
    }
    start := begin;
    var enforced;
    out, enforced := EnforceNativeBudget(s, begin);
    if Accepted(history) {
      StartIsConsistent(s, history, mode, calls, begin);
      EnforcementKeepsPairing(s, begin);
    }
    StartConserves(s, history, mode, calls, begin);
    StartSummarises(s, history, mode, calls, begin);
    EnforcedFromStart(s, begin);
    messages := out.messages;
  }

  /** Once a group is trimmed, the messages are laid out from the layers left. */
  lemma {:induction false} EnforcementLaysOut(s: Setup, l: Layers)
    requires MustTrim(s, l) || LaidOut(s, l)
    ensures LaidOut(s, Enforced(s, l))
    decreases |l.raw| + |l.recent|
  {
    if MustTrim(s, l) { EnforcementLaysOut(s, TrimStep(s, l)); }
  }

  // ------------------------------------------------- the history's system message

  lemma {:induction false} FirstSeedStays(s: Setup, l: Layers)
    requires l.recent != [] && IsSeed(l.recent[0])
    ensures Enforced(s, l).recent != [] && Enforced(s, l).recent[0] == l.recent[0]
    decreases |l.raw| + |l.recent|
  {
    if MustTrim(s, l) {
      var next := TrimStep(s, l);
      assert next.recent != [] && next.recent[0] == l.recent[0];
      FirstSeedStays(s, next);
    }
  }

  /** A history that begins with a system message and is only wrapped keeps that message first exactly when
      nothing has to be trimmed, or the preamble is empty or happens to equal it: every trim lays the
      messages out again, with the preamble in front. */
  lemma {:induction false} SystemMessageFirstIff(s: Setup, history: seq<Message>, calls: nat)
    requires StartsWithSystem(history)
    ensures var start := WrappedStart(s, history, calls); var out := Enforced(s, start);
      var preamble := Preamble(s, out.summary, s.repoMap);
      && out.messages != []
      && (out.messages[0] == history[0]
          <==> !MustTrim(s, start) || preamble == [] || preamble[0] == history[0])
  {
    var start := WrappedStart(s, history, calls);
    var out := Enforced(s, start);
    FirstMessageStays(history, |history|);
    if MustTrim(s, start) {
      FirstSeedStays(s, start);
      FlattensFirst(out.recent);
      TrimmedBegins(s, start);
    }
  }

  lemma {:induction false} FlattensFirst(gs: seq<Group>)
    requires gs != []
    ensures Flatten(gs) != [] && Flatten(gs)[0] == gs[0].message
  {
    assert FlattenTo(gs, 0) == [];
    assert FlattenTo(gs, 1) == Members(gs[0]);
    FlattenGrows(gs, 1, |gs|);
  }

  /** Without raw evidence, trimmed messages are the preamble and the recent groups left. */
  lemma {:induction false} TrimmedBegins(s: Setup, l: Layers)
    requires MustTrim(s, l) && l.raw == []
    ensures var out := Enforced(s, l);
      out.messages == Preamble(s, out.summary, s.repoMap) + Flatten(out.recent)
  {
    EnforcementLaysOut(s, l);
    EnforcedRawShrinks(s, l);
    var out := Enforced(s, l);
    var front := Preamble(s, out.summary, s.repoMap);
    assert Flatten(out.raw) == [] && front + [] == front;
  }

  /** Exchanging the first two messages when both are system messages changes nothing for the scan. */
  lemma {:induction false} SwapSystemMessages(laid: seq<Message>)
    requires |laid| >= 2 && laid[0].role.System? && laid[1].role.System?
    ensures Accepted([laid[1], laid[0]] + laid[2..]) <==> Accepted(laid)
  {
    var first, rest := laid[..2], laid[2..];
    assert laid == first + rest;
    ScanConcat(Open({}), first, rest, |rest|);
    var swapped := [laid[1], laid[0]];
    ScanConcat(Open({}), swapped, rest, |rest|);
    assert ScanFrom(Open({}), first, 0) == Open({}) == ScanFrom(Open({}), swapped, 0);
    assert ScanFrom(Open({}), first, 1) == Open({}) == ScanFrom(Open({}), swapped, 1);
  }

  lemma {:induction false} PlainGroups(history: seq<Message>, n: nat)
    requires n <= |history|
    ensures Plain(GroupsTo(history, n)) == GroupsTo(history, n)
  {
    if n > 0 {
      PlainGroups(history, n - 1);
      var gs, m := GroupsTo(history, n - 1), history[n - 1];
      var placed := Place(gs, n - 1, m);
      forall k | 0 <= k < |placed| ensures placed[k].score == 0 {
        assert k < |gs| ==> Plain(gs)[k] == gs[k];
      }
    }
  }

  lemma {:induction false} PlainSame(gs: seq<Group>, source: seq<Group>)
    requires Plain(source) == source && forall g :: g in gs ==> g in source
    ensures Plain(gs) == gs
  {
    forall k | 0 <= k < |gs| ensures gs[k].score == 0 {
      assert gs[k] in source;
      var j :| 0 <= j < |source| && source[j] == gs[k];
      assert Plain(source)[j] == source[j];
    }
  }

  lemma {:induction false} SelectionConserves(
      s: Setup, history: seq<Message>, recent: seq<Group>, older: seq<Group>, picked: set<nat>)
    requires GroupsOf(history) == older + recent
    ensures Inventory(Marked(s, Pick(older, picked, true, |older|)), recent, Pick(older, picked, false, |older|)) ==
      multiset(GroupsOf(history))
  {
    var groups, inside, outside := GroupsOf(history), Pick(older, picked, true, |older|),
      Pick(older, picked, false, |older|);
    PlainGroups(history, |history|);
    PickFrom(older, picked, true, |older|);
    PickFrom(older, picked, false, |older|);
    PlainSame(inside, groups);
    PlainSame(outside, groups);
    PlainSame(recent, groups);
    assert Plain(Marked(s, inside)) == Plain(inside);
    PickSplits(older, picked, |older|);
    assert older[..|older|] == older;
    assert multiset(groups) == multiset(older) + multiset(recent);
  }

  lemma {:induction false} SelectionKeepsAtomic(
      s: Setup, groups: seq<Group>, recent: seq<Group>, older: seq<Group>, picked: set<nat>)
    requires AllAtomic(groups) && groups == older + recent
    ensures AllAtomic(recent) && AllAtomic(older)
    ensures AllAtomic(Marked(s, Pick(older, picked, true, |older|)))
  {
    assert forall g :: g in older ==> g in groups;
    assert forall g :: g in recent ==> g in groups;
    PickFrom(older, picked, true, |older|);
    var chosen := Pick(older, picked, true, |older|);
    forall g | g in Marked(s, chosen) ensures Atomic(g) {
      var i :| 0 <= i < |chosen| && Marked(s, chosen)[i] == g;
      assert chosen[i] in chosen;
      assert Atomic(chosen[i]);
      assert ResultIds(g) == ResultIds(chosen[i]);
    }
  }
}
