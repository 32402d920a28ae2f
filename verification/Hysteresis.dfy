/** The compression throttle of the context budget: one state per pipeline, consulted and updated
    once per compile. */
module Hysteresis {
  import opened Wrappers

  datatype Mode = Legacy | Native

  datatype Policy = Policy(usable: int, highWatermark: real, minNew: int, minReclaim: int, minReclaimRatio: real)

  datatype Throttle = Throttle(
    steps: nat, skipped: nat, thrashing: bool, lastLength: nat, lastFingerprint: string, lastCompiled: Option<int>)

  const Fresh := Throttle(0, 0, false, 0, "", None)

  /** One compile: the pipeline, the estimated size, the history and the size of the result. */
  datatype Turn = Turn(mode: Mode, estimated: int, length: nat, fingerprint: string, compiled: int)

  function Utilization(p: Policy, tokens: int): real
  {
    if p.usable == 0 then 1.0 else tokens as real / p.usable as real
  }

  predicate OverHigh(p: Policy, t: Turn) { Utilization(p, t.estimated) >= p.highWatermark }

  /** Too little was added since the last counted compression, or its oldest span is unchanged. */
  predicate NoGain(p: Policy, h: Throttle, t: Turn)
  {
    && h.lastLength != 0
    && ((if t.length > h.lastLength then t.length - h.lastLength else 0) < p.minNew
        || (t.fingerprint != "" && h.lastFingerprint != "" && t.fingerprint == h.lastFingerprint))
  }

  predicate Compresses(p: Policy, h: Throttle, t: Turn) { OverHigh(p, t) && !NoGain(p, h, t) }

  function Reclaimed(t: Turn): int { if t.estimated > t.compiled then t.estimated - t.compiled else 0 }

  predicate ReclaimsLittle(p: Policy, t: Turn)
  {
    && t.compiled != 0 && t.estimated != 0
    && (Reclaimed(t) < p.minReclaim || Reclaimed(t) as real / t.estimated as real < p.minReclaimRatio)
  }

  /** The throttle after the turn. */
  function After(p: Policy, h: Throttle, t: Turn): Throttle
  {
    if Compresses(p, h, t) then
      Throttle(0, h.skipped, h.thrashing || ReclaimsLittle(p, t), t.length, t.fingerprint, Some(t.compiled))
    else
      h.(steps := h.steps + 1, skipped := if OverHigh(p, t) then h.skipped + 1 else h.skipped)
  }

  class ContextBudget {
    const policy: Policy
    var legacy: Throttle
    var native: Throttle

    constructor (policy: Policy)
      ensures this.policy == policy && legacy == Fresh && native == Fresh
    {
      this.policy := policy;
      legacy, native := Fresh, Fresh;
    }

    function Of(mode: Mode): Throttle
      reads this
    {
      if mode.Legacy? then legacy else native
    }

    method Store(mode: Mode, h: Throttle)
      modifies this
      ensures Of(mode) == h
      ensures forall m :: m != mode ==> Of(m) == old(Of(m))
    {
      if mode.Legacy? { legacy := h; } else { native := h; }
    }

    method ShouldCompress(t: Turn) returns (compress: bool)
      modifies this
      ensures compress == Compresses(policy, old(Of(t.mode)), t)
      ensures Of(t.mode) == old(Of(t.mode)).(steps := old(Of(t.mode)).steps + 1,
                skipped := old(Of(t.mode)).skipped + if OverHigh(policy, t) && !compress then 1 else 0)
      ensures forall m :: m != t.mode ==> Of(m) == old(Of(m))
    {
      var h := Of(t.mode);
      h := h.(steps := h.steps + 1);
      Store(t.mode, h);
      if !OverHigh(policy, t) { return false; }
      if h.lastLength != 0 {
        var added := if t.length > h.lastLength then t.length - h.lastLength else 0;
        if added < policy.minNew
           || (t.fingerprint != "" && h.lastFingerprint != "" && t.fingerprint == h.lastFingerprint) {
          Store(t.mode, h.(skipped := h.skipped + 1));
          return false;
        }
      }
      return true;
    }

    method MarkCompressed(t: Turn)
      modifies this
      ensures Of(t.mode) == Throttle(0, old(Of(t.mode)).skipped, old(Of(t.mode)).thrashing || ReclaimsLittle(policy, t),
                                     t.length, t.fingerprint, Some(t.compiled))
      ensures forall m :: m != t.mode ==> Of(m) == old(Of(m))
    {
      var h := Of(t.mode);
      h := h.(steps := 0, lastLength := t.length, lastFingerprint := t.fingerprint, lastCompiled := Some(t.compiled));
      if ReclaimsLittle(policy, t) { h := h.(thrashing := true); }
      Store(t.mode, h);
    }

    /** One compile of either pipeline: ask, and register when a compression is counted. */
    method CompileTurn(t: Turn) returns (counted: bool)
      modifies this
      ensures counted == Compresses(policy, old(Of(t.mode)), t)
      ensures Of(t.mode) == After(policy, old(Of(t.mode)), t)
      ensures forall m :: m != t.mode ==> Of(m) == old(Of(m))
    {
      counted := ShouldCompress(t);
      if counted { MarkCompressed(t); }
    }

    method ResetHysteresis()
      modifies this
      ensures forall m :: Of(m) == Fresh
    {
      legacy, native := Fresh, Fresh;
    }
  }

  // ----------------------------------------------- runs, between two resets

  /** The throttle of one pipeline after the first `n` turns of an interleaved run. */
  function StateOf(p: Policy, run: seq<Turn>, n: nat, mode: Mode): Throttle
    requires n <= |run|
  {
    if n == 0 then Fresh
    else if run[n - 1].mode == mode then After(p, StateOf(p, run, n - 1, mode), run[n - 1])
    else StateOf(p, run, n - 1, mode)
  }

  /** Whether turn `i` of the run counts a compression. */
  predicate Counted(p: Policy, run: seq<Turn>, i: nat)
    requires i < |run|
  {
    Compresses(p, StateOf(p, run, i, run[i].mode), run[i])
  }

  /** One `ask`: the throttle is reset, then every turn is compiled. */
  method CompileRun(b: ContextBudget, run: seq<Turn>) returns (counted: seq<bool>)
    modifies b
    ensures |counted| == |run| && forall i :: 0 <= i < |run| ==> counted[i] == Counted(b.policy, run, i)
  {
    b.ResetHysteresis();
    counted := [];
    for n := 0 to |run|
      invariant |counted| == n && forall i :: 0 <= i < n ==> counted[i] == Counted(b.policy, run, i)
      invariant forall m :: b.Of(m) == StateOf(b.policy, run, n, m)
    {
      var c := b.CompileTurn(run[n]);
      counted := counted + [c];
    }
  }

  /** The turns of one pipeline among the first `n`. */
  function Only(run: seq<Turn>, n: nat, mode: Mode): seq<Turn>
    requires n <= |run|
  {
    if n == 0 then [] else Only(run, n - 1, mode) + if run[n - 1].mode == mode then [run[n - 1]] else []
  }

  lemma {:induction false} StatePrefix(p: Policy, a: seq<Turn>, b: seq<Turn>, n: nat, mode: Mode)
    requires n <= |a|
    ensures StateOf(p, a + b, n, mode) == StateOf(p, a, n, mode)
  {
    if n > 0 { StatePrefix(p, a, b, n - 1, mode); }
  }

  lemma {:induction false} StateAlone(p: Policy, run: seq<Turn>, n: nat, mode: Mode)
    requires n <= |run|
    ensures StateOf(p, run, n, mode) == StateOf(p, Only(run, n, mode), |Only(run, n, mode)|, mode)
  {
    if n > 0 {
      StateAlone(p, run, n - 1, mode);
      var only := Only(run, n - 1, mode);
      if run[n - 1].mode == mode {
        StatePrefix(p, only, [run[n - 1]], |only|, mode);
      } else {
        assert only + [] == only;
      }
    }
  }

  /** Pipelines do not influence each other: a turn of an interleaved run is decided as it is in the
      run of its own pipeline alone. */
  lemma {:induction false} PipelinesAreIndependent(p: Policy, run: seq<Turn>, i: nat)
    requires i < |run|
    ensures var alone, k := Only(run, i + 1, run[i].mode), |Only(run, i, run[i].mode)|;
      k + 1 == |alone| && alone[k] == run[i] && Counted(p, run, i) == Counted(p, alone, k)
  {
    var mode := run[i].mode;
    var before := Only(run, i, mode);
    assert Only(run, i + 1, mode) == before + [run[i]];
    StateAlone(p, run, i, mode);
    StatePrefix(p, before, [run[i]], |before|, mode);
  }

  /** Counted compressions of the pipeline among the first `n` turns. */
  function Count(p: Policy, run: seq<Turn>, n: nat, mode: Mode): nat
    requires n <= |run|
  {
    if n == 0 then 0
    else Count(p, run, n - 1, mode) + if run[n - 1].mode == mode && Counted(p, run, n - 1) then 1 else 0
  }

  lemma {:induction false} UntouchedSince(p: Policy, run: seq<Turn>, i: nat, n: nat, mode: Mode)
    requires i <= n <= |run|
    requires forall k :: i <= k < n && run[k].mode == mode ==> !Counted(p, run, k)
    ensures StateOf(p, run, n, mode).lastLength == StateOf(p, run, i, mode).lastLength
    ensures StateOf(p, run, n, mode).lastFingerprint == StateOf(p, run, i, mode).lastFingerprint
  {
    if i < n { UntouchedSince(p, run, i, n - 1, mode); }
  }

  /** After a counted compression of a non-empty history, and until the next one, a turn counts exactly when its
      estimate reaches the watermark's share of the budget, enough entries were added, and the oldest span of
      the history is known to have changed or not known at all. */
  lemma {:induction false} NextCompressionIff(p: Policy, run: seq<Turn>, i: nat, j: nat)
    requires i < j < |run| && run[i].mode == run[j].mode && Counted(p, run, i) && run[i].length > 0
    requires forall k :: i < k < j && run[k].mode == run[i].mode ==> !Counted(p, run, k)
    ensures Counted(p, run, j) <==>
              (&& (if p.usable == 0 then p.highWatermark <= 1.0
                   else run[j].estimated as real / p.usable as real >= p.highWatermark)
               && (run[j].length - run[i].length >= p.minNew || (p.minNew <= 0 && run[j].length <= run[i].length))
               && (run[i].fingerprint == "" || run[j].fingerprint == "" || run[i].fingerprint != run[j].fingerprint))
  {
    UntouchedSince(p, run, i + 1, j, run[i].mode);
  }

  /** Thrashing is reported once some counted compression, with both sizes known, reclaimed fewer tokens, or a
      smaller part of them, than the policy asks for. */
  lemma {:induction false} ThrashingIff(p: Policy, run: seq<Turn>, n: nat, mode: Mode)
    requires n <= |run|
    ensures StateOf(p, run, n, mode).thrashing <==>
              exists k :: 0 <= k < n && run[k].mode == mode && Counted(p, run, k) && Thrashes(p, run[k])
  {
    if n > 0 { ThrashingIff(p, run, n - 1, mode); }
  }

  predicate Thrashes(p: Policy, t: Turn)
  {
    && t.compiled != 0 && t.estimated != 0
    && (Max(0, t.estimated - t.compiled) < p.minReclaim
        || Max(0, t.estimated - t.compiled) as real / t.estimated as real < p.minReclaimRatio)
  }

  /** The turns that were skipped are those over the watermark that did not count. */
  lemma {:induction false} SkippedAreCounted(p: Policy, run: seq<Turn>, n: nat, mode: Mode)
    requires n <= |run|
    ensures StateOf(p, run, n, mode).skipped == Highs(p, run, n, mode) - Count(p, run, n, mode)
  {
    if n > 0 { SkippedAreCounted(p, run, n - 1, mode); }
  }

  /** Two successive counted compressions of a pipeline are at least `minNew` history entries apart,
      provided the first one saw a non-empty history. */
  lemma {:induction false} SuccessiveCompressionsAreSpaced(p: Policy, run: seq<Turn>, i: nat, j: nat)
    requires p.minNew >= 1 && i < j < |run| && run[i].mode == run[j].mode
    requires Counted(p, run, i) && Counted(p, run, j) && run[i].length > 0
    requires forall k :: i < k < j && run[k].mode == run[i].mode ==> !Counted(p, run, k)
    ensures run[j].length >= run[i].length + p.minNew
  {
    UntouchedSince(p, run, i + 1, j, run[i].mode);
  }

  lemma {:induction false} LastLengthSeen(p: Policy, run: seq<Turn>, n: nat, mode: Mode, most: nat)
    requires n <= |run| && forall k :: 0 <= k < n && run[k].mode == mode ==> run[k].length <= most
    ensures StateOf(p, run, n, mode).lastLength <= most
  {
    if n > 0 { LastLengthSeen(p, run, n - 1, mode, most); }
  }

  /** Every compression of the pipeline counted among the first `n` turns saw an empty history. */
  predicate OnlyEmptyCounted(p: Policy, run: seq<Turn>, n: nat, mode: Mode)
    requires n <= |run|
  {
    forall k :: 0 <= k < n && run[k].mode == mode && Counted(p, run, k) ==> run[k].length == 0
  }

  /** The pipeline's turns over the watermark among the first `n`. */
  function Highs(p: Policy, run: seq<Turn>, n: nat, mode: Mode): nat
    requires n <= |run|
  {
    if n == 0 then 0
    else Highs(p, run, n - 1, mode) + if run[n - 1].mode == mode && OverHigh(p, run[n - 1]) then 1 else 0
  }

  /** Until a non-empty history is compressed there is no throttle: a turn counts exactly when it is
      over the watermark, that is, its estimate reaches the watermark's share of the budget; without a budget
      every turn stands at one. */
  lemma {:induction false} UnthrottledWhileEmpty(p: Policy, run: seq<Turn>, n: nat, mode: Mode)
    requires n <= |run| && OnlyEmptyCounted(p, run, n, mode)
    ensures StateOf(p, run, n, mode).lastLength == 0
    ensures Count(p, run, n, mode) == Highs(p, run, n, mode)
    ensures n < |run| && run[n].mode == mode ==> (Counted(p, run, n) <==> OverHigh(p, run[n]))
    ensures n < |run| && run[n].mode == mode ==>
              (Counted(p, run, n) <==>
                if p.usable == 0 then p.highWatermark <= 1.0
                else run[n].estimated as real / p.usable as real >= p.highWatermark)
  {
    if n > 0 { UnthrottledWhileEmpty(p, run, n - 1, mode); }
  }

  /** The first counted compression of a non-empty history. */
  predicate FirstNonEmpty(p: Policy, run: seq<Turn>, first: nat, mode: Mode)
    requires first < |run|
  {
    run[first].mode == mode && Counted(p, run, first) && run[first].length > 0 && OnlyEmptyCounted(p, run, first, mode)
  }

  lemma {:induction false} FindFirstNonEmpty(p: Policy, run: seq<Turn>, n: nat, mode: Mode) returns (first: nat)
    requires n <= |run| && !OnlyEmptyCounted(p, run, n, mode)
    ensures first < n && FirstNonEmpty(p, run, first, mode)
  {
    if OnlyEmptyCounted(p, run, n - 1, mode) {
      first := n - 1;
    } else {
      first := FindFirstNonEmpty(p, run, n - 1, mode);
    }
  }

  /** From the first counted compression of a non-empty history on, lengths grow by `minNew` for each
      further one; whatever histories the other turns saw. */
  lemma {:induction false} GrowthSinceFirst(p: Policy, run: seq<Turn>, first: nat, n: nat, mode: Mode)
    requires p.minNew >= 1 && first < n <= |run| && FirstNonEmpty(p, run, first, mode)
    ensures var more := Count(p, run, n, mode) - Count(p, run, first, mode) - 1;
      more >= 0 && StateOf(p, run, n, mode).lastLength >= run[first].length + more * p.minNew
  {
    if n > first + 1 {
      GrowthSinceFirst(p, run, first, n - 1, mode);
      var more := Count(p, run, n - 1, mode) - Count(p, run, first, mode) - 1;
      OneMore(more + 1, p.minNew);
      ScaleUp(0, more, p.minNew);
    }
  }

  lemma {:induction false} OneMore(c: int, m: int)
    ensures c * m == (c - 1) * m + m
  {
  }

  /** With histories no longer than `most`, a pipeline counts its turns over the watermark as long as
      they see empty histories, and from the first counted non-empty one, of length L1, on at most
      1 + (most - L1) / minNew compressions. */
  lemma {:induction false} CompressionsAreBounded(p: Policy, run: seq<Turn>, mode: Mode, most: nat)
    requires p.minNew >= 1 && forall k :: 0 <= k < |run| && run[k].mode == mode ==> run[k].length <= most
    ensures if OnlyEmptyCounted(p, run, |run|, mode) then Count(p, run, |run|, mode) == Highs(p, run, |run|, mode)
      else exists first :: 0 <= first < |run| && FirstNonEmpty(p, run, first, mode) && run[first].length <= most
             && Count(p, run, |run|, mode) <= Highs(p, run, first, mode) + 1 + (most - run[first].length) / p.minNew
  {
    if OnlyEmptyCounted(p, run, |run|, mode) {
      UnthrottledWhileEmpty(p, run, |run|, mode);
    } else {
      var first := FindFirstNonEmpty(p, run, |run|, mode);
      UnthrottledWhileEmpty(p, run, first, mode);
      GrowthSinceFirst(p, run, first, |run|, mode);
      LastLengthSeen(p, run, |run|, mode, most);
      var more := Count(p, run, |run|, mode) - Count(p, run, first, mode) - 1;
      DivideBound(more, p.minNew, most - run[first].length);
    }
  }

  /** So without empty histories at most 1 + (most - L1) / minNew, L1 being the length at the first one. */
  lemma {:induction false} NonEmptyCompressionsAreBounded(p: Policy, run: seq<Turn>, mode: Mode, most: nat, first: nat)
    requires p.minNew >= 1 && forall k :: 0 <= k < |run| && run[k].mode == mode ==> run[k].length <= most
    requires first < |run| && run[first].mode == mode && Counted(p, run, first) && Count(p, run, first, mode) == 0
    requires run[first].length > 0
    ensures Count(p, run, |run|, mode) <= 1 + (most - run[first].length) / p.minNew
  {
    NoneCounted(p, run, first, mode);
    GrowthSinceFirst(p, run, first, |run|, mode);
    LastLengthSeen(p, run, |run|, mode, most);
    DivideBound(Count(p, run, |run|, mode) - 1, p.minNew, most - run[first].length);
  }

  lemma {:induction false} NoneCounted(p: Policy, run: seq<Turn>, n: nat, mode: Mode)
    requires n <= |run| && Count(p, run, n, mode) == 0
    ensures OnlyEmptyCounted(p, run, n, mode)
  {
    if n > 0 { NoneCounted(p, run, n - 1, mode); }
  }

  lemma {:induction false} ScaleUp(a: int, b: int, m: int)
    requires m >= 1
    ensures a <= b ==> a * m <= b * m
  {
    if a <= b { assert (b - a) * m >= 0; }
  }

  lemma {:induction false} DivideBound(k: nat, m: int, x: int)
    requires m >= 1 && k * m <= x
    ensures k <= x / m
  {
    var q := x / m;
    assert x == m * q + x % m;
    ScaleUp(q + 1, k, m);
    OneMore(q + 1, m);
  }

  /** A compression of an empty history leaves no trace in the throttle: the next turn over the
      watermark compresses again, whatever was added. */
  lemma {:induction false} EmptyHistoryIsNotThrottled(p: Policy, run: seq<Turn>, i: nat, j: nat)
    requires i < j < |run| && run[i].mode == run[j].mode
    requires Counted(p, run, i) && run[i].length == 0
    requires forall k :: i < k < j && run[k].mode == run[i].mode ==> !Counted(p, run, k)
    ensures Counted(p, run, j) <==> OverHigh(p, run[j])
  {
    UntouchedSince(p, run, i + 1, j, run[i].mode);
  }

  /** So the bound fails for empty histories: every turn over the watermark is counted. */
  lemma {:induction false} EmptyHistoriesCountEveryTime(p: Policy, t: Turn, n: nat)
    requires OverHigh(p, t) && t.length == 0
    ensures var run := seq(n, _ => t); Count(p, run, n, t.mode) == n
  {
    EmptyRun(p, t, n, n);
  }

  lemma {:induction false} EmptyRun(p: Policy, t: Turn, size: nat, n: nat)
    requires OverHigh(p, t) && t.length == 0 && n <= size
    ensures var run := seq(size, _ => t);
      Count(p, run, n, t.mode) == n && StateOf(p, run, n, t.mode).lastLength == 0
  {
    if n > 0 { EmptyRun(p, t, size, n - 1); }
  }
}
