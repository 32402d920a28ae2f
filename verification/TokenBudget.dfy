/** Measuring and clipping text: by characters, or by an arbitrary token counter. */
module TokenBudget {
  import opened Wrappers

  /** What the budget counts; `Tokens` holds any deterministic counter. */
  datatype Meter = Chars | Tokens(count: string -> nat)

  const Ellipsis := "..."

  function Measure(m: Meter, text: string): nat { if m.Tokens? then m.count(text) else |text| }

  function Cut(text: string, k: nat): string
    requires k <= |text|
  {
    text[..k] + Ellipsis
  }

  /** What is left for the prompt once the answer and a margin are reserved. */
  function PromptBudget(window: Option<int>, maxNew: int, margin: int): Option<nat>
  {
    if window.None? || window.value == 0 then None
    else if window.value - maxNew - margin > 0 then Some(window.value - maxNew - margin) else Some(0)
  }

  // ------------------------------------------------------------- clipping by characters

  function TailClip(text: string, limit: int): (r: string)
    ensures |r| <= limit || r == ""
    ensures r == text <==> text == "" || |text| <= limit
    ensures |text| > limit > 3 ==> |r| == limit && r == Cut(text, limit - 3)
  {
    if limit <= 0 then ""
    else if |text| <= limit then text
    else if limit <= 3 then text[..limit]
    else text[..limit - 3] + Ellipsis
  }

  // ----------------------------------------------------------------- clipping by tokens

  predicate Fits(count: string -> nat, text: string, budget: int, k: nat)
    requires k <= |text|
  {
    count(Cut(text, k)) <= budget
  }

  /** The binary search, from the bounds and the best cut so far. */
  function Search(count: string -> nat, text: string, budget: int, low: nat, high: int, best: Option<nat>): Option<nat>
    requires low <= high + 1 <= |text| + 1
    decreases high + 1 - low
  {
    if low > high then best
    else
      var middle := (low + high) / 2;
      if Fits(count, text, budget, middle) then Search(count, text, budget, middle + 1, high, Some(middle))
      else Search(count, text, budget, low, middle - 1, best)
  }

  function BestCut(count: string -> nat, text: string, budget: int): Option<nat>
  {
    Search(count, text, budget, 0, |text|, None)
  }

  function ClipTokens(count: string -> nat, text: string, budget: int): string
  {
    if budget <= 0 then ""
    else if count(text) <= budget then text
    else
      SearchStops(count, text, budget, 0, |text|, None);
      match BestCut(count, text, budget) case None => "" case Some(k) => Cut(text, k)
  }

  /** `None` stands for a missing counter. */
  method ClipToBudget(text: string, budget: int, counter: Option<string -> nat>) returns (r: string)
    ensures counter.Some? ==> r == ClipTokens(counter.value, text, budget)
    ensures counter.None? ==> r == if budget <= 0 then "" else text
  {
    if budget <= 0 { return ""; }
    if counter.None? || counter.value(text) <= budget { return text; }
    var count := counter.value;
    ghost var cut: Option<nat> := None;
    SearchStops(count, text, budget, 0, |text|, None);
    var low: int, high: int := 0, |text|;
    r := "";
    while low <= high
      invariant 0 <= low <= high + 1 <= |text| + 1
      invariant cut.Some? ==> cut.value <= |text|
      invariant r == if cut.Some? then Cut(text, cut.value) else ""
      invariant BestCut(count, text, budget) == Search(count, text, budget, low, high, cut)
      decreases high + 1 - low
    {
      var middle := (low + high) / 2;
      var candidate := text[..middle] + Ellipsis;
      if count(candidate) <= budget {
        cut := Some(middle);
        r, low := candidate, middle + 1;
      } else {
        high := middle - 1;
      }
    }
  }

  /** Where the search stands: every bound it has moved has been tried. */
  predicate Bounded(count: string -> nat, text: string, budget: int, low: nat, high: int, best: Option<nat>)
    requires low <= high + 1 <= |text| + 1
  {
    && best == (if low == 0 then None else Some(low - 1))
    && (low > 0 ==> Fits(count, text, budget, low - 1))
    && (high < |text| ==> !Fits(count, text, budget, high + 1))
  }

  /** For any counter, the search ends at a cut that fits while the next longer one does not. */
  lemma {:induction false} SearchStops(
      count: string -> nat, text: string, budget: int, low: nat, high: int, best: Option<nat>)
    requires low <= high + 1 <= |text| + 1 && Bounded(count, text, budget, low, high, best)
    ensures var r := Search(count, text, budget, low, high, best);
      && (r.None? ==> !Fits(count, text, budget, 0))
      && (r.Some? ==> r.value <= |text| && Fits(count, text, budget, r.value)
                        && (r.value < |text| ==> !Fits(count, text, budget, r.value + 1)))
    decreases high + 1 - low
  {
    if low <= high {
      var middle := (low + high) / 2;
      if Fits(count, text, budget, middle) {
        SearchStops(count, text, budget, middle + 1, high, Some(middle));
      } else {
        SearchStops(count, text, budget, low, middle - 1, best);
      }
    }
  }

  /** Longer cuts of this text never count less. */
  ghost predicate Monotone(count: string -> nat, text: string)
  {
    forall i, j :: 0 <= i <= j <= |text| ==> count(Cut(text, i)) <= count(Cut(text, j))
  }

  /** Under a monotone counter, a text that does not fit is clipped to the longest prefix that fits
      together with the ellipsis, and to nothing exactly when not even the ellipsis fits. */
  lemma {:induction false} ClipIsLongest(count: string -> nat, text: string, budget: int, k: nat)
    requires Monotone(count, text) && 0 < budget < count(text) && k <= |text|
    ensures ClipTokens(count, text, budget) == Cut(text, k)
      <==> Fits(count, text, budget, k) && forall j :: k < j <= |text| ==> !Fits(count, text, budget, j)
    ensures ClipTokens(count, text, budget) == "" <==> !Fits(count, text, budget, 0)
  {
    SearchStops(count, text, budget, 0, |text|, None);
    var r := BestCut(count, text, budget);
    if r.Some? {
      assert |Cut(text, r.value)| == r.value + 3 && |Cut(text, k)| == k + 3;
      forall j | r.value < j <= |text| ensures !Fits(count, text, budget, j) {
        assert count(Cut(text, r.value + 1)) <= count(Cut(text, j));
      }
      assert Fits(count, text, budget, 0) by { assert count(Cut(text, 0)) <= count(Cut(text, r.value)); }
    } else {
      assert count(Cut(text, 0)) <= count(Cut(text, k));
      assert |Cut(text, k)| == k + 3;
    }
  }

  // ------------------------------------------------------------------- clipping, either way

  function Clip(m: Meter, text: string, budget: int): string
  {
    if m.Tokens? then ClipTokens(m.count, text, budget) else TailClip(text, budget)
  }

  /** Nothing costs nothing. */
  predicate Sane(m: Meter) { Measure(m, "") == 0 }

  /** For any counter, what is clipped to a positive budget measures within it. */
  lemma {:induction false} ClipFits(m: Meter, text: string, budget: int)
    requires Sane(m) && budget > 0
    ensures Measure(m, Clip(m, text, budget)) <= budget
  {
    if m.Tokens? { SearchStops(m.count, text, budget, 0, |text|, None); }
  }

  /** Clipping keeps a text exactly when it fits (or is empty), and clipping twice is clipping once. */
  lemma {:induction false} ClipKeepsIff(m: Meter, text: string, budget: int)
    requires Sane(m) && budget > 0
    ensures Clip(m, text, budget) == text <==> Measure(m, text) <= budget
    ensures Clip(m, Clip(m, text, budget), budget) == Clip(m, text, budget)
  {
    ClipFits(m, text, budget);
    ClipFits(m, Clip(m, text, budget), budget);
  }

  /** What is clipped is nothing, the text, or a prefix of it, at most with an ellipsis. */
  lemma {:induction false} ClipIsPrefix(m: Meter, text: string, budget: int)
    ensures var r := Clip(m, text, budget);
      r == text || exists k :: 0 <= k <= |text| && (r == text[..k] || r == Cut(text, k))
  {
    var r := Clip(m, text, budget);
    if m.Tokens? {
      SearchStops(m.count, text, budget, 0, |text|, None);
      if r == "" { assert r == text[..0]; }
    } else if r == "" {
      assert r == text[..0];
    }
  }
}
