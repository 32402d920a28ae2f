/** The legacy text path: assembly of the prompt from its layers, the final budget guard that drops
    mutable layers, and the validator's budget verdict on the result. */
module LegacyBudget {
  import opened Wrappers
  import opened Text
  import opened Sorting

  datatype Item = Item(key: string, text: string, protected: bool)

  /** What one compile call is given; the counter is arbitrary. */
  datatype Setup = Setup(budget: int, fallback: bool, count: string -> int)

  datatype Layers = Layers(
    pinned: seq<Item>, working: string, memory: string, compressed: seq<Item>, raw: seq<Item>, repoMap: seq<Item>,
    recent: seq<Item>)

  // ---------------------------------------------------------------- assembly

  function Texts(items: seq<Item>): seq<string> { seq(|items|, i requires 0 <= i < |items| => items[i].text) }

  function Lines(items: seq<Item>, separator: string): string { Join(Texts(items), |items|, separator) }

  function Part(present: bool, text: string): seq<string> { if present then [text] else [] }

  function Parts(l: Layers): seq<string>
  {
    Part(Lines(l.pinned, "\n") != "", Lines(l.pinned, "\n"))
    + Part(Strip(l.working) != "", l.working)
    + Part(Strip(l.memory) != "", Strip(l.memory))
    + Part(l.compressed != [], Lines(l.compressed, "\n\n"))
    + Part(l.raw != [], "High-value raw evidence:\n" + Lines(l.raw, "\n\n"))
    + Part(l.repoMap != [], "Repository map:\n" + Lines(l.repoMap, "\n"))
    + Part(l.recent != [], "Transcript:\n" + Lines(l.recent, "\n\n"))
  }

  function Assemble(l: Layers): string
  {
    Strip(Join(Parts(l), |Parts(l)|, "\n\n"))
  }

  lemma {:induction false} LinesHold(items: seq<Item>, separator: string, x: Item)
    requires x in items
    ensures Holds(Lines(items, separator), x.text)
  {
    var k :| 0 <= k < |items| && items[k] == x;
    assert Texts(items)[k] == x.text;
    JoinHolds(Texts(items), |items|, separator, k);
  }

  lemma {:induction false} PartShows(l: Layers, part: string, t: string)
    requires part in Parts(l) && Holds(part, t) && Solid(t)
    ensures Holds(Assemble(l), t)
  {
    var parts := Parts(l);
    var k :| 0 <= k < |parts| && parts[k] == part;
    JoinHolds(parts, |parts|, "\n\n", k);
    HoldsOnward(Join(parts, |parts|, "\n\n"), part, t);
    StripHolds(Join(parts, |parts|, "\n\n"), t);
  }

  lemma {:induction false} HoldsSome(text: string, t: string)
    requires Holds(text, t) && Solid(t)
    ensures text != "" && Strip(text) != ""
  {
    StripHolds(text, t);
    var a, b :| Strip(text) == a + t + b;
  }

  lemma {:induction false} ItemsShow(l: Layers, items: seq<Item>, title: string, separator: string, x: Item, t: string)
    requires x in items && Holds(x.text, t) && Solid(t) && title + Lines(items, separator) in Parts(l)
    ensures Holds(Assemble(l), t)
  {
    LinesHold(items, separator, x);
    HoldsOnward(Lines(items, separator), x.text, t);
    HoldsWithin(title, Lines(items, separator), "");
    HoldsOnward(title + Lines(items, separator), Lines(items, separator), t);
    PartShows(l, title + Lines(items, separator), t);
  }

  /** The prompt shows every layer: whatever solid text stands in the working state, in memory or in an item of
      any layer stands in the prompt. */
  lemma {:induction false} PromptShows(l: Layers, t: string)
    requires Solid(t)
    requires || Holds(l.working, t) || Holds(l.memory, t)
             || exists x :: x in l.pinned + l.compressed + l.raw + l.repoMap + l.recent && Holds(x.text, t)
    ensures Holds(Assemble(l), t)
  {
    if Holds(l.working, t) {
      HoldsSome(l.working, t);
      assert l.working in Parts(l);
      PartShows(l, l.working, t);
    } else if Holds(l.memory, t) {
      HoldsSome(l.memory, t);
      StripHolds(l.memory, t);
      PartShows(l, Strip(l.memory), t);
    } else {
      var x :| x in l.pinned + l.compressed + l.raw + l.repoMap + l.recent && Holds(x.text, t);
      ItemShows(l, x, t);
    }
  }

  lemma {:induction false} ItemShows(l: Layers, x: Item, t: string)
    requires x in l.pinned + l.compressed + l.raw + l.repoMap + l.recent && Holds(x.text, t) && Solid(t)
    ensures Holds(Assemble(l), t)
  {
    if x in l.pinned {
      LinesHold(l.pinned, "\n", x);
      HoldsOnward(Lines(l.pinned, "\n"), x.text, t);
      HoldsSome(Lines(l.pinned, "\n"), t);
      PartShows(l, Lines(l.pinned, "\n"), t);
    } else if x in l.compressed {
      assert "" + Lines(l.compressed, "\n\n") == Lines(l.compressed, "\n\n");
      ItemsShow(l, l.compressed, "", "\n\n", x, t);
    } else if x in l.raw {
      ItemsShow(l, l.raw, "High-value raw evidence:\n", "\n\n", x, t);
    } else if x in l.repoMap {
      ItemsShow(l, l.repoMap, "Repository map:\n", "\n", x, t);
    } else {
      ItemsShow(l, l.recent, "Transcript:\n", "\n\n", x, t);
    }
  }

  predicate Over(s: Setup, l: Layers) { s.count(Assemble(l)) > s.budget }

  // -------------------------------------------------------------- the guard

  /** Pinned items that must never be dropped. */
  predicate Required(i: Item)
  {
    || i.key == "pinned:user-task"
    || "pinned:runtime-constraints" <= i.key
    || ("instruction:" <= i.key && !("instruction:legacy:" <= i.key))
    || i.protected
  }

  function RequiredOf(pinned: seq<Item>, n: nat): seq<Item>
    requires n <= |pinned|
  {
    if n == 0 then [] else RequiredOf(pinned, n - 1) + if Required(pinned[n - 1]) then [pinned[n - 1]] else []
  }

  /** User task, working state and required pinned items alone. */
  function Base(l: Layers): Layers { Layers(RequiredOf(l.pinned, |l.pinned|), l.working, "", [], [], [], []) }

  /** Position of the last of the first `n` that may be dropped, or -1. */
  function LastExtra(pinned: seq<Item>, n: nat): (i: int)
    requires n <= |pinned|
    ensures -1 <= i < n
    ensures i >= 0 ==> !Required(pinned[i])
    ensures forall k :: i < k < n ==> Required(pinned[k])
  {
    if n == 0 then -1 else if !Required(pinned[n - 1]) then n - 1 else LastExtra(pinned, n - 1)
  }

  function First(pinned: seq<Item>, x: Item, i: nat): (r: nat)
    requires i <= |pinned| && exists k :: i <= k < |pinned| && pinned[k] == x
    ensures i <= r < |pinned| && pinned[r] == x
    ensures forall k :: i <= k < |pinned| && pinned[k] == x ==> r <= k
    decreases |pinned| - i
  {
    if pinned[i] == x then i else First(pinned, x, i + 1)
  }

  /** `list.remove`: the first item equal to `x` goes. */
  function Remove(pinned: seq<Item>, x: Item): (r: seq<Item>)
    requires exists k :: 0 <= k < |pinned| && pinned[k] == x
    ensures |r| == |pinned| - 1
  {
    var i := First(pinned, x, 0);
    pinned[..i] + pinned[i + 1..]
  }

  predicate HasMemory(l: Layers) { Strip(l.memory) != "" }

  predicate CanDrop(l: Layers)
  {
    l.raw != [] || l.recent != [] || l.repoMap != [] || l.compressed != [] || HasMemory(l)
    || LastExtra(l.pinned, |l.pinned|) >= 0
  }

  /** The next thing to go: raw evidence, then recent items, then the repository map, oldest or
      first one first; then all summaries; then memory; then pinned extras from the back. */
  function Drop(l: Layers): Layers
    requires CanDrop(l)
  {
    if l.raw != [] then l.(raw := l.raw[1..])
    else if l.recent != [] then l.(recent := l.recent[1..])
    else if l.repoMap != [] then l.(repoMap := l.repoMap[1..])
    else if l.compressed != [] then l.(compressed := [])
    else if HasMemory(l) then l.(memory := "")
    else l.(pinned := Remove(l.pinned, l.pinned[LastExtra(l.pinned, |l.pinned|)]))
  }

  function Size(l: Layers): nat
  {
    |l.raw| + |l.recent| + |l.repoMap| + |l.compressed| + |l.pinned| + if HasMemory(l) then 1 else 0
  }

  /** Drop while over budget and something is left to drop. */
  function Trimmed(s: Setup, l: Layers): Layers
    decreases Size(l)
  {
    if Over(s, l) && CanDrop(l) then
      assert Size(Drop(l)) < Size(l);
      Trimmed(s, Drop(l))
    else l
  }

  /** The guard acts on a positive, known budget when the text overflows and the required base fits. */
  predicate Acts(s: Setup, l: Layers) { s.budget > 0 && !s.fallback && Over(s, l) && !Over(s, Base(l)) }

  function Guarded(s: Setup, l: Layers): Layers { if Acts(s, l) then Trimmed(s, l) else l }

  lemma {:induction false} TrimOnce(s: Setup, l: Layers)
    requires Over(s, l) && CanDrop(l)
    ensures Trimmed(s, l) == Trimmed(s, Drop(l))
  {
  }

  /** Nothing is left before the pinned items. */
  predicate OnlyPinned(l: Layers)
  {
    l.raw == [] && l.recent == [] && l.repoMap == [] && l.compressed == [] && !HasMemory(l)
  }

  /** Of the pinned items, the user's task, the runtime constraints, the instructions that are not legacy
      ones and whatever is protected all stay, as often as they were there; and the working state. */
  method EnforceLegacyBudget(s: Setup, l: Layers) returns (out: Layers, enforced: bool)
    ensures out == Guarded(s, l)
    ensures enforced <==> Acts(s, l)
    ensures forall x: Item :: x.key == "pinned:user-task" || "pinned:runtime-constraints" <= x.key || x.protected ==>
              Copies(out.pinned, |out.pinned|, x) == Copies(l.pinned, |l.pinned|, x)
    ensures forall x: Item :: "instruction:" <= x.key && !("instruction:legacy:" <= x.key) ==>
              Copies(out.pinned, |out.pinned|, x) == Copies(l.pinned, |l.pinned|, x)
    ensures out.working == l.working
  {
    PinnedStay(s, l);
    if s.budget <= 0 || s.fallback || !Over(s, l) { return l, false; }
    if Over(s, Base(l)) { return l, false; }
    var trimmed, cleared;
    out, trimmed := DropEvidence(s, l);
    out, cleared := DropContext(s, out);
    var extras;
    out, extras := DropExtras(s, out);
    enforced := trimmed || cleared || extras;
    TrimmedFits(s, l);
  }

  /** The three loops that take single items, each from the front of its layer. */
  method DropEvidence(s: Setup, l: Layers) returns (out: Layers, enforced: bool)
    ensures Trimmed(s, out) == Trimmed(s, l)
    ensures Over(s, out) ==> out.raw == [] && out.recent == [] && out.repoMap == []
    ensures !enforced ==> out == l
  {
    out, enforced := l, false;
    while Over(s, out) && out.raw != []
      invariant Trimmed(s, out) == Trimmed(s, l)
      invariant !enforced ==> out == l
      decreases |out.raw|
    {
      TrimOnce(s, out);
      out, enforced := out.(raw := out.raw[1..]), true;
    }
    while Over(s, out) && out.recent != []
      invariant Trimmed(s, out) == Trimmed(s, l)
      invariant Over(s, out) ==> out.raw == []
      invariant !enforced ==> out == l
      decreases |out.recent|
    {
      TrimOnce(s, out);
      out, enforced := out.(recent := out.recent[1..]), true;
    }
    while Over(s, out) && out.repoMap != []
      invariant Trimmed(s, out) == Trimmed(s, l)
      invariant Over(s, out) ==> out.raw == [] && out.recent == []
      invariant !enforced ==> out == l
      decreases |out.repoMap|
    {
      TrimOnce(s, out);
      out, enforced := out.(repoMap := out.repoMap[1..]), true;
    }
  }

  /** Summaries and memory go as a whole. */
  method DropContext(s: Setup, l: Layers) returns (out: Layers, enforced: bool)
    requires Over(s, l) ==> l.raw == [] && l.recent == [] && l.repoMap == []
    ensures Trimmed(s, out) == Trimmed(s, l)
    ensures Over(s, out) ==> OnlyPinned(out)
    ensures !enforced ==> out == l
  {
    out, enforced := l, false;
    if Over(s, out) && out.compressed != [] {
      TrimOnce(s, out);
      out, enforced := out.(compressed := []), true;
    }
    if Over(s, out) && HasMemory(out) {
      TrimOnce(s, out);
      NoMemory(out);
      out, enforced := out.(memory := ""), true;
    }
  }

  lemma {:induction false} NoMemory(l: Layers)
    ensures !HasMemory(l.(memory := ""))
  {
    assert Strip("") == "";
  }

  /** The items from position `i` on are all required. */
  predicate RequiredFrom(pinned: seq<Item>, i: nat) { forall k :: i <= k < |pinned| ==> Required(pinned[k]) }

  /** The reversed walk over the pinned items, while the list under it shrinks. */
  method DropExtras(s: Setup, l: Layers) returns (out: Layers, enforced: bool)
    requires Over(s, l) ==> OnlyPinned(l)
    ensures out == Trimmed(s, l)
    ensures !enforced ==> out == l
  {
    out, enforced := l, false;
    var i := |l.pinned|;
    while i > 0 && Over(s, out)
      invariant 0 <= i <= |out.pinned|
      invariant Trimmed(s, out) == Trimmed(s, l)
      invariant Over(s, out) ==> OnlyPinned(out)
      invariant RequiredFrom(out.pinned, i)
      invariant !enforced ==> out == l
    {
      i := i - 1;
      var kept := Required(out.pinned[i]);
      out := WithoutExtra(s, out, i);
      enforced := enforced || !kept;
    }
    NothingToTrim(s, out);
  }

  method WithoutExtra(s: Setup, l: Layers, i: nat) returns (out: Layers)
    requires Over(s, l) && OnlyPinned(l) && i < |l.pinned| && RequiredFrom(l.pinned, i + 1)
    ensures Trimmed(s, out) == Trimmed(s, l) && OnlyPinned(out) && RequiredFrom(out.pinned, i)
    ensures out == if Required(l.pinned[i]) then l else l.(pinned := Remove(l.pinned, l.pinned[i]))
    ensures i <= |out.pinned|
  {
    out := l;
    var item := l.pinned[i];
    if !Required(item) {
      DropPinned(s, l, i);
      out := l.(pinned := Remove(l.pinned, item));
    }
  }

  lemma {:induction false} NothingToTrim(s: Setup, l: Layers)
    requires Over(s, l) ==> OnlyPinned(l) && RequiredFrom(l.pinned, 0)
    ensures Trimmed(s, l) == l
  {
    if Over(s, l) { assert LastExtra(l.pinned, |l.pinned|) == -1; }
  }

  lemma {:induction false} DropPinned(s: Setup, l: Layers, i: nat)
    requires Over(s, l) && OnlyPinned(l) && i < |l.pinned| && !Required(l.pinned[i]) && RequiredFrom(l.pinned, i + 1)
    ensures var m := l.(pinned := Remove(l.pinned, l.pinned[i]));
      Trimmed(s, m) == Trimmed(s, l) && OnlyPinned(m) && RequiredFrom(m.pinned, i)
  {
    ExtraIsLast(s, l, i);
    TrimOnce(s, l);
    RemoveShifts(l.pinned, i);
  }

  lemma {:induction false} ExtraIsLast(s: Setup, l: Layers, i: nat)
    requires OnlyPinned(l) && i < |l.pinned| && !Required(l.pinned[i])
    requires forall k :: i < k < |l.pinned| ==> Required(l.pinned[k])
    ensures CanDrop(l) && Drop(l) == l.(pinned := Remove(l.pinned, l.pinned[i]))
  {
    assert LastExtra(l.pinned, |l.pinned|) == i;
  }

  lemma {:induction false} RemoveShifts(pinned: seq<Item>, i: nat)
    requires i < |pinned|
    requires forall k :: i < k < |pinned| ==> Required(pinned[k])
    ensures forall k :: i <= k < |pinned| - 1 ==> Required(Remove(pinned, pinned[i])[k])
  {
    var r := Remove(pinned, pinned[i]);
    assert forall k :: i <= k < |r| ==> r[k] == pinned[k + 1];
  }

  // ------------------------------------------------------- what the guard keeps

  lemma {:induction false} Associates(a: seq<Item>, b: seq<Item>, c: seq<Item>)
    ensures (a + b) + c == a + (b + c)
  {
  }

  lemma {:induction false} RequiredOfSnoc(a: seq<Item>, x: Item)
    requires !Required(x)
    ensures RequiredOf(a + [x], |a + [x]|) == RequiredOf(a, |a|)
  {
    RequiredOfPrefix(a, [x], |a|);
  }

  lemma {:induction false} RequiredOfConcat(a: seq<Item>, b: seq<Item>, n: nat)
    requires n <= |b|
    ensures RequiredOf(a + b, |a| + n) == RequiredOf(a, |a|) + RequiredOf(b, n)
  {
    if n == 0 {
      RequiredOfPrefix(a, b, |a|);
    } else {
      RequiredOfConcat(a, b, n - 1);
      assert (a + b)[|a| + n - 1] == b[n - 1];
      Associates(RequiredOf(a, |a|), RequiredOf(b, n - 1), if Required(b[n - 1]) then [b[n - 1]] else []);
    }
  }

  lemma {:induction false} RequiredOfPrefix(a: seq<Item>, b: seq<Item>, n: nat)
    requires n <= |a|
    ensures RequiredOf(a + b, n) == RequiredOf(a, n)
  {
    if n > 0 { RequiredOfPrefix(a, b, n - 1); }
  }

  lemma {:induction false} RequiredAround(a: seq<Item>, x: Item, b: seq<Item>)
    requires !Required(x)
    ensures RequiredOf(a + [x] + b, |a + [x] + b|) == RequiredOf(a + b, |a + b|)
  {
    RequiredOfConcat(a, b, |b|);
    RequiredOfConcat(a + [x], b, |b|);
    RequiredOfSnoc(a, x);
    assert |a + [x] + b| == |a + [x]| + |b|;
  }

  lemma {:induction false} RemoveKeepsRequired(pinned: seq<Item>, x: Item)
    requires !Required(x) && exists k :: 0 <= k < |pinned| && pinned[k] == x
    ensures RequiredOf(Remove(pinned, x), |pinned| - 1) == RequiredOf(pinned, |pinned|)
  {
    var i := First(pinned, x, 0);
    var a, b := pinned[..i], pinned[i + 1..];
    assert pinned == a + [x] + b;
    RequiredAround(a, x, b);
  }

  /** A drop leaves the required base alone. */
  lemma {:induction false} DropKeepsBase(l: Layers)
    requires CanDrop(l)
    ensures Base(Drop(l)) == Base(l)
  {
    if l.raw == [] && l.recent == [] && l.repoMap == [] && l.compressed == [] && !HasMemory(l) {
      RemoveKeepsRequired(l.pinned, l.pinned[LastExtra(l.pinned, |l.pinned|)]);
    }
  }

  lemma {:induction false} AllRequired(pinned: seq<Item>, n: nat)
    requires n <= |pinned| && forall k :: 0 <= k < |pinned| ==> Required(pinned[k])
    ensures RequiredOf(pinned, n) == pinned[..n]
  {
    if n > 0 { AllRequired(pinned, n - 1); }
  }

  /** When nothing is left to drop, the text is that of the required base. */
  lemma {:induction false} BareIsBase(l: Layers)
    requires !CanDrop(l)
    ensures Assemble(l) == Assemble(Base(l))
  {
    AllRequired(l.pinned, |l.pinned|);
    assert l.pinned[..|l.pinned|] == l.pinned;
    assert Base(l).pinned == l.pinned;
    assert Strip("") == "";
    assert Parts(l) == Parts(Base(l));
  }

  /** Trimming keeps every required pinned item, and reaches the budget whenever the base fits. */
  lemma {:induction false} TrimmedFits(s: Setup, l: Layers)
    ensures Base(Trimmed(s, l)) == Base(l)
    ensures !Over(s, Base(l)) ==> !Over(s, Trimmed(s, l))
    decreases Size(l)
  {
    if Over(s, l) {
      if CanDrop(l) {
        DropKeepsBase(l);
        TrimmedFits(s, Drop(l));
      } else {
        BareIsBase(l);
      }
    }
  }

  /** The prompt fits after the guard exactly when it fitted before or the required base does;
      required pinned items, in order, are never lost. */
  lemma {:induction false} GuardedFitsIff(s: Setup, l: Layers)
    requires s.budget > 0 && !s.fallback
    ensures !Over(s, Guarded(s, l)) <==> !Over(s, l) || !Over(s, Base(l))
    ensures RequiredOf(Guarded(s, l).pinned, |Guarded(s, l).pinned|) == RequiredOf(l.pinned, |l.pinned|)
  {
    TrimmedFits(s, l);
    assert Base(l).pinned == RequiredOf(l.pinned, |l.pinned|);
    assert Base(Guarded(s, l)).pinned == RequiredOf(Guarded(s, l).pinned, |Guarded(s, l).pinned|);
  }

  lemma {:induction false} RequiredCopies(pinned: seq<Item>, n: nat, x: Item)
    requires n <= |pinned|
    ensures var r := RequiredOf(pinned, n); Copies(r, |r|, x) == if Required(x) then Copies(pinned, n, x) else 0
  {
    if n > 0 {
      RequiredCopies(pinned, n - 1, x);
      var before := RequiredOf(pinned, n - 1);
      if Required(pinned[n - 1]) {
        CopiesPrefix(before + [pinned[n - 1]], before, |before|, x);
      } else {
        assert before + [] == before;
      }
    }
  }

  lemma {:induction false} PinnedStay(s: Setup, l: Layers)
    ensures var out := Guarded(s, l);
      && out.working == l.working
      && forall x :: Required(x) ==> Copies(out.pinned, |out.pinned|, x) == Copies(l.pinned, |l.pinned|, x)
  {
    var out := Guarded(s, l);
    TrimmedFits(s, l);
    assert Base(out).pinned == Base(l).pinned && Base(out).working == Base(l).working;
    forall x | Required(x) ensures Copies(out.pinned, |out.pinned|, x) == Copies(l.pinned, |l.pinned|, x) {
      RequiredCopies(out.pinned, |out.pinned|, x);
      RequiredCopies(l.pinned, |l.pinned|, x);
    }
  }

  /** The base that decides whether the guard acts: the working state, and of the pinned items exactly the
      user's task, the runtime constraints, the instructions that are not legacy ones and the protected. */
  lemma {:induction false} BaseIsKept(l: Layers, x: Item)
    ensures var base := Base(l);
      && base.working == l.working && base.memory == ""
      && base.compressed == [] && base.raw == [] && base.repoMap == [] && base.recent == []
      && Copies(base.pinned, |base.pinned|, x)
         == if x.key == "pinned:user-task" || "pinned:runtime-constraints" <= x.key || x.protected
               || ("instruction:" <= x.key && !("instruction:legacy:" <= x.key))
            then Copies(l.pinned, |l.pinned|, x) else 0
  {
    RequiredCopies(l.pinned, |l.pinned|, x);
  }

  /** Dropping goes all the way: when it ends over budget, memory is blank, the layers of items are empty,
      and no other pinned item is left. */
  lemma {:induction false} OnlyKeptWhenStillOver(s: Setup, l: Layers)
    ensures var out := Trimmed(s, l);
      Over(s, out) ==>
        && out.raw == [] && out.recent == [] && out.repoMap == [] && out.compressed == [] && Strip(out.memory) == ""
        && forall x :: x in out.pinned ==>
             || x.key == "pinned:user-task" || "pinned:runtime-constraints" <= x.key || x.protected
             || ("instruction:" <= x.key && !("instruction:legacy:" <= x.key))
  {
    var n := TrimmedByDrops(s, l, _ => true);
    var out := Trimmed(s, l);
    assert !MustDrop(s, out);
  }

  /** Blank memory, which the prompt does not show anyway, is not dropped. */
  lemma {:induction false} BlankMemoryStays(s: Setup, l: Layers)
    requires Strip(l.memory) == ""
    ensures Trimmed(s, l).memory == Guarded(s, l).memory == l.memory
  {
    var n := TrimmedByDrops(s, l, (m: Layers) => m.memory == l.memory);
  }

  predicate NoEvidence(l: Layers) { l.raw == [] && l.recent == [] && l.repoMap == [] }

  /** Raw evidence, recent items and repository map: each loses its front, once the one before is used up. */
  ghost predicate EvidenceInOrder(l: Layers, out: Layers)
  {
    && IsSuffix(out.raw, l.raw) && IsSuffix(out.recent, l.recent) && IsSuffix(out.repoMap, l.repoMap)
    && (out.recent != l.recent ==> out.raw == [])
    && (out.repoMap != l.repoMap ==> out.raw == [] && out.recent == [])
  }

  /** Summaries, memory and pinned items: each untouched, or nothing left before it. */
  ghost predicate ContextInOrder(l: Layers, out: Layers)
  {
    && (out.compressed == l.compressed || (out.compressed == [] && NoEvidence(out)))
    && (out.memory == l.memory || (out.memory == "" && NoEvidence(out) && out.compressed == []))
    && (out.pinned == l.pinned || OnlyPinned(out))
    && out.working == l.working
  }

  /** Layers go in a fixed order: each is touched only once the ones before it are used up. */
  ghost predicate DroppedInOrder(l: Layers, out: Layers) { EvidenceInOrder(l, out) && ContextInOrder(l, out) }

  lemma {:induction false} SuffixTail(a: seq<Item>, b: seq<Item>)
    requires a != [] && IsSuffix(a, b)
    ensures IsSuffix(a[1..], b)
  {
  }

  lemma {:induction false} DropEvidenceInOrder(l: Layers, m: Layers, out: Layers)
    requires EvidenceInOrder(l, m)
    requires if m.raw != [] then out == m.(raw := m.raw[1..])
             else if m.recent != [] then out == m.(recent := m.recent[1..])
             else m.repoMap != [] && out == m.(repoMap := m.repoMap[1..])
    ensures EvidenceInOrder(l, out)
  {
    if m.raw != [] { SuffixTail(m.raw, l.raw); }
    else if m.recent != [] { SuffixTail(m.recent, l.recent); }
    else { SuffixTail(m.repoMap, l.repoMap); }
  }

  lemma {:induction false} DropInOrder(l: Layers, m: Layers)
    requires DroppedInOrder(l, m) && CanDrop(m)
    ensures DroppedInOrder(l, Drop(m))
  {
    if NoEvidence(m) { NoMemory(m); } else { DropEvidenceInOrder(l, m, Drop(m)); }
  }

  // ---------------------------------------------------------------- nothing without need

  /** The layers after `n` drops, as far as there is something to drop. */
  function Drops(l: Layers, n: nat): Layers
    decreases n
  {
    if n == 0 || !CanDrop(l) then l else Drops(Drop(l), n - 1)
  }

  predicate MustDrop(s: Setup, l: Layers) { Over(s, l) && CanDrop(l) }

  lemma {:induction false} SizeDrops(l: Layers)
    requires CanDrop(l)
    ensures Size(Drop(l)) < Size(l)
  {
    NoMemory(l);
  }

  /** Trimming is a number of drops, each from a state over budget, up to the first state that is not;
      and whatever each drop keeps, trimming keeps. */
  lemma {:induction false} TrimmedByDrops(s: Setup, l: Layers, keep: Layers -> bool) returns (n: nat)
    requires keep(l) && forall m :: keep(m) && CanDrop(m) ==> keep(Drop(m))
    ensures Trimmed(s, l) == Drops(l, n) && keep(Trimmed(s, l))
    ensures forall k :: 0 <= k < n ==> MustDrop(s, Drops(l, k))
    ensures !MustDrop(s, Drops(l, n))
    ensures n > 0 <==> MustDrop(s, l)
    decreases Size(l)
  {
    n := 0;
    if MustDrop(s, l) {
      var next := Drop(l);
      SizeDrops(l);
      var m := TrimmedByDrops(s, next, keep);
      n := m + 1;
      forall k | 0 <= k < n ensures MustDrop(s, Drops(l, k)) {
        if k > 0 { assert Drops(l, k) == Drops(next, k - 1); }
      }
    }
  }

  /** The guard drops in order, nothing without need and no less than needed: when it acts it makes
      the first `n` drops, at least one, each from a text over budget, and stops at the first text
      that fits or has nothing left to drop. */
  lemma {:induction false} GuardDropsInOrder(s: Setup, l: Layers) returns (n: nat)
    ensures DroppedInOrder(l, Guarded(s, l))
    ensures Guarded(s, l) == Drops(l, n)
    ensures forall k :: 0 <= k < n ==> MustDrop(s, Drops(l, k))
    ensures if Acts(s, l) then n > 0 && !MustDrop(s, Drops(l, n)) else n == 0
  {
    n := 0;
    if Acts(s, l) {
      DropsInOrder(l);
      n := TrimmedByDrops(s, l, m => DroppedInOrder(l, m));
      if !CanDrop(l) { BareIsBase(l); }
    }
  }

  lemma {:induction false} DropsInOrder(l: Layers)
    ensures DroppedInOrder(l, l)
    ensures forall m :: DroppedInOrder(l, m) && CanDrop(m) ==> DroppedInOrder(l, Drop(m))
  {
    forall m | DroppedInOrder(l, m) && CanDrop(m) ensures DroppedInOrder(l, Drop(m)) { DropInOrder(l, m); }
  }
}
