/** What resolution guarantees: survivors and shadowed instructions split the candidates, stronger
    layers win, and survivors do not contradict each other. */
module InstructionProperties {
  import opened Sorting
  import opened Instructions

  lemma {:induction false} DistinctMultiplicity<T>(s: seq<T>, x: T)
    requires Distinct(s)
    ensures multiset(s)[x] == if x in s then 1 else 0
  {
    DistinctCount(s, x);
    assert x in s <==> x in multiset(s);
  }

  /** Every candidate survives or is shadowed, and exactly once. */
  lemma {:induction false} ResolutionPartitions(d: seq<Instruction>, r: Resolved)
    requires Distinct(d) && Resolves(d, r)
    ensures multiset(r.instructions) + multiset(r.shadowed) == multiset(d)
    ensures |r.instructions| + |r.shadowed| == |d|
  {
    forall x ensures (multiset(r.instructions) + multiset(r.shadowed))[x] == multiset(d)[x] {
      DistinctMultiplicity(d, x);
      DistinctMultiplicity(r.instructions, x);
      DistinctMultiplicity(r.shadowed, x);
    }
    assert |multiset(r.instructions) + multiset(r.shadowed)| == |r.instructions| + |r.shadowed|;
    assert |multiset(d)| == |d|;
  }

  lemma {:induction false} BestIsBest(c: seq<Instruction>, n: nat)
    requires 0 < n <= |c|
    ensures Best(c, n) in c
    ensures forall i :: 0 <= i < n ==> WinnerLe(c[i], Best(c, n))
  {
    InstructionOrders();
    if n > 1 { BestIsBest(c, n - 1); }
  }

  /** Whoever is shadowed lost to a surviving instruction about the same subject whose layer is at
      least as strong, and the conflict record names the two. */
  lemma {:induction false} ShadowedByStronger(d: seq<Instruction>, r: Resolved, x: Instruction) returns (w: Instruction)
    requires Distinct(d) && Resolves(d, r) && x in r.shadowed
    ensures w in r.instructions && Takes(w) && w.conflictKey == x.conflictKey && w.id != x.id
    ensures WinnerLe(x, w) && Precedence(x.layer) <= Precedence(w.layer)
    ensures Conflict(x.conflictKey, w.id, x.id, w.layer, x.layer) in r.conflicts
  {
    OnMembers(d, x.conflictKey);
    var c := On(d, x.conflictKey);
    assert x in c;
    w := Best(c, |c|);
    BestIsBest(c, |c|);
    var i :| 0 <= i < |c| && c[i] == x;
    WinnerLayer(x, w);
    assert IsConflictOf(d, x, ConflictOf(d, x));
  }

  /** No conflict record lets a strictly weaker layer win. */
  lemma {:induction false} ConflictLayers(d: seq<Instruction>, r: Resolved, c: Conflict)
    requires Distinct(d) && Resolves(d, r) && c in r.conflicts
    ensures Precedence(c.loserLayer) <= Precedence(c.winnerLayer)
  {
    var x :| x in r.shadowed && IsConflictOf(d, x, c);
    var w := ShadowedByStronger(d, r, x);
  }

  /** No two of the instructions about one subject have different polarities. */
  ghost predicate Agree(s: seq<Instruction>)
  {
    forall x, y :: x in s && y in s && Takes(x) && Takes(y) && x.conflictKey == y.conflictKey ==>
      x.polarity == y.polarity
  }

  /** About a contested subject, whoever carries the winner's id has the winner's polarity. */
  ghost predicate IdsDecide(d: seq<Instruction>)
  {
    forall x :: x in d && Takes(x) ==>
      var c := On(d, x.conflictKey);
      c != [] && (Contested(c) && x.id == Best(c, |c|).id ==> x.polarity == Best(c, |c|).polarity)
  }

  /** The survivors agree exactly when ids decide: losers are recognised by id, so an instruction
      that shares the winner's id survives beside it. */
  lemma {:induction false} SurvivorsAgreeIff(d: seq<Instruction>, r: Resolved)
    requires Distinct(d) && Resolves(d, r)
    ensures Agree(r.instructions) <==> IdsDecide(d)
  {
    if Agree(r.instructions) {
      forall x | x in d && Takes(x)
        ensures On(d, x.conflictKey) != []
        ensures var c := On(d, x.conflictKey);
          Contested(c) && x.id == Best(c, |c|).id ==> x.polarity == Best(c, |c|).polarity
      {
        OnMembers(d, x.conflictKey);
        var c := On(d, x.conflictKey);
        assert x in c;
        BestIsBest(c, |c|);
        assert Best(c, |c|) in r.instructions;
      }
    }
    if IdsDecide(d) {
      forall x, y | x in r.instructions && y in r.instructions && Takes(x) && Takes(y) && x.conflictKey == y.conflictKey
        ensures x.polarity == y.polarity
      {
        OnMembers(d, x.conflictKey);
        var c := On(d, x.conflictKey);
        assert x in c && y in c;
        var i, j :| 0 <= i < |c| && 0 <= j < |c| && c[i] == x && c[j] == y;
        assert x.polarity != y.polarity ==> Contested(c);
      }
    }
  }

  lemma {:induction false} DistinctIdsDecide(d: seq<Instruction>)
    requires Distinct(d) && DistinctIds(d)
    ensures IdsDecide(d)
  {
    forall x | x in d && Takes(x)
      ensures On(d, x.conflictKey) != []
      ensures var c := On(d, x.conflictKey); x.id == Best(c, |c|).id ==> x == Best(c, |c|)
    {
      OnMembers(d, x.conflictKey);
      var c := On(d, x.conflictKey);
      assert x in c;
      BestIsBest(c, |c|);
    }
  }

  /** With distinct ids no two survivors contradict each other. */
  lemma {:induction false} SurvivorsAgree(d: seq<Instruction>, r: Resolved)
    requires Distinct(d) && DistinctIds(d) && Resolves(d, r)
    ensures Agree(r.instructions)
  {
    DistinctIdsDecide(d);
    SurvivorsAgreeIff(d, r);
  }

  /** Two instructions with one id about one subject both survive, although one allows what the other denies. */
  lemma {:induction false} SharedIdContradicts(x: Instruction, y: Instruction, r: Resolved)
    requires Takes(x) && Takes(y) && x.conflictKey == y.conflictKey && x.id == y.id && x.polarity != y.polarity
    requires Resolves([x, y], r)
    ensures x in r.instructions && y in r.instructions && !Agree(r.instructions)
  {
    var d := [x, y];
    assert d[0] == x && d[1] == y;
    OnMembers(d, x.conflictKey);
    var c := On(d, x.conflictKey);
    assert x in c && y in c;
    BestIsBest(c, |c|);
  }
}
