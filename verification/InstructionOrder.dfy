/** The instruction resolver's result does not depend on the order of its input, and resolving it again
    changes nothing. */
module InstructionOrder {
  import opened Sorting
  import opened Instructions
  import opened InstructionProperties

  lemma {:induction false} SameBest(a: seq<Instruction>, b: seq<Instruction>)
    requires a != [] && b != [] && DistinctIds(a) && forall x :: x in a <==> x in b
    ensures Best(a, |a|) == Best(b, |b|)
  {
    BestIsBest(a, |a|);
    BestIsBest(b, |b|);
    var v, w := Best(a, |a|), Best(b, |b|);
    assert v in b && w in a;
    var i :| 0 <= i < |b| && b[i] == v;
    var j :| 0 <= j < |a| && a[j] == w;
    assert WinnerLe(v, w) && WinnerLe(w, v);
    InstructionOrders();
  }

  lemma {:induction false} SameWinner(d: seq<Instruction>, e: seq<Instruction>, key: string)
    requires Distinct(d) && Distinct(e) && DistinctIds(d) && forall x :: x in d <==> x in e
    ensures On(d, key) == [] <==> On(e, key) == []
    ensures On(d, key) != [] ==> Best(On(d, key), |On(d, key)|) == Best(On(e, key), |On(e, key)|)
    ensures Contested(On(d, key)) <==> Contested(On(e, key))
  {
    OnMembers(d, key);
    OnMembers(e, key);
    var a, b := On(d, key), On(e, key);
    NonEmpty(a, b);
    NonEmpty(b, a);
    ContestedMembers(a, b);
    ContestedMembers(b, a);
    if a != [] && b != [] { SameBest(a, b); }
  }

  lemma {:induction false} ContestedMembers(a: seq<Instruction>, b: seq<Instruction>)
    requires forall x :: x in a ==> x in b
    ensures Contested(a) ==> Contested(b)
  {
    if Contested(a) {
      var i, j :| 0 <= i < |a| && 0 <= j < |a| && a[i].polarity != a[j].polarity;
      assert a[i] in b && a[j] in b;
      var k :| 0 <= k < |b| && b[k] == a[i];
      var l :| 0 <= l < |b| && b[l] == a[j];
    }
  }

  /** The candidates as a set determine the resolution. */
  lemma {:induction false} ResolutionUnique(d: seq<Instruction>, e: seq<Instruction>, r: Resolved, q: Resolved)
    requires Distinct(d) && Distinct(e) && DistinctIds(d) && DistinctIds(e) && forall x :: x in d <==> x in e
    requires Resolves(d, r) && Resolves(e, q)
    ensures r.instructions == q.instructions && r.shadowed == q.shadowed && r.conflicts == q.conflicts
  {
    forall x ensures Loses(d, x) <==> Loses(e, x) {
      SameWinner(d, e, x.conflictKey);
    }
    ListsUnique(d, r.instructions, q.instructions, false);
    ListsUnique(d, r.shadowed, q.shadowed, true);
    SameConflicts(d, e, r.shadowed, r.conflicts, q.conflicts);
    SameConflicts(e, d, r.shadowed, q.conflicts, r.conflicts);
    ConflictOrder();
    forall a, b | a in r.conflicts && b in r.conflicts && ConflictLe(a, b) && ConflictLe(b, a) ensures a == b {
      ConflictsTellApart(d, r.shadowed, r.conflicts, a, b);
    }
    SortedUnique(r.conflicts, q.conflicts, ConflictLe);
  }

  lemma {:induction false} ListsUnique(d: seq<Instruction>, s: seq<Instruction>, t: seq<Instruction>, losers: bool)
    requires DistinctIds(d) && Lists(d, s, losers) && Distinct(t) && Sorted(t, SortLe)
    requires forall x :: x in t <==> x in d && Loses(d, x) == losers
    ensures s == t
  {
    InstructionOrders();
    SortedUnique(s, t, SortLe);
  }

  lemma {:induction false} SameConflicts(
      d: seq<Instruction>, e: seq<Instruction>, shadowed: seq<Instruction>, cs: seq<Conflict>, ds: seq<Conflict>)
    requires Distinct(d) && Distinct(e) && DistinctIds(d) && forall x :: x in d <==> x in e
    requires Records(d, shadowed, cs) && Records(e, shadowed, ds)
    ensures forall c :: c in cs ==> c in ds
  {
    forall c | c in cs ensures c in ds {
      var x :| x in shadowed && IsConflictOf(d, x, c);
      SameWinner(d, e, x.conflictKey);
      assert IsConflictOf(e, x, c);
    }
  }

  lemma {:induction false} ConflictsTellApart(
      d: seq<Instruction>, shadowed: seq<Instruction>, cs: seq<Conflict>, a: Conflict, b: Conflict)
    requires DistinctIds(d) && Lists(d, shadowed, true) && Records(d, shadowed, cs) && a in cs && b in cs
    requires a.loserId == b.loserId
    ensures a == b
  {
    var x :| x in shadowed && IsConflictOf(d, x, a);
    var y :| y in shadowed && IsConflictOf(d, y, b);
    assert x in d && y in d && x.id == y.id;
  }

  lemma {:induction false} ActiveMembers(q: Request, xs: seq<Instruction>, n: nat)
    requires n <= |xs|
    ensures forall x :: x in ActiveTo(q, xs, n) <==> x in xs[..n] && ScopeActive(q, x)
  {
    if n > 0 {
      ActiveMembers(q, xs, n - 1);
      assert xs[..n] == xs[..n - 1] + [xs[n - 1]];
    }
  }

  lemma {:induction false} ActiveKeysDiffer(q: Request, xs: seq<Instruction>, n: nat)
    requires n <= |xs| && KeysDiffer(q, xs)
    ensures KeysDiffer(q, ActiveTo(q, xs, n))
    ensures forall i :: 0 <= i < |ActiveTo(q, xs, n)| ==> exists k :: 0 <= k < n && xs[k] == ActiveTo(q, xs, n)[i]
  {
    if n > 0 { ActiveKeysDiffer(q, xs, n - 1); }
  }

  lemma {:induction false} DedupKeepsAll(q: Request, xs: seq<Instruction>, n: nat)
    requires n <= |xs| && KeysDiffer(q, xs)
    ensures DedupTo(q, xs, n) == xs[..n]
  {
    if n > 0 {
      DedupKeepsAll(q, xs, n - 1);
      assert xs[..n] == xs[..n - 1] + [xs[n - 1]];
      assert !HasKey(q, xs[..n - 1], KeyOf(q, xs[n - 1]));
    }
  }

  lemma {:induction false} CandidatesMembers(q: Request, xs: seq<Instruction>)
    requires KeysDiffer(q, xs)
    ensures forall x :: x in Candidates(q, xs) <==> x in xs && ScopeActive(q, x)
    ensures Distinct(Candidates(q, xs)) && |Candidates(q, xs)| == |ActiveTo(q, xs, |xs|)|
  {
    ActiveMembers(q, xs, |xs|);
    ActiveKeysDiffer(q, xs, |xs|);
    var active := ActiveTo(q, xs, |xs|);
    DedupKeepsAll(q, active, |active|);
    KeysDifferDistinct(q, active);
    assert xs[..|xs|] == xs && active[..|active|] == active;
  }

  /** What `Resolve` promises about its result. */
  ghost predicate ResolvedFrom(q: Request, xs: seq<Instruction>, r: Resolved)
  {
    && Resolves(Candidates(q, xs), r)
    && r.active == |ActiveTo(q, xs, |xs|)| && r.deduplicated == r.active - |Candidates(q, xs)|
  }

  /** Inputs with pairwise distinct dedup keys and ids may come in any order: the result is the same. */
  lemma {:induction false} ResolveIgnoresOrder(
      q: Request, xs: seq<Instruction>, ys: seq<Instruction>, r: Resolved, t: Resolved)
    requires multiset(xs) == multiset(ys) && KeysDiffer(q, xs) && KeysDiffer(q, ys) && DistinctIds(xs)
    requires ResolvedFrom(q, xs, r) && ResolvedFrom(q, ys, t)
    ensures r == t
  {
    SameElements(xs, ys);
    CandidatesMembers(q, xs);
    CandidatesMembers(q, ys);
    var d, e := Candidates(q, xs), Candidates(q, ys);
    ResolutionUnique(d, e, r, t);
    ResolutionPartitions(d, r);
    ResolutionPartitions(e, t);
  }

  // ------------------------------------------------------ resolving once more

  lemma {:induction false} ActiveKeepsAll(q: Request, xs: seq<Instruction>, n: nat)
    requires n <= |xs| && forall i :: 0 <= i < |xs| ==> ScopeActive(q, xs[i])
    ensures ActiveTo(q, xs, n) == xs[..n]
  {
    if n > 0 {
      ActiveKeepsAll(q, xs, n - 1);
      assert xs[..n] == xs[..n - 1] + [xs[n - 1]];
    }
  }

  lemma {:induction false} DedupFrom(q: Request, xs: seq<Instruction>, n: nat)
    requires n <= |xs|
    ensures forall x :: x in DedupTo(q, xs, n) ==> x in xs
  {
    if n > 0 { DedupFrom(q, xs, n - 1); }
  }

  lemma {:induction false} SubsetKeysDiffer(q: Request, d: seq<Instruction>, s: seq<Instruction>)
    requires KeysDiffer(q, d) && Distinct(s) && forall x :: x in s ==> x in d
    ensures KeysDiffer(q, s)
  {
    forall i, j | 0 <= i < j < |s| ensures KeyOf(q, s[i]) != KeyOf(q, s[j]) {
      assert s[i] in s && s[j] in s && s[i] != s[j];
      var k :| 0 <= k < |d| && d[k] == s[i];
      var l :| 0 <= l < |d| && d[l] == s[j];
      assert k < l || l < k;
    }
  }

  /** The survivors are their own candidates. */
  lemma {:induction false} SurvivorsAreCandidates(q: Request, xs: seq<Instruction>, s: seq<Instruction>)
    requires Distinct(s) && forall x :: x in s ==> x in Candidates(q, xs)
    ensures Candidates(q, s) == s && ActiveTo(q, s, |s|) == s
  {
    var active := ActiveTo(q, xs, |xs|);
    ActiveMembers(q, xs, |xs|);
    DedupFrom(q, active, |active|);
    DedupDistinct(q, active, |active|);
    forall i | 0 <= i < |s| ensures ScopeActive(q, s[i]) {
      assert s[i] in s;
      assert s[i] in active;
    }
    SubsetKeysDiffer(q, Candidates(q, xs), s);
    ActiveKeepsAll(q, s, |s|);
    DedupKeepsAll(q, s, |s|);
    assert s[..|s|] == s;
  }

  lemma {:induction false} AgreeingLoseNothing(s: seq<Instruction>, x: Instruction)
    requires Distinct(s) && Agree(s)
    ensures !Loses(s, x)
  {
    OnMembers(s, x.conflictKey);
    var c := On(s, x.conflictKey);
    forall i, j | 0 <= i < |c| && 0 <= j < |c| ensures c[i].polarity == c[j].polarity {
      assert c[i] in c && c[j] in c;
    }
  }

  /** Resolving the survivors again returns them as they are and shadows nothing. */
  lemma {:induction false} ResolveIsIdempotent(q: Request, xs: seq<Instruction>, r: Resolved, t: Resolved)
    requires DistinctIds(Candidates(q, xs))
    requires ResolvedFrom(q, xs, r) && ResolvedFrom(q, r.instructions, t)
    ensures t == Resolved(r.instructions, 0, [], [], |r.instructions|)
  {
    var active := ActiveTo(q, xs, |xs|);
    DedupDistinct(q, active, |active|);
    KeysDifferDistinct(q, Candidates(q, xs));
    SurvivorsAgree(Candidates(q, xs), r);
    var s := r.instructions;
    SurvivorsAreCandidates(q, xs, s);
    forall x ensures !Loses(s, x) { AgreeingLoseNothing(s, x); }
    ResolutionPartitions(s, t);
    NonEmpty(t.shadowed, []);
    InstructionOrders();
    SortedUnique(t.instructions, s, SortLe);
  }
}
