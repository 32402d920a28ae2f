/** Resolution in terms of the layers themselves: who wins over whom, in which order survivors come, which
    instructions a request activates and which ones count as the same. */
module InstructionLayers {
  import opened Wrappers
  import opened Sorting
  import opened Instructions
  import opened InstructionProperties
  import opened InstructionOrder

  /** From strongest to weakest. */
  const Strongest: seq<Layer> := [RuntimeSafety, ProtectedRuntime, Repository, Agent, Tool, User, Task]

  /** `a` does not come before `b` in that list. */
  predicate NotAhead(a: Layer, b: Layer)
  {
    forall i, j :: 0 <= i < |Strongest| && 0 <= j < |Strongest| && Strongest[i] == a && Strongest[j] == b ==> j <= i
  }

  function Place(layer: Layer): (i: nat)
    ensures i < |Strongest| && Strongest[i] == layer
    ensures forall j :: 0 <= j < |Strongest| && Strongest[j] == layer ==> i == j
  {
    match layer
    case RuntimeSafety => 0
    case ProtectedRuntime => 1
    case Repository => 2
    case Agent => 3
    case Tool => 4
    case User => 5
    case Task => 6
  }

  lemma {:induction false} PrecedenceIsPlace(a: Layer, b: Layer)
    ensures Precedence(a) <= Precedence(b) <==> NotAhead(a, b)
    ensures Precedence(a) == Precedence(b) <==> a == b
  {
    assert NotAhead(a, b) <==> Place(b) <= Place(a);
  }

  /** `a` gives way to `b`: it is in no stronger layer; in the same one it is not protected unless `b` is; and
      of two equally protected ones of the repository it is no deeper. */
  predicate GivesWay(a: Instruction, b: Instruction)
  {
    && NotAhead(a.layer, b.layer)
    && (a.layer == b.layer && a.protected ==> b.protected)
    && (a.layer == b.layer == Repository && a.protected == b.protected ==> a.depth <= b.depth)
  }

  lemma {:induction false} WinnerGivesWay(a: Instruction, b: Instruction)
    requires WinnerLe(a, b)
    ensures GivesWay(a, b)
  {
    PrecedenceIsPlace(a.layer, b.layer);
    var p, q := WinnerParts(a), WinnerParts(b);
    assert Lex(p, q, PartLe, 0) && p[0] == Num(Precedence(a.layer)) && q[0] == Num(Precedence(b.layer));
    if a.layer == b.layer {
      assert Lex(p, q, PartLe, 1) && p[1] == Num(Flag(a.protected)) && q[1] == Num(Flag(b.protected));
      if a.protected == b.protected {
        assert Lex(p, q, PartLe, 2) && p[2] == Num(Depth(a)) && q[2] == Num(Depth(b));
      }
    }
  }

  /** `a` may stand before `b` among the survivors: by layer, in a layer the protected ones first, and of equally
      protected ones of the repository the shallower first. */
  predicate ComesFirst(a: Instruction, b: Instruction)
  {
    && NotAhead(b.layer, a.layer)
    && (a.layer == b.layer && b.protected ==> a.protected)
    && (a.layer == b.layer == Repository && a.protected == b.protected ==> a.depth <= b.depth)
  }

  lemma {:induction false} SortedComesFirst(a: Instruction, b: Instruction)
    requires SortLe(a, b)
    ensures ComesFirst(a, b)
  {
    PrecedenceIsPlace(b.layer, a.layer);
    var p, q := SortParts(a), SortParts(b);
    assert Lex(p, q, PartLe, 0) && p[0] == Num(-Precedence(a.layer)) && q[0] == Num(-Precedence(b.layer));
    if a.layer == b.layer {
      assert Lex(p, q, PartLe, 1) && p[1] == Num(-Flag(a.protected)) && q[1] == Num(-Flag(b.protected));
      if a.protected == b.protected {
        assert Lex(p, q, PartLe, 2) && p[2] == Num(Depth(a)) && q[2] == Num(Depth(b));
      }
    }
  }

  /** Every conflict record has its loser in a layer that does not come before the winner's, and the survivors
      come by layer, strongest first. */
  lemma {:induction false} LayersDecide(d: seq<Instruction>, r: Resolved)
    requires Distinct(d) && Resolves(d, r)
    ensures forall c :: c in r.conflicts ==> NotAhead(c.loserLayer, c.winnerLayer)
    ensures forall i, j :: 0 <= i < j < |r.instructions| ==> ComesFirst(r.instructions[i], r.instructions[j])
  {
    forall c | c in r.conflicts ensures NotAhead(c.loserLayer, c.winnerLayer) {
      ConflictLayers(d, r, c);
      PrecedenceIsPlace(c.loserLayer, c.winnerLayer);
    }
    forall i, j | 0 <= i < j < |r.instructions| ensures ComesFirst(r.instructions[i], r.instructions[j]) {
      SortedComesFirst(r.instructions[i], r.instructions[j]);
    }
  }

  /** Whoever is shadowed gives way to a survivor about the same subject, and a record names the two. */
  lemma {:induction false} ShadowedGivesWay(d: seq<Instruction>, r: Resolved, x: Instruction) returns (w: Instruction)
    requires Distinct(d) && Resolves(d, r) && x in r.shadowed
    ensures w in r.instructions && w.conflictKey == x.conflictKey && w.id != x.id && GivesWay(x, w)
    ensures Conflict(x.conflictKey, w.id, x.id, w.layer, x.layer) in r.conflicts
  {
    w := ShadowedByStronger(d, r, x);
    WinnerGivesWay(x, w);
  }

  /** An instruction without subject or polarity survives, and so does one that nobody about its subject
      contradicts. */
  lemma {:induction false} UncontestedSurvive(d: seq<Instruction>, r: Resolved, x: Instruction)
    requires Distinct(d) && Resolves(d, r) && x in d
    requires x.conflictKey == "" || x.polarity == "" ||
             forall y :: y in d && y.conflictKey == x.conflictKey && y.polarity != "" ==> y.polarity == x.polarity
    ensures x in r.instructions && x !in r.shadowed
  {
    OnMembers(d, x.conflictKey);
    var c := On(d, x.conflictKey);
    forall i | 0 <= i < |c| && Takes(x) ensures c[i].polarity == x.polarity { assert c[i] in c; }
  }

  /** About a contested subject exactly one survives, with distinct ids. */
  lemma {:induction false} OneSurvives(d: seq<Instruction>, r: Resolved, x: Instruction, y: Instruction)
    returns (w: Instruction)
    requires Distinct(d) && DistinctIds(d) && Resolves(d, r) && x in d && y in d
    requires x.conflictKey == y.conflictKey != "" && x.polarity != "" && y.polarity != "" && x.polarity != y.polarity
    ensures w in r.instructions && w.conflictKey == x.conflictKey && w.polarity != ""
    ensures forall z :: z in d && z.conflictKey == x.conflictKey && z.polarity != "" ==>
              GivesWay(z, w) && (z in r.instructions <==> z == w) && (z in r.shadowed <==> z != w)
  {
    OnMembers(d, x.conflictKey);
    var c := On(d, x.conflictKey);
    assert x in c && y in c;
    var i, j :| 0 <= i < |c| && 0 <= j < |c| && c[i] == x && c[j] == y;
    w := Best(c, |c|);
    BestIsBest(c, |c|);
    forall z | z in d && z.conflictKey == x.conflictKey && z.polarity != ""
      ensures GivesWay(z, w) && (z in r.instructions <==> z == w) && (z in r.shadowed <==> z != w)
    {
      assert z in c;
      var k :| 0 <= k < |c| && c[k] == z;
      WinnerGivesWay(z, w);
    }
  }

  // ------------------------------------------------------------- who takes part

  /** A global instruction is active unless it names something; one of another scope is active exactly when
      its scope is, and it names nothing or what the request names for that scope. */
  lemma {:induction false} ActiveByScope(q: Request, x: Instruction)
    ensures x.scope == Global ==> (ScopeActive(q, x) <==> x.scopeId == "")
    ensures q.activeScopes.Some? && x.scope !in q.activeScopes.value && x.scope != Global ==> !ScopeActive(q, x)
    ensures q.activeScopes.None? || x.scope in q.activeScopes.value ==>
              && (x.scope == RepositoryScope ==> (ScopeActive(q, x) <==> x.scopeId in ["", q.repositoryId]))
              && (x.scope == AgentRole ==> (ScopeActive(q, x) <==> x.scopeId in ["", q.agentRole]))
              && (x.scope == ToolScope ==> (ScopeActive(q, x) <==> x.scopeId in ["", q.toolName]))
              && (x.scope == Turn ==> (ScopeActive(q, x) <==> x.scopeId in ["", q.turnId]))
              && (x.scope == Run ==> (ScopeActive(q, x) <==> x.scopeId in ["", q.runId]))
  {
  }

  /** Two instructions say the same for a request: in wording, origin, standing and subject; in the repository
      layer also for the same path. */
  predicate SaySame(q: Request, x: Instruction, y: Instruction)
  {
    && q.normalize(x.content) == q.normalize(y.content) && x.source == y.source && x.layer == y.layer
    && x.scope == y.scope && x.scopeId == y.scopeId && x.protected == y.protected
    && x.conflictKey == y.conflictKey && x.polarity == y.polarity
    && (x.layer == Repository ==> x.path == y.path)
  }

  /** Of the active instructions that say the same exactly one takes part, and no inactive one does. */
  lemma {:induction false} OneOfTheSameTakesPart(q: Request, xs: seq<Instruction>, x: Instruction)
    requires x in xs
    ensures forall y :: y in Candidates(q, xs) ==> y in xs && ScopeActive(q, y)
    ensures ScopeActive(q, x) ==> exists y :: y in Candidates(q, xs) && SaySame(q, x, y)
    ensures var c := Candidates(q, xs); forall i, j :: 0 <= i < j < |c| ==> !SaySame(q, c[i], c[j])
  {
    var active, c := ActiveTo(q, xs, |xs|), Candidates(q, xs);
    ActiveMembers(q, xs, |xs|);
    assert xs[..|xs|] == xs;
    DedupFrom(q, active, |active|);
    DedupDistinct(q, active, |active|);
    forall i, j | 0 <= i < j < |c| ensures !SaySame(q, c[i], c[j]) { assert KeyOf(q, c[i]) != KeyOf(q, c[j]); }
    if ScopeActive(q, x) {
      var k :| 0 <= k < |active| && active[k] == x;
      DedupHas(q, active, |active|, k);
    }
  }

  lemma {:induction false} DedupHas(q: Request, xs: seq<Instruction>, n: nat, k: nat)
    requires k < n <= |xs|
    ensures exists y :: y in DedupTo(q, xs, n) && SaySame(q, xs[k], y)
  {
    var before := DedupTo(q, xs, n - 1);
    if k < n - 1 {
      DedupHas(q, xs, n - 1, k);
      var y :| y in before && SaySame(q, xs[k], y);
      assert y in DedupTo(q, xs, n);
    } else if HasKey(q, before, KeyOf(q, xs[k])) {
      var i :| 0 <= i < |before| && KeyOf(q, before[i]) == KeyOf(q, xs[k]);
      assert before[i] in DedupTo(q, xs, n);
    } else {
      assert xs[k] in DedupTo(q, xs, n);
    }
  }
}
