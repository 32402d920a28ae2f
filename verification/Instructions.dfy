/** The instruction resolver: scope filter, removal of duplicates, conflict resolution by
    precedence, and a total order on what remains. */
module Instructions {
  import opened Wrappers
  import opened Sorting

  datatype Layer = RuntimeSafety | ProtectedRuntime | Repository | Agent | Tool | User | Task
  datatype Scope = Global | RepositoryScope | AgentRole | ToolScope | Turn | Run

  /** `depth` and `path` are the repository specificity carried in the metadata. */
  datatype Instruction = Instruction(
    id: string, content: string, source: string, layer: Layer, scope: Scope, scopeId: string,
    protected: bool, conflictKey: string, polarity: string, depth: nat, path: string)

  function Precedence(layer: Layer): int
  {
    match layer
    case RuntimeSafety => 600
    case ProtectedRuntime => 500
    case Repository => 400
    case Agent => 300
    case Tool => 250
    case User => 200
    case Task => 100
  }

  function LayerText(layer: Layer): string
  {
    match layer
    case RuntimeSafety => "runtime_safety"
    case ProtectedRuntime => "protected_runtime"
    case Repository => "repository"
    case Agent => "agent"
    case Tool => "tool"
    case User => "user"
    case Task => "task"
  }

  function ScopeText(scope: Scope): string
  {
    match scope
    case Global => "global"
    case RepositoryScope => "repository"
    case AgentRole => "agent-role"
    case ToolScope => "tool"
    case Turn => "turn"
    case Run => "run"
  }

  /** The request an instruction list is resolved for; `normalize` folds white space and case. */
  datatype Request = Request(
    repositoryId: string, agentRole: string, toolName: string, turnId: string, runId: string,
    activeScopes: Option<set<Scope>>, normalize: string -> string)

  function Expected(q: Request, scope: Scope): string
  {
    match scope
    case Global => ""
    case RepositoryScope => q.repositoryId
    case AgentRole => q.agentRole
    case ToolScope => q.toolName
    case Turn => q.turnId
    case Run => q.runId
  }

  predicate ScopeActive(q: Request, x: Instruction)
  {
    && (q.activeScopes.Some? ==> x.scope in q.activeScopes.value || x.scope == Global)
    && (x.scopeId == "" || Expected(q, x.scope) == x.scopeId)
  }

  datatype DedupKey = DedupKey(
    wording: string, source: string, layer: Layer, scope: Scope, scopeId: string, path: string,
    protected: bool, conflictKey: string, polarity: string)

  function KeyOf(q: Request, x: Instruction): DedupKey
  {
    DedupKey(q.normalize(x.content), x.source, x.layer, x.scope, x.scopeId,
             if x.layer == Repository then x.path else "", x.protected, x.conflictKey, x.polarity)
  }

  // ------------------------------------------------------------------ orders

  datatype Part = Num(n: int) | Text(t: string)

  function CharLe(): (char, char) -> bool { (a: char, b: char) => a <= b }

  predicate PartLe(a: Part, b: Part)
  {
    match (a, b)
    case (Num(m), Num(n)) => m <= n
    case (Text(s), Text(t)) => Lex(s, t, CharLe(), 0)
    case (Num(_), Text(_)) => true
    case (Text(_), Num(_)) => false
  }

  predicate PartsLe(a: seq<Part>, b: seq<Part>) { Lex(a, b, PartLe, 0) }

  lemma {:induction false} CharOrder()
    ensures TotalOrder(CharLe())
  {
  }

  lemma {:induction false} PartOrder()
    ensures TotalOrder(PartLe)
  {
    CharOrder();
    forall a, b ensures PartLe(a, b) || PartLe(b, a) {
      if a.Text? && b.Text? { LexTotal(a.t, b.t, CharLe(), 0); }
    }
    forall a, b, c | PartLe(a, b) && PartLe(b, c) ensures PartLe(a, c) {
      if a.Text? && b.Text? && c.Text? { LexTransitive(a.t, b.t, c.t, CharLe(), 0); }
    }
    forall a, b | PartLe(a, b) && PartLe(b, a) ensures a == b {
      if a.Text? && b.Text? { LexAntisymmetric(a.t, b.t, CharLe(), 0); }
    }
  }

  lemma {:induction false} PartsOrder()
    ensures TotalOrder(PartsLe)
  {
    PartOrder();
    forall a, b ensures PartsLe(a, b) || PartsLe(b, a) { LexTotal(a, b, PartLe, 0); }
    forall a, b, c | PartsLe(a, b) && PartsLe(b, c) ensures PartsLe(a, c) { LexTransitive(a, b, c, PartLe, 0); }
    forall a, b | PartsLe(a, b) && PartsLe(b, a) ensures a == b { LexAntisymmetric(a, b, PartLe, 0); }
  }

  function Depth(x: Instruction): nat { if x.layer == Repository then x.depth else 0 }
  function Path(x: Instruction): string { if x.layer == Repository then x.path else "" }
  function Flag(b: bool): int { if b then 1 else 0 }

  function WinnerParts(x: Instruction): seq<Part>
  {
    [Num(Precedence(x.layer)), Num(Flag(x.protected)), Num(Depth(x)), Text(Path(x)), Text(x.source),
     Text(ScopeText(x.scope)), Text(x.scopeId), Text(x.id)]
  }

  function SortParts(x: Instruction): seq<Part>
  {
    [Num(-Precedence(x.layer)), Num(-Flag(x.protected)), Num(Depth(x)), Text(Path(x)), Text(LayerText(x.layer)),
     Text(x.source), Text(ScopeText(x.scope)), Text(x.scopeId), Text(x.conflictKey), Text(x.polarity), Text(x.id)]
  }

  predicate WinnerLe(a: Instruction, b: Instruction) { PartsLe(WinnerParts(a), WinnerParts(b)) }

  predicate SortLe(a: Instruction, b: Instruction) { PartsLe(SortParts(a), SortParts(b)) }

  lemma {:induction false} InstructionOrders()
    ensures TotalPreorder(WinnerLe) && TotalPreorder(SortLe)
    ensures forall a, b :: WinnerLe(a, b) && WinnerLe(b, a) ==> a.id == b.id
    ensures forall a, b :: SortLe(a, b) && SortLe(b, a) ==> a.id == b.id
  {
    PartsOrder();
    forall a, b | WinnerLe(a, b) && WinnerLe(b, a) ensures a.id == b.id {
      assert WinnerParts(a)[7] == WinnerParts(b)[7];
    }
    forall a, b | SortLe(a, b) && SortLe(b, a) ensures a.id == b.id {
      assert SortParts(a)[10] == SortParts(b)[10];
    }
  }

  /** Whoever ranks lower cannot have the stronger layer. */
  lemma {:induction false} WinnerLayer(a: Instruction, b: Instruction)
    requires WinnerLe(a, b)
    ensures Precedence(a.layer) <= Precedence(b.layer)
  {
    assert WinnerParts(a)[0] == Num(Precedence(a.layer)) && WinnerParts(b)[0] == Num(Precedence(b.layer));
  }

  // --------------------------------------------------- what resolution means

  predicate Takes(x: Instruction) { x.conflictKey != "" && x.polarity != "" }

  /** The first `n` that take part in conflicts about the key, in order. */
  function Subject(d: seq<Instruction>, n: nat, key: string): seq<Instruction>
    requires n <= |d|
  {
    if n == 0 then []
    else Subject(d, n - 1, key) + if Takes(d[n - 1]) && d[n - 1].conflictKey == key then [d[n - 1]] else []
  }

  function On(d: seq<Instruction>, key: string): seq<Instruction> { Subject(d, |d|, key) }

  /** The first one of highest rank. */
  function Best(c: seq<Instruction>, n: nat): (w: Instruction)
    requires 0 < n <= |c|
  {
    if n == 1 then c[0]
    else var w := Best(c, n - 1); if WinnerLe(c[n - 1], w) then w else c[n - 1]
  }

  predicate Contested(c: seq<Instruction>)
  {
    exists i, j :: 0 <= i < |c| && 0 <= j < |c| && c[i].polarity != c[j].polarity
  }

  /** Some other instruction wins the policy subject of `x`. */
  predicate Loses(d: seq<Instruction>, x: Instruction)
  {
    Takes(x) &&
    var c := On(d, x.conflictKey);
    Contested(c) && x.id != Best(c, |c|).id
  }

  datatype Conflict = Conflict(key: string, winnerId: string, loserId: string, winnerLayer: Layer, loserLayer: Layer)

  function ConflictOf(d: seq<Instruction>, x: Instruction): Conflict
    requires On(d, x.conflictKey) != []
  {
    var c := On(d, x.conflictKey);
    var w := Best(c, |c|);
    Conflict(x.conflictKey, w.id, x.id, w.layer, x.layer)
  }

  predicate ConflictLe(a: Conflict, b: Conflict)
  {
    PartsLe([Text(a.key), Text(a.winnerId), Text(a.loserId)], [Text(b.key), Text(b.winnerId), Text(b.loserId)])
  }

  datatype Resolved = Resolved(
    instructions: seq<Instruction>, deduplicated: nat, shadowed: seq<Instruction>, conflicts: seq<Conflict>,
    active: nat)

  /** `s` lists, in sort order and without repetition, the members of `d` that lose, or those that do not. */
  ghost predicate Lists(d: seq<Instruction>, s: seq<Instruction>, losers: bool)
  {
    Distinct(s) && Sorted(s, SortLe) && forall x :: x in s <==> x in d && Loses(d, x) == losers
  }

  /** `cs` lists in order one conflict for each shadowed instruction. */
  ghost predicate Records(d: seq<Instruction>, shadowed: seq<Instruction>, cs: seq<Conflict>)
  {
    && Sorted(cs, ConflictLe) && |cs| == |shadowed| && (DistinctIds(d) ==> Distinct(cs))
    && forall c :: c in cs <==> exists x :: x in shadowed && IsConflictOf(d, x, c)
  }

  /** `r` is the resolution of the pairwise different instructions `d`. */
  ghost predicate Resolves(d: seq<Instruction>, r: Resolved)
  {
    Lists(d, r.instructions, false) && Lists(d, r.shadowed, true) && Records(d, r.shadowed, r.conflicts)
  }

  ghost predicate DistinctIds(d: seq<Instruction>)
  {
    forall x, y :: x in d && y in d && x.id == y.id ==> x == y
  }

  ghost predicate IsConflictOf(d: seq<Instruction>, x: Instruction, c: Conflict)
  {
    On(d, x.conflictKey) != [] && c == ConflictOf(d, x)
  }

  /** The active instructions among the first `n`, in order. */
  function ActiveTo(q: Request, xs: seq<Instruction>, n: nat): seq<Instruction>
    requires n <= |xs|
  {
    if n == 0 then [] else ActiveTo(q, xs, n - 1) + if ScopeActive(q, xs[n - 1]) then [xs[n - 1]] else []
  }

  predicate HasKey(q: Request, d: seq<Instruction>, key: DedupKey)
  {
    exists i :: 0 <= i < |d| && KeyOf(q, d[i]) == key
  }

  /** The first instruction for each key. */
  function DedupTo(q: Request, xs: seq<Instruction>, n: nat): seq<Instruction>
    requires n <= |xs|
  {
    if n == 0 then []
    else var d := DedupTo(q, xs, n - 1); d + if HasKey(q, d, KeyOf(q, xs[n - 1])) then [] else [xs[n - 1]]
  }

  function Candidates(q: Request, xs: seq<Instruction>): seq<Instruction>
  {
    var active := ActiveTo(q, xs, |xs|);
    DedupTo(q, active, |active|)
  }

  ghost predicate KeysDiffer(q: Request, d: seq<Instruction>)
  {
    forall i, j :: 0 <= i < j < |d| ==> KeyOf(q, d[i]) != KeyOf(q, d[j])
  }

  lemma {:induction false} DedupDistinct(q: Request, xs: seq<Instruction>, n: nat)
    requires n <= |xs|
    ensures KeysDiffer(q, DedupTo(q, xs, n))
  {
    if n > 0 {
      DedupDistinct(q, xs, n - 1);
      var was, x := DedupTo(q, xs, n - 1), xs[n - 1];
      assert was + [] == was;
      if !HasKey(q, was, KeyOf(q, x)) {
        var d := was + [x];
        assert DedupTo(q, xs, n) == d;
        forall i, j | 0 <= i < j < |d| ensures KeyOf(q, d[i]) != KeyOf(q, d[j]) {
          assert d[i] == was[i] && (if j < |was| then d[j] == was[j] else d[j] == x);
        }
      }
    }
  }

  lemma {:induction false} KeysDifferDistinct(q: Request, d: seq<Instruction>)
    requires KeysDiffer(q, d)
    ensures Distinct(d)
  {
    forall i, j | 0 <= i < j < |d| ensures d[i] != d[j] {
      assert KeyOf(q, d[i]) != KeyOf(q, d[j]);
    }
  }

  // ------------------------------------------------------------- the resolver

  method Resolve(q: Request, xs: seq<Instruction>) returns (r: Resolved)
    ensures Resolves(Candidates(q, xs), r)
    ensures r.active == |ActiveTo(q, xs, |xs|)| && r.deduplicated == r.active - |Candidates(q, xs)|
  {
    var active: seq<Instruction> := [];
    for n := 0 to |xs|
      invariant active == ActiveTo(q, xs, n)
    {
      if ScopeActive(q, xs[n]) { active := active + [xs[n]]; }
    }
    var d, deduplicated := Deduplicate(q, active);
    DedupDistinct(q, active, |active|);
    KeysDifferDistinct(q, d);
    var keys, groups := GroupByConflict(d);
    var winners, shadowed, conflicts := ShadowLosers(d, keys, groups);
    SortedResolution(d, winners, shadowed, conflicts, deduplicated, |active|);
    r := Resolved(
      SortBy(winners, SortLe), deduplicated, SortBy(shadowed, SortLe), SortBy(conflicts, ConflictLe), |active|);
  }

  method Deduplicate(q: Request, active: seq<Instruction>) returns (d: seq<Instruction>, deduplicated: nat)
    ensures d == DedupTo(q, active, |active|) && |d| + deduplicated == |active|
  {
    var seen: set<DedupKey> := {};
    d, deduplicated := [], 0;
    for n := 0 to |active|
      invariant d == DedupTo(q, active, n) && |d| + deduplicated == n
      invariant forall k :: k in seen <==> HasKey(q, d, k)
    {
      var key := KeyOf(q, active[n]);
      if key in seen { deduplicated := deduplicated + 1; continue; }
      HasKeySnoc(q, d, active[n]);
      seen, d := seen + {key}, d + [active[n]];
    }
  }

  lemma {:induction false} SortedResolution(d: seq<Instruction>, winners: seq<Instruction>, shadowed: seq<Instruction>,
                                            conflicts: seq<Conflict>, deduplicated: nat, active: nat)
    requires Splits(d, Split(winners, shadowed, conflicts), AllLosers(d))
    requires forall c :: c in conflicts <==> exists x :: x in shadowed && IsConflictOf(d, x, c)
    requires DistinctIds(d) ==> Distinct(conflicts)
    ensures Resolves(d, Resolved(
              SortBy(winners, SortLe), deduplicated, SortBy(shadowed, SortLe), SortBy(conflicts, ConflictLe), active))
  {
    SortInstructions(winners);
    SortInstructions(shadowed);
    SortConflicts(d, shadowed, conflicts);
  }

  lemma {:induction false} SortConflicts(d: seq<Instruction>, shadowed: seq<Instruction>, conflicts: seq<Conflict>)
    requires |conflicts| == |shadowed| && Distinct(shadowed)
    requires forall c :: c in conflicts <==> exists x :: x in shadowed && IsConflictOf(d, x, c)
    requires DistinctIds(d) ==> Distinct(conflicts)
    ensures Records(d, SortBy(shadowed, SortLe), SortBy(conflicts, ConflictLe))
  {
    SortInstructions(shadowed);
    ConflictOrder();
    SortBySorted(conflicts, ConflictLe);
    SameElements(conflicts, SortBy(conflicts, ConflictLe));
    if Distinct(conflicts) { SameDistinct(conflicts, SortBy(conflicts, ConflictLe)); }
  }

  lemma {:induction false} SortInstructions(s: seq<Instruction>)
    requires Distinct(s)
    ensures Sorted(SortBy(s, SortLe), SortLe) && Distinct(SortBy(s, SortLe))
    ensures forall x :: x in SortBy(s, SortLe) <==> x in s
  {
    InstructionOrders();
    SortBySorted(s, SortLe);
    SameElements(s, SortBy(s, SortLe));
    SameDistinct(s, SortBy(s, SortLe));
  }

  lemma {:induction false} ConflictOrder()
    ensures TotalPreorder(ConflictLe)
    ensures forall a, b :: ConflictLe(a, b) && ConflictLe(b, a) ==>
      a.winnerId == b.winnerId && a.loserId == b.loserId && a.key == b.key
  {
    PartsOrder();
    forall a, b | ConflictLe(a, b) && ConflictLe(b, a)
      ensures a.winnerId == b.winnerId && a.loserId == b.loserId && a.key == b.key {
      var p, q := [Text(a.key), Text(a.winnerId), Text(a.loserId)], [Text(b.key), Text(b.winnerId), Text(b.loserId)];
      assert p[0] == q[0] && p[1] == q[1] && p[2] == q[2];
    }
  }

  lemma {:induction false} HasKeySnoc(q: Request, d: seq<Instruction>, x: Instruction)
    ensures forall k :: HasKey(q, d + [x], k) <==> HasKey(q, d, k) || k == KeyOf(q, x)
  {
    forall k ensures HasKey(q, d + [x], k) <==> HasKey(q, d, k) || k == KeyOf(q, x) {
      if HasKey(q, d, k) {
        var i :| 0 <= i < |d| && KeyOf(q, d[i]) == k;
        assert (d + [x])[i] == d[i];
      }
      assert (d + [x])[|d|] == x;
    }
  }

  ghost predicate Holds(d: seq<Instruction>, n: nat, groups: map<string, seq<Instruction>>, k: string)
    requires n <= |d|
  {
    Subject(d, n, k) == if k in groups then groups[k] else []
  }

  /** `groups` holds the conflict subjects of the first `n`, and `keys` lists them. */
  ghost predicate Grouped(d: seq<Instruction>, n: nat, keys: seq<string>, groups: map<string, seq<Instruction>>)
    requires n <= |d|
  {
    Distinct(keys) && (forall k :: k in keys <==> k in groups) && forall k :: Holds(d, n, groups, k)
  }

  lemma {:induction false} GroupedSkip(
      d: seq<Instruction>, n: nat, keys: seq<string>, groups: map<string, seq<Instruction>>)
    requires n < |d| && Grouped(d, n, keys, groups) && !Takes(d[n])
    ensures Grouped(d, n + 1, keys, groups)
  {
    var m := n + 1;
    forall k ensures Holds(d, m, groups, k) { assert Holds(d, n, groups, k); }
  }

  function Extended(groups: map<string, seq<Instruction>>, x: Instruction): map<string, seq<Instruction>>
  {
    groups[x.conflictKey := (if x.conflictKey in groups then groups[x.conflictKey] else []) + [x]]
  }

  lemma {:induction false} HoldsAdd(d: seq<Instruction>, n: nat, groups: map<string, seq<Instruction>>, k: string)
    requires n < |d| && Holds(d, n, groups, k) && Takes(d[n])
    ensures Holds(d, n + 1, Extended(groups, d[n]), k)
  {
  }

  lemma {:induction false} GroupedAdd(
      d: seq<Instruction>, n: nat, keys: seq<string>, groups: map<string, seq<Instruction>>)
    requires n < |d| && Grouped(d, n, keys, groups) && Takes(d[n])
    ensures Grouped(d, n + 1, if d[n].conflictKey in groups then keys else keys + [d[n].conflictKey],
                    Extended(groups, d[n]))
  {
    var m, extended := n + 1, Extended(groups, d[n]);
    forall k ensures Holds(d, m, extended, k) {
      assert Holds(d, n, groups, k);
      HoldsAdd(d, n, groups, k);
    }
  }

  /** The policy subjects in order of first appearance, each with its instructions in order. */
  method GroupByConflict(d: seq<Instruction>) returns (keys: seq<string>, groups: map<string, seq<Instruction>>)
    ensures Grouped(d, |d|, keys, groups)
  {
    keys, groups := [], map[];
    for n := 0 to |d|
      invariant Grouped(d, n, keys, groups)
    {
      var x := d[n];
      if x.conflictKey == "" || x.polarity == "" {
        GroupedSkip(d, n, keys, groups);
        continue;
      }
      GroupedAdd(d, n, keys, groups);
      if x.conflictKey !in groups { keys := keys + [x.conflictKey]; }
      groups := Extended(groups, x);
    }
  }

  function RemoveFirst(s: seq<Instruction>, x: Instruction): seq<Instruction>
  {
    if s == [] then [] else if s[0] == x then s[1..] else [s[0]] + RemoveFirst(s[1..], x)
  }

  lemma {:induction false} RemoveFirstDistinct(s: seq<Instruction>, x: Instruction)
    requires Distinct(s)
    ensures Distinct(RemoveFirst(s, x))
    ensures forall y :: y in RemoveFirst(s, x) <==> y in s && y != x
  {
    if s != [] {
      RemoveFirstDistinct(s[1..], x);
      assert s == [s[0]] + s[1..];
      assert s[0] !in s[1..];
    }
  }

  /** The state of the conflict loop: winners left, losers taken out, and a conflict for each. */
  datatype Split = Split(winners: seq<Instruction>, shadowed: seq<Instruction>, conflicts: seq<Conflict>)

  /** Winners and losers split `d`, the losers so far being those that satisfy `lost`. */
  ghost predicate Splits(d: seq<Instruction>, s: Split, lost: Instruction -> bool)
  {
    && Distinct(s.winners) && Distinct(s.shadowed)
    && (forall x :: x in s.winners <==> x in d && !lost(x))
    && (forall x :: x in s.shadowed <==> x in d && lost(x))
    && |s.conflicts| == |s.shadowed|
    && forall i :: 0 <= i < |s.shadowed| ==> IsConflictOf(d, s.shadowed[i], s.conflicts[i])
  }

  function Judge(s: Split, x: Instruction, w: Instruction): Split
  {
    Split(RemoveFirst(s.winners, x), s.shadowed + [x],
          s.conflicts + [Conflict(x.conflictKey, w.id, x.id, w.layer, x.layer)])
  }

  lemma {:induction false} JudgeSplits(
      d: seq<Instruction>, s: Split, x: Instruction, lost: Instruction -> bool, lost': Instruction -> bool)
    requires Splits(d, s, lost) && x in d && !lost(x) && On(d, x.conflictKey) != []
    requires forall y :: y in d ==> (lost'(y) <==> lost(y) || y == x)
    ensures var c := On(d, x.conflictKey); Splits(d, Judge(s, x, Best(c, |c|)), lost')
  {
    RemoveFirstDistinct(s.winners, x);
  }

  lemma {:induction false} SubjectMembers(d: seq<Instruction>, n: nat, key: string)
    requires n <= |d| && Distinct(d)
    ensures forall x :: x in Subject(d, n, key) <==> x in d[..n] && Takes(x) && x.conflictKey == key
    ensures Distinct(Subject(d, n, key))
  {
    if n > 0 {
      SubjectMembers(d, n - 1, key);
      assert d[..n] == d[..n - 1] + [d[n - 1]];
      assert d[n - 1] !in d[..n - 1];
    }
  }

  lemma {:induction false} OnMembers(d: seq<Instruction>, key: string)
    requires Distinct(d)
    ensures forall x :: x in On(d, key) <==> x in d && Takes(x) && x.conflictKey == key
    ensures Distinct(On(d, key))
  {
    SubjectMembers(d, |d|, key);
    assert d[..|d|] == d;
  }

  /** Loser whose subject has been handled. */
  predicate LostIn(d: seq<Instruction>, handled: set<string>, x: Instruction)
  {
    Loses(d, x) && x.conflictKey in handled
  }

  function HandledLosers(d: seq<Instruction>, handled: set<string>): Instruction -> bool { x => LostIn(d, handled, x) }

  function AllLosers(d: seq<Instruction>): Instruction -> bool { x => Loses(d, x) }

  method ShadowLosers(d: seq<Instruction>, keys: seq<string>, groups: map<string, seq<Instruction>>)
    returns (winners: seq<Instruction>, shadowed: seq<Instruction>, conflicts: seq<Conflict>)
    requires Distinct(d) && Grouped(d, |d|, keys, groups)
    ensures Splits(d, Split(winners, shadowed, conflicts), AllLosers(d))
    ensures forall c :: c in conflicts <==> exists x :: x in shadowed && IsConflictOf(d, x, c)
    ensures DistinctIds(d) ==> Distinct(conflicts)
  {
    var s := Split(d, [], []);
    ghost var handled: set<string> := {};
    for m := 0 to |keys|
      invariant forall k :: k in handled <==> exists i :: 0 <= i < m && keys[i] == k
      invariant Splits(d, s, HandledLosers(d, handled))
    {
      var key := keys[m];
      assert key in keys && key !in handled;
      assert Holds(d, |d|, groups, key);
      s := ShadowGroup(d, key, groups[key], handled, s);
      handled := handled + {key};
    }
    forall x | x in d ensures LostIn(d, handled, x) <==> Loses(d, x) {
      if Loses(d, x) {
        OnMembers(d, x.conflictKey);
        assert Holds(d, |d|, groups, x.conflictKey);
        assert x in On(d, x.conflictKey);
        assert x.conflictKey in keys;
      }
    }
    winners, shadowed, conflicts := s.winners, s.shadowed, s.conflicts;
    ConflictsMatch(d, shadowed, conflicts);
  }

  lemma {:induction false} ConflictsMatch(d: seq<Instruction>, shadowed: seq<Instruction>, conflicts: seq<Conflict>)
    requires |conflicts| == |shadowed| && forall i :: 0 <= i < |shadowed| ==> IsConflictOf(d, shadowed[i], conflicts[i])
    ensures forall c :: c in conflicts <==> exists x :: x in shadowed && IsConflictOf(d, x, c)
    ensures DistinctIds(d) && Distinct(shadowed) && (forall x :: x in shadowed ==> x in d) ==> Distinct(conflicts)
  {
    if DistinctIds(d) && Distinct(shadowed) && forall x :: x in shadowed ==> x in d {
      forall i, j | 0 <= i < j < |conflicts| ensures conflicts[i] != conflicts[j] {
        assert shadowed[i] in shadowed && shadowed[j] in shadowed;
        assert conflicts[i].loserId == shadowed[i].id && conflicts[j].loserId == shadowed[j].id;
      }
    }
    forall c ensures c in conflicts <==> exists x :: x in shadowed && IsConflictOf(d, x, c) {
      if c in conflicts {
        var i :| 0 <= i < |conflicts| && conflicts[i] == c;
        assert shadowed[i] in shadowed;
      }
      if x :| x in shadowed && IsConflictOf(d, x, c) {
        var i :| 0 <= i < |shadowed| && shadowed[i] == x;
        assert conflicts[i] == c;
      }
    }
  }

  /** Loser whose subject has been handled, or among the first `j` of the group at hand. */
  predicate LostSoFar(d: seq<Instruction>, handled: set<string>, group: seq<Instruction>, j: nat, x: Instruction)
    requires j <= |group| && group != []
  {
    LostIn(d, handled, x) || exists i :: 0 <= i < j && group[i] == x && x.id != Best(group, |group|).id
  }

  function LostBefore(d: seq<Instruction>, handled: set<string>, group: seq<Instruction>, j: nat): Instruction -> bool
    requires j <= |group| && group != []
  {
    x => LostSoFar(d, handled, group, j, x)
  }

  lemma {:induction false} NextLost(
      d: seq<Instruction>, handled: set<string>, key: string, group: seq<Instruction>, j: nat)
    requires Distinct(d) && group == On(d, key) && key !in handled && j < |group|
    ensures !LostSoFar(d, handled, group, j, group[j])
    ensures forall y :: LostSoFar(d, handled, group, j + 1, y)
              <==> LostSoFar(d, handled, group, j, y) || (y == group[j] && y.id != Best(group, |group|).id)
  {
    OnMembers(d, key);
    assert group[j] in group;
  }

  lemma {:induction false} AllLost(d: seq<Instruction>, handled: set<string>, key: string, group: seq<Instruction>)
    requires Distinct(d) && group == On(d, key) && Contested(group)
    ensures forall x :: x in d ==> (LostIn(d, handled + {key}, x) <==> LostSoFar(d, handled, group, |group|, x))
  {
    OnMembers(d, key);
    forall x | x in d ensures LostIn(d, handled + {key}, x) <==> LostSoFar(d, handled, group, |group|, x) {
      if x in group {
        var i :| 0 <= i < |group| && group[i] == x;
      }
    }
  }

  /** One policy subject: if it is contested, all but the winner are taken out. */
  method ShadowGroup(
      d: seq<Instruction>, key: string, group: seq<Instruction>, ghost handled: set<string>, start: Split)
    returns (s: Split)
    requires Distinct(d) && group == On(d, key) && key !in handled
    requires Splits(d, start, HandledLosers(d, handled))
    ensures Splits(d, s, HandledLosers(d, handled + {key}))
  {
    s := start;
    OnMembers(d, key);
    if !Contested(group) {
      assert forall x :: LostIn(d, handled + {key}, x) <==> LostIn(d, handled, x);
      return;
    }
    var winner := Best(group, |group|);
    for j := 0 to |group|
      invariant Splits(d, s, LostBefore(d, handled, group, j))
    {
      var x := group[j];
      assert x in group;
      NextLost(d, handled, key, group, j);
      if x.id == winner.id { continue; }
      JudgeSplits(d, s, x, LostBefore(d, handled, group, j), LostBefore(d, handled, group, j + 1));
      s := Judge(s, x, winner);
    }
    AllLost(d, handled, key, group);
  }
}
