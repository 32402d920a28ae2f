/** Native provider messages, the validator's scan for tool-call/result pairing,
    and the compiler's grouping of a call with its results. */
module NativeMessages {
  import opened Wrappers
  import opened Text

  type CallId = string

  datatype Role = System | User | Assistant | Tool | Other(name: string)

  /** `calls` are the ids of an assistant's tool calls; `callId` is the id a tool result answers. */
  datatype Message = Message(role: Role, calls: seq<CallId>, callId: CallId, content: string)

  predicate MakesCalls(m: Message) { m.role.Assistant? && m.calls != [] }

  /** The first `n` ids are non-empty and pairwise different. */
  predicate DistinctIds(calls: seq<CallId>, n: nat)
    requires n <= |calls|
  {
    (forall i :: 0 <= i < n ==> calls[i] != "") && forall i, j :: 0 <= i < j < n ==> calls[i] != calls[j]
  }

  predicate WellFormedCalls(calls: seq<CallId>) { DistinctIds(calls, |calls|) }

  function FirstIds(calls: seq<CallId>, n: nat): set<CallId>
    requires n <= |calls|
  {
    set i | 0 <= i < n :: calls[i]
  }

  function IdSet(calls: seq<CallId>): set<CallId> { FirstIds(calls, |calls|) }

  // ---------------------------------------------------------------- the scan

  /** What the scan knows after a prefix: the calls still unanswered, unless it found a fault. */
  datatype Verdict = Rejected | Open(pending: set<CallId>)

  function ScanStep(v: Verdict, m: Message): Verdict
  {
    if v.Rejected? then Rejected
    else if MakesCalls(m) then
      if v.pending == {} && WellFormedCalls(m.calls) then Open(IdSet(m.calls)) else Rejected
    else if m.role.Tool? then
      if m.callId != "" && m.callId in v.pending then Open(v.pending - {m.callId}) else Rejected
    else if v.pending != {} && !m.role.Other? then Rejected
    else v
  }

  /** The verdict after `n` of the messages, starting from verdict `v`. */
  function ScanFrom(v: Verdict, ms: seq<Message>, n: nat): Verdict
    requires n <= |ms|
  {
    if n == 0 then v else ScanStep(ScanFrom(v, ms, n - 1), ms[n - 1])
  }

  function Scan(ms: seq<Message>): Verdict { ScanFrom(Open({}), ms, |ms|) }

  predicate Accepted(ms: seq<Message>) { Scan(ms) == Open({}) }

  datatype Fault =
    | UnresolvedCalls(at: nat) | InvalidCallId(at: nat) | UnknownCallId(at: nat)
    | Interrupted(at: nat) | Unanswered | SeedMissing | NoMessages

  predicate HasUserSeed(ms: seq<Message>)
  {
    exists i :: 0 <= i < |ms| && ms[i].role.User? && exists k :: 0 <= k < |ms[i].content| && !IsSpace(ms[i].content[k])
  }

  /** The calls made, and the results given, by the first `n` messages. */
  function CallsMade(ms: seq<Message>, n: nat): nat
    requires n <= |ms|
  {
    if n == 0 then 0 else CallsMade(ms, n - 1) + if MakesCalls(ms[n - 1]) then |ms[n - 1].calls| else 0
  }

  function ResultsGiven(ms: seq<Message>, n: nat): nat
    requires n <= |ms|
  {
    if n == 0 then 0 else ResultsGiven(ms, n - 1) + if ms[n - 1].role.Tool? then 1 else 0
  }

  /** One assistant message of the scan: its call ids become pending, and an empty id or one
      that is pending already is a fault. */
  method OpenCallIds(calls: seq<CallId>, at: nat, pending: set<CallId>)
    returns (faults: seq<Fault>, nowPending: set<CallId>, added: nat)
    ensures pending == {} ==>
              (faults == [] <==> WellFormedCalls(calls)) &&
                (faults == [] ==> nowPending == IdSet(calls) && added == |nowPending| == |calls|)
    ensures pending != {} ==> faults != []
  {
    faults, nowPending, added := if pending != {} then [UnresolvedCalls(at)] else [], pending, 0;
    for j := 0 to |calls|
      invariant pending != {} ==> faults != []
      invariant pending == {} ==> (faults == [] <==> DistinctIds(calls, j))
      invariant pending == {} && faults == [] ==> nowPending == FirstIds(calls, j) && added == |nowPending| == j
    {
      if calls[j] == "" || calls[j] in nowPending {
        faults := faults + [InvalidCallId(at)];
      } else {
        nowPending, added := nowPending + {calls[j]}, added + 1;
      }
    }
  }

  /** The validator's native check. It reports nothing exactly when there are messages, the
      pairing scan accepts them, and a required user seed is present. Of accepted messages it has
      counted every call and every result, and there are as many of the one as of the other. */
  method CheckNative(ms: seq<Message>, seedRequired: bool)
    returns (faults: seq<Fault>, callCount: nat, resultCount: nat)
    ensures faults == [] <==> (ms != [] && Accepted(ms) &&
              (seedRequired ==>
                exists i, k :: 0 <= i < |ms| && 0 <= k < |ms[i].content|
                             && ms[i].role.User? && !IsSpace(ms[i].content[k])))
    ensures Accepted(ms) ==> callCount == CallsMade(ms, |ms|) == ResultsGiven(ms, |ms|) == resultCount
  {
    faults, callCount, resultCount := [], 0, 0;
    if ms == [] { return [NoMessages], 0, 0; }
    var pending: set<CallId> := {};
    for i := 0 to |ms|
      invariant faults == [] ==> ScanFrom(Open({}), ms, i) == Open(pending) && callCount == resultCount + |pending|
      invariant faults == [] ==> callCount == CallsMade(ms, i) && resultCount == ResultsGiven(ms, i)
      invariant faults != [] ==> ScanFrom(Open({}), ms, i) == Rejected
    {
      var m := ms[i];
      if MakesCalls(m) {
        var found, nowPending, count := OpenCallIds(m.calls, i, pending);
        faults, pending, callCount := faults + found, nowPending, callCount + count;
      } else if m.role.Tool? {
        if m.callId == "" || m.callId !in pending {
          faults := faults + [UnknownCallId(i)];
        } else {
          pending, resultCount := pending - {m.callId}, resultCount + 1;
        }
      } else if pending != {} && !m.role.Other? {
        faults := faults + [Interrupted(i)];
      }
    }
    if pending != {} { faults := faults + [Unanswered]; }
    if seedRequired && !HasUserSeed(ms) { faults := faults + [SeedMissing]; }
  }

  // ---------------------------------------------------------------- grouping

  /** A message with the tool results attached to it. `index` is the message's place in the
      history and identifies the group; `score` is set when the group is kept as raw evidence. */
  datatype Group = Group(index: nat, message: Message, results: seq<Message>, callIds: set<CallId>, score: int)

  function Members(g: Group): seq<Message> { [g.message] + g.results }

  function FlattenTo(gs: seq<Group>, n: nat): seq<Message>
    requires n <= |gs|
  {
    if n == 0 then [] else FlattenTo(gs, n - 1) + Members(gs[n - 1])
  }

  function Flatten(gs: seq<Group>): seq<Message> { FlattenTo(gs, |gs|) }

  /** The latest of the first `n` groups that issued the call, or -1. */
  function OwnerIn(gs: seq<Group>, n: nat, id: CallId): (j: int)
    requires n <= |gs|
    ensures -1 <= j < n
    ensures j >= 0 ==> id in gs[j].callIds
    ensures forall k :: j < k < n ==> id !in gs[k].callIds
  {
    if n == 0 then -1 else if id in gs[n - 1].callIds then n - 1 else OwnerIn(gs, n - 1, id)
  }

  function Owner(gs: seq<Group>, id: CallId): int { OwnerIn(gs, |gs|, id) }

  function NewGroup(index: nat, m: Message): Group
  {
    Group(index, m, [], if MakesCalls(m) then IdSet(m.calls) else {}, 0)
  }

  function Attach(gs: seq<Group>, j: nat, m: Message): seq<Group>
    requires j < |gs|
  {
    gs[j := gs[j].(results := gs[j].results + [m])]
  }

  function Place(gs: seq<Group>, index: nat, m: Message): seq<Group>
  {
    if m.role.Tool? && Owner(gs, m.callId) >= 0
    then Attach(gs, Owner(gs, m.callId), m)
    else gs + [NewGroup(index, m)]
  }

  function GroupsTo(ms: seq<Message>, n: nat): seq<Group>
    requires n <= |ms|
  {
    if n == 0 then [] else Place(GroupsTo(ms, n - 1), n - 1, ms[n - 1])
  }

  function GroupsOf(ms: seq<Message>): seq<Group> { GroupsTo(ms, |ms|) }

  /** The compiler's loop: it remembers the latest calling group and looks there first, then
      backwards through all groups. Both searches together find `Owner`. */
  method GroupNativeMessages(ms: seq<Message>) returns (groups: seq<Group>)
    ensures groups == GroupsOf(ms)
  {
    groups := [];
    var current := -1;
    for i := 0 to |ms|
      invariant groups == GroupsTo(ms, i)
      invariant -1 <= current < |groups|
      invariant forall k :: current < k < |groups| ==> groups[k].callIds == {}
    {
      var m := ms[i];
      if MakesCalls(m) {
        assert m.calls[0] in IdSet(m.calls);
        current := |groups|;
        groups := groups + [NewGroup(i, m)];
      } else if m.role.Tool? {
        var attached := false;
        ghost var start := groups;
        if current >= 0 && m.callId in groups[current].callIds {
          groups := Attach(groups, current, m);
          attached := true;
        }
        if !attached {
          var j := |groups|;
          while j > 0 && !attached
            invariant 0 <= j <= |groups|
            invariant !attached ==> groups == start && forall k :: j <= k < |groups| ==> m.callId !in groups[k].callIds
            invariant attached ==> Owner(start, m.callId) >= 0 && groups == Attach(start, Owner(start, m.callId), m)
          {
            j := j - 1;
            if m.callId in groups[j].callIds {
              groups := Attach(groups, j, m);
              attached := true;
            }
          }
        }
        if !attached { groups := groups + [NewGroup(i, m)]; }
      } else {
        groups := groups + [NewGroup(i, m)];
      }
    }
  }

  lemma {:induction false} FlattenConcat(a: seq<Group>, b: seq<Group>, n: nat)
    requires n <= |b|
    ensures FlattenTo(a + b, |a| + n) == Flatten(a) + FlattenTo(b, n)
  {
    if n == 0 {
      FlattenPrefix(a, b, |a|);
    } else {
      FlattenConcat(a, b, n - 1);
    }
  }

  lemma {:induction false} FlattenPrefix(a: seq<Group>, b: seq<Group>, n: nat)
    requires n <= |a|
    ensures FlattenTo(a + b, n) == FlattenTo(a, n)
  {
    if n > 0 { FlattenPrefix(a, b, n - 1); }
  }

  lemma {:induction false} FlattenSnoc(gs: seq<Group>, g: Group)
    ensures Flatten(gs + [g]) == Flatten(gs) + Members(g)
  {
    FlattenPrefix(gs, [g], |gs|);
  }

  lemma {:induction false} FlattenAround(a: seq<Group>, g: Group, b: seq<Group>)
    ensures Flatten(a + [g] + b) == Flatten(a) + Members(g) + Flatten(b)
  {
    FlattenSnoc(a, g);
    FlattenConcat(a + [g], b, |b|);
  }

  /** Attaching a result inserts it right behind the members of its group. */
  lemma {:induction false} FlattenAttach(
      gs: seq<Group>, j: nat, m: Message) returns (front: seq<Message>, back: seq<Message>)
    requires j < |gs|
    ensures Flatten(gs) == front + back
    ensures Flatten(Attach(gs, j, m)) == front + [m] + back
    ensures back == Flatten(gs[j + 1..])
  {
    var a, g, b := gs[..j], gs[j], gs[j + 1..];
    var h := g.(results := g.results + [m]);
    assert gs == a + [g] + b;
    assert Attach(gs, j, m) == a + [h] + b;
    FlattenAround(a, g, b);
    FlattenAround(a, h, b);
    assert Members(h) == Members(g) + [m];
    front, back := Flatten(a) + Members(g), Flatten(b);
  }

  lemma {:induction false} PlaceAddsOne(gs: seq<Group>, index: nat, m: Message)
    ensures multiset(Flatten(Place(gs, index, m))) == multiset(Flatten(gs)) + multiset{m}
  {
    if m.role.Tool? && Owner(gs, m.callId) >= 0 {
      var front, back := FlattenAttach(gs, Owner(gs, m.callId), m);
    } else {
      FlattenSnoc(gs, NewGroup(index, m));
    }
  }

  lemma {:induction false} GroupingCounts(ms: seq<Message>, n: nat)
    requires n <= |ms|
    ensures multiset(Flatten(GroupsTo(ms, n))) == multiset(ms[..n])
  {
    if n > 0 {
      GroupingCounts(ms, n - 1);
      MultisetPrefix(ms, n);
      PlaceAddsOne(GroupsTo(ms, n - 1), n - 1, ms[n - 1]);
    }
  }

  /** Grouping loses and duplicates nothing, whatever the messages are. */
  lemma {:induction false} GroupingIsPermutation(ms: seq<Message>)
    ensures multiset(Flatten(GroupsOf(ms))) == multiset(ms)
  {
    GroupingCounts(ms, |ms|);
    assert ms[..|ms|] == ms;
  }

  ghost predicate Increasing(gs: seq<Group>)
  {
    forall i, j :: 0 <= i < j < |gs| ==> gs[i].index < gs[j].index
  }

  lemma {:induction false} PlaceIndices(gs: seq<Group>, index: nat, m: Message)
    requires Increasing(gs) && forall k :: 0 <= k < |gs| ==> gs[k].index < index
    ensures Increasing(Place(gs, index, m))
    ensures forall k :: 0 <= k < |Place(gs, index, m)| ==> Place(gs, index, m)[k].index <= index
  {
  }

  lemma {:induction false} GroupIndices(ms: seq<Message>, n: nat)
    requires n <= |ms|
    ensures Increasing(GroupsTo(ms, n))
    ensures forall k :: 0 <= k < |GroupsTo(ms, n)| ==> GroupsTo(ms, n)[k].index < n
  {
    if n > 0 {
      GroupIndices(ms, n - 1);
      PlaceIndices(GroupsTo(ms, n - 1), n - 1, ms[n - 1]);
    }
  }

  // ------------------------------------------------- grouping a valid history

  function ResultIds(g: Group): set<CallId> { set r | r in g.results :: r.callId }

  /** Calls of the group that no attached result answers yet. */
  function OpenCalls(g: Group): set<CallId> { g.callIds - ResultIds(g) }

  /** Every attached result answers one of the group's own calls, and no call is answered twice. */
  ghost predicate Sound(g: Group)
  {
    && g.callIds == (if MakesCalls(g.message) then IdSet(g.message.calls) else {})
    && (MakesCalls(g.message) ==> WellFormedCalls(g.message.calls))
    && !g.message.role.Tool?
    && (forall r :: r in g.results ==> r.role.Tool? && r.callId in g.callIds)
    && (forall i, j :: 0 <= i < j < |g.results| ==> g.results[i].callId != g.results[j].callId)
  }

  /** A complete unit: a call message followed by exactly one result for each of its calls, or a
      message that neither calls nor answers. */
  ghost predicate Atomic(g: Group) { Sound(g) && OpenCalls(g) == {} }

  /** In an atomic group an assistant's message with calls is followed by exactly one result for each of its
      calls; any other message stands alone, and is no tool result. */
  lemma {:induction false} AtomicMeans(g: Group)
    requires Atomic(g)
    ensures if g.message.role.Assistant? && g.message.calls != [] then
              && (forall r :: r in g.results ==> r.role.Tool? && r.callId in g.message.calls)
              && (forall c :: c in g.message.calls ==> c != "" && exists r :: r in g.results && r.callId == c)
              && forall i, j :: 0 <= i < j < |g.results| ==> g.results[i].callId != g.results[j].callId
            else g.results == [] && !g.message.role.Tool?
  {
    if MakesCalls(g.message) {
      forall c | c in g.message.calls ensures c != "" && exists r :: r in g.results && r.callId == c {
        var i :| 0 <= i < |g.message.calls| && g.message.calls[i] == c;
        assert c in g.callIds && c !in OpenCalls(g);
      }
    } else {
      NoneAnswer(g.results, g.callIds);
    }
  }

  lemma {:induction false} NoneAnswer(results: seq<Message>, ids: set<CallId>)
    requires forall r :: r in results ==> r.callId in ids
    ensures ids == {} ==> results == []
  {
    if results != [] {
      var r := results[0];
      assert r in results && r.callId in ids;
    }
  }

  ghost predicate AllAtomic(gs: seq<Group>) { forall g :: g in gs ==> Atomic(g) }

  /** All groups are sound; only group `c`, the latest one that calls, can have unanswered calls. */
  ghost predicate InProgress(gs: seq<Group>, c: int, pending: set<CallId>)
  {
    && (forall g :: g in gs ==> Sound(g))
    && "" !in pending
    && -1 <= c < |gs|
    && (forall k :: 0 <= k < |gs| && k != c ==> OpenCalls(gs[k]) == {})
    && (forall k :: c < k < |gs| ==> gs[k].callIds == {})
    && pending == (if c >= 0 then OpenCalls(gs[c]) else {})
  }

  lemma {:induction false} AttachKeepsSound(g: Group, m: Message)
    requires Sound(g) && m.role.Tool? && m.callId in OpenCalls(g)
    ensures Sound(g.(results := g.results + [m]))
    ensures OpenCalls(g.(results := g.results + [m])) == OpenCalls(g) - {m.callId}
  {
    var h := g.(results := g.results + [m]);
    assert ResultIds(h) == ResultIds(g) + {m.callId} by {
      assert m in h.results;
      assert forall r :: r in g.results ==> r in h.results;
    }
    forall i | 0 <= i < |g.results| ensures g.results[i].callId != m.callId {
      assert g.results[i] in g.results;
    }
  }

  lemma {:induction false} AttachInProgress(gs: seq<Group>, c: int, pending: set<CallId>, m: Message)
    requires InProgress(gs, c, pending) && m.role.Tool? && m.callId in pending
    ensures Owner(gs, m.callId) == c
    ensures InProgress(Attach(gs, c, m), c, pending - {m.callId})
  {
    assert gs[c] in gs;
    AttachKeepsSound(gs[c], m);
    var after := Attach(gs, c, m);
    forall g | g in after ensures Sound(g) {
      var k :| 0 <= k < |after| && after[k] == g;
      assert k != c ==> gs[k] in gs;
    }
  }

  lemma {:induction false} AppendInProgress(gs: seq<Group>, c: int, pending: set<CallId>, index: nat, m: Message)
    requires InProgress(gs, c, pending) && !m.role.Tool?
    requires MakesCalls(m) ==> pending == {} && WellFormedCalls(m.calls)
    ensures InProgress(gs + [NewGroup(index, m)],
                       if MakesCalls(m) then |gs| else c, if MakesCalls(m) then IdSet(m.calls) else pending)
  {
    var g := NewGroup(index, m);
    assert ResultIds(g) == {};
    assert OpenCalls(g) == g.callIds;
    assert c >= 0 ==> (gs + [g])[c] == gs[c];
  }

  lemma {:induction false} GroupsInProgress(ms: seq<Message>, n: nat) returns (c: int)
    requires n <= |ms| && ScanFrom(Open({}), ms, n).Open?
    ensures InProgress(GroupsTo(ms, n), c, ScanFrom(Open({}), ms, n).pending)
  {
    if n == 0 {
      c := -1;
    } else {
      var gs, m, p := GroupsTo(ms, n - 1), ms[n - 1], ScanFrom(Open({}), ms, n - 1).pending;
      c := GroupsInProgress(ms, n - 1);
      if m.role.Tool? {
        AttachInProgress(gs, c, p, m);
      } else {
        AppendInProgress(gs, c, p, n - 1, m);
        c := if MakesCalls(m) then |gs| else c;
      }
    }
  }

  /** In a history the scan accepts, every group is atomic: no call is without its results and no
      result without its call. */
  lemma {:induction false} GroupsOfAcceptedAreAtomic(ms: seq<Message>)
    requires Accepted(ms)
    ensures AllAtomic(GroupsOf(ms))
  {
    var c := GroupsInProgress(ms, |ms|);
    var gs := GroupsOf(ms);
    forall g | g in gs ensures Atomic(g) {
      var k :| 0 <= k < |gs| && gs[k] == g;
    }
  }

  // -------------------------------------------- laying out atomic groups again

  lemma {:induction false} ScanConcat(v: Verdict, a: seq<Message>, b: seq<Message>, n: nat)
    requires n <= |b|
    ensures ScanFrom(v, a + b, |a| + n) == ScanFrom(ScanFrom(v, a, |a|), b, n)
  {
    if n == 0 { ScanPrefix(v, a, b, |a|); } else { ScanConcat(v, a, b, n - 1); }
  }

  lemma {:induction false} ScanPrefix(v: Verdict, a: seq<Message>, b: seq<Message>, n: nat)
    requires n <= |a|
    ensures ScanFrom(v, a + b, n) == ScanFrom(v, a, n)
  {
    if n > 0 { ScanPrefix(v, a, b, n - 1); }
  }

  function Answered(g: Group, n: nat): set<CallId>
    requires n <= |g.results|
  {
    set i | 0 <= i < n :: g.results[i].callId
  }

  lemma {:induction false} ScanResults(g: Group, n: nat)
    requires Sound(g) && n <= |g.results|
    ensures ScanFrom(Open(g.callIds), g.results, n) == Open(g.callIds - Answered(g, n))
  {
    if n > 0 {
      ScanResults(g, n - 1);
      var r := g.results[n - 1];
      assert r in g.results;
      assert Answered(g, n) == Answered(g, n - 1) + {r.callId};
      assert r.callId !in Answered(g, n - 1);
    }
  }

  lemma {:induction false} ScanAtomic(g: Group)
    requires Atomic(g)
    ensures Accepted(Members(g))
  {
    var start := [g.message];
    assert ScanFrom(Open({}), start, 1) == Open(g.callIds);
    ScanConcat(Open({}), start, g.results, |g.results|);
    ScanResults(g, |g.results|);
    assert Answered(g, |g.results|) == ResultIds(g);
  }

  /** Atomic groups may be laid out in any number and any order. */
  lemma {:induction false} AtomicGroupsAccepted(gs: seq<Group>, n: nat)
    requires AllAtomic(gs) && n <= |gs|
    ensures Accepted(FlattenTo(gs, n))
  {
    if n > 0 {
      AtomicGroupsAccepted(gs, n - 1);
      assert gs[n - 1] in gs;
      ScanAtomic(gs[n - 1]);
      AcceptedConcat(FlattenTo(gs, n - 1), Members(gs[n - 1]));
    }
  }

  lemma {:induction false} AcceptedConcat(a: seq<Message>, b: seq<Message>)
    requires Accepted(a) && Accepted(b)
    ensures Accepted(a + b)
  {
    ScanConcat(Open({}), a, b, |b|);
  }

  /** Message `k` is in a role the scan ignores, while calls are unanswered. */
  predicate Interrupts(ms: seq<Message>, k: nat)
    requires k < |ms|
  {
    var v := ScanFrom(Open({}), ms, k);
    ms[k].role.Other? && v.Open? && v.pending != {}
  }

  /** None of the first `n` messages does so. */
  predicate Uninterrupted(ms: seq<Message>, n: nat)
    requires n <= |ms|
  {
    forall k :: 0 <= k < n ==> !Interrupts(ms, k)
  }

  /** Unanswered calls are calls of the very last group. */
  ghost predicate LastOwns(gs: seq<Group>, pending: set<CallId>)
  {
    pending != {} ==> gs != [] && pending <= gs[|gs| - 1].callIds
  }

  lemma {:induction false} PlaceKeepsOrder(gs: seq<Group>, index: nat, pending: set<CallId>, m: Message)
    requires LastOwns(gs, pending) && ScanStep(Open(pending), m).Open? && (m.role.Other? ==> pending == {})
    ensures Flatten(Place(gs, index, m)) == Flatten(gs) + [m]
    ensures LastOwns(Place(gs, index, m), ScanStep(Open(pending), m).pending)
  {
    if m.role.Tool? {
      var c := |gs| - 1;
      assert Owner(gs, m.callId) == c;
      var front, back := FlattenAttach(gs, c, m);
      assert gs[c + 1..] == [];
    } else {
      FlattenSnoc(gs, NewGroup(index, m));
    }
  }

  lemma {:induction false} GroupingKeepsOrder(ms: seq<Message>, n: nat)
    requires n <= |ms| && ScanFrom(Open({}), ms, n).Open? && Uninterrupted(ms, n)
    ensures Flatten(GroupsTo(ms, n)) == ms[..n]
    ensures LastOwns(GroupsTo(ms, n), ScanFrom(Open({}), ms, n).pending)
  {
    if n > 0 {
      GroupingKeepsOrder(ms, n - 1);
      assert !Interrupts(ms, n - 1);
      PlaceKeepsOrder(GroupsTo(ms, n - 1), n - 1, ScanFrom(Open({}), ms, n - 1).pending, ms[n - 1]);
      assert ms[..n] == ms[..n - 1] + [ms[n - 1]];
    }
  }

  // ------------------------------------------ an interruption changes the order

  lemma {:induction false} FirstInterruption(ms: seq<Message>, n: nat) returns (k: nat)
    requires n <= |ms| && !Uninterrupted(ms, n)
    ensures k < n && Interrupts(ms, k) && Uninterrupted(ms, k)
  {
    if Uninterrupted(ms, n - 1) { k := n - 1; } else { k := FirstInterruption(ms, n - 1); }
  }

  lemma {:induction false} FlattenSame(a: seq<Group>, b: seq<Group>, n: nat)
    requires n <= |a| && n <= |b| && forall i :: 0 <= i < n ==> a[i] == b[i]
    ensures FlattenTo(a, n) == FlattenTo(b, n)
  {
    if n > 0 { FlattenSame(a, b, n - 1); }
  }

  /** The groups up to `c` end at place `k` while the calls are still open, or else a result of theirs
      has taken that place. */
  ghost predicate TakesPlace(gs: seq<Group>, c: int, pending: set<CallId>, k: nat)
  {
    && 0 <= c < |gs|
    && var end := FlattenTo(gs, c + 1);
       (|end| == k && pending != {}) || (|end| > k && end[k].role.Tool?)
  }

  lemma {:induction false} AttachTakesPlace(gs: seq<Group>, c: int, pending: set<CallId>, k: nat, m: Message)
    requires TakesPlace(gs, c, pending, k) && m.role.Tool?
    ensures TakesPlace(Attach(gs, c, m), c, pending - {m.callId}, k)
  {
    FlattenSame(gs, Attach(gs, c, m), c);
    assert Members(Attach(gs, c, m)[c]) == Members(gs[c]) + [m];
    assert FlattenTo(Attach(gs, c, m), c + 1) == FlattenTo(gs, c + 1) + [m];
  }

  lemma {:induction false} AppendTakesPlace(gs: seq<Group>, c: int, pending: set<CallId>, k: nat, g: Group)
    requires TakesPlace(gs, c, pending, k)
    ensures TakesPlace(gs + [g], c, pending, k)
    ensures pending == {} ==> forall p :: TakesPlace(gs + [g], |gs|, p, k)
  {
    FlattenSame(gs, gs + [g], c + 1);
    FlattenSnoc(gs, g);
    if pending == {} {
      FlattenGrows(gs, c + 1, |gs|);
      FlattenPrefix(gs, [g], |gs|);
    }
  }

  lemma {:induction false} FlattenGrows(gs: seq<Group>, i: nat, j: nat)
    requires i <= j <= |gs|
    ensures |FlattenTo(gs, i)| <= |FlattenTo(gs, j)| && FlattenTo(gs, j)[..|FlattenTo(gs, i)|] == FlattenTo(gs, i)
  {
    if i < j { FlattenGrows(gs, i, j - 1); }
  }

  /** After the first interruption, at `k`, the group of the open calls is followed: its next result goes
      in front of the interrupting message. */
  lemma {:induction false} AfterInterruption(ms: seq<Message>, n: nat, k: nat) returns (c: int)
    requires k < n <= |ms| && Interrupts(ms, k) && Uninterrupted(ms, k) && ScanFrom(Open({}), ms, n).Open?
    ensures InProgress(GroupsTo(ms, n), c, ScanFrom(Open({}), ms, n).pending)
    ensures TakesPlace(GroupsTo(ms, n), c, ScanFrom(Open({}), ms, n).pending, k)
  {
    var gs, m, p := GroupsTo(ms, n - 1), ms[n - 1], ScanFrom(Open({}), ms, n - 1).pending;
    if n == k + 1 {
      c := GroupsInProgress(ms, k);
      GroupingKeepsOrder(ms, k);
      assert c == |gs| - 1;
      AppendTakesPlace(gs, c, p, k, NewGroup(k, m));
      AppendInProgress(gs, c, p, k, m);
    } else {
      c := AfterInterruption(ms, n - 1, k);
      if m.role.Tool? {
        AttachInProgress(gs, c, p, m);
        AttachTakesPlace(gs, c, p, k, m);
      } else {
        AppendInProgress(gs, c, p, n - 1, m);
        AppendTakesPlace(gs, c, p, k, NewGroup(n - 1, m));
        c := if MakesCalls(m) then |gs| else c;
      }
    }
  }

  /** An accepted history with an interruption comes out of grouping in another order: a result takes
      the place of the first interrupting message. */
  lemma {:induction false} InterruptionMovesResult(ms: seq<Message>, k: nat)
    requires Accepted(ms) && k < |ms| && Interrupts(ms, k) && Uninterrupted(ms, k)
    ensures k < |Flatten(GroupsOf(ms))| && Flatten(GroupsOf(ms))[k].role.Tool? && Flatten(GroupsOf(ms)) != ms
  {
    var gs := GroupsOf(ms);
    var c := AfterInterruption(ms, |ms|, k);
    FlattenGrows(gs, c + 1, |gs|);
  }

  /** Grouping gives an accepted history back in its own order exactly when no message in a role the
      scan ignores stands between a call and its results. */
  lemma {:induction false} GroupingKeepsOrderIff(ms: seq<Message>)
    requires Accepted(ms)
    ensures Flatten(GroupsOf(ms)) == ms <==> Uninterrupted(ms, |ms|)
  {
    if Uninterrupted(ms, |ms|) {
      GroupingKeepsOrder(ms, |ms|);
      assert ms[..|ms|] == ms;
    } else {
      var k := FirstInterruption(ms, |ms|);
      InterruptionMovesResult(ms, k);
    }
  }

  lemma {:induction false} UninterruptedConcat(a: seq<Message>, b: seq<Message>)
    requires Accepted(a) && Uninterrupted(a, |a|) && Uninterrupted(b, |b|)
    ensures Uninterrupted(a + b, |a + b|)
  {
    forall k | 0 <= k < |a + b| ensures !Interrupts(a + b, k) {
      if k < |a| {
        ScanPrefix(Open({}), a, b, k);
        assert !Interrupts(a, k);
      } else {
        ScanConcat(Open({}), a, b, k - |a|);
        assert !Interrupts(b, k - |a|);
      }
    }
  }

  lemma {:induction false} AtomicGroupsUninterrupted(gs: seq<Group>, n: nat)
    requires AllAtomic(gs) && n <= |gs|
    ensures Uninterrupted(FlattenTo(gs, n), |FlattenTo(gs, n)|)
  {
    if n > 0 {
      AtomicGroupsUninterrupted(gs, n - 1);
      AtomicGroupsAccepted(gs, n - 1);
      var g := gs[n - 1];
      assert g in gs;
      forall k | 0 <= k < |Members(g)| ensures !Interrupts(Members(g), k) {
        assert k > 0 ==> Members(g)[k] in g.results;
      }
      UninterruptedConcat(FlattenTo(gs, n - 1), Members(g));
    }
  }

  /** The concatenations of atomic groups are exactly the accepted, uninterrupted histories; for any
      roles. In the four standard roles nothing interrupts, so these are the accepted histories. */
  lemma {:induction false} AcceptedIffAtomicGroups(ms: seq<Message>)
    ensures Accepted(ms) && Uninterrupted(ms, |ms|) <==> exists gs :: AllAtomic(gs) && Flatten(gs) == ms
    ensures (forall m :: m in ms ==> !m.role.Other?) ==> Uninterrupted(ms, |ms|)
  {
    if Accepted(ms) && Uninterrupted(ms, |ms|) {
      GroupsOfAcceptedAreAtomic(ms);
      GroupingKeepsOrderIff(ms);
    }
    forall gs | AllAtomic(gs) && Flatten(gs) == ms ensures Accepted(ms) && Uninterrupted(ms, |ms|) {
      AtomicGroupsAccepted(gs, |gs|);
      AtomicGroupsUninterrupted(gs, |gs|);
    }
    assert forall k :: 0 <= k < |ms| ==> ms[k] in ms;
  }

  /** There are such histories: a message in another role between a call and its result. */
  lemma {:induction false} OtherRoleIsReordered(call: Message, note: Message, result: Message)
    requires MakesCalls(call) && |call.calls| == 1 && call.calls[0] != "" && note.role.Other?
    requires result.role.Tool? && result.callId == call.calls[0]
    ensures Accepted([call, note, result]) && Flatten(GroupsOf([call, note, result])) != [call, note, result]
  {
    var ms := [call, note, result];
    var pending := IdSet(call.calls);
    assert pending == {result.callId};
    assert ScanFrom(Open({}), ms, 0) == Open({});
    assert ScanFrom(Open({}), ms, 1) == Open(pending);
    assert ScanFrom(Open({}), ms, 2) == Open(pending);
    assert Interrupts(ms, 1);
    GroupingKeepsOrderIff(ms);
  }
}
