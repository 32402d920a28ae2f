/** The app-mode scheduler: turns waiting in a queue or an injection mailbox, shared by the thread
    that reads commands and the worker threads. Each step is one region under the scheduling lock,
    or one access outside it. */
module TurnScheduler {
  import opened Wrappers
  import opened Sorting

  datatype Policy = Append | Interrupt | Inject

  /** Where the reader decides to put a message: behind or before the waiting turns, into the
      mailbox of the live run, or straight into a new run. */
  datatype Lane = Back | Front | Mail | Direct

  datatype Turn = Turn(runId: string, message: string, lane: Lane)

  function LaneFor(policy: Policy, hasThread: bool, alive: bool): Lane
  {
    if !hasThread then Direct
    else if policy == Inject && alive then Mail
    else if policy == Interrupt then Front
    else Back
  }

  class Scheduler {
    var pending: seq<Turn>
    var mailbox: seq<Turn>
    var runId: string
    var hasThread: bool

    /** The shared part of the state of the step relation below. */
    ghost predicate Shows(s: State)
      reads this
    {
      s.pending == pending && s.mailbox == mailbox && s.runId == runId && s.hasThread == hasThread
    }

    constructor ()
      ensures Shows(Start)
      ensures pending == [] && mailbox == [] && runId == "" && !hasThread
    {
      pending, mailbox, runId, hasThread := [], [], "", false;
    }

    method Enqueue(t: Turn)
      requires !t.lane.Direct?
      modifies this`pending, this`mailbox
      ensures pending ==
        (match t.lane case Back => old(pending) + [t] case Front => [t] + old(pending) case _ => old(pending))
      ensures mailbox == if t.lane.Mail? then old(mailbox) + [t] else old(mailbox)
      ensures forall s :: old(Shows(s)) && s.plan == Some(t) ==> Shows(Step(s, Put))
    {
      if t.lane == Mail {
        mailbox := mailbox + [t];
      } else if t.lane == Front {
        pending := [t] + pending;
      } else {
        pending := pending + [t];
      }
    }

    method DrainInjections() returns (items: seq<Turn>)
      modifies this`mailbox
      ensures items == old(mailbox) && mailbox == []
      ensures forall s :: old(Shows(s)) ==> Shows(Step(s, Drain)) && Step(s, Drain).drained == s.drained + items
    {
      items, mailbox := mailbox, [];
    }

    /** A finished run hands undelivered injections back, in order, in front of the waiting turns,
        and takes the first of them all. */
    method FinishRun(id: string) returns (next: Option<Turn>)
      modifies this
      ensures old(runId) != id ==>
                runId == old(runId) && hasThread == old(hasThread) && pending == old(pending) && mailbox == old(mailbox)
      ensures old(runId) != id ==> next.None?
      ensures old(runId) == id ==>
                var all := old(mailbox) + old(pending);
                && mailbox == [] && runId == "" && !hasThread
                && next == (if all == [] then None else Some(all[0]))
                && pending == if all == [] then [] else all[1..]
      ensures forall s :: old(Shows(s)) ==>
                && Shows(Step(s, Finish(id)))
                && Step(s, Finish(id)).popped == s.popped + if next.Some? then [next.value] else []
    {
      if runId != id { return None; }
      while mailbox != []
        invariant mailbox + pending == old(mailbox) + old(pending)
        decreases |mailbox|
      {
        var last := |mailbox| - 1;
        assert mailbox == mailbox[..last] + [mailbox[last]];
        pending, mailbox := [mailbox[last]] + pending, mailbox[..last];
      }
      runId, hasThread, next := "", false, None;
      if pending != [] {
        next, pending := Some(pending[0]), pending[1..];
      }
    }

    method BeginRun(t: Turn)
      modifies this`runId, this`hasThread
      ensures runId == t.runId && hasThread
      ensures forall s, at :: old(Shows(s)) && 0 <= at < |s.popped| && s.popped[at] == t ==> Shows(Step(s, Begin(at)))
    {
      runId, hasThread := t.runId, true;
    }
  }

  // ------------------------------------------------------ interleaved steps

  /** The shared fields, what the reader has decided but not yet done, the turns taken out to begin,
      and the record of everything accepted, drained, dequeued and begun. */
  datatype State = State(
    pending: seq<Turn>, mailbox: seq<Turn>, runId: string, hasThread: bool, plan: Option<Turn>,
    accepted: seq<Turn>, drained: seq<Turn>, dequeued: seq<Turn>, popped: seq<Turn>, begun: seq<Turn>)

  const Start := State([], [], "", false, None, [], [], [], [], [])

  datatype Event =
    | Look(runId: string, message: string, policy: Policy, alive: bool)  // the reader inspects the thread
    | Put                                                                // and then acts on what it saw
    | Drain | Finish(id: string) | Begin(at: nat)

  predicate Enabled(s: State, e: Event)
  {
    match e
    case Look(_, _, _, _) => s.plan.None?
    case Put => s.plan.Some?
    case Begin(at) => at < |s.popped|
    case _ => true
  }

  function Step(s: State, e: Event): State
    requires Enabled(s, e)
  {
    match e
    case Look(id, message, policy, alive) => s.(plan := Some(Turn(id, message, LaneFor(policy, s.hasThread, alive))))
    case Put =>
      var t := s.plan.value;
      var a := s.(plan := None, accepted := s.accepted + [t]);
      (match t.lane
       case Back => a.(pending := s.pending + [t])
       case Front => a.(pending := [t] + s.pending)
       case Mail => a.(mailbox := s.mailbox + [t])
       case Direct => a.(popped := s.popped + [t]))
    case Drain => s.(drained := s.drained + s.mailbox, mailbox := [])
    case Finish(id) =>
      if s.runId != id then s
      else
        var all := s.mailbox + s.pending;
        var a := s.(mailbox := [], runId := "", hasThread := false);
        if all == [] then a.(pending := [])
        else a.(pending := all[1..], dequeued := s.dequeued + [all[0]], popped := s.popped + [all[0]])
    case Begin(at) =>
      var t := s.popped[at];
      s.(runId := t.runId, hasThread := true, popped := Without(s.popped, at), begun := s.begun + [t])
  }

  /** The state after the first `n` events, if they can happen in this order. */
  function After(run: seq<Event>, n: nat): Option<State>
    requires n <= |run|
  {
    if n == 0 then Some(Start)
    else
      var s := After(run, n - 1);
      if s.Some? && Enabled(s.value, run[n - 1]) then Some(Step(s.value, run[n - 1])) else None
  }

  /** Where the reader puts a message: without a run straight into a new one; injected into a live run, behind
      the other injections; as an interrupt, in front of all that waits; and otherwise behind it. */
  lemma {:induction false} PlacedByPolicy(s: State, id: string, message: string, policy: Policy, alive: bool)
    requires s.plan.None?
    ensures var t := Step(Step(s, Look(id, message, policy, alive)), Put);
      && (exists x: Turn :: x.runId == id && x.message == message && t.accepted == s.accepted + [x]
           && t.popped == (if s.hasThread then s.popped else s.popped + [x])
           && t.mailbox == (if s.hasThread && policy == Inject && alive then s.mailbox + [x] else s.mailbox)
           && t.pending == if !s.hasThread || (policy == Inject && alive) then s.pending
                           else if policy == Interrupt then [x] + s.pending
                           else s.pending + [x])
      && t.drained == s.drained && t.begun == s.begun && t.runId == s.runId && t.hasThread == s.hasThread
  {
    var x := Step(s, Look(id, message, policy, alive)).plan.value;
    var t := Step(Step(s, Look(id, message, policy, alive)), Put);
    assert x.runId == id && x.message == message && t.accepted == s.accepted + [x];
  }

  // ------------------------------------------------------------ conservation

  function Places(s: State, t: Turn): nat
  {
    All(s.pending, t) + All(s.mailbox, t) + All(s.drained, t) + All(s.popped, t) + All(s.begun, t)
  }

  function All(s: seq<Turn>, t: Turn): nat { Copies(s, |s|, t) }

  lemma {:induction false} AllConcat(a: seq<Turn>, b: seq<Turn>, t: Turn)
    ensures All(a + b, t) == All(a, t) + All(b, t)
  {
    CopiesConcat(a, b, |b|, t);
  }

  lemma {:induction false} AllOne(x: Turn, t: Turn)
    ensures All([x], t) == if x == t then 1 else 0
  {
    assert Copies([x], 0, t) == 0;
  }

  /** A step that accepts a message puts it in one place; every other step moves messages, or leaves them. */
  lemma {:induction false} StepConserves(s: State, e: Event, t: Turn)
    requires Enabled(s, e) && Places(s, t) == All(s.accepted, t)
    ensures Places(Step(s, e), t) == All(Step(s, e).accepted, t)
  {
    match e {
      case Put =>
        PutConserves(s, t);
      case Drain =>
        AllConcat(s.drained, s.mailbox, t);
      case Finish(id) =>
        FinishConserves(s, id, t);
      case Begin(at) =>
        BeginConserves(s, at, t);
      case Look(_, _, _, _) =>
    }
  }

  lemma {:induction false} OneMore(s: seq<Turn>, x: Turn, t: Turn)
    ensures All(s + [x], t) == All(s, t) + if x == t then 1 else 0
    ensures All([x] + s, t) == All(s, t) + if x == t then 1 else 0
  {
    AllOne(x, t);
    AllConcat(s, [x], t);
    AllConcat([x], s, t);
  }

  lemma {:induction false} PutConserves(s: State, t: Turn)
    requires s.plan.Some?
    ensures Places(Step(s, Put), t) - Places(s, t) == All(Step(s, Put).accepted, t) - All(s.accepted, t)
  {
    var x := s.plan.value;
    OneMore(s.accepted, x, t);
    if x.lane.Mail? { OneMore(s.mailbox, x, t); }
    else if x.lane.Direct? { OneMore(s.popped, x, t); }
    else { OneMore(s.pending, x, t); }
  }

  lemma {:induction false} FinishConserves(s: State, id: string, t: Turn)
    ensures Places(Step(s, Finish(id)), t) == Places(s, t)
  {
    var all := s.mailbox + s.pending;
    AllConcat(s.mailbox, s.pending, t);
    if all != [] {
      AllOne(all[0], t);
      assert all == [all[0]] + all[1..];
      AllConcat([all[0]], all[1..], t);
      AllConcat(s.popped, [all[0]], t);
    }
  }

  lemma {:induction false} BeginConserves(s: State, at: nat, t: Turn)
    requires at < |s.popped|
    ensures Places(Step(s, Begin(at)), t) == Places(s, t)
  {
    var x, a, b := s.popped[at], s.popped[..at], s.popped[at + 1..];
    AllOne(x, t);
    assert s.popped == a + [x] + b;
    AllConcat(a + [x], b, t);
    AllConcat(a, [x], t);
    AllConcat(a, b, t);
    AllConcat(s.begun, [x], t);
  }

  /** Under every interleaving each accepted message is in exactly one place, as often as it was accepted. */
  lemma {:induction false} EveryMessageHasOnePlace(run: seq<Event>, n: nat, t: Turn)
    requires n <= |run| && After(run, n).Some?
    ensures Places(After(run, n).value, t) == All(After(run, n).value.accepted, t)
  {
    if n > 0 {
      EveryMessageHasOnePlace(run, n - 1, t);
      StepConserves(After(run, n - 1).value, run[n - 1], t);
    }
  }

  // ------------------------------------------------------------- queue order

  /** Those of the first `n` that were queued behind the others. */
  function Queued(s: seq<Turn>, n: nat): seq<Turn>
    requires n <= |s|
  {
    if n == 0 then [] else Queued(s, n - 1) + if s[n - 1].lane == Back then [s[n - 1]] else []
  }

  lemma {:induction false} QueuedConcat(a: seq<Turn>, b: seq<Turn>, n: nat)
    requires n <= |b|
    ensures Queued(a + b, |a| + n) == Queued(a, |a|) + Queued(b, n)
  {
    if n == 0 { QueuedPrefix(a, b, |a|); } else { QueuedConcat(a, b, n - 1); }
  }

  lemma {:induction false} QueuedPrefix(a: seq<Turn>, b: seq<Turn>, n: nat)
    requires n <= |a|
    ensures Queued(a + b, n) == Queued(a, n)
  {
    if n > 0 { QueuedPrefix(a, b, n - 1); }
  }

  function Queue(s: seq<Turn>): seq<Turn> { Queued(s, |s|) }

  lemma {:induction false} QueueJoin(a: seq<Turn>, b: seq<Turn>)
    ensures Queue(a + b) == Queue(a) + Queue(b)
  {
    QueuedConcat(a, b, |b|);
  }

  lemma {:induction false} QueueOne(x: Turn)
    ensures Queue([x]) == if x.lane == Back then [x] else []
  {
    assert Queued([x], 0) == [];
  }

  lemma {:induction false} QueuedNone(s: seq<Turn>, n: nat)
    requires n <= |s| && forall i :: 0 <= i < |s| ==> s[i].lane != Back
    ensures Queued(s, n) == []
  {
    if n > 0 { QueuedNone(s, n - 1); }
  }

  /** Only mail is in the mailbox, and urgent turns (interrupts and returned injections) come before queued ones. */
  ghost predicate UrgentFirst(mailbox: seq<Turn>, pending: seq<Turn>)
  {
    && (forall i :: 0 <= i < |mailbox| ==> mailbox[i].lane == Mail)
    && (forall i, j :: 0 <= i < j < |pending| && pending[i].lane == Back ==> pending[j].lane == Back)
  }

  /** Queued turns leave in the order in which they were accepted. */
  ghost predicate ArrivalOrder(accepted: seq<Turn>, dequeued: seq<Turn>, pending: seq<Turn>)
  {
    Queue(accepted) == Queue(dequeued) + Queue(pending)
  }

  lemma {:induction false} AcceptKeepsArrival(accepted: seq<Turn>, dequeued: seq<Turn>, pending: seq<Turn>, x: Turn)
    requires ArrivalOrder(accepted, dequeued, pending)
    ensures x.lane == Back ==> ArrivalOrder(accepted + [x], dequeued, pending + [x])
    ensures x.lane != Back ==>
      ArrivalOrder(accepted + [x], dequeued, pending) && ArrivalOrder(accepted + [x], dequeued, [x] + pending)
  {
    QueueOne(x);
    QueueJoin(accepted, [x]);
    QueueJoin(pending, [x]);
    QueueJoin([x], pending);
  }

  lemma {:induction false} DequeueKeepsArrival(
      accepted: seq<Turn>, dequeued: seq<Turn>, mailbox: seq<Turn>, pending: seq<Turn>)
    requires ArrivalOrder(accepted, dequeued, pending) && forall i :: 0 <= i < |mailbox| ==> mailbox[i].lane == Mail
    ensures var all := mailbox + pending;
      ArrivalOrder(accepted, dequeued, all) && (all != [] ==> ArrivalOrder(accepted, dequeued + [all[0]], all[1..]))
  {
    var all := mailbox + pending;
    QueuedNone(mailbox, |mailbox|);
    QueueJoin(mailbox, pending);
    if all != [] {
      assert all == [all[0]] + all[1..];
      QueueJoin([all[0]], all[1..]);
      QueueJoin(dequeued, [all[0]]);
    }
  }

  lemma {:induction false} StepKeepsUrgentFirst(s: State, e: Event)
    requires Enabled(s, e) && UrgentFirst(s.mailbox, s.pending)
    ensures UrgentFirst(Step(s, e).mailbox, Step(s, e).pending)
  {
    if e.Finish? {
      var all := s.mailbox + s.pending;
      assert forall i :: 0 <= i < |all| && all[i].lane == Back ==> i >= |s.mailbox|;
      assert UrgentFirst([], all);
    }
  }

  /** Under every interleaving queued turns are dequeued in arrival order, and interrupts and
      returned injections before any of them. */
  lemma {:induction false} QueueKeepsArrivalOrder(run: seq<Event>, n: nat)
    requires n <= |run| && After(run, n).Some?
    ensures var s := After(run, n).value;
      ArrivalOrder(s.accepted, s.dequeued, s.pending) && UrgentFirst(s.mailbox, s.pending)
  {
    if n > 0 {
      QueueKeepsArrivalOrder(run, n - 1);
      var r, e := After(run, n - 1).value, run[n - 1];
      StepKeepsUrgentFirst(r, e);
      if e.Put? { AcceptKeepsArrival(r.accepted, r.dequeued, r.pending, r.plan.value); }
      if e.Finish? { DequeueKeepsArrival(r.accepted, r.dequeued, r.mailbox, r.pending); }
    }
  }

  // ------------------------------------------------------------ lost wake-up

  /** Whenever something waits there is a run, or one about to begin, whose end will take it up. */
  predicate Served(s: State) { s.pending != [] || s.mailbox != [] ==> s.hasThread || s.popped != [] }

  /** A step leaves waiting turns unserved exactly when it queues a message for a run that has ended
      since the reader looked, with no other about to begin. */
  lemma {:induction false} ServedUnless(s: State, e: Event)
    requires Enabled(s, e) && Served(s)
    ensures Served(Step(s, e)) <==> !Strands(s, e)
  {
  }

  predicate Strands(s: State, e: Event)
    requires Enabled(s, e)
  {
    e.Put? && !s.plan.value.lane.Direct? && !s.hasThread && s.popped == []
  }

  predicate ServedAt(run: seq<Event>, n: nat)
    requires n <= |run|
  {
    After(run, n).Some? && Served(After(run, n).value)
  }

  predicate StrandsAt(run: seq<Event>, n: nat)
    requires n < |run|
  {
    After(run, n).Some? && Enabled(After(run, n).value, run[n]) && Strands(After(run, n).value, run[n])
  }

  /** Waiting turns are served after each of the first `n` steps. */
  predicate ServedTo(run: seq<Event>, n: nat)
    requires n <= |run|
  {
    ServedAt(run, n) && (n > 0 ==> ServedTo(run, n - 1))
  }

  predicate StrandsWithin(run: seq<Event>, n: nat)
    requires n <= |run|
  {
    n > 0 && (StrandsAt(run, n - 1) || StrandsWithin(run, n - 1))
  }

  lemma {:induction false} ServedNext(run: seq<Event>, n: nat)
    requires n < |run| && After(run, n + 1).Some? && ServedAt(run, n)
    ensures ServedAt(run, n + 1) <==> !StrandsAt(run, n)
  {
    ServedUnless(After(run, n).value, run[n]);
  }

  /** Over every interleaving, waiting turns are served at every moment exactly when no step of that
      kind occurs. */
  lemma {:induction false} ServedThroughoutIff(run: seq<Event>, n: nat)
    requires n <= |run| && After(run, n).Some?
    ensures ServedTo(run, n) <==> !StrandsWithin(run, n)
  {
    if n > 0 {
      ServedThroughoutIff(run, n - 1);
      if ServedTo(run, n - 1) { ServedNext(run, n - 1); }
    }
  }

  lemma {:induction false} Advance(run: seq<Event>, n: nat, s: State, e: Event, t: State)
    requires n < |run| && run[n] == e && After(run, n) == Some(s) && Enabled(s, e) && Step(s, e) == t
    ensures After(run, n + 1) == Some(t)
  {
  }

  /** The first message starts a run, the reader looks at it for the second, and the run ends. */
  lemma {:induction false} LookedTooEarly(run: seq<Event>, t: Turn, u: Turn)
    requires t == Turn("a", "m", Direct) && u == Turn("b", "n", Back)
    requires |run| >= 5
    requires run[..5] == [Look("a", "m", Append, true), Put, Begin(0), Look("b", "n", Append, true), Finish("a")]
    ensures After(run, 5) == Some(Start.(plan := Some(u), accepted := [t], begun := [t]))
  {
    var s1, s2 := Start.(plan := Some(t)), Start.(accepted := [t], popped := [t]);
    assert forall k :: 0 <= k < 5 ==> run[k] == run[..5][k];
    assert After(run, 0) == Some(Start);
    Advance(run, 0, Start, Look("a", "m", Append, true), s1);
    assert [] + [t] == [t];
    Advance(run, 1, s1, Put, s2);
    var s3 := Start.(accepted := [t], begun := [t], runId := "a", hasThread := true);
    assert Without([t], 0) == [];
    Advance(run, 2, s2, Begin(0), s3);
    Advance(run, 3, s3, Look("b", "n", Append, true), s3.(plan := Some(u)));
    Advance(run, 4, s3.(plan := Some(u)), Finish("a"), Start.(plan := Some(u), accepted := [t], begun := [t]));
  }

  /** A turn waits although nothing runs, is about to begin or is about to be accepted. */
  predicate EndsStranded(run: seq<Event>)
  {
    var s := After(run, |run|);
    s.Some? && s.value.pending != [] && !s.value.hasThread && s.value.popped == [] && s.value.plan.None?
  }

  /** And such a step can be reached. */
  lemma {:induction false} WakeUpCanBeLost()
    ensures exists run :: EndsStranded(run)
  {
    var before := [Look("a", "m", Append, true), Put, Begin(0), Look("b", "n", Append, true), Finish("a")];
    StrandedAtEnd(before + [Put], before);
  }

  lemma {:induction false} StrandedAtEnd(run: seq<Event>, before: seq<Event>)
    requires before == [Look("a", "m", Append, true), Put, Begin(0), Look("b", "n", Append, true), Finish("a")]
    requires run == before + [Put]
    ensures EndsStranded(run)
  {
    var t, u := Turn("a", "m", Direct), Turn("b", "n", Back);
    assert run[..5] == before;
    LookedTooEarly(run, t, u);
    var s := Start.(plan := Some(u), accepted := [t], begun := [t]);
    Advance(run, 5, s, Put, s.(plan := None, accepted := [t] + [u], pending := [] + [u]));
  }
}
