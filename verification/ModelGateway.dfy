/** The gateway's call loop: retries on one client, then fallback to the next one in the chain. */
module ModelGateway {

  /** What a call to a client yields, with the classification of its error. */
  datatype Outcome = Success | Error(retryable: bool, eligible: bool)

  /** A chain of `clients` clients, the primary one first; `outcome` is the stream of results, by call number. */
  datatype Setting = Setting(clients: nat, maxRetries: int, outcome: nat -> Outcome)

  datatype Event = Retry(attempt: nat) | Fallback(chainIndex: nat)

  /** Whether a value was returned, the client of each call, and the events emitted. */
  datatype Trace = Trace(returned: bool, visits: seq<nat>, events: seq<Event>)

  function Allowed(s: Setting): nat { if s.maxRetries > 0 then s.maxRetries else 0 }

  predicate MayRetry(s: Setting, attempt: nat, call: nat)
  {
    s.outcome(call).Error? && s.outcome(call).retryable && attempt < s.maxRetries
  }

  predicate MayFallBack(s: Setting, client: nat, call: nat)
  {
    s.outcome(call).Error? && s.outcome(call).eligible && client + 1 < s.clients
  }

  function Prepend(client: nat, e: Event, t: Trace): Trace { Trace(t.returned, [client] + t.visits, [e] + t.events) }

  /** The calls from a given client, attempt and call number on. */
  function Run(s: Setting, client: nat, attempt: nat, call: nat): Trace
    requires client < s.clients && attempt <= Allowed(s)
    decreases s.clients - client, Allowed(s) - attempt
  {
    if s.outcome(call).Success? then Trace(true, [client], [])
    else if MayRetry(s, attempt, call) then Prepend(client, Retry(attempt + 1), Run(s, client, attempt + 1, call + 1))
    else if MayFallBack(s, client, call) then Prepend(client, Fallback(client + 1), Run(s, client + 1, 0, call + 1))
    else Trace(false, [client], [])
  }

  /** `t` is what is still to come after the given visits and events. */
  ghost predicate Continues(whole: Trace, visits: seq<nat>, events: seq<Event>, t: Trace)
  {
    whole == Trace(t.returned, visits + t.visits, events + t.events)
  }

  lemma {:induction false} ContinuesAfter(
      whole: Trace, visits: seq<nat>, events: seq<Event>, client: nat, e: Event, t: Trace)
    requires Continues(whole, visits, events, Prepend(client, e, t))
    ensures Continues(whole, visits + [client], events + [e], t)
  {
    assert visits + ([client] + t.visits) == visits + [client] + t.visits;
    assert events + ([e] + t.events) == events + [e] + t.events;
  }

  lemma {:induction false} ContinuesFromStart(whole: Trace)
    ensures Continues(whole, [], [], whole)
  {
    assert [] + whole.visits == whole.visits && [] + whole.events == whole.events;
  }

  class Gateway {
    var permits: nat
    var events: seq<Event>
    const hasSink: bool

    constructor (permits: nat, hasSink: bool)
      ensures this.permits == permits && this.events == [] && this.hasSink == hasSink
    {
      this.permits, this.events, this.hasSink := permits, [], hasSink;
    }

    method Emit(e: Event)
      modifies this`events
      ensures events == old(events) + if hasSink then [e] else []
    {
      if hasSink { events := events + [e]; }
    }

    /** The loop makes the calls and emits the events of `Run`; the permit taken before the first
        call is back after the last, whether a value was returned or an error raised. */
    method Invoke(s: Setting) returns (returned: bool, visits: seq<nat>)
      requires s.clients > 0 && permits > 0
      modifies this
      ensures var t := Run(s, 0, 0, 0);
        returned == t.returned && visits == t.visits && events == old(events) + if hasSink then t.events else []
      ensures permits == old(permits)
    {
      permits := permits - 1;
      var client, attempt := 0, 0;
      visits := [];
      ghost var whole, before, emitted := Run(s, 0, 0, 0), events, [];
      ContinuesFromStart(whole);
      while true
        invariant client < s.clients && attempt <= Allowed(s) && permits == old(permits) - 1
        invariant Continues(whole, visits, emitted, Run(s, client, attempt, |visits|))
        invariant events == before + if hasSink then emitted else []
        decreases s.clients - client, Allowed(s) - attempt
      {
        var call := |visits|;
        ghost var earlier := visits;
        visits := visits + [client];
        var result := s.outcome(call);
        if result.Success? { returned := true; break; }
        if !result.retryable && !result.eligible { returned := false; break; }
        if result.retryable && attempt < s.maxRetries {
          ContinuesAfter(whole, earlier, emitted, client, Retry(attempt + 1), Run(s, client, attempt + 1, call + 1));
          Emit(Retry(attempt + 1));
          emitted := emitted + [Retry(attempt + 1)];
          attempt := attempt + 1;
          continue;
        }
        if result.eligible && client + 1 < s.clients {
          ContinuesAfter(whole, earlier, emitted, client, Fallback(client + 1), Run(s, client + 1, 0, call + 1));
          Emit(Fallback(client + 1));
          emitted := emitted + [Fallback(client + 1)];
          client, attempt := client + 1, 0;
          continue;
        }
        returned := false;
        break;
      }
      permits := permits + 1;
    }
  }

  // --------------------------------------------------------------- properties

  /** How often `c` is among the first `n` visits. */
  function VisitsTo(visits: seq<nat>, n: nat, c: nat): nat
    requires n <= |visits|
  {
    if n == 0 then 0 else VisitsTo(visits, n - 1, c) + if visits[n - 1] == c then 1 else 0
  }

  lemma {:induction false} VisitsPrepend(x: nat, visits: seq<nat>, n: nat, c: nat)
    requires n <= |visits|
    ensures VisitsTo([x] + visits, n + 1, c) == VisitsTo(visits, n, c) + if x == c then 1 else 0
  {
    if n > 0 { VisitsPrepend(x, visits, n - 1, c); }
  }

  /** Clients are visited in chain order: one starts at the given client and never goes back or skips. */
  ghost predicate InChainOrder(visits: seq<nat>, client: nat)
  {
    visits != [] && visits[0] == client && forall i :: 0 <= i < |visits| - 1 ==>
      visits[i + 1] == visits[i] || visits[i + 1] == visits[i] + 1
  }

  lemma {:induction false} VisitsInChainOrder(s: Setting, client: nat, attempt: nat, call: nat)
    requires client < s.clients && attempt <= Allowed(s)
    ensures var v := Run(s, client, attempt, call).visits;
      InChainOrder(v, client) && forall i :: 0 <= i < |v| ==> client <= v[i] < s.clients
    decreases s.clients - client, Allowed(s) - attempt
  {
    if MayRetry(s, attempt, call) {
      VisitsInChainOrder(s, client, attempt + 1, call + 1);
    } else if MayFallBack(s, client, call) {
      VisitsInChainOrder(s, client + 1, 0, call + 1);
    }
  }

  /** No client is called more than once plus the allowed retries. */
  lemma {:induction false} CallsPerClient(s: Setting, client: nat, attempt: nat, call: nat, c: nat)
    requires client < s.clients && attempt <= Allowed(s)
    ensures var v := Run(s, client, attempt, call).visits;
      VisitsTo(v, |v|, c) <= if c < client then 0 else if c == client then Allowed(s) + 1 - attempt else Allowed(s) + 1
    decreases s.clients - client, Allowed(s) - attempt
  {
    if MayRetry(s, attempt, call) {
      CallsPerClient(s, client, attempt + 1, call + 1, c);
      var v := Run(s, client, attempt + 1, call + 1).visits;
      VisitsPrepend(client, v, |v|, c);
    } else if MayFallBack(s, client, call) {
      CallsPerClient(s, client + 1, 0, call + 1, c);
      var v := Run(s, client + 1, 0, call + 1).visits;
      VisitsPrepend(client, v, |v|, c);
    } else {
      assert VisitsTo([client], 0, c) == 0;
    }
  }

  /** The calls still possible from a client and attempt on. */
  function Remaining(s: Setting, client: nat, attempt: nat): int
    requires client < s.clients
  {
    Allowed(s) + 1 - attempt + (s.clients - client - 1) * (Allowed(s) + 1)
  }

  lemma {:induction false} RemainingDrops(s: Setting, client: nat)
    requires client + 1 < s.clients
    ensures Remaining(s, client, Allowed(s)) == 1 + Remaining(s, client + 1, 0)
  {
    assert (s.clients - client - 1) * (Allowed(s) + 1) ==
      (s.clients - client - 2) * (Allowed(s) + 1) + (Allowed(s) + 1);
  }

  /** There are at most clients * (retries + 1) calls, and exactly that many when every call fails
      with an error that may be retried and passed on. */
  lemma {:induction false} CallsBounded(s: Setting, client: nat, attempt: nat, call: nat)
    requires client < s.clients && attempt <= Allowed(s)
    ensures |Run(s, client, attempt, call).visits| <= Remaining(s, client, attempt)
    ensures (forall k :: k >= call ==> s.outcome(k) == Error(true, true)) ==>
              |Run(s, client, attempt, call).visits| == Remaining(s, client, attempt) &&
                !Run(s, client, attempt, call).returned
    decreases s.clients - client, Allowed(s) - attempt
  {
    if client + 1 < s.clients {
      RemainingDrops(s, client);
      StillPositive(s, client + 1);
    } else {
      assert (s.clients - client - 1) * (Allowed(s) + 1) == 0;
    }
    if MayRetry(s, attempt, call) {
      CallsBounded(s, client, attempt + 1, call + 1);
    } else if MayFallBack(s, client, call) {
      CallsBounded(s, client + 1, 0, call + 1);
    }
  }

  lemma {:induction false} StillPositive(s: Setting, client: nat)
    requires client < s.clients
    ensures Remaining(s, client, 0) >= 1
  {
    assert (s.clients - client - 1) * (Allowed(s) + 1) >= 0;
  }

  lemma {:induction false} TotalCallsBounded(s: Setting)
    requires s.clients > 0
    ensures |Run(s, 0, 0, 0).visits| <= s.clients * (Allowed(s) + 1)
  {
    CallsBounded(s, 0, 0, 0);
    assert s.clients * (Allowed(s) + 1) == (s.clients - 1) * (Allowed(s) + 1) + (Allowed(s) + 1);
  }

  /** The call behind event `i` failed, and the event is a retry just when the same client is called next. */
  ghost predicate Explained(s: Setting, t: Trace, call: nat, i: nat)
    requires |t.events| == |t.visits| - 1 && i < |t.events|
  {
    s.outcome(call + i).Error? && (t.events[i].Retry? <==> t.visits[i + 1] == t.visits[i])
  }

  ghost predicate Consistent(s: Setting, t: Trace, call: nat)
  {
    && |t.events| == |t.visits| - 1
    && (forall i :: 0 <= i < |t.events| ==> Explained(s, t, call, i))
    && (t.returned <==> s.outcome(call + |t.visits| - 1).Success?)
  }

  lemma {:induction false} ConsistentPrepend(s: Setting, client: nat, e: Event, u: Trace, call: nat)
    requires Consistent(s, u, call + 1) && s.outcome(call).Error? && (e.Retry? <==> u.visits[0] == client)
    ensures Consistent(s, Prepend(client, e, u), call)
  {
    var t := Prepend(client, e, u);
    forall i | 0 <= i < |t.events| ensures Explained(s, t, call, i) {
      if i > 0 {
        assert Explained(s, u, call + 1, i - 1);
        assert call + 1 + (i - 1) == call + i;
      }
    }
    assert call + 1 + |u.visits| - 1 == call + |t.visits| - 1;
  }

  /** Each call but the last failed and emitted one event, a retry when the same client was called
      again and a fallback otherwise; a value is returned exactly when the last call succeeded. */
  lemma {:induction false} EventsMatchCalls(s: Setting, client: nat, attempt: nat, call: nat)
    requires client < s.clients && attempt <= Allowed(s)
    ensures Consistent(s, Run(s, client, attempt, call), call)
    decreases s.clients - client, Allowed(s) - attempt
  {
    if MayRetry(s, attempt, call) {
      EventsMatchCalls(s, client, attempt + 1, call + 1);
      VisitsInChainOrder(s, client, attempt + 1, call + 1);
      ConsistentPrepend(s, client, Retry(attempt + 1), Run(s, client, attempt + 1, call + 1), call);
    } else if MayFallBack(s, client, call) {
      EventsMatchCalls(s, client + 1, 0, call + 1);
      VisitsInChainOrder(s, client + 1, 0, call + 1);
      ConsistentPrepend(s, client, Fallback(client + 1), Run(s, client + 1, 0, call + 1), call);
    }
  }

  /** An error is raised only by a call whose error could neither be retried nor passed on. */
  lemma {:induction false} RaisesOnlyWhenStuck(
      s: Setting, client: nat, attempt: nat, call: nat) returns (last: nat, tries: nat)
    requires client < s.clients && attempt <= Allowed(s) && !Run(s, client, attempt, call).returned
    ensures var t := Run(s, client, attempt, call);
      && last == t.visits[|t.visits| - 1]
      && var result := s.outcome(call + |t.visits| - 1);
         && result.Error?
         && (!result.retryable || tries >= s.maxRetries)
         && (!result.eligible || last + 1 >= s.clients)
    ensures var v := Run(s, client, attempt, call).visits;
      VisitsTo(v, |v|, last) + (if last == client then attempt else 0) == tries + 1
    decreases s.clients - client, Allowed(s) - attempt
  {
    if MayRetry(s, attempt, call) {
      last, tries := RaisesOnlyWhenStuck(s, client, attempt + 1, call + 1);
      var v := Run(s, client, attempt + 1, call + 1).visits;
      VisitsPrepend(client, v, |v|, last);
    } else if MayFallBack(s, client, call) {
      last, tries := RaisesOnlyWhenStuck(s, client + 1, 0, call + 1);
      var v := Run(s, client + 1, 0, call + 1).visits;
      VisitsInChainOrder(s, client + 1, 0, call + 1);
      VisitsPrepend(client, v, |v|, last);
    } else {
      last, tries := client, attempt;
      assert VisitsTo([client], 0, client) == 0;
    }
  }
}
