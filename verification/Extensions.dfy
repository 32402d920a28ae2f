/** Activation of extensions: a depth-first walk over dependencies that marks extensions active,
    refuses cycles and capabilities that were not granted, and stops at the first failure. */
module Extensions {

  /** Case-folded, as the registry keys its entries. */
  type Name = string

  datatype Manifest = Manifest(name: Name, capabilities: set<string>, dependencies: seq<Name>)

  /** What does not change during an activation: the manifests, the granted capabilities, and the
      extensions whose factory and hooks succeed with a value. */
  datatype Setting = Setting(manifests: map<Name, Manifest>, granted: set<string>, works: set<Name>)

  datatype Outcome = Done | Missing(name: Name) | Cycle(name: Name) | Denied(name: Name) | Failed(name: Name)

  /** The outcome and the extensions activated on the way, in order. */
  datatype Run = Run(outcome: Outcome, log: seq<Name>)

  function Elems(s: seq<Name>): set<Name> { set x | x in s }

  function Activate(s: Setting, active: set<Name>, name: Name, stack: seq<Name>): Run
    decreases s.manifests.Keys - Elems(stack), 0, 0
  {
    if name !in s.manifests then Run(Missing(name), [])
    else if name in active then Run(Done, [])
    else if name in stack then Run(Cycle(name), [])
    else if !(s.manifests[name].capabilities <= s.granted) then Run(Denied(name), [])
    else
      assert name in s.manifests.Keys - Elems(stack) && name in Elems(stack + [name]);
      var deps := s.manifests[name].dependencies;
      var r := ActivateAll(s, active, deps, |deps|, stack + [name]);
      if r.outcome != Done then r
      else if name !in s.works then Run(Failed(name), r.log)
      else Run(Done, r.log + [name])
  }

  /** The first `n` dependencies, each with what the ones before it activated. */
  function ActivateAll(s: Setting, active: set<Name>, deps: seq<Name>, n: nat, stack: seq<Name>): Run
    requires n <= |deps|
    decreases s.manifests.Keys - Elems(stack), 1, n
  {
    if n == 0 then Run(Done, [])
    else
      var r := ActivateAll(s, active, deps, n - 1, stack);
      if r.outcome != Done then r
      else
        var q := Activate(s, active + Elems(r.log), deps[n - 1], stack);
        Run(q.outcome, r.log + q.log)
  }

  datatype Entry = Entry(manifest: Manifest, active: bool, failed: bool)

  class ExtensionRegistry {
    var entries: map<Name, Entry>

    ghost predicate Valid()
      reads this
    {
      forall k :: k in entries ==> entries[k].manifest.name == k
    }

    ghost function Manifests(): map<Name, Manifest>
      reads this
    {
      map k | k in entries :: entries[k].manifest
    }

    ghost function Active(): set<Name>
      reads this
    {
      set k | k in entries && entries[k].active
    }

    ghost function SettingFor(granted: set<string>, works: set<Name>): Setting
      reads this
    {
      Setting(Manifests(), granted, works)
    }

    constructor (manifests: map<Name, Manifest>)
      requires forall k :: k in manifests ==> manifests[k].name == k
      ensures Valid() && Manifests() == manifests && Active() == {}
    {
      entries := map k | k in manifests :: Entry(manifests[k], false, false);
    }

    /** The recursive walk. It ends as the function above says and leaves active what was active
        before together with what the walk activated. */
    method ActivateExtension(
        name: Name, granted: set<string>, works: set<Name>, stack: seq<Name>) returns (outcome: Outcome)
      requires Valid()
      modifies this
      ensures Valid() && Manifests() == old(Manifests())
      ensures var r := Activate(old(SettingFor(granted, works)), old(Active()), name, stack);
        outcome == r.outcome && Active() == old(Active()) + Elems(r.log)
      ensures outcome.Failed? ==> outcome.name in entries && entries[outcome.name].failed
      decreases entries.Keys - Elems(stack), 0
    {
      if name !in entries { return Missing(name); }
      if entries[name].active { return Done; }
      var normalized := entries[name].manifest.name;
      if normalized in stack { return Cycle(normalized); }
      if !(entries[name].manifest.capabilities <= granted) { return Denied(normalized); }
      assert name in entries.Keys - Elems(stack) && name in Elems(stack + [name]);
      outcome := ActivateDependencies(entries[name].manifest.dependencies, granted, works, stack + [normalized]);
      if outcome != Done { return; }
      ghost var s, active := old(SettingFor(granted, works)), old(Active());
      ghost var deps := s.manifests[name].dependencies;
      ghost var r := ActivateAll(s, active, deps, |deps|, stack + [name]);
      if name !in works {
        Mark(name, entries[name].active, true);
        assert Activate(s, active, name, stack) == Run(Failed(name), r.log);
        return Failed(name);
      }
      Mark(name, true, false);
      assert Activate(s, active, name, stack) == Run(Done, r.log + [name]);
    }

    method Mark(name: Name, active: bool, failed: bool)
      requires Valid() && name in entries
      modifies this
      ensures Valid() && Manifests() == old(Manifests()) && entries.Keys == old(entries.Keys)
      ensures Active() == if active then old(Active()) + {name} else old(Active()) - {name}
      ensures entries[name].failed == failed
    {
      entries := entries[name := entries[name].(active := active, failed := failed)];
    }

    method ActivateDependencies(
        deps: seq<Name>, granted: set<string>, works: set<Name>, stack: seq<Name>) returns (outcome: Outcome)
      requires Valid()
      modifies this
      ensures Valid() && Manifests() == old(Manifests())
      ensures var r := ActivateAll(old(SettingFor(granted, works)), old(Active()), deps, |deps|, stack);
        outcome == r.outcome && Active() == old(Active()) + Elems(r.log)
      ensures outcome.Failed? ==> outcome.name in entries && entries[outcome.name].failed
      decreases entries.Keys - Elems(stack), 1
    {
      outcome := Done;
      ghost var s, active := SettingFor(granted, works), Active();
      for n := 0 to |deps|
        invariant Valid() && Manifests() == s.manifests && entries.Keys == old(entries.Keys)
        invariant outcome == Done == ActivateAll(s, active, deps, n, stack).outcome
        invariant Active() == active + Elems(ActivateAll(s, active, deps, n, stack).log)
      {
        outcome := ActivateExtension(deps[n], granted, works, stack);
        assert s.manifests.Keys == entries.Keys;
        if outcome != Done {
          FailureStays(s, active, deps, n + 1, |deps|, stack);
          return;
        }
      }
    }
  }

  lemma {:induction false} FailureStays(
      s: Setting, active: set<Name>, deps: seq<Name>, m: nat, n: nat, stack: seq<Name>)
    requires m <= n <= |deps| && ActivateAll(s, active, deps, m, stack).outcome != Done
    ensures ActivateAll(s, active, deps, n, stack) == ActivateAll(s, active, deps, m, stack)
  {
    if m < n { FailureStays(s, active, deps, m, n - 1, stack); }
  }

  // -------------------------------------------------------- the activation log

  ghost predicate Eligible(s: Setting, name: Name)
  {
    name in s.manifests && s.manifests[name].capabilities <= s.granted && name in s.works
  }

  /** A possible order of activation: every entry is new and eligible, and its dependencies are active by then. */
  ghost predicate ValidLog(s: Setting, active: set<Name>, log: seq<Name>)
  {
    forall i :: 0 <= i < |log| ==>
      && Eligible(s, log[i]) && log[i] !in active && log[i] !in log[..i]
      && forall d :: d in s.manifests[log[i]].dependencies ==> d in active || d in log[..i]
  }

  lemma {:induction false} ValidLogConcat(s: Setting, active: set<Name>, a: seq<Name>, b: seq<Name>)
    requires ValidLog(s, active, a) && ValidLog(s, active + Elems(a), b)
    ensures ValidLog(s, active, a + b)
  {
    var log := a + b;
    forall i | 0 <= i < |log|
      ensures Eligible(s, log[i]) && log[i] !in active && log[i] !in log[..i]
      ensures forall d :: d in s.manifests[log[i]].dependencies ==> d in active || d in log[..i]
    {
      if i < |a| {
        assert log[..i] == a[..i] && log[i] == a[i];
      } else {
        assert log[..i] == a + b[..i - |a|] && log[i] == b[i - |a|];
      }
    }
  }

  lemma {:induction false} ValidLogSnoc(s: Setting, active: set<Name>, log: seq<Name>, name: Name)
    requires ValidLog(s, active, log) && Eligible(s, name) && name !in active && name !in log
    requires forall d :: d in s.manifests[name].dependencies ==> d in active || d in log
    ensures ValidLog(s, active, log + [name])
  {
    assert [name][..0] == [];
    ValidLogConcat(s, active, log, [name]);
  }

  /** Whatever the outcome, the walk's log is a valid order and leaves the stack alone; on success
      the name is active afterwards. */
  lemma {:induction false} ActivateIsValid(s: Setting, active: set<Name>, name: Name, stack: seq<Name>)
    ensures var r := Activate(s, active, name, stack);
      && ValidLog(s, active, r.log)
      && (forall x :: x in r.log ==> x !in stack)
      && (r.outcome == Done ==> name in active || name in r.log)
    decreases s.manifests.Keys - Elems(stack), 0, 0
  {
    if name in s.manifests && name !in active && name !in stack && s.manifests[name].capabilities <= s.granted {
      assert name in s.manifests.Keys - Elems(stack) && name in Elems(stack + [name]);
      var deps := s.manifests[name].dependencies;
      ActivateAllIsValid(s, active, deps, |deps|, stack + [name]);
      var r := ActivateAll(s, active, deps, |deps|, stack + [name]);
      forall x | x in r.log ensures x !in stack && x != name {
        assert x !in stack + [name];
      }
      if r.outcome == Done && name in s.works { ValidLogSnoc(s, active, r.log, name); }
    }
  }

  lemma {:induction false} ActivateAllIsValid(s: Setting, active: set<Name>, deps: seq<Name>, n: nat, stack: seq<Name>)
    requires n <= |deps|
    ensures var r := ActivateAll(s, active, deps, n, stack);
      && ValidLog(s, active, r.log)
      && (forall x :: x in r.log ==> x !in stack)
      && (r.outcome == Done ==> forall i :: 0 <= i < n ==> deps[i] in active || deps[i] in r.log)
    decreases s.manifests.Keys - Elems(stack), 1, n
  {
    if n > 0 {
      ActivateAllIsValid(s, active, deps, n - 1, stack);
      var r := ActivateAll(s, active, deps, n - 1, stack);
      if r.outcome == Done {
        ActivateIsValid(s, active + Elems(r.log), deps[n - 1], stack);
        ValidLogConcat(s, active, r.log, Activate(s, active + Elems(r.log), deps[n - 1], stack).log);
      }
    }
  }

  ghost predicate Closed(s: Setting, active: set<Name>)
  {
    forall n, d :: n in active && n in s.manifests && d in s.manifests[n].dependencies ==> d in active
  }

  /** Success or failure, a dependency-closed active set stays dependency-closed. */
  lemma {:induction false} ActivationKeepsClosed(s: Setting, active: set<Name>, name: Name)
    requires Closed(s, active)
    ensures Closed(s, active + Elems(Activate(s, active, name, []).log))
  {
    ActivateIsValid(s, active, name, []);
    var log := Activate(s, active, name, []).log;
    forall n, d | n in active + Elems(log) && n in s.manifests && d in s.manifests[n].dependencies
      ensures d in active + Elems(log)
    {
      if n !in active {
        var i :| 0 <= i < |log| && log[i] == n;
        assert d in active || d in log[..i];
      }
    }
  }

  // ------------------------------------------------------ chains of dependencies

  /** A chain of dependencies: every element but the last is registered and inactive, and the next
      one is among its dependencies. */
  ghost predicate Chain(s: Setting, active: set<Name>, p: seq<Name>)
  {
    && p != []
    && forall i :: 0 <= i < |p| - 1 ==>
      p[i] in s.manifests && p[i] !in active && p[i + 1] in s.manifests[p[i]].dependencies
  }

  /** The chain's last element is registered and, unless active, granted, working and met for the first time. */
  ghost predicate EndsWell(s: Setting, active: set<Name>, p: seq<Name>)
    requires p != []
  {
    var last := p[|p| - 1];
    last in s.manifests && (last in active || (Eligible(s, last) && last !in p[..|p| - 1]))
  }

  /** The inactive part reachable from the name is registered, granted, working and free of cycles. */
  ghost predicate Ready(s: Setting, active: set<Name>, name: Name)
  {
    forall p :: Chain(s, active, p) && p[0] == name ==> EndsWell(s, active, p)
  }

  /** A failing walk has found a chain that ends badly. */
  lemma {:induction false} FailureHasChain(
      s: Setting, start: set<Name>, active: set<Name>, name: Name, stack: seq<Name>) returns (p: seq<Name>)
    requires start <= active && Chain(s, start, stack + [name])
    requires Activate(s, active, name, stack).outcome != Done
    ensures Chain(s, start, p) && p[0] == (stack + [name])[0] && !EndsWell(s, start, p)
    decreases s.manifests.Keys - Elems(stack), 0, 0
  {
    p := stack + [name];
    assert p[..|p| - 1] == stack;
    if name in s.manifests && name !in stack && s.manifests[name].capabilities <= s.granted {
      assert name in s.manifests.Keys - Elems(stack) && name in Elems(stack + [name]);
      var deps := s.manifests[name].dependencies;
      if ActivateAll(s, active, deps, |deps|, stack + [name]).outcome != Done {
        p := AllFailureHasChain(s, start, active, name, |deps|, stack + [name]);
      }
    }
  }

  lemma {:induction false} AllFailureHasChain(
      s: Setting, start: set<Name>, active: set<Name>, name: Name, n: nat, stack: seq<Name>)
    returns (p: seq<Name>)
    requires start <= active && Chain(s, start, stack) && stack[|stack| - 1] == name
    requires name in s.manifests && name !in start && n <= |s.manifests[name].dependencies|
    requires ActivateAll(s, active, s.manifests[name].dependencies, n, stack).outcome != Done
    ensures Chain(s, start, p) && p[0] == stack[0] && !EndsWell(s, start, p)
    decreases s.manifests.Keys - Elems(stack), 1, n
  {
    var deps := s.manifests[name].dependencies;
    var r := ActivateAll(s, active, deps, n - 1, stack);
    if r.outcome != Done {
      p := AllFailureHasChain(s, start, active, name, n - 1, stack);
    } else {
      assert Chain(s, start, stack + [deps[n - 1]]) by { assert deps[n - 1] in deps; }
      p := FailureHasChain(s, start, active + Elems(r.log), deps[n - 1], stack);
    }
  }

  lemma {:induction false} PrefixesGrow(log: seq<Name>, a: nat, b: nat, x: Name)
    requires a <= b <= |log|
    ensures x in log[..a] ==> x in log[..b]
  {
    if x in log[..a] {
      var i :| 0 <= i < a && log[i] == x;
      assert log[..b][i] == x;
    }
  }

  /** Along a chain from something activated, the places in the log go down. */
  lemma {:induction false} ChainDescends(
      s: Setting, active: set<Name>, log: seq<Name>, p: seq<Name>, i: nat, n: nat) returns (k: nat)
    requires ValidLog(s, active, log) && Chain(s, active, p) && n < |p| && i <= n
    requires p[0] in active || p[0] in log
    requires p[n] !in active
    ensures k < |log| && log[k] == p[n]
    ensures i < n ==> p[i] in log && p[i] !in log[..k + 1]
  {
    if n == 0 {
      k :| 0 <= k < |log| && log[k] == p[0];
    } else {
      var k' := ChainDescends(s, active, log, p, if i < n then i else 0, n - 1);
      assert p[n] in log[..k'];
      k :| 0 <= k < k' && log[k] == p[n];
      assert log[k'] !in log[..k'];
      PrefixesGrow(log, k + 1, k', p[i]);
      PrefixesGrow(log, k', k' + 1, p[i]);
    }
  }

  lemma {:induction false} LogImpliesReady(s: Setting, active: set<Name>, log: seq<Name>, name: Name)
    requires ValidLog(s, active, log) && (name in active || name in log)
    requires active <= s.manifests.Keys
    ensures Ready(s, active, name)
  {
    forall p | Chain(s, active, p) && p[0] == name ensures EndsWell(s, active, p) {
      var n := |p| - 1;
      if p[n] !in active {
        forall i | 0 <= i < n ensures p[i] != p[n] {
          var k := ChainDescends(s, active, log, p, i, n);
          assert log[..k + 1][k] == p[n];
        }
        var k := ChainDescends(s, active, log, p, 0, n);
      }
    }
  }

  /** Activation succeeds exactly when every chain of inactive dependencies from the name is
      registered, granted, working and free of repetition. */
  lemma {:induction false} ActivateSucceedsIff(s: Setting, active: set<Name>, name: Name)
    requires active <= s.manifests.Keys
    ensures Activate(s, active, name, []).outcome == Done <==> Ready(s, active, name)
  {
    ActivateIsValid(s, active, name, []);
    if Activate(s, active, name, []).outcome == Done {
      LogImpliesReady(s, active, Activate(s, active, name, []).log, name);
    } else {
      assert [] + [name] == [name];
      var p := FailureHasChain(s, active, active, name, []);
      assert Chain(s, active, p) && p[0] == name;
    }
  }

  ghost predicate Reaches(s: Setting, active: set<Name>, name: Name, x: Name)
  {
    exists p :: Chain(s, active, p) && p[0] == name && p[|p| - 1] == x
  }

  lemma {:induction false} ActivateOnlyReachable(
      s: Setting, start: set<Name>, active: set<Name>, name: Name, stack: seq<Name>, x: Name)
    requires start <= active && Chain(s, start, stack + [name]) && x in Activate(s, active, name, stack).log
    ensures Reaches(s, start, (stack + [name])[0], x)
    decreases s.manifests.Keys - Elems(stack), 0, 0
  {
    var p := stack + [name];
    assert p[|p| - 1] == name;
    assert name in s.manifests.Keys - Elems(stack) && name in Elems(stack + [name]);
    var deps := s.manifests[name].dependencies;
    if x != name { AllOnlyReachable(s, start, active, name, |deps|, stack + [name], x); }
  }

  lemma {:induction false} AllOnlyReachable(
      s: Setting, start: set<Name>, active: set<Name>, name: Name, n: nat, stack: seq<Name>, x: Name)
    requires start <= active && Chain(s, start, stack) && stack[|stack| - 1] == name
    requires name in s.manifests && name !in start && n <= |s.manifests[name].dependencies|
    requires x in ActivateAll(s, active, s.manifests[name].dependencies, n, stack).log
    ensures Reaches(s, start, stack[0], x)
    decreases s.manifests.Keys - Elems(stack), 1, n
  {
    var deps := s.manifests[name].dependencies;
    var r := ActivateAll(s, active, deps, n - 1, stack);
    if x in r.log {
      AllOnlyReachable(s, start, active, name, n - 1, stack, x);
    } else {
      assert Chain(s, start, stack + [deps[n - 1]]) by { assert deps[n - 1] in deps; }
      ActivateOnlyReachable(s, start, active + Elems(r.log), deps[n - 1], stack, x);
    }
  }

  /** A successful activation activates exactly the inactive extensions reachable from the name; a
      failing one activates only such extensions. */
  lemma {:induction false} ActivatesExactlyReachable(s: Setting, active: set<Name>, name: Name, x: Name)
    requires active <= s.manifests.Keys && x !in active
    ensures var r := Activate(s, active, name, []);
      && (x in r.log ==> Reaches(s, active, name, x))
      && (r.outcome == Done && Reaches(s, active, name, x) ==> x in r.log)
  {
    var r := Activate(s, active, name, []);
    assert [] + [name] == [name];
    if x in r.log { ActivateOnlyReachable(s, active, active, name, [], x); }
    if r.outcome == Done && Reaches(s, active, name, x) {
      ActivateIsValid(s, active, name, []);
      var p :| Chain(s, active, p) && p[0] == name && p[|p| - 1] == x;
      var k := ChainDescends(s, active, r.log, p, 0, |p| - 1);
    }
  }
}
