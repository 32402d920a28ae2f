/** What every part of the model shares: optional values, outcomes, and lookups in maps. */
module Wrappers {

  datatype Option<+T> = None | Some(value: T)

  datatype Result<+T> = Ok(value: T) | Error(message: string)

  function Max(a: int, b: int): int { if a > b then a else b }

  function Min(a: int, b: int): int { if a < b then a else b }

  /** The sequence without its element at position `i`. */
  function Without<T>(s: seq<T>, i: nat): seq<T>
    requires i < |s|
  {
    s[..i] + s[i + 1..]
  }

  lemma {:induction false} MultisetSnoc<T>(s: seq<T>, x: T)
    ensures multiset(s + [x]) == multiset(s) + multiset{x}
  {
  }

  lemma {:induction false} MultisetPrefix<T>(s: seq<T>, n: nat)
    requires 0 < n <= |s|
    ensures multiset(s[..n]) == multiset(s[..n - 1]) + multiset{s[n - 1]}
  {
    assert s[..n] == s[..n - 1] + [s[n - 1]];
  }

  predicate IsSuffix<T(==)>(a: seq<T>, b: seq<T>) { |a| <= |b| && b[|b| - |a|..] == a }

  /** `part` stands in `whole` in one piece. */
  ghost predicate Holds<T(!new)>(whole: seq<T>, part: seq<T>) { exists a, b :: whole == a + part + b }

  lemma {:induction false} HoldsOnward<T(!new)>(a: seq<T>, b: seq<T>, c: seq<T>)
    requires Holds(a, b) && Holds(b, c)
    ensures Holds(a, c)
  {
    var p, q :| a == p + b + q;
    var u, v :| b == u + c + v;
    assert a == (p + u) + c + (v + q);
  }

  lemma {:induction false} HoldsWithin<T(!new)>(a: seq<T>, part: seq<T>, b: seq<T>)
    ensures Holds(a + part + b, part) && Holds(a + part, part) && Holds(part + b, part) && Holds(part, part)
  {
    assert a + part == a + part + [];
    assert part + b == [] + part + b;
    assert part == [] + part + [];
  }

  lemma {:induction false} HoldsBeside<T(!new)>(a: seq<T>, b: seq<T>, part: seq<T>)
    requires Holds(a, part) || Holds(b, part)
    ensures Holds(a + b, part)
  {
    HoldsWithin([], a, b);
    HoldsWithin(a, b, []);
    assert [] + a + b == a + b && a + b + [] == a + b;
    if Holds(a, part) { HoldsOnward(a + b, a, part); } else { HoldsOnward(a + b, b, part); }
  }

  function Lookup<K, V>(m: map<K, V>, k: K): Option<V> { if k in m then Some(m[k]) else None }

  /** Maps that agree at every key are equal. */
  lemma {:induction false} SameLookups<K(!new), V>(a: map<K, V>, b: map<K, V>)
    requires forall k :: Lookup(a, k) == Lookup(b, k)
    ensures a == b
  {
    forall k ensures k in a <==> k in b { assert Lookup(a, k) == Lookup(b, k); }
    forall k | k in a ensures a[k] == b[k] { assert Lookup(a, k) == Lookup(b, k); }
  }

  /** What a hash is taken to be. */
  ghost predicate Injective(hash: string -> string) { forall a, b :: hash(a) == hash(b) ==> a == b }
}
