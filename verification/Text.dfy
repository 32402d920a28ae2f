/** White space and joined lines. */
module Text {
  import opened Wrappers

  predicate IsSpace(c: char)
  {
    var n := c as int;
    9 <= n <= 13 || 28 <= n <= 32 || n == 133 || n == 160 || n == 5760 || 8192 <= n <= 8202
    || n == 8232 || n == 8233 || n == 8239 || n == 8287 || n == 12288
  }

  function StripLeft(s: string): string { if s != "" && IsSpace(s[0]) then StripLeft(s[1..]) else s }

  function StripRight(s: string): string { if s != "" && IsSpace(s[|s| - 1]) then StripRight(s[..|s| - 1]) else s }

  function Strip(s: string): string { StripRight(StripLeft(s)) }

  /** The first `n` texts, separated. */
  function Join(items: seq<string>, n: nat, separator: string): string
    requires n <= |items|
  {
    if n == 0 then "" else if n == 1 then items[0] else Join(items, n - 1, separator) + separator + items[n - 1]
  }

  lemma {:induction false} StripLeftKeeps(a: string, b: string)
    requires b != "" && !IsSpace(b[0])
    ensures StripLeft(a + b) == StripLeft(a) + b
  {
    if a == "" {
      assert a + b == b;
    } else if IsSpace(a[0]) {
      assert (a + b)[1..] == a[1..] + b;
      StripLeftKeeps(a[1..], b);
    }
  }

  lemma {:induction false} StripRightKeeps(a: string, b: string)
    requires b != "" && !IsSpace(b[0])
    ensures StripRight(a + b) == a + StripRight(b) && StripRight(b) != "" && StripRight(b)[0] == b[0]
    decreases |b|
  {
    if IsSpace(b[|b| - 1]) {
      assert (a + b)[..|a + b| - 1] == a + b[..|b| - 1];
      StripRightKeeps(a, b[..|b| - 1]);
    }
  }

  /** A text that begins and ends with something to see. */
  predicate Solid(t: string) { t != "" && !IsSpace(t[0]) && !IsSpace(t[|t| - 1]) }

  lemma {:induction false} StripRightTail(a: string, b: string)
    requires a != "" && !IsSpace(a[|a| - 1])
    ensures StripRight(a + b) == a + StripRight(b)
  {
    if b == "" {
      assert a + b == a;
    } else if IsSpace(b[|b| - 1]) {
      assert (a + b)[..|a + b| - 1] == a + b[..|b| - 1];
      StripRightTail(a, b[..|b| - 1]);
    }
  }

  /** Stripping takes nothing from a solid part. */
  lemma {:induction false} StripHolds(text: string, t: string)
    requires Holds(text, t) && Solid(t)
    ensures Holds(Strip(text), t)
  {
    var a, b :| text == a + t + b;
    assert text == a + (t + b);
    StripLeftKeeps(a, t + b);
    assert StripLeft(a) + (t + b) == (StripLeft(a) + t) + b;
    StripRightTail(StripLeft(a) + t, b);
    HoldsWithin(StripLeft(a), t, StripRight(b));
  }

  /** Each of the joined texts stands in the whole. */
  lemma {:induction false} JoinHolds(items: seq<string>, n: nat, separator: string, k: nat)
    requires k < n <= |items|
    ensures Holds(Join(items, n, separator), items[k])
  {
    if n > 1 && k < n - 1 {
      JoinHolds(items, n - 1, separator, k);
      var before := Join(items, n - 1, separator);
      HoldsWithin("", before, separator + items[n - 1]);
      assert before + separator + items[n - 1] == before + (separator + items[n - 1]);
      HoldsOnward(Join(items, n, separator), before, items[k]);
    } else if n > 1 {
      HoldsWithin(Join(items, n - 1, separator) + separator, items[k], "");
    } else {
      HoldsWithin("", items[k], "");
    }
  }
}
