/** Memory recall: removal of duplicate candidates and the choice under per-group caps. */
module MemoryRecall {
  import opened Wrappers
  import opened Sorting

  /** A scored candidate; strings are stripped and the kind is never empty. */
  datatype Candidate = Candidate(
    text: string, kind: string, source: string, tags: seq<string>, score: int, created: real, noteIndex: int)

  /** The sort key: score, then creation time, then note index. */
  predicate KeyLe(a: Candidate, b: Candidate)
  {
    a.score < b.score || (a.score == b.score &&
    (a.created < b.created || (a.created == b.created && a.noteIndex <= b.noteIndex)))
  }

  predicate SameKey(a: Candidate, b: Candidate) { KeyLe(a, b) && KeyLe(b, a) }

  predicate IsProcessKind(kind: string) { kind == "episodic" || kind == "process" }

  predicate IsBetter(c: Candidate, existing: Candidate, preferSummary: bool)
  {
    if !SameKey(c, existing) then KeyLe(existing, c)
    else preferSummary && c.kind == "file_summary" && existing.kind != "file_summary"
  }

  // -------------------------------------------------------------- duplicates

  datatype Reason = DuplicateText | DuplicateIdentity | SameFile

  datatype Drop = Drop(candidate: Candidate, reason: Reason, kept: Candidate)

  /** One pass over the candidates: those without a key, the best one for each key so far (in the
      order in which the keys first appeared), and the log of the dropped ones. */
  datatype Pass = Pass(free: seq<Candidate>, kept: seq<Candidate>, log: seq<Drop>)

  /** Where the key is kept among the first `n`, or -1. */
  function Slot<K(==)>(kept: seq<Candidate>, n: nat, key: Candidate -> Option<K>, k: K): (i: int)
    requires n <= |kept|
    ensures -1 <= i < n
    ensures i >= 0 ==> key(kept[i]) == Some(k)
    ensures i < 0 ==> forall j :: 0 <= j < n ==> key(kept[j]) != Some(k)
  {
    if n == 0 then -1 else if key(kept[n - 1]) == Some(k) then n - 1 else Slot(kept, n - 1, key, k)
  }

  function Admit<K(==)>(p: Pass, c: Candidate, key: Candidate -> Option<K>, prefer: bool, reason: Reason): Pass
  {
    match key(c)
    case None => p.(free := p.free + [c])
    case Some(k) =>
      var i := Slot(p.kept, |p.kept|, key, k);
      if i < 0 then p.(kept := p.kept + [c])
      else if IsBetter(c, p.kept[i], prefer) then
        p.(kept := p.kept[i := c], log := p.log + [Drop(p.kept[i], reason, c)])
      else p.(log := p.log + [Drop(c, reason, p.kept[i])])
  }

  function PassTo<K(==)>(cs: seq<Candidate>, n: nat, key: Candidate -> Option<K>, prefer: bool, reason: Reason): Pass
    requires n <= |cs|
  {
    if n == 0 then Pass([], [], []) else Admit(PassTo(cs, n - 1, key, prefer, reason), cs[n - 1], key, prefer, reason)
  }

  function TextKey(c: Candidate): Option<string> { if c.text == "" then None else Some(c.text) }

  function IdentityKey(c: Candidate): Option<(string, string, string)> { Some((c.kind, c.source, c.text)) }

  function FirstKnown(tags: seq<string>, known: set<string>, i: nat): Option<string>
    requires i <= |tags|
    decreases |tags| - i
  {
    if i == |tags| then None else if tags[i] in known then Some(tags[i]) else FirstKnown(tags, known, i + 1)
  }

  /** The file a candidate speaks about, if any. */
  function FileKey(c: Candidate, known: set<string>): Option<string>
  {
    var k :=
      if c.kind == "file_summary" && c.source != "" then Some(c.source)
      else if !IsProcessKind(c.kind) then None
      else if c.source in known then Some(c.source)
      else FirstKnown(c.tags, known, 0);
    if k == Some("") then None else k
  }

  /** A file summary speaks about its source; a note of the episode or the process about its source if that
      is a known file, else about its first tag that is one; no other candidate about a file. */
  lemma {:induction false} FileKeyByKind(c: Candidate, known: set<string>)
    ensures c.kind == "file_summary" ==> FileKey(c, known) == if c.source == "" then None else Some(c.source)
    ensures c.kind in {"episodic", "process"} && c.source in known ==>
              FileKey(c, known) == if c.source == "" then None else Some(c.source)
    ensures c.kind in {"episodic", "process"} && c.source !in known ==>
              if forall tag :: tag in c.tags ==> tag !in known then FileKey(c, known) == None
              else exists i :: 0 <= i < |c.tags| && c.tags[i] in known
                               && (forall j :: 0 <= j < i ==> c.tags[j] !in known)
                               && FileKey(c, known) == if c.tags[i] == "" then None else Some(c.tags[i])
    ensures c.kind !in {"file_summary", "episodic", "process"} ==> FileKey(c, known) == None
  {
    FirstKnownIs(c.tags, known, 0);
  }

  lemma {:induction false} FirstKnownIs(tags: seq<string>, known: set<string>, i: nat)
    requires i <= |tags|
    ensures match FirstKnown(tags, known, i)
      case None => forall j :: i <= j < |tags| ==> tags[j] !in known
      case Some(t) =>
        exists j :: i <= j < |tags| && tags[j] == t && t in known && forall k :: i <= k < j ==> tags[k] !in known
    decreases |tags| - i
  {
    if i < |tags| && tags[i] !in known { FirstKnownIs(tags, known, i + 1); }
  }

  /** Whoever is kept for a key is no lower than any candidate with it, in score, then time, then note index;
      and where summaries are preferred, a summary is kept if one stands as high as what is kept. */
  predicate Outranks(k: Candidate, c: Candidate, prefer: bool)
  {
    && k.score >= c.score && (k.score == c.score ==> k.created >= c.created)
    && (k.score == c.score && k.created == c.created ==> k.noteIndex >= c.noteIndex)
    && (prefer && c.kind == "file_summary" && k.score == c.score && k.created == c.created && k.noteIndex == c.noteIndex
        ==> k.kind == "file_summary")
  }

  lemma {:induction false} BestIsKept<K>(
      cs: seq<Candidate>, n: nat, key: Candidate -> Option<K>, prefer: bool, reason: Reason, a: nat) returns (i: nat)
    requires a < n <= |cs| && key(cs[a]).Some?
    ensures var p := PassTo(cs, n, key, prefer, reason);
      i < |p.kept| && key(p.kept[i]) == key(cs[a]) && Outranks(p.kept[i], cs[a], prefer)
  {
    var p, c := PassTo(cs, n - 1, key, prefer, reason), cs[n - 1];
    if a < n - 1 {
      i := BestIsKept(cs, n - 1, key, prefer, reason, a);
      AdmitKeepsBest(p, c, key, prefer, reason, i, cs[a]);
    } else {
      var j := Slot(p.kept, |p.kept|, key, key(c).value);
      i := if j < 0 then |p.kept| else j;
    }
  }

  lemma {:induction false} AdmitKeepsBest<K>(
      p: Pass, c: Candidate, key: Candidate -> Option<K>, prefer: bool, reason: Reason, i: nat, x: Candidate)
    requires i < |p.kept| && key(p.kept[i]) == key(x) && Outranks(p.kept[i], x, prefer)
    ensures var q := Admit(p, c, key, prefer, reason);
      i < |q.kept| && key(q.kept[i]) == key(x) && Outranks(q.kept[i], x, prefer)
  {
  }

  method DedupePass<K(==)>(cs: seq<Candidate>, key: Candidate -> Option<K>, prefer: bool, reason: Reason)
    returns (p: Pass)
    ensures p == PassTo(cs, |cs|, key, prefer, reason)
  {
    p := Pass([], [], []);
    for n := 0 to |cs|
      invariant p == PassTo(cs, n, key, prefer, reason)
    {
      var c := cs[n];
      match key(c) {
        case None => p := p.(free := p.free + [c]);
        case Some(k) =>
          var i := Slot(p.kept, |p.kept|, key, k);
          if i < 0 {
            p := p.(kept := p.kept + [c]);
          } else if IsBetter(c, p.kept[i], prefer) {
            p := Pass(p.free, p.kept[i := c], p.log + [Drop(p.kept[i], reason, c)]);
          } else {
            p := p.(log := p.log + [Drop(c, reason, p.kept[i])]);
          }
      }
    }
  }

  /** How often the first `n` log entries drop `x`. */
  function Losses(log: seq<Drop>, n: nat, x: Candidate): nat
    requires n <= |log|
  {
    if n == 0 then 0 else Losses(log, n - 1, x) + if log[n - 1].candidate == x then 1 else 0
  }

  lemma {:induction false} CopiesUpdate(cs: seq<Candidate>, i: nat, y: Candidate, n: nat, x: Candidate)
    requires i < n <= |cs|
    ensures Copies(cs[i := y], n, x) + (if cs[i] == x then 1 else 0) == Copies(cs, n, x) + (if y == x then 1 else 0)
  {
    if i == n - 1 { CopiesPrefix(cs[i := y], cs, n - 1, x); } else { CopiesUpdate(cs, i, y, n - 1, x); }
  }

  lemma {:induction false} LossesPrefix(a: seq<Drop>, b: seq<Drop>, n: nat, x: Candidate)
    requires n <= |a|
    ensures Losses(a + b, n, x) == Losses(a, n, x)
  {
    if n > 0 { LossesPrefix(a, b, n - 1, x); }
  }

  lemma {:induction false} LossesConcat(a: seq<Drop>, b: seq<Drop>, n: nat, x: Candidate)
    requires n <= |b|
    ensures Losses(a + b, |a| + n, x) == Losses(a, |a|, x) + Losses(b, n, x)
  {
    if n == 0 { LossesPrefix(a, b, |a|, x); } else { LossesConcat(a, b, n - 1, x); }
  }

  /** How often a pass has seen `x`. */
  function Seen(p: Pass, x: Candidate): nat
  {
    Copies(p.free, |p.free|, x) + Copies(p.kept, |p.kept|, x) + Losses(p.log, |p.log|, x)
  }

  lemma {:induction false} AdmitCounts<K>(
      p: Pass, c: Candidate, key: Candidate -> Option<K>, prefer: bool, reason: Reason, x: Candidate)
    ensures Seen(Admit(p, c, key, prefer, reason), x) == Seen(p, x) + if c == x then 1 else 0
  {
    match key(c) {
      case None => CopiesPrefix(p.free + [c], p.free, |p.free|, x);
      case Some(k) =>
        var i := Slot(p.kept, |p.kept|, key, k);
        if i < 0 {
          CopiesPrefix(p.kept + [c], p.kept, |p.kept|, x);
        } else if IsBetter(c, p.kept[i], prefer) {
          CopiesUpdate(p.kept, i, c, |p.kept|, x);
          LossesPrefix(p.log, [Drop(p.kept[i], reason, c)], |p.log|, x);
        } else {
          LossesPrefix(p.log, [Drop(c, reason, p.kept[i])], |p.log|, x);
        }
    }
  }

  lemma {:induction false} PassCounts<K>(
      cs: seq<Candidate>, n: nat, key: Candidate -> Option<K>, prefer: bool, reason: Reason, x: Candidate)
    requires n <= |cs|
    ensures Seen(PassTo(cs, n, key, prefer, reason), x) == Copies(cs, n, x)
  {
    if n > 0 {
      PassCounts(cs, n - 1, key, prefer, reason, x);
      AdmitCounts(PassTo(cs, n - 1, key, prefer, reason), cs[n - 1], key, prefer, reason, x);
    }
  }

  lemma {:induction false} CopiesIn(cs: seq<Candidate>, n: nat, x: Candidate)
    requires n <= |cs|
    ensures Copies(cs, n, x) > 0 <==> exists i :: 0 <= i < n && cs[i] == x
  {
    if n > 0 { CopiesIn(cs, n - 1, x); }
  }

  lemma {:induction false} LossesIn(log: seq<Drop>, n: nat, x: Candidate)
    requires n <= |log|
    ensures Losses(log, n, x) > 0 <==> exists i :: 0 <= i < n && log[i].candidate == x
  {
    if n > 0 { LossesIn(log, n - 1, x); }
  }

  /** A second occurrence makes two copies. */
  lemma {:induction false} CopiesTwice(cs: seq<Candidate>, i: nat, j: nat, n: nat)
    requires i < j < n <= |cs| && cs[i] == cs[j]
    ensures Copies(cs, n, cs[i]) >= 2
  {
    if j == n - 1 { CopiesIn(cs, n - 1, cs[i]); } else { CopiesTwice(cs, i, j, n - 1); }
  }

  lemma {:induction false} CopiesDistinct(cs: seq<Candidate>, n: nat, x: Candidate)
    requires n <= |cs| && Distinct(cs)
    ensures Copies(cs, n, x) <= 1
  {
    if n > 0 { CopiesDistinct(cs, n - 1, x); CopiesIn(cs, n - 1, x); }
  }

  /** One candidate per key is kept, none of them without a key; every dropped one lost to a
      candidate with its key that is kept and ranks at least as high. */
  ghost predicate Sound<K>(p: Pass, key: Candidate -> Option<K>, reason: Reason)
  {
    && (forall i :: 0 <= i < |p.kept| ==> key(p.kept[i]).Some?)
    && (forall i, j :: 0 <= i < j < |p.kept| ==> key(p.kept[i]) != key(p.kept[j]))
    && (forall i :: 0 <= i < |p.free| ==> key(p.free[i]).None?)
    && (forall j :: 0 <= j < |p.log| ==> p.log[j].reason == reason && Represented(p.kept, p.log[j].candidate, key))
    && (forall j :: 0 <= j < |p.log| ==> LostTo(p.log[j], key))
  }

  /** The log entry names the candidate that was preferred: one with the same key that ranks at least as high. */
  ghost predicate LostTo<K>(d: Drop, key: Candidate -> Option<K>)
  {
    key(d.candidate).Some? && key(d.kept) == key(d.candidate) && KeyLe(d.candidate, d.kept)
  }

  ghost predicate Represented<K>(kept: seq<Candidate>, c: Candidate, key: Candidate -> Option<K>)
  {
    exists i :: 0 <= i < |kept| && key(kept[i]) == key(c) && KeyLe(c, kept[i])
  }

  lemma {:induction false} AdmitSound<K>(
      p: Pass, c: Candidate, key: Candidate -> Option<K>, prefer: bool, reason: Reason)
    requires Sound(p, key, reason)
    ensures Sound(Admit(p, c, key, prefer, reason), key, reason)
  {
    var q := Admit(p, c, key, prefer, reason);
    forall j | 0 <= j < |q.log|
      ensures q.log[j].reason == reason && Represented(q.kept, q.log[j].candidate, key) && LostTo(q.log[j], key)
    {
      if j < |p.log| {
        assert Represented(p.kept, p.log[j].candidate, key) && LostTo(p.log[j], key);
        var i :| 0 <= i < |p.kept| && key(p.kept[i]) == key(p.log[j].candidate) && KeyLe(p.log[j].candidate, p.kept[i]);
        assert KeyLe(p.kept[i], q.kept[i]) && key(q.kept[i]) == key(p.kept[i]);
      } else {
        var i := Slot(p.kept, |p.kept|, key, key(c).value);
        assert KeyLe(q.log[j].candidate, q.kept[i]);
      }
    }
  }

  lemma {:induction false} PassSound<K>(
      cs: seq<Candidate>, n: nat, key: Candidate -> Option<K>, prefer: bool, reason: Reason)
    requires n <= |cs|
    ensures Sound(PassTo(cs, n, key, prefer, reason), key, reason)
  {
    if n > 0 {
      PassSound(cs, n - 1, key, prefer, reason);
      AdmitSound(PassTo(cs, n - 1, key, prefer, reason), cs[n - 1], key, prefer, reason);
    }
  }

  /** A pass over candidates whose keys differ already keeps them all and logs nothing. */
  lemma {:induction false} PassKeepsAll<K>(
      cs: seq<Candidate>, n: nat, key: Candidate -> Option<K>, prefer: bool, reason: Reason)
    requires n <= |cs|
    requires forall i :: 0 <= i < |cs| ==> key(cs[i]).Some?
    requires forall i, j :: 0 <= i < j < |cs| ==> key(cs[i]) != key(cs[j])
    ensures PassTo(cs, n, key, prefer, reason) == Pass([], cs[..n], [])
  {
    if n > 0 {
      PassKeepsAll(cs, n - 1, key, prefer, reason);
      assert Slot(cs[..n - 1], n - 1, key, key(cs[n - 1]).value) < 0;
      assert cs[..n] == cs[..n - 1] + [cs[n - 1]];
    }
  }

  lemma {:induction false} FreeHasNoText(cs: seq<Candidate>, n: nat, x: Candidate)
    requires n <= |cs|
    ensures var free := PassTo(cs, n, TextKey, false, DuplicateText).free;
      Copies(free, |free|, x) == if x.text == "" then Copies(cs, n, x) else 0
  {
    if n > 0 {
      FreeHasNoText(cs, n - 1, x);
      var p, c := PassTo(cs, n - 1, TextKey, false, DuplicateText), cs[n - 1];
      CopiesPrefix(p.free + [c], p.free, |p.free|, x);
    }
  }

  /** `k` stands for `c`: it ranks at least as high, and has the text of `c`, or the file of a candidate
      with that text that ranks in between. */
  ghost predicate StandsFor(cs: seq<Candidate>, fileKey: Candidate -> Option<string>, k: Candidate, c: Candidate)
  {
    KeyLe(c, k) && (k.text == c.text || exists r :: r in cs && SharesFile(fileKey, c, r, k))
  }

  predicate SharesFile(fileKey: Candidate -> Option<string>, c: Candidate, r: Candidate, k: Candidate)
  {
    r.text == c.text && KeyLe(c, r) && KeyLe(r, k) && fileKey(r).Some? && fileKey(r) == fileKey(k)
  }

  /** All three passes. Every candidate with text is kept or logged, exactly once; texts and file
      keys of the kept ones are pairwise different; the identity pass never drops anything; and
      a finally kept candidate stands for every dropped one. */
  method Dedupe(cs: seq<Candidate>, known: set<string>) returns (kept: seq<Candidate>, log: seq<Drop>)
    ensures forall x ::
              Copies(kept, |kept|, x) + Losses(log, |log|, x) == if x.text == "" then 0 else Copies(cs, |cs|, x)
    ensures forall i, j :: 0 <= i < j < |kept| ==> kept[i].text != kept[j].text
    ensures forall i, j :: 0 <= i < j < |kept| && FileKey(kept[i], known).Some? ==>
              FileKey(kept[i], known) != FileKey(kept[j], known)
    ensures forall d :: d in log ==> d.reason != DuplicateIdentity
    ensures forall d :: d in log ==> exists k :: k in kept && StandsFor(cs, FileKeyFor(known), k, d.candidate)
    ensures forall d :: d in log ==>
      if d.reason == DuplicateText then LostTo(d, TextKey) else LostTo(d, FileKeyFor(known))
  {
    var byText := DedupePass(cs, TextKey, false, DuplicateText);
    var byIdentity := DedupePass(byText.kept, IdentityKey, false, DuplicateIdentity);
    var byFile := DedupePass(byIdentity.kept, FileKeyFor(known), true, SameFile);
    kept, log := byFile.free + byFile.kept, byText.log + byIdentity.log + byFile.log;
    ThreePasses(cs, known, byText, byIdentity, byFile);
  }

  function FileKeyFor(known: set<string>): Candidate -> Option<string> { (c: Candidate) => FileKey(c, known) }

  lemma {:induction false} ThreePasses(
      cs: seq<Candidate>, known: set<string>, byText: Pass, byIdentity: Pass, byFile: Pass)
    requires byText == PassTo(cs, |cs|, TextKey, false, DuplicateText)
    requires byIdentity == PassTo(byText.kept, |byText.kept|, IdentityKey, false, DuplicateIdentity)
    requires byFile == PassTo(byIdentity.kept, |byIdentity.kept|, FileKeyFor(known), true, SameFile)
    ensures var kept, log := byFile.free + byFile.kept, byText.log + byIdentity.log + byFile.log;
      && (forall x ::
            Copies(kept, |kept|, x) + Losses(log, |log|, x) == if x.text == "" then 0 else Copies(cs, |cs|, x))
      && (forall i, j :: 0 <= i < j < |kept| ==> kept[i].text != kept[j].text)
      && (forall i, j :: 0 <= i < j < |kept| && FileKey(kept[i], known).Some? ==>
            FileKey(kept[i], known) != FileKey(kept[j], known))
      && (forall d :: d in log ==> d.reason != DuplicateIdentity)
      && (forall d :: d in log ==> exists k :: k in kept && StandsFor(cs, FileKeyFor(known), k, d.candidate))
      && (forall d :: d in log ==>
            if d.reason == DuplicateText then LostTo(d, TextKey) else LostTo(d, FileKeyFor(known)))
  {
    PassSound(cs, |cs|, TextKey, false, DuplicateText);
    TextsDiffer(byText);
    PassKeepsAll(byText.kept, |byText.kept|, IdentityKey, false, DuplicateIdentity);
    assert byText.kept[..|byText.kept|] == byText.kept;
    assert byIdentity.log == [] && byIdentity.kept == byText.kept;
    PassSound(byText.kept, |byText.kept|, FileKeyFor(known), true, SameFile);
    var kept, log := byFile.free + byFile.kept, byText.log + byFile.log;
    assert log == byText.log + byIdentity.log + byFile.log;
    forall x
      ensures Copies(kept, |kept|, x) + Losses(log, |log|, x) == if x.text == "" then 0 else Copies(cs, |cs|, x)
    {
      PassCounts(cs, |cs|, TextKey, false, DuplicateText, x);
      PassCounts(byText.kept, |byText.kept|, FileKeyFor(known), true, SameFile, x);
      FreeHasNoText(cs, |cs|, x);
      CountBoth(cs, byText, byFile, x);
    }
    KeptAreInput(byText.kept, byFile, FileKeyFor(known));
    FileKeysDiffer(byFile, known);
    forall d | d in log
      ensures d.reason != DuplicateIdentity && exists k :: k in kept && StandsFor(cs, FileKeyFor(known), k, d.candidate)
    {
      var k := DedupeRepresents(cs, byText, byFile, FileKeyFor(known), d);
    }
    forall d | d in log ensures if d.reason == DuplicateText then LostTo(d, TextKey) else LostTo(d, FileKeyFor(known)) {
      if d in byText.log {
        EntryLostTo(byText, TextKey, DuplicateText, d);
      } else {
        EntryLostTo(byFile, FileKeyFor(known), SameFile, d);
      }
    }
  }

  lemma {:induction false} EntryLostTo<K>(p: Pass, key: Candidate -> Option<K>, reason: Reason, d: Drop)
    requires Sound(p, key, reason) && d in p.log
    ensures d.reason == reason && LostTo(d, key)
  {
    var j :| 0 <= j < |p.log| && p.log[j] == d;
  }

  lemma {:induction false} FileKeysDiffer(byFile: Pass, known: set<string>)
    requires Sound(byFile, FileKeyFor(known), SameFile)
    ensures var kept := byFile.free + byFile.kept;
            forall i, j :: 0 <= i < j < |kept| && FileKey(kept[i], known).Some? ==>
              FileKey(kept[i], known) != FileKey(kept[j], known)
  {
    var kept, n, key := byFile.free + byFile.kept, |byFile.free|, FileKeyFor(known);
    forall i | 0 <= i < |kept| ensures if i < n then key(kept[i]).None? else key(kept[i]) == key(byFile.kept[i - n]) {
      if i < n { assert kept[i] == byFile.free[i]; } else { assert kept[i] == byFile.kept[i - n]; }
    }
    assert forall i :: 0 <= i < |kept| ==> key(kept[i]) == FileKey(kept[i], known);
  }

  lemma {:induction false} TextsDiffer(byText: Pass)
    requires Sound(byText, TextKey, DuplicateText)
    ensures forall i, j :: 0 <= i < j < |byText.kept| ==> byText.kept[i].text != byText.kept[j].text
    ensures forall i, j :: 0 <= i < j < |byText.kept| ==> IdentityKey(byText.kept[i]) != IdentityKey(byText.kept[j])
  {
    forall i, j | 0 <= i < j < |byText.kept| ensures byText.kept[i].text != byText.kept[j].text {
      assert TextKey(byText.kept[i]) != TextKey(byText.kept[j]);
    }
  }

  lemma {:induction false} CountBoth(cs: seq<Candidate>, byText: Pass, byFile: Pass, x: Candidate)
    requires Seen(byText, x) == Copies(cs, |cs|, x) && Seen(byFile, x) == Copies(byText.kept, |byText.kept|, x)
    requires Copies(byText.free, |byText.free|, x) == if x.text == "" then Copies(cs, |cs|, x) else 0
    ensures var kept, log := byFile.free + byFile.kept, byText.log + byFile.log;
      Copies(kept, |kept|, x) + Losses(log, |log|, x) == if x.text == "" then 0 else Copies(cs, |cs|, x)
  {
    CopiesConcat(byFile.free, byFile.kept, |byFile.kept|, x);
    LossesConcat(byText.log, byFile.log, |byFile.log|, x);
  }

  /** The final candidates are among the ones with pairwise different texts, each at most once. */
  lemma {:induction false} KeptAreInput(input: seq<Candidate>, p: Pass, fileKey: Candidate -> Option<string>)
    requires forall i, j :: 0 <= i < j < |input| ==> input[i].text != input[j].text
    requires p == PassTo(input, |input|, fileKey, true, SameFile)
    ensures var kept := p.free + p.kept; forall i, j :: 0 <= i < j < |kept| ==> kept[i].text != kept[j].text
  {
    var kept := p.free + p.kept;
    forall i, j | 0 <= i < j < |kept| ensures kept[i].text != kept[j].text {
      var a := Source(input, p, fileKey, i);
      var b := Source(input, p, fileKey, j);
      if a == b {
        CopiesTwice(kept, i, j, |kept|);
        CopiesConcat(p.free, p.kept, |p.kept|, kept[i]);
        PassCounts(input, |input|, fileKey, true, SameFile, kept[i]);
        CopiesDistinct(input, |input|, kept[i]);
      }
    }
  }

  lemma {:induction false} Source(
      input: seq<Candidate>, p: Pass, fileKey: Candidate -> Option<string>, i: nat) returns (a: nat)
    requires p == PassTo(input, |input|, fileKey, true, SameFile) && i < |p.free + p.kept|
    ensures a < |input| && input[a] == (p.free + p.kept)[i]
  {
    var kept := p.free + p.kept;
    CopiesIn(kept, |kept|, kept[i]);
    CopiesConcat(p.free, p.kept, |p.kept|, kept[i]);
    PassCounts(input, |input|, fileKey, true, SameFile, kept[i]);
    CopiesIn(input, |input|, kept[i]);
    a :| 0 <= a < |input| && input[a] == kept[i];
  }

  /** A finally kept candidate stands for every dropped one. */
  lemma {:induction false} DedupeRepresents(
      cs: seq<Candidate>, byText: Pass, byFile: Pass, fileKey: Candidate -> Option<string>, d: Drop)
    returns (k: Candidate)
    requires byText == PassTo(cs, |cs|, TextKey, false, DuplicateText)
    requires byFile == PassTo(byText.kept, |byText.kept|, fileKey, true, SameFile)
    requires d in byText.log + byFile.log
    ensures d.reason != DuplicateIdentity && k in byFile.free + byFile.kept && StandsFor(cs, fileKey, k, d.candidate)
  {
    PassSound(cs, |cs|, TextKey, false, DuplicateText);
    PassSound(byText.kept, |byText.kept|, fileKey, true, SameFile);
    if d in byFile.log {
      k := FileRepresentative(byFile, fileKey, d);
      LoggedIsInput(byText.kept, byFile, fileKey, d);
      KeptIsInput(cs, byText, d.candidate);
      assert SharesFile(fileKey, d.candidate, d.candidate, k);
    } else {
      var r := TextRepresentative(byText, d);
      KeptIsInput(cs, byText, r);
      if r in byFile.free + byFile.kept {
        k := r;
      } else {
        var e := LoggedUnlessKept(byText.kept, byFile, fileKey, r);
        k := FileRepresentative(byFile, fileKey, e);
        assert SharesFile(fileKey, d.candidate, r, k);
      }
    }
  }

  lemma {:induction false} TextRepresentative(byText: Pass, d: Drop) returns (r: Candidate)
    requires Sound(byText, TextKey, DuplicateText) && d in byText.log
    ensures d.reason == DuplicateText && r in byText.kept && r.text == d.candidate.text && KeyLe(d.candidate, r)
  {
    var j :| 0 <= j < |byText.log| && byText.log[j] == d;
    var i :| 0 <= i < |byText.kept| && TextKey(byText.kept[i]) == TextKey(d.candidate) &&
      KeyLe(d.candidate, byText.kept[i]);
    r := byText.kept[i];
    assert TextKey(r).Some?;
  }

  lemma {:induction false} FileRepresentative(
      byFile: Pass, fileKey: Candidate -> Option<string>, d: Drop) returns (k: Candidate)
    requires Sound(byFile, fileKey, SameFile) && d in byFile.log
    ensures d.reason == SameFile && k in byFile.free + byFile.kept && KeyLe(d.candidate, k)
    ensures fileKey(k) == fileKey(d.candidate) && fileKey(k).Some?
  {
    var j :| 0 <= j < |byFile.log| && byFile.log[j] == d;
    var i :| 0 <= i < |byFile.kept| && fileKey(byFile.kept[i]) == fileKey(d.candidate) &&
      KeyLe(d.candidate, byFile.kept[i]);
    k := byFile.kept[i];
    assert k in byFile.kept;
  }

  lemma {:induction false} KeptIsInput(cs: seq<Candidate>, byText: Pass, x: Candidate)
    requires byText == PassTo(cs, |cs|, TextKey, false, DuplicateText) && x in byText.kept
    ensures x in cs
  {
    PassCounts(cs, |cs|, TextKey, false, DuplicateText, x);
    CopiesIn(byText.kept, |byText.kept|, x);
    CopiesIn(cs, |cs|, x);
  }

  lemma {:induction false} LoggedIsInput(input: seq<Candidate>, p: Pass, fileKey: Candidate -> Option<string>, d: Drop)
    requires p == PassTo(input, |input|, fileKey, true, SameFile) && d in p.log
    ensures d.candidate in input
  {
    PassCounts(input, |input|, fileKey, true, SameFile, d.candidate);
    LossesIn(p.log, |p.log|, d.candidate);
    CopiesIn(input, |input|, d.candidate);
  }

  lemma {:induction false} LoggedUnlessKept(
      input: seq<Candidate>, p: Pass, fileKey: Candidate -> Option<string>, r: Candidate) returns (d: Drop)
    requires p == PassTo(input, |input|, fileKey, true, SameFile) && r in input && r !in p.free + p.kept
    ensures d in p.log && d.candidate == r
  {
    PassCounts(input, |input|, fileKey, true, SameFile, r);
    CopiesIn(input, |input|, r);
    CopiesIn(p.free, |p.free|, r);
    CopiesIn(p.kept, |p.kept|, r);
    LossesIn(p.log, |p.log|, r);
    var l :| 0 <= l < |p.log| && p.log[l].candidate == r;
    d := p.log[l];
  }
}
