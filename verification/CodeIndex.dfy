/** The incremental symbol index: one record per Python file, reused while the content hash is
    unchanged, refreshed from a full listing or from a set of changed paths. */
module CodeIndex {
  import opened Wrappers

  type Path = string

  datatype Node = Directory | File(text: string)

  /** What the file system holds, by path relative to the index's root. */
  type World = map<Path, Node>

  datatype Symbol = Symbol(name: string, qualified: string, kind: string, first: nat, last: nat, parent: string)

  datatype Reference = Reference(name: string, target: string, line: nat)

  datatype Parsed =
    | Module(symbols: seq<Symbol>, imports: seq<Reference>, calls: seq<Reference>)
    | SyntaxError(message: string)

  datatype Record = Record(hash: string, parsed: Parsed)

  type Files = map<Path, Record>

  /** Hashing, parsing and path resolution (`None` for a path that leaves the root). */
  datatype Tools = Tools(hash: string -> string, parse: (Path, string) -> Parsed, resolve: string -> Option<Path>)

  datatype Report = Report(reindexed: seq<Path>, reused: seq<Path>, errors: seq<Path>)

  /** The last component has the suffix `.py` and a stem before it. */
  predicate IsPython(p: Path) { |p| > 3 && p[|p| - 3..] == ".py" && p[|p| - 4] != '/' }

  /** Any file with a stem and this suffix, in any directory; not the bare suffix. */
  lemma {:induction false} PythonNames(dir: string, stem: string)
    requires stem != "" && '/' !in stem
    ensures IsPython(stem + ".py") && IsPython(dir + "/" + stem + ".py")
    ensures !IsPython(".py") && !IsPython(dir + "/" + ".py")
    ensures forall p :: IsPython(p) ==> |p| > 3 && p[|p| - 3..] == ".py"
  {
    var p, q := dir + "/" + stem + ".py", dir + "/" + ".py";
    assert p[|p| - 3..] == ".py" && (stem + ".py")[|stem|..] == ".py";
    assert p[|p| - 4] == stem[|stem| - 1] && stem[|stem| - 1] in stem;
    assert (stem + ".py")[|stem| - 1] == stem[|stem| - 1];
    assert q[|q| - 4] == '/';
  }

  function Source(w: World, p: Path): Option<string>
  {
    if p in w && w[p].File? && IsPython(p) then Some(w[p].text) else None
  }

  function RecordOf(t: Tools, p: Path, text: string): Record { Record(t.hash(text), t.parse(p, text)) }

  /** The record a file deserves, if any. */
  function Due(t: Tools, w: World, p: Path): Option<Record>
  {
    match Source(w, p) case None => None case Some(text) => Some(RecordOf(t, p, text))
  }

  predicate Reusable(t: Tools, files: Files, p: Path, text: string) { p in files && files[p].hash == t.hash(text) }

  function Visit(t: Tools, w: World, files: Files, candidate: Option<Path>): Files
  {
    if candidate.None? then files
    else
      var p := candidate.value;
      match Source(w, p)
      case None => files - {p}
      case Some(text) => if Reusable(t, files, p, text) then files else files[p := RecordOf(t, p, text)]
  }

  function Log(t: Tools, w: World, files: Files, candidate: Option<Path>, r: Report): Report
  {
    if candidate.None? then r
    else
      var p := candidate.value;
      match Source(w, p)
      case None => r
      case Some(text) =>
        if Reusable(t, files, p, text) then r.(reused := r.reused + [p])
        else r.(reindexed := r.reindexed + [p],
                errors := if t.parse(p, text).SyntaxError? then r.errors + [p] else r.errors)
  }

  function Visited(t: Tools, w: World, files: Files, candidates: seq<Option<Path>>, n: nat): Files
    requires n <= |candidates|
  {
    if n == 0 then files else Visit(t, w, Visited(t, w, files, candidates, n - 1), candidates[n - 1])
  }

  function Logged(t: Tools, w: World, files: Files, candidates: seq<Option<Path>>, n: nat): Report
    requires n <= |candidates|
  {
    if n == 0 then Report([], [], [])
    else Log(t, w, Visited(t, w, files, candidates, n - 1), candidates[n - 1], Logged(t, w, files, candidates, n - 1))
  }

  function Listed(listing: seq<Path>): seq<Option<Path>>
  {
    seq(|listing|, i requires 0 <= i < |listing| => Some(listing[i]))
  }

  function Resolved(t: Tools, paths: seq<string>): seq<Option<Path>>
  {
    seq(|paths|, i requires 0 <= i < |paths| => t.resolve(paths[i]))
  }

  /** The files to visit: those given, or else the full listing. */
  function Candidates(t: Tools, given: Option<seq<string>>, listing: seq<Path>): seq<Option<Path>>
  {
    if given.Some? then Resolved(t, given.value) else Listed(listing)
  }

  function Kept(files: Files, paths: set<Path>): Files { map p | p in files && p in paths :: files[p] }

  /** The index after a refresh. */
  function Refreshed(t: Tools, w: World, files: Files, given: Option<seq<string>>, listing: seq<Path>): Files
  {
    var candidates := Candidates(t, given, listing);
    var all := Visited(t, w, files, candidates, |candidates|);
    if given.Some? then all else Kept(all, set p | p in listing)
  }

  class Index {
    const tools: Tools
    var files: Files
    var saved: Files

    constructor (tools: Tools, saved: Files)
      ensures this.tools == tools && this.saved == saved && files == saved
    {
      this.tools, this.saved, files := tools, saved, saved;
    }

    /** Refreshes the given paths, or all files of the listing when no paths are given. */
    method Refresh(w: World, given: Option<seq<string>>, listing: seq<Path>) returns (r: Report)
      modifies this
      ensures files == Refreshed(tools, w, old(files), given, listing) && saved == files
      ensures Coherent(tools, old(files)) && Injective(tools.hash) && given.None? ==> forall p ::
                && (p in files <==> p in listing && p in w && w[p].File? && IsPython(p))
                && (p in files ==>
                    files[p].hash == tools.hash(w[p].text) && files[p].parsed == tools.parse(p, w[p].text))
      ensures var candidates := Candidates(tools, given, listing);
        r == Logged(tools, w, old(files), candidates, |candidates|)
    {
      var candidates := Candidates(tools, given, listing);
      var seen: set<Path> := {};
      r := Report([], [], []);
      for k := 0 to |candidates|
        invariant files == Visited(tools, w, old(files), candidates, k)
        invariant r == Logged(tools, w, old(files), candidates, k)
        invariant forall p :: p in seen <==> Some(p) in candidates[..k]
      {
        if candidates[k].Some? {
          var p := candidates[k].value;
          seen := seen + {p};
          if p !in w || !w[p].File? || !IsPython(p) {
            files := files - {p};
          } else {
            var text := w[p].text;
            if p in files && files[p].hash == tools.hash(text) {
              r := r.(reused := r.reused + [p]);
            } else {
              files := files[p := RecordOf(tools, p, text)];
              if tools.parse(p, text).SyntaxError? { r := r.(errors := r.errors + [p]); }
              r := r.(reindexed := r.reindexed + [p]);
            }
          }
        }
      }
      assert candidates[..|candidates|] == candidates;
      if given.None? {
        SeenIsListing(seen, listing);
        DropUnseen(seen);
      }
      saved := files;
      if Coherent(tools, old(files)) && Injective(tools.hash) && given.None? {
        FullRefreshAll(tools, w, old(files), listing);
      }
    }

    method DropUnseen(seen: set<Path>)
      modifies this`files
      ensures files == Kept(old(files), seen)
    {
      var rest := files.Keys;
      while rest != {}
        invariant rest <= old(files).Keys
        invariant files == map p | p in old(files) && (p in seen || p in rest) :: old(files)[p]
        decreases |rest|
      {
        var p :| p in rest;
        rest := rest - {p};
        if p !in seen { files := files - {p}; }
      }
    }
  }

  lemma {:induction false} SeenIsListing(seen: set<Path>, listing: seq<Path>)
    requires forall p :: p in seen <==> Some(p) in Listed(listing)
    ensures seen == set p | p in listing
  {
    forall p ensures p in seen <==> p in listing {
      ListedHas(listing, p);
    }
  }

  lemma {:induction false} ListedHas(listing: seq<Path>, p: Path)
    ensures Some(p) in Listed(listing) <==> p in listing
  {
    if p in listing {
      var i :| 0 <= i < |listing| && listing[i] == p;
      assert Listed(listing)[i] == Some(p);
    }
  }

  // ------------------------------------------------------ agreeing with a rebuild

  /** Every record is what some text of its file gave. */
  ghost predicate Coherent(t: Tools, files: Files) { forall p :: p in files ==> Truthful(t, p, files[p]) }

  ghost predicate Truthful(t: Tools, p: Path, r: Record) { exists text :: r == RecordOf(t, p, text) }

  /** The index built from nothing. */
  function Rebuilt(t: Tools, w: World, listing: seq<Path>): Files { Refreshed(t, w, map[], None, listing) }

  lemma {:induction false} VisitCoherent(t: Tools, w: World, files: Files, c: Option<Path>)
    requires Coherent(t, files)
    ensures Coherent(t, Visit(t, w, files, c))
  {
  }

  lemma {:induction false} VisitAt(t: Tools, w: World, files: Files, c: Option<Path>, p: Path)
    requires Coherent(t, files) && Injective(t.hash)
    ensures Lookup(Visit(t, w, files, c), p) == if c == Some(p) then Due(t, w, p) else Lookup(files, p)
  {
    if c == Some(p) && Source(w, p).Some? && p in files {
      assert Truthful(t, p, files[p]);
    }
  }

  /** A visited path gets the record it deserves; every other path keeps its own. */
  lemma {:induction false} VisitedAt(t: Tools, w: World, files: Files, cs: seq<Option<Path>>, n: nat, p: Path)
    requires n <= |cs| && Coherent(t, files) && Injective(t.hash)
    ensures Coherent(t, Visited(t, w, files, cs, n))
    ensures Lookup(Visited(t, w, files, cs, n), p) == if Some(p) in cs[..n] then Due(t, w, p) else Lookup(files, p)
  {
    if n > 0 {
      VisitedAt(t, w, files, cs, n - 1, p);
      var before := Visited(t, w, files, cs, n - 1);
      VisitCoherent(t, w, before, cs[n - 1]);
      VisitAt(t, w, before, cs[n - 1], p);
      assert cs[..n] == cs[..n - 1] + [cs[n - 1]];
    }
  }

  lemma {:induction false} FullAt(t: Tools, w: World, files: Files, listing: seq<Path>, p: Path)
    requires Coherent(t, files) && Injective(t.hash)
    ensures Lookup(Refreshed(t, w, files, None, listing), p) == if p in listing then Due(t, w, p) else None
  {
    var cs := Listed(listing);
    VisitedAt(t, w, files, cs, |cs|, p);
    assert cs[..|cs|] == cs;
    ListedHas(listing, p);
  }

  /** A full refresh gives what a rebuild gives, whatever the index held. */
  lemma {:induction false} FullRefreshIsRebuild(t: Tools, w: World, files: Files, listing: seq<Path>)
    requires Coherent(t, files) && Injective(t.hash)
    ensures Refreshed(t, w, files, None, listing) == Rebuilt(t, w, listing)
  {
    var a, b := Refreshed(t, w, files, None, listing), Rebuilt(t, w, listing);
    forall p ensures Lookup(a, p) == Lookup(b, p) {
      FullAt(t, w, files, listing, p);
      FullAt(t, w, map[], listing, p);
    }
    SameLookups(a, b);
  }

  /** After a full refresh the index has exactly the Python files that are listed and there, each with the hash
      of its text and what the parser finds in it. */
  lemma {:induction false} FullRefreshRecords(t: Tools, w: World, files: Files, listing: seq<Path>, p: Path)
    requires Coherent(t, files) && Injective(t.hash)
    ensures var r := Refreshed(t, w, files, None, listing);
      && (p in r <==> p in listing && p in w && w[p].File? && IsPython(p))
      && (p in r ==> r[p].hash == t.hash(w[p].text) && r[p].parsed == t.parse(p, w[p].text))
  {
    FullAt(t, w, files, listing, p);
    assert p in Refreshed(t, w, files, None, listing) <==> Lookup(Refreshed(t, w, files, None, listing), p).Some?;
  }

  lemma {:induction false} FullRefreshAll(t: Tools, w: World, files: Files, listing: seq<Path>)
    requires Coherent(t, files) && Injective(t.hash)
    ensures var r := Refreshed(t, w, files, None, listing);
      forall p ::
        && (p in r <==> p in listing && p in w && w[p].File? && IsPython(p))
        && (p in r ==> r[p].hash == t.hash(w[p].text) && r[p].parsed == t.parse(p, w[p].text))
  {
    var r := Refreshed(t, w, files, None, listing);
    forall p
      ensures p in r <==> p in listing && p in w && w[p].File? && IsPython(p)
      ensures p in r ==> r[p].hash == t.hash(w[p].text) && r[p].parsed == t.parse(p, w[p].text)
    {
      FullRefreshRecords(t, w, files, listing, p);
    }
  }

  /** After a refresh by paths the same holds of the given paths, listed or not, and every other record stays. */
  lemma {:induction false} PathRefreshRecords(
      t: Tools, w: World, files: Files, paths: seq<string>, listing: seq<Path>, p: Path)
    requires Coherent(t, files) && Injective(t.hash)
    ensures var r := Refreshed(t, w, files, Some(paths), listing);
      if exists i :: 0 <= i < |paths| && t.resolve(paths[i]) == Some(p) then
        && (p in r <==> p in w && w[p].File? && IsPython(p))
        && (p in r ==> r[p].hash == t.hash(w[p].text) && r[p].parsed == t.parse(p, w[p].text))
      else
        (p in r <==> p in files) && (p in r ==> r[p] == files[p])
  {
    PathsAt(t, w, files, paths, listing, p);
    assert p in Refreshed(t, w, files, Some(paths), listing)
      <==> Lookup(Refreshed(t, w, files, Some(paths), listing), p).Some?;
    assert p in files <==> Lookup(files, p).Some?;
  }

  /** The text the index should know of a path. */
  function InScope(w: World, listing: seq<Path>, p: Path): Option<string>
  {
    if p in listing then Source(w, p) else None
  }

  predicate Given(t: Tools, paths: seq<string>, p: Path)
  {
    exists i :: 0 <= i < |paths| && t.resolve(paths[i]) == Some(p)
  }

  lemma {:induction false} ResolvedHas(t: Tools, paths: seq<string>, p: Path)
    ensures Some(p) in Resolved(t, paths) <==> Given(t, paths, p)
  {
    if Given(t, paths, p) {
      var i :| 0 <= i < |paths| && t.resolve(paths[i]) == Some(p);
      assert Resolved(t, paths)[i] == Some(p);
    }
  }

  lemma {:induction false} PathsAt(t: Tools, w: World, files: Files, paths: seq<string>, listing: seq<Path>, p: Path)
    requires Coherent(t, files) && Injective(t.hash)
    ensures Lookup(Refreshed(t, w, files, Some(paths), listing), p)
         == if Given(t, paths, p) then Due(t, w, p) else Lookup(files, p)
  {
    var cs := Resolved(t, paths);
    VisitedAt(t, w, files, cs, |cs|, p);
    assert cs[..|cs|] == cs;
    ResolvedHas(t, paths, p);
  }

  /** No given path names a Python file outside the listing. */
  ghost predicate WithinListing(t: Tools, w: World, paths: seq<string>, listing: seq<Path>)
  {
    forall p :: Given(t, paths, p) && Source(w, p).Some? ==> p in listing
  }

  /** From any coherent index, a refresh by paths gives what a rebuild gives exactly when the paths
      cover every record that is out of date and stay within the listing. */
  lemma {:induction false} PathRefreshFrom(t: Tools, files: Files, w: World, listing: seq<Path>, paths: seq<string>)
    requires Coherent(t, files) && Injective(t.hash)
    ensures Refreshed(t, w, files, Some(paths), listing) == Rebuilt(t, w, listing)
      <==> && WithinListing(t, w, paths, listing)
           && forall p :: Lookup(files, p) != (if p in listing then Due(t, w, p) else None) ==> Given(t, paths, p)
  {
    var a, b := Refreshed(t, w, files, Some(paths), listing), Rebuilt(t, w, listing);
    forall p ensures Lookup(a, p) == Lookup(b, p)
      <==> (if Given(t, paths, p) then Source(w, p).Some? ==> p in listing
            else Lookup(files, p) == if p in listing then Due(t, w, p) else None)
    {
      PathsAt(t, w, files, paths, listing, p);
      FullAt(t, w, map[], listing, p);
    }
    if forall p :: Lookup(a, p) == Lookup(b, p) { SameLookups(a, b); }
  }

  /** In particular, from an index that agreed with an earlier world: exactly when the paths cover every
      change of an in-scope text and stay within the listing. */
  lemma {:induction false} PathRefreshIsRebuildIff(
      t: Tools, w0: World, listing0: seq<Path>, w: World, listing: seq<Path>, paths: seq<string>)
    requires Injective(t.hash)
    ensures Refreshed(t, w, Rebuilt(t, w0, listing0), Some(paths), listing) == Rebuilt(t, w, listing)
      <==> && WithinListing(t, w, paths, listing)
           && forall p :: InScope(w0, listing0, p) != InScope(w, listing, p) ==> Given(t, paths, p)
  {
    var files := Rebuilt(t, w0, listing0);
    RebuiltCoherent(t, w0, listing0);
    PathRefreshFrom(t, files, w, listing, paths);
    forall p ensures Lookup(files, p) == (if p in listing then Due(t, w, p) else None)
      <==> InScope(w0, listing0, p) == InScope(w, listing, p)
    {
      FullAt(t, w0, map[], listing0, p);
    }
  }

  lemma {:induction false} RebuiltCoherent(t: Tools, w: World, listing: seq<Path>)
    requires Injective(t.hash)
    ensures Coherent(t, Rebuilt(t, w, listing))
  {
    var cs := Listed(listing);
    VisitedAt(t, w, map[], cs, |cs|, "");
  }

  // -------------------------------------------------------------- what is reported

  predicate Stale(t: Tools, w: World, files: Files, p: Path) { Due(t, w, p) != Lookup(files, p) }

  /** A refresh reparses exactly the visited files whose text is new to the index, reuses all others
      and reports as errors exactly the reparsed files that do not parse. */
  lemma {:induction false} ReparsesExactlyStale(
      t: Tools, w: World, files: Files, cs: seq<Option<Path>>, n: nat, p: Path)
    requires n <= |cs| && Coherent(t, files) && Injective(t.hash)
    ensures var r := Logged(t, w, files, cs, n);
      && (p in r.reindexed <==> Some(p) in cs[..n] && Source(w, p).Some? && Stale(t, w, files, p))
      && (Some(p) in cs[..n] && Source(w, p).Some? ==> p in r.reindexed || p in r.reused)
      && (Some(p) in cs[..n] && Source(w, p).Some? && !Stale(t, w, files, p) ==> p in r.reused)
      && (p in r.errors <==> p in r.reindexed && t.parse(p, Source(w, p).value).SyntaxError?)
  {
    if n > 0 {
      ReparsesExactlyStale(t, w, files, cs, n - 1, p);
      VisitedAt(t, w, files, cs, n - 1, p);
      assert cs[..n] == cs[..n - 1] + [cs[n - 1]];
      var before := Visited(t, w, files, cs, n - 1);
      if cs[n - 1] == Some(p) && Source(w, p).Some? {
        ReusableIff(t, w, before, p);
      }
    }
  }

  /** In terms of hashes: reparsed are exactly the visited Python files that the index has no record of, or one
      with another hash. */
  lemma {:induction false} ReparsesByHash(
      t: Tools, w: World, files: Files, cs: seq<Option<Path>>, n: nat, p: Path)
    requires n <= |cs| && Coherent(t, files) && Injective(t.hash)
    ensures p in Logged(t, w, files, cs, n).reindexed <==>
              (Some(p) in cs[..n] && p in w && w[p].File? && IsPython(p)
               && (p !in files || files[p].hash != t.hash(w[p].text)))
  {
    ReparsesExactlyStale(t, w, files, cs, n, p);
    if Source(w, p).Some? { ReusableIff(t, w, files, p); }
  }

  lemma {:induction false} ReusableIff(t: Tools, w: World, files: Files, p: Path)
    requires Coherent(t, files) && Injective(t.hash) && Source(w, p).Some?
    ensures Reusable(t, files, p, Source(w, p).value) <==> !Stale(t, w, files, p)
  {
    if p in files { assert Truthful(t, p, files[p]); }
  }

  // ------------------------------------------------------------------------- runs

  datatype Event =
    | Refresh(world: World, given: Option<seq<string>>, listing: seq<Path>)
    | Interrupted(world: World, candidates: seq<Option<Path>>)   // a refresh that raised before it saved
    | Reload
    | LostFile

  datatype State = State(files: Files, saved: Files)

  function Step(t: Tools, s: State, e: Event): State
  {
    match e
    case Refresh(w, given, listing) => var f := Refreshed(t, w, s.files, given, listing); State(f, f)
    case Interrupted(w, cs) => State(Visited(t, w, s.files, cs, |cs|), s.saved)
    case Reload => State(s.saved, s.saved)
    case LostFile => State(map[], map[])
  }

  function After(t: Tools, run: seq<Event>, n: nat): State
    requires n <= |run|
  {
    if n == 0 then State(map[], map[]) else Step(t, After(t, run, n - 1), run[n - 1])
  }

  lemma {:induction false} ReachableIsCoherent(t: Tools, run: seq<Event>, n: nat)
    requires n <= |run| && Injective(t.hash)
    ensures Coherent(t, After(t, run, n).files) && Coherent(t, After(t, run, n).saved)
  {
    if n > 0 {
      ReachableIsCoherent(t, run, n - 1);
      var s, e := After(t, run, n - 1), run[n - 1];
      if e.Refresh? {
        var cs := Candidates(t, e.given, e.listing);
        VisitedAt(t, e.world, s.files, cs, |cs|, "");
      } else if e.Interrupted? {
        VisitedAt(t, e.world, s.files, e.candidates, |e.candidates|, "");
      }
    }
  }

  /** After any run, a full refresh gives the index of a rebuild. */
  lemma {:induction false} AnyRunThenRebuild(t: Tools, run: seq<Event>, w: World, listing: seq<Path>)
    requires Injective(t.hash)
    ensures Step(t, After(t, run, |run|), Refresh(w, None, listing)).files == Rebuilt(t, w, listing)
  {
    ReachableIsCoherent(t, run, |run|);
    FullRefreshIsRebuild(t, w, After(t, run, |run|).files, listing);
  }

  /** A changed file outside the listing enters the index by its path, and no rebuild would have it. */
  lemma {:induction false} IgnoredFileEnters(
      t: Tools, w: World, files: Files, listing: seq<Path>, path: string, p: Path)
    requires Coherent(t, files) && Injective(t.hash)
    requires t.resolve(path) == Some(p) && Source(w, p).Some? && p !in listing
    ensures p in Refreshed(t, w, files, Some([path]), listing) && p !in Rebuilt(t, w, listing)
  {
    PathsAt(t, w, files, [path], listing, p);
    FullAt(t, w, map[], listing, p);
    assert Given(t, [path], p) by { assert [path][0] == path; }
  }
}
