/** The vector index over runs in which embedding calls raise, and refreshes are killed between or
    within their saves and the files loaded again. */
module VectorRuns {
  import opened Wrappers
  import opened VectorIndex

  /** How a refresh ends. A killed one has made `saved` whole saves; with `torn` the chunk file of the next
      save is written and the vector file is not; the cache file knows its first `cached` embeddings. */
  datatype End = Complete | Killed(saved: nat, torn: bool, cached: nat)

  /** One refresh of a run: whose calls raise, the chunks listed, and how it ends. */
  datatype Round = Round(fails: map<Id, string>, chunks: seq<Chunk>, end: End)

  /** The vector file is written, and the chunk file is. */
  predicate Wrote(r: Round) { r.end.Complete? || r.end.saved > 0 }

  predicate Recorded(r: Round) { Wrote(r) || r.end.torn }

  /** How many of the embeddings the vector file and the cache file know. */
  function Reach(r: Round, x: Index): (n: nat)
    ensures n <= |ToEmbed(x, r.chunks)|
  {
    if r.end.Complete? then |ToEmbed(x, r.chunks)| else Min(r.end.saved, |ToEmbed(x, r.chunks)|)
  }

  function CacheReach(r: Round, x: Index): (n: nat)
    ensures n <= |ToEmbed(x, r.chunks)|
  {
    if r.end.Complete? then |ToEmbed(x, r.chunks)| else Min(r.end.cached, |ToEmbed(x, r.chunks)|)
  }

  function Embedded(client: Client, x: Index, r: Round, n: nat): Store
    requires n <= |ToEmbed(x, r.chunks)|
  {
    EmbedAll(client, r.fails, Swept(x, r.chunks).store, Chunks(r.chunks), ToEmbed(x, r.chunks), n)
  }

  /** The index after the round, loaded again when it was killed. */
  function Ended(client: Client, x: Index, r: Round): Index
  {
    Index(
      if Recorded(r) then Chunks(r.chunks) else x.records,
      Store(
        if Wrote(r) then Embedded(client, x, r, Reach(r, x)).vectors else x.store.vectors,
        Embedded(client, x, r, CacheReach(r, x)).cache,
        if r.end.Complete? then Embedded(client, x, r, Reach(r, x)).failures else map[]))
  }

  lemma {:induction false} CompleteIsRefresh(client: Client, x: Index, r: Round)
    requires r.end.Complete?
    ensures Ended(client, x, r) == Refreshed(client, r.fails, x, r.chunks)
  {
    assert Swept(x, r.chunks).records + Chunks(r.chunks) == Chunks(r.chunks);
  }

  // ------------------------------------------------------------------ one round, one id

  /** The round has something to do about `k`: embed its chunk, or remove it. */
  predicate Due(x: Index, chunks: map<Id, Chunk>, k: Id)
  {
    if k in chunks then Outdated(x.records, x.store.vectors, k, chunks[k]) else k in x.records
  }

  /** And the vector file shows that it is done. */
  predicate Done(client: Client, x: Index, r: Round, k: Id)
  {
    var cs, pending, n := Chunks(r.chunks), ToEmbed(x, r.chunks), Reach(r, x);
    && Wrote(r)
    && if k in cs then k in pending[..n] && !RaisedAt(client, r.fails, Swept(x, r.chunks).store, cs, pending, n, k)
       else k in x.records
  }

  /** The vector that the listing calls for, if any. */
  function Target(client: Client, chunks: seq<Chunk>, k: Id): Option<Vector>
  {
    Lookup(Reembedded(client, Chunks(chunks)), k)
  }

  /** Exactly what a round, killed or not, does to the vector of any id. */
  lemma {:induction false} RoundAt(client: Client, x: Index, r: Round, k: Id)
    requires Valid(client, x) && Faithful(client)
    ensures var y := Ended(client, x, r);
      && CacheSound(client, y.store.cache)
      && Lookup(y.store.vectors, k)
         == if Done(client, x, r, k) then Target(client, r.chunks, k) else Lookup(x.store.vectors, k)
    ensures Done(client, x, r, k) ==> Due(x, Chunks(r.chunks), k)
  {
    var cs, pending, n := Chunks(r.chunks), ToEmbed(x, r.chunks), Reach(r, x);
    ToEmbedExact(x, r.chunks);
    EmbedAllAt(client, r.fails, Swept(x, r.chunks).store, cs, pending, n, k);
    CacheStaysSound(client, r.fails, Swept(x, r.chunks).store, cs, pending, CacheReach(r, x));
    if k in pending[..n] { assert k in pending; }
  }

  /** The cache a killed round leaves knows the first `cached` texts to embed, but for calls that raise; and all
      it knew before. So these texts are not sent again. */
  lemma {:induction false} KilledKeepsCache(client: Client, x: Index, r: Round, i: nat, key: string)
    requires r.end.Killed? && i < |ToEmbed(x, r.chunks)|
    ensures var id := ToEmbed(x, r.chunks)[i]; var cache := Ended(client, x, r).store.cache;
      && (i < r.end.cached && id !in r.fails ==> client.key(Input(Chunks(r.chunks)[id])) in cache)
      && (key in x.store.cache ==> key in cache)
  {
    var pending := ToEmbed(x, r.chunks);
    CacheHas(client, r.fails, Swept(x, r.chunks).store, Chunks(r.chunks), pending, CacheReach(r, x), i, key);
  }

  lemma {:induction false} CacheHas(
      client: Client, fails: map<Id, string>, s: Store, chunks: map<Id, Chunk>, pending: seq<Id>, n: nat, i: nat,
      key: string)
    requires n <= |pending| && i < |pending| && forall k :: k in pending ==> k in chunks
    ensures var cache := EmbedAll(client, fails, s, chunks, pending, n).cache;
      && (i < n && pending[i] !in fails ==> client.key(Input(chunks[pending[i]])) in cache)
      && (key in s.cache ==> key in cache)
  {
    if n > 0 { CacheHas(client, fails, s, chunks, pending, n - 1, i, key); }
  }

  lemma {:induction false} RoundValid(client: Client, x: Index, r: Round)
    requires Valid(client, x) && Faithful(client) && AllHonest(client, Chunks(r.chunks))
    ensures Valid(client, Ended(client, x, r))
  {
    RoundAt(client, x, r, "");
  }

  /** In a complete round everything due is done but for the calls that raise. */
  lemma {:induction false} CompleteDone(client: Client, x: Index, r: Round, k: Id)
    requires r.end.Complete?
    ensures Done(client, x, r, k) <==> Due(x, Chunks(r.chunks), k) && !Failed(client, r.fails, x, r.chunks, k)
    ensures Failed(client, r.fails, x, r.chunks, k) ==>
      k in Chunks(r.chunks) && k in r.fails && Due(x, Chunks(r.chunks), k)
  {
    var pending := ToEmbed(x, r.chunks);
    ToEmbedExact(x, r.chunks);
    assert pending[..|pending|] == pending;
    if Failed(client, r.fails, x, r.chunks, k) {
      RaisedIsPending(client, r.fails, Swept(x, r.chunks).store, Chunks(r.chunks), pending, |pending|, k);
    }
  }

  // --------------------------------------------------------------------------- runs

  /** The index after the first `n` rounds. */
  function Later(client: Client, x: Index, run: seq<Round>, n: nat): Index
    requires n <= |run|
  {
    if n == 0 then x else Ended(client, Later(client, x, run, n - 1), run[n - 1])
  }

  predicate DoneIn(client: Client, x: Index, run: seq<Round>, i: nat, k: Id)
    requires i < |run|
  {
    Done(client, Later(client, x, run, i), run[i], k)
  }

  predicate DoneWithin(client: Client, x: Index, run: seq<Round>, n: nat, k: Id)
    requires n <= |run|
  {
    n > 0 && (DoneIn(client, x, run, n - 1, k) || DoneWithin(client, x, run, n - 1, k))
  }

  /** Each of the first `n` rounds lists honest chunks, and `k` among them with this hash. */
  ghost predicate Lists(client: Client, run: seq<Round>, n: nat, k: Id, hash: string)
    requires n <= |run|
  {
    n == 0 || (Lists(client, run, n - 1, k, hash) && ListedAs(client, run[n - 1], k, hash))
  }

  ghost predicate ListedAs(client: Client, r: Round, k: Id, hash: string)
  {
    AllHonest(client, Chunks(r.chunks)) && k in Chunks(r.chunks) && Chunks(r.chunks)[k].hash == hash
  }

  /** From `x` to `y` the chunk stays as recorded: a vector it had is never replaced, right or wrong, and
      one it lacked is there exactly when some round embedded and saved it. */
  ghost predicate Keeps(client: Client, x: Index, y: Index, k: Id, done: bool)
  {
    && Valid(client, y) && k in x.records && k in y.records && y.records[k].hash == x.records[k].hash
    && Lookup(y.store.vectors, k) ==
         if k in x.store.vectors then Some(x.store.vectors[k])
         else if done then Some(client.embed(Input(x.records[k])))
         else None
  }

  lemma {:induction false} KeepsOnward(client: Client, x: Index, y: Index, z: Index, k: Id, done: bool, next: bool)
    requires Faithful(client) && Valid(client, x) && Keeps(client, x, y, k, done) && Keeps(client, y, z, k, next)
    ensures Keeps(client, x, z, k, done || next)
  {
    SameHashSameInput(client, x.records[k], y.records[k]);
  }

  lemma {:induction false} EndedKeeps(client: Client, r: Round, y: Index, k: Id)
    requires Valid(client, y) && Faithful(client) && k in y.records && ListedAs(client, r, k, y.records[k].hash)
    ensures Keeps(client, y, Ended(client, y, r), k, Done(client, y, r, k))
  {
    RoundAt(client, y, r, k);
    RoundValid(client, y, r);
    SameHashSameInput(client, y.records[k], Chunks(r.chunks)[k]);
  }

  lemma {:induction false} RoundKeeps(client: Client, x: Index, r: Round, y: Index, k: Id, done: bool)
    requires Faithful(client) && Valid(client, x) && Keeps(client, x, y, k, done)
    requires ListedAs(client, r, k, x.records[k].hash)
    ensures Keeps(client, x, Ended(client, y, r), k, done || Done(client, y, r, k))
  {
    EndedKeeps(client, r, y, k);
    KeepsOnward(client, x, y, Ended(client, y, r), k, done, Done(client, y, r, k));
  }

  /** What every round keeps that lists the chunk with this hash, a run of such rounds keeps. */
  lemma {:induction false} RunKeeps(
      client: Client, x: Index, run: seq<Round>, n: nat, k: Id, hash: string, keep: (Index, bool) -> bool)
    requires n <= |run| && Lists(client, run, n, k, hash) && keep(x, false)
    requires forall r, y, done :: ListedAs(client, r, k, hash) && keep(y, done) ==>
               keep(Ended(client, y, r), done || Done(client, y, r, k))
    ensures keep(Later(client, x, run, n), DoneWithin(client, x, run, n, k))
  {
    if n > 0 { RunKeeps(client, x, run, n - 1, k, hash, keep); }
  }

  /** While a chunk stays as recorded, a vector it has is never replaced, right or wrong; one it lacks is
      there from the first round that embeds and saves it. */
  lemma {:induction false} VectorWhileUnchanged(client: Client, x: Index, run: seq<Round>, n: nat, k: Id)
    requires n <= |run| && Valid(client, x) && Faithful(client)
    requires k in x.records && Lists(client, run, n, k, x.records[k].hash)
    ensures Keeps(client, x, Later(client, x, run, n), k, DoneWithin(client, x, run, n, k))
  {
    var hash := x.records[k].hash;
    forall r, y, done | ListedAs(client, r, k, hash) && Keeps(client, x, y, k, done)
      ensures Keeps(client, x, Ended(client, y, r), k, done || Done(client, y, r, k))
    {
      RoundKeeps(client, x, r, y, k, done);
    }
    RunKeeps(client, x, run, n, k, hash, (y, done) => Keeps(client, x, y, k, done));
  }

  /** The round records the change of `k` but does not complete it: its call raised, or the round was killed
      in between. */
  predicate Missed(client: Client, x: Index, r: Round, k: Id)
  {
    Recorded(r) && Due(x, Chunks(r.chunks), k) && !Done(client, x, r, k)
  }

  /** When a round misses a changed chunk, the old vector stays through every later run that lists the chunk
      unchanged, whatever else these rounds list, whichever calls raise and however they end. */
  lemma {:induction false} StaleVectorStays(client: Client, x: Index, r: Round, k: Id, run: seq<Round>)
    requires Sound(client, x) && Faithful(client) && AllHonest(client, Chunks(r.chunks))
    requires k in Chunks(r.chunks) && k in x.store.vectors && Missed(client, x, r, k)
    requires Lists(client, run, |run|, k, Chunks(r.chunks)[k].hash)
    ensures var z := Later(client, Ended(client, x, r), run, |run|);
      && k in z.records && z.records[k].hash == Chunks(r.chunks)[k].hash
      && Lookup(z.store.vectors, k) == Some(client.embed(Input(x.records[k])))
  {
    RoundAt(client, x, r, k);
    RoundValid(client, x, r);
    VectorWhileUnchanged(client, Ended(client, x, r), run, |run|, k);
    assert UpToDate(client, x, k);
  }

  // ------------------------------------------------- the same chunks again and again

  /** The first `n` rounds all list these chunks. */
  predicate Repeats(run: seq<Round>, n: nat, chunks: seq<Chunk>)
    requires n <= |run|
  {
    n == 0 || (Repeats(run, n - 1, chunks) && run[n - 1].chunks == chunks)
  }

  lemma {:induction false} SettledStays(client: Client, y: Index, r: Round, k: Id)
    requires Valid(client, y) && Faithful(client) && !Due(y, Chunks(r.chunks), k)
    ensures !Due(Ended(client, y, r), Chunks(r.chunks), k) && !Done(client, y, r, k)
  {
    RoundAt(client, y, r, k);
  }

  lemma {:induction false} DoneSettles(client: Client, y: Index, r: Round, k: Id)
    requires Valid(client, y) && Faithful(client) && Done(client, y, r, k)
    ensures !Due(Ended(client, y, r), Chunks(r.chunks), k)
  {
    RoundAt(client, y, r, k);
  }

  /** Nothing is done about an id that has nothing due, and what is done is done once. */
  lemma {:induction false} WhenDone(client: Client, x: Index, run: seq<Round>, n: nat, chunks: seq<Chunk>, k: Id)
    requires n <= |run| && Repeats(run, n, chunks) && Valid(client, x) && Faithful(client)
    requires AllHonest(client, Chunks(chunks))
    ensures Valid(client, Later(client, x, run, n))
    ensures !Due(x, Chunks(chunks), k) || DoneWithin(client, x, run, n, k) ==>
      !Due(Later(client, x, run, n), Chunks(chunks), k)
    ensures !Due(x, Chunks(chunks), k) ==> !DoneWithin(client, x, run, n, k)
    ensures Lookup(Later(client, x, run, n).store.vectors, k)
         == if DoneWithin(client, x, run, n, k) then Target(client, chunks, k) else Lookup(x.store.vectors, k)
  {
    if n > 0 {
      WhenDone(client, x, run, n - 1, chunks, k);
      var y, r := Later(client, x, run, n - 1), run[n - 1];
      RoundValid(client, y, r);
      RoundAt(client, y, r, k);
      if Due(y, Chunks(chunks), k) {
        if Done(client, y, r, k) { DoneSettles(client, y, r, k); }
      } else {
        SettledStays(client, y, r, k);
      }
    }
  }

  /** Over any run that lists the same chunks again and again, the vectors end as those of a fresh embedding
      exactly when each id had the right vector, or none where none belongs, or some round completed it. */
  lemma {:induction false} RunRepairsIff(client: Client, x: Index, run: seq<Round>, chunks: seq<Chunk>)
    requires Repeats(run, |run|, chunks) && Valid(client, x) && Faithful(client) && AllHonest(client, Chunks(chunks))
    ensures Later(client, x, run, |run|).store.vectors == Reembedded(client, Chunks(chunks))
      <==> (forall k :: Lookup(x.store.vectors, k) == Target(client, chunks, k) || DoneWithin(client, x, run, |run|, k))
  {
    var a, b := Later(client, x, run, |run|).store.vectors, Reembedded(client, Chunks(chunks));
    forall k ensures Lookup(a, k) == Lookup(b, k)
      <==> (Lookup(x.store.vectors, k) == Target(client, chunks, k) || DoneWithin(client, x, run, |run|, k))
    {
      WhenDone(client, x, run, |run|, chunks, k);
    }
    if forall k :: Lookup(a, k) == Lookup(b, k) { SameLookups(a, b); }
  }

  /** After a round that recorded its chunks, any later run of the same chunks repairs a sound index exactly
      when each id that was missed had the right vector all the same, or had none and is completed later:
      a missed chunk keeps an earlier vector, and a vector missed at its removal stays, for good. */
  lemma {:induction false} LaterRoundsRepairIff(client: Client, x: Index, r: Round, later: seq<Round>)
    requires Sound(client, x) && Faithful(client) && AllHonest(client, Chunks(r.chunks))
    requires Recorded(r) && Repeats(later, |later|, r.chunks)
    ensures Later(client, Ended(client, x, r), later, |later|).store.vectors == Reembedded(client, Chunks(r.chunks))
      <==> (forall k :: Missed(client, x, r, k) ==> Recovers(client, x, r, later, k))
  {
    var y := Ended(client, x, r);
    RoundValid(client, x, r);
    RunRepairsIff(client, y, later, r.chunks);
    forall k ensures (Missed(client, x, r, k) ==> Recovers(client, x, r, later, k))
      <==> (Lookup(y.store.vectors, k) == Target(client, r.chunks, k) || DoneWithin(client, y, later, |later|, k))
    {
      AfterFirst(client, x, r, later, k);
    }
  }

  predicate Recovers(client: Client, x: Index, r: Round, later: seq<Round>, k: Id)
  {
    || Lookup(x.store.vectors, k) == Target(client, r.chunks, k)
    || (k !in x.store.vectors && DoneWithin(client, Ended(client, x, r), later, |later|, k))
  }

  lemma {:induction false} AfterFirst(client: Client, x: Index, r: Round, later: seq<Round>, k: Id)
    requires Sound(client, x) && Faithful(client) && AllHonest(client, Chunks(r.chunks))
    requires Recorded(r) && Repeats(later, |later|, r.chunks)
    ensures var y := Ended(client, x, r);
      (Missed(client, x, r, k) ==> Recovers(client, x, r, later, k))
      <==> (Lookup(y.store.vectors, k) == Target(client, r.chunks, k) || DoneWithin(client, y, later, |later|, k))
  {
    var y, cs := Ended(client, x, r), Chunks(r.chunks);
    RoundValid(client, x, r);
    RoundAt(client, x, r, k);
    if !Due(x, cs, k) {
      SoundIsRight(client, x, r.chunks, k);
    } else if !Done(client, x, r, k) && k in x.store.vectors {
      assert !Due(y, cs, k);
      WhenDone(client, y, later, |later|, r.chunks, k);
    }
  }

  lemma {:induction false} SoundIsRight(client: Client, x: Index, chunks: seq<Chunk>, k: Id)
    requires Sound(client, x) && Faithful(client) && AllHonest(client, Chunks(chunks)) && !Due(x, Chunks(chunks), k)
    ensures Lookup(x.store.vectors, k) == Target(client, chunks, k)
  {
    if k in x.store.vectors {
      assert UpToDate(client, x, k);
      SameHashSameInput(client, x.records[k], Chunks(chunks)[k]);
    }
  }

  /** One complete refresh without failed calls, after one with some, repairs a sound index exactly when no
      failed chunk still had an earlier, different vector. */
  lemma {:induction false} LaterRefreshRepairsIff(client: Client, fails: map<Id, string>, x: Index, chunks: seq<Chunk>)
    requires Sound(client, x) && Faithful(client) && AllHonest(client, Chunks(chunks))
    ensures Refreshed(client, map[], Refreshed(client, fails, x, chunks), chunks).store.vectors ==
      Reembedded(client, Chunks(chunks))
      <==> (forall k :: Failed(client, fails, x, chunks, k) && k in x.store.vectors ==>
             Lookup(x.store.vectors, k) == Target(client, chunks, k))
  {
    var r, last := Round(fails, chunks, Complete), Round(map[], chunks, Complete);
    var y, later := Ended(client, x, r), [last];
    CompleteIsRefresh(client, x, r);
    CompleteIsRefresh(client, y, last);
    assert Later(client, y, later, 0) == y && Later(client, y, later, 1) == Ended(client, y, last);
    assert Repeats(later, 0, chunks) && Repeats(later, 1, chunks);
    LaterRoundsRepairIff(client, x, r, later);
    RoundValid(client, x, r);
    forall k ensures (Missed(client, x, r, k) ==> Recovers(client, x, r, later, k))
      <==> (Failed(client, fails, x, chunks, k) && k in x.store.vectors ==>
              Lookup(x.store.vectors, k) == Target(client, chunks, k))
    {
      CompleteDone(client, x, r, k);
      CompleteDone(client, y, last, k);
      RoundAt(client, x, r, k);
      assert DoneWithin(client, y, later, 1, k)
        <==> DoneIn(client, y, later, 0, k) || DoneWithin(client, y, later, 0, k);
    }
  }

  /** There are such cases: the only chunk's text changes and the call for the new text raises once. */
  lemma {:induction false} OnlyChunkStaysStale(client: Client, x: Index, c: Chunk, message: string, run: seq<Round>)
    requires Sound(client, x) && Faithful(client) && Honest(client, c)
    requires c.id in x.store.vectors && x.records[c.id].hash != c.hash && client.key(Input(c)) !in x.store.cache
    requires Lists(client, run, |run|, c.id, c.hash)
    ensures var z := Later(client, Ended(client, x, Round(map[c.id := message], [c], Complete)), run, |run|);
      Lookup(z.store.vectors, c.id) == Some(client.embed(Input(x.records[c.id])))
  {
    var pending, r := ToEmbed(x, [c]), Round(map[c.id := message], [c], Complete);
    OneChunk(c);
    ToEmbedExact(x, [c]);
    assert c.id in pending && UpToDate(client, x, c.id);
    OnlyOne(pending, c.id);
    OnlyCall(client, r.fails, Swept(x, [c]).store, c);
    CompleteDone(client, x, r, c.id);
    StaleVectorStays(client, x, r, c.id, run);
  }

  /** And a kill alone is enough, even when the cache knows the new text: the chunk file is written with the
      first save, whatever is still to be embedded. */
  lemma {:induction false} KilledStaysStale(client: Client, x: Index, r: Round, k: Id, run: seq<Round>)
    requires Sound(client, x) && Faithful(client) && AllHonest(client, Chunks(r.chunks))
    requires k in Chunks(r.chunks) && k in x.store.vectors && x.records[k].hash != Chunks(r.chunks)[k].hash
    requires r.end.Killed? && Recorded(r) && k !in ToEmbed(x, r.chunks)[..Reach(r, x)]
    requires Lists(client, run, |run|, k, Chunks(r.chunks)[k].hash)
    ensures Lookup(Later(client, Ended(client, x, r), run, |run|).store.vectors, k) ==
      Some(client.embed(Input(x.records[k])))
  {
    assert UpToDate(client, x, k);
    StaleVectorStays(client, x, r, k, run);
  }

  lemma {:induction false} OnlyOne(s: seq<Id>, id: Id)
    requires id in s && forall k :: k in s ==> k == id
    requires forall i, j :: 0 <= i < j < |s| ==> s[i] != s[j]
    ensures s == [id]
  {
    assert s[0] in s && s[|s| - 1] in s;
  }

  lemma {:induction false} OneChunk(c: Chunk)
    ensures Chunks([c]) == map[c.id := c]
  {
    assert ById([c], 0) == map[];
  }

  lemma {:induction false} OnlyCall(client: Client, fails: map<Id, string>, s: Store, c: Chunk)
    requires client.key(Input(c)) !in s.cache && c.id in fails
    ensures RaisedAt(client, fails, s, map[c.id := c], [c.id], 1, c.id)
  {
    assert EmbedAll(client, fails, s, map[c.id := c], [c.id], 0) == s;
  }
}
