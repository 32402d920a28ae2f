/** The incremental vector index: one record and one vector per chunk, re-embedded when the chunk's
    content hash changes, with a cache of embeddings by text. */
module VectorIndex {
  import opened Wrappers

  type Id = string

  type Vector = seq<real>

  datatype Chunk = Chunk(id: Id, path: string, first: nat, last: nat, symbol: string, hash: string, text: string)

  /** One embedding client: its embeddings, its cache keys, and the content hash chunks carry. */
  datatype Client = Client(embed: string -> Vector, key: string -> string, hash: string -> string)

  datatype Store = Store(vectors: map<Id, Vector>, cache: map<string, Vector>, failures: map<Id, string>)

  datatype Index = Index(records: map<Id, Chunk>, store: Store)

  const MaxText := 2000

  function Input(c: Chunk): string { if |c.text| <= MaxText then c.text else c.text[..MaxText] }

  /** The chunks by id; the last one wins. */
  function ById(chunks: seq<Chunk>, n: nat): map<Id, Chunk>
    requires n <= |chunks|
  {
    if n == 0 then map[] else ById(chunks, n - 1)[chunks[n - 1].id := chunks[n - 1]]
  }

  /** Their ids in order of first appearance. */
  function Ids(chunks: seq<Chunk>, n: nat): seq<Id>
    requires n <= |chunks|
  {
    if n == 0 then []
    else if chunks[n - 1].id in Ids(chunks, n - 1) then Ids(chunks, n - 1)
    else Ids(chunks, n - 1) + [chunks[n - 1].id]
  }

  predicate Outdated(records: map<Id, Chunk>, vectors: map<Id, Vector>, id: Id, c: Chunk)
  {
    id !in records || records[id].hash != c.hash || id !in vectors
  }

  /** The chunks to embed, in order. */
  function Pending(
      records: map<Id, Chunk>, vectors: map<Id, Vector>, chunks: map<Id, Chunk>, ids: seq<Id>, n: nat): seq<Id>
    requires n <= |ids| && forall k :: k in ids ==> k in chunks
  {
    if n == 0 then []
    else
      var rest := Pending(records, vectors, chunks, ids, n - 1);
      if Outdated(records, vectors, ids[n - 1], chunks[ids[n - 1]]) then rest + [ids[n - 1]] else rest
  }

  /** One embedding, unless the cache knows it; `fails` tells whose call of the client raises. */
  function EmbedOne(client: Client, fails: map<Id, string>, s: Store, id: Id, c: Chunk): Store
  {
    var key := client.key(Input(c));
    if key in s.cache then s.(vectors := s.vectors[id := s.cache[key]])
    else if id in fails then s.(failures := s.failures[id := fails[id]])
    else
      var v := client.embed(Input(c));
      s.(vectors := s.vectors[id := v], cache := s.cache[key := v])
  }

  predicate Raises(client: Client, fails: map<Id, string>, s: Store, id: Id, c: Chunk)
  {
    client.key(Input(c)) !in s.cache && id in fails
  }

  function EmbedAll(
      client: Client, fails: map<Id, string>, s: Store, chunks: map<Id, Chunk>, pending: seq<Id>, n: nat): Store
    requires n <= |pending| && forall k :: k in pending ==> k in chunks
  {
    if n == 0 then s
    else
      var before := EmbedAll(client, fails, s, chunks, pending, n - 1);
      EmbedOne(client, fails, before, pending[n - 1], chunks[pending[n - 1]])
  }

  /** How many of the embeddings succeed. */
  function Successes(
      client: Client, fails: map<Id, string>, s: Store, chunks: map<Id, Chunk>, pending: seq<Id>, n: nat): nat
    requires n <= |pending| && forall k :: k in pending ==> k in chunks
  {
    if n == 0 then 0
    else
      var before := EmbedAll(client, fails, s, chunks, pending, n - 1);
      Successes(client, fails, s, chunks, pending, n - 1)
      + if Raises(client, fails, before, pending[n - 1], chunks[pending[n - 1]]) then 0 else 1
  }

  // ---------------------------------------------------------------- one refresh

  function Chunks(chunks: seq<Chunk>): map<Id, Chunk> { ById(chunks, |chunks|) }

  function Gone(x: Index, chunks: seq<Chunk>): set<Id> { x.records.Keys - Chunks(chunks).Keys }

  /** The index once the records and vectors of vanished chunks are removed. */
  function Swept(x: Index, chunks: seq<Chunk>): Index
  {
    Index(x.records - Gone(x, chunks), x.store.(vectors := x.store.vectors - Gone(x, chunks)))
  }

  function ToEmbed(x: Index, chunks: seq<Chunk>): (r: seq<Id>)
    ensures forall k :: k in r ==> k in Chunks(chunks)
  {
    var ids := Ids(chunks, |chunks|);
    IdsAreKeys(chunks, |chunks|);
    var y := Swept(x, chunks);
    PendingSound(y.records, y.store.vectors, Chunks(chunks), ids, |ids|);
    Pending(y.records, y.store.vectors, Chunks(chunks), ids, |ids|)
  }

  /** The index after a refresh. */
  function Refreshed(client: Client, fails: map<Id, string>, x: Index, chunks: seq<Chunk>): Index
  {
    var y := Swept(x, chunks);
    var pending := ToEmbed(x, chunks);
    Index(y.records + Chunks(chunks), EmbedAll(client, fails, y.store, Chunks(chunks), pending, |pending|))
  }

  class LocalVectorIndex {
    var records: map<Id, Chunk>
    var vectors: map<Id, Vector>
    var cache: map<string, Vector>
    var failures: map<Id, string>

    ghost function State(): Index
      reads this
    {
      Index(records, Store(vectors, cache, failures))
    }

    constructor ()
      ensures State() == Index(map[], Store(map[], map[], map[]))
    {
      records, vectors, cache, failures := map[], map[], map[], map[];
    }

    method Refresh(client: Client, fails: map<Id, string>, list: seq<Chunk>) returns (chunks: nat, embedded: nat)
      modifies this
      ensures State() == Refreshed(client, fails, old(State()), list)
      ensures chunks == |records|
      ensures var pending := ToEmbed(old(State()), list);
        embedded == Successes(client, fails, Swept(old(State()), list).store, Chunks(list), pending, |pending|)
    {
      var byId, ids := Collect(list);
      ghost var x := State();
      Sweep(byId);
      assert State() == Swept(x, list);
      IdsAreKeys(list, |list|);
      var pending := Mark(byId, ids);
      assert pending == ToEmbed(x, list);
      embedded := Embed(client, fails, byId, pending);
      chunks := |records|;
    }

    method Collect(list: seq<Chunk>) returns (byId: map<Id, Chunk>, ids: seq<Id>)
      ensures byId == Chunks(list) && ids == Ids(list, |list|)
    {
      byId, ids := map[], [];
      for k := 0 to |list|
        invariant byId == ById(list, k) && ids == Ids(list, k)
      {
        byId := byId[list[k].id := list[k]];
        if list[k].id !in ids { ids := ids + [list[k].id]; }
      }
    }

    method Sweep(byId: map<Id, Chunk>)
      modifies this`records, this`vectors
      ensures records == old(records) - (old(records).Keys - byId.Keys)
      ensures vectors == old(vectors) - (old(records).Keys - byId.Keys)
    {
      var rest := records.Keys - byId.Keys;
      ghost var gone := rest;
      WithoutEnds(records, gone);
      WithoutEnds(vectors, gone);
      while rest != {}
        invariant rest <= gone
        invariant records == WithoutGone(old(records), gone, rest) && vectors == WithoutGone(old(vectors), gone, rest)
        decreases |rest|
      {
        var id :| id in rest;
        WithoutStep(old(records), gone, rest, id);
        WithoutStep(old(vectors), gone, rest, id);
        records, vectors, rest := records - {id}, vectors - {id}, rest - {id};
      }
    }

    /** Every record takes the current chunk before anything is embedded. */
    method Mark(byId: map<Id, Chunk>, ids: seq<Id>) returns (pending: seq<Id>)
      requires forall k :: k in ids <==> k in byId
      requires forall i, j :: 0 <= i < j < |ids| ==> ids[i] != ids[j]
      modifies this`records
      ensures records == old(records) + byId
      ensures pending == Pending(old(records), vectors, byId, ids, |ids|)
    {
      pending := [];
      for k := 0 to |ids|
        invariant records == Marked(old(records), byId, ids, k)
        invariant pending == Pending(old(records), vectors, byId, ids, k)
      {
        MarkedAt(old(records), byId, ids, k, ids[k]);
        if ids[k] !in records || records[ids[k]].hash != byId[ids[k]].hash || ids[k] !in vectors {
          pending := pending + [ids[k]];
        }
        records := records[ids[k] := byId[ids[k]]];
      }
      MarkedAll(old(records), byId, ids);
    }

    method Embed(client: Client, fails: map<Id, string>, byId: map<Id, Chunk>, pending: seq<Id>) returns (embedded: nat)
      requires forall k :: k in pending ==> k in byId
      modifies this`vectors, this`cache, this`failures
      ensures State().store == EmbedAll(client, fails, old(State().store), byId, pending, |pending|)
      ensures embedded == Successes(client, fails, old(State().store), byId, pending, |pending|)
    {
      embedded := 0;
      for k := 0 to |pending|
        invariant State().store == EmbedAll(client, fails, old(State().store), byId, pending, k)
        invariant embedded == Successes(client, fails, old(State().store), byId, pending, k)
      {
        var ok := EmbedChunk(client, fails, pending[k], byId[pending[k]]);
        if ok { embedded := embedded + 1; }
      }
    }

    method EmbedChunk(client: Client, fails: map<Id, string>, id: Id, c: Chunk) returns (ok: bool)
      modifies this`vectors, this`cache, this`failures
      ensures State().store == EmbedOne(client, fails, old(State().store), id, c)
      ensures ok <==> !Raises(client, fails, old(State().store), id, c)
    {
      var text := Input(c);
      var key := client.key(text);
      if key in cache {
        vectors := vectors[id := cache[key]];
      } else if id in fails {
        failures := failures[id := fails[id]];
        return false;
      } else {
        var vector := client.embed(text);
        cache := cache[key := vector];
        vectors := vectors[id := vector];
      }
      return true;
    }
  }

  function WithoutGone<V>(m: map<Id, V>, gone: set<Id>, rest: set<Id>): map<Id, V>
  {
    map k | k in m && (k !in gone || k in rest) :: m[k]
  }

  lemma {:induction false} WithoutStep<V>(m: map<Id, V>, gone: set<Id>, rest: set<Id>, id: Id)
    requires id in gone
    ensures WithoutGone(m, gone, rest) - {id} == WithoutGone(m, gone, rest - {id})
  {
  }

  lemma {:induction false} WithoutEnds<V>(m: map<Id, V>, gone: set<Id>)
    ensures WithoutGone(m, gone, gone) == m && WithoutGone(m, gone, {}) == m - gone
  {
  }

  function Marked(records: map<Id, Chunk>, byId: map<Id, Chunk>, ids: seq<Id>, n: nat): map<Id, Chunk>
    requires n <= |ids| && forall k :: k in ids ==> k in byId
  {
    if n == 0 then records else Marked(records, byId, ids, n - 1)[ids[n - 1] := byId[ids[n - 1]]]
  }

  lemma {:induction false} MarkedAt(records: map<Id, Chunk>, byId: map<Id, Chunk>, ids: seq<Id>, n: nat, k: Id)
    requires n <= |ids| && forall k :: k in ids ==> k in byId
    ensures Lookup(Marked(records, byId, ids, n), k) == if k in ids[..n] then Some(byId[k]) else Lookup(records, k)
  {
    if n > 0 {
      MarkedAt(records, byId, ids, n - 1, k);
      assert ids[..n] == ids[..n - 1] + [ids[n - 1]];
    }
  }

  lemma {:induction false} MarkedAll(records: map<Id, Chunk>, byId: map<Id, Chunk>, ids: seq<Id>)
    requires forall k :: k in ids <==> k in byId
    ensures Marked(records, byId, ids, |ids|) == records + byId
  {
    forall k ensures Lookup(Marked(records, byId, ids, |ids|), k) == Lookup(records + byId, k) {
      MarkedAt(records, byId, ids, |ids|, k);
      assert ids[..|ids|] == ids;
    }
    SameLookups(Marked(records, byId, ids, |ids|), records + byId);
  }

  lemma {:induction false} IdsAreKeys(chunks: seq<Chunk>, n: nat)
    requires n <= |chunks|
    ensures forall k :: k in Ids(chunks, n) <==> k in ById(chunks, n)
    ensures forall i, j :: 0 <= i < j < |Ids(chunks, n)| ==> Ids(chunks, n)[i] != Ids(chunks, n)[j]
  {
    if n > 0 { IdsAreKeys(chunks, n - 1); }
  }

  lemma {:induction false} PendingSound(
      records: map<Id, Chunk>, vectors: map<Id, Vector>, chunks: map<Id, Chunk>, ids: seq<Id>, n: nat)
    requires n <= |ids| && forall k :: k in ids ==> k in chunks
    ensures var p := Pending(records, vectors, chunks, ids, n);
      forall k :: k in p ==> k in ids && k in chunks
  {
    if n > 0 {
      PendingSound(records, vectors, chunks, ids, n - 1);
    }
  }

  /** What is pending is exactly what is outdated, each once. */
  lemma {:induction false} PendingExact(
      records: map<Id, Chunk>, vectors: map<Id, Vector>, chunks: map<Id, Chunk>, ids: seq<Id>, n: nat)
    requires n <= |ids| && forall k :: k in ids ==> k in chunks
    requires forall i, j :: 0 <= i < j < |ids| ==> ids[i] != ids[j]
    ensures var p := Pending(records, vectors, chunks, ids, n);
      && (forall i, j :: 0 <= i < j < |p| ==> p[i] != p[j])
      && (forall k :: k in p <==> k in ids[..n] && k in chunks && Outdated(records, vectors, k, chunks[k]))
  {
    if n > 0 {
      PendingExact(records, vectors, chunks, ids, n - 1);
      assert ids[..n] == ids[..n - 1] + [ids[n - 1]];
      assert ids[n - 1] !in ids[..n - 1];
    }
  }

  lemma {:induction false} ToEmbedExact(x: Index, chunks: seq<Chunk>)
    ensures var p := ToEmbed(x, chunks);
      && (forall i, j :: 0 <= i < j < |p| ==> p[i] != p[j])
      && (forall k :: k in p <==> k in Chunks(chunks) && Outdated(x.records, x.store.vectors, k, Chunks(chunks)[k]))
  {
    var ids := Ids(chunks, |chunks|);
    var y := Swept(x, chunks);
    IdsAreKeys(chunks, |chunks|);
    PendingExact(y.records, y.store.vectors, Chunks(chunks), ids, |ids|);
    assert ids[..|ids|] == ids;
  }

  // ------------------------------------------------ agreeing with a fresh embedding

  ghost predicate Faithful(client: Client) { Injective(client.key) && Injective(client.hash) }

  /** A chunk carries the hash of its text. */
  predicate Honest(client: Client, c: Chunk) { c.hash == client.hash(c.text) }

  ghost predicate AllHonest(client: Client, chunks: map<Id, Chunk>)
  {
    forall k :: k in chunks ==> Honest(client, chunks[k])
  }

  ghost predicate CacheSound(client: Client, cache: map<string, Vector>)
  {
    forall text :: client.key(text) in cache ==> cache[client.key(text)] == client.embed(text)
  }

  /** What every refresh keeps, failures or not. */
  ghost predicate Valid(client: Client, x: Index)
  {
    CacheSound(client, x.store.cache) && AllHonest(client, x.records)
  }

  predicate UpToDate(client: Client, x: Index, k: Id)
  {
    k in x.store.vectors && k in x.records && x.store.vectors[k] == client.embed(Input(x.records[k]))
  }

  /** And every vector is that of its record. */
  ghost predicate Sound(client: Client, x: Index)
  {
    Valid(client, x) && forall k :: k in x.store.vectors ==> UpToDate(client, x, k)
  }

  /** Every current chunk embedded afresh. */
  function Reembedded(client: Client, chunks: map<Id, Chunk>): map<Id, Vector>
  {
    map k | k in chunks :: client.embed(Input(chunks[k]))
  }

  lemma {:induction false} EmbedOneAt(client: Client, fails: map<Id, string>, s: Store, id: Id, c: Chunk)
    requires CacheSound(client, s.cache) && Injective(client.key)
    ensures var t := EmbedOne(client, fails, s, id, c);
      && CacheSound(client, t.cache)
      && (forall k :: k != id ==> Lookup(t.vectors, k) == Lookup(s.vectors, k))
      && Lookup(t.vectors, id)
         == if Raises(client, fails, s, id, c) then Lookup(s.vectors, id) else Some(client.embed(Input(c)))
  {
  }

  /** Whether the embedding of chunk `k` raises in the first `n` calls. */
  predicate RaisedAt(
      client: Client, fails: map<Id, string>, s: Store, chunks: map<Id, Chunk>, pending: seq<Id>, n: nat, k: Id)
    requires n <= |pending| && forall k :: k in pending ==> k in chunks
  {
    && n > 0
    && (if pending[n - 1] == k then
          Raises(client, fails, EmbedAll(client, fails, s, chunks, pending, n - 1), k, chunks[k])
        else RaisedAt(client, fails, s, chunks, pending, n - 1, k))
  }

  lemma {:induction false} CacheStaysSound(
      client: Client, fails: map<Id, string>, s: Store, chunks: map<Id, Chunk>, pending: seq<Id>, n: nat)
    requires n <= |pending| && forall k :: k in pending ==> k in chunks
    requires CacheSound(client, s.cache) && Injective(client.key)
    ensures CacheSound(client, EmbedAll(client, fails, s, chunks, pending, n).cache)
  {
    if n > 0 {
      CacheStaysSound(client, fails, s, chunks, pending, n - 1);
      var before := EmbedAll(client, fails, s, chunks, pending, n - 1);
      EmbedOneAt(client, fails, before, pending[n - 1], chunks[pending[n - 1]]);
    }
  }

  /** A pending chunk gets the embedding of its text unless its call raised; all else stays. */
  lemma {:induction false} EmbedAllAt(
      client: Client, fails: map<Id, string>, s: Store, chunks: map<Id, Chunk>, pending: seq<Id>, n: nat, k: Id)
    requires n <= |pending| && forall k :: k in pending ==> k in chunks
    requires forall i, j :: 0 <= i < j < |pending| ==> pending[i] != pending[j]
    requires CacheSound(client, s.cache) && Injective(client.key)
    ensures Lookup(EmbedAll(client, fails, s, chunks, pending, n).vectors, k) ==
      if k in pending[..n] && !RaisedAt(client, fails, s, chunks, pending, n, k) then
        Some(client.embed(Input(chunks[k])))
      else Lookup(s.vectors, k)
  {
    if n > 0 {
      EmbedAllAt(client, fails, s, chunks, pending, n - 1, k);
      LastOf(pending, n, k);
      var before := EmbedAll(client, fails, s, chunks, pending, n - 1);
      CacheStaysSound(client, fails, s, chunks, pending, n - 1);
      EmbedOneAt(client, fails, before, pending[n - 1], chunks[pending[n - 1]]);
    }
  }

  lemma {:induction false} LastOf(s: seq<Id>, n: nat, k: Id)
    requires 0 < n <= |s| && forall i, j :: 0 <= i < j < |s| ==> s[i] != s[j]
    ensures k in s[..n] <==> k == s[n - 1] || k in s[..n - 1]
    ensures s[n - 1] !in s[..n - 1]
  {
    assert s[..n] == s[..n - 1] + [s[n - 1]];
  }

  lemma {:induction false} RaisedIsPending(
      client: Client, fails: map<Id, string>, s: Store, chunks: map<Id, Chunk>, pending: seq<Id>, n: nat, k: Id)
    requires n <= |pending| && forall k :: k in pending ==> k in chunks
    requires RaisedAt(client, fails, s, chunks, pending, n, k)
    ensures k in pending && k in fails
  {
    if pending[n - 1] != k { RaisedIsPending(client, fails, s, chunks, pending, n - 1, k); }
  }

  /** Whether the embedding of chunk `k` raises during the refresh. */
  predicate Failed(client: Client, fails: map<Id, string>, x: Index, chunks: seq<Chunk>, k: Id)
  {
    var pending := ToEmbed(x, chunks);
    RaisedAt(client, fails, Swept(x, chunks).store, Chunks(chunks), pending, |pending|, k)
  }

  /** Exactly what one refresh does to the vector of any id. */
  lemma {:induction false} RefreshAt(client: Client, fails: map<Id, string>, x: Index, chunks: seq<Chunk>, k: Id)
    requires Valid(client, x) && Faithful(client)
    ensures var cs := Chunks(chunks); var y := Refreshed(client, fails, x, chunks);
      && y.records == cs && CacheSound(client, y.store.cache)
      && (Failed(client, fails, x, chunks, k) ==>
            k in fails && k in cs && Outdated(x.records, x.store.vectors, k, cs[k]))
      && Lookup(y.store.vectors, k) ==
         if k !in cs && k in x.records then None
         else if k in cs && Outdated(x.records, x.store.vectors, k, cs[k]) && !Failed(client, fails, x, chunks, k) then
           Some(client.embed(Input(cs[k])))
         else Lookup(x.store.vectors, k)
  {
    var pending := ToEmbed(x, chunks);
    ToEmbedExact(x, chunks);
    EmbedAllAt(client, fails, Swept(x, chunks).store, Chunks(chunks), pending, |pending|, k);
    CacheStaysSound(client, fails, Swept(x, chunks).store, Chunks(chunks), pending, |pending|);
    if Failed(client, fails, x, chunks, k) {
      RaisedIsPending(client, fails, Swept(x, chunks).store, Chunks(chunks), pending, |pending|, k);
    }
    assert pending[..|pending|] == pending;
    assert Swept(x, chunks).records + Chunks(chunks) == Chunks(chunks);
  }

  lemma {:induction false} RefreshValid(client: Client, fails: map<Id, string>, x: Index, chunks: seq<Chunk>)
    requires Valid(client, x) && Faithful(client) && AllHonest(client, Chunks(chunks))
    ensures Valid(client, Refreshed(client, fails, x, chunks))
  {
    var y := Refreshed(client, fails, x, chunks);
    RefreshAt(client, fails, x, chunks, "");
  }

  /** From a sound index, a refresh equals embedding every chunk afresh exactly when each chunk whose
      embedding raised already had the vector it should get. */
  lemma {:induction false} RefreshIsReembeddingIff(client: Client, fails: map<Id, string>, x: Index, chunks: seq<Chunk>)
    requires Sound(client, x) && Faithful(client) && AllHonest(client, Chunks(chunks))
    ensures Refreshed(client, fails, x, chunks).records == Chunks(chunks)
    ensures Refreshed(client, fails, x, chunks).store.vectors == Reembedded(client, Chunks(chunks))
      <==> forall k :: Failed(client, fails, x, chunks, k) ==>
             Lookup(x.store.vectors, k) == Lookup(Reembedded(client, Chunks(chunks)), k)
  {
    var a, b := Refreshed(client, fails, x, chunks).store.vectors, Reembedded(client, Chunks(chunks));
    RefreshAt(client, fails, x, chunks, "");
    forall k ensures Lookup(a, k) == Lookup(b, k)
      <==> (Failed(client, fails, x, chunks, k) ==> Lookup(x.store.vectors, k) == Lookup(b, k))
    {
      RefreshAt(client, fails, x, chunks, k);
      if k in Chunks(chunks) && !Outdated(x.records, x.store.vectors, k, Chunks(chunks)[k]) {
        assert UpToDate(client, x, k);
        SameHashSameInput(client, x.records[k], Chunks(chunks)[k]);
      }
    }
    if forall k :: Lookup(a, k) == Lookup(b, k) { SameLookups(a, b); }
  }

  lemma {:induction false} SameHashSameInput(client: Client, a: Chunk, b: Chunk)
    requires Injective(client.hash) && Honest(client, a) && Honest(client, b) && a.hash == b.hash
    ensures Input(a) == Input(b)
  {
  }

  /** With no failed call, always; and the index stays sound. */
  lemma {:induction false} RefreshIsReembedding(client: Client, x: Index, chunks: seq<Chunk>)
    requires Sound(client, x) && Faithful(client) && AllHonest(client, Chunks(chunks))
    ensures var y := Refreshed(client, map[], x, chunks);
      y.records == Chunks(chunks) && y.store.vectors == Reembedded(client, Chunks(chunks)) && Sound(client, y)
  {
    forall k ensures !Failed(client, map[], x, chunks, k) { RefreshAt(client, map[], x, chunks, k); }
    RefreshIsReembeddingIff(client, map[], x, chunks);
    RefreshValid(client, map[], x, chunks);
  }

  /** Of several chunks with one id the last one counts. */
  lemma {:induction false} LastListedCounts(chunks: seq<Chunk>, n: nat, k: Id)
    requires n <= |chunks|
    ensures k in ById(chunks, n) <==> exists i :: 0 <= i < n && chunks[i].id == k
    ensures k in ById(chunks, n) ==>
              exists i :: 0 <= i < n && chunks[i].id == k && ById(chunks, n)[k] == chunks[i]
                          && forall j :: i < j < n ==> chunks[j].id != k
  {
    if n > 0 {
      LastListedCounts(chunks, n - 1, k);
      if chunks[n - 1].id != k && k in ById(chunks, n - 1) {
        var i :| 0 <= i < n - 1 && chunks[i].id == k && ById(chunks, n - 1)[k] == chunks[i]
                 && forall j :: i < j < n - 1 ==> chunks[j].id != k;
        assert ById(chunks, n)[k] == chunks[i];
      }
    }
  }

  /** So after a refresh without failed calls each listed id has the embedding of the first two thousand
      characters of the text last listed for it, and no other id has a vector. */
  lemma {:induction false} VectorsAreOfTexts(client: Client, x: Index, chunks: seq<Chunk>, i: nat)
    requires Sound(client, x) && Faithful(client) && AllHonest(client, Chunks(chunks))
    requires i < |chunks| && forall j :: i < j < |chunks| ==> chunks[j].id != chunks[i].id
    ensures var v := Refreshed(client, map[], x, chunks).store.vectors; var text := chunks[i].text;
      && chunks[i].id in v && v[chunks[i].id] == client.embed(if |text| > 2000 then text[..2000] else text)
      && forall k :: k in v ==> exists j :: 0 <= j < |chunks| && chunks[j].id == k
  {
    RefreshIsReembedding(client, x, chunks);
    LastListedCounts(chunks, |chunks|, chunks[i].id);
    forall k | k in Chunks(chunks) ensures exists j :: 0 <= j < |chunks| && chunks[j].id == k {
      LastListedCounts(chunks, |chunks|, k);
    }
  }

  // ------------------------------------------------------ runs without failed calls

  /** The index after the first `n` refreshes, no call of the client failing. */
  function After(client: Client, run: seq<seq<Chunk>>, n: nat): Index
    requires n <= |run|
  {
    if n == 0 then Index(map[], Store(map[], map[], map[]))
    else Refreshed(client, map[], After(client, run, n - 1), run[n - 1])
  }

  /** After any run, the vectors are those of a fresh embedding of the chunks last listed. */
  lemma {:induction false} RunIsReembedded(client: Client, run: seq<seq<Chunk>>, n: nat)
    requires n <= |run| && Faithful(client)
    requires forall i :: 0 <= i < n ==> AllHonest(client, Chunks(run[i]))
    ensures Sound(client, After(client, run, n))
    ensures n > 0 ==>
      && After(client, run, n).records == Chunks(run[n - 1])
      && After(client, run, n).store.vectors == Reembedded(client, Chunks(run[n - 1]))
  {
    if n > 0 {
      RunIsReembedded(client, run, n - 1);
      RefreshIsReembedding(client, After(client, run, n - 1), run[n - 1]);
    }
  }
}
