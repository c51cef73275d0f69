/** The read path of the router: cache, then memory, then the levels. */
module HttpRouter {
  import opened Entries
  import opened SortedTable
  import opened BloomFilter
  import opened MemoryTable
  import opened Lsm
  import opened Core
  import Layers
  import Lru = LruCache

  /** Finds nothing when the cache misses; a hit moves to the front. */
  method TryServeFromCache(bb: SystemState, key: Key) returns (r: Option<Response>)
    requires bb.Valid()
    modifies bb.keyCache`evictionList
    ensures bb.Valid() && bb.Abs() == old(bb.Abs()).(cache := Lru.Retrieve(old(bb.Abs()).cache, key))
    ensures r == (match Lru.Cached(old(bb.Abs()).cache, key) case None => None case Some(x) => Some(Found(x.value)))
    ensures r == None ==> bb.keyCache.evictionList == old(bb.keyCache.evictionList)
  {
    hide *;
    bb.Parts();
    var hit := bb.keyCache.RetrieveFromCache(key);
    bb.Recompose();
    return if hit.Some? then Some(Found(hit.value)) else None;
  }

  /** The frozen memtables from the newest to the oldest. */
  method SearchFrozen(ts: seq<ShardedMemoryTable>, key: Key) returns (e: Option<Entry>)
    requires AllValid(ts)
    ensures e == Layers.Search(ContentsOf(ts), key)
  {
    hide ShardedMemoryTable.Valid, ShardedMemoryTable.Contents;
    ghost var ms := ContentsOf(ts);
    var i := |ts|;
    assert ms[..i] == ms;
    while i > 0
      invariant 0 <= i <= |ts| && AllValid(ts) && ContentsOf(ts) == ms
      invariant Layers.Search(ms, key) == Layers.Search(ms[..i], key)
    {
      assert ms[..i][..i - 1] == ms[..i - 1];
      i := i - 1;
      e := ts[i].Get(key);
      assert e == Lookup(ms[i], key);
      if e.Some? {
        assert Layers.Search(ms, key) == e;
        assert ContentsOf(ts) == ms;
        return;
      }
    }
    e := None;
  }

  /** The memtable, then the frozen ones. */
  method SearchMemory(bb: SystemState, key: Key) returns (e: Option<Entry>)
    requires bb.Valid()
    ensures bb.Valid() && bb.Abs() == old(bb.Abs())
    ensures e == ReadMemory(bb.Abs(), key)
  {
    hide ShardedMemoryTable.Valid, ShardedMemoryTable.Contents, SystemState.Valid, SystemState.Abs, ReadMemory,
         Lru.LruCache.Valid, Lru.LruCache.Contents, SharedBloomFilter.Valid, SharedBloomFilter.Value, Layers.Search;
    bb.Parts();
    MemoryFirst(bb.Abs(), key);
    e := bb.memTable.Get(key);
    if e == None { e := SearchFrozen(bb.immutableMem, key); }
    bb.Recompose();
  }

  lemma MemoryFirst(s: State, key: Key)
    ensures ReadMemory(s, key) == if Lookup(s.mem, key).Some? then Lookup(s.mem, key) else Layers.Search(s.imm, key)
  {
    assert (s.imm + [s.mem])[..|s.imm|] == s.imm;
  }

  /** One level from its newest table to its oldest, passing over tables the filter rules out. */
  method SearchOneLevel(level: seq<SSTable>, bloom: SharedBloomFilter, key: Key) returns (e: Option<Entry>)
    requires bloom.Valid()
    ensures e == SearchLevel(level, bloom.Value(), key)
  {
    hide SharedBloomFilter.Valid, SharedBloomFilter.Value, Bloom.Contains, Bloom.Valid, Find;
    assert level[..|level|] == level;
    var i := |level|;
    while i > 0
      invariant 0 <= i <= |level|
      invariant SearchLevel(level, bloom.Value(), key) == SearchLevel(level[..i], bloom.Value(), key)
    {
      i := i - 1;
      assert level[..i + 1][..i] == level[..i];
      var maybe := bloom.Contains(level[i].meta.fileID, key);
      if maybe {
        e := Find(level[i], key);
        if e.Some? { return; }
      }
    }
    e := None;
  }

  /** The levels in order, level 0 first. */
  method SearchDisk(bb: SystemState, key: Key) returns (e: Option<Entry>)
    requires bb.Valid()
    ensures bb.Valid() && bb.Abs() == old(bb.Abs())
    ensures var s := bb.Abs();
      e == if SearchLevel(s.l0, s.bloom, key).Some? then SearchLevel(s.l0, s.bloom, key) else SearchLevel(s.l1, s.bloom, key)
  {
    hide *;
    bb.Parts();
    EmptyLevel(bb.bloomFilter.Value(), key);
    e := None;
    var i := 0;
    while i < |bb.ssTables| && e == None
      invariant 0 <= i <= 4
      invariant bb.bloomFilter.Valid() && bb.bloomFilter.Value() == old(bb.bloomFilter.Value())
      invariant e == (var b := bb.bloomFilter.Value();
        if i > 0 && SearchLevel(bb.ssTables[0], b, key).Some? then SearchLevel(bb.ssTables[0], b, key)
        else if i > 1 then SearchLevel(bb.ssTables[1], b, key) else None)
    {
      e := SearchOneLevel(bb.ssTables[i], bb.bloomFilter, key);
      i := i + 1;
    }
    bb.Recompose();
  }

  lemma EmptyLevel(bloom: Bloom, key: Key)
    requires bloom.Valid()
    ensures SearchLevel([], bloom, key) == None
  {
  }

  /** A found entry answers not found if it is a tombstone or expired; otherwise it is cached and served. */
  method ProcessEntry(bb: SystemState, e: Entry, now: Int64) returns (r: Response)
    requires bb.Valid()
    modifies bb.keyCache, bb.keyCache.evictionList
    ensures bb.Valid() && r == Respond(Some(e), now)
    ensures r == if e.deleted || 0 < e.expiry < now then NotFound else Found(e.value)
    ensures bb.Abs() == old(bb.Abs()).(cache :=
      if r.Found? then Lru.Insert(old(bb.Abs()).cache, bb.config.cacheCapacity, e.key, e.value) else old(bb.Abs()).cache)
  {
    hide Lru.Insert, SystemState.Valid, SystemState.Abs, Lru.LruCache.Valid, Lru.LruCache.Contents,
         ShardedMemoryTable.Valid, ShardedMemoryTable.Contents, SharedBloomFilter.Valid, SharedBloomFilter.Value, AllValid, ContentsOf;
    if e.deleted { return NotFound; }
    if e.expiry > 0 && now > e.expiry { return NotFound; }
    bb.Parts();
    bb.keyCache.InsertIntoCache(e.key, e.value);
    bb.Recompose();
    return Found(e.value);
  }

  /** One read with no agent step in between. */
  method FindAndServe(bb: SystemState, key: Key, now: Int64) returns (r: Response)
    requires bb.Valid()
    modifies bb.keyCache, bb.keyCache.evictionList
    ensures bb.Valid()
    ensures r == Serve(old(bb.Abs()), key, now)
    ensures bb.Abs() == DoFetch(bb.config, old(bb.Abs()), key, now)
    ensures var s := old(bb.Abs()); var e := Read(s, key);
      r == if Lru.Cached(s.cache, key).Some? then Found(Lru.Cached(s.cache, key).value.value)
           else if e == None || e.value.deleted || 0 < e.value.expiry < now then NotFound else Found(e.value.value)
  {
    hide *;
    ghost var s := bb.Abs();
    bb.MemoryKeyed();
    var hit := TryServeFromCache(bb, key);
    CacheHit(bb.config, s, key, now);
    if hit.Some? { return hit.value; }
    assert bb.Abs() == s;
    var e := SearchMemory(bb, key);
    if e == None { e := SearchDisk(bb, key); }
    ReadParts(s, key);
    FoundOwnKey(s, key);
    CacheMiss(bb.config, s, key, now);
    if e == None { return NotFound; }
    r := ProcessEntry(bb, e.value, now);
  }

  lemma CacheHit(c: Config, s: State, key: Key, now: Int64)
    requires s.bloom.Valid()
    ensures Lru.Cached(s.cache, key).Some? ==>
      && Serve(s, key, now) == Found(Lru.Cached(s.cache, key).value.value)
      && DoFetch(c, s, key, now) == s.(cache := Lru.Retrieve(s.cache, key))
    ensures Lru.Cached(s.cache, key) == None ==> s.(cache := Lru.Retrieve(s.cache, key)) == s
  {
    hide Lru.Cached, Direct;
  }

  lemma CacheMiss(c: Config, s: State, key: Key, now: Int64)
    requires s.bloom.Valid() && Lru.Cached(s.cache, key) == None
    ensures var r, e := Respond(Read(s, key), now), Read(s, key);
      && r == (if e == None || e.value.deleted || 0 < e.value.expiry < now then NotFound else Found(e.value.value))
      && Serve(s, key, now) == r && (Read(s, key) == None ==> r == NotFound)
      && DoFetch(c, s, key, now) ==
         (if r.Found? then s.(cache := Lru.Insert(s.cache, c.cacheCapacity, key, r.value)) else s)
      && (r.Found? ==> Read(s, key).Some? && r.value == Read(s, key).value.value)
  {
    hide Lru.Cached, Read, Lru.Insert;
  }

  lemma ReadParts(s: State, key: Key)
    requires s.bloom.Valid()
    ensures Read(s, key) ==
      if ReadMemory(s, key).Some? then ReadMemory(s, key)
      else if SearchLevel(s.l0, s.bloom, key).Some? then SearchLevel(s.l0, s.bloom, key)
      else SearchLevel(s.l1, s.bloom, key)
  {
    hide ReadMemory, SearchLevel;
  }

  /** What a read finds carries the key it was asked for. */
  lemma FoundOwnKey(s: State, key: Key)
    requires s.bloom.Valid() && KeyedByEntry(s.mem) && forall i :: 0 <= i < |s.imm| ==> KeyedByEntry(s.imm[i])
    ensures Read(s, key).Some? ==> Read(s, key).value.key == key
  {
    hide SearchLevel, Layers.Search, Bloom.Valid;
    Layers.SearchHits(s.imm + [s.mem], key);
    LevelKeepsKey(s.l0, s.bloom, key);
    LevelKeepsKey(s.l1, s.bloom, key);
  }

  lemma {:induction false} LevelKeepsKey(tables: seq<SSTable>, bloom: Bloom, key: Key)
    requires bloom.Valid()
    ensures SearchLevel(tables, bloom, key).Some? ==> SearchLevel(tables, bloom, key).value.key == key
  {
    hide Find, Bloom.Contains, Bloom.Valid;
    if tables != [] {
      FindKeepsKey(tables[|tables| - 1], key);
      LevelKeepsKey(tables[..|tables| - 1], bloom, key);
    }
  }

  lemma FindKeepsKey(t: SSTable, key: Key)
    ensures Find(t, key).Some? ==> Find(t, key).value.key == key
  {
  }
}
