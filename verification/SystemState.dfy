/** The shared state of the agents as an object over its memtables, logs, filter and cache. */
module Core {
  import opened Entries
  import opened WriteAheadLog
  import opened SortedTable
  import opened BloomFilter
  import opened MemoryTable
  import opened Lsm
  import Lru = LruCache

  ghost function ShardsOf(ts: seq<ShardedMemoryTable>): (r: set<MemoryShard>)
    ensures forall i, o :: 0 <= i < |ts| && o in ts[i].shards ==> o in r
    ensures forall o :: o in r ==> exists i :: 0 <= i < |ts| && o in ts[i].shards
  {
    set i, o | 0 <= i < |ts| && o in ts[i].shards :: o
  }

  ghost function ContentsOf(ts: seq<ShardedMemoryTable>): (ms: seq<Table>)
    reads ShardsOf(ts)
    ensures |ms| == |ts|
    ensures forall i :: 0 <= i < |ms| ==> ms[i] == ts[i].Contents()
  {
    seq(|ts|, i requires 0 <= i < |ts| reads ShardsOf(ts) => ts[i].Contents())
  }

  ghost predicate AllValid(ts: seq<ShardedMemoryTable>)
    reads ShardsOf(ts)
  {
    forall i :: 0 <= i < |ts| ==> ts[i].Valid()
  }

  ghost function FilesOf(ws: seq<DiskWAL>): (fs: seq<seq<Byte>>)
    reads ws
    ensures |fs| == |ws|
    ensures forall i :: 0 <= i < |fs| ==> fs[i] == ws[i].file
  {
    seq(|ws|, i requires 0 <= i < |ws| reads ws => ws[i].file)
  }

  lemma ShardsOfSnoc(ts: seq<ShardedMemoryTable>, t: ShardedMemoryTable)
    ensures forall o :: o in ShardsOf(ts + [t]) <==> o in ShardsOf(ts) || o in t.shards
  {
    var us := ts + [t];
    forall o | o in ShardsOf(ts) ensures o in ShardsOf(us) {
      var i :| 0 <= i < |ts| && o in ts[i].shards;
      assert us[i] == ts[i];
    }
    forall o | o in t.shards ensures o in ShardsOf(us) { assert us[|ts|] == t; }
    forall o | o in ShardsOf(us) && o !in t.shards ensures o in ShardsOf(ts) {
      var i :| 0 <= i < |us| && o in us[i].shards;
      assert us[i] == ts[i];
    }
  }

  lemma FilesSnoc(ws: seq<DiskWAL>, w: DiskWAL)
    ensures FilesOf(ws + [w]) == FilesOf(ws) + [w.file]
  {
  }

  lemma TailFiles(ws: seq<DiskWAL>)
    requires ws != []
    ensures FilesOf(ws[1..]) == FilesOf(ws)[1..]
  {
  }

  lemma TailContents(ts: seq<ShardedMemoryTable>)
    requires AllValid(ts) && ts != []
    ensures AllValid(ts[1..]) && ContentsOf(ts[1..]) == ContentsOf(ts)[1..]
    ensures forall o :: o in ShardsOf(ts[1..]) ==> o in ShardsOf(ts)
  {
    hide ShardedMemoryTable.Valid, ShardedMemoryTable.Contents;
    forall o | o in ShardsOf(ts[1..]) ensures o in ShardsOf(ts) {
      var i :| 0 <= i < |ts[1..]| && o in ts[1..][i].shards;
      assert ts[i + 1] == ts[1..][i];
    }
  }

  lemma SnocContents(ts: seq<ShardedMemoryTable>, t: ShardedMemoryTable)
    requires AllValid(ts) && t.Valid()
    ensures AllValid(ts + [t]) && ContentsOf(ts + [t]) == ContentsOf(ts) + [t.Contents()]
  {
    hide ShardedMemoryTable.Valid, ShardedMemoryTable.Contents;
    ShardsOfSnoc(ts, t);
  }

  /** A memtable stores every entry under its own key. */
  lemma MemTableKeyed(t: ShardedMemoryTable)
    requires t.Valid()
    ensures KeyedByEntry(t.Contents())
  {
    forall k | k in t.Contents() ensures t.Contents()[k].key == k {
      ShardAnswers(t.hash, t.Data(), k);
      var s := t.hash(k) % MemoryTable.SHARD_COUNT;
      assert KeyedByEntry(t.Data()[s]);
      assert Lookup(t.Contents(), k) == Lookup(t.Data()[s], k);
    }
  }

  class SystemState {
    const config: Config
    const hash: Hash
    var memTable: ShardedMemoryTable
    var immutableMem: seq<ShardedMemoryTable>
    var activeWal: DiskWAL?
    var frozenWALs: seq<DiskWAL>
    var ssTables: seq<seq<SSTable>>
    const bloomFilter: SharedBloomFilter
    const keyCache: Lru.LruCache

    // What the flush and the compaction agent hold between two locks, and the generation of the active log.
    ghost var flushing: Flushing
    ghost var compacting: Compacting
    ghost var rotations: nat

    ghost predicate Valid()
      reads this, memTable.shards, ShardsOf(immutableMem), bloomFilter.shards, keyCache
    {
      && memTable.Valid() && memTable.hash == hash
      && AllValid(immutableMem)
      && (forall o :: o in memTable.shards ==> o !in ShardsOf(immutableMem))
      && (activeWal != null ==> activeWal !in frozenWALs)
      && |ssTables| == 4 && ssTables[2] == [] && ssTables[3] == []
      && bloomFilter.Valid()
      && keyCache.Valid() && keyCache.capacity == config.cacheCapacity
    }

    ghost function Abs(): (s: State)
      requires Valid()
      reads this, memTable.shards, ShardsOf(immutableMem), activeWal, frozenWALs,
            bloomFilter.shards, keyCache, keyCache.evictionList
      ensures s.bloom.Valid()
    {
      State(memTable.Contents(), ContentsOf(immutableMem),
            if activeWal == null then [] else activeWal.file, FilesOf(frozenWALs), rotations,
            ssTables[0], ssTables[1], flushing, compacting, bloomFilter.Value(), keyCache.Contents())
    }

    /** What steps that leave the frozen memtables and the frozen logs alone do to the state. */
    twostate lemma Recompose()
      requires old(Valid()) && memTable == old(memTable) && immutableMem == old(immutableMem)
      requires frozenWALs == old(frozenWALs)
      requires unchanged(ShardsOf(immutableMem)) && unchanged(frozenWALs)
      requires memTable.Valid() && keyCache.Valid() && bloomFilter.Valid() && (activeWal != null ==> activeWal !in frozenWALs)
      requires |ssTables| == 4 && ssTables[2] == [] && ssTables[3] == []
      ensures Valid()
      ensures Abs() == old(Abs()).(mem := memTable.Contents(), cache := keyCache.Contents(),
                                   activeWal := if activeWal == null then [] else activeWal.file,
                                   rotations := rotations, l0 := ssTables[0], l1 := ssTables[1],
                                   flushing := flushing, compacting := compacting, bloom := bloomFilter.Value())
    {
      assert ContentsOf(immutableMem) == old(ContentsOf(immutableMem));
      assert FilesOf(frozenWALs) == old(FilesOf(frozenWALs));
    }

    /** Nothing happens to the state while objects outside it change. */
    twostate lemma Undisturbed()
      requires old(Valid()) && unchanged(this) && unchanged(memTable.shards) && unchanged(ShardsOf(immutableMem))
      requires unchanged(bloomFilter.shards) && unchanged(keyCache) && unchanged(keyCache.evictionList)
      requires unchanged(frozenWALs) && (activeWal != null ==> unchanged(activeWal))
      ensures Valid() && Abs() == old(Abs())
    {
    }

    /** The same for a step that rotates the log. */
    twostate lemma RecomposeLogs()
      requires old(Valid()) && memTable == old(memTable) && immutableMem == old(immutableMem) && ssTables == old(ssTables)
      requires flushing == old(flushing) && compacting == old(compacting)
      requires unchanged(memTable.shards) && unchanged(ShardsOf(immutableMem)) && unchanged(bloomFilter.shards)
      requires unchanged(keyCache) && unchanged(keyCache.evictionList)
      requires activeWal != null && activeWal !in frozenWALs
      ensures Valid()
      ensures Abs() == old(Abs()).(activeWal := activeWal.file, frozenWals := FilesOf(frozenWALs), rotations := rotations)
    {
      assert ContentsOf(immutableMem) == old(ContentsOf(immutableMem));
      assert memTable.Contents() == old(memTable.Contents());
      assert keyCache.Contents() == old(keyCache.Contents());
      assert bloomFilter.Value() == old(bloomFilter.Value());
    }

    /** The same for a step that only reassigns fields and drops the oldest frozen memtable and log. */
    twostate lemma RecomposeQueues()
      requires old(Valid()) && memTable == old(memTable) && activeWal == old(activeWal) && rotations == old(rotations)
      requires compacting == old(compacting) && |ssTables| == 4
      requires forall i :: 1 <= i < 4 ==> ssTables[i] == old(ssTables)[i]
      requires unchanged(memTable.shards) && unchanged(old(ShardsOf(immutableMem))) && unchanged(bloomFilter.shards)
      requires unchanged(keyCache) && unchanged(keyCache.evictionList) && (activeWal != null ==> unchanged(activeWal))
      requires unchanged(old(frozenWALs))
      requires immutableMem == (if old(immutableMem) == [] then [] else old(immutableMem)[1..])
      requires frozenWALs == old(frozenWALs) || (old(frozenWALs) != [] && frozenWALs == old(frozenWALs)[1..])
      ensures Valid()
      ensures var s := old(Abs());
        Abs() == s.(imm := if s.imm == [] then [] else s.imm[1..],
                    frozenWals := if frozenWALs == old(frozenWALs) then s.frozenWals else s.frozenWals[1..],
                    l0 := ssTables[0], flushing := flushing)
    {
      hide ShardedMemoryTable.Valid, ShardedMemoryTable.Contents, SharedBloomFilter.Valid, SharedBloomFilter.Value,
           Lru.LruCache.Valid, Lru.LruCache.Contents;
      var ts, ws := old(immutableMem), old(frozenWALs);
      assert AllValid(ts) && ContentsOf(ts) == old(ContentsOf(immutableMem));
      assert FilesOf(ws) == old(FilesOf(frozenWALs));
      if ts != [] { TailContents(ts); }
      if ws != [] { TailFiles(ws); }
    }

    lemma Parts()
      requires Valid()
      ensures memTable.Valid() && AllValid(immutableMem) && bloomFilter.Valid() && keyCache.Valid()
      ensures forall o :: o in memTable.shards ==> o !in ShardsOf(immutableMem)
      ensures |ssTables| == 4 && ssTables[2] == [] && ssTables[3] == []
      ensures keyCache.capacity == config.cacheCapacity && memTable.hash == hash
      ensures activeWal != null ==> activeWal !in frozenWALs
      ensures var s := Abs();
        && s.mem == memTable.Contents() && s.imm == ContentsOf(immutableMem)
        && s.activeWal == (if activeWal == null then [] else activeWal.file) && s.frozenWals == FilesOf(frozenWALs)
        && s.l0 == ssTables[0] && s.l1 == ssTables[1] && s.flushing == flushing && s.compacting == compacting
        && s.bloom == bloomFilter.Value() && s.cache == keyCache.Contents() && s.rotations == rotations
    {
    }

    lemma MemoryKeyed()
      requires Valid()
      ensures KeyedByEntry(Abs().mem) && forall i :: 0 <= i < |Abs().imm| ==> KeyedByEntry(Abs().imm[i])
    {
      hide ShardedMemoryTable.Valid, ShardedMemoryTable.Contents, SharedBloomFilter.Valid, SharedBloomFilter.Value,
           Lru.LruCache.Valid, Lru.LruCache.Contents;
      MemTableKeyed(memTable);
      forall i | 0 <= i < |immutableMem| ensures KeyedByEntry(ContentsOf(immutableMem)[i]) {
        MemTableKeyed(immutableMem[i]);
      }
    }

    /** An empty store with an empty memtable, four empty levels and no log yet. */
    constructor (config: Config, hash: Hash, checksum: Checksum, bits: nat, hashes: nat)
      ensures Valid() && this.config == config
      ensures activeWal == null && frozenWALs == [] && rotations == 0
      ensures forall i :: 0 <= i < |memTable.shards| ==> fresh(memTable.shards[i])
      ensures Abs() == NewState(config, bloomFilter.Value())
    {
      hide ShardedMemoryTable.Valid, ShardedMemoryTable.Contents, SharedBloomFilter.Valid, SharedBloomFilter.Value,
           Lru.LruCache.Valid, Lru.LruCache.Contents;
      this.config, this.hash := config, hash;
      memTable := new ShardedMemoryTable(hash);
      immutableMem := [];
      activeWal := null;
      frozenWALs := [];
      ssTables := [[], [], [], []];
      bloomFilter := new SharedBloomFilter(checksum, bits, hashes);
      keyCache := new Lru.LruCache(config.cacheCapacity);
      flushing, compacting, rotations := NotFlushing, Resting, 0;
    }
  }

  /** The state before recovery. */
  function NewState(c: Config, bloom: Bloom): State {
    State(map[], [], [], [], 0, [], [], NotFlushing, Resting, bloom, [])
  }
}
