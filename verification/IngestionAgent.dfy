/** The ingest agent: log, apply, rotate; and recovery, which replays a log into the memtable. */
module IngestionAgent {
  import opened Entries
  import opened WriteAheadLog
  import opened MemoryTable
  import opened BloomFilter
  import opened Ingestion
  import opened Lsm
  import opened Core
  import Lru = LruCache
  import Durability

  method PrepareEntries(batch: seq<IngestReq>, now: Int64, copies: bool) returns (entries: seq<Entry>)
    ensures entries == LogEntries(batch, now, copies)
    ensures |entries| == |batch| && forall i :: 0 <= i < |batch| ==> MadeFrom(entries[i], batch[i], now, copies)
  {
    hide CreateEntry;
    entries := [];
    for i := 0 to |batch|
      invariant entries == LogEntries(batch, now, copies)[..i]
    {
      entries := entries + [CreateEntry(batch[i], now, copies)];
    }
    forall i | 0 <= i < |batch| ensures MadeFrom(entries[i], batch[i], now, copies) {
      hide MadeFrom;
      EntryFields(batch[i], now, copies);
    }
  }

  /** The log write of a batch; without durability it is skipped. */
  method WriteWalIfEnabled(bb: SystemState, entries: seq<Entry>, outcome: WriteOutcome) returns (ok: bool)
    requires bb.Valid() && (bb.config.durable ==> bb.activeWal != null)
    requires outcome.Failed? ==> outcome.kept <= |Encode(entries)|
    modifies bb.activeWal
    ensures bb.Valid() && ok == (bb.config.durable ==> outcome.Written?)
    ensures bb.Abs() == old(bb.Abs()).(activeWal :=
      if !bb.config.durable then old(bb.Abs()).activeWal
      else old(bb.Abs()).activeWal + (if outcome.Written? then Encode(entries) else Encode(entries)[..outcome.kept]))
  {
    hide *;
    bb.Parts();
    if !bb.config.durable || bb.activeWal == null { return true; }
    ok := bb.activeWal.WriteBatch(entries, outcome);
    bb.Recompose();
  }

  /** Puts each item with its own bytes and the prepared expiry, and drops its key from the cache. */
  method ApplyToMemTable(bb: SystemState, batch: seq<IngestReq>, entries: seq<Entry>, ghost now: Int64)
    requires bb.Valid() && entries == LogEntries(batch, now, bb.config.copiesValues)
    modifies bb.memTable.shards, bb.keyCache
    ensures bb.Valid()
    ensures bb.Abs() == old(bb.Abs()).(mem := old(bb.Abs()).mem + ToMap(LiveEntries(batch, now)),
                                       cache := Forget(old(bb.Abs()).cache, batch))
  {
    hide *;
    bb.Parts();
    ApplyNothing(bb.memTable.Contents(), bb.keyCache.Contents(), now);
    assert batch[..0] == [];
    for i := 0 to |batch|
      invariant bb.memTable.Valid() && bb.keyCache.Valid()
      invariant bb.memTable.Contents() == old(bb.memTable.Contents()) + ToMap(LiveEntries(batch[..i], now))
      invariant bb.keyCache.Contents() == Forget(old(bb.keyCache.Contents()), batch[..i])
      invariant forall n :: n in bb.keyCache.evictionList ==> n in old(bb.keyCache.evictionList)
    {
      ApplyOneMore(old(bb.memTable.Contents()), old(bb.keyCache.Contents()), batch, i, now);
      EntryOf(batch[i], now, bb.config.copiesValues);
      bb.memTable.Put(batch[i].key, batch[i].val, entries[i].expiry, batch[i].deleted);
      bb.keyCache.RemoveFromCache(batch[i].key);
    }
    assert batch[..|batch|] == batch;
    bb.Recompose();
  }

  lemma ApplyNothing(mem: Table, cache: Lru.Items, now: Int64)
    ensures mem + ToMap(LiveEntries([], now)) == mem && Forget(cache, []) == cache
  {
    assert LiveEntries([], now) == [];
  }

  lemma ApplyOneMore(mem: Table, cache: Lru.Items, batch: seq<IngestReq>, i: nat, now: Int64)
    requires i < |batch|
    ensures var e := CreateEntry(batch[i], now, true);
      mem + ToMap(LiveEntries(batch[..i + 1], now)) == (mem + ToMap(LiveEntries(batch[..i], now)))[e.key := e]
    ensures Forget(cache, batch[..i + 1]) == Lru.Without(Forget(cache, batch[..i]), batch[i].key)
  {
    hide ToMap, LiveEntries, CreateEntry, Lru.Without;
    assert batch[..i + 1][..i] == batch[..i];
    LiveSnoc(batch[..i + 1], now);
    var e := CreateEntry(batch[i], now, true);
    UpdateAfterUnion(mem, ToMap(LiveEntries(batch[..i], now)), e.key, e);
  }

  lemma EntryOf(req: IngestReq, now: Int64, copies: bool)
    ensures CreateEntry(req, now, true) == Entry(req.key, req.val, CreateEntry(req, now, copies).expiry, req.deleted)
  {
  }

  /** A batch is logged, then applied; a failed log write applies nothing and is reported. */
  method ProcessBatch(bb: SystemState, batch: seq<IngestReq>, now: Int64, outcome: WriteOutcome) returns (ok: bool)
    requires bb.Valid() && (bb.config.durable ==> bb.activeWal != null)
    requires Enabled(bb.config, bb.Abs(), Apply(batch, now, outcome))
    modifies bb.activeWal, bb.memTable.shards, bb.keyCache
    ensures bb.Valid()
    ensures bb.Abs() == Do(bb.config, old(bb.Abs()), Apply(batch, now, outcome))
    ensures batch != [] ==> ok == Accepted(bb.config, Apply(batch, now, outcome))
  {
    hide ToMap, LiveEntries, LogEntries, Encode, SystemState.Valid, SystemState.Abs, Forget;
    bb.Parts();
    if |batch| == 0 {
      EmptyBatch(bb.config, bb.Abs(), now, outcome);
      return true;
    }
    var entries := PrepareEntries(batch, now, bb.config.copiesValues);
    bb.Recompose();
    ok := WriteWalIfEnabled(bb, entries, outcome);
    if !ok { return; }
    ApplyToMemTable(bb, batch, entries, now);
  }

  lemma EmptyBatch(c: Config, s: State, now: Int64, outcome: WriteOutcome)
    requires s.bloom.Valid() && Enabled(c, s, Apply([], now, outcome))
    ensures Do(c, s, Apply([], now, outcome)) == s
  {
    assert LogEntries([], now, c.copiesValues) == [];
    ApplyNothing(s.mem, s.cache, now);
    assert s.activeWal + [] == s.activeWal;
  }

  // ---------- Rotation ----------

  /** A new log file takes over; if it cannot be opened the old one stays active. */
  method RotateWal(bb: SystemState, opens: bool)
    requires bb.Valid() && bb.config.durable && bb.activeWal != null
    modifies bb`activeWal, bb`frozenWALs, bb`rotations
    ensures bb.Valid() && (bb.config.durable ==> bb.activeWal != null)
    ensures var s := old(bb.Abs());
      bb.Abs() == if opens
        then s.(frozenWals := s.frozenWals + [s.activeWal], activeWal := [], rotations := s.rotations + 1)
        else s
  {
    if !opens { return; }
    hide *;
    bb.Parts();
    FilesSnoc(bb.frozenWALs, bb.activeWal);
    bb.frozenWALs := bb.frozenWALs + [bb.activeWal];
    bb.activeWal := new DiskWAL();
    bb.rotations := bb.rotations + 1;
    assert FilesOf(bb.frozenWALs) == old(FilesOf(bb.frozenWALs)) + [old(bb.activeWal.file)];
    bb.RecomposeLogs();
  }

  method RotateMemTable(bb: SystemState, opens: bool)
    requires bb.Valid() && (bb.config.durable ==> bb.activeWal != null)
    modifies bb`memTable, bb`immutableMem, bb`activeWal, bb`frozenWALs, bb`rotations
    ensures bb.Valid() && (bb.config.durable ==> bb.activeWal != null)
    ensures bb.Abs() == DoRotate(bb.config, old(bb.Abs()), opens)
  {
    FreezeMemTable(bb);
    if bb.config.durable && bb.activeWal != null { RotateWal(bb, opens); }
  }

  /** The memtable joins the frozen ones and an empty one takes its place. */
  method FreezeMemTable(bb: SystemState)
    requires bb.Valid()
    modifies bb`memTable, bb`immutableMem
    ensures bb.Valid()
    ensures bb.Abs() == old(bb.Abs()).(imm := old(bb.Abs()).imm + [old(bb.Abs()).mem], mem := map[])
  {
    hide ShardedMemoryTable.Valid, ShardedMemoryTable.Contents, SharedBloomFilter.Valid, SharedBloomFilter.Value,
         Lru.LruCache.Valid, Lru.LruCache.Contents, ShardsOf, ContentsOf, AllValid;
    SnocContents(bb.immutableMem, bb.memTable);
    ShardsOfSnoc(bb.immutableMem, bb.memTable);
    bb.immutableMem := bb.immutableMem + [bb.memTable];
    bb.memTable := new ShardedMemoryTable(bb.hash);
  }

  /** After a batch the memtable is rotated when it has reached its size limit. */
  method CheckRotation(bb: SystemState, opens: bool)
    requires bb.Valid() && (bb.config.durable ==> bb.activeWal != null)
    modifies bb`memTable, bb`immutableMem, bb`activeWal, bb`frozenWALs, bb`rotations
    ensures bb.Valid()
    ensures bb.Abs() == if Bytes(old(bb.Abs()).mem) >= bb.config.maxBytes
                        then Do(bb.config, old(bb.Abs()), Rotate(opens)) else old(bb.Abs())
  {
    hide *;
    bb.Parts();
    var size := bb.memTable.Size();
    if size >= bb.config.maxBytes {
      size := bb.memTable.Size();
      bb.Recompose();
      if size >= bb.config.maxBytes {
        RotationStep(bb.config, bb.Abs(), opens);
        RotateMemTable(bb, opens);
      }
    } else {
      bb.Recompose();
    }
  }

  lemma RotationStep(c: Config, s: State, opens: bool)
    requires s.bloom.Valid() && Bytes(s.mem) >= c.maxBytes
    ensures Enabled(c, s, Rotate(opens)) && Do(c, s, Rotate(opens)) == DoRotate(c, s, opens)
  {
    hide Bytes;
  }

  // ---------- Recovery ----------

  /** Opens the configured log and replays it into the memtable. `log` is null when the file cannot be
      opened. */
  method RecoverWal(bb: SystemState, log: DiskWAL?) returns (ok: bool)
    requires bb.Valid() && bb.activeWal == null && bb.frozenWALs == []
    modifies bb`activeWal, bb.memTable.shards
    ensures bb.Valid()
    ensures !bb.config.durable ==> ok && bb.Abs() == old(bb.Abs())
    ensures bb.config.durable && log == null ==> !ok && bb.Abs() == old(bb.Abs())
    ensures bb.config.durable && log != null ==>
      var r := ReplayLog(old(log.file));
      ok == r.ok && bb.activeWal == log
      && bb.Abs() == old(bb.Abs()).(activeWal := old(log.file), mem := old(bb.Abs()).mem + ToMap(r.entries))
  {
    if !bb.config.durable { return true; }
    if log == null { return false; }
    ok := ReplayInto(bb, log);
  }

  method ReplayInto(bb: SystemState, log: DiskWAL) returns (ok: bool)
    requires bb.Valid() && bb.frozenWALs == []
    modifies bb`activeWal, bb.memTable.shards
    ensures bb.Valid() && bb.activeWal == log
    ensures var r := ReplayLog(old(log.file));
      ok == r.ok
      && bb.Abs() == old(bb.Abs()).(activeWal := old(log.file), mem := old(bb.Abs()).mem + ToMap(r.entries))
  {
    hide *;
    bb.Parts();
    bb.activeWal := log;
    var entries;
    entries, ok := log.Replay();
    bb.memTable.PutAll(entries);
    bb.Recompose();
  }

  /** The server's start: a new store, then recovery; the server comes up only if that succeeds, and then in the
      start state of the runs for the log it found. */
  method StartServer(config: Config, hash: Hash, checksum: Checksum, bits: nat, hashes: nat, log: DiskWAL?)
    returns (bb: SystemState, ok: bool)
    ensures bb.Valid() && bb.config == config
    ensures ok <==> !config.durable || (log != null && ReplayLog(old(log.file)).ok)
    ensures ok ==> bb.Abs() == Durability.Start(config, if config.durable then old(log.file) else [], bb.bloomFilter.Value())
    ensures log != null ==> log.file == old(log.file)
    ensures config.durable && ok ==> bb.activeWal == log
  {
    hide SystemState.Valid, SystemState.Abs, ReplayLog, ToMap;
    bb := new SystemState(config, hash, checksum, bits, hashes);
    bb.Parts();
    RecoveryReachesStart(config, if config.durable && log != null then log.file else [], bb.bloomFilter.Value());
    ok := RecoverWal(bb, log);
    bb.Parts();
  }

  /** On a store just constructed, a recovery that succeeds reaches the start state of the machine for the
      recovered log. */
  lemma RecoveryReachesStart(c: Config, log: seq<Byte>, bloom: Bloom)
    ensures c.durable ==>
      NewState(c, bloom).(activeWal := log, mem := NewState(c, bloom).mem + ToMap(ReplayLog(log).entries))
      == Durability.Start(c, log, bloom)
    ensures !c.durable ==> NewState(c, bloom) == Durability.Start(c, log, bloom)
  {
    hide ToMap, ReplayLog;
    assert map[] + ToMap(ReplayLog(log).entries) == ToMap(ReplayLog(log).entries);
  }
}
