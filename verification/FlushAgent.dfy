/** The flush agent: dump and sort the oldest frozen memtable, write its table, commit it to level 0. */
module FlushAgent {
  import opened Entries
  import opened SortedTable
  import opened BloomFilter
  import opened MemoryTable
  import opened Lsm
  import opened Core
  import opened WriteAheadLog
  import Lru = LruCache

  // ---------- Sorting the dump ----------

  lemma {:induction false} SameTable(a: seq<Entry>, b: seq<Entry>)
    requires DistinctKeys(a) && DistinctKeys(b) && forall e :: e in a <==> e in b
    ensures ToMap(a) == ToMap(b)
  {
    forall k ensures Lookup(ToMap(a), k) == Lookup(ToMap(b), k) {
      hide ToMap;
      if k in ToMap(a) { HoldsAlike(a, b, k); }
      if k in ToMap(b) { HoldsAlike(b, a, k); }
    }
    SameLookups(ToMap(a), ToMap(b));
  }

  lemma HoldsAlike(a: seq<Entry>, b: seq<Entry>, k: Key)
    requires DistinctKeys(b) && (forall e :: e in a ==> e in b) && k in ToMap(a)
    ensures k in ToMap(b) && ToMap(b)[k] == ToMap(a)[k]
  {
    hide ToMap;
    var e := ToMap(a)[k];
    var i :| 0 <= i < |b| && b[i] == e;
    ToMapAt(b, i);
  }

  /** The entries in strictly ascending key order: the contract of `sort.Slice` on distinct keys. */
  method SortByKey(entries: seq<Entry>) returns (sorted: seq<Entry>)
    requires DistinctKeys(entries)
    ensures StrictlySorted(sorted) && ToMap(sorted) == ToMap(entries)
    ensures multiset(sorted) == multiset(entries)
    ensures forall i, j :: 0 <= i < j < |sorted| ==> ByteOrdered(sorted[i].key, sorted[j].key)
  {
    hide Below, ToMap;
    sorted := [];
    for i := 0 to |entries|
      invariant StrictlySorted(sorted)
      invariant multiset(sorted) == multiset(entries[..i])
    {
      NotYet(entries, i, sorted);
      sorted := InsertByKey(sorted, entries[i]);
      assert entries[..i + 1] == entries[..i] + [entries[i]];
    }
    assert entries[..|entries|] == entries;
    SortedIsDistinct(sorted);
    forall e ensures e in sorted <==> e in entries { assert e in multiset(sorted) <==> e in multiset(entries); }
    SameTable(sorted, entries);
    SortedByBytes(sorted);
  }

  lemma SortedByBytes(sorted: seq<Entry>)
    requires StrictlySorted(sorted)
    ensures forall i, j :: 0 <= i < j < |sorted| ==> ByteOrdered(sorted[i].key, sorted[j].key)
  {
    hide Below, ByteOrdered;
    forall i, j | 0 <= i < j < |sorted| ensures ByteOrdered(sorted[i].key, sorted[j].key) {
      BelowIsByteOrder(sorted[i].key, sorted[j].key);
    }
  }

  lemma NotYet(entries: seq<Entry>, i: nat, sorted: seq<Entry>)
    requires DistinctKeys(entries) && i < |entries| && multiset(sorted) == multiset(entries[..i])
    ensures forall j :: 0 <= j < |sorted| ==> sorted[j].key != entries[i].key
  {
    forall j | 0 <= j < |sorted| ensures sorted[j].key != entries[i].key {
      assert sorted[j] in multiset(sorted);
      assert sorted[j] in entries[..i];
    }
  }

  method InsertByKey(sorted: seq<Entry>, e: Entry) returns (r: seq<Entry>)
    requires StrictlySorted(sorted) && forall j :: 0 <= j < |sorted| ==> sorted[j].key != e.key
    ensures StrictlySorted(r) && multiset(r) == multiset(sorted) + multiset{e}
  {
    hide Below;
    var p := |sorted|;
    while p > 0 && Below(e.key, sorted[p - 1].key)
      invariant 0 <= p <= |sorted|
      invariant forall j :: p <= j < |sorted| ==> Below(e.key, sorted[j].key)
    {
      p := p - 1;
    }
    forall j | 0 <= j < p ensures Below(sorted[j].key, e.key) {
      BelowTotal(sorted[p - 1].key, e.key);
      if j < p - 1 { BelowTransitive(sorted[j].key, sorted[p - 1].key, e.key); }
    }
    SortedInsert(sorted, p, e);
    r := sorted[..p] + [e] + sorted[p..];
    assert sorted == sorted[..p] + sorted[p..];
  }

  lemma SortedInsert(sorted: seq<Entry>, p: nat, e: Entry)
    requires p <= |sorted| && StrictlySorted(sorted)
    requires forall j :: 0 <= j < p ==> Below(sorted[j].key, e.key)
    requires forall j :: p <= j < |sorted| ==> Below(e.key, sorted[j].key)
    ensures StrictlySorted(sorted[..p] + [e] + sorted[p..])
  {
    hide Below;
  }

  // ---------- The two halves of a flush ----------

  /** Dumps, sorts and writes the oldest frozen memtable; the lock is not held. A file that cannot be created
      ends the attempt without a trace. */
  method ProcessFlush(bb: SystemState, fileID: nat, creatable: bool) returns (entries: seq<Entry>, meta: Option<SSTable>)
    requires bb.Valid() && bb.flushing == NotFlushing && bb.immutableMem != []
    modifies bb`flushing, bb.bloomFilter.shards
    ensures bb.Valid() && meta.Some? == creatable
    ensures meta.Some? ==> meta.value.meta.level == 0 && meta.value.meta.fileID == fileID
    ensures meta.Some? ==>
      bb.flushing == Flushed(meta.value) &&
      Enabled(bb.config, old(bb.Abs()), WriteFlush(entries, fileID)) &&
      bb.Abs() == Do(bb.config, old(bb.Abs()), WriteFlush(entries, fileID))
    ensures meta == None ==>
      bb.flushing == NotFlushing &&
      Enabled(bb.config, old(bb.Abs()), FailFlush) &&
      bb.Abs() == Do(bb.config, old(bb.Abs()), FailFlush)
  {
    hide *;
    bb.Parts();
    OldestFrozen(bb);
    entries := SortedDump(bb.immutableMem[0]);
    FlushSteps(bb.config, old(bb.Abs()), entries, fileID);
    if !creatable {
      bb.Recompose();
      return entries, None;
    }
    var t := WriteSortedStringTableToDisk(entries, fileID, 0, bb.bloomFilter);
    bb.flushing := Flushed(t);
    bb.Recompose();
    meta := Some(t);
  }

  method SortedDump(table: ShardedMemoryTable) returns (entries: seq<Entry>)
    requires table.Valid()
    ensures StrictlySorted(entries) && ToMap(entries) == table.Contents()
  {
    hide *;
    var buffer := table.DumpToSlice([]);
    assert buffer[0..] == buffer;
    entries := SortByKey(buffer);
  }

  lemma OldestFrozen(bb: SystemState)
    requires bb.Valid() && bb.immutableMem != []
    ensures bb.immutableMem[0].Valid() && bb.Abs().imm != [] && bb.Abs().imm[0] == bb.immutableMem[0].Contents()
  {
    hide ShardedMemoryTable.Valid, ShardedMemoryTable.Contents, SharedBloomFilter.Valid, SharedBloomFilter.Value,
         Lru.LruCache.Valid, Lru.LruCache.Contents;
  }

  lemma FlushSteps(c: Config, s: State, es: seq<Entry>, id: nat)
    requires s.bloom.Valid() && s.flushing == NotFlushing && s.imm != [] && StrictlySorted(es) && ToMap(es) == s.imm[0]
    ensures Enabled(c, s, WriteFlush(es, id)) && Enabled(c, s, FailFlush) && Do(c, s, FailFlush) == s
    ensures Do(c, s, WriteFlush(es, id)) ==
      s.(flushing := Flushed(WriteTable(es, id, 0)), bloom := s.bloom.AddAll(id, es))
  {
    hide StrictlySorted, ToMap, Bloom.Valid, Bloom.AddAll, WriteTable;
  }

  /** Under the lock: the table joins level 0, the memtable and its log go. After an error nothing happens. */
  method CommitFlush(bb: SystemState, meta: Option<SSTable>)
    requires bb.Valid() && bb.flushing == (match meta case None => NotFlushing case Some(t) => Flushed(t))
    modifies bb`ssTables, bb`immutableMem, bb`frozenWALs, bb`flushing
    ensures bb.Valid()
    ensures bb.Abs() == if meta == None then old(bb.Abs()) else DoCommitFlush(bb.config, old(bb.Abs()))
  {
    hide *;
    bb.Parts();
    if meta == None { return; }
    bb.ssTables := bb.ssTables[0 := bb.ssTables[0] + [meta.value]];
    if |bb.immutableMem| > 0 { bb.immutableMem := bb.immutableMem[1..]; }
    RotateFrozenWal(bb);
    bb.flushing := NotFlushing;
    bb.RecomposeQueues();
    CommitFlushUnfolds(bb.config, old(bb.Abs()));
  }

  lemma CommitFlushUnfolds(c: Config, s: State)
    requires s.flushing.Flushed?
    ensures DoCommitFlush(c, s) ==
      s.(l0 := s.l0 + [s.flushing.table], imm := if s.imm == [] then [] else s.imm[1..],
         frozenWals := if c.durable && s.frozenWals != [] then s.frozenWals[1..] else s.frozenWals,
         flushing := NotFlushing)
  {
  }

  /** Deletes the oldest frozen log. */
  method RotateFrozenWal(bb: SystemState)
    modifies bb`frozenWALs
    ensures bb.frozenWALs ==
      if bb.config.durable && old(bb.frozenWALs) != [] then old(bb.frozenWALs)[1..] else old(bb.frozenWALs)
  {
    if !bb.config.durable { return; }
    if |bb.frozenWALs| > 0 { bb.frozenWALs := bb.frozenWALs[1..]; }
  }
}
