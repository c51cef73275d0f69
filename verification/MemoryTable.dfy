/** The in-memory table: 32 shards by key hash, with byte accounting. */
module MemoryTable {
  import opened Entries

  const SHARD_COUNT: nat := 32

  /** The 32-bit FNV-1a hash of a key, taken as a parameter. */
  type Hash = Key -> nat

  // ---------- Byte accounting ----------

  function EntrySize(e: Entry): nat {
    |e.key| + |e.value| + 16
  }

  /** The exact byte count of a table. */
  ghost function Bytes(m: Table): nat
    decreases |m|
  {
    if m == map[] then 0
    else
      var k :| k in m;
      EntrySize(m[k]) + Bytes(m - {k})
  }

  lemma {:induction false} BytesRemove(m: Table, k: Key)
    requires k in m
    ensures Bytes(m) == EntrySize(m[k]) + Bytes(m - {k})
    decreases |m|
  {
    var j :| j in m && Bytes(m) == EntrySize(m[j]) + Bytes(m - {j});
    if j != k {
      BytesRemove(m - {j}, k);
      BytesRemove(m - {k}, j);
      assert m - {j} - {k} == m - {k} - {j};
    }
  }

  lemma BytesPut(m: Table, k: Key, e: Entry)
    ensures Bytes(m[k := e]) == Bytes(m) - (if k in m then EntrySize(m[k]) else 0) + EntrySize(e)
  {
    BytesRemove(m[k := e], k);
    if k in m {
      BytesRemove(m, k);
      assert m[k := e] - {k} == m - {k};
    } else {
      assert m[k := e] - {k} == m;
    }
  }

  /** A table of one entry counts its key, its value and 16 bytes. */
  lemma BytesOfOne(k: Key, v: seq<Byte>, expiry: Int64, deleted: bool)
    ensures Bytes(map[k := Entry(k, v, expiry, deleted)]) == |k| + |v| + 16
  {
    BytesPut(map[], k, Entry(k, v, expiry, deleted));
    BytesOfNothing();
    assert map[][k := Entry(k, v, expiry, deleted)] == map[k := Entry(k, v, expiry, deleted)];
  }

  lemma RemoveFromRight(a: Table, b: Table, k: Key)
    requires k in b && k !in a
    ensures (a + b) - {k} == a + (b - {k}) && (a + b)[k] == b[k]
  {
  }

  lemma {:induction false} BytesDisjoint(a: Table, b: Table)
    requires a.Keys !! b.Keys
    ensures Bytes(a + b) == Bytes(a) + Bytes(b)
    decreases |b|
  {
    hide Bytes;
    if b == map[] {
      assert a + b == a;
      assert Bytes(map[]) == 0 by { BytesOfNothing(); }
    } else {
      var k :| k in b;
      var b' := b - {k};
      BytesDisjoint(a, b');
      RemoveFromRight(a, b, k);
      BytesRemove(b, k);
      BytesRemove(a + b, k);
    }
  }

  lemma BytesOfNothing()
    ensures Bytes(map[]) == 0
  {
  }

  // ---------- Shards laid side by side ----------

  /** Each key lives only in its hash shard, under its own key. */
  ghost predicate Sharded(hash: Hash, ms: seq<Table>) {
    && |ms| == SHARD_COUNT
    && (forall i, k :: 0 <= i < |ms| && k in ms[i] ==> hash(k) % SHARD_COUNT == i)
    && forall i :: 0 <= i < |ms| ==> KeyedByEntry(ms[i])
  }

  lemma ShardAnswers(hash: Hash, ms: seq<Table>, k: Key)
    requires Sharded(hash, ms)
    ensures Lookup(Union(ms), k) == Lookup(ms[hash(k) % SHARD_COUNT], k)
  {
    var s := hash(k) % SHARD_COUNT;
    UnionKeys(ms, k);
    if k in ms[s] { UnionNewest(ms, s, k); }
  }

  lemma PutInShard(hash: Hash, ms: seq<Table>, e: Entry)
    requires Sharded(hash, ms)
    ensures var s := hash(e.key) % SHARD_COUNT; var ms' := ms[s := ms[s][e.key := e]];
      Sharded(hash, ms') && Union(ms') == Union(ms)[e.key := e]
  {
    var s := hash(e.key) % SHARD_COUNT;
    var ms' := ms[s := ms[s][e.key := e]];
    forall k ensures Lookup(Union(ms'), k) == Lookup(Union(ms)[e.key := e], k) {
      hide Union;
      ShardAnswers(hash, ms, k);
      ShardAnswers(hash, ms', k);
    }
    SameLookups(Union(ms'), Union(ms)[e.key := e]);
  }

  lemma {:induction false} ShardsDisjoint(hash: Hash, ms: seq<Table>, n: nat)
    requires Sharded(hash, ms) && n < |ms|
    ensures Union(ms[..n]).Keys !! ms[n].Keys
    ensures Union(ms[..n + 1]) == Union(ms[..n]) + ms[n]
  {
    assert ms[..n + 1][..n] == ms[..n];
    forall k | k in Union(ms[..n]) ensures k !in ms[n] {
      UnionKeys(ms[..n], k);
      var i :| 0 <= i < n && k in ms[..n][i];
      assert hash(k) % SHARD_COUNT == i;
    }
  }

  // ---------- The table in memory ----------

  class MemoryShard {
    var data: Table
    var size: int

    constructor ()
      ensures data == map[] && size == 0
    {
      data, size := map[], 0;
    }
  }

  class ShardedMemoryTable {
    const hash: Hash
    const shards: seq<MemoryShard>

    ghost function Data(): (ms: seq<Table>)
      reads shards
      ensures |ms| == |shards|
      ensures forall i :: 0 <= i < |ms| ==> ms[i] == shards[i].data
    {
      seq(|shards|, i requires 0 <= i < |shards| reads shards => shards[i].data)
    }

    ghost predicate Valid()
      reads shards
    {
      && Sharded(hash, Data())
      && (forall i, j :: 0 <= i < j < |shards| ==> shards[i] != shards[j])
      && forall i :: 0 <= i < |shards| ==> shards[i].size == Bytes(shards[i].data)
    }

    /** The one map the shards make up. */
    ghost function Contents(): Table
      reads shards
    {
      Union(Data())
    }

    constructor (hash: Hash)
      ensures Valid() && this.hash == hash
      ensures forall i :: 0 <= i < |shards| ==> fresh(shards[i])
      ensures Contents() == map[] && |shards| == 32
    {
      var made: seq<MemoryShard> := [];
      for i := 0 to SHARD_COUNT
        invariant |made| == i
        invariant forall j :: 0 <= j < i ==> fresh(made[j]) && made[j].data == map[] && made[j].size == 0
        invariant forall j, k :: 0 <= j < k < i ==> made[j] != made[k]
      {
        var shard := new MemoryShard();
        made := made + [shard];
      }
      this.hash := hash;
      shards := made;
      new;
      EmptyUnion(Data());
    }

    method Put(key: Key, value: seq<Byte>, expiry: Int64, isDeleted: bool)
      requires Valid()
      modifies shards
      ensures Valid()
      ensures Contents() == old(Contents())[key := Entry(key, value, expiry, isDeleted)]
      ensures var s := hash(key) % 32;
        s < |shards| && key in shards[s].data && shards[s].data[key] == Entry(key, value, expiry, isDeleted)
    {
      ghost var before := Data();
      var e := Entry(key, value, expiry, isDeleted);
      PutInShard(hash, before, e);
      var s := hash(key) % SHARD_COUNT;
      var shard := shards[s];
      BytesPut(shard.data, key, e);
      var entrySize := |key| + |value| + 16;
      if key in shard.data {
        var found := shard.data[key];
        shard.size := shard.size - (|found.key| + |found.value| + 16);
      }
      shard.data := shard.data[key := e];
      shard.size := shard.size + entrySize;
      assert Data() == before[s := before[s][key := e]];
    }

    /** Puts in order, as the apply loop and the replay callback issue them. */
    method PutAll(es: seq<Entry>)
      requires Valid()
      modifies shards
      ensures Valid()
      ensures Contents() == old(Contents()) + ToMap(es)
    {
      hide *;
      for i := 0 to |es|
        invariant Valid()
        invariant Contents() == old(Contents()) + ToMap(es[..i])
      {
        var e := es[i];
        assert es[..i + 1] == es[..i] + [e];
        ToMapSnoc(es[..i], e);
        UpdateAfterUnion(old(Contents()), ToMap(es[..i]), e.key, e);
        Put(e.key, e.value, e.expiry, e.deleted);
        assert e == Entry(e.key, e.value, e.expiry, e.deleted);
      }
      assert es[..|es|] == es;
    }

    method Get(key: Key) returns (r: Option<Entry>)
      requires Valid()
      ensures r == Lookup(Contents(), key)
    {
      ShardAnswers(hash, Data(), key);
      var shard := shards[hash(key) % SHARD_COUNT];
      r := if key in shard.data then Some(shard.data[key]) else None;
    }

    /** Appends every entry, each key once, in an order that is up to the map iteration. */
    method DumpToSlice(out: seq<Entry>) returns (r: seq<Entry>)
      requires Valid()
      ensures out <= r
      ensures DistinctKeys(r[|out|..]) && ToMap(r[|out|..]) == Contents()
    {
      var dumped: seq<Entry> := [];
      DumpedNothing();
      for i := 0 to SHARD_COUNT
        invariant DistinctKeys(dumped) && ToMap(dumped) == Union(Data()[..i])
      {
        ShardsDisjoint(hash, Data(), i);
        assert KeyedByEntry(Data()[i]);
        dumped := DumpShard(shards[i], dumped);
      }
      assert Data()[..SHARD_COUNT] == Data();
      r := out + dumped;
      assert r[|out|..] == dumped;
    }

    method Size() returns (total: int)
      requires Valid()
      ensures total == Bytes(Contents())
    {
      total := 0;
      for i := 0 to SHARD_COUNT
        invariant total == Bytes(Union(Data()[..i]))
      {
        ShardsDisjoint(hash, Data(), i);
        BytesDisjoint(Union(Data()[..i]), Data()[i]);
        total := total + shards[i].size;
      }
      assert Data()[..SHARD_COUNT] == Data();
    }
  }

  lemma {:induction false} EmptyUnion(ms: seq<Table>)
    requires forall i :: 0 <= i < |ms| ==> ms[i] == map[]
    ensures Union(ms) == map[]
  {
    if ms != [] { EmptyUnion(ms[..|ms| - 1]); }
  }

  lemma DumpedNothing()
    ensures DistinctKeys([]) && ToMap([]) == map[] && Union([]) == map[]
  {
  }

  lemma DumpOne(es: seq<Entry>, e: Entry)
    requires DistinctKeys(es) && e.key !in ToMap(es)
    ensures DistinctKeys(es + [e]) && ToMap(es + [e]) == ToMap(es)[e.key := e]
  {
    ToMapSnoc(es, e);
    forall i | 0 <= i < |es| ensures es[i].key != e.key { ToMapAt(es, i); }
  }

  /** The inner loop of a dump: one shard's map in any order. */
  method DumpShard(shard: MemoryShard, out: seq<Entry>) returns (r: seq<Entry>)
    requires DistinctKeys(out) && ToMap(out).Keys !! shard.data.Keys
    requires KeyedByEntry(shard.data)
    ensures DistinctKeys(r) && ToMap(r) == ToMap(out) + shard.data
  {
    hide ToMap, DistinctKeys;
    var left := shard.data;
    r := out;
    while left.Keys != {}
      invariant DistinctKeys(r) && KeyedByEntry(left)
      invariant ToMap(r).Keys !! left.Keys && ToMap(r) + left == ToMap(out) + shard.data
      decreases |left|
    {
      var k :| k in left.Keys;
      DumpOne(r, left[k]);
      MoveKey(ToMap(r), left, k);
      r := r + [left[k]];
      left := left - {k};
    }
    assert ToMap(r) + left == ToMap(r);
  }

  lemma MoveKey(a: Table, b: Table, k: Key)
    requires k in b
    ensures a[k := b[k]] + (b - {k}) == a + b
  {
  }
}
