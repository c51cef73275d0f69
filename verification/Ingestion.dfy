/** Ingestion: requests turned into entries, and batches split by key hash. */
module Ingestion {
  import opened Entries
  import opened LittleEndian
  import opened ByteStream
  import opened MemoryTable

  datatype IngestReq = IngestReq(key: Key, val: seq<Byte>, ttl: int, deleted: bool)

  // ---------- From requests to entries ----------

  /** A positive ttl in seconds becomes an absolute time in nanoseconds, in 64-bit arithmetic; otherwise 0. */
  function Expiry(ttl: int, now: Int64): Int64 {
    if ttl > 0 then Signed(now + ttl * 1_000_000_000) else 0
  }

  /** The entry handed to the log. Its value buffer has the right length, but the bytes are copied into it
      only if `copies` holds; as it stands they are not. */
  function CreateEntry(req: IngestReq, now: Int64, copies: bool): Entry {
    Entry(req.key, if copies then req.val else Zeros(|req.val|), Expiry(req.ttl, now), req.deleted)
  }

  /** What a request becomes: its key and flag; in the memtable its value, in the log as many bytes, zero unless they are
      copied; no expiry for a ttl of zero or less, and otherwise the time `ttl` seconds from now in nanoseconds, as
      long as that is a 64-bit time. */
  ghost predicate MadeFrom(e: Entry, req: IngestReq, now: Int64, copies: bool) {
    && e.key == req.key && e.deleted == req.deleted && |e.value| == |req.val|
    && (forall i :: 0 <= i < |req.val| ==> e.value[i] == if copies then req.val[i] else 0)
    && (req.ttl <= 0 ==> e.expiry == 0)
    && (req.ttl > 0 && now + req.ttl * 1_000_000_000 < 0x8000_0000_0000_0000 ==>
        e.expiry == now + req.ttl * 1_000_000_000)
  }

  lemma EntryFields(req: IngestReq, now: Int64, copies: bool)
    ensures MadeFrom(CreateEntry(req, now, copies), req, now, copies)
  {
  }

  function LogEntries(batch: seq<IngestReq>, now: Int64, copies: bool): (es: seq<Entry>)
    ensures |es| == |batch|
    ensures forall i :: 0 <= i < |es| ==> es[i] == CreateEntry(batch[i], now, copies)
  {
    seq(|batch|, i requires 0 <= i < |batch| => CreateEntry(batch[i], now, copies))
  }

  /** What the memtable receives: the request's own bytes with the entry's expiry. */
  function LiveEntries(batch: seq<IngestReq>, now: Int64): seq<Entry> {
    LogEntries(batch, now, true)
  }

  predicate BatchFits(batch: seq<IngestReq>) {
    forall i :: 0 <= i < |batch| ==> |batch[i].key| < TWO_TO_32 && |batch[i].val| < TWO_TO_32
  }

  lemma LogEntriesFit(batch: seq<IngestReq>, now: Int64, copies: bool)
    requires BatchFits(batch)
    ensures AllFit(LogEntries(batch, now, copies))
  {
  }

  // ---------- Splitting a batch by shard ----------

  function ShardOf(hash: Hash, shards: nat, key: Key): nat
    requires shards > 0
  {
    hash(key) % shards
  }

  /** The items of one shard, in request order. */
  function ShardList(items: seq<IngestReq>, hash: Hash, shards: nat, id: nat): seq<IngestReq>
    requires shards > 0
  {
    if items == [] then []
    else
      var last := items[|items| - 1];
      ShardList(items[..|items| - 1], hash, shards, id) + (if ShardOf(hash, shards, last.key) == id then [last] else [])
  }

  method GroupItemsByShard(items: seq<IngestReq>, hash: Hash, shards: nat) returns (batches: map<nat, seq<IngestReq>>)
    requires shards > 0
    ensures SplitOf(batches, items, hash, shards)
    ensures forall id, i :: id in batches && 0 <= i < |batches[id]| ==> hash(batches[id][i].key) % shards == id
    ensures forall k :: var id := hash(k) % shards;
      KeyList(items, k) == if id in batches then KeyList(batches[id], k) else []
  {
    batches := map[];
    for i := 0 to |items|
      invariant SplitOf(batches, items[..i], hash, shards)
    {
      assert items[..i + 1][..i] == items[..i];
      var id := ShardOf(hash, shards, items[i].key);
      var list := if id in batches then batches[id] else [];
      batches := batches[id := list + [items[i]]];
    }
    assert items[..|items|] == items;
    SplitByHash(batches, items, hash, shards);
  }

  lemma SplitByHash(lists: map<nat, seq<IngestReq>>, items: seq<IngestReq>, hash: Hash, shards: nat)
    requires shards > 0 && SplitOf(lists, items, hash, shards)
    ensures forall id, i :: id in lists && 0 <= i < |lists[id]| ==> hash(lists[id][i].key) % shards == id
    ensures forall k :: var id := hash(k) % shards; KeyList(items, k) == if id in lists then KeyList(lists[id], k) else []
  {
    hide KeyList, ShardList;
    forall id, i | id in lists && 0 <= i < |lists[id]| ensures hash(lists[id][i].key) % shards == id {
      OwnShard(items, hash, shards, id, i);
    }
    forall k ensures var id := hash(k) % shards; KeyList(items, k) == if id in lists then KeyList(lists[id], k) else [] {
      KeyListOfShard(items, hash, shards, hash(k) % shards, k);
      EmptyKeyList(k);
    }
  }

  /** `sched` is some interleaving of the lists, each in its own order: its last item is the last of some
      list, and the rest interleaves what is left. */
  ghost predicate Interleaves(lists: map<nat, seq<IngestReq>>, sched: seq<IngestReq>)
    decreases |sched|
  {
    if sched == [] then forall id :: id in lists ==> lists[id] == []
    else exists id :: LastOf(lists, sched, id) && Interleaves(WithoutLast(lists, id), sched[..|sched| - 1])
  }

  ghost predicate LastOf(lists: map<nat, seq<IngestReq>>, sched: seq<IngestReq>, id: nat)
    requires sched != []
  {
    id in lists && lists[id] != [] && lists[id][|lists[id]| - 1] == sched[|sched| - 1]
  }

  ghost function WithoutLast(lists: map<nat, seq<IngestReq>>, id: nat): map<nat, seq<IngestReq>>
  {
    if id in lists && lists[id] != [] then lists[id := lists[id][..|lists[id]| - 1]] else lists
  }

  /** The items for one key, in order. */
  function KeyList(items: seq<IngestReq>, k: Key): seq<IngestReq> {
    if items == [] then []
    else
      var last := items[|items| - 1];
      KeyList(items[..|items| - 1], k) + (if last.key == k then [last] else [])
  }

  lemma {:induction false} KeyListOfShard(items: seq<IngestReq>, hash: Hash, shards: nat, id: nat, k: Key)
    requires shards > 0
    ensures KeyList(ShardList(items, hash, shards, id), k) == if ShardOf(hash, shards, k) == id then KeyList(items, k) else []
  {
    if items != [] {
      var n := |items| - 1;
      KeyListOfShard(items[..n], hash, shards, id, k);
      KeyListSnoc(ShardList(items[..n], hash, shards, id), items[n], k);
      assert ShardList(items[..n], hash, shards, id) + [] == ShardList(items[..n], hash, shards, id);
    }
  }

  lemma KeyListSnoc(items: seq<IngestReq>, x: IngestReq, k: Key)
    ensures KeyList(items + [x], k) == KeyList(items, k) + (if x.key == k then [x] else [])
  {
    assert (items + [x])[..|items|] == items;
  }

  /** In an interleaving whose lists hold only keys of their own shard, the items for a key are those of the
      key's shard, in order. */
  lemma {:induction false} KeyListOfInterleaving(lists: map<nat, seq<IngestReq>>, sched: seq<IngestReq>,
                                                 hash: Hash, shards: nat, k: Key)
    requires shards > 0 && Interleaves(lists, sched)
    requires forall id, i :: id in lists && 0 <= i < |lists[id]| ==> ShardOf(hash, shards, lists[id][i].key) == id
    ensures var s := ShardOf(hash, shards, k); KeyList(sched, k) == if s in lists then KeyList(lists[s], k) else []
    decreases |sched|
  {
    if sched != [] {
      var n := |sched| - 1;
      var id :| LastOf(lists, sched, id) && Interleaves(WithoutLast(lists, id), sched[..n]);
      var rest := WithoutLast(lists, id);
      KeyListOfInterleaving(rest, sched[..n], hash, shards, k);
      var s := ShardOf(hash, shards, k);
      if s != id {
        assert lists[id][|lists[id]| - 1].key != k;
      }
    }
  }

  lemma LiveSnoc(items: seq<IngestReq>, now: Int64)
    requires items != []
    ensures var n := |items| - 1; var e := CreateEntry(items[n], now, true);
      ToMap(LiveEntries(items, now)) == ToMap(LiveEntries(items[..n], now))[e.key := e]
  {
    hide ToMap, CreateEntry;
    var n := |items| - 1;
    var e := CreateEntry(items[n], now, true);
    assert LiveEntries(items, now) == LiveEntries(items[..n], now) + [e];
    ToMapSnoc(LiveEntries(items[..n], now), e);
  }

  lemma {:induction false} LastForKey(items: seq<IngestReq>, now: Int64, k: Key)
    ensures k in ToMap(LiveEntries(items, now)) <==> KeyList(items, k) != []
    ensures KeyList(items, k) != [] ==>
      ToMap(LiveEntries(items, now))[k] == CreateEntry(KeyList(items, k)[|KeyList(items, k)| - 1], now, true)
  {
    hide ToMap, LiveEntries, CreateEntry;
    if items == [] {
      NoLiveEntries(now);
    } else {
      var n := |items| - 1;
      LastForKey(items[..n], now, k);
      LiveSnoc(items, now);
      OwnKey(items[n], now);
    }
  }

  lemma OwnKey(req: IngestReq, now: Int64)
    ensures CreateEntry(req, now, true).key == req.key
  {
  }

  lemma NoLiveEntries(now: Int64)
    ensures ToMap(LiveEntries([], now)) == map[]
  {
    assert LiveEntries([], now) == [];
  }

  /** The batches a request splits into. */
  ghost predicate SplitOf(lists: map<nat, seq<IngestReq>>, items: seq<IngestReq>, hash: Hash, shards: nat)
    requires shards > 0
  {
    && (forall id :: id in lists <==> ShardList(items, hash, shards, id) != [])
    && (forall id :: id in lists ==> lists[id] == ShardList(items, hash, shards, id))
  }

  lemma SameKeyLists(items: seq<IngestReq>, lists: map<nat, seq<IngestReq>>, sched: seq<IngestReq>,
                     hash: Hash, shards: nat, k: Key)
    requires shards > 0 && SplitOf(lists, items, hash, shards) && Interleaves(lists, sched)
    ensures KeyList(sched, k) == KeyList(items, k)
  {
    hide KeyList, Interleaves, ShardList;
    forall id, i | id in lists && 0 <= i < |lists[id]| ensures ShardOf(hash, shards, lists[id][i].key) == id {
      OwnShard(items, hash, shards, id, i);
    }
    KeyListOfInterleaving(lists, sched, hash, shards, k);
    KeyListOfShard(items, hash, shards, ShardOf(hash, shards, k), k);
    EmptyKeyList(k);
  }

  /** Any interleaving of the per-shard lists, in any dispatch order, leaves the same newest entry per key as
      applying the items in request order. */
  lemma ShardingPreservesOrder(items: seq<IngestReq>, lists: map<nat, seq<IngestReq>>, sched: seq<IngestReq>,
                               hash: Hash, shards: nat, now: Int64)
    requires shards > 0 && SplitOf(lists, items, hash, shards) && Interleaves(lists, sched)
    ensures ToMap(LiveEntries(sched, now)) == ToMap(LiveEntries(items, now))
  {
    hide *;
    forall k ensures Lookup(ToMap(LiveEntries(sched, now)), k) == Lookup(ToMap(LiveEntries(items, now)), k) {
      SameKeyLists(items, lists, sched, hash, shards, k);
      LookupByKeyList(sched, items, now, k);
    }
    SameLookups(ToMap(LiveEntries(sched, now)), ToMap(LiveEntries(items, now)));
  }

  lemma LookupByKeyList(a: seq<IngestReq>, b: seq<IngestReq>, now: Int64, k: Key)
    requires KeyList(a, k) == KeyList(b, k)
    ensures Lookup(ToMap(LiveEntries(a, now)), k) == Lookup(ToMap(LiveEntries(b, now)), k)
  {
    hide ToMap, LiveEntries, KeyList, CreateEntry;
    LastForKey(a, now, k);
    LastForKey(b, now, k);
  }

  lemma EmptyKeyList(k: Key)
    ensures KeyList([], k) == []
  {
  }

  lemma {:induction false} OwnShard(items: seq<IngestReq>, hash: Hash, shards: nat, id: nat, i: nat)
    requires shards > 0 && i < |ShardList(items, hash, shards, id)|
    ensures ShardOf(hash, shards, ShardList(items, hash, shards, id)[i].key) == id
  {
    var n := |items| - 1;
    if i < |ShardList(items[..n], hash, shards, id)| { OwnShard(items[..n], hash, shards, id, i); }
  }

  // ---------- Waiting for the shards ----------

  ghost predicate FirstError(responses: seq<Option<string>>, i: nat) {
    i < |responses| && responses[i].Some? && forall j :: 0 <= j < i ==> responses[j] == None
  }

  /** The dispatcher's wait: the first error among the answers, if there is one. */
  method AwaitBatches(responses: seq<Option<string>>) returns (finalErr: Option<string>)
    ensures finalErr == None <==> forall i :: 0 <= i < |responses| ==> responses[i] == None
    ensures finalErr.Some? ==> exists i: nat :: FirstError(responses, i) && responses[i] == finalErr
  {
    finalErr := None;
    for i := 0 to |responses|
      invariant finalErr == None <==> forall j :: 0 <= j < i ==> responses[j] == None
      invariant finalErr.Some? ==> exists j: nat :: FirstError(responses, j) && responses[j] == finalErr
    {
      var err := responses[i];
      if err.Some? && finalErr.None? {
        assert FirstError(responses, i);
        finalErr := err;
      }
    }
  }
}
