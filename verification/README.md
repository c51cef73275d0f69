# Verification of the sndv-kv storage engine

This project models the LSM storage engine of sndv-kv (`internal/` and the recovery path of `cmd/server`) and
proves that its four agents (ingest, flush, compact, read), working on one shared state, behave like one map
from key to newest entry. `dafny verify dfyconfig.toml` checks all of it.

| file | models |
|---|---|
| `Entries.dfy` | entries, Go's byte-wise string order, sorted runs, tables as maps |
| `LittleEndian.dfy`, `ByteStream.dfy` | `encoding/binary` with its truncation, `io.ReadFull`, `copy` |
| `WriteAheadLog.dfy` | `WriteBatch` and `Replay` over a byte file, torn tails included |
| `SortedTable.dfy` | table writer with offset index, `SSTableReader.Next`, `FindInSSTable` |
| `BloomFilter.dfy` | probe arithmetic, 64-bit words, 32 shards |
| `MergeHeap.dfy`, `Compaction.dfy` | the heap, `mergeIterators`, `performMerge` |
| `TwoRunMerge.dfy` | which of two runs wins a shared key in the heap as coded |
| `MemoryTable.dfy` | the 32-way sharded memtable with byte accounting |
| `LruCache.dfy` | the cache: list, key index, capacity |
| `Ingestion.dfy` | entry creation, sharding of batches |
| `Layers.dfy` | tables moving between layers, and reads spread over such moves |
| `Lsm.dfy` | the byte-level machine: every agent step, its invariants, and the refinement to one map |
| `AnyTies.dfy` | whole runs when merges may keep an older entry, and runs as seen by one key |
| `Reading.dfy`, `Durability.dfy` | reads and the cache over runs; logs, retirement, recovery and restart over runs |
| `SplitReads.dfy` | many reads at once, each in pieces between the steps of the agents |
| `Scenarios.dfy` | runs of a store started empty that end where code and intent differ |
| `SystemState.dfy` (module `Core`), `IngestionAgent.dfy`, `FlushAgent.dfy`, `CompactionAgent.dfy`, `HttpRouter.dfy` | the shared state as an object over those structures, and the agents' functions as methods, each proved to take exactly one step of the machine |
| `ShardLoop.dfy` | the ingest shards: queues, the serving loop over that store, replies, dispatch |

A step of the machine is one critical section, or one ingest batch (one ingest shard, as in
`config_safe.json`), or the unlocked writing of a table file. The reads of `Layers.ReadIsLinearizable` and
`Reading.GetIsLinearizable` look at memory, level 0 and level 1 in three different states; those of `SplitReads`
are separate steps of many reads, cache check and cache filling included.

## Where the code and its intent differ

The model follows the code. For each difference a lemma says when the code does what is intended, and
`Scenarios` shows runs of a store started empty in which it does not.

- Merge ties: `MergeHeap.Less` compares keys only. `Compaction.KeyOnlyMergeKeepsOld` shows the older entry
  winning for every older run [a, b] and newer run [b']; `TwoRunMerge.KeyOnlyMergeOfTwoIff` says exactly which
  pairs of runs the heap as coded merges right, and `Compaction.KeyOnlyMergeIff` which runs come out right under
  every order the comparison allows. The machine carries a setting for ties; its one-map theorem holds with ties
  broken by run, or for merges of agreeing runs. With the comparison as it stands, over whole runs:
  `AnyTies.RunKeepsKeys` and `AnyTies.RunInventsNothing` say what always holds, `AnyTies.KeyStaysNewestIff` exactly
  when a key keeps its newest entry, and `Scenarios.OverwriteComesBack` is a run, at any compaction trigger, after
  which an overwritten entry shows again. Several one-entry runs of one key come out with the second oldest entry
  (`Compaction.KeyOnlyMergeOfEquals`), so two of them, as in the repository's own merge test, come out right.
- Log values: `createEntry` no longer fills the value copy. The machine carries a setting for that too;
  `Durability.RecoveredBytesIff` says when the bytes come back anyway.
- Compaction window: taken tables are in no level. `Layers.ReadInWindowMisses`, `Reading.OtherGetIsOld`,
  `Reading.AtomicReadRightIff`, `Reading.FetchInWindow` and `Scenarios.ReadCachesStale` describe it.
- Cache filling: a write between a read's look and its filling the cache can leave the old value cached
  (`Scenarios.WriteInReadCachesStale`); `SplitReads.FillRightIff` says exactly when a fill leaves the cache right, and
  `SplitReads.RunKeepsCacheIff` when it stays right all along a run.
- Failed log writes: `WriteAheadLog.WriteAfterTornWriteIff` and `Durability.FailedApplyKeepsPairingIff`.
- Log rotation and recovery: `Durability.RotationKeepsPairingIff`, `Scenarios.FailedRotationLosesLog` and
  `Durability.RestartKeepsStoreIff`.
- Batch replies are always nil: `ShardLoop.NilMeansAppliedIff`.
- The cache drops the expiry: `Reading.ReadThroughIff`.
- 32-bit length fields: `WriteAheadLog.RoundTripIff` and `SortedTable.ScanRoundTripIff`.

## Model

| member | source | states |
|---|---|---|
| Entries.BelowIsByteOrder | internal/agents/flush_agent.go:60-62 | the order of keys is that of Go strings: one key is below another if and only if at their first difference its byte is the smaller, or it ends there |
| WriteAheadLog.RoundTripIff | internal/storage/write_ahead_log.go:32-130 | replaying an encoded batch gives it back, with a nil result, if and only if every key and value length is below 2^32 |
| WriteAheadLog.DecodeRecord | internal/storage/write_ahead_log.go:90-125 | the decoder undoes the encoder on one record and leaves exactly what followed it |
| WriteAheadLog.DecodeTorn | internal/storage/write_ahead_log.go:91-115 | a record cut anywhere before its end does not decode |
| WriteAheadLog.ReplayConcat | internal/storage/write_ahead_log.go:79-130 | bytes after a log that replays cleanly replay as they would on their own |
| WriteAheadLog.ReplayAppend | internal/storage/write_ahead_log.go:32-130 | appending a batch to a clean log appends exactly that batch to the replay |
| WriteAheadLog.TornReplay | internal/storage/write_ahead_log.go:79-130 | a log cut at any byte delivers exactly the whole records before the cut, as many as fit, in order, and replays nil if and only if the cut is on a record boundary |
| WriteAheadLog.TornWrite | internal/storage/write_ahead_log.go:69-76 | the same after a write that kept only a prefix of its batch, on top of any clean log |
| WriteAheadLog.WriteAfterTornWriteIff | internal/storage/write_ahead_log.go:69-76 | on any clean log, after a failed write that kept any number of bytes, the records it kept and all of the next batch are replayed, and with nil, if and only if the failed write stopped on a record boundary |
| WriteAheadLog.RecordAfterTornWriteLost | internal/storage/write_ahead_log.go:20-25 | an instance: a record appended after one stray byte of a failed write is not replayed at all |
| WriteAheadLog.DiskWAL.WriteBatch | internal/storage/write_ahead_log.go:32-77 | the precomputed-size buffer holds exactly the encoding; a failed write keeps the given prefix and is reported |
| WriteAheadLog.DiskWAL.Replay | internal/storage/write_ahead_log.go:79-130 | the cursor loop delivers what the log replays to and returns nil exactly then |
| WriteAheadLog.PutRecord | internal/storage/write_ahead_log.go:44-67 | one record's fields land behind each other at the offset and nothing before it changes |
| WriteAheadLog.RecordLayout | internal/storage/write_ahead_log.go:44-67 | where the key length, key, value length, value, expiry and flag of a record lie |
| LittleEndian.U32Bytes | internal/storage/write_ahead_log.go:45-49 | a length becomes its four low bytes, least significant first, whatever its size |
| LittleEndian.I64Bytes | internal/storage/write_ahead_log.go:58-59 | a timestamp becomes the eight bytes of its two's complement, least significant first |
| LittleEndian.I64RoundTrip | internal/storage/write_ahead_log.go:58-59 | a signed timestamp survives its conversion to and from eight unsigned bytes |
| SortedTable.ScanRoundTripIff | internal/storage/sorted_string_table.go:41-62 | the sequential reader yields exactly the written entries and stops, if and only if every length is below 2^32 |
| SortedTable.FindWritten | internal/storage/sorted_string_table.go:138-169 | lookup by index offset returns the entry written last for the key if its own lengths fit, and not found for every key never written |
| SortedTable.FindIsScan | internal/storage/sorted_string_table.go:41-62 | lookup by offset agrees with a linear scan on every key |
| SortedTable.WrittenIsWellFormed | internal/storage/sorted_string_table.go:70-136 | a table written from sorted entries scans back to them and its lookups answer as their map |
| SortedTable.SSTableReader.Next | internal/storage/sorted_string_table.go:41-62 | one step of the reader, with its zero padding of short bodies |
| SortedTable.FillHeader | internal/storage/sorted_string_table.go:110-118 | the reused header buffer holds the entry's header after each fill |
| SortedTable.BlockLayout | internal/storage/sorted_string_table.go:107-122 | where the lengths, expiry, flag, key and value of a table entry lie |
| SortedTable.KeyBounds | internal/storage/sorted_string_table.go:91-100 | the key bounds of a sorted table are its least and its greatest key; level and file id are those given |
| SortedTable.WriteSortedStringTableToDisk | internal/storage/sorted_string_table.go:70-136 | the loop writes the encoded table, the offset index and the key bounds, and adds every key to the filter under the table's file id |
| BloomFilter.AddContains | internal/storage/bloom_filter.go:56-87 | no false negative right after an add |
| BloomFilter.AddKeeps | internal/storage/bloom_filter.go:56-87 | adding any key under any id never hides what the filter contained |
| BloomFilter.AddAllContains | internal/storage/sorted_string_table.go:102-104 | after a table is written the filter contains its keys and everything from before |
| BloomFilter.SetBitExactly | internal/storage/bloom_filter.go:66-67 | OR-ing a mask into a word sets that one bit of the shard and changes no other |
| BloomFilter.SetBitGrows | internal/storage/bloom_filter.go:66-67 | in particular no bit is ever cleared |
| BloomFilter.ProbeSteps | internal/storage/bloom_filter.go:60-66 | the first probe is the checksum modulo the number of bits, and each next one is further by the upper half of the checksum |
| BloomFilter.AddExactly | internal/storage/bloom_filter.go:56-87 | which keys of which ids an add makes the filter contain: just those of the same shard whose missing probes are all probes of the added key |
| BloomFilter.EmptyContainsNothing | internal/storage/bloom_filter.go:71-87 | a new filter that probes at all contains nothing |
| BloomFilter.SharedBloomFilter.constructor | internal/storage/bloom_filter.go:39-53 | clamping and per-shard sizing: 32 zeroed shards that together hold at least the wanted bits, by less than one bit per shard more |
| BloomFilter.SharedBloomFilter.Add | internal/storage/bloom_filter.go:56-69 | the probe loop on the shard's words is the abstract add; other shards are untouched |
| BloomFilter.SharedBloomFilter.Contains | internal/storage/bloom_filter.go:71-87 | true if and only if every probed bit is set |
| MergeHeap.UpIsHeap | internal/agents/compaction_agent.go:18-30 | sifting a pushed item up restores heap order |
| MergeHeap.DownIsHeap | internal/agents/compaction_agent.go:18-30 | sifting down restores heap order |
| MergeHeap.PopIsLeast | internal/agents/compaction_agent.go:144 | what is popped is a least item of the heap, so nothing that stays comes before it |
| MergeHeap.PopSettles | internal/agents/compaction_agent.go:144 | what a pop does at every position of the heap: the last item sinks, a child rises only if strictly before it, and of two children the right one only if strictly before the left |
| MergeHeap.LeftRisesOnTie | internal/agents/compaction_agent.go:21 | so of two equal children of the top the left one rises under the key-only comparison |
| MergeHeap.PushSettles | internal/agents/compaction_agent.go:154 | what a push does at every position: an item stays, or the new one comes there, or the parent that the new one precedes strictly |
| Compaction.MergePopsInOrder | internal/agents/compaction_agent.go:130-157 | the heap pops every item of every run, invents none, and none out of order |
| Compaction.AdvanceMeasure | internal/agents/compaction_agent.go:143-156 | heap size plus unread entries drops by exactly one per turn |
| Compaction.CollapseSorted | internal/agents/compaction_agent.go:146-151 | overwriting equal neighbours gives a strictly sorted run in which the last pop of each key has won |
| Compaction.WinnerOfPops | internal/agents/compaction_agent.go:130-158 | for any tie ranks a key is kept if and only if some run holds it, and its entry comes from a holder of greatest rank |
| Compaction.AnyTiesMerge | internal/agents/compaction_agent.go:21 | with the key-only comparison and any order among ties: output strictly sorted, keys exactly the union, every entry from some run |
| Compaction.MergeIsUnion | internal/agents/compaction_agent.go:130-158 | with ties broken by run the merge is the sorted right-biased union |
| Compaction.MergeIsTheSortedUnion | internal/agents/compaction_agent.go:130-158 | and it is the only sorted run that is |
| Compaction.KeyOnlyMergeIff | internal/agents/compaction_agent.go:21 | key-only comparison gives newest-wins under every allowed tie order if and only if runs agree on shared keys |
| Compaction.KeyOnlyMergeKeepsOld | internal/agents/compaction_agent.go:143-157 | counterexample family: the heap as coded outputs the older run [a, b] when a newer run [b'] shares b's key |
| Compaction.KeyOnlyMergeOfEquals | internal/agents/compaction_agent.go:143-157 | the heap as coded on any number of one-entry runs of one key: the second oldest entry wins |
| Compaction.KeyOnlyMergeOfSingles | internal/agents/agents_test.go:275-297 | so of two such runs the newer one wins |
| Compaction.KeyOnlyMergeOfFour | internal/agents/compaction_agent.go:130-158 | the heap as coded, where equal keys meet as two children: runs [a], [p], [q], [m] with p and q of one key between a and m merge to [a, q, m], so the newer of the two wins |
| TwoRunMerge.KeyOnlyMergeOfTwoIff | internal/agents/compaction_agent.go:18-30 | the heap as coded merges two runs newest-wins if and only if, for each key they share and disagree on, the greatest smaller key held by only one of them is the newer run's, or there is none |
| TwoRunMerge.PopsAreZip | internal/agents/compaction_agent.go:143-157 | the exact order in which two runs leave the heap, ties included: of equal heads the one pushed later comes out last |
| Compaction.MergedIsChosen | internal/agents/compaction_agent.go:97-158 | whatever the tie rule, a merged file is well-formed, holds exactly the keys of the originals, and each with an entry of one of them |
| Compaction.MergedIsUnion | internal/agents/compaction_agent.go:97-109 | reading, merging and writing table files yields a well-formed file that holds the right-biased union of the originals |
| Compaction.KeyOnlyMergedIsUnion | internal/agents/compaction_agent.go:97-109 | the same for the key-only comparison on files that agree on shared keys |
| Compaction.MergedFindsAsOriginals | internal/agents/compaction_agent.go:97-158 | a lookup in the merged file answers every key, tombstones included, as a newest-to-oldest search of the originals |
| Compaction.FillHeap | internal/agents/compaction_agent.go:134-138 | every reader's first entry enters the heap |
| Compaction.MergeIterators | internal/agents/compaction_agent.go:130-158 | the pop, overwrite, push loop over reader objects computes the merge, order of ties in the heap included (`MergeHeap.PopSettles`, `MergeHeap.PushSettles`) |
| Compaction.PerformMerge | internal/agents/compaction_agent.go:97-109 | on success the merged table, of level 1 and with the given file id, with its keys in the filter; on a file error nothing |
| MemoryTable.BytesPut | internal/storage/memory_table.go:52-72 | how one put changes the exact byte count of a table |
| MemoryTable.BytesOfOne | internal/storage/memory_table.go:52 | a table of one entry counts its key length, its value length and 16 |
| MemoryTable.ShardAnswers | internal/storage/memory_table.go:76-85 | the hash shard answers for the whole table |
| MemoryTable.ShardedMemoryTable.Put | internal/storage/memory_table.go:48-73 | the shards keep refining one map, now updated at the key; the entry lies in the shard with the number of its key's hash modulo 32; shard sizes are exact |
| MemoryTable.ShardedMemoryTable.PutAll | internal/agents/ingestion.go:235-241 | a sequence of puts leaves the last put for every key |
| MemoryTable.ShardedMemoryTable.Get | internal/storage/memory_table.go:76-85 | the last entry put for the key, or not found |
| MemoryTable.ShardedMemoryTable.DumpToSlice | internal/storage/memory_table.go:94-104 | appends every key exactly once with its entry, in any map order |
| MemoryTable.ShardedMemoryTable.Size | internal/storage/memory_table.go:107-113 | the exact sum of key length, value length and 16 over the table |
| LruCache.ReachableList | internal/cache/lru_cache.go:28-88 | after any operations: distinct keys, at most max(capacity, 0) of them, in order of last use |
| LruCache.NewKeyJoins | internal/cache/lru_cache.go:51-80 | in any reachable cache with room a new key joins at the front and nothing is evicted |
| LruCache.LengthIsKeysAdded | internal/cache/lru_cache.go:42-88 | without removals the length is the smaller of the capacity and the number of different keys ever inserted |
| LruCache.KeyStays | internal/cache/lru_cache.go:28-88 | an inserted key stays cached, with only keys used since before it, until it is removed or as many other keys as the capacity have been used |
| LruCache.EvictsLeastRecent | internal/cache/lru_cache.go:77-87 | a new key in a full cache evicts exactly the key used longest ago |
| LruCache.LargerCacheKeepsHits | internal/cache/lru_cache.go:28-88 | for any writes, erasures, plain inserts and read-then-insert-on-miss, the list at a capacity is a prefix, keys and values, of the list at any larger capacity, and whatever the smaller serves the larger serves alike |
| LruCache.LruCache.RetrieveFromCache | internal/cache/lru_cache.go:28-40 | the value of a hit, moved to the front; index and list keep the same keys and nodes |
| LruCache.LruCache.InsertIntoCache | internal/cache/lru_cache.go:42-53 | update in place and move to front, or push to the front and evict; with room a new key joins and every other stays |
| LruCache.LruCache.RemoveFromCache | internal/cache/lru_cache.go:55-63 | the key leaves list and index, the others keep their order |
| LruCache.LruCache.EnforceCapacity | internal/cache/lru_cache.go:77-88 | up to the capacity nothing goes; above it exactly the node at the back, and its index entry with it |
| Ingestion.EntryFields | internal/agents/ingestion.go:206-222 | key, flag and value of an entry are the request's, zeros for an uncopied value; a ttl that is not positive gives expiry 0, a positive one the time of writing plus ttl seconds in nanoseconds, if that fits 64 bits |
| Ingestion.GroupItemsByShard | internal/agents/ingestion.go:104-119 | each active shard, the key's hash modulo the number of shards, gets its own items in request order, so a key's requests all lie in one list as they came; only active shards get a list |
| Ingestion.ShardingPreservesOrder | internal/agents/ingestion.go:104-141 | every interleaving of the per-shard lists leaves the same newest entry per key as request order |
| Ingestion.AwaitBatches | internal/agents/ingestion.go:133-140 | nil if all replies are nil, otherwise the first error |
| ShardLoop.SinglesConserved | internal/agents/ingestion.go:143-196 | in any run the singles answered, followed by those queued, are exactly those submitted, in order |
| ShardLoop.BatchesConserved | internal/agents/ingestion.go:154-157 | the same for batches |
| ShardLoop.AnsweredOnce | internal/agents/ingestion.go:281-295 | a request submitted once is either still queued once or answered exactly once |
| ShardLoop.OneReplyPerActiveShard | internal/agents/ingestion.go:121-139 | a dispatched batch, once no shard has it queued any more, has been answered exactly once by each shard that got a part of it and by no other, whatever else the shards were asked |
| ShardLoop.AppliedIsServed | internal/agents/ingestion.go:143-241 | over any store and run, other agents' steps included, what the machine applies is, in order of service, the entries of exactly those answered requests whose log write it accepted |
| ShardLoop.AnswersAreFates | internal/agents/ingestion.go:184-195 | a single is answered nil if and only if its write was accepted; a batch always is |
| ShardLoop.NilMeansAppliedIff | internal/agents/ingestion.go:154-157 | the requests answered nil are, in order, exactly those whose entries the machine applied, if and only if every answered batch had its write accepted |
| ShardLoop.SinglesNilMeansApplied | internal/agents/ingestion.go:148-152 | where only singles are submitted that always holds |
| ShardLoop.AnsweredWritesAreTheStore | internal/agents/ingestion.go:143-241 | end to end: unless a batch was lost or a commit harms the key, what the store shows for a key after any run is the last write of it answered nil, or what it showed at the start |
| ShardLoop.DrainSingleQueue | internal/agents/ingestion.go:161-172 | takes the requests that are queued, at most 100, in order, and never blocks |
| ShardLoop.ProcessTurn | internal/agents/ingestion.go:174-255 | log, apply and rotate a full memtable: exactly the steps of the machine that the turn stands for |
| ShardLoop.IngestShard.TakeSingles | internal/agents/ingestion.go:148-152 | one turn on the single queue: the shard and the store move as the run says, and each request is answered with the fate of its write; it takes and answers the first 101 requests queued, or all if there are fewer |
| ShardLoop.IngestShard.TakeBatch | internal/agents/ingestion.go:154-157 | one turn on the batch queue, answered nil whatever has become of it |
| ShardLoop.SubmitBatchIngestion | internal/agents/ingestion.go:95-131 | every active shard makes just the move of being submitted its own items, once, in request order; other shards make none; any dispatch order |
| Layers.DoView | internal/agents/flush_agent.go:72-92 | no move of a table between layers changes any key's newest entry; a put changes it by exactly the put |
| Layers.ReadRightIff | internal/api/http_router.go:131-193 | a read of one state is right if and only if memory or level 0 decides, or the taken tables lack the key or agree with level 1 |
| Layers.ReadIsLinearizable | internal/api/http_router.go:153-193 | a read with moves between its three looks returns what was newest for the key at some moment between the first and the last, if memory or level 0 holds the key when looked at, or what level 1 holds at the last look is fresh since the first |
| Layers.OtherReadIsOld | internal/api/http_router.go:168-193 | any other read returns what level 1 holds although at every moment between its looks a layer above level 1 held the key |
| Layers.NothingTakenDecides | internal/api/http_router.go:168-193 | in particular a read is right if no compaction holds the key when it looks at level 0, or one that does is committed before it looks at level 1 |
| Layers.ReadInWindowMisses | internal/agents/compaction_agent.go:60-63 | counterexample: inside a compaction a key held only by the taken tables is missed |
| Lsm.StepKeepsTables | internal/agents/compaction_agent.go:46-95 | whatever the tie rule, every step keeps all table files well-formed and a written flush equal to the oldest frozen memtable |
| Lsm.StepKeepsFiles | internal/agents/compaction_agent.go:46-95 | with sound merges every step also keeps a written merge equal to the union of the taken tables |
| Lsm.StepKeepsBloom | internal/storage/bloom_filter.go:56-69 | every step keeps each table's keys in the filter under its file id |
| Lsm.FilterIsTransparent | internal/api/http_router.go:182-193 | searching a level with a filter that covers its tables finds what searching without it finds |
| Lsm.StepMovesLayers | internal/agents/flush_agent.go:33-102 | each step on bytes is its move on layers |
| Lsm.RunKeepsInv | internal/core/system_state.go:11-27 | in every state reachable with sound merges all invariants hold |
| Lsm.RunIsOneMap | internal/agents/compaction_agent.go:46-95 | in every run of apply, rotate, flush commit or failure, compaction take, commit or failure and reads, the first hit per key from memory down is the last entry applied for it |
| AnyTies.RunKeepsKeys | internal/agents/compaction_agent.go:21 | under any tie rule, in every run the keys with an entry are exactly those of the start and of accepted batches: compaction loses none and brings back none |
| AnyTies.RunInventsNothing | internal/agents/compaction_agent.go:130-158 | under any tie rule, in every run the entry a key shows was put for that key by an accepted batch, or was in the store for it at the start |
| AnyTies.KeyStaysNewestIff | internal/agents/compaction_agent.go:46-95 | under any tie rule, all along a run the store shows for a key the last entry applied for it if and only if every commit of the run has merged the key right or finds it in level 0 or memory |
| AnyTies.UndisputedKeyStaysNewest | internal/agents/compaction_agent.go:143-157 | in particular in every run in which the tables merged together never disagree on that key, whatever happens to other keys |
| AnyTies.RunFilterIsTransparent | internal/api/http_router.go:182-193 | in every run, under any tie rule, searching a level with the filter finds what searching without it finds |
| Scenarios.OverwriteComesBack | internal/agents/compaction_agent.go:84-95 | a possible run of a store started empty, at any trigger: a key is written three times or more, each write flushed, and the tables are compacted as coded; the store then shows the second write |
| AnyTies.RunMovesCut | internal/agents/flush_agent.go:33-102 | as far as a key is concerned on which no merge errs, every run of the machine is a run of the layers |
| Reading.GetIsLinearizable | internal/api/http_router.go:131-193 | a GET through filter and files, spread over any agent steps, returns an entry that was newest for its key at some moment between its looks, if memory or level 0 holds the key when looked at, or level 1 is fresh since the first look; merges may err on other keys |
| Reading.OtherGetIsOld | internal/api/http_router.go:168-193 | any other GET returns what level 1 holds although at every moment between its looks level 0 or the taken tables held the key |
| Reading.AtomicReadRightIff | internal/api/http_router.go:131-193 | when a GET of one state returns the newest entry, exactly |
| Reading.RunKeepsCache | internal/api/http_router.go:195-210 | if the uncached reads of a key fall outside the compaction window on it, in all reachable states its cached value is that of its newest entry, which is no tombstone, whatever reads and merges of other keys do |
| Reading.AnswerOfEntry | internal/api/http_router.go:195-210 | outside the window an uncached key answers not found if it has no entry, its newest is a tombstone, or that has a positive expiry before now, and otherwise that entry's value; a cached one answers the cached value |
| Reading.TtlAnswers | internal/agents/ingestion.go:206-241 | end to end: a put with a positive ttl, followed by any steps in which the key is not written again and no merge errs on it, is answered by an uncached read outside the window with its value exactly as long as the time read is at most the time of writing plus the ttl |
| Reading.ForgetExactly | internal/agents/ingestion.go:235-241 | applying a batch takes exactly the batch's keys out of the cache; every other key stays cached with its value |
| Reading.ReadThroughIff | internal/api/http_router.go:141-151 | reading through the cache equals reading without it if and only if the key is not cached or its newest entry has not expired |
| Reading.FetchInWindow | internal/api/http_router.go:205-206 | a read inside the window leaves the cache right for its key if and only if level 1 answers not found, or nothing can be cached, or it has the live newest value |
| SplitReads.FinishKeepsCacheIff | internal/api/http_router.go:195-210 | the end of a read leaves the cache right for its key if and only if there is nothing to cache, no room, or the value is that of the live newest entry |
| SplitReads.FillRightIff | internal/api/http_router.go:153-210 | a read that found what the store showed leaves the cache right if and only if its entry is not to be cached, or there is no room, or the key was not written since, or was last written with the same value |
| SplitReads.RunKeepsCacheIff | internal/api/http_router.go:131-210 | all along a run of reads in pieces and agent steps the cache is right for a key if and only if every fill of the key does no harm |
| SplitReads.UndisturbedReadsKeepCache | internal/api/http_router.go:131-210 | in particular if no batch with the key is applied within a read of it, and its reads look at level 1 when that decides |
| SplitReads.RunKeepsGets | internal/api/http_router.go:131-193 | in every run of reads in pieces and agent steps, what undisturbed reads of a key have found is its newest entry, whatever other reads do |
| SplitReads.GetAnswersNewest | internal/api/http_router.go:131-139 | so a read that ends undisturbed answers with the newest entry of its key |
| Scenarios.ReadCachesStale | internal/api/http_router.go:205-206 | a legal run of a store started empty, at any trigger and under any tie rule, after which a read inside a compaction has cached an overwritten value |
| Scenarios.WriteInReadCachesStale | internal/api/http_router.go:153-210 | a run of a store started empty in which a write between a read's look and its filling the cache leaves the old value cached |
| Durability.LogHasShapeOfLive | internal/agents/ingestion.go:206-241 | log and memtable get the same key, value length, expiry and tombstone for every request |
| Durability.StepKeepsLogsIff | internal/agents/ingestion.go:174-279 | a step keeps every log paired with its memtable if and only if its log write and its log rotation are sound: written, or kept only whole records that change nothing; and rotated |
| Durability.RunKeepsLogs | internal/agents/ingestion.go:174-279 | in every reachable state frozen log i replays to frozen memtable i and the active log to the memtable, whatever the merges do |
| Durability.RunKeepsLogsIff | internal/agents/ingestion.go:174-279 | they stay paired all along a run if and only if every log write and rotation in it is sound |
| Durability.FlushRetiresOwnLog | internal/agents/flush_agent.go:81-102 | a flush commit deletes exactly the log of the table it wrote |
| Durability.RotationKeepsPairingIff | internal/agents/ingestion.go:257-279 | a rotation keeps logs and memtables paired if and only if the new log could be opened |
| Scenarios.FailedRotationLosesLog | internal/agents/ingestion.go:268-279 | a legal run of a store started empty: after one failed and one successful rotation a flush commit deletes the only log of a table that is not flushed |
| Durability.FailedApply | internal/agents/ingestion.go:184-188 | what a failed log write leaves in the log, and that the memtable is as before |
| Durability.FailedApplyKeepsPairingIff | internal/agents/ingestion.go:184-188 | the pairing survives a failed log write if and only if it stopped on a record boundary and the records it kept change nothing of what the log replays to |
| Durability.TornApplyBreaksPairing | internal/agents/ingestion.go:184-188 | a write of a single record that fails half way always breaks it |
| Durability.RecoveryRebuilds | cmd/server/main.go:75-89 | what recovery rebuilds in every state: the memtable before the first rotation, with equal keys, expiries, tombstones, lengths and size; the first frozen memtable until it is flushed; then nothing |
| Durability.RecoveredBytesIff | internal/agents/ingestion.go:212-214 | with uncopied log values the recovered bytes are right if and only if all live values are zeros |
| Durability.RecoveryAfterCut | cmd/server/main.go:86-88 | a log cut at any byte recovers the table of the whole records before the cut |
| Durability.RestartKeepsStoreIff | cmd/server/main.go:75-89 | after any run a restart shows the same keys, lengths, expiries and tombstones if and only if no rotation has happened, or nothing is flushed yet and nothing written since the first rotation differs from what that froze, or the store is empty; likewise for the value bytes if the log carries them |
| Durability.RestartKeepsView | cmd/server/main.go:75-89 | in particular after any run without a rotation |
| Durability.StartIsSound | internal/core/system_state.go:29-39 | the state after recovery satisfies everything that runs keep |
| Core.SystemState.constructor | internal/core/system_state.go:29-39 | the initial state: empty memtable, four empty levels, no log |
| IngestionAgent.PrepareEntries | internal/agents/ingestion.go:198-204 | one log entry per request, in order, with the request's key and flag and the expiry its ttl gives: none, or the time of writing plus ttl seconds |
| IngestionAgent.WriteWalIfEnabled | internal/agents/ingestion.go:224-233 | only the active log changes, by the encoded batch or the prefix a failed write kept |
| IngestionAgent.ApplyToMemTable | internal/agents/ingestion.go:235-241 | the batch reaches the memtable with the live values and its keys leave the cache |
| IngestionAgent.ProcessBatch | internal/agents/ingestion.go:174-196 | log, then apply: one apply step of the machine, reported ok exactly when accepted |
| IngestionAgent.RotateWal | internal/agents/ingestion.go:268-279 | the active log is frozen and a new one takes over, or nothing happens |
| IngestionAgent.RotateMemTable | internal/agents/ingestion.go:257-266 | memtable and log rotate together |
| IngestionAgent.CheckRotation | internal/agents/ingestion.go:243-254 | one rotate step exactly when the memtable has reached its size |
| IngestionAgent.RecoverWal | cmd/server/main.go:75-89 | the configured log becomes active and its replay is put into the memtable; nothing without durability or without a file |
| IngestionAgent.StartServer | cmd/server/main.go:55-61 | a new store and then recovery: the server comes up if and only if the log opens and replays cleanly or durability is off, and then in the start state of the runs |
| FlushAgent.SortByKey | internal/agents/flush_agent.go:60-62 | a strictly ascending permutation of the dump, in the byte order of Go strings, that holds the same table |
| FlushAgent.ProcessFlush | internal/agents/flush_agent.go:43-70 | one write-flush step for the oldest frozen memtable, giving a level-0 table with the file id taken, or a failed one without a trace |
| FlushAgent.CommitFlush | internal/agents/flush_agent.go:72-102 | the table joins level 0 while the oldest frozen memtable and log go |
| CompactionAgent.TakeLevelZero | internal/agents/compaction_agent.go:46-63 | nothing below the trigger, otherwise one take step |
| CompactionAgent.MergeTaken | internal/agents/compaction_agent.go:68-71 | one write-merge step, or an error without a trace |
| CompactionAgent.FinishCompaction | internal/agents/compaction_agent.go:73-95 | the merged table joins level 1, or the taken tables go back below what level 0 has received |
| CompactionAgent.CheckAndRunCompaction | internal/agents/compaction_agent.go:46-95 | a whole round, completed or failed, keeps the keys and shows only entries that were in the store; with ties broken by run, or level-0 tables that agree on shared keys, every key's newest entry stays as it was |
| HttpRouter.TryServeFromCache | internal/api/http_router.go:141-151 | the cached value, moved to the front, or nothing |
| HttpRouter.SearchMemory | internal/api/http_router.go:153-166 | memtable first, then the frozen ones from newest to oldest |
| HttpRouter.SearchOneLevel | internal/api/http_router.go:182-193 | the newest table that the filter lets through and that finds the key |
| HttpRouter.SearchDisk | internal/api/http_router.go:168-180 | the levels in order |
| HttpRouter.ProcessEntry | internal/api/http_router.go:195-210 | a tombstone, or a positive expiry before now, answers not found and leaves the cache; any other entry is cached and its value served |
| HttpRouter.FindAndServe | internal/api/http_router.go:131-139 | one read step of the machine; past the cache the answer is that of the entry found: its value, unless it is a tombstone or its positive expiry is before now |

## Left out

- HTTP parsing, JSON, tokens, metrics, logging and configuration loading: plumbing around libraries.
- Real files: a file is its bytes; open, create and log write failures are outcomes the caller passes in. Errors of the table writer's buffered writes and flush, which the original ignores, are not modelled, nor is a table file removed between a read's snapshot of a level and its lookup.
- The Go memory model and several ingest shards running inside `applyToMemTable` at once: a batch applies in one step. What several shards do to the order of items is `Ingestion.ShardingPreservesOrder`; `ShardLoop` runs one shard over the store.
- Clocks, file ids, FNV-1a and CRC-32: the current time and file ids are parameters, the hashes are arbitrary functions of their inputs.
- The floating-point sizing formula of the filter: bit and hash counts are inputs.
- `container/list` and `sort.Slice`: a list is a sequence of node objects, and sorting is an insertion sort with the same contract.
- 64-bit overflow of byte counts and file offsets.
- Levels 2 and 3: no code puts a table there; the searches still pass over them.
- Lsm.RunIsOneMap: requests have keys and values shorter than 2^32 bytes, because longer ones do not survive the length fields (see `SortedTable.ScanRoundTripIff`); a merge step breaks ties by run or merges runs that agree on shared keys, because the key-only comparison is otherwise wrong (`Compaction.KeyOnlyMergeIff`); `AnyTies.KeyStaysNewestIff` has the exact condition, key by key.
- Lsm.RunKeepsInv: the same about merges; `AnyTies.RunKeepsLoose` is what holds without.
- CompactionAgent.CheckAndRunCompaction: no other agent's step falls between its three parts; with such steps the round is a run of the three methods' steps, which the run theorems cover.
- HttpRouter.SearchDisk: both levels are searched with no step in between, and so is the whole of `HttpRouter.FindAndServe`; the looks at different moments are those of `Reading.GetIsLinearizable` and `SplitReads.RunKeepsGets`.
- ShardLoop.ProcessTurn: no other agent's step falls between a batch's apply and the rotation it causes.
- SortedTable.WriteSortedStringTableToDisk: the file id is a parameter and not parsed from the file name, and a file that cannot be created is the caller's outcome.
- Interleaved logs after a restart: the machine starts from one cleanly replayed log at the configured path; a log whose replay fails stops the server from starting.
