/** Reads over runs of the machine: what a read spread over agent steps returns, and reading through the cache. */
module Reading {
  import opened Entries
  import opened SortedTable
  import opened BloomFilter
  import opened Compaction
  import opened Ingestion
  import opened Lsm
  import opened AnyTies
  import WriteAheadLog
  import Lru = LruCache
  import Layers

  // ---------- Reads of the machine are reads of its layers ----------

  lemma LevelIsLayer(tables: seq<SSTable>, bloom: Bloom, k: Key)
    requires bloom.Valid() && forall t :: t in tables ==> Covers(bloom, t)
    ensures SearchLevel(tables, bloom, k) == Layers.Search(Contents(tables), k)
  {
    hide *;
    FilterIsTransparent(tables, bloom, k);
    SearchIsUnion(tables, k);
    Layers.SearchIsLookup(Contents(tables), k);
  }

  lemma ReadsAreLayerReads(s: State, k: Key)
    requires BloomInv(s)
    ensures s.bloom.Valid()
    ensures SearchLevel(s.l0, s.bloom, k) == Layers.Search(LayersOf(s).l0, k)
    ensures SearchLevel(s.l1, s.bloom, k) == Layers.Search(LayersOf(s).l1, k)
    ensures ReadMemory(s, k) == Layers.MemorySearch(LayersOf(s), k)
  {
    hide Covers, SearchLevel, Layers.Search, Contents, Bloom.Valid;
    forall t | t in s.l0 || t in s.l1 ensures Covers(s.bloom, t) { assert t in AllTables(s); }
    LevelIsLayer(s.l0, s.bloom, k);
    LevelIsLayer(s.l1, s.bloom, k);
  }

  lemma ReadIsLayerRead(a: State, b: State, d: State, k: Key)
    requires BloomInv(a) && BloomInv(b) && BloomInv(d)
    ensures b.bloom.Valid() && d.bloom.Valid()
    ensures ReadAcross(a, b, d, k) == Layers.Read(LayersOf(a), LayersOf(b), LayersOf(d), k)
  {
    hide BloomInv, ReadMemory, SearchLevel, Layers.Search, LayersOf, Bloom.Valid;
    ReadsAreLayerReads(a, k);
    ReadsAreLayerReads(b, k);
    ReadsAreLayerReads(d, k);
  }

  // ---------- A read spread over a run ----------

  ghost function At(c: Config, s: State, steps: seq<Step>, n: nat): State
    requires n <= |steps|
  {
    Lsm.Run(c, s, steps[..n])
  }

  lemma {:induction false} LegalForPrefix(c: Config, s: State, steps: seq<Step>, n: nat, k: Key)
    requires LegalFor(c, s, steps, k) && n <= |steps|
    ensures LegalFor(c, s, steps[..n], k)
    decreases |steps|
  {
    hide Enabled, AgreeOn, Lsm.Run;
    if n < |steps| {
      LegalForPrefix(c, s, steps[..|steps| - 1], n, k);
      assert steps[..|steps| - 1][..n] == steps[..n];
    } else {
      assert steps[..n] == steps;
    }
  }

  /** At every point of a run that errs on no merge of the key, the key's layers are those of its moves. */
  lemma AtIsLayersAt(c: Config, s: State, steps: seq<Step>, n: nat, k: Key)
    requires Inv(s) && LegalFor(c, s, steps, k) && n <= |steps|
    ensures BloomInv(At(c, s, steps, n)) && At(c, s, steps, n).bloom.Valid()
    ensures var l, mvs := Layers.Cut(LayersOf(s), k), CutMoves(c, steps, k);
      Layers.Cut(LayersOf(At(c, s, steps, n)), k) == Layers.At(l, mvs, n)
  {
    hide Inv, LegalFor, LayersOf, Lsm.Run, Layers.Run, LooseInv, Layers.Cut, BloomInv, Layers.CutMove, MoveOf;
    LegalForPrefix(c, s, steps, n, k);
    LegalForIsPossible(c, s, steps[..n], k);
    RunKeepsLoose(c, s, steps[..n]);
    LooseParts(At(c, s, steps, n));
    RunMovesCut(c, s, steps[..n], k);
    assert CutMoves(c, steps, k)[..n] == CutMoves(c, steps[..n], k);
  }

  /** A compaction step commits tables that hold the key, and they were taken since a point of the run or level 0
      did not shadow them there. */
  ghost predicate CommitsFresh(c: Config, s: State, steps: seq<Step>, from: nat, q: nat, k: Key)
    requires from <= q < |steps|
  {
    && steps[q].CommitMerge? && SearchTables(Taken(At(c, s, steps, q)), k).Some?
    && (SearchTables(At(c, s, steps, from).l0, k) == None || exists p :: from <= p < q && steps[p].TakeTables?)
  }

  /** What level 1 holds for the key goes back no further than a point of the run. */
  ghost predicate LevelOneFresh(c: Config, s: State, steps: seq<Step>, from: nat, n: nat, k: Key)
    requires from <= n <= |steps|
  {
    var a := At(c, s, steps, from);
    || (SearchTables(a.l0, k) == None && SearchTables(Taken(a), k) == None)
    || exists q :: from <= q < n && CommitsFresh(c, s, steps, from, q, k)
  }

  /** One of a read's looks decides rightly: memory or level 0 holds the key, or level 1 is fresh since the first
      look. */
  ghost predicate SomeLookDecides(c: Config, s: State, steps: seq<Step>, i: nat, j: nat, n: nat, k: Key)
    requires i <= j <= n <= |steps|
  {
    || ReadMemory(At(c, s, steps, i), k).Some?
    || SearchTables(At(c, s, steps, j).l0, k).Some?
    || LevelOneFresh(c, s, steps, i, n, k)
  }

  lemma DecidesAlike(c: Config, s: State, steps: seq<Step>, i: nat, j: nat, n: nat, k: Key)
    requires Inv(s) && LegalFor(c, s, steps, k) && i <= j <= n <= |steps|
    ensures var l, mvs := Layers.Cut(LayersOf(s), k), CutMoves(c, steps, k);
      SomeLookDecides(c, s, steps, i, j, n, k) <==> Layers.SomeLookDecides(l, mvs, i, j, n, k)
  {
    hide Inv, LegalFor, LayersOf, At, Layers.At, SearchTables, Layers.Search, Layers.Cut, Layers.MemorySearch, MoveOf,
         ReadMemory, Taken, BloomInv, Layers.LevelOneFresh, LevelOneFresh;
    var a, b := At(c, s, steps, i), At(c, s, steps, j);
    AtIsLayersAt(c, s, steps, i, k);
    AtIsLayersAt(c, s, steps, j, k);
    ReadsAreLayerReads(a, k);
    Layers.CutNewest(LayersOf(a), k);
    TakenIsCut(b, k);
    FreshAlike(c, s, steps, i, n, k);
  }

  lemma FreshAlike(c: Config, s: State, steps: seq<Step>, from: nat, n: nat, k: Key)
    requires Inv(s) && LegalFor(c, s, steps, k) && from <= n <= |steps|
    ensures var l, mvs := Layers.Cut(LayersOf(s), k), CutMoves(c, steps, k);
      LevelOneFresh(c, s, steps, from, n, k) <==> Layers.LevelOneFresh(l, mvs, from, n, k)
  {
    hide Inv, LegalFor, LayersOf, At, Layers.At, SearchTables, Layers.Search, Layers.Cut, Taken, BloomInv;
    var l, mvs := Layers.Cut(LayersOf(s), k), CutMoves(c, steps, k);
    AtIsLayersAt(c, s, steps, from, k);
    TakenIsCut(At(c, s, steps, from), k);
    forall q | from <= q < n
      ensures CommitsFresh(c, s, steps, from, q, k) <==> Layers.CommitsFresh(l, mvs, from, q, k)
    {
      AtIsLayersAt(c, s, steps, q, k);
      TakenIsCut(At(c, s, steps, q), k);
      CompactionMoves(c, steps[q], k);
      forall p | from <= p < q ensures mvs[p].Take? <==> steps[p].TakeTables? { CompactionMoves(c, steps[p], k); }
    }
  }

  lemma CompactionMoves(c: Config, step: Step, k: Key)
    ensures Layers.CutMove(MoveOf(c, step), k).Commit? <==> step.CommitMerge?
    ensures Layers.CutMove(MoveOf(c, step), k).Take? <==> step.TakeTables?
  {
    hide ToMap, LiveEntries, Layers.CutTable;
  }

  lemma TakenIsCut(s: State, k: Key)
    ensures SearchTables(Taken(s), k) == Layers.Search(Layers.Cut(LayersOf(s), k).taken, k)
    ensures SearchTables(s.l0, k) == Layers.Search(Layers.Cut(LayersOf(s), k).l0, k)
  {
    hide SearchTables, Layers.Search, Contents, Taken;
    TakenIsLayer(s, k);
    LevelSearch(s, k);
    Layers.CutSearch(LayersOf(s).taken, k);
    Layers.CutSearch(LayersOf(s).l0, k);
  }

  /** A read that looks at memory, then at level 0, then at level 1, with any agent steps in between, returns
      an entry (or absence) that was the newest for its key at some moment between its first and last look, if one
      of its looks decides rightly. Merges may err on any other key. */
  lemma GetIsLinearizable(c: Config, s: State, steps: seq<Step>, i: nat, j: nat, n: nat, k: Key)
    requires Inv(s) && LegalFor(c, s, steps, k) && i <= j <= n <= |steps| && SomeLookDecides(c, s, steps, i, j, n, k)
    ensures At(c, s, steps, j).bloom.Valid() && At(c, s, steps, n).bloom.Valid()
    ensures exists m :: (i <= m <= n &&
      ReadAcross(At(c, s, steps, i), At(c, s, steps, j), At(c, s, steps, n), k) == Lookup(View(At(c, s, steps, m)), k))
  {
    hide Inv, LegalFor, At, ReadAcross, Layers.At, SearchTables, Layers.Newest, Layers.View, SomeLookDecides, Layers.Cut,
         Layers.SomeLookDecides, BloomInv, LayersOf, Layers.Read, MoveOf;
    var l, mvs := Layers.Cut(LayersOf(s), k), CutMoves(c, steps, k);
    AtIsLayersAt(c, s, steps, i, k);
    AtIsLayersAt(c, s, steps, j, k);
    AtIsLayersAt(c, s, steps, n, k);
    var a, b, d := At(c, s, steps, i), At(c, s, steps, j), At(c, s, steps, n);
    RunMovesCut(c, s, steps, k);
    DecidesAlike(c, s, steps, i, j, n, k);
    Layers.ReadIsLinearizable(l, mvs, i, j, n, k);
    ReadIsLayerRead(a, b, d, k);
    Layers.CutRead(LayersOf(a), LayersOf(b), LayersOf(d), k);
    var m :| i <= m <= n && Layers.Newest(Layers.At(l, mvs, m), k) == ReadAcross(a, b, d, k);
    AtIsLayersAt(c, s, steps, m, k);
    Layers.CutNewest(LayersOf(At(c, s, steps, m)), k);
    Layers.NewestIsView(LayersOf(At(c, s, steps, m)), k);
  }

  /** Any other read answers with what level 1 holds, although at every moment from its first look to its last
      level 0 or the tables taken held the key. */
  lemma OtherGetIsOld(c: Config, s: State, steps: seq<Step>, i: nat, j: nat, n: nat, m: nat, k: Key)
    requires Inv(s) && LegalFor(c, s, steps, k) && i <= j <= n <= |steps| && i <= m <= n
    requires !SomeLookDecides(c, s, steps, i, j, n, k)
    ensures At(c, s, steps, j).bloom.Valid() && At(c, s, steps, n).bloom.Valid()
    ensures ReadAcross(At(c, s, steps, i), At(c, s, steps, j), At(c, s, steps, n), k) == SearchTables(At(c, s, steps, n).l1, k)
    ensures SearchTables(At(c, s, steps, m).l0, k).Some? || SearchTables(Taken(At(c, s, steps, m)), k).Some?
  {
    hide Inv, LegalFor, At, ReadAcross, Layers.At, SearchTables, Layers.Search, Layers.Cut, SomeLookDecides,
         Layers.SomeLookDecides, BloomInv, LayersOf, Layers.Read, MoveOf, ReadMemory, Taken;
    var l, mvs := Layers.Cut(LayersOf(s), k), CutMoves(c, steps, k);
    AtIsLayersAt(c, s, steps, i, k);
    AtIsLayersAt(c, s, steps, j, k);
    AtIsLayersAt(c, s, steps, n, k);
    AtIsLayersAt(c, s, steps, m, k);
    var a, b, d := At(c, s, steps, i), At(c, s, steps, j), At(c, s, steps, n);
    RunMovesCut(c, s, steps, k);
    DecidesAlike(c, s, steps, i, j, n, k);
    Layers.OtherReadIsOld(l, mvs, i, j, n, m, k);
    ReadIsLayerRead(a, b, d, k);
    Layers.CutRead(LayersOf(a), LayersOf(b), LayersOf(d), k);
    LevelOneIsCut(d, k);
    TakenIsCut(At(c, s, steps, m), k);
  }

  /** In particular a read is right if no compaction holds its key when it looks at level 0, or if one that does is
      committed before it looks at level 1. */
  lemma NothingTakenDecides(c: Config, s: State, steps: seq<Step>, i: nat, j: nat, n: nat, q: nat, k: Key)
    requires Inv(s) && LegalFor(c, s, steps, k) && i <= j <= n <= |steps|
    requires SearchTables(Taken(At(c, s, steps, j)), k) == None ||
      (j <= q < n && steps[q].CommitMerge? && SearchTables(Taken(At(c, s, steps, q)), k).Some?)
    ensures SomeLookDecides(c, s, steps, i, j, n, k)
  {
    hide Inv, LegalFor, At, Layers.At, SearchTables, Layers.Search, Layers.Cut, SomeLookDecides, Layers.SomeLookDecides,
         BloomInv, LayersOf, MoveOf, Taken;
    RunMovesCut(c, s, steps, k);
    DecidesAlike(c, s, steps, i, j, n, k);
    AtIsLayersAt(c, s, steps, j, k);
    TakenIsCut(At(c, s, steps, j), k);
    if j <= q < n {
      AtIsLayersAt(c, s, steps, q, k);
      TakenIsCut(At(c, s, steps, q), k);
      CompactionMoves(c, steps[q], k);
    }
    Layers.NothingTakenDecides(Layers.Cut(LayersOf(s), k), CutMoves(c, steps, k), i, j, n, q, k);
  }

  lemma LevelOneIsCut(s: State, k: Key)
    ensures SearchTables(s.l1, k) == Layers.Search(Layers.Cut(LayersOf(s), k).l1, k)
  {
    hide SearchTables, Layers.Search, Contents;
    LevelSearch(s, k);
    Layers.CutSearch(LayersOf(s).l1, k);
  }

  lemma TakenIsLayer(s: State, k: Key)
    ensures SearchTables(Taken(s), k) == Layers.Search(LayersOf(s).taken, k)
  {
    hide SearchTables, Layers.Search, Contents;
    SearchIsUnion(Taken(s), k);
    Layers.SearchIsLookup(Contents(Taken(s)), k);
  }

  /** Memory or level 0 decides, or the taken tables do not hold the key, or they hold for it just what level 1
      does. */
  ghost predicate OutsideWindow(s: State, k: Key) {
    || ReadMemory(s, k).Some? || SearchTables(s.l0, k).Some?
    || SearchTables(Taken(s), k) == None || SearchTables(Taken(s), k) == SearchTables(s.l1, k)
  }

  /** A read of a single state is right exactly outside a compaction's window on its key. */
  lemma AtomicReadRightIff(s: State, k: Key)
    requires BloomInv(s)
    ensures s.bloom.Valid()
    ensures Lsm.Read(s, k) == Lookup(View(s), k) <==> OutsideWindow(s, k)
  {
    hide BloomInv, ReadMemory, SearchLevel, SearchTables, Layers.Search, LayersOf, Bloom.Valid, Layers.Newest, Layers.View;
    ReadIsLayerRead(s, s, s, k);
    ReadsAreLayerReads(s, k);
    Layers.ReadRightIff(LayersOf(s), k);
    Layers.NewestIsView(LayersOf(s), k);
    TakenIsLayer(s, k);
    LevelSearch(s, k);
  }

  lemma LevelSearch(s: State, k: Key)
    ensures SearchTables(s.l0, k) == Layers.Search(LayersOf(s).l0, k)
    ensures SearchTables(s.l1, k) == Layers.Search(LayersOf(s).l1, k)
  {
    hide SearchTables, Layers.Search, Contents;
    SearchIsUnion(s.l0, k);
    SearchIsUnion(s.l1, k);
    Layers.SearchIsLookup(Contents(s.l0), k);
    Layers.SearchIsLookup(Contents(s.l1), k);
  }

  // ---------- The cache ----------

  /** What is cached for the key is the value of its newest entry, which is no tombstone. */
  ghost predicate CachedRight(s: State, k: Key) {
    forall x :: x in s.cache && x.key == k ==> k in View(s) && !View(s)[k].deleted && View(s)[k].value == x.value
  }

  /** A read that has to go past the cache falls outside a compaction's window on its key. */
  ghost predicate ReadSound(s: State, step: Step) {
    step.Fetch? ==> Lru.Holds(s.cache, step.key) || OutsideWindow(s, step.key)
  }

  /** A batch takes its own keys out of the cache and nothing else. */
  lemma {:induction false} ForgetExactly(cache: Lru.Items, batch: seq<IngestReq>, k: Key)
    ensures Lru.Cached(Forget(cache, batch), k) ==
      if exists i :: 0 <= i < |batch| && batch[i].key == k then None else Lru.Cached(cache, k)
  {
    hide Lru.Without, Lru.Cached;
    if batch != [] {
      var n := |batch| - 1;
      ForgetExactly(cache, batch[..n], k);
      Lru.CachedWithout(Forget(cache, batch[..n]), batch[n].key, k);
      if i :| 0 <= i < |batch| && batch[i].key == k && i < n { assert batch[..n][i].key == k; }
    }
  }

  lemma {:induction false} ForgetMembers(cache: Lru.Items, batch: seq<IngestReq>)
    ensures forall x :: x in Forget(cache, batch) ==> x in cache && forall i :: 0 <= i < |batch| ==> batch[i].key != x.key
  {
    hide Lru.Without;
    if batch != [] {
      var n := |batch| - 1;
      ForgetMembers(cache, batch[..n]);
      Lru.WithoutMembers(Forget(cache, batch[..n]), batch[n].key);
      forall x | x in Forget(cache, batch)
        ensures x in cache && forall i :: 0 <= i < |batch| ==> batch[i].key != x.key
      {
        forall i | 0 <= i < |batch| ensures batch[i].key != x.key {
          if i < n { assert batch[..n][i] == batch[i]; }
        }
      }
    }
  }

  lemma LiveKeys(batch: seq<IngestReq>, now: Int64, k: Key)
    requires k in ToMap(LiveEntries(batch, now))
    ensures exists i :: 0 <= i < |batch| && batch[i].key == k
  {
    var es := LiveEntries(batch, now);
    var i :| 0 <= i < |es| && es[i] == ToMap(es)[k];
    assert batch[i].key == k;
  }

  lemma InsertMembers(items: Lru.Items, capacity: int, k: Key, v: seq<Byte>)
    ensures forall x :: x in Lru.Insert(items, capacity, k, v) ==> x == Lru.Item(k, v) || x in items
    ensures forall x :: x in Lru.Retrieve(items, k) ==> x in items
  {
    hide Lru.Without, Lru.Holds, Lru.Cached;
    Lru.WithoutMembers(items, k);
  }

  /** A batch that is applied takes its keys out of the cache; no other step but a read touches the cache. */
  lemma StepForgets(c: Config, s: State, step: Step, x: Lru.Item)
    requires Enabled(c, s, step) && s.bloom.Valid() && !step.Fetch? && x in Do(c, s, step).cache
    ensures x in s.cache && x.key !in ToMap(PutsOf(c, step))
  {
    hide ToMap, LiveEntries, LogEntries, WriteAheadLog.Encode, Forget, MergedTable, Merge, Scans, WriteTable, StrictlySorted,
         Bloom.AddAll, Bloom.Valid;
    match step
    case Apply(batch, now, _) =>
      ForgetMembers(s.cache, batch);
      if Accepted(c, step) && x.key in ToMap(PutsOf(c, step)) { LiveKeys(batch, now, x.key); }
      MapOfNothing();
    case _ => MapOfNothing();
  }

  /** The value a read outside the window finds is that of the newest entry, and that entry is live. */
  lemma DirectIsNewest(s: State, k: Key, now: Int64)
    requires BloomInv(s) && OutsideWindow(s, k)
    ensures s.bloom.Valid() && Direct(s, k, now) == Respond(Lookup(View(s), k), now)
  {
    hide BloomInv, View, Lsm.Read, OutsideWindow, Bloom.Valid;
    AtomicReadRightIff(s, k);
  }

  /** What a read outside the window answers for a key: not found for a tombstone and from the nanosecond after a
      positive expiry on, and otherwise the value. */
  lemma AnswerOfEntry(s: State, k: Key, now: Int64)
    requires BloomInv(s) && OutsideWindow(s, k)
    ensures s.bloom.Valid()
    ensures var e := Lookup(View(s), k);
      Direct(s, k, now) ==
        if e == None || e.value.deleted || 0 < e.value.expiry < now then NotFound else Found(e.value.value)
    ensures !Lru.Holds(s.cache, k) ==> Serve(s, k, now) == Direct(s, k, now)
    ensures forall x :: Lru.Cached(s.cache, k) == Some(x) ==> Serve(s, k, now) == Found(x.value)
  {
    hide BloomInv, View, Direct, OutsideWindow, Lru.Cached, Lru.Holds, Bloom.Valid;
    DirectIsNewest(s, k, now);
  }

  /** A put with a positive ttl and whatever comes after it but another write of the key: a read outside the window that
      the cache does not answer gives the value exactly until the ttl has passed. */
  lemma TtlAnswers(c: Config, s: State, req: IngestReq, written: Int64, outcome: WriteAheadLog.WriteOutcome, rest: seq<Step>, now: Int64)
    requires Inv(s) && Accepted(c, Apply([req], written, outcome)) && req.key !in ToMap(AppliedBy(c, rest))
    requires LegalFor(c, s, [Apply([req], written, outcome)] + rest, req.key)
    requires !req.deleted && req.ttl > 0 && 0 <= written && written + req.ttl * 1_000_000_000 < 0x8000_0000_0000_0000
    requires var t := Lsm.Run(c, s, [Apply([req], written, outcome)] + rest);
      BloomInv(t) && OutsideWindow(t, req.key) && !Lru.Holds(t.cache, req.key)
    ensures var t := Lsm.Run(c, s, [Apply([req], written, outcome)] + rest);
      && t.bloom.Valid()
      && Serve(t, req.key, now) ==
         if now <= written + req.ttl * 1_000_000_000 then Found(req.val) else NotFound
  {
    hide Inv, BloomInv, OutsideWindow, LegalFor, View, ToMap, Serve, Direct, AppliedBy, Lsm.Run, CreateEntry, Lru.Holds, LiveEntries;
    var step := Apply([req], written, outcome);
    var steps := [step] + rest;
    UndisputedKeyStaysNewest(c, s, steps, req.key);
    AppliedAppend(c, [step], rest);
    AppliedOne(c, step);
    ToMapAppend(LiveEntries([req], written), AppliedBy(c, rest));
    MapOfPut(req, written);
    EntryFields(req, written, true);
    assert CreateEntry(req, written, true).value == req.val;
    AnswerOfEntry(Lsm.Run(c, s, steps), req.key, now);
  }

  lemma AppliedOne(c: Config, step: Step)
    requires Accepted(c, step)
    ensures AppliedBy(c, [step]) == LiveEntries(step.batch, step.now)
  {
    hide LiveEntries;
    assert [step][..0] == [];
    assert AppliedBy(c, [step]) == AppliedBy(c, []) + LiveEntries(step.batch, step.now);
  }

  lemma MapOfPut(req: IngestReq, now: Int64)
    ensures ToMap(LiveEntries([req], now)) == map[CreateEntry(req, now, true).key := CreateEntry(req, now, true)]
  {
    hide CreateEntry;
    var e := CreateEntry(req, now, true);
    assert LiveEntries([req], now) == [] + [e];
    ToMapSnoc([], e);
    MapOfNothing();
  }

  lemma FetchKeepsCache(c: Config, s: State, key: Key, now: Int64, k: Key)
    requires BloomInv(s) && CachedRight(s, k) && (key == k ==> ReadSound(s, Fetch(key, now)))
    ensures s.bloom.Valid() && CachedRight(DoFetch(c, s, key, now), k)
  {
    hide BloomInv, Layers.View, Direct, OutsideWindow, Lru.Insert, Lru.Retrieve, Lru.Holds, Bloom.Valid;
    BloomValid(s);
    if key == k && !Lru.Holds(s.cache, key) { DirectIsNewest(s, k, now); }
    var s' := DoFetch(c, s, key, now);
    assert LayersOf(s') == LayersOf(s);
    match Direct(s, key, now)
    case Found(v) => InsertMembers(s.cache, c.cacheCapacity, key, v);
    case NotFound => InsertMembers(s.cache, c.cacheCapacity, key, []);
  }

  lemma BloomValid(s: State)
    requires BloomInv(s)
    ensures s.bloom.Valid()
  {
  }

  lemma StepKeepsCache(c: Config, s: State, step: Step, k: Key)
    requires Enabled(c, s, step) && LooseInv(s) && MergeRightFor(s, k) && CachedRight(s, k)
    requires step.Fetch? && step.key == k ==> ReadSound(s, step)
    ensures s.bloom.Valid() && CachedRight(Do(c, s, step), k)
  {
    hide Do, Enabled, LooseInv, MergeRightFor, View, ReadSound, BloomInv, ToMap, PutsOf;
    LooseParts(s);
    if step.Fetch? {
      FetchKeepsCache(c, s, step.key, step.now, k);
      FetchStep(c, s, step);
    } else {
      var s' := Do(c, s, step);
      StepLookup(c, s, step, k);
      forall x | x in s'.cache && x.key == k ensures k in View(s') && !View(s')[k].deleted && View(s')[k].value == x.value {
        StepForgets(c, s, step, x);
      }
    }
  }

  lemma FetchStep(c: Config, s: State, step: Step)
    requires Enabled(c, s, step) && s.bloom.Valid() && step.Fetch?
    ensures Do(c, s, step) == DoFetch(c, s, step.key, step.now)
  {
    hide DoFetch;
  }

  /** Every read of the key in the run is sound in the sense of `ReadSound`. */
  ghost predicate ReadsSound(c: Config, s: State, steps: seq<Step>, k: Key) {
    steps == [] ||
    (var t, step := Lsm.Run(c, s, steps[..|steps| - 1]), steps[|steps| - 1];
     ReadsSound(c, s, steps[..|steps| - 1], k) && (step.Fetch? && step.key == k ==> ReadSound(t, step)))
  }

  /** In every reachable state what is cached for a key is the value of its newest entry, and that entry is no
      tombstone. Merges and reads of other keys may err. */
  lemma {:induction false} RunKeepsCache(c: Config, s: State, steps: seq<Step>, k: Key)
    requires Inv(s) && CachedRight(s, k) && LegalFor(c, s, steps, k) && ReadsSound(c, s, steps, k)
    ensures CachedRight(Lsm.Run(c, s, steps), k)
    decreases |steps|
  {
    hide Do, Enabled, Inv, CachedRight, ReadSound, LooseInv, MergeRightFor, AgreeOn;
    if steps != [] {
      var before := steps[..|steps| - 1];
      RunKeepsCache(c, s, before, k);
      LegalForIsPossible(c, s, before, k);
      LegalForIsPossible(c, s, steps, k);
      RunKeepsLoose(c, s, before);
      RunMergesRight(c, s, before, k);
      PossibleUnfolds(c, s, steps);
      StepKeepsCache(c, Lsm.Run(c, s, before), steps[|steps| - 1], k);
    }
  }

  /** Reading through the cache equals reading without it exactly when the key is not cached or its newest
      entry has not expired: the cache does not keep the expiry. */
  lemma ReadThroughIff(s: State, k: Key, now: Int64)
    requires BloomInv(s) && CachedRight(s, k) && OutsideWindow(s, k)
    ensures s.bloom.Valid()
    ensures Serve(s, k, now) == Direct(s, k, now) <==>
      !Lru.Holds(s.cache, k) || (k in View(s) && !Expired(View(s)[k], now))
  {
    hide BloomInv, View, Direct, OutsideWindow, Lru.Cached, Lru.Holds, Bloom.Valid;
    DirectIsNewest(s, k, now);
  }

  /** Inside the window a read caches what level 1 holds for the key: the cache is right afterwards exactly when
      that answers not found, or is not kept for want of capacity, or has the value of the live newest entry. */
  lemma FetchInWindow(c: Config, s: State, k: Key, now: Int64)
    requires BloomInv(s) && !OutsideWindow(s, k) && !Lru.Holds(s.cache, k)
    ensures s.bloom.Valid()
    ensures var older, newer := Respond(SearchTables(s.l1, k), now), SearchTables(Taken(s), k);
      && newer.Some?
      && (CachedRight(DoFetch(c, s, k, now), k) <==>
          older == NotFound || (c.cacheCapacity <= 0 && s.cache == []) || (!newer.value.deleted && newer.value.value == older.value))
  {
    hide BloomInv, Lru.Holds, SearchTables, Layers.Search, SearchLevel, Bloom.Valid, Layers.View, Layers.Newest, LayersOf,
         ReadMemory, Lru.Insert;
    ReadsAreLayerReads(s, k);
    LevelSearch(s, k);
    TakenIsLayer(s, k);
    Layers.NewestByParts(LayersOf(s), k);
    Layers.NewestIsView(LayersOf(s), k);
    var older := Respond(SearchTables(s.l1, k), now);
    var s' := DoFetch(c, s, k, now);
    assert Direct(s, k, now) == older;
    SameView(s, s');
    if older.Found? { NewItem(s.cache, c.cacheCapacity, k, older.value); } else { NotCached(s.cache, k); }
  }

  lemma NewItem(items: Lru.Items, capacity: int, k: Key, v: seq<Byte>)
    requires !Lru.Holds(items, k)
    ensures forall x :: x in Lru.Insert(items, capacity, k, v) && x.key == k ==> x == Lru.Item(k, v)
    ensures (capacity > 0 || items != []) <==> Lru.Item(k, v) in Lru.Insert(items, capacity, k, v)
  {
    NotCached(items, k);
    var all := [Lru.Item(k, v)] + items;
    if capacity > 0 || items != [] { assert Lru.Insert(items, capacity, k, v)[0] == all[0]; }
  }

  lemma NotCached(items: Lru.Items, k: Key)
    requires !Lru.Holds(items, k)
    ensures forall x :: x in items ==> x.key != k
  {
  }

  lemma SameView(s: State, t: State)
    requires t == s.(cache := t.cache)
    ensures View(t) == View(s)
  {
  }
}
