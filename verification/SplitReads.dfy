/** Reads in pieces: any number of GETs, each asking the cache, looking at memory, at level 0 and at level 1, and
    filling the cache in separate steps, between the steps of the agents and of each other. */
module SplitReads {
  import opened Entries
  import opened SortedTable
  import opened BloomFilter
  import opened Compaction
  import opened Ingestion
  import opened Lsm
  import opened AnyTies
  import opened Reading
  import Lru = LruCache
  import Layers

  /** How far a read has come that the cache could not answer. */
  datatype Get = Asked(key: Key) | MemoryMissed(key: Key) | LevelZeroMissed(key: Key)
               | Ended(key: Key, found: Option<Entry>)

  datatype World = World(store: State, gets: map<nat, Get>)

  datatype Move =
    | Agent(step: Step)
    | Ask(id: nat, key: Key)
    | LookAtMemory(id: nat)
    | LookAtLevelZero(id: nat)
    | LookAtLevelOne(id: nat)
    | Finish(id: nat, now: Int64)

  ghost predicate Able(c: Config, w: World, mv: Move) {
    match mv
    case Agent(step) => !step.Fetch? && Enabled(c, w.store, step)
    case Ask(id, _) => id !in w.gets
    case LookAtMemory(id) => id in w.gets && w.gets[id].Asked?
    case LookAtLevelZero(id) => id in w.gets && w.gets[id].MemoryMissed?
    case LookAtLevelOne(id) => id in w.gets && w.gets[id].LevelZeroMissed?
    case Finish(id, _) => id in w.gets && w.gets[id].Ended?
  }

  function Next(c: Config, w: World, mv: Move): World
    requires Able(c, w, mv) && w.store.bloom.Valid()
  {
    var s := w.store;
    match mv
    case Agent(step) => w.(store := Lsm.Do(c, s, step))
    case Ask(id, k) =>
      if Lru.Holds(s.cache, k) then w.(store := s.(cache := Lru.Retrieve(s.cache, k)))
      else w.(gets := w.gets[id := Asked(k)])
    case LookAtMemory(id) =>
      var k := w.gets[id].key;
      w.(gets := w.gets[id := if ReadMemory(s, k).Some? then Ended(k, ReadMemory(s, k)) else MemoryMissed(k)])
    case LookAtLevelZero(id) =>
      var k := w.gets[id].key;
      var e := SearchLevel(s.l0, s.bloom, k);
      w.(gets := w.gets[id := if e.Some? then Ended(k, e) else LevelZeroMissed(k)])
    case LookAtLevelOne(id) =>
      var k := w.gets[id].key;
      w.(gets := w.gets[id := Ended(k, SearchLevel(s.l1, s.bloom, k))])
    case Finish(id, now) =>
      var t := w.(gets := w.gets - {id});
      match Respond(w.gets[id].found, now)
      case Found(v) => t.(store := s.(cache := Lru.Insert(s.cache, c.cacheCapacity, w.gets[id].key, v)))
      case NotFound => t
  }

  ghost function Moves(c: Config, w: World, mvs: seq<Move>): World {
    if mvs == [] then w
    else
      var v := Moves(c, w, mvs[..|mvs| - 1]);
      if v.store.bloom.Valid() && Able(c, v, mvs[|mvs| - 1]) then Next(c, v, mvs[|mvs| - 1]) else v
  }

  /** Every move is able to be made, and no merge errs on the key. */
  ghost predicate Feasible(c: Config, w: World, mvs: seq<Move>, k: Key) {
    mvs == [] ||
    (var v := Moves(c, w, mvs[..|mvs| - 1]);
     Feasible(c, w, mvs[..|mvs| - 1], k) && Able(c, v, mvs[|mvs| - 1]) && MergeSafe(c, v, mvs[|mvs| - 1], k))
  }

  ghost predicate MergeSafe(c: Config, w: World, mv: Move, k: Key) {
    mv.Agent? && mv.step.WriteMerge? ==> c.tieBySource || AgreeOn(Contents(Taken(w.store)), k)
  }

  ghost predicate StoreInv(s: State, k: Key) {
    LooseInv(s) && MergeRightFor(s, k)
  }

  /** What some reads of a key ask of the other moves: a batch with the key is not applied between such a read's look
      at memory and its end, and such a read looks at level 1 when that decides. */
  ghost predicate Considerate(c: Config, w: World, mv: Move, k: Key, ids: iset<nat>) {
    match mv
    case Agent(step) =>
      k in ToMap(PutsOf(c, step)) ==> forall id :: id in w.gets && id in ids && w.gets[id].key == k ==> w.gets[id].Asked?
    case LookAtLevelOne(id) =>
      id in w.gets && id in ids && w.gets[id].key == k ==>
        SearchTables(w.store.l0, k) == None && OutsideWindow(w.store, k)
    case _ => true
  }

  ghost predicate Polite(c: Config, w: World, mvs: seq<Move>, k: Key, ids: iset<nat>) {
    mvs == [] ||
    (Polite(c, w, mvs[..|mvs| - 1], k, ids) && Considerate(c, Moves(c, w, mvs[..|mvs| - 1]), mvs[|mvs| - 1], k, ids))
  }

  /** What holds for a read of the key after each of its pieces, as long as nothing is put for the key. */
  ghost predicate GetRight(s: State, g: Get, k: Key) {
    match g
    case Asked(_) => true
    case MemoryMissed(_) => ReadMemory(s, k) == None
    case LevelZeroMissed(_) => ReadMemory(s, k) == None
    case Ended(_, e) => e == Lookup(View(s), k)
  }

  ghost predicate GetsRight(w: World, k: Key, ids: iset<nat>) {
    forall id :: id in w.gets && id in ids && w.gets[id].key == k ==> GetRight(w.store, w.gets[id], k)
  }

  // ---------- Steps of the agents ----------

  /** A step that puts nothing for the key leaves its newest entry as it was, and keeps it out of memory. */
  lemma QuietForKey(c: Config, s: State, step: Step, k: Key)
    requires Enabled(c, s, step) && LooseInv(s) && MergeRightFor(s, k) && k !in ToMap(PutsOf(c, step))
    ensures s.bloom.Valid()
    ensures Lookup(View(Lsm.Do(c, s, step)), k) == Lookup(View(s), k)
    ensures ReadMemory(s, k) == None ==> ReadMemory(Lsm.Do(c, s, step), k) == None
  {
    hide Lsm.Do, Enabled, LooseInv, MergeRightFor, LayersOf, Layers.View, ToMap, Layers.Search, Layers.Do, Layers.Cut,
         Layers.Allowed;
    LooseParts(s);
    StepLookup(c, s, step, k);
    StepMovesCut(c, s, step, k);
    var s' := Lsm.Do(c, s, step);
    Layers.CutNewest(LayersOf(s), k);
    Layers.CutNewest(LayersOf(s'), k);
    PutsOfMove(c, step, k);
    MemoryOfLayers(s, k);
    MemoryOfLayers(s', k);
    if ReadMemory(s, k) == None {
      Layers.MemoryStaysWithout(Layers.Cut(LayersOf(s), k), Layers.CutMove(MoveOf(c, step), k), k);
    }
  }

  lemma PutsOfMove(c: Config, step: Step, k: Key)
    ensures var mv := Layers.CutMove(MoveOf(c, step), k); mv.Put? && k in mv.puts ==> k in ToMap(PutsOf(c, step))
  {
    hide ToMap, LiveEntries;
  }

  lemma MemoryOfLayers(s: State, k: Key)
    ensures ReadMemory(s, k) == Layers.MemorySearch(LayersOf(s), k)
  {
    hide Layers.Search;
  }

  lemma AgentKeepsGets(c: Config, w: World, step: Step, k: Key, ids: iset<nat>)
    requires Able(c, w, Agent(step)) && StoreInv(w.store, k) && GetsRight(w, k, ids) && Considerate(c, w, Agent(step), k, ids)
    ensures w.store.bloom.Valid() && GetsRight(Next(c, w, Agent(step)), k, ids)
  {
    hide Enabled, LooseInv, MergeRightFor, View, ToMap, ReadMemory, Lsm.Do, PutsOf;
    var s := w.store;
    LooseParts(s);
    var s' := Lsm.Do(c, s, step);
    forall id | id in w.gets && id in ids && w.gets[id].key == k ensures GetRight(s', w.gets[id], k) {
      if !w.gets[id].Asked? { QuietForKey(c, s, step, k); }
    }
  }

  lemma MoveKeepsStore(c: Config, w: World, mv: Move, k: Key)
    requires Able(c, w, mv) && StoreInv(w.store, k) && MergeSafe(c, w, mv, k)
    ensures w.store.bloom.Valid() && StoreInv(Next(c, w, mv).store, k)
  {
    hide Enabled, LooseInv, MergeRightFor, Lsm.Do, AgreeOn, SearchLevel, ReadMemory, Lru.Insert, Lru.Retrieve, Lru.Holds, View;
    LooseParts(w.store);
    if mv.Agent? {
      StepKeepsLoose(c, w.store, mv.step);
      StepMergesRight(c, w.store, mv.step, k);
    } else {
      CacheOnly(w.store, Next(c, w, mv).store.cache, k);
    }
  }

  lemma {:induction false} RunKeepsStore(c: Config, w: World, mvs: seq<Move>, k: Key)
    requires StoreInv(w.store, k) && Feasible(c, w, mvs, k)
    ensures StoreInv(Moves(c, w, mvs).store, k) && Moves(c, w, mvs).store.bloom.Valid()
    decreases |mvs|
  {
    hide Able, Next, MergeSafe, LooseInv, MergeRightFor;
    if mvs == [] {
      LooseParts(w.store);
    } else {
      var v := Moves(c, w, mvs[..|mvs| - 1]);
      RunKeepsStore(c, w, mvs[..|mvs| - 1], k);
      MoveKeepsStore(c, v, mvs[|mvs| - 1], k);
      LooseParts(Next(c, v, mvs[|mvs| - 1]).store);
    }
  }

  /** The entries of the batches applied in a run, in order. */
  function AppliedIn(c: Config, mvs: seq<Move>): seq<Entry> {
    if mvs == [] then [] else AppliedIn(c, mvs[..|mvs| - 1]) + PutsOfAny(c, mvs[|mvs| - 1])
  }

  function PutsOfAny(c: Config, mv: Move): seq<Entry> {
    if mv.Agent? then PutsOf(c, mv.step) else []
  }

  lemma MoveLookup(c: Config, w: World, mv: Move, k: Key)
    requires Able(c, w, mv) && StoreInv(w.store, k)
    ensures w.store.bloom.Valid()
    ensures Lookup(View(Next(c, w, mv).store), k) == Lookup(View(w.store) + ToMap(PutsOfAny(c, mv)), k)
  {
    hide Enabled, LooseInv, MergeRightFor, Lsm.Do, SearchLevel, ReadMemory, Lru.Insert, Lru.Retrieve, Lru.Holds, View, ToMap,
         PutsOf;
    LooseParts(w.store);
    if mv.Agent? {
      StepLookup(c, w.store, mv.step, k);
    } else {
      CacheOnly(w.store, Next(c, w, mv).store.cache, k);
      MapOfNothing();
    }
  }

  /** Reads change nothing of what the store shows; writes change it by what they put. */
  lemma {:induction false} RunLookup(c: Config, w: World, mvs: seq<Move>, k: Key)
    requires StoreInv(w.store, k) && Feasible(c, w, mvs, k)
    ensures Lookup(View(Moves(c, w, mvs).store), k) == Lookup(View(w.store) + ToMap(AppliedIn(c, mvs)), k)
    decreases |mvs|
  {
    hide Able, Next, MergeSafe, LooseInv, MergeRightFor, View, ToMap, PutsOfAny;
    if mvs == [] {
      MapOfNothing();
    } else {
      var before := mvs[..|mvs| - 1];
      RunLookup(c, w, before, k);
      RunKeepsStore(c, w, before, k);
      MoveLookup(c, Moves(c, w, before), mvs[|mvs| - 1], k);
      ToMapAppend(AppliedIn(c, before), PutsOfAny(c, mvs[|mvs| - 1]));
    }
  }

  // ---------- The pieces of a read ----------

  lemma CacheOnly(s: State, cache: Lru.Items, k: Key)
    requires LooseInv(s) && MergeRightFor(s, k)
    ensures var t := s.(cache := cache);
      LooseInv(t) && MergeRightFor(t, k) && View(t) == View(s) && ReadMemory(t, k) == ReadMemory(s, k)
  {
    var t := s.(cache := cache);
    assert MemoryInv(t) && TablesInv(t) && MergedChosen(t) by { hide Chosen, Fits, WellFormed; }
    assert BloomInv(t) by { hide Covers; assert AllTables(t) == AllTables(s); }
    assert LayersOf(t) == LayersOf(s);
  }

  lemma LookDecides(s: State, k: Key)
    requires LooseInv(s)
    ensures s.bloom.Valid()
    ensures ReadMemory(s, k).Some? ==> ReadMemory(s, k) == Lookup(View(s), k)
    ensures ReadMemory(s, k) == None && SearchLevel(s.l0, s.bloom, k).Some? ==>
      SearchLevel(s.l0, s.bloom, k) == Lookup(View(s), k)
    ensures ReadMemory(s, k) == None && SearchTables(s.l0, k) == None && OutsideWindow(s, k) ==>
      SearchLevel(s.l1, s.bloom, k) == Lookup(View(s), k)
  {
    hide LooseInv, BloomInv, LayersOf, Layers.Search, SearchLevel, SearchTables, Layers.View, Layers.Newest,
         Layers.MemorySearch, ReadMemory, Bloom.Valid, Taken;
    LooseParts(s);
    ReadsAreLayerReads(s, k);
    LevelSearch(s, k);
    TakenIsLayer(s, k);
    Layers.NewestByParts(LayersOf(s), k);
    Layers.NewestIsView(LayersOf(s), k);
  }

  lemma ReadKeepsGets(c: Config, w: World, mv: Move, k: Key, ids: iset<nat>)
    requires Able(c, w, mv) && !mv.Agent? && StoreInv(w.store, k) && GetsRight(w, k, ids) && Considerate(c, w, mv, k, ids)
    ensures w.store.bloom.Valid() && GetsRight(Next(c, w, mv), k, ids)
  {
    hide LooseInv, MergeRightFor, View, ReadMemory, SearchLevel, SearchTables, OutsideWindow, Lru.Insert, Lru.Retrieve, Lru.Holds;
    var s := w.store;
    LooseParts(s);
    LookDecides(s, k);
    CacheOnly(s, Next(c, w, mv).store.cache, k);
  }

  /** In every run of reads in pieces and agent steps, what the chosen reads of a key have found so far is right, and
      those that have made up their mind have its newest entry, provided no batch with the key is applied between
      such a read's first look and its end, and it looks at level 1 when that decides. */
  lemma {:induction false} RunKeepsGets(c: Config, w: World, mvs: seq<Move>, k: Key, ids: iset<nat>)
    requires StoreInv(w.store, k) && GetsRight(w, k, ids) && Feasible(c, w, mvs, k) && Polite(c, w, mvs, k, ids)
    ensures GetsRight(Moves(c, w, mvs), k, ids)
    decreases |mvs|
  {
    hide StoreInv, Able, Next, Considerate, MergeSafe, GetsRight;
    if mvs != [] {
      var v, mv := Moves(c, w, mvs[..|mvs| - 1]), mvs[|mvs| - 1];
      RunKeepsGets(c, w, mvs[..|mvs| - 1], k, ids);
      RunKeepsStore(c, w, mvs[..|mvs| - 1], k);
      if mv.Agent? { AgentKeepsGets(c, v, mv.step, k, ids); } else { ReadKeepsGets(c, v, mv, k, ids); }
    }
  }

  /** So a read that is not disturbed answers with the newest entry of its key, whatever becomes of other reads. */
  lemma GetAnswersNewest(c: Config, w: World, mvs: seq<Move>, id: nat, k: Key)
    requires StoreInv(w.store, k) && Feasible(c, w, mvs, k) && Polite(c, w, mvs, k, iset{id}) && id !in w.gets
    requires var v := Moves(c, w, mvs); id in v.gets && v.gets[id].Ended? && v.gets[id].key == k
    ensures var v := Moves(c, w, mvs); v.gets[id].found == Lookup(View(v.store), k)
  {
    hide StoreInv, View, Moves, Polite, Feasible;
    RunKeepsGets(c, w, mvs, k, iset{id});
  }

  // ---------- Filling the cache ----------

  ghost predicate HasNewestValue(s: State, k: Key, v: seq<Byte>) {
    k in View(s) && !View(s)[k].deleted && View(s)[k].value == v
  }

  /** A fill that does no harm: there is nothing to cache, or no room, or the value is that of the live newest
      entry. */
  ghost predicate FillHarmless(c: Config, w: World, mv: Move, k: Key) {
    mv.Finish? && mv.id in w.gets && w.gets[mv.id].key == k && w.gets[mv.id].Ended? ==>
      match Respond(w.gets[mv.id].found, mv.now)
      case NotFound => true
      case Found(v) => (c.cacheCapacity <= 0 && w.store.cache == []) || HasNewestValue(w.store, k, v)
  }

  lemma FilledItem(items: Lru.Items, capacity: int, k: Key, v: seq<Byte>)
    ensures forall x :: x in Lru.Insert(items, capacity, k, v) && x.key == k ==> x == Lru.Item(k, v)
    ensures (capacity > 0 || items != []) <==> Lru.Item(k, v) in Lru.Insert(items, capacity, k, v)
  {
    hide Lru.Without;
    if Lru.Holds(items, k) {
      Lru.WithoutMembers(items, k);
      assert Lru.Insert(items, capacity, k, v)[0] == Lru.Item(k, v);
    } else {
      NewItem(items, capacity, k, v);
    }
  }

  /** The end of a read leaves the cache right for its key exactly when its fill does no harm. */
  lemma FinishKeepsCacheIff(c: Config, w: World, mv: Move, k: Key)
    requires Able(c, w, mv) && mv.Finish? && StoreInv(w.store, k) && CachedRight(w.store, k)
    ensures w.store.bloom.Valid()
    ensures CachedRight(Next(c, w, mv).store, k) <==> FillHarmless(c, w, mv, k)
  {
    hide LooseInv, MergeRightFor, View, Lru.Insert;
    LooseParts(w.store);
    var s, g := w.store, w.gets[mv.id];
    var s' := Next(c, w, mv).store;
    CacheOnly(s, s'.cache, k);
    match Respond(g.found, mv.now)
    case NotFound =>
    case Found(v) =>
      if g.key == k {
        FilledItem(s.cache, c.cacheCapacity, k, v);
      } else {
        InsertMembers(s.cache, c.cacheCapacity, g.key, v);
      }
  }

  lemma MoveKeepsCacheIff(c: Config, w: World, mv: Move, k: Key)
    requires Able(c, w, mv) && StoreInv(w.store, k) && CachedRight(w.store, k)
    ensures w.store.bloom.Valid()
    ensures CachedRight(Next(c, w, mv).store, k) <==> FillHarmless(c, w, mv, k)
  {
    hide Enabled, LooseInv, MergeRightFor, CachedRight, View, SearchLevel, ReadMemory, Lru.Retrieve, Lru.Holds, Lsm.Do;
    LooseParts(w.store);
    match mv
    case Agent(step) => StepKeepsCache(c, w.store, step, k);
    case Ask(id, key) => AskKeepsCache(c, w, id, key, k);
    case Finish(_, _) => FinishKeepsCacheIff(c, w, mv, k);
    case _ =>
  }

  lemma AskKeepsCache(c: Config, w: World, id: nat, key: Key, k: Key)
    requires Able(c, w, Ask(id, key)) && StoreInv(w.store, k) && CachedRight(w.store, k)
    ensures w.store.bloom.Valid() && CachedRight(Next(c, w, Ask(id, key)).store, k)
  {
    hide LooseInv, MergeRightFor, View, Lru.Retrieve, Lru.Holds;
    LooseParts(w.store);
    CacheOnly(w.store, Next(c, w, Ask(id, key)).store.cache, k);
    InsertMembers(w.store.cache, 0, key, []);
  }

  ghost predicate FillsHarmless(c: Config, w: World, mvs: seq<Move>, k: Key) {
    mvs == [] ||
    (FillsHarmless(c, w, mvs[..|mvs| - 1], k) && FillHarmless(c, Moves(c, w, mvs[..|mvs| - 1]), mvs[|mvs| - 1], k))
  }

  /** All along a run of reads in pieces and agent steps, what is cached for a key is the value of its newest entry, which
      is no tombstone, exactly when every fill of the key does no harm. */
  lemma {:induction false} RunKeepsCacheIff(c: Config, w: World, mvs: seq<Move>, k: Key)
    requires StoreInv(w.store, k) && CachedRight(w.store, k) && Feasible(c, w, mvs, k)
    ensures FillsHarmless(c, w, mvs, k) <==> forall n :: 0 <= n <= |mvs| ==> CachedRight(Moves(c, w, mvs[..n]).store, k)
    decreases |mvs|
  {
    hide StoreInv, Able, Next, MergeSafe, CachedRight, FillHarmless;
    if mvs == [] {
      assert mvs[..0] == [];
    } else {
      var before := mvs[..|mvs| - 1];
      RunKeepsCacheIff(c, w, before, k);
      RunKeepsStore(c, w, before, k);
      assert forall n :: 0 <= n <= |before| ==> mvs[..n] == before[..n];
      assert mvs[..|mvs|] == mvs && before[..|before|] == before;
      var v := Moves(c, w, before);
      if CachedRight(v.store, k) { MoveKeepsCacheIff(c, v, mvs[|mvs| - 1], k); }
    }
  }

  /** From the moment at which the store shows what a read has found to the read's end: its fill leaves the cache right
      exactly when what it found is not to be cached, or there is no room, or the key was not written in between, or
      it was last written with the very same value. */
  lemma FillRightIff(c: Config, w: World, mvs: seq<Move>, id: nat, now: Int64, k: Key, e: Entry)
    requires StoreInv(w.store, k) && Feasible(c, w, mvs, k) && Lookup(View(w.store), k) == Some(e)
    requires Able(c, Moves(c, w, mvs), Finish(id, now)) && Moves(c, w, mvs).gets[id] == Ended(k, Some(e))
    requires CachedRight(Moves(c, w, mvs).store, k)
    ensures Moves(c, w, mvs).store.bloom.Valid()
    ensures var v := Moves(c, w, mvs); var puts := ToMap(AppliedIn(c, mvs));
      (CachedRight(Next(c, v, Finish(id, now)).store, k) <==>
          || e.deleted || Expired(e, now) || (c.cacheCapacity <= 0 && v.store.cache == [])
          || k !in puts || (!puts[k].deleted && puts[k].value == e.value))
  {
    hide StoreInv, View, Moves, Feasible, CachedRight, ToMap;
    RunKeepsStore(c, w, mvs, k);
    RunLookup(c, w, mvs, k);
    MoveKeepsCacheIff(c, Moves(c, w, mvs), Finish(id, now), k);
  }

  lemma {:induction false} UndisturbedFillsHarmless(c: Config, w: World, mvs: seq<Move>, k: Key, all: iset<nat>)
    requires StoreInv(w.store, k) && w.gets == map[] && (forall id: nat :: id in all)
    requires Feasible(c, w, mvs, k) && Polite(c, w, mvs, k, all)
    ensures FillsHarmless(c, w, mvs, k)
    decreases |mvs|
  {
    hide StoreInv, Able, Next, MergeSafe, Considerate, View;
    if mvs != [] {
      var before := mvs[..|mvs| - 1];
      UndisturbedFillsHarmless(c, w, before, k, all);
      RunKeepsGets(c, w, before, k, all);
    }
  }

  /** In particular the cache stays right for a key if no read of it is disturbed. */
  lemma UndisturbedReadsKeepCache(c: Config, w: World, mvs: seq<Move>, k: Key, all: iset<nat>)
    requires StoreInv(w.store, k) && CachedRight(w.store, k) && w.gets == map[] && (forall id: nat :: id in all)
    requires Feasible(c, w, mvs, k) && Polite(c, w, mvs, k, all)
    ensures CachedRight(Moves(c, w, mvs).store, k)
  {
    hide StoreInv, CachedRight, Moves, Feasible, Polite, FillsHarmless;
    UndisturbedFillsHarmless(c, w, mvs, k, all);
    RunKeepsCacheIff(c, w, mvs, k);
    assert mvs[..|mvs|] == mvs;
  }

  lemma InvIsStoreInv(s: State, k: Key)
    requires Inv(s)
    ensures StoreInv(s, k)
  {
    InvIsLoose(s);
    hide MemoryInv, TablesInv, BloomInv, Content, Contents, Union;
  }
}
