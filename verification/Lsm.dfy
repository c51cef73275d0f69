/** The store as a machine: the steps of the ingest, flush, compaction and read agents over the shared state,
    at the granularity of the lock or of one ingest shard's batch, with logs and table files as bytes. */
module Lsm {
  import opened Entries
  import opened LittleEndian
  import opened ByteStream
  import opened WriteAheadLog
  import opened SortedTable
  import opened BloomFilter
  import opened MergeHeap
  import opened Compaction
  import opened MemoryTable
  import opened Ingestion
  import Lru = LruCache
  import Layers

  /** The settings the steps depend on. `copiesValues` and `tieBySource` say whether the log entry's value
      bytes are copied and whether the merge heap breaks key ties by run; as the code stands neither holds. */
  datatype Config = Config(durable: bool, maxBytes: int, trigger: int, cacheCapacity: int,
                           copiesValues: bool, tieBySource: bool)

  function TiesOf(c: Config): Ties {
    if c.tieBySource then BySource() else KeyOnly()
  }

  /** A flush writes its table before it takes the lock to commit it; so does a compaction. */
  datatype Flushing = NotFlushing | Flushed(table: SSTable)

  datatype Compacting = Resting | Merging(tables: seq<SSTable>) | Merged(tables: seq<SSTable>, result: SSTable)

  datatype State = State(
    mem: Table,
    imm: seq<Table>,
    activeWal: seq<Byte>,
    frozenWals: seq<seq<Byte>>,
    rotations: nat,          // how many times the active log has moved to a new path
    l0: seq<SSTable>,
    l1: seq<SSTable>,
    flushing: Flushing,
    compacting: Compacting,
    bloom: Bloom,
    cache: Lru.Items)

  /** The level-0 tables a running compaction has removed and not yet committed. */
  function Taken(s: State): seq<SSTable> {
    match s.compacting
    case Resting => []
    case Merging(ts) => ts
    case Merged(ts, _) => ts
  }

  datatype Step =
    | Apply(batch: seq<IngestReq>, now: Int64, outcome: WriteOutcome)
    | Rotate(walOpened: bool)
    | WriteFlush(es: seq<Entry>, fileID: nat)
    | CommitFlush
    | FailFlush
    | TakeTables
    | WriteMerge(fileID: nat)
    | CommitMerge
    | FailMerge
    | Fetch(key: Key, now: Int64)

  predicate Accepted(c: Config, step: Step) {
    step.Apply? && (c.durable ==> step.outcome.Written?)
  }

  ghost predicate Enabled(c: Config, s: State, step: Step) {
    match step
    case Apply(batch, now, outcome) =>
      && BatchFits(batch)
      && (outcome.Failed? ==> outcome.kept <= |Encode(LogEntries(batch, now, c.copiesValues))|)
    case Rotate(_) => Bytes(s.mem) >= c.maxBytes
    case WriteFlush(es, _) => s.flushing.NotFlushing? && s.imm != [] && StrictlySorted(es) && ToMap(es) == s.imm[0]
    case CommitFlush => s.flushing.Flushed?
    case FailFlush => s.flushing.NotFlushing? && s.imm != []
    case TakeTables => s.compacting.Resting? && |s.l0| >= c.trigger
    case WriteMerge(_) => s.compacting.Merging?
    case CommitMerge => s.compacting.Merged?
    case FailMerge => s.compacting.Merging?
    case Fetch(_, _) => true
  }

  /** Log, then apply, then drop the keys from the cache. A failed write leaves what it kept in the log and
      applies nothing. */
  function DoApply(c: Config, s: State, batch: seq<IngestReq>, now: Int64, outcome: WriteOutcome): State
    requires var log := Encode(LogEntries(batch, now, c.copiesValues)); outcome.Failed? ==> outcome.kept <= |log|
  {
    var log := Encode(LogEntries(batch, now, c.copiesValues));
    var s' := if !c.durable then s
              else if outcome.Failed? then s.(activeWal := s.activeWal + log[..outcome.kept])
              else s.(activeWal := s.activeWal + log);
    if c.durable && outcome.Failed? then s'
    else s'.(mem := s.mem + ToMap(LiveEntries(batch, now)), cache := Forget(s.cache, batch))
  }

  function Forget(cache: Lru.Items, batch: seq<IngestReq>): Lru.Items {
    if batch == [] then cache else Lru.Without(Forget(cache, batch[..|batch| - 1]), batch[|batch| - 1].key)
  }

  function DoRotate(c: Config, s: State, walOpened: bool): State {
    var s' := s.(imm := s.imm + [s.mem], mem := map[]);
    if c.durable && walOpened
    then s'.(frozenWals := s.frozenWals + [s.activeWal], activeWal := [], rotations := s.rotations + 1)
    else s'
  }

  function DoCommitFlush(c: Config, s: State): State
    requires s.flushing.Flushed?
  {
    s.(l0 := s.l0 + [s.flushing.table],
       imm := if s.imm == [] then [] else s.imm[1..],
       frozenWals := if c.durable && s.frozenWals != [] then s.frozenWals[1..] else s.frozenWals,
       flushing := NotFlushing)
  }

  function Do(c: Config, s: State, step: Step): State
    requires Enabled(c, s, step)
    requires s.bloom.Valid()
  {
    match step
    case Apply(batch, now, outcome) => DoApply(c, s, batch, now, outcome)
    case Rotate(walOpened) => DoRotate(c, s, walOpened)
    case WriteFlush(es, id) => s.(flushing := Flushed(WriteTable(es, id, 0)), bloom := s.bloom.AddAll(id, es))
    case CommitFlush => DoCommitFlush(c, s)
    case FailFlush => s
    case TakeTables => s.(compacting := Merging(s.l0), l0 := [])
    case WriteMerge(id) =>
      var ts := s.compacting.tables;
      s.(compacting := Merged(ts, MergedTable(TiesOf(c), ts, id)),
         bloom := s.bloom.AddAll(id, Merge(TiesOf(c), Scans(ts))))
    case CommitMerge => s.(l1 := s.l1 + [s.compacting.result], compacting := Resting)
    case FailMerge => s.(l0 := s.compacting.tables + s.l0, compacting := Resting)
    case Fetch(k, now) => DoFetch(c, s, k, now)
  }

  // ---------- Reading ----------

  /** A level searched newest to oldest, skipping tables the filter rules out. */
  function SearchLevel(tables: seq<SSTable>, bloom: Bloom, k: Key): Option<Entry>
    requires bloom.Valid()
  {
    if tables == [] then None
    else
      var t := tables[|tables| - 1];
      if bloom.Contains(t.meta.fileID, k) && Find(t, k).Some? then Find(t, k)
      else SearchLevel(tables[..|tables| - 1], bloom, k)
  }

  function ReadMemory(s: State, k: Key): Option<Entry> {
    Layers.Search(s.imm + [s.mem], k)
  }

  /** A read whose looks at memory, level 0 and level 1 fall on three states. */
  function ReadAcross(a: State, b: State, d: State, k: Key): Option<Entry>
    requires b.bloom.Valid() && d.bloom.Valid()
  {
    if ReadMemory(a, k).Some? then ReadMemory(a, k)
    else if SearchLevel(b.l0, b.bloom, k).Some? then SearchLevel(b.l0, b.bloom, k)
    else SearchLevel(d.l1, d.bloom, k)
  }

  function Read(s: State, k: Key): Option<Entry>
    requires s.bloom.Valid()
  {
    ReadAcross(s, s, s, k)
  }

  datatype Response = Found(value: seq<Byte>) | NotFound

  predicate Expired(e: Entry, now: Int64) {
    e.expiry > 0 && now > e.expiry
  }

  /** Tombstones and expired entries answer not found and end the search all the same. */
  function Respond(e: Option<Entry>, now: Int64): Response {
    match e
    case None => NotFound
    case Some(x) => if x.deleted || Expired(x, now) then NotFound else Found(x.value)
  }

  /** The answer of a read that bypasses the cache. */
  function Direct(s: State, k: Key, now: Int64): Response
    requires s.bloom.Valid()
  {
    Respond(Read(s, k), now)
  }

  /** The answer of a read that asks the cache first. */
  function Serve(s: State, k: Key, now: Int64): Response
    requires s.bloom.Valid()
  {
    match Lru.Cached(s.cache, k)
    case Some(x) => Found(x.value)
    case None => Direct(s, k, now)
  }

  /** A read moves a hit to the front and caches what it found. */
  function DoFetch(c: Config, s: State, k: Key, now: Int64): State
    requires s.bloom.Valid()
  {
    if Lru.Holds(s.cache, k) then s.(cache := Lru.Retrieve(s.cache, k))
    else match Direct(s, k, now)
      case Found(v) => s.(cache := Lru.Insert(s.cache, c.cacheCapacity, k, v))
      case NotFound => s
  }

  // ---------- What every step keeps ----------

  function AllTables(s: State): seq<SSTable> {
    s.l1 + Taken(s) + s.l0
      + (if s.flushing.Flushed? then [s.flushing.table] else [])
      + (if s.compacting.Merged? then [s.compacting.result] else [])
  }

  ghost predicate TableFits(m: Table) {
    forall k :: k in m ==> Fits(m[k]) && m[k].key == k
  }

  ghost predicate MemoryInv(s: State) {
    TableFits(s.mem) && forall i :: 0 <= i < |s.imm| ==> TableFits(s.imm[i])
  }

  /** Every table file is well-formed; a written flush holds the oldest frozen memtable. */
  ghost predicate TablesInv(s: State) {
    && AllWellFormed(s.l1) && AllWellFormed(Taken(s)) && AllWellFormed(s.l0)
    && (s.flushing.Flushed? ==>
      s.imm != [] && WellFormed(s.flushing.table) && Content(s.flushing.table) == s.imm[0])
    && (s.compacting.Merged? ==> WellFormed(s.compacting.result))
  }

  /** A written merge holds the union of the tables taken. */
  ghost predicate MergedRight(s: State) {
    s.compacting.Merged? ==> Content(s.compacting.result) == Union(Contents(s.compacting.tables))
  }

  ghost predicate FilesInv(s: State) {
    TablesInv(s) && MergedRight(s)
  }

  ghost predicate Covers(b: Bloom, t: SSTable)
    requires b.Valid()
  {
    forall k :: k in t.meta.index ==> b.Contains(t.meta.fileID, k)
  }

  /** The filter contains every key of every table, under the table's file id. */
  ghost predicate BloomInv(s: State) {
    s.bloom.Valid() && forall t :: t in AllTables(s) ==> Covers(s.bloom, t)
  }

  ghost predicate Inv(s: State) {
    MemoryInv(s) && FilesInv(s) && BloomInv(s)
  }

  /** What a merge step needs to keep newest-wins: ties broken by run, or tables that agree on the keys they
      share. */
  ghost predicate MergeSound(c: Config, s: State, step: Step) {
    step.WriteMerge? && s.compacting.Merging? ==> c.tieBySource || SharedKeysAgree(Scans(s.compacting.tables))
  }

  lemma ToMapFits(es: seq<Entry>)
    requires AllFit(es)
    ensures TableFits(ToMap(es))
  {
    forall k | k in ToMap(es) ensures Fits(ToMap(es)[k]) {
      var i :| 0 <= i < |es| && es[i] == ToMap(es)[k];
    }
  }

  lemma MapFitsEntries(es: seq<Entry>)
    requires DistinctKeys(es) && TableFits(ToMap(es))
    ensures AllFit(es)
  {
    hide ToMap;
    forall i | 0 <= i < |es| ensures Fits(es[i]) { ToMapAt(es, i); }
  }

  lemma StepKeepsMemory(c: Config, s: State, step: Step)
    requires Enabled(c, s, step) && s.bloom.Valid() && MemoryInv(s)
    ensures MemoryInv(Do(c, s, step))
  {
    hide ToMap, Encode, LogEntries, LiveEntries, Bytes, SearchLevel, MergedTable, Merge, Scans, WriteTable, Fits;
    match step
    case Apply(batch, now, _) =>
      LiveFits(batch, now);
    case _ =>
  }

  lemma LiveFits(batch: seq<IngestReq>, now: Int64)
    requires BatchFits(batch)
    ensures TableFits(ToMap(LiveEntries(batch, now)))
  {
    LogEntriesFit(batch, now, true);
    ToMapFits(LiveEntries(batch, now));
  }

  lemma FlushIsContent(s: State, es: seq<Entry>, id: nat)
    requires MemoryInv(s) && s.imm != [] && StrictlySorted(es) && ToMap(es) == s.imm[0]
    ensures WellFormed(WriteTable(es, id, 0)) && Content(WriteTable(es, id, 0)) == s.imm[0]
  {
    hide ToMap, WellFormed, Content, WriteTable, Fits, StrictlySorted;
    SortedIsDistinct(es);
    MapFitsEntries(es);
    WrittenIsWellFormed(es, id, 0);
  }

  lemma WellFormedAppend(a: seq<SSTable>, b: seq<SSTable>)
    requires AllWellFormed(a) && AllWellFormed(b)
    ensures AllWellFormed(a + b)
  {
    hide WellFormed;
  }

  /** Whatever the tie rule of the merge. */
  lemma StepKeepsTables(c: Config, s: State, step: Step)
    requires Enabled(c, s, step) && s.bloom.Valid() && MemoryInv(s) && TablesInv(s)
    ensures TablesInv(Do(c, s, step))
  {
    hide ToMap, Encode, LogEntries, LiveEntries, Bytes, SearchLevel, MergedTable, Merge, Scans, WriteTable,
         WellFormed, AllWellFormed, Content, Contents, Union, StrictlySorted, MemoryInv, Forget, Chosen;
    match step
    case Apply(_, _, _) =>
    case Rotate(_) =>
    case WriteFlush(es, id) => FlushIsContent(s, es, id);
    case CommitFlush =>
      NoneWellFormed(s.flushing.table);
      WellFormedAppend(s.l0, [s.flushing.table]);
    case FailFlush =>
    case TakeTables => NoTables();
    case WriteMerge(id) => MergedIsChosen(TiesOf(c), s.compacting.tables, id);
    case CommitMerge =>
      NoTables();
      NoneWellFormed(s.compacting.result);
      WellFormedAppend(s.l1, [s.compacting.result]);
    case FailMerge =>
      NoTables();
      WellFormedAppend(s.compacting.tables, s.l0);
    case Fetch(_, _) =>
  }

  lemma StepKeepsFiles(c: Config, s: State, step: Step)
    requires Enabled(c, s, step) && s.bloom.Valid() && MemoryInv(s) && FilesInv(s) && MergeSound(c, s, step)
    ensures FilesInv(Do(c, s, step))
  {
    hide ToMap, Encode, LogEntries, LiveEntries, Bytes, SearchLevel, MergedTable, Merge, Scans, WriteTable,
         WellFormed, AllWellFormed, Content, Contents, Union, StrictlySorted, MemoryInv, SharedKeysAgree, Forget;
    StepKeepsTables(c, s, step);
    match step
    case WriteMerge(id) =>
      if c.tieBySource { MergedIsUnion(s.compacting.tables, id); } else { KeyOnlyMergedIsUnion(s.compacting.tables, id); }
    case _ =>
  }

  lemma NoneWellFormed(t: SSTable)
    requires WellFormed(t)
    ensures AllWellFormed([t])
  {
    hide WellFormed;
  }

  lemma NoTables()
    ensures AllWellFormed([])
  {
  }

  // ---------- The filter ----------

  lemma AddAllCovers(b: Bloom, id: nat, es: seq<Entry>, t: SSTable)
    requires b.Valid()
    requires Covers(b, t) || (t.meta.fileID == id && t.meta.index == IndexOf(es))
    ensures Covers(b.AddAll(id, es), t)
  {
    hide ToMap, IndexOf, Bloom.AddAll, Bloom.Contains, Bloom.Valid;
    forall k | k in t.meta.index ensures b.AddAll(id, es).Contains(t.meta.fileID, k) {
      if !Covers(b, t) { var _ := IndexFinds(es, k); }
      AddAllContains(b, id, es, t.meta.fileID, k);
    }
  }

  lemma StepKeepsBloom(c: Config, s: State, step: Step)
    requires Enabled(c, s, step) && BloomInv(s)
    ensures BloomInv(Do(c, s, step))
  {
    hide ToMap, Encode, LogEntries, LiveEntries, Bytes, SearchLevel, Merge, Scans, StrictlySorted, Forget,
         Bloom.AddAll, Bloom.Valid, Covers, IndexOf, EncodeTable;
    var s' := Do(c, s, step);
    forall t | t in AllTables(s') ensures Covers(s'.bloom, t) {
      hide Do, Enabled, AllTables;
      StepTables(c, s, step, t);
      match step
      case WriteFlush(es, id) => AddAllCovers(s.bloom, id, es, t);
      case WriteMerge(id) => AddAllCovers(s.bloom, id, Merge(TiesOf(c), Scans(s.compacting.tables)), t);
      case _ =>
    }
  }

  /** Only the two write steps bring in a table, and they add its keys to the filter; no other step touches
      the filter. */
  lemma StepTables(c: Config, s: State, step: Step, t: SSTable)
    requires Enabled(c, s, step) && s.bloom.Valid() && t in AllTables(Do(c, s, step))
    ensures match step
      case WriteFlush(es, id) =>
        && Do(c, s, step).bloom == s.bloom.AddAll(id, es)
        && (t in AllTables(s) || (t.meta.fileID == id && t.meta.index == IndexOf(es)))
      case WriteMerge(id) =>
        && s.compacting.Merging?
        && Do(c, s, step).bloom == s.bloom.AddAll(id, Merge(TiesOf(c), Scans(s.compacting.tables)))
        && (t in AllTables(s) ||
            (t.meta.fileID == id && t.meta.index == IndexOf(Merge(TiesOf(c), Scans(s.compacting.tables)))))
      case _ => t in AllTables(s) && Do(c, s, step).bloom == s.bloom
  {
    hide Do, Enabled, AllTables, Merge, Scans, Bloom.AddAll, Bloom.Valid, IndexOf;
    match step
    case WriteFlush(es, id) => FlushTables(c, s, es, id, t);
    case WriteMerge(id) => MergeTables(c, s, id, t);
    case _ => OldTables(c, s, step, t);
  }

  lemma FlushTables(c: Config, s: State, es: seq<Entry>, id: nat, t: SSTable)
    requires Enabled(c, s, WriteFlush(es, id)) && s.bloom.Valid()
    ensures var s' := Do(c, s, WriteFlush(es, id));
      && s'.bloom == s.bloom.AddAll(id, es)
      && (t in AllTables(s') ==> t in AllTables(s) || (t.meta.fileID == id && t.meta.index == IndexOf(es)))
  {
    hide ToMap, StrictlySorted, Bloom.AddAll, Bloom.Valid, IndexOf, EncodeTable;
  }

  lemma MergeTables(c: Config, s: State, id: nat, t: SSTable)
    requires Enabled(c, s, WriteMerge(id)) && s.bloom.Valid()
    ensures s.compacting.Merging?
    ensures var s' := Do(c, s, WriteMerge(id)); var es := Merge(TiesOf(c), Scans(s.compacting.tables));
      && s'.bloom == s.bloom.AddAll(id, es)
      && (t in AllTables(s') ==> t in AllTables(s) || (t.meta.fileID == id && t.meta.index == IndexOf(es)))
  {
    hide Merge, Scans, Bloom.AddAll, Bloom.Valid, IndexOf, EncodeTable;
  }

  lemma OldTables(c: Config, s: State, step: Step, t: SSTable)
    requires Enabled(c, s, step) && s.bloom.Valid() && !step.WriteFlush? && !step.WriteMerge?
    ensures Do(c, s, step).bloom == s.bloom && (t in AllTables(Do(c, s, step)) ==> t in AllTables(s))
  {
    hide ToMap, Encode, LogEntries, LiveEntries, Bytes, Direct, StrictlySorted, Forget, Bloom.Valid;
    if step.CommitFlush? || step.TakeTables? || step.CommitMerge? || step.FailMerge? {
      MovedTables(c, s, step, t);
    } else {
      hide AllTables;
      SameTables(s, Do(c, s, step));
    }
  }

  lemma SameTables(s: State, t: State)
    requires s.l0 == t.l0 && s.l1 == t.l1 && s.flushing == t.flushing && s.compacting == t.compacting
    ensures AllTables(s) == AllTables(t)
  {
  }

  lemma MovedTables(c: Config, s: State, step: Step, t: SSTable)
    requires Enabled(c, s, step) && s.bloom.Valid()
    requires step.CommitFlush? || step.TakeTables? || step.CommitMerge? || step.FailMerge?
    ensures t in AllTables(Do(c, s, step)) ==> t in AllTables(s)
  {
    hide ToMap, Bloom.Valid;
    match step
    case CommitFlush =>
    case TakeTables =>
    case CommitMerge =>
    case FailMerge =>
  }

  /** A filter that covers the tables of a level hides nothing: searching the level with it finds what searching
      without it does. */
  lemma {:induction false} FilterIsTransparent(tables: seq<SSTable>, bloom: Bloom, k: Key)
    requires bloom.Valid() && forall t :: t in tables ==> Covers(bloom, t)
    ensures SearchLevel(tables, bloom, k) == SearchTables(tables, k)
  {
    hide Find, Bloom.Contains, Bloom.Valid;
    if tables != [] {
      var t := tables[|tables| - 1];
      assert t in tables;
      FindMisses(t, k);
      FilterIsTransparent(tables[..|tables| - 1], bloom, k);
    }
  }

  // ---------- The machine moves layers ----------

  function LayersOf(s: State): Layers.Layers {
    Layers.Layers(Contents(s.l1), Contents(Taken(s)), Contents(s.l0), s.imm, s.mem)
  }

  function View(s: State): Table {
    Layers.View(LayersOf(s))
  }

  function MoveOf(c: Config, step: Step): Layers.Move {
    match step
    case Apply(batch, now, _) => if Accepted(c, step) then Layers.Put(ToMap(LiveEntries(batch, now))) else Layers.Stay
    case Rotate(_) => Layers.Rotate
    case WriteFlush(_, _) => Layers.Stay
    case CommitFlush => Layers.Flush
    case FailFlush => Layers.Stay
    case TakeTables => Layers.Take
    case WriteMerge(_) => Layers.Stay
    case CommitMerge => Layers.Commit
    case FailMerge => Layers.Undo
    case Fetch(_, _) => Layers.Stay
  }

  lemma ContentsAppend(a: seq<SSTable>, b: seq<SSTable>)
    ensures Contents(a + b) == Contents(a) + Contents(b)
  {
    hide Content;
  }

  lemma ContentsOne(t: SSTable)
    ensures Contents([t]) == [Content(t)] && Contents([]) == []
  {
    hide Content;
  }

  /** Each step does to the layers just what its move does. */
  lemma StepMovesLayers(c: Config, s: State, step: Step)
    requires Enabled(c, s, step) && s.bloom.Valid() && TablesInv(s) && (step.CommitMerge? ==> MergedRight(s))
    ensures LayersOf(Do(c, s, step)) == Layers.Do(LayersOf(s), MoveOf(c, step))
    ensures Layers.Allowed(LayersOf(s), MoveOf(c, step))
  {
    hide ToMap, Encode, LogEntries, LiveEntries, Bytes, SearchLevel, MergedTable, Merge, Scans, WriteTable,
         WellFormed, AllWellFormed, Content, Contents, Union, StrictlySorted, Forget, TablesInv, MergedRight;
    match step
    case CommitFlush =>
      WrittenTables(s);
      ContentsAppend(s.l0, [s.flushing.table]);
      ContentsOne(s.flushing.table);
    case TakeTables => NoContents();
    case CommitMerge =>
      WrittenTables(s);
      NoContents();
      ContentsAppend(s.l1, [s.compacting.result]);
      ContentsOne(s.compacting.result);
    case FailMerge =>
      NoContents();
      ContentsAppend(s.compacting.tables, s.l0);
    case _ =>
  }

  lemma WrittenTables(s: State)
    requires TablesInv(s)
    ensures s.flushing.Flushed? ==> s.imm != [] && Content(s.flushing.table) == s.imm[0]
    ensures s.compacting.Merged? && MergedRight(s) ==>
      Content(s.compacting.result) == Union(Contents(s.compacting.tables))
  {
    hide Content, Contents, Union, WellFormed, AllWellFormed;
  }

  lemma NoContents()
    ensures Contents([]) == []
  {
  }

  lemma StepKeepsInv(c: Config, s: State, step: Step)
    requires Enabled(c, s, step) && Inv(s) && MergeSound(c, s, step)
    ensures Inv(Do(c, s, step))
  {
    hide *;
    InvParts(s);
    StepKeepsMemory(c, s, step);
    StepKeepsFiles(c, s, step);
    StepKeepsBloom(c, s, step);
    InvWhole(Do(c, s, step));
  }

  lemma InvParts(s: State)
    requires Inv(s)
    ensures MemoryInv(s) && FilesInv(s) && BloomInv(s) && s.bloom.Valid()
    ensures TablesInv(s) && MergedRight(s)
  {
  }

  lemma InvWhole(s: State)
    requires MemoryInv(s) && FilesInv(s) && BloomInv(s)
    ensures Inv(s)
  {
  }

  // ---------- Runs ----------

  /** The state after a run. A step that is not enabled does nothing. */
  ghost function Run(c: Config, s: State, steps: seq<Step>): State {
    if steps == [] then s
    else
      var t := Run(c, s, steps[..|steps| - 1]);
      if t.bloom.Valid() && Enabled(c, t, steps[|steps| - 1]) then Do(c, t, steps[|steps| - 1]) else t
  }

  /** Every step is enabled when it is taken, and every merge is sound for newest-wins. */
  ghost predicate Legal(c: Config, s: State, steps: seq<Step>) {
    steps == [] ||
    (var t, step := Run(c, s, steps[..|steps| - 1]), steps[|steps| - 1];
     Legal(c, s, steps[..|steps| - 1]) && Enabled(c, t, step) && MergeSound(c, t, step))
  }

  /** All entries of the accepted batches, in order. */
  function AppliedBy(c: Config, steps: seq<Step>): seq<Entry> {
    if steps == [] then []
    else
      var step := steps[|steps| - 1];
      AppliedBy(c, steps[..|steps| - 1]) + (if Accepted(c, step) then LiveEntries(step.batch, step.now) else [])
  }

  lemma RunUnfolds(c: Config, s: State, steps: seq<Step>)
    requires steps != [] && Legal(c, s, steps) && Inv(Run(c, s, steps[..|steps| - 1]))
    ensures var t, step := Run(c, s, steps[..|steps| - 1]), steps[|steps| - 1];
      && Legal(c, s, steps[..|steps| - 1]) && t.bloom.Valid() && Enabled(c, t, step) && MergeSound(c, t, step)
      && Run(c, s, steps) == Do(c, t, step)
  {
    hide Do, Enabled, MergeSound;
  }

  lemma {:induction false} RunAppend(c: Config, s: State, a: seq<Step>, b: seq<Step>)
    ensures Run(c, s, a + b) == Run(c, Run(c, s, a), b)
    decreases |b|
  {
    hide Do, Enabled;
    if b == [] {
      assert a + b == a;
    } else {
      assert (a + b)[..|a + b| - 1] == a + b[..|b| - 1];
      RunAppend(c, s, a, b[..|b| - 1]);
    }
  }

  lemma {:induction false} RunKeepsInv(c: Config, s: State, steps: seq<Step>)
    requires Inv(s) && Legal(c, s, steps)
    ensures Inv(Run(c, s, steps))
    decreases |steps|
  {
    hide Do, Enabled, MergeSound, Inv;
    if steps != [] {
      var before := steps[..|steps| - 1];
      RunKeepsInv(c, s, before);
      RunUnfolds(c, s, steps);
      StepKeepsInv(c, Run(c, s, before), steps[|steps| - 1]);
    }
  }

  /** The store is one map from key to newest entry: in every run the first hit for a key, searching memory,
      level 0, the tables a compaction has taken and level 1 from newest to oldest, is exactly the last entry
      applied for it, or what the run started with; only accepted batches change the view. */
  lemma {:induction false} RunIsOneMap(c: Config, s: State, steps: seq<Step>)
    requires Inv(s) && Legal(c, s, steps)
    ensures View(Run(c, s, steps)) == View(s) + ToMap(AppliedBy(c, steps))
    decreases |steps|
  {
    hide Do, Enabled, MergeSound, Inv, LayersOf, Layers.Do, Layers.Allowed, Layers.View, ToMap, LiveEntries;
    if steps == [] {
      assert ToMap([]) == map[] by { MapOfNothing(); }
      assert View(s) + map[] == View(s);
    } else {
      var before, step := steps[..|steps| - 1], steps[|steps| - 1];
      RunIsOneMap(c, s, before);
      RunKeepsInv(c, s, before);
      RunUnfolds(c, s, steps);
      var t := Run(c, s, before);
      InvParts(t);
      StepMovesLayers(c, t, step);
      Layers.DoView(LayersOf(t), MoveOf(c, step));
      if Accepted(c, step) {
        var puts := LiveEntries(step.batch, step.now);
        ToMapAppend(AppliedBy(c, before), puts);
        UnionAssociative(View(s), ToMap(AppliedBy(c, before)), ToMap(puts));
      } else {
        assert AppliedBy(c, before) + [] == AppliedBy(c, before);
      }
    }
  }

  lemma MapOfNothing()
    ensures ToMap([]) == map[]
  {
  }
}
