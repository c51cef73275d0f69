/** Logs against memtables: what each log replays to in every reachable state, what a flush retires, and what
    recovery rebuilds. */
module Durability {
  import opened Entries
  import opened ByteStream
  import opened WriteAheadLog
  import opened SortedTable
  import opened BloomFilter
  import opened Compaction
  import opened MemoryTable
  import opened Ingestion
  import opened Lsm
  import opened AnyTies
  import Reading
  import Layers

  // ---------- Entries up to their value bytes ----------

  /** Key, value length, expiry and tombstone flag, with the value bytes blanked. */
  function Shape(e: Entry): Entry {
    e.(value := Zeros(|e.value|))
  }

  function Shapes(m: Table): Table {
    map k | k in m :: Shape(m[k])
  }

  function ShapeAll(es: seq<Entry>): (r: seq<Entry>)
    ensures |r| == |es| && forall i :: 0 <= i < |r| ==> r[i] == Shape(es[i])
  {
    seq(|es|, i requires 0 <= i < |es| => Shape(es[i]))
  }

  lemma ShapesUnion(a: Table, b: Table)
    ensures Shapes(a + b) == Shapes(a) + Shapes(b)
  {
  }

  lemma ShapeAllSnoc(es: seq<Entry>, e: Entry)
    ensures ShapeAll(es + [e]) == ShapeAll(es) + [Shape(e)]
  {
    hide Shape;
  }

  lemma {:induction false} ShapesOfToMap(es: seq<Entry>)
    ensures Shapes(ToMap(es)) == ToMap(ShapeAll(es))
  {
    hide ToMap, Shape, Shapes;
    if es == [] {
      ShapesOfNothing();
    } else {
      var before, e := es[..|es| - 1], es[|es| - 1];
      ShapesOfToMap(before);
      assert es == before + [e];
      ShapeAllSnoc(before, e);
      ToMapSnoc(before, e);
      ToMapSnoc(ShapeAll(before), Shape(e));
      ShapeKeepsKey(e);
      ShapesUpdate(ToMap(before), e.key, e);
    }
  }

  lemma ShapesOfNothing()
    ensures Shapes(ToMap([])) == map[] && ToMap(ShapeAll([])) == map[]
  {
  }

  lemma ShapesUpdate(m: Table, k: Key, e: Entry)
    ensures Shapes(m[k := e]) == Shapes(m)[k := Shape(e)]
  {
  }

  lemma ShapeKeepsKey(e: Entry)
    ensures Shape(e).key == e.key && EntrySize(Shape(e)) == EntrySize(e) && Shape(Shape(e)) == Shape(e)
  {
  }

  lemma {:induction false} BytesOfShapes(m: Table)
    ensures Bytes(Shapes(m)) == Bytes(m)
    decreases |m|
  {
    hide Bytes, EntrySize;
    if m == map[] {
      assert Shapes(m) == map[];
    } else {
      var k :| k in m;
      BytesOfShapes(m - {k});
      assert Shapes(m) - {k} == Shapes(m - {k});
      BytesRemove(m, k);
      BytesRemove(Shapes(m), k);
      ShapeKeepsKey(m[k]);
    }
  }

  /** What reaches the log and what reaches the memtable agree on key, length, expiry and tombstone. */
  lemma LogHasShapeOfLive(batch: seq<IngestReq>, now: Int64, copies: bool)
    ensures Shapes(ToMap(LogEntries(batch, now, copies))) == Shapes(ToMap(LiveEntries(batch, now)))
    ensures !copies ==> Shapes(ToMap(LogEntries(batch, now, copies))) == ToMap(LogEntries(batch, now, copies))
  {
    hide ToMap, Expiry;
    assert ShapeAll(LogEntries(batch, now, copies)) == ShapeAll(LiveEntries(batch, now));
    ShapesOfToMap(LogEntries(batch, now, copies));
    ShapesOfToMap(LiveEntries(batch, now));
    if !copies { assert ShapeAll(LogEntries(batch, now, copies)) == LogEntries(batch, now, copies); }
  }

  // ---------- The pairing of logs and memtables ----------

  /** The table that replaying a log builds. */
  function Recovered(log: seq<Byte>): Table {
    ToMap(ReplayLog(log).entries)
  }

  /** A log belongs to a table: it replays cleanly, to the same keys, value lengths, expiries and tombstones;
      also to the same value bytes if those are copied, and to blank ones if not. */
  ghost predicate Pairs(c: Config, log: seq<Byte>, m: Table) {
    && ReplayLog(log).ok
    && Shapes(Recovered(log)) == Shapes(m)
    && Recovered(log) == if c.copiesValues then m else Shapes(m)
  }

  ghost predicate LogInv(c: Config, s: State) {
    c.durable ==>
      && |s.frozenWals| == |s.imm| <= s.rotations
      && Pairs(c, s.activeWal, s.mem)
      && forall i :: 0 <= i < |s.imm| ==> Pairs(c, s.frozenWals[i], s.imm[i])
  }

  /** A log write succeeds, or what it keeps are whole records that the log's table holds already (none, for
      one); and rotating the log does not fail. */
  ghost predicate LogSound(c: Config, s: State, step: Step) {
    match step
    case Apply(batch, now, outcome) =>
      outcome.Written? || KeepsNothingNew(s.activeWal, LogEntries(batch, now, c.copiesValues), outcome.kept)
    case Rotate(walOpened) => walOpened
    case _ => true
  }

  ghost predicate KeepsNothingNew(log: seq<Byte>, es: seq<Entry>, kept: nat) {
    var n := WholeRecords(es, kept);
    kept == |Encode(es[..n])| && Recovered(log) + ToMap(es[..n]) == Recovered(log)
  }

  lemma PairsAppend(c: Config, log: seq<Byte>, m: Table, batch: seq<IngestReq>, now: Int64)
    requires Pairs(c, log, m) && BatchFits(batch)
    ensures Pairs(c, log + Encode(LogEntries(batch, now, c.copiesValues)), m + ToMap(LiveEntries(batch, now)))
  {
    hide ToMap, Encode, ReplayLog, LogEntries, Shapes;
    var es := LogEntries(batch, now, c.copiesValues);
    LogEntriesFit(batch, now, c.copiesValues);
    ReplayAppend(log, es);
    ToMapAppend(ReplayLog(log).entries, es);
    LogHasShapeOfLive(batch, now, c.copiesValues);
    ShapesUnion(Recovered(log), ToMap(es));
    ShapesUnion(m, ToMap(LiveEntries(batch, now)));
  }

  lemma PairsNothing(c: Config)
    ensures Pairs(c, [], map[])
  {
  }

  /** A step keeps logs and memtables paired exactly when it is sound in this sense. */
  lemma StepKeepsLogsIff(c: Config, s: State, step: Step)
    requires Enabled(c, s, step) && s.bloom.Valid() && TablesInv(s) && c.durable && LogInv(c, s)
    ensures LogInv(c, Do(c, s, step)) <==> LogSound(c, s, step)
  {
    hide ToMap, Encode, LogEntries, LiveEntries, Bytes, MergedTable, Merge, Scans, WriteTable, StrictlySorted, Recovered,
         WellFormed, AllWellFormed, Content, Contents, Forget, Pairs, Bloom.AddAll, Bloom.Valid, Direct, WholeRecords,
         KeepsNothingNew, DoApply, DoRotate;
    match step
    case Apply(batch, now, outcome) =>
      if outcome.Written? {
        PairsAppend(c, s.activeWal, s.mem, batch, now);
        WrittenApply(c, s, batch, now);
      } else {
        FailedApplyKeepsPairingIff(c, s, batch, now, outcome.kept);
      }
    case Rotate(walOpened) => RotationKeepsPairingIff(c, s, walOpened);
    case CommitFlush =>
    case _ => OthersKeepLogs(c, s, step);
  }

  lemma WrittenApply(c: Config, s: State, batch: seq<IngestReq>, now: Int64)
    requires c.durable
    ensures var t := DoApply(c, s, batch, now, Written);
      && t.activeWal == s.activeWal + Encode(LogEntries(batch, now, c.copiesValues))
      && t.mem == s.mem + ToMap(LiveEntries(batch, now))
      && t.imm == s.imm && t.frozenWals == s.frozenWals && t.rotations == s.rotations
  {
    hide ToMap, Encode, LogEntries, LiveEntries, Forget;
  }

  lemma OthersKeepLogs(c: Config, s: State, step: Step)
    requires Enabled(c, s, step) && s.bloom.Valid() && !step.Apply? && !step.Rotate? && !step.CommitFlush?
    ensures var t := Do(c, s, step);
      && t.activeWal == s.activeWal && t.frozenWals == s.frozenWals && t.rotations == s.rotations
      && t.mem == s.mem && t.imm == s.imm
  {
    hide ToMap, Encode, Bytes, MergedTable, Merge, Scans, WriteTable, StrictlySorted, Bloom.AddAll, Bloom.Valid, Direct;
  }

  ghost predicate LogsSound(c: Config, s: State, steps: seq<Step>) {
    steps == [] ||
    (LogsSound(c, s, steps[..|steps| - 1]) && LogSound(c, Lsm.Run(c, s, steps[..|steps| - 1]), steps[|steps| - 1]))
  }

  /** In every reachable state the i-th frozen log replays to the i-th frozen memtable and the active log to
      the memtable, whatever the merges do. */
  lemma {:induction false} RunKeepsLogs(c: Config, s: State, steps: seq<Step>)
    requires Inv(s) && c.durable && LogInv(c, s) && Possible(c, s, steps) && LogsSound(c, s, steps)
    ensures LogInv(c, Lsm.Run(c, s, steps))
    decreases |steps|
  {
    hide Do, Enabled, Inv, LooseInv, LogInv, LogSound;
    if steps != [] {
      var before := steps[..|steps| - 1];
      RunKeepsLogs(c, s, before);
      RunKeepsLoose(c, s, before);
      PossibleUnfolds(c, s, steps);
      LooseParts(Lsm.Run(c, s, before));
      StepKeepsLogsIff(c, Lsm.Run(c, s, before), steps[|steps| - 1]);
    }
  }

  /** And only then: logs and memtables stay paired all along a run exactly when every log write and every log
      rotation of the run is sound. */
  lemma {:induction false} RunKeepsLogsIff(c: Config, s: State, steps: seq<Step>)
    requires Inv(s) && c.durable && LogInv(c, s) && Possible(c, s, steps)
    ensures LogsSound(c, s, steps) <==> forall n :: 0 <= n <= |steps| ==> LogInv(c, Lsm.Run(c, s, steps[..n]))
    decreases |steps|
  {
    hide Do, Enabled, Inv, LooseInv, LogInv, LogSound;
    if steps == [] {
      assert steps[..0] == [];
    } else {
      var before := steps[..|steps| - 1];
      RunKeepsLogsIff(c, s, before);
      RunKeepsLoose(c, s, before);
      PossibleUnfolds(c, s, steps);
      LooseParts(Lsm.Run(c, s, before));
      assert forall n :: 0 <= n <= |before| ==> steps[..n] == before[..n];
      assert steps[..|steps|] == steps && before[..|before|] == before;
      if LogInv(c, Lsm.Run(c, s, before)) { StepKeepsLogsIff(c, Lsm.Run(c, s, before), steps[|steps| - 1]); }
    }
  }

  /** A flush commit deletes exactly the log of the table it has written. */
  lemma FlushRetiresOwnLog(c: Config, s: State)
    requires c.durable && TablesInv(s) && LogInv(c, s) && s.flushing.Flushed?
    ensures s.frozenWals != [] && Pairs(c, s.frozenWals[0], Content(s.flushing.table))
    ensures DoCommitFlush(c, s).frozenWals == s.frozenWals[1..]
  {
    hide Pairs, Content, Contents, WellFormed, AllWellFormed, Union;
  }

  /** The pairing survives a rotation exactly when the new log could be opened. */
  lemma RotationKeepsPairingIff(c: Config, s: State, walOpened: bool)
    requires c.durable && LogInv(c, s)
    ensures LogInv(c, DoRotate(c, s, walOpened)) <==> walOpened
  {
    hide Pairs;
    PairsNothing(c);
  }

  /** A failed write leaves the earlier entries, the whole records it kept, and a clean replay exactly when it
      stopped on a record boundary; the memtable is as it was. */
  lemma FailedApply(c: Config, s: State, batch: seq<IngestReq>, now: Int64, kept: nat)
    requires c.durable && ReplayLog(s.activeWal).ok && BatchFits(batch)
    requires kept <= |Encode(LogEntries(batch, now, c.copiesValues))|
    ensures var es := LogEntries(batch, now, c.copiesValues); var n := WholeRecords(es, kept);
      var t := DoApply(c, s, batch, now, Failed(kept));
      && ReplayLog(t.activeWal) == Replayed(ReplayLog(s.activeWal).entries + es[..n], kept == |Encode(es[..n])|)
      && t.mem == s.mem
  {
    hide Encode, ReplayLog, WholeRecords, LogEntries;
    LogEntriesFit(batch, now, c.copiesValues);
    TornWrite(s.activeWal, LogEntries(batch, now, c.copiesValues), kept);
  }

  /** The pairing survives a failed log write exactly when the write stopped on a record boundary and the
      records it kept change nothing of what the log replays to. */
  lemma FailedApplyKeepsPairingIff(c: Config, s: State, batch: seq<IngestReq>, now: Int64, kept: nat)
    requires c.durable && LogInv(c, s) && BatchFits(batch) && kept <= |Encode(LogEntries(batch, now, c.copiesValues))|
    ensures LogInv(c, DoApply(c, s, batch, now, Failed(kept)))
      <==> KeepsNothingNew(s.activeWal, LogEntries(batch, now, c.copiesValues), kept)
  {
    hide Encode, ReplayLog, WholeRecords, LogEntries, ToMap, Shapes, LiveEntries, Forget;
    FailedApply(c, s, batch, now, kept);
    var es := LogEntries(batch, now, c.copiesValues);
    ToMapAppend(ReplayLog(s.activeWal).entries, es[..WholeRecords(es, kept)]);
  }

  /** So a write of a single record that fails half way always breaks it. */
  lemma TornApplyBreaksPairing(c: Config, s: State, req: IngestReq, now: Int64, kept: nat)
    requires c.durable && LogInv(c, s) && BatchFits([req])
    requires 0 < kept < |Encode(LogEntries([req], now, c.copiesValues))|
    ensures !LogInv(c, DoApply(c, s, [req], now, Failed(kept)))
  {
    hide LogInv, DoApply, ToMap, Recovered, Record;
    var es := LogEntries([req], now, c.copiesValues);
    FailedApplyKeepsPairingIff(c, s, [req], now, kept);
    assert es[1..] == [] && es[..0] == [];
  }

  // ---------- Recovery ----------

  /** The log at the configured path: the active one before the first rotation, afterwards the oldest frozen
      one as long as it has not been retired, and then an empty new file. */
  function ConfiguredLog(s: State): seq<Byte> {
    if s.rotations == 0 then s.activeWal
    else if |s.frozenWals| == s.rotations then s.frozenWals[0]
    else []
  }

  /** The memtable whose log recovery gets to see. */
  function RecoveredFrom(s: State): Table {
    if s.rotations == 0 then s.mem
    else if |s.imm| == s.rotations then s.imm[0]
    else map[]
  }

  /** Recovery replays the configured path only. In every state with paired logs it rebuilds, with the same
      keys, value lengths, expiries, tombstones and byte count, the memtable before the first rotation; the
      first frozen memtable until it is flushed; and nothing after that. */
  lemma RecoveryRebuilds(c: Config, s: State)
    requires c.durable && LogInv(c, s)
    ensures var r := Recovered(ConfiguredLog(s));
      && ReplayLog(ConfiguredLog(s)).ok
      && Shapes(r) == Shapes(RecoveredFrom(s))
      && Bytes(r) == Bytes(RecoveredFrom(s))
      && (c.copiesValues ==> r == RecoveredFrom(s))
  {
    hide Shapes, Recovered, Bytes, ReplayLog;
    PairsNothing(c);
    BytesOfShapes(Recovered(ConfiguredLog(s)));
    BytesOfShapes(RecoveredFrom(s));
  }

  /** As the code stands the value bytes come back exactly when the live values are all zeros. */
  lemma RecoveredBytesIff(c: Config, log: seq<Byte>, m: Table)
    requires Pairs(c, log, m) && !c.copiesValues
    ensures Recovered(log) == m <==>
      forall k, i :: k in m && 0 <= i < |m[k].value| ==> m[k].value[i] == 0
  {
    hide Recovered, ReplayLog;
    if forall k, i :: k in m && 0 <= i < |m[k].value| ==> m[k].value[i] == 0 {
      forall k | k in m ensures Shape(m[k]) == m[k] {
        assert m[k].value == Zeros(|m[k].value|);
      }
      assert Shapes(m) == m;
    } else {
      var k, i :| k in m && 0 <= i < |m[k].value| && m[k].value[i] != 0;
      assert Shapes(m)[k].value[i] == 0;
    }
  }

  /** A log cut at any byte recovers the table of the whole records before the cut. */
  lemma RecoveryAfterCut(es: seq<Entry>, n: nat)
    requires AllFit(es) && n <= |Encode(es)|
    ensures Recovered(Encode(es)[..n]) == ToMap(es[..WholeRecords(es, n)])
  {
    hide Encode, ReplayLog, WholeRecords, ToMap;
    TornReplay(es, n);
  }

  // ---------- Where a run starts ----------

  /** A freshly started store: recovery has replayed the configured log into an empty memtable. */
  function Start(c: Config, log: seq<Byte>, bloom: Bloom): State {
    State(if c.durable then Recovered(log) else map[], [], if c.durable then log else [], [], 0, [], [],
          NotFlushing, Resting, bloom, [])
  }

  /** A start from a log that replays cleanly (and holds the value bytes that this build writes) satisfies
      everything the runs keep. */
  lemma StartIsSound(c: Config, log: seq<Byte>, bloom: Bloom)
    requires bloom.Valid() && ReplayLog(log).ok
    requires !c.copiesValues ==> Shapes(Recovered(log)) == Recovered(log)
    ensures var s := Start(c, log, bloom);
      && Inv(s) && LogInv(c, s) && NothingFlushed(s) && View(s) == s.mem
      && forall k :: Reading.CachedRight(s, k)
  {
    hide Inv, MemoryInv, FilesInv, BloomInv, View, LayersOf, EmptyDisk, Recovered, Shapes, ReplayLog, Bloom.Valid;
    var s := Start(c, log, bloom);
    StartMemory(c, log, bloom);
    StartFiles(c, log, bloom);
    InvWhole(s);
    StartLayers(c, log, bloom);
    PairsNothing(c);
  }

  lemma StartMemory(c: Config, log: seq<Byte>, bloom: Bloom)
    ensures MemoryInv(Start(c, log, bloom))
  {
    hide ToMap, ReplayLog, Fits;
    ToMapFits(ReplayLog(log).entries);
  }

  lemma StartFiles(c: Config, log: seq<Byte>, bloom: Bloom)
    requires bloom.Valid()
    ensures FilesInv(Start(c, log, bloom)) && BloomInv(Start(c, log, bloom))
  {
    hide Recovered, Bloom.Valid;
    assert AllTables(Start(c, log, bloom)) == [];
  }

  lemma StartLayers(c: Config, log: seq<Byte>, bloom: Bloom)
    ensures var s := Start(c, log, bloom); EmptyDisk(LayersOf(s)) && View(s) == s.mem
  {
    hide Recovered, Layers.View;
    var s := Start(c, log, bloom);
    NoContents();
    Layers.UnionNone();
    EmptyDiskView(LayersOf(s));
    assert map[] + s.mem == s.mem;
  }

  // ---------- Crash and restart ----------

  /** As long as every frozen memtable is still there, none has been flushed, and the disk layers are empty. */
  ghost predicate NothingFlushed(s: State) {
    |s.imm| == s.rotations ==> EmptyDisk(LayersOf(s))
  }

  ghost predicate EmptyDisk(l: Layers.Layers) {
    Union(l.l1) == map[] && Union(l.taken) == map[] && Union(l.l0) == map[]
  }

  lemma EmptyDiskView(l: Layers.Layers)
    requires EmptyDisk(l)
    ensures Layers.View(l) == Union(l.imm) + l.mem
  {
    hide Union;
    Layers.ViewByLayers(l);
    assert map[] + map[] + map[] + Union(l.imm) == Union(l.imm);
  }

  lemma MoveKeepsEmptyDisk(l: Layers.Layers, mv: Layers.Move)
    requires EmptyDisk(l) && !mv.Flush? && !mv.Commit?
    ensures EmptyDisk(Layers.Do(l, mv))
  {
    hide Union;
    Layers.UnionNone();
    UnionAppend(l.taken, l.l0);
  }

  lemma CommitKeepsEmptyDisk(l: Layers.Layers, merged: Table)
    requires EmptyDisk(l) && forall k :: k in merged <==> k in Union(l.taken)
    ensures EmptyDisk(Committed(l, merged))
  {
    hide Union;
    Layers.UnionNone();
    UnionAppend(l.l1, [merged]);
    UnionOne(merged);
    assert merged == map[];
  }

  lemma StepKeepsNothingFlushed(c: Config, s: State, step: Step)
    requires Enabled(c, s, step) && LooseInv(s) && c.durable && LogInv(c, s) && LogSound(c, s, step) && NothingFlushed(s)
    ensures s.bloom.Valid() && NothingFlushed(Do(c, s, step))
  {
    hide LayersOf, Layers.Do, Layers.Allowed, EmptyDisk, Pairs, KeepsNothingNew, Enabled, Do, Union, Contents, Content;
    LooseParts(s);
    QueueLengths(c, s, step);
    if step.CommitMerge? {
      MergedOnce(c, s);
      CommitMovesLayers(c, s);
      if EmptyDisk(LayersOf(s)) { CommitKeepsEmptyDisk(LayersOf(s), Content(s.compacting.result)); }
    } else if !step.CommitFlush? {
      StepMovesLayers(c, s, step);
      NoFlushMove(c, step);
      if EmptyDisk(LayersOf(s)) { MoveKeepsEmptyDisk(LayersOf(s), MoveOf(c, step)); }
    }
  }

  lemma NoFlushMove(c: Config, step: Step)
    requires !step.CommitFlush? && !step.CommitMerge?
    ensures !MoveOf(c, step).Flush? && !MoveOf(c, step).Commit?
  {
    hide ToMap, LiveEntries;
  }

  lemma QueueLengths(c: Config, s: State, step: Step)
    requires Enabled(c, s, step) && TablesInv(s) && s.bloom.Valid() && c.durable && LogInv(c, s) && LogSound(c, s, step)
    ensures var t := Do(c, s, step);
      if step.CommitFlush? then |t.imm| < t.rotations else |t.imm| == t.rotations <==> |s.imm| == s.rotations
  {
    hide ToMap, Encode, LogEntries, LiveEntries, Bytes, MergedTable, Merge, Scans, WriteTable, StrictlySorted, Recovered,
         WellFormed, AllWellFormed, Content, Contents, Forget, Pairs, Bloom.AddAll, Bloom.Valid, Direct, KeepsNothingNew;
    if !step.Apply? && !step.Rotate? && !step.CommitFlush? { OthersKeepLogs(c, s, step); }
  }

  lemma {:induction false} RunKeepsNothingFlushed(c: Config, s: State, steps: seq<Step>)
    requires Inv(s) && c.durable && LogInv(c, s) && NothingFlushed(s) && Possible(c, s, steps) && LogsSound(c, s, steps)
    ensures NothingFlushed(Lsm.Run(c, s, steps))
    decreases |steps|
  {
    hide Do, Enabled, Inv, LooseInv, LogInv, LogSound, NothingFlushed;
    if steps != [] {
      var before := steps[..|steps| - 1];
      RunKeepsNothingFlushed(c, s, before);
      RunKeepsLogs(c, s, before);
      RunKeepsLoose(c, s, before);
      PossibleUnfolds(c, s, steps);
      StepKeepsNothingFlushed(c, Lsm.Run(c, s, before), steps[|steps| - 1]);
    }
  }

  function Blank(m: Table, blank: bool): Table {
    if blank then Shapes(m) else m
  }

  /** The table holds everything that is laid over it already. */
  predicate AddsNothing(first: Table, later: Table) {
    forall k :: k in later ==> k in first && first[k] == later[k]
  }

  /** What a restart can bring back is all there is: no rotation has happened; or no frozen memtable has been
      flushed yet, and nothing written since the first rotation differs from what it froze; or the store is
      empty. Entries are compared with or without their value bytes. */
  ghost predicate RestartComplete(s: State, blank: bool) {
    if s.rotations == 0 then true
    else if |s.imm| == s.rotations then AddsNothing(Blank(s.imm[0], blank), Blank(Union(s.imm[1..]) + s.mem, blank))
    else View(s) == map[]
  }

  lemma AddsNothingIff(first: Table, later: Table)
    ensures first + later == first <==> AddsNothing(first, later)
  {
    if AddsNothing(first, later) {
      assert first + later == first;
    } else if first + later == first {
      forall k | k in later ensures k in first && first[k] == later[k] { assert k in first + later; }
    }
  }

  lemma ShapesEmptyIff(m: Table)
    ensures Shapes(m) == map[] <==> m == map[]
  {
    if m != map[] {
      var k :| k in m;
      assert k in Shapes(m);
    }
  }

  lemma RecoveredIsViewIff(s: State, blank: bool)
    requires |s.imm| <= s.rotations && NothingFlushed(s)
    ensures Blank(RecoveredFrom(s), blank) == Blank(View(s), blank) <==> RestartComplete(s, blank)
  {
    hide LayersOf, Layers.View, Shapes, EmptyDisk, Union;
    ImmAndMem(s);
    if |s.imm| == s.rotations {
      EmptyDiskView(LayersOf(s));
      if s.rotations == 0 {
        Layers.UnionNone();
        assert map[] + s.mem == s.mem;
      } else {
        var first, later := s.imm[0], Union(s.imm[1..]) + s.mem;
        assert s.imm == [first] + s.imm[1..];
        UnionAppend([first], s.imm[1..]);
        UnionOne(first);
        UnionAssociative(first, Union(s.imm[1..]), s.mem);
        ShapesUnion(first, later);
        AddsNothingIff(Blank(first, blank), Blank(later, blank));
      }
    } else {
      ShapesEmptyIff(View(s));
      ShapesEmptyIff(map[]);
    }
  }

  lemma ImmAndMem(s: State)
    ensures LayersOf(s).imm == s.imm && LayersOf(s).mem == s.mem
  {
  }

  /** Crash and restart, after any run of a store started from a log: the restarted store shows the same keys,
      value lengths, expiries and tombstones as the one that stopped exactly when `RestartComplete` holds, and
      if the log carries the value bytes the same is true of them. */
  lemma RestartKeepsStoreIff(c: Config, log: seq<Byte>, bloom: Bloom, steps: seq<Step>, bloom': Bloom)
    requires c.durable && bloom.Valid() && ReplayLog(log).ok
    requires !c.copiesValues ==> Shapes(Recovered(log)) == Recovered(log)
    requires Possible(c, Start(c, log, bloom), steps) && LogsSound(c, Start(c, log, bloom), steps)
    ensures var s := Lsm.Run(c, Start(c, log, bloom), steps); var t := Start(c, ConfiguredLog(s), bloom');
      && ReplayLog(ConfiguredLog(s)).ok
      && (Shapes(View(t)) == Shapes(View(s)) <==> RestartComplete(s, true))
      && (c.copiesValues ==> (View(t) == View(s) <==> RestartComplete(s, false)))
  {
    var s0 := Start(c, log, bloom);
    StartIsSound(c, log, bloom);
    hide Start, Possible, Inv, LogsSound, Recovered, Shapes, LayersOf, ReplayLog, Layers.View, Bloom.Valid, RestartComplete,
         NothingFlushed, Pairs, ConfiguredLog, RecoveredFrom;
    RunKeepsLogs(c, s0, steps);
    RunKeepsNothingFlushed(c, s0, steps);
    var s := Lsm.Run(c, s0, steps);
    RecoveryRebuilds(c, s);
    StartLayers(c, ConfiguredLog(s), bloom');
    StartHoldsLog(c, ConfiguredLog(s), bloom');
    RecoveredIsViewIff(s, true);
    RecoveredIsViewIff(s, false);
  }

  lemma StartHoldsLog(c: Config, log: seq<Byte>, bloom: Bloom)
    ensures c.durable ==> Start(c, log, bloom).mem == Recovered(log)
  {
    hide Recovered;
  }

  lemma {:induction false} NoRotation(c: Config, s: State, steps: seq<Step>)
    requires forall i :: 0 <= i < |steps| ==> !steps[i].Rotate?
    ensures Lsm.Run(c, s, steps).rotations == s.rotations
    decreases |steps|
  {
    hide Do, Enabled;
    if steps != [] {
      var t, step := Lsm.Run(c, s, steps[..|steps| - 1]), steps[|steps| - 1];
      NoRotation(c, s, steps[..|steps| - 1]);
      if t.bloom.Valid() && Enabled(c, t, step) { KeepsRotations(c, t, step); }
    }
  }

  lemma KeepsRotations(c: Config, s: State, step: Step)
    requires Enabled(c, s, step) && s.bloom.Valid() && !step.Rotate?
    ensures Do(c, s, step).rotations == s.rotations
  {
    hide ToMap, Encode, LogEntries, LiveEntries, Bytes, MergedTable, Merge, Scans, WriteTable, StrictlySorted, Forget,
         Bloom.AddAll, Bloom.Valid, Direct;
  }

  /** In particular a restart always keeps the store if no rotation has happened. */
  lemma RestartKeepsView(c: Config, log: seq<Byte>, bloom: Bloom, steps: seq<Step>, bloom': Bloom)
    requires c.durable && bloom.Valid() && ReplayLog(log).ok
    requires !c.copiesValues ==> Shapes(Recovered(log)) == Recovered(log)
    requires Possible(c, Start(c, log, bloom), steps) && LogsSound(c, Start(c, log, bloom), steps)
    requires forall i :: 0 <= i < |steps| ==> !steps[i].Rotate?
    ensures var s := Lsm.Run(c, Start(c, log, bloom), steps); var t := Start(c, s.activeWal, bloom');
      && ReplayLog(s.activeWal).ok
      && Shapes(View(t)) == Shapes(View(s))
      && (c.copiesValues ==> View(t) == View(s))
  {
    hide Possible, LogsSound, Recovered, Shapes, View, ReplayLog, Lsm.Run;
    RestartKeepsStoreIff(c, log, bloom, steps, bloom');
    NoRotation(c, Start(c, log, bloom), steps);
  }
}
