/** Runs of a store started empty that end where the code and its intent differ. */
module Scenarios {
  import opened Entries
  import opened WriteAheadLog
  import opened SortedTable
  import opened BloomFilter
  import opened MergeHeap
  import opened Compaction
  import opened MemoryTable
  import opened Ingestion
  import opened Lsm
  import opened AnyTies
  import opened Durability
  import Reading
  import SplitReads
  import Lru = LruCache
  import Layers

  // ---------- Pieces of runs ----------

  /** A step that is enabled and sound makes a legal run longer. */
  lemma OneMore(c: Config, s: State, steps: seq<Step>, step: Step)
    requires Inv(s) && Legal(c, s, steps)
    requires var t := Lsm.Run(c, s, steps); Enabled(c, t, step) && MergeSound(c, t, step)
    ensures var t := Lsm.Run(c, s, steps);
      && t.bloom.Valid() && Inv(t) && Inv(Do(c, t, step))
      && Legal(c, s, steps + [step]) && Lsm.Run(c, s, steps + [step]) == Do(c, t, step)
  {
    hide Do, Enabled, MergeSound, Inv;
    RunKeepsInv(c, s, steps);
    InvParts(Lsm.Run(c, s, steps));
    StepKeepsInv(c, Lsm.Run(c, s, steps), step);
    assert (steps + [step])[..|steps|] == steps;
  }

  /** A batch fills the memtable, which is rotated and flushed. */
  function FlushCycle(batch: seq<IngestReq>, now: Int64, id: nat): seq<Step> {
    [Apply(batch, now, Written), Rotate(true), WriteFlush(LiveEntries(batch, now), id), CommitFlush]
  }

  ghost predicate Fills(c: Config, batch: seq<IngestReq>, now: Int64) {
    && BatchFits(batch) && StrictlySorted(LiveEntries(batch, now))
    && Bytes(ToMap(LiveEntries(batch, now))) >= c.maxBytes
  }

  /** A store with nothing in memory and nothing under way but perhaps a compaction. */
  ghost predicate Settled(s: State) {
    s.mem == map[] && s.imm == [] && s.flushing == NotFlushing && s.cache == []
  }

  lemma FillMemory(c: Config, s: State, batch: seq<IngestReq>, now: Int64)
    requires Settled(s) && s.bloom.Valid() && Fills(c, batch, now)
    ensures Enabled(c, s, Apply(batch, now, Written)) && MergeSound(c, s, Apply(batch, now, Written))
    ensures var t := Do(c, s, Apply(batch, now, Written));
      && t.bloom.Valid() && Enabled(c, t, Rotate(true)) && MergeSound(c, t, Rotate(true))
      && t == s.(mem := ToMap(LiveEntries(batch, now)), activeWal := t.activeWal)
      && (var u := Do(c, t, Rotate(true));
          u == t.(mem := map[], imm := [t.mem], activeWal := u.activeWal, frozenWals := u.frozenWals, rotations := u.rotations))
  {
    hide ToMap, Encode, LogEntries, LiveEntries, Bytes, StrictlySorted, Bloom.Valid;
    ForgetNothing(batch);
    assert map[] + ToMap(LiveEntries(batch, now)) == ToMap(LiveEntries(batch, now));
  }

  lemma {:induction false} ForgetNothing(batch: seq<IngestReq>)
    ensures Forget([], batch) == []
  {
    if batch != [] { ForgetNothing(batch[..|batch| - 1]); }
  }

  lemma FlushMemory(c: Config, s: State, es: seq<Entry>, id: nat)
    requires s.bloom.Valid() && s.flushing == NotFlushing && s.imm == [ToMap(es)] && StrictlySorted(es)
    ensures Enabled(c, s, WriteFlush(es, id)) && MergeSound(c, s, WriteFlush(es, id))
    ensures var t := Do(c, s, WriteFlush(es, id));
      && t.bloom.Valid() && Enabled(c, t, CommitFlush) && MergeSound(c, t, CommitFlush)
      && (var u := Do(c, t, CommitFlush);
          u == s.(imm := [], l0 := s.l0 + [WriteTable(es, id, 0)], bloom := t.bloom, frozenWals := u.frozenWals))
  {
    hide ToMap, StrictlySorted, Bloom.Valid, Bloom.AddAll, WriteTable;
  }

  /** A cycle turns a batch into one more level-0 table. */
  lemma CycleFlushes(c: Config, s: State, batch: seq<IngestReq>, now: Int64, id: nat)
    requires Inv(s) && Settled(s) && Fills(c, batch, now)
    ensures var t := Lsm.Run(c, s, FlushCycle(batch, now, id));
      && Legal(c, s, FlushCycle(batch, now, id)) && Inv(t) && Settled(t)
      && t.l0 == s.l0 + [WriteTable(LiveEntries(batch, now), id, 0)] && t.l1 == s.l1 && t.compacting == s.compacting
  {
    hide Do, Enabled, MergeSound, Inv, ToMap, LiveEntries, StrictlySorted, Bytes, WriteTable, Lsm.Run, Legal;
    var es := LiveEntries(batch, now);
    NoSteps(c, s);
    InvParts(s);
    FillMemory(c, s, batch, now);
    OneMore(c, s, [], Apply(batch, now, Written));
    assert [] + [Apply(batch, now, Written)] == [Apply(batch, now, Written)];
    OneMore(c, s, [Apply(batch, now, Written)], Rotate(true));
    var two: seq<Step> := [Apply(batch, now, Written)] + [Rotate(true)];
    InvParts(Lsm.Run(c, s, two));
    FlushMemory(c, Lsm.Run(c, s, two), es, id);
    OneMore(c, s, two, WriteFlush(es, id));
    OneMore(c, s, two + [WriteFlush(es, id)], CommitFlush);
    assert FlushCycle(batch, now, id) == two + [WriteFlush(es, id)] + [CommitFlush];
  }

  lemma NoSteps(c: Config, s: State)
    ensures Lsm.Run(c, s, []) == s && Legal(c, s, [])
  {
  }

  lemma NothingApplied(c: Config)
    ensures AppliedBy(c, []) == []
  {
  }

  lemma {:induction false} LegalAppend(c: Config, s: State, a: seq<Step>, b: seq<Step>)
    requires Legal(c, s, a) && Legal(c, Lsm.Run(c, s, a), b)
    ensures Legal(c, s, a + b)
    decreases |b|
  {
    hide Enabled, MergeSound, Lsm.Run;
    if b == [] {
      assert a + b == a;
    } else {
      var n := |b| - 1;
      assert (a + b)[..|a + b| - 1] == a + b[..n];
      LegalAppend(c, s, a, b[..n]);
      RunAppend(c, s, a, b[..n]);
    }
  }

  lemma {:induction false} LegalIsPossible(c: Config, s: State, steps: seq<Step>)
    requires Legal(c, s, steps)
    ensures Possible(c, s, steps)
    decreases |steps|
  {
    hide Enabled, MergeSound, Lsm.Run;
    if steps != [] { LegalIsPossible(c, s, steps[..|steps| - 1]); }
  }

  lemma CycleApplies(c: Config, batch: seq<IngestReq>, now: Int64, id: nat)
    ensures AppliedBy(c, FlushCycle(batch, now, id)) == LiveEntries(batch, now)
  {
    hide LiveEntries, AppliedBy;
    NothingApplied(c);
    var x: seq<Step> := [] + [Apply(batch, now, Written)];
    var y := x + [Rotate(true)];
    var z := y + [WriteFlush(LiveEntries(batch, now), id)];
    AppliedBySnoc(c, [], Apply(batch, now, Written));
    AppliedBySnoc(c, x, Rotate(true));
    AppliedBySnoc(c, y, WriteFlush(LiveEntries(batch, now), id));
    AppliedBySnoc(c, z, CommitFlush);
    assert [] + LiveEntries(batch, now) == LiveEntries(batch, now);
    assert LiveEntries(batch, now) + [] + [] + [] == LiveEntries(batch, now);
    assert FlushCycle(batch, now, id) == z + [CommitFlush];
  }

  /** A compaction takes level 0. */
  lemma TakeAll(c: Config, s: State, steps: seq<Step>)
    requires Inv(s) && Legal(c, s, steps)
    requires var t := Lsm.Run(c, s, steps); t.compacting == Resting && |t.l0| >= c.trigger
    ensures var t := Lsm.Run(c, s, steps);
      && Legal(c, s, steps + [TakeTables]) && Lsm.Run(c, s, steps + [TakeTables]) == t.(l0 := [], compacting := Merging(t.l0))
      && Inv(Lsm.Run(c, s, steps + [TakeTables]))
  {
    hide Inv, Lsm.Run, Legal;
    OneMore(c, s, steps, TakeTables);
  }

  lemma StartSettled(c: Config, bloom: Bloom)
    requires bloom.Valid()
    ensures var s := Start(c, [], bloom);
      && Inv(s) && LogInv(c, s) && Settled(s) && s.l0 == [] && s.l1 == [] && s.compacting == Resting && s.cache == []
  {
    hide Inv, LogInv;
    NothingRecovered();
    StartIsSound(c, [], bloom);
  }

  lemma NothingRecovered()
    ensures ReplayLog([]) == Replayed([], true) && Recovered([]) == map[] && Shapes(Recovered([])) == Recovered([])
  {
  }

  lemma LiveScans(batch: seq<IngestReq>, now: Int64, id: nat)
    requires BatchFits(batch)
    ensures Scan(WriteTable(LiveEntries(batch, now), id, 0).file) == LiveEntries(batch, now)
  {
    LogEntriesFit(batch, now, true);
    ScanEncoded(LiveEntries(batch, now));
  }

  // ---------- Many cycles ----------

  /** One cycle for each batch. */
  function Cycles(batches: seq<seq<IngestReq>>, now: Int64, id: nat): seq<Step> {
    if batches == [] then []
    else Cycles(batches[..|batches| - 1], now, id) + FlushCycle(batches[|batches| - 1], now, id + |batches| - 1)
  }

  /** The tables that the cycles write. */
  function TablesOf(batches: seq<seq<IngestReq>>, now: Int64, id: nat): (ts: seq<SSTable>)
    ensures |ts| == |batches|
  {
    if batches == [] then []
    else
      TablesOf(batches[..|batches| - 1], now, id)
      + [WriteTable(LiveEntries(batches[|batches| - 1], now), id + |batches| - 1, 0)]
  }

  lemma {:induction false} TableAt(batches: seq<seq<IngestReq>>, now: Int64, id: nat, i: nat)
    requires i < |batches|
    ensures TablesOf(batches, now, id)[i] == WriteTable(LiveEntries(batches[i], now), id + i, 0)
    decreases |batches|
  {
    hide WriteTable, LiveEntries;
    if i < |batches| - 1 { TableAt(batches[..|batches| - 1], now, id, i); }
  }

  ghost predicate AllFill(c: Config, batches: seq<seq<IngestReq>>, now: Int64) {
    forall i :: 0 <= i < |batches| ==> Fills(c, batches[i], now)
  }

  lemma {:induction false} CyclesFlush(c: Config, s: State, batches: seq<seq<IngestReq>>, now: Int64, id: nat)
    requires Inv(s) && Settled(s) && AllFill(c, batches, now)
    ensures var t := Lsm.Run(c, s, Cycles(batches, now, id));
      && Legal(c, s, Cycles(batches, now, id)) && Inv(t) && Settled(t)
      && t.l0 == s.l0 + TablesOf(batches, now, id) && t.l1 == s.l1 && t.compacting == s.compacting
    decreases |batches|
  {
    hide Inv, Lsm.Run, Legal, Fills, LiveEntries, WriteTable, FlushCycle, Settled;
    if batches == [] {
      NoSteps(c, s);
      assert s.l0 + TablesOf(batches, now, id) == s.l0;
    } else {
      var before, last := batches[..|batches| - 1], batches[|batches| - 1];
      CyclesFlush(c, s, before, now, id);
      var a, b := Cycles(before, now, id), FlushCycle(last, now, id + |batches| - 1);
      CycleFlushes(c, Lsm.Run(c, s, a), last, now, id + |batches| - 1);
      LegalAppend(c, s, a, b);
      RunAppend(c, s, a, b);
    }
  }

  /** Cycles and then a compaction that takes their tables. */
  lemma CyclesTaken(c: Config, s: State, batches: seq<seq<IngestReq>>, now: Int64, id: nat)
    requires Inv(s) && Settled(s) && s.l0 == [] && s.compacting == Resting && AllFill(c, batches, now) && c.trigger <= |batches|
    ensures var steps := Cycles(batches, now, id) + [TakeTables]; var t := Lsm.Run(c, s, steps);
      && Legal(c, s, steps) && Inv(t) && Settled(t) && t.l0 == [] && t.l1 == s.l1
      && t.compacting == Merging(TablesOf(batches, now, id))
  {
    hide Inv, Lsm.Run, Legal, AllFill, Cycles, TablesOf, Settled;
    CyclesFlush(c, s, batches, now, id);
    assert s.l0 + TablesOf(batches, now, id) == TablesOf(batches, now, id);
    TakeAll(c, s, Cycles(batches, now, id));
    SettledLike(Lsm.Run(c, s, Cycles(batches, now, id)), Lsm.Run(c, s, Cycles(batches, now, id) + [TakeTables]));
  }

  /** One batch of one request each. */
  function Ones(rs: seq<IngestReq>): (batches: seq<seq<IngestReq>>)
    ensures |batches| == |rs| && forall i :: 0 <= i < |rs| ==> batches[i] == [rs[i]]
  {
    seq(|rs|, i requires 0 <= i < |rs| => [rs[i]])
  }

  lemma SettledParts(s: State)
    requires Settled(s)
    ensures s.mem == map[] && s.imm == [] && s.cache == []
  {
  }

  lemma FillsFits(c: Config, batch: seq<IngestReq>, now: Int64)
    requires Fills(c, batch, now)
    ensures BatchFits(batch)
  {
  }

  lemma LiveOfOne(x: IngestReq, now: Int64)
    ensures LiveEntries([x], now) == [CreateEntry(x, now, true)]
  {
    hide CreateEntry;
  }

  lemma KeyOf(x: IngestReq, now: Int64)
    ensures CreateEntry(x, now, true).key == x.key
  {
  }


  lemma {:induction false} OnesApplied(c: Config, rs: seq<IngestReq>, now: Int64, id: nat)
    ensures AppliedBy(c, Cycles(Ones(rs), now, id)) == LiveEntries(rs, now)
    decreases |rs|
  {
    hide CreateEntry, FlushCycle, AppliedBy, LiveEntries;
    if rs == [] {
      NothingApplied(c);
      assert LiveEntries([], now) == [] by { LiveOfNone(now); }
    } else {
      var n := |rs| - 1;
      OnesApplied(c, rs[..n], now, id);
      assert Ones(rs)[..n] == Ones(rs[..n]);
      AppliedAppend(c, Cycles(Ones(rs[..n]), now, id), FlushCycle([rs[n]], now, id + n));
      CycleApplies(c, [rs[n]], now, id + n);
      LiveSplit(rs, now);
    }
  }

  lemma LiveOfNone(now: Int64)
    ensures LiveEntries([], now) == []
  {
  }

  lemma LiveSplit(rs: seq<IngestReq>, now: Int64)
    requires rs != []
    ensures LiveEntries(rs, now) == LiveEntries(rs[..|rs| - 1], now) + LiveEntries([rs[|rs| - 1]], now)
  {
    hide CreateEntry;
  }

  // ---------- A compaction that takes a key back ----------

  /** The run: a key is written again and again, each write flushed on its own; then the tables are compacted. */
  function OverwriteAndCompact(rs: seq<IngestReq>, now: Int64, id: nat): seq<Step> {
    Cycles(Ones(rs), now, id) + [TakeTables] + [WriteMerge(id + |rs|), CommitMerge]
  }

  /** On a store started empty, with the comparison as it stands and at any trigger: with three writes or more, and as
      many as the trigger asks for, that run is possible and the store ends up showing the second write. */
  lemma OverwriteComesBack(c: Config, bloom: Bloom, rs: seq<IngestReq>, k: Key, now: Int64, id: nat)
    requires !c.tieBySource && |rs| >= 3 && c.trigger <= |rs| && bloom.Valid()
    requires AllFill(c, Ones(rs), now) && forall i :: 0 <= i < |rs| ==> rs[i].key == k
    ensures var steps, s0 := OverwriteAndCompact(rs, now, id), Start(c, [], bloom);
      && Possible(c, s0, steps)
      && Lookup(ToMap(AppliedBy(c, steps)), k) == Some(CreateEntry(rs[|rs| - 1], now, true))
      && Lookup(View(Lsm.Run(c, s0, steps)), k) == Some(CreateEntry(rs[1], now, true))
  {
    hide Inv, Lsm.Run, Legal, Possible, Start, Settled, AllFill, CreateEntry, WriteTable, View, ToMap, LogInv,
         AppliedBy, Cycles, Ones, MergedTable, Content;
    var s0 := Start(c, [], bloom);
    StartSettled(c, bloom);
    CyclesTaken(c, s0, Ones(rs), now, id);
    var taken := Cycles(Ones(rs), now, id) + [TakeTables];
    var t := Lsm.Run(c, s0, taken);
    SettledParts(t);
    OnlyTakenCommits(c, t, id + |rs|);
    LegalIsPossible(c, s0, taken);
    PossibleAppend(c, s0, taken, [WriteMerge(id + |rs|), CommitMerge]);
    RunAppend(c, s0, taken, [WriteMerge(id + |rs|), CommitMerge]);
    OnesMerged(c, rs, k, now, id);
    OverwriteApplied(c, rs, now, id);
    KeyOf(rs[|rs| - 1], now);
  }

  lemma OverwriteApplied(c: Config, rs: seq<IngestReq>, now: Int64, id: nat)
    requires rs != []
    ensures Lookup(ToMap(AppliedBy(c, OverwriteAndCompact(rs, now, id))), CreateEntry(rs[|rs| - 1], now, true).key)
      == Some(CreateEntry(rs[|rs| - 1], now, true))
  {
    hide CreateEntry, LiveEntries, ToMap, AppliedBy, Cycles, Ones;
    var x := Cycles(Ones(rs), now, id);
    AppliedAppend(c, x + [TakeTables], [WriteMerge(id + |rs|), CommitMerge]);
    AppliedAppend(c, x, [TakeTables]);
    QuietSteps(c, id + |rs|);
    OnesApplied(c, rs, now, id);
    LiveSplit(rs, now);
    LiveOfOne(rs[|rs| - 1], now);
    LastOfKey(LiveEntries(rs[..|rs| - 1], now), CreateEntry(rs[|rs| - 1], now, true));
    assert AppliedBy(c, OverwriteAndCompact(rs, now, id)) == LiveEntries(rs, now);
  }

  /** What the heap as it stands makes of the tables. */
  lemma OnesMerged(c: Config, rs: seq<IngestReq>, k: Key, now: Int64, id: nat)
    requires !c.tieBySource && |rs| >= 2 && AllFill(c, Ones(rs), now) && forall i :: 0 <= i < |rs| ==> rs[i].key == k
    ensures Lookup(Content(MergedTable(TiesOf(c), TablesOf(Ones(rs), now, id), id + |rs|)), k) == Some(CreateEntry(rs[1], now, true))
  {
    hide CreateEntry, WriteTable, ToMap, Content, Scan, Merge, Bytes, TablesOf, StrictlySorted;
    var ts := TablesOf(Ones(rs), now, id);
    var es := LiveEntries(rs, now);
    forall i | 0 <= i < |rs| ensures Scans(ts)[i] == [es[i]] && es[i].key == k {
      assert Fills(c, Ones(rs)[i], now);
      TableAt(Ones(rs), now, id, i);
      LiveScans([rs[i]], now, id + i);
      LiveOfOne(rs[i], now);
      KeyOf(rs[i], now);
    }
    assert Scans(ts) == Singles(es);
    KeyOnlyMergeOfEquals(es, k);
    MergedTableIsWritten(KeyOnly(), ts, id + |rs|);
    OneFits(rs[1], now, c);
    WrittenIsWellFormed([es[1]], id + |rs|, 1);
    LastOfKey([], es[1]);
    assert [] + [es[1]] == [es[1]];
    assert Ones(rs)[1] == [rs[1]] && Fills(c, Ones(rs)[1], now);
  }

  lemma OneFits(r: IngestReq, now: Int64, c: Config)
    requires Fills(c, [r], now)
    ensures AllFit([CreateEntry(r, now, true)]) && StrictlySorted([CreateEntry(r, now, true)])
  {
    LogEntriesFit([r], now, true);
    LiveOfOne(r, now);
  }

  lemma QuietSteps(c: Config, id: nat)
    ensures AppliedBy(c, [TakeTables]) == [] && AppliedBy(c, [WriteMerge(id), CommitMerge]) == []
  {
    assert [WriteMerge(id), CommitMerge][..1] == [WriteMerge(id)] && [WriteMerge(id)][..0] == [];
  }

  // ---------- A read inside a compaction that caches what is stale ----------

  function Repeat(x: IngestReq, n: nat): (rs: seq<IngestReq>)
    ensures |rs| == n && forall i :: 0 <= i < n ==> rs[i] == x
  {
    seq(n, i => x)
  }

  /** The run: x is written and flushed n times and compacted to level 1; then its key is overwritten with y and that
      is flushed n times; then a compaction takes level 0. */
  function OlderBelowTaken(x: IngestReq, y: IngestReq, n: nat, now: Int64, id: nat): seq<Step> {
    Cycles(Ones(Repeat(x, n)), now, id) + [TakeTables] + [WriteMerge(id + n), CommitMerge]
      + (Cycles(Ones(Repeat(y, n)), now, id + n + 1) + [TakeTables])
  }

  lemma RepeatFills(c: Config, x: IngestReq, n: nat, now: Int64)
    requires Fills(c, [x], now)
    ensures AllFill(c, Ones(Repeat(x, n)), now)
  {
    hide Fills;
  }

  /** Tables that all hold the same one entry. */
  lemma RepeatContents(c: Config, x: IngestReq, n: nat, now: Int64, id: nat)
    requires n > 0 && Fills(c, [x], now)
    ensures var ts := TablesOf(Ones(Repeat(x, n)), now, id);
      Union(Contents(ts)) == ToMap(LiveEntries([x], now)) && SharedKeysAgree(Scans(ts))
  {
    hide LiveEntries, WriteTable, ToMap, Content, Scan, Fills, TablesOf;
    var ts := TablesOf(Ones(Repeat(x, n)), now, id);
    forall i | 0 <= i < n
      ensures Contents(ts)[i] == ToMap(LiveEntries([x], now)) && Scans(ts)[i] == LiveEntries([x], now)
    {
      TableAt(Ones(Repeat(x, n)), now, id, i);
      WrittenContent(c, [x], now, id + i);
      FillsFits(c, [x], now);
      LiveScans([x], now, id + i);
    }
    SameUnion(Contents(ts), ToMap(LiveEntries([x], now)));
  }

  lemma {:induction false} SameUnion(ms: seq<Table>, m: Table)
    requires ms != [] && forall i :: 0 <= i < |ms| ==> ms[i] == m
    ensures Union(ms) == m
  {
    var n := |ms| - 1;
    if n > 0 { SameUnion(ms[..n], m); } else { assert Union(ms[..n]) == map[]; }
  }

  /** Tables of the same entry compact to that entry, under any tie rule. */
  lemma CompactSame(c: Config, s: State, x: IngestReq, n: nat, now: Int64, id: nat)
    requires Inv(s) && Settled(s) && s.l0 == [] && s.l1 == [] && s.compacting == Resting && 0 < n && c.trigger <= n
    requires Fills(c, [x], now)
    ensures var steps := Cycles(Ones(Repeat(x, n)), now, id) + [TakeTables] + [WriteMerge(id + n), CommitMerge];
      var t := Lsm.Run(c, s, steps);
      && Legal(c, s, steps) && Inv(t) && Settled(t) && t.l0 == [] && t.compacting == Resting
      && |t.l1| == 1 && Content(t.l1[0]) == ToMap(LiveEntries([x], now))
  {
    hide Inv, Lsm.Run, Legal, Fills, LiveEntries, WriteTable, Settled, ToMap, Content, Contents, MergedTable, Do, Enabled,
         MergeSound, Cycles, AllFill, Ones, TablesOf;
    var ts := TablesOf(Ones(Repeat(x, n)), now, id);
    RepeatFills(c, x, n, now);
    CyclesTaken(c, s, Ones(Repeat(x, n)), now, id);
    RepeatContents(c, x, n, now, id);
    var taken := Cycles(Ones(Repeat(x, n)), now, id) + [TakeTables];
    var u := Lsm.Run(c, s, taken);
    InvParts(u);
    MergeSame(c, u, ts, id + n);
    OneMore(c, s, taken, WriteMerge(id + n));
    var merged := taken + [WriteMerge(id + n)];
    var v := Lsm.Run(c, s, merged);
    InvParts(v);
    CommitOne(c, v);
    OneMore(c, s, merged, CommitMerge);
    assert merged + [CommitMerge] == taken + [WriteMerge(id + n), CommitMerge];
    SettledLike(u, Lsm.Run(c, s, merged + [CommitMerge]));
    MergedRightContent(v, ts);
  }

  lemma SettledLike(t: State, u: State)
    requires Settled(t) && u.mem == t.mem && u.imm == t.imm && u.flushing == t.flushing && u.cache == t.cache
    ensures Settled(u)
  {
  }

  lemma WrittenContent(c: Config, batch: seq<IngestReq>, now: Int64, id: nat)
    requires Fills(c, batch, now)
    ensures Content(WriteTable(LiveEntries(batch, now), id, 0)) == ToMap(LiveEntries(batch, now))
  {
    hide ToMap, Bytes, StrictlySorted, WriteTable, Content;
    LogEntriesFit(batch, now, true);
    WrittenIsWellFormed(LiveEntries(batch, now), id, 0);
  }

  lemma MergeSame(c: Config, s: State, ts: seq<SSTable>, id: nat)
    requires s.compacting == Merging(ts) && s.bloom.Valid() && SharedKeysAgree(Scans(ts))
    ensures Enabled(c, s, WriteMerge(id)) && MergeSound(c, s, WriteMerge(id))
    ensures var u := Do(c, s, WriteMerge(id));
      u == s.(compacting := Merged(ts, MergedTable(TiesOf(c), ts, id)), bloom := u.bloom)
  {
    hide MergedTable, ToMap, Bloom.AddAll, Merge, SharedKeysAgree;
  }

  lemma CommitOne(c: Config, s: State)
    requires s.compacting.Merged? && s.bloom.Valid()
    ensures Enabled(c, s, CommitMerge) && MergeSound(c, s, CommitMerge)
    ensures Do(c, s, CommitMerge) == s.(l1 := s.l1 + [s.compacting.result], compacting := Resting)
  {
  }

  lemma MergedRightContent(s: State, ts: seq<SSTable>)
    requires MergedRight(s) && s.compacting.Merged? && s.compacting.tables == ts
    ensures Content(s.compacting.result) == Union(Contents(ts))
  {
    hide Content;
  }

  lemma OneTableSearch(t: SSTable, k: Key)
    ensures SearchTables([t], k) == Lookup(Content(t), k)
  {
    hide Find, Content;
    SearchIsUnion([t], k);
    ContentsOne(t);
    UnionOne(Content(t));
  }

  lemma SearchNothing(k: Key)
    ensures SearchTables([], k) == None
  {
  }

  /** On a store started empty, whatever the tie rule and at any trigger, that run is possible, and a read of the key
      that comes next caches the overwritten value. */
  lemma ReadCachesStale(c: Config, bloom: Bloom, x: IngestReq, y: IngestReq, n: nat, now: Int64, id: nat)
    requires 0 < n && c.trigger <= n && c.cacheCapacity > 0 && bloom.Valid()
    requires Fills(c, [x], now) && Fills(c, [y], now) && x.key == y.key
    requires x.val != y.val && !x.deleted && x.ttl <= 0
    ensures var steps, s0 := OlderBelowTaken(x, y, n, now, id) + [Fetch(x.key, now)], Start(c, [], bloom);
      var s := Lsm.Run(c, s0, steps);
      && Legal(c, s0, steps)
      && Lookup(View(s), x.key) == Some(CreateEntry(y, now, true))
      && Lru.Cached(s.cache, x.key) == Some(Lru.Item(x.key, x.val))
      && !Reading.CachedRight(s, x.key)
  {
    hide Inv, Lsm.Run, Legal, Start, Fills, LiveEntries, WriteTable, View, ToMap, LogInv, Content, Contents, SearchTables,
         DoFetch, Direct, OlderBelowTaken;
    var k := x.key;
    var s0 := Start(c, [], bloom);
    StartSettled(c, bloom);
    var steps := OlderAndTaken(c, s0, x, y, n, now, id);
    var s := Lsm.Run(c, s0, steps);
    InvParts(s);
    LookupOfOne(x, now);
    LookupOfOne(y, now);
    assert s.l1 == [s.l1[0]];
    OneTableSearch(s.l1[0], k);
    SearchIsUnion(s.compacting.tables, k);
    FetchStale(c, s, x, y, now);
    FetchSound(c, s, k, now);
    OneMore(c, s0, steps, Fetch(k, now));
  }

  lemma FetchSound(c: Config, s: State, k: Key, now: Int64)
    requires s.bloom.Valid()
    ensures Enabled(c, s, Fetch(k, now)) && MergeSound(c, s, Fetch(k, now)) && Do(c, s, Fetch(k, now)) == DoFetch(c, s, k, now)
  {
    hide DoFetch;
  }

  lemma OlderAndTaken(c: Config, s0: State, x: IngestReq, y: IngestReq, n: nat, now: Int64, id: nat) returns (steps: seq<Step>)
    requires Inv(s0) && Settled(s0) && s0.l0 == [] && s0.l1 == [] && s0.compacting == Resting && 0 < n && c.trigger <= n
    requires Fills(c, [x], now) && Fills(c, [y], now)
    ensures steps == OlderBelowTaken(x, y, n, now, id)
    ensures var s := Lsm.Run(c, s0, steps);
      && Legal(c, s0, steps) && Inv(s) && Settled(s) && s.l0 == []
      && |s.l1| == 1 && Content(s.l1[0]) == ToMap(LiveEntries([x], now))
      && s.compacting.Merging? && Union(Contents(s.compacting.tables)) == ToMap(LiveEntries([y], now))
  {
    hide Inv, Lsm.Run, Legal, Fills, LiveEntries, WriteTable, ToMap, Content, Contents, Cycles, AllFill, Ones, TablesOf;
    CompactSame(c, s0, x, n, now, id);
    var a := Cycles(Ones(Repeat(x, n)), now, id) + [TakeTables] + [WriteMerge(id + n), CommitMerge];
    var b := Cycles(Ones(Repeat(y, n)), now, id + n + 1) + [TakeTables];
    RepeatFills(c, y, n, now);
    CyclesTaken(c, Lsm.Run(c, s0, a), Ones(Repeat(y, n)), now, id + n + 1);
    RepeatContents(c, y, n, now, id + n + 1);
    LegalAppend(c, s0, a, b);
    RunAppend(c, s0, a, b);
    steps := a + b;
  }

  lemma LookupOfOne(x: IngestReq, now: Int64)
    ensures Lookup(ToMap(LiveEntries([x], now)), x.key) == Some(CreateEntry(x, now, true))
  {
    hide ToMap, LiveEntries, CreateEntry;
    LiveOfOne(x, now);
    LastOfKey([], CreateEntry(x, now, true));
    KeyOf(x, now);
    assert [] + [CreateEntry(x, now, true)] == [CreateEntry(x, now, true)];
  }

  /** A read of a settled store whose newest entry of the key is in the taken tables and an older one in level 1. */
  lemma FetchStale(c: Config, s: State, x: IngestReq, y: IngestReq, now: Int64)
    requires BloomInv(s) && Settled(s) && s.l0 == [] && c.cacheCapacity > 0
    requires SearchTables(s.l1, x.key) == Some(CreateEntry(x, now, true))
    requires SearchTables(Taken(s), x.key) == Some(CreateEntry(y, now, true))
    requires x.key == y.key && x.val != y.val && !x.deleted && x.ttl <= 0
    ensures s.bloom.Valid()
    ensures var t := DoFetch(c, s, x.key, now);
      && Lookup(View(t), x.key) == Some(CreateEntry(y, now, true))
      && Lru.Cached(t.cache, x.key) == Some(Lru.Item(x.key, x.val))
      && !Reading.CachedRight(t, x.key)
  {
    hide BloomInv, SearchTables, SearchLevel, Bloom.Valid, Layers.View, Layers.Newest, LayersOf, Taken;
    var k := x.key;
    assert ReadMemory(s, k) == None by { assert s.imm + [s.mem] == [map[]]; Layers.SearchOne(map[], k); }
    assert SearchTables(s.l0, k) == None by { SearchNothing(k); }
    Reading.FetchInWindow(c, s, k, now);
    Reading.ReadsAreLayerReads(s, k);
    Reading.LevelSearch(s, k);
    Reading.TakenIsLayer(s, k);
    Layers.NewestByParts(LayersOf(s), k);
    Layers.NewestIsView(LayersOf(s), k);
    Reading.SameView(s, DoFetch(c, s, k, now));
    assert Direct(s, k, now) == Found(x.val);
    assert Lru.Insert([], c.cacheCapacity, k, x.val) == [Lru.Item(k, x.val)];
  }

  // ---------- A log that goes with another table's ----------

  /** The run: a batch fills the memtable; its rotation cannot open a new log; another batch fills the next
      memtable; its rotation succeeds; the first memtable is flushed. */
  function RotateTwiceFlushOnce(x: seq<IngestReq>, y: seq<IngestReq>, now: Int64, id: nat): seq<Step> {
    [Apply(x, now, Written), Rotate(false), Apply(y, now, Written), Rotate(true), WriteFlush(LiveEntries(x, now), id), CommitFlush]
  }

  /** On a store started empty that run is possible; it deletes the one log that holds the second batch, which has
      not been flushed: memory holds the batch and no log does. */
  lemma FailedRotationLosesLog(c: Config, bloom: Bloom, x: seq<IngestReq>, y: seq<IngestReq>, now: Int64, id: nat)
    requires c.durable && bloom.Valid() && Fills(c, x, now) && Fills(c, y, now)
    ensures var steps, s0 := RotateTwiceFlushOnce(x, y, now, id), Start(c, [], bloom);
      var s := Lsm.Run(c, s0, steps);
      && Legal(c, s0, steps)
      && s.imm == [ToMap(LiveEntries(y, now))] && s.frozenWals == [] && s.activeWal == [] && Recovered(s.activeWal) == map[]
  {
    hide Inv, Lsm.Run, Legal, Fills, LiveEntries, WriteTable, ToMap, LogInv, Do, Enabled, MergeSound, Recovered, Settled;
    var s0 := Start(c, [], bloom);
    StartSettled(c, bloom);
    StartPlain(c, bloom);
    NothingRecovered();
    NoSteps(c, s0);
    var a: seq<Step> := [] + [Apply(x, now, Written)];
    ApplyStep(c, s0, x, now);
    OneMore(c, s0, [], Apply(x, now, Written));
    var s1 := Lsm.Run(c, s0, a);
    InvParts(s1);
    RotateStep(c, s1, false, x, now);
    OneMore(c, s0, a, Rotate(false));
    var b := a + [Rotate(false)];
    var s2 := Lsm.Run(c, s0, b);
    InvParts(s2);
    ApplyStep(c, s2, y, now);
    OneMore(c, s0, b, Apply(y, now, Written));
    var d := b + [Apply(y, now, Written)];
    var s3 := Lsm.Run(c, s0, d);
    InvParts(s3);
    RotateStep(c, s3, true, y, now);
    OneMore(c, s0, d, Rotate(true));
    var e := d + [Rotate(true)];
    var s4 := Lsm.Run(c, s0, e);
    InvParts(s4);
    FlushFirst(c, s4, x, now, id);
    OneMore(c, s0, e, WriteFlush(LiveEntries(x, now), id));
    OneMore(c, s0, e + [WriteFlush(LiveEntries(x, now), id)], CommitFlush);
    assert e + [WriteFlush(LiveEntries(x, now), id)] + [CommitFlush] == RotateTwiceFlushOnce(x, y, now, id);
  }

  lemma StartPlain(c: Config, bloom: Bloom)
    ensures var s := Start(c, [], bloom);
      s.mem == map[] && s.imm == [] && s.frozenWals == [] && s.flushing == NotFlushing && s.activeWal == []
  {
    NothingRecovered();
  }

  lemma ApplyStep(c: Config, s: State, batch: seq<IngestReq>, now: Int64)
    requires s.bloom.Valid() && s.mem == map[] && Fills(c, batch, now)
    ensures Enabled(c, s, Apply(batch, now, Written)) && MergeSound(c, s, Apply(batch, now, Written))
    ensures var t := Do(c, s, Apply(batch, now, Written));
      t == s.(mem := ToMap(LiveEntries(batch, now)), activeWal := t.activeWal, cache := t.cache)
  {
    hide ToMap, Encode, LogEntries, LiveEntries, Bytes, StrictlySorted, Bloom.Valid, Forget;
    assert map[] + ToMap(LiveEntries(batch, now)) == ToMap(LiveEntries(batch, now));
  }

  lemma RotateStep(c: Config, s: State, opens: bool, batch: seq<IngestReq>, now: Int64)
    requires c.durable && s.bloom.Valid() && s.mem == ToMap(LiveEntries(batch, now)) && Fills(c, batch, now)
    ensures Enabled(c, s, Rotate(opens)) && MergeSound(c, s, Rotate(opens))
    ensures Do(c, s, Rotate(opens)) ==
      if opens then s.(imm := s.imm + [s.mem], mem := map[], frozenWals := s.frozenWals + [s.activeWal], activeWal := [],
                       rotations := s.rotations + 1)
      else s.(imm := s.imm + [s.mem], mem := map[])
  {
    hide ToMap, LiveEntries, Bytes, StrictlySorted, Bloom.Valid;
  }

  lemma FlushFirst(c: Config, s: State, batch: seq<IngestReq>, now: Int64, id: nat)
    requires c.durable && s.bloom.Valid() && s.flushing == NotFlushing && Fills(c, batch, now)
    requires s.imm != [] && s.imm[0] == ToMap(LiveEntries(batch, now)) && s.frozenWals != []
    ensures var step := WriteFlush(LiveEntries(batch, now), id);
      && Enabled(c, s, step) && MergeSound(c, s, step)
      && Do(c, s, step).bloom.Valid() && Enabled(c, Do(c, s, step), CommitFlush) && MergeSound(c, Do(c, s, step), CommitFlush)
    ensures var u := Do(c, Do(c, s, WriteFlush(LiveEntries(batch, now), id)), CommitFlush);
      u.imm == s.imm[1..] && u.frozenWals == s.frozenWals[1..] && u.activeWal == s.activeWal
  {
    hide ToMap, LiveEntries, Bytes, StrictlySorted, Bloom.Valid, Bloom.AddAll, WriteTable;
  }

  // ---------- A write between a read's look and its filling the cache ----------

  function WriteInRead(x: IngestReq, y: IngestReq, now: Int64): seq<SplitReads.Move> {
    [SplitReads.Agent(Apply([x], now, Written)), SplitReads.Ask(0, x.key), SplitReads.LookAtMemory(0),
     SplitReads.Agent(Apply([y], now, Written)), SplitReads.Finish(0, now)]
  }

  /** The read has found x in memory. */
  lemma ReadFindsOld(c: Config, s0: State, x: IngestReq, now: Int64)
    requires s0.bloom.Valid() && s0.cache == [] && BatchFits([x])
    ensures var w := SplitReads.Moves(c, SplitReads.World(s0, map[]),
                                      [SplitReads.Agent(Apply([x], now, Written)), SplitReads.Ask(0, x.key), SplitReads.LookAtMemory(0)]);
      && w.store.bloom.Valid() && w.store.cache == []
      && w.gets == map[0 := SplitReads.Ended(x.key, Some(CreateEntry(x, now, true)))]
  {
    hide ToMap, LiveEntries, Bloom.Valid, SplitReads.Moves, SplitReads.Next, SplitReads.Able, Do, Enabled, CreateEntry;
    var k := x.key;
    var w0 := SplitReads.World(s0, map[]);
    NoMoves(c, w0);
    ApplyOne(c, s0, x, now);
    AgentMove(c, w0, Apply([x], now, Written));
    var s1 := Do(c, s0, Apply([x], now, Written));
    var one: seq<SplitReads.Move> := [] + [SplitReads.Agent(Apply([x], now, Written))];
    OneMoreMove(c, w0, [], SplitReads.Agent(Apply([x], now, Written)));
    AskMove(c, SplitReads.World(s1, map[]), k);
    OneMoreMove(c, w0, one, SplitReads.Ask(0, k));
    LookMove(c, SplitReads.World(s1, map[0 := SplitReads.Asked(k)]), k);
    OneMoreMove(c, w0, one + [SplitReads.Ask(0, k)], SplitReads.LookAtMemory(0));
    assert one + [SplitReads.Ask(0, k)] + [SplitReads.LookAtMemory(0)] ==
      [SplitReads.Agent(Apply([x], now, Written)), SplitReads.Ask(0, k), SplitReads.LookAtMemory(0)];
  }

  /** On a store started empty: a read finds x in memory, its key is overwritten, and the read then caches x. */
  lemma WriteInReadCachesStale(c: Config, bloom: Bloom, x: IngestReq, y: IngestReq, now: Int64)
    requires bloom.Valid() && c.cacheCapacity > 0 && BatchFits([x]) && BatchFits([y])
    requires x.key == y.key && x.val != y.val && !x.deleted && x.ttl <= 0
    ensures var w := SplitReads.Moves(c, SplitReads.World(Start(c, [], bloom), map[]), WriteInRead(x, y, now));
      && Lookup(w.store.mem, x.key) == Some(CreateEntry(y, now, true))
      && Lookup(View(w.store), x.key) == Some(CreateEntry(y, now, true))
      && Lru.Cached(w.store.cache, x.key) == Some(Lru.Item(x.key, x.val))
  {
    hide ToMap, LiveEntries, Start, Bloom.Valid, View, Lru.Cached, SplitReads.Moves, SplitReads.Next, SplitReads.Able, Do,
         Enabled;
    var k := x.key;
    var w0 := SplitReads.World(Start(c, [], bloom), map[]);
    StartSettled(c, bloom);
    StartBloom(c, bloom);
    ReadFindsOld(c, w0.store, x, now);
    var three: seq<SplitReads.Move> := [SplitReads.Agent(Apply([x], now, Written)), SplitReads.Ask(0, k), SplitReads.LookAtMemory(0)];
    var w3 := SplitReads.Moves(c, w0, three);
    ApplyOne(c, w3.store, y, now);
    AgentMove(c, w3, Apply([y], now, Written));
    OneMoreMove(c, w0, three, SplitReads.Agent(Apply([y], now, Written)));
    var four := three + [SplitReads.Agent(Apply([y], now, Written))];
    FinishMove(c, SplitReads.Moves(c, w0, four), k, CreateEntry(x, now, true), now);
    OneMoreMove(c, w0, four, SplitReads.Finish(0, now));
    assert WriteInRead(x, y, now) == four + [SplitReads.Finish(0, now)];
    MemoryShows(SplitReads.Moves(c, w0, four + [SplitReads.Finish(0, now)]).store, k);
  }

  lemma NoMoves(c: Config, w: SplitReads.World)
    ensures SplitReads.Moves(c, w, []) == w
  {
  }

  lemma StartBloom(c: Config, bloom: Bloom)
    requires bloom.Valid()
    ensures Start(c, [], bloom).bloom.Valid()
  {
  }

  lemma OneMoreMove(c: Config, w: SplitReads.World, mvs: seq<SplitReads.Move>, mv: SplitReads.Move)
    requires var v := SplitReads.Moves(c, w, mvs); v.store.bloom.Valid() && SplitReads.Able(c, v, mv)
    ensures SplitReads.Moves(c, w, mvs + [mv]) == SplitReads.Next(c, SplitReads.Moves(c, w, mvs), mv)
  {
    hide SplitReads.Next, SplitReads.Able;
    assert (mvs + [mv])[..|mvs|] == mvs;
  }

  lemma ApplyOne(c: Config, s: State, x: IngestReq, now: Int64)
    requires s.bloom.Valid() && s.cache == [] && BatchFits([x])
    ensures Enabled(c, s, Apply([x], now, Written))
    ensures var t := Do(c, s, Apply([x], now, Written));
      && t.bloom.Valid() && t.cache == [] && Lookup(t.mem, x.key) == Some(CreateEntry(x, now, true))
  {
    hide ToMap, Encode, LogEntries, LiveEntries, Bloom.Valid;
    ForgetNothing([x]);
    LookupOfOne(x, now);
  }

  lemma AgentMove(c: Config, w: SplitReads.World, step: Step)
    requires w.store.bloom.Valid() && !step.Fetch? && Enabled(c, w.store, step)
    ensures SplitReads.Able(c, w, SplitReads.Agent(step))
    ensures SplitReads.Next(c, w, SplitReads.Agent(step)) == SplitReads.World(Do(c, w.store, step), w.gets)
  {
    hide Do, Enabled;
  }

  lemma AskMove(c: Config, w: SplitReads.World, k: Key)
    requires w.store.bloom.Valid() && w.gets == map[] && w.store.cache == []
    ensures SplitReads.Able(c, w, SplitReads.Ask(0, k))
    ensures SplitReads.Next(c, w, SplitReads.Ask(0, k)) == SplitReads.World(w.store, map[0 := SplitReads.Asked(k)])
  {
    assert !Lru.Holds(w.store.cache, k);
  }

  lemma LookMove(c: Config, w: SplitReads.World, k: Key)
    requires w.store.bloom.Valid() && w.gets == map[0 := SplitReads.Asked(k)] && k in w.store.mem
    ensures SplitReads.Able(c, w, SplitReads.LookAtMemory(0))
    ensures SplitReads.Next(c, w, SplitReads.LookAtMemory(0)) ==
      SplitReads.World(w.store, map[0 := SplitReads.Ended(k, Some(w.store.mem[k]))])
  {
    hide Bloom.Valid;
    assert ReadMemory(w.store, k) == Some(w.store.mem[k]);
  }

  lemma FinishMove(c: Config, w: SplitReads.World, k: Key, e: Entry, now: Int64)
    requires w.store.bloom.Valid() && w.gets == map[0 := SplitReads.Ended(k, Some(e))] && w.store.cache == []
    requires c.cacheCapacity > 0 && !e.deleted && e.expiry <= 0
    ensures SplitReads.Able(c, w, SplitReads.Finish(0, now))
    ensures var t := SplitReads.Next(c, w, SplitReads.Finish(0, now));
      && t.store.mem == w.store.mem && Lru.Cached(t.store.cache, k) == Some(Lru.Item(k, e.value))
  {
    hide Bloom.Valid;
    assert Lru.Insert([], c.cacheCapacity, k, e.value) == [Lru.Item(k, e.value)];
  }

  lemma MemoryShows(s: State, k: Key)
    requires k in s.mem
    ensures Lookup(View(s), k) == Some(s.mem[k])
  {
    hide Layers.Search, Layers.View, Union;
    Layers.ViewByLayers(LayersOf(s));
  }
}
