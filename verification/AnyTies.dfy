/** Whole runs of the machine under any tie rule of the merge heap, the comparison as it stands included: what
    holds although a merge may keep an older entry, and for which keys the newest entry survives. */
module AnyTies {
  import opened Entries
  import opened SortedTable
  import opened BloomFilter
  import opened MergeHeap
  import opened Compaction
  import opened Ingestion
  import opened Lsm
  import Layers

  // ---------- What every step keeps ----------

  /** A written merge holds exactly the keys of the tables taken, each with an entry of one of them. */
  ghost predicate MergedChosen(s: State) {
    s.compacting.Merged? ==> Chosen(Content(s.compacting.result), Contents(s.compacting.tables))
  }

  ghost predicate LooseInv(s: State) {
    MemoryInv(s) && TablesInv(s) && BloomInv(s) && MergedChosen(s)
  }

  lemma {:induction false} UnionHolder(ms: seq<Table>, k: Key) returns (i: nat)
    requires k in Union(ms)
    ensures i < |ms| && k in ms[i] && ms[i][k] == Union(ms)[k]
  {
    i := |ms| - 1;
    if k !in ms[i] { i := UnionHolder(ms[..i], k); }
  }

  lemma InvIsLoose(s: State)
    requires Inv(s)
    ensures LooseInv(s)
  {
    hide MemoryInv, TablesInv, BloomInv, Union, Content, Contents;
    if s.compacting.Merged? {
      var ms := Contents(s.compacting.tables);
      forall k | k in Union(ms) ensures exists i :: 0 <= i < |ms| && k in ms[i] && ms[i][k] == Union(ms)[k] {
        var i := UnionHolder(ms, k);
      }
    }
  }

  lemma LooseParts(s: State)
    requires LooseInv(s)
    ensures MemoryInv(s) && TablesInv(s) && BloomInv(s) && MergedChosen(s) && s.bloom.Valid()
  {
  }

  lemma StepKeepsChosen(c: Config, s: State, step: Step)
    requires Enabled(c, s, step) && LooseInv(s)
    ensures s.bloom.Valid() && MergedChosen(Do(c, s, step))
  {
    hide MemoryInv, BloomInv, Chosen, Content, Contents, MergedTable, WellFormed, AllWellFormed, ToMap, LiveEntries,
         Forget, Merge, Scans, WriteTable, StrictlySorted, LooseInv;
    LooseParts(s);
    match step
    case WriteMerge(id) => MergedIsChosen(TiesOf(c), s.compacting.tables, id);
    case _ =>
  }

  lemma StepKeepsLoose(c: Config, s: State, step: Step)
    requires Enabled(c, s, step) && LooseInv(s)
    ensures s.bloom.Valid() && LooseInv(Do(c, s, step))
  {
    hide MemoryInv, TablesInv, BloomInv, MergedChosen, Do, Enabled;
    LooseParts(s);
    StepKeepsMemory(c, s, step);
    StepKeepsTables(c, s, step);
    StepKeepsBloom(c, s, step);
    StepKeepsChosen(c, s, step);
  }

  /** What a step does to the layers: its move, except that a commit brings in whatever the merge has chosen. */
  lemma CommitMovesLayers(c: Config, s: State)
    requires Enabled(c, s, CommitMerge) && s.bloom.Valid()
    ensures LayersOf(Do(c, s, CommitMerge)) == Committed(LayersOf(s), Content(s.compacting.result))
  {
    hide Content, Contents;
    NoContents();
    ContentsAppend(s.l1, [s.compacting.result]);
    ContentsOne(s.compacting.result);
  }

  function Committed(l: Layers.Layers, merged: Table): Layers.Layers {
    l.(l1 := l.l1 + [merged], taken := [])
  }

  /** A layer above the taken tables holds the key. */
  ghost predicate Hidden(l: Layers.Layers, k: Key) {
    k in Union(l.l0) || k in Union(l.imm) || k in l.mem
  }

  /** A commit that brings in the keys of the taken tables keeps the keys of the store; and it keeps the newest entry
      of a key exactly when a newer layer hides the key or the merged table has the newest of the taken entries. */
  lemma CommittedView(l: Layers.Layers, merged: Table, k: Key)
    requires k in merged <==> k in Union(l.taken)
    ensures k in Layers.View(Committed(l, merged)) <==> k in Layers.View(l)
    ensures Lookup(Layers.View(Committed(l, merged)), k) == Lookup(Layers.View(l), k) <==>
      Hidden(l, k) || Lookup(merged, k) == Lookup(Union(l.taken), k)
  {
    hide Layers.View, Union;
    Layers.ViewByLayers(l);
    Layers.ViewByLayers(Committed(l, merged));
    UnionAppend(l.l1, [merged]);
    UnionOne(merged);
    Layers.UnionNone();
  }

  /** The entries a step puts into the memtable. */
  function PutsOf(c: Config, step: Step): seq<Entry> {
    if Accepted(c, step) then LiveEntries(step.batch, step.now) else []
  }

  lemma AppliedBySnoc(c: Config, steps: seq<Step>, step: Step)
    ensures AppliedBy(c, steps + [step]) == AppliedBy(c, steps) + PutsOf(c, step)
  {
    hide LiveEntries;
    assert (steps + [step])[..|steps|] == steps;
  }

  lemma {:induction false} AppliedAppend(c: Config, a: seq<Step>, b: seq<Step>)
    ensures AppliedBy(c, a + b) == AppliedBy(c, a) + AppliedBy(c, b)
    decreases |b|
  {
    hide LiveEntries;
    if b == [] {
      assert a + b == a;
      assert AppliedBy(c, a) + [] == AppliedBy(c, a);
    } else {
      assert (a + b)[..|a + b| - 1] == a + b[..|b| - 1];
      AppliedAppend(c, a, b[..|b| - 1]);
    }
  }

  // ---------- No key is lost, none is invented ----------

  lemma StepKeys(c: Config, s: State, step: Step, k: Key)
    requires Enabled(c, s, step) && LooseInv(s)
    ensures s.bloom.Valid() && (k in View(Do(c, s, step)) <==> k in View(s) || k in ToMap(PutsOf(c, step)))
  {
    hide Do, Enabled, LayersOf, Layers.View, Layers.Do, Layers.Allowed, Union, ToMap, LiveEntries, Content, Contents;
    LooseParts(s);
    if step.CommitMerge? {
      MergedOnce(c, s);
      CommitMovesLayers(c, s);
      CommittedView(LayersOf(s), Content(s.compacting.result), k);
      MapOfNothing();
    } else {
      StepMovesLayers(c, s, step);
      Layers.DoView(LayersOf(s), MoveOf(c, step));
      MapOfNothing();
    }
  }

  lemma MergedOnce(c: Config, s: State)
    requires Enabled(c, s, CommitMerge) && MergedChosen(s)
    ensures s.compacting.Merged? && LayersOf(s).taken == Contents(s.compacting.tables)
    ensures forall k :: k in Content(s.compacting.result) <==> k in Union(LayersOf(s).taken)
  {
    hide Content, Contents, Union;
  }

  // ---------- No entry is invented ----------

  predicate Holds(ms: seq<Table>, k: Key, e: Entry) {
    exists i :: 0 <= i < |ms| && k in ms[i] && ms[i][k] == e
  }

  /** The entry was put for the key, or a table of the origin holds it. */
  predicate Known(origin: seq<Table>, applied: seq<Entry>, k: Key, e: Entry) {
    (e in applied && e.key == k) || Holds(origin, k, e)
  }

  predicate TableKnown(m: Table, origin: seq<Table>, applied: seq<Entry>) {
    forall k :: k in m ==> Known(origin, applied, k, m[k])
  }

  predicate AllKnown(ms: seq<Table>, origin: seq<Table>, applied: seq<Entry>) {
    forall i :: 0 <= i < |ms| ==> TableKnown(ms[i], origin, applied)
  }

  ghost predicate LayersKnown(l: Layers.Layers, origin: seq<Table>, applied: seq<Entry>) {
    && AllKnown(l.l1, origin, applied) && AllKnown(l.taken, origin, applied) && AllKnown(l.l0, origin, applied)
    && AllKnown(l.imm, origin, applied) && TableKnown(l.mem, origin, applied)
  }

  lemma MoreKnown(ms: seq<Table>, origin: seq<Table>, applied: seq<Entry>, puts: seq<Entry>)
    requires AllKnown(ms, origin, applied)
    ensures AllKnown(ms, origin, applied + puts)
  {
    hide Holds;
    forall i | 0 <= i < |ms| ensures TableKnown(ms[i], origin, applied + puts) {
      assert TableKnown(ms[i], origin, applied);
    }
  }

  lemma PutsKnown(m: Table, origin: seq<Table>, applied: seq<Entry>, puts: seq<Entry>)
    requires TableKnown(m, origin, applied)
    ensures TableKnown(m + ToMap(puts), origin, applied + puts)
  {
    hide Holds, ToMap;
  }

  lemma ChosenKnown(m: Table, ms: seq<Table>, origin: seq<Table>, applied: seq<Entry>)
    requires Chosen(m, ms) && AllKnown(ms, origin, applied)
    ensures TableKnown(m, origin, applied)
  {
    hide Holds, Union, Known;
    forall k | k in m ensures Known(origin, applied, k, m[k]) {
      var i :| 0 <= i < |ms| && k in ms[i] && ms[i][k] == m[k];
      assert TableKnown(ms[i], origin, applied);
    }
  }

  lemma MoveKeepsKnown(l: Layers.Layers, mv: Layers.Move, origin: seq<Table>, applied: seq<Entry>)
    requires LayersKnown(l, origin, applied) && !mv.Put? && !mv.Commit?
    ensures LayersKnown(Layers.Do(l, mv), origin, applied)
  {
    hide TableKnown;
    assert TableKnown(map[], origin, applied) by { NothingKnown(origin, applied); }
  }

  lemma NothingKnown(origin: seq<Table>, applied: seq<Entry>)
    ensures TableKnown(map[], origin, applied)
  {
  }

  lemma StepKeepsKnown(c: Config, s: State, step: Step, origin: seq<Table>, applied: seq<Entry>)
    requires Enabled(c, s, step) && LooseInv(s) && LayersKnown(LayersOf(s), origin, applied)
    ensures s.bloom.Valid() && LayersKnown(LayersOf(Do(c, s, step)), origin, applied + PutsOf(c, step))
  {
    hide Do, Enabled, LayersOf, ToMap, LiveEntries, Content, Contents, TableKnown, AllKnown, Chosen;
    LooseParts(s);
    var l := LayersOf(s);
    assert !Accepted(c, step) ==> applied + PutsOf(c, step) == applied;
    if step.CommitMerge? {
      MergedOnce(c, s);
      CommitMovesLayers(c, s);
      var merged := Content(s.compacting.result);
      ChosenKnown(merged, l.taken, origin, applied);
      OneMoreKnown(l.l1, merged, origin, applied);
    } else {
      StepMovesLayers(c, s, step);
      if Accepted(c, step) {
        var puts := PutsOf(c, step);
        PutsKnown(l.mem, origin, applied, puts);
        MoreKnown(l.l1, origin, applied, puts);
        MoreKnown(l.taken, origin, applied, puts);
        MoreKnown(l.l0, origin, applied, puts);
        MoreKnown(l.imm, origin, applied, puts);
      } else {
        MoveKeepsKnown(l, MoveOf(c, step), origin, applied);
      }
    }
  }

  lemma OneMoreKnown(ms: seq<Table>, m: Table, origin: seq<Table>, applied: seq<Entry>)
    requires AllKnown(ms, origin, applied) && TableKnown(m, origin, applied)
    ensures AllKnown(ms + [m], origin, applied) && AllKnown([], origin, applied)
  {
    hide TableKnown;
  }

  lemma PartKnown(ms: seq<Table>, origin: seq<Table>, n: nat)
    requires n + |ms| <= |origin| && ms == origin[n..n + |ms|]
    ensures AllKnown(ms, origin, [])
  {
    forall i, k | 0 <= i < |ms| && k in ms[i] ensures Known(origin, [], k, ms[i][k]) {
      assert ms[i] == origin[n + i];
    }
  }

  lemma OriginKnown(l: Layers.Layers)
    ensures LayersKnown(l, Layers.All(l), [])
  {
    hide TableKnown;
    var origin := Layers.All(l);
    var a := |l.l1|;
    var b := a + |l.taken|;
    var c := b + |l.l0|;
    PartKnown(l.l1, origin, 0);
    PartKnown(l.taken, origin, a);
    PartKnown(l.l0, origin, b);
    PartKnown(l.imm, origin, c);
    PartKnown([l.mem], origin, c + |l.imm|);
    assert [l.mem][0] == l.mem;
  }

  lemma ViewKnown(l: Layers.Layers, origin: seq<Table>, applied: seq<Entry>)
    requires LayersKnown(l, origin, applied)
    ensures TableKnown(Layers.View(l), origin, applied)
  {
    hide Holds, Union, Known;
    var ms := Layers.All(l);
    assert AllKnown(ms, origin, applied) by { hide TableKnown; }
    forall k | k in Union(ms) ensures Known(origin, applied, k, Union(ms)[k]) {
      var i := UnionHolder(ms, k);
      assert TableKnown(ms[i], origin, applied);
    }
  }

  // ---------- Runs ----------

  /** Every step is enabled when it is taken. Nothing is asked of the merges. */
  ghost predicate Possible(c: Config, s: State, steps: seq<Step>) {
    steps == [] ||
    (Possible(c, s, steps[..|steps| - 1]) && Enabled(c, Lsm.Run(c, s, steps[..|steps| - 1]), steps[|steps| - 1]))
  }

  lemma {:induction false} PossibleAppend(c: Config, s: State, a: seq<Step>, b: seq<Step>)
    requires Possible(c, s, a) && Possible(c, Lsm.Run(c, s, a), b)
    ensures Possible(c, s, a + b)
    decreases |b|
  {
    hide Enabled, Lsm.Run;
    if b == [] {
      assert a + b == a;
    } else {
      var n := |b| - 1;
      assert (a + b)[..|a + b| - 1] == a + b[..n];
      PossibleAppend(c, s, a, b[..n]);
      RunAppend(c, s, a, b[..n]);
    }
  }

  lemma PossibleUnfolds(c: Config, s: State, steps: seq<Step>)
    requires steps != [] && Possible(c, s, steps) && LooseInv(Lsm.Run(c, s, steps[..|steps| - 1]))
    ensures var t, step := Lsm.Run(c, s, steps[..|steps| - 1]), steps[|steps| - 1];
      && Possible(c, s, steps[..|steps| - 1]) && t.bloom.Valid() && Enabled(c, t, step)
      && Lsm.Run(c, s, steps) == Do(c, t, step)
      && AppliedBy(c, steps) == AppliedBy(c, steps[..|steps| - 1]) + PutsOf(c, step)
  {
    hide Do, Enabled;
    LooseParts(Lsm.Run(c, s, steps[..|steps| - 1]));
  }

  lemma {:induction false} RunKeepsLoose(c: Config, s: State, steps: seq<Step>)
    requires Inv(s) && Possible(c, s, steps)
    ensures LooseInv(Lsm.Run(c, s, steps))
    decreases |steps|
  {
    hide Do, Enabled, Inv, LooseInv;
    InvIsLoose(s);
    if steps != [] {
      var before := steps[..|steps| - 1];
      RunKeepsLoose(c, s, before);
      PossibleUnfolds(c, s, steps);
      StepKeepsLoose(c, Lsm.Run(c, s, before), steps[|steps| - 1]);
    }
  }

  /** Whatever the tie rule, in every run the filter hides nothing: searching either level with it finds what searching
      without it does. */
  lemma RunFilterIsTransparent(c: Config, s: State, steps: seq<Step>, k: Key)
    requires Inv(s) && Possible(c, s, steps)
    ensures var t := Lsm.Run(c, s, steps);
      && t.bloom.Valid()
      && SearchLevel(t.l0, t.bloom, k) == SearchTables(t.l0, k)
      && SearchLevel(t.l1, t.bloom, k) == SearchTables(t.l1, k)
  {
    hide Inv, Possible, Lsm.Run, LooseInv, Covers, SearchLevel, SearchTables, Bloom.Valid;
    RunKeepsLoose(c, s, steps);
    var t := Lsm.Run(c, s, steps);
    LooseParts(t);
    forall x | x in t.l0 || x in t.l1 ensures Covers(t.bloom, x) { assert x in AllTables(t); }
    FilterIsTransparent(t.l0, t.bloom, k);
    FilterIsTransparent(t.l1, t.bloom, k);
  }

  /** Whatever the tie rule, in every run the store has an entry for exactly the keys it had one for at the
      start and the keys of accepted batches: compaction loses no key and brings back none. */
  lemma {:induction false} RunKeepsKeys(c: Config, s: State, steps: seq<Step>, k: Key)
    requires Inv(s) && Possible(c, s, steps)
    ensures k in View(Lsm.Run(c, s, steps)) <==> k in View(s) || k in ToMap(AppliedBy(c, steps))
    decreases |steps|
  {
    hide Do, Enabled, Inv, LooseInv, View, ToMap;
    if steps == [] {
      MapOfNothing();
    } else {
      var before, step := steps[..|steps| - 1], steps[|steps| - 1];
      RunKeepsKeys(c, s, before, k);
      RunKeepsLoose(c, s, before);
      PossibleUnfolds(c, s, steps);
      StepKeys(c, Lsm.Run(c, s, before), step, k);
      ToMapAppend(AppliedBy(c, before), PutsOf(c, step));
    }
  }

  lemma {:induction false} RunKeepsKnown(c: Config, s: State, steps: seq<Step>)
    requires Inv(s) && Possible(c, s, steps)
    ensures LayersKnown(LayersOf(Lsm.Run(c, s, steps)), Layers.All(LayersOf(s)), AppliedBy(c, steps))
    decreases |steps|
  {
    hide Do, Enabled, Inv, LooseInv, LayersOf, LayersKnown;
    if steps == [] {
      OriginKnown(LayersOf(s));
    } else {
      var before, step := steps[..|steps| - 1], steps[|steps| - 1];
      RunKeepsKnown(c, s, before);
      RunKeepsLoose(c, s, before);
      PossibleUnfolds(c, s, steps);
      StepKeepsKnown(c, Lsm.Run(c, s, before), step, Layers.All(LayersOf(s)), AppliedBy(c, before));
    }
  }

  /** Whatever the tie rule, in every run the entry a key shows was put for that very key by an accepted batch,
      or some table held it for the key at the start. */
  lemma RunInventsNothing(c: Config, s: State, steps: seq<Step>, k: Key)
    requires Inv(s) && Possible(c, s, steps) && k in View(Lsm.Run(c, s, steps))
    ensures var e := View(Lsm.Run(c, s, steps))[k];
      (e in AppliedBy(c, steps) && e.key == k) || Holds(Layers.All(LayersOf(s)), k, e)
  {
    hide Lsm.Run, LayersKnown, Layers.View, Layers.All, LayersOf, AppliedBy, Holds;
    RunKeepsKnown(c, s, steps);
    ViewKnown(LayersOf(Lsm.Run(c, s, steps)), Layers.All(LayersOf(s)), AppliedBy(c, steps));
  }

  // ---------- Keys that keep their newest entry ----------

  /** The tables that hold the key hold the same entry for it. */
  ghost predicate AgreeOn(ms: seq<Table>, k: Key) {
    forall i, j :: 0 <= i < |ms| && 0 <= j < |ms| && k in ms[i] && k in ms[j] ==> ms[i][k] == ms[j][k]
  }

  ghost predicate MergeRightFor(s: State, k: Key) {
    s.compacting.Merged? ==>
      Lookup(Content(s.compacting.result), k) == Lookup(Union(Contents(s.compacting.tables)), k)
  }

  /** Every step is enabled when it is taken, and every merge breaks ties by run or takes tables that agree on
      this one key. */
  ghost predicate LegalFor(c: Config, s: State, steps: seq<Step>, k: Key) {
    steps == [] ||
    (var t, step := Lsm.Run(c, s, steps[..|steps| - 1]), steps[|steps| - 1];
     && LegalFor(c, s, steps[..|steps| - 1], k) && Enabled(c, t, step)
     && (step.WriteMerge? ==> c.tieBySource || AgreeOn(Contents(Taken(t)), k)))
  }

  lemma {:induction false} LegalForIsPossible(c: Config, s: State, steps: seq<Step>, k: Key)
    requires LegalFor(c, s, steps, k)
    ensures Possible(c, s, steps)
  {
    hide Enabled, Lsm.Run, AgreeOn;
    if steps != [] { LegalForIsPossible(c, s, steps[..|steps| - 1], k); }
  }

  lemma ChosenAgrees(m: Table, ms: seq<Table>, k: Key)
    requires Chosen(m, ms) && AgreeOn(ms, k)
    ensures Lookup(m, k) == Lookup(Union(ms), k)
  {
    hide Union;
    if k in m {
      var i :| 0 <= i < |ms| && k in ms[i] && ms[i][k] == m[k];
      var j := UnionHolder(ms, k);
    }
  }

  lemma StepMergesRight(c: Config, s: State, step: Step, k: Key)
    requires Enabled(c, s, step) && LooseInv(s) && MergeRightFor(s, k)
    requires step.WriteMerge? ==> c.tieBySource || AgreeOn(Contents(Taken(s)), k)
    ensures s.bloom.Valid() && MergeRightFor(Do(c, s, step), k)
  {
    hide MemoryInv, BloomInv, Chosen, Content, Contents, Union, Lookup, AgreeOn, MergedTable, WellFormed, AllWellFormed,
         ToMap, LiveEntries, Forget, Merge, Scans, WriteTable, StrictlySorted, LooseInv;
    LooseParts(s);
    match step
    case WriteMerge(id) =>
      MergedIsChosen(TiesOf(c), s.compacting.tables, id);
      if c.tieBySource {
        MergedIsUnion(s.compacting.tables, id);
      } else {
        ChosenAgrees(Content(MergedTable(TiesOf(c), s.compacting.tables, id)), Contents(s.compacting.tables), k);
      }
    case _ =>
  }

  /** A commit that is harmless for the key: its merge is right for it, or level 0 or memory holds the key. */
  ghost predicate CommitHarmless(s: State, step: Step, k: Key) {
    step.CommitMerge? ==> MergeRightFor(s, k) || SearchTables(s.l0, k).Some? || ReadMemory(s, k).Some?
  }

  lemma HiddenIsHeld(s: State, k: Key)
    ensures Hidden(LayersOf(s), k) <==> SearchTables(s.l0, k).Some? || ReadMemory(s, k).Some?
  {
    hide SearchTables, Contents, Union, Layers.Search;
    SearchIsUnion(s.l0, k);
    Layers.SearchAppend(s.imm, [s.mem], k);
    Layers.SearchOne(s.mem, k);
    Layers.SearchIsLookup(s.imm, k);
  }

  /** Any step leaves for a key just what it puts, or else the newest entry as it was, exactly when it is no harmful
      commit. */
  lemma StepLookupIff(c: Config, s: State, step: Step, k: Key)
    requires Enabled(c, s, step) && LooseInv(s)
    ensures s.bloom.Valid()
    ensures Lookup(View(Do(c, s, step)), k) == Lookup(View(s) + ToMap(PutsOf(c, step)), k) <==> CommitHarmless(s, step, k)
  {
    hide Do, Enabled, LayersOf, Layers.View, Layers.Do, Layers.Allowed, Union, ToMap, LiveEntries, Content, Contents, Hidden,
         SearchTables, ReadMemory;
    LooseParts(s);
    MapOfNothing();
    assert View(s) + map[] == View(s);
    if step.CommitMerge? {
      MergedOnce(c, s);
      CommitMovesLayers(c, s);
      HiddenIsHeld(s, k);
      CommittedView(LayersOf(s), Content(s.compacting.result), k);
    } else {
      StepMovesLayers(c, s, step);
      Layers.DoView(LayersOf(s), MoveOf(c, step));
    }
  }

  lemma StepLookup(c: Config, s: State, step: Step, k: Key)
    requires Enabled(c, s, step) && LooseInv(s) && MergeRightFor(s, k)
    ensures s.bloom.Valid()
    ensures Lookup(View(Do(c, s, step)), k) == Lookup(View(s) + ToMap(PutsOf(c, step)), k)
  {
    hide Do, Enabled, LooseInv, MergeRightFor, View, ToMap, PutsOf, SearchTables, ReadMemory;
    StepLookupIff(c, s, step, k);
  }

  lemma {:induction false} RunMergesRight(c: Config, s: State, steps: seq<Step>, k: Key)
    requires Inv(s) && LegalFor(c, s, steps, k)
    ensures MergeRightFor(Lsm.Run(c, s, steps), k)
    decreases |steps|
  {
    hide Do, Enabled, LooseInv, AgreeOn;
    if steps == [] {
      InvParts(s);
    } else {
      hide Inv, MergeRightFor;
      var before := steps[..|steps| - 1];
      RunMergesRight(c, s, before, k);
      LegalForIsPossible(c, s, before, k);
      LegalForIsPossible(c, s, steps, k);
      RunKeepsLoose(c, s, before);
      PossibleUnfolds(c, s, steps);
      StepMergesRight(c, Lsm.Run(c, s, before), steps[|steps| - 1], k);
    }
  }

  ghost predicate CommitsHarmless(c: Config, s: State, steps: seq<Step>, k: Key) {
    steps == [] ||
    (CommitsHarmless(c, s, steps[..|steps| - 1], k) &&
     CommitHarmless(Lsm.Run(c, s, steps[..|steps| - 1]), steps[|steps| - 1], k))
  }

  /** The store shows for the key the last entry applied for it, or what the run started with. */
  ghost predicate ShowsNewest(c: Config, s: State, steps: seq<Step>, k: Key) {
    Lookup(View(Lsm.Run(c, s, steps)), k) == Lookup(View(s) + ToMap(AppliedBy(c, steps)), k)
  }

  lemma NewestOneMore(c: Config, s: State, steps: seq<Step>, k: Key)
    requires Inv(s) && Possible(c, s, steps) && steps != [] && ShowsNewest(c, s, steps[..|steps| - 1], k)
    ensures ShowsNewest(c, s, steps, k) <==> CommitHarmless(Lsm.Run(c, s, steps[..|steps| - 1]), steps[|steps| - 1], k)
  {
    hide Do, Enabled, Inv, LooseInv, View, ToMap, CommitHarmless;
    var before, step := steps[..|steps| - 1], steps[|steps| - 1];
    RunKeepsLoose(c, s, before);
    PossibleUnfolds(c, s, steps);
    StepLookupIff(c, Lsm.Run(c, s, before), step, k);
    ToMapAppend(AppliedBy(c, before), PutsOf(c, step));
  }

  lemma ShowsNewestAtStart(c: Config, s: State, k: Key)
    ensures ShowsNewest(c, s, [], k)
  {
    hide View;
    MapOfNothing();
  }

  /** Under any tie rule, all along a run the store shows for a key the last entry applied for it, exactly when every
      commit of the run is harmless for the key. */
  lemma {:induction false} KeyStaysNewestIff(c: Config, s: State, steps: seq<Step>, k: Key)
    requires Inv(s) && Possible(c, s, steps)
    ensures CommitsHarmless(c, s, steps, k) <==> forall n :: 0 <= n <= |steps| ==> ShowsNewest(c, s, steps[..n], k)
    decreases |steps|
  {
    hide Enabled, Inv, CommitHarmless, ShowsNewest, Lsm.Run;
    if steps == [] {
      ShowsNewestAtStart(c, s, k);
      assert steps[..0] == [];
    } else {
      var before := steps[..|steps| - 1];
      KeyStaysNewestIff(c, s, before, k);
      assert forall n :: 0 <= n <= |before| ==> steps[..n] == before[..n];
      assert steps[..|steps|] == steps && before[..|before|] == before;
      if ShowsNewest(c, s, before, k) { NewestOneMore(c, s, steps, k); }
    }
  }

  lemma HarmlessShowsNewest(c: Config, s: State, steps: seq<Step>, k: Key)
    requires Inv(s) && Possible(c, s, steps) && CommitsHarmless(c, s, steps, k)
    ensures Lookup(View(Lsm.Run(c, s, steps)), k) == Lookup(View(s) + ToMap(AppliedBy(c, steps)), k)
  {
    hide Inv, Lsm.Run, View, ToMap, CommitsHarmless, Possible;
    KeyStaysNewestIff(c, s, steps, k);
    assert steps[..|steps|] == steps;
    assert ShowsNewest(c, s, steps[..|steps|], k);
  }

  lemma {:induction false} UndisputedIsHarmless(c: Config, s: State, steps: seq<Step>, k: Key)
    requires Inv(s) && LegalFor(c, s, steps, k)
    ensures CommitsHarmless(c, s, steps, k)
    decreases |steps|
  {
    hide Enabled, Inv, AgreeOn, Lsm.Run, MergeRightFor, SearchTables, ReadMemory;
    if steps != [] {
      UndisputedIsHarmless(c, s, steps[..|steps| - 1], k);
      RunMergesRight(c, s, steps[..|steps| - 1], k);
    }
  }

  /** In particular a key keeps its newest entry through any run in which the tables merged together never disagree on
      that key, whatever happens to other keys. */
  lemma UndisputedKeyStaysNewest(c: Config, s: State, steps: seq<Step>, k: Key)
    requires Inv(s) && LegalFor(c, s, steps, k)
    ensures Lookup(View(Lsm.Run(c, s, steps)), k) == Lookup(View(s) + ToMap(AppliedBy(c, steps)), k)
  {
    hide Inv, LegalFor, Lsm.Run, View, ToMap, CommitsHarmless, Possible;
    LegalForIsPossible(c, s, steps, k);
    UndisputedIsHarmless(c, s, steps, k);
    HarmlessShowsNewest(c, s, steps, k);
  }

  // ---------- One key of the machine is one key of the layers ----------

  function CutMoves(c: Config, steps: seq<Step>, k: Key): (mvs: seq<Layers.Move>)
    ensures |mvs| == |steps|
    ensures forall i :: 0 <= i < |mvs| ==> mvs[i] == Layers.CutMove(MoveOf(c, steps[i]), k)
  {
    seq(|steps|, i requires 0 <= i < |steps| => Layers.CutMove(MoveOf(c, steps[i]), k))
  }

  /** As far as a key is concerned on which no merge errs, each step is its move on the layers. */
  lemma StepMovesCut(c: Config, s: State, step: Step, k: Key)
    requires Enabled(c, s, step) && LooseInv(s) && MergeRightFor(s, k)
    ensures s.bloom.Valid()
    ensures var l, mv := Layers.Cut(LayersOf(s), k), Layers.CutMove(MoveOf(c, step), k);
      Layers.Allowed(l, mv) && Layers.Cut(LayersOf(Do(c, s, step)), k) == Layers.Do(l, mv)
  {
    hide Do, Enabled, LayersOf, Layers.Do, Layers.Allowed, Layers.Cut, Layers.CutMove, Union, Content, Contents, ToMap,
         LiveEntries;
    LooseParts(s);
    Layers.CutDo(LayersOf(s), MoveOf(c, step), k);
    if step.CommitMerge? {
      MergedOnce(c, s);
      CommitMovesLayers(c, s);
      CutCommitted(LayersOf(s), Content(s.compacting.result), k);
    } else {
      StepMovesLayers(c, s, step);
    }
  }

  lemma CutCommitted(l: Layers.Layers, merged: Table, k: Key)
    requires Lookup(merged, k) == Lookup(Union(l.taken), k)
    ensures Layers.Cut(Committed(l, merged), k) == Layers.Cut(Layers.Do(l, Layers.Commit), k)
    ensures Layers.Allowed(l, Layers.Commit) && Layers.Allowed(Layers.Cut(l, k), Layers.CutMove(Layers.Commit, k))
  {
    hide Union;
    Layers.CutAppend(l.l1, [merged], k);
    Layers.CutAppend(l.l1, [Union(l.taken)], k);
    assert Layers.CutTable(merged, k) == Layers.CutTable(Union(l.taken), k);
    Layers.CutOne(merged, k);
    Layers.CutOne(Union(l.taken), k);
  }

  lemma {:induction false} RunMovesCut(c: Config, s: State, steps: seq<Step>, k: Key)
    requires Inv(s) && LegalFor(c, s, steps, k)
    ensures var l, mvs := Layers.Cut(LayersOf(s), k), CutMoves(c, steps, k);
      Layers.Legal(l, mvs) && Layers.Cut(LayersOf(Lsm.Run(c, s, steps)), k) == Layers.Run(l, mvs)
    decreases |steps|
  {
    hide Do, Enabled, LooseInv, AgreeOn, Inv, LayersOf, Layers.Cut, Layers.CutMove, Layers.Do, Layers.Allowed, MoveOf,
         MergeRightFor;
    if steps != [] {
      var before := steps[..|steps| - 1];
      RunMovesCut(c, s, before, k);
      LegalForIsPossible(c, s, before, k);
      LegalForIsPossible(c, s, steps, k);
      RunKeepsLoose(c, s, before);
      RunMergesRight(c, s, before, k);
      PossibleUnfolds(c, s, steps);
      StepMovesCut(c, Lsm.Run(c, s, before), steps[|steps| - 1], k);
      assert CutMoves(c, steps, k)[..|before|] == CutMoves(c, before, k);
    }
  }

  /** A run whose merges are sound altogether is legal for every key. */
  lemma {:induction false} LegalIsLegalFor(c: Config, s: State, steps: seq<Step>, k: Key)
    requires Inv(s) && Legal(c, s, steps)
    ensures LegalFor(c, s, steps, k)
    decreases |steps|
  {
    hide Do, Enabled, Inv, AgreeOn, MergeSound;
    if steps != [] {
      var before := steps[..|steps| - 1];
      LegalIsLegalFor(c, s, before, k);
      RunKeepsInv(c, s, before);
      RunUnfolds(c, s, steps);
      InvParts(Lsm.Run(c, s, before));
      if steps[|steps| - 1].WriteMerge? { SoundAgrees(c, Lsm.Run(c, s, before), steps[|steps| - 1], k); }
    }
  }

  lemma SoundAgrees(c: Config, s: State, step: Step, k: Key)
    requires TablesInv(s) && s.bloom.Valid() && Enabled(c, s, step) && MergeSound(c, s, step) && step.WriteMerge?
    ensures c.tieBySource || AgreeOn(Contents(Taken(s)), k)
  {
    hide ToMap, Contents, Scans, WellFormed, StrictlySorted, Content, Scan;
    WellFormedRuns(Taken(s));
    if !c.tieBySource {
      forall i, j | 0 <= i < |Taken(s)| && 0 <= j < |Taken(s)| && k in Contents(Taken(s))[i] && k in Contents(Taken(s))[j]
        ensures Contents(Taken(s))[i][k] == Contents(Taken(s))[j][k]
      {
        assert Maps(Scans(Taken(s)))[i] == ToMap(Scans(Taken(s))[i]) && Maps(Scans(Taken(s)))[j] == ToMap(Scans(Taken(s))[j]);
      }
    }
  }

  /** A store with nothing outside the taken tables, before and after their merge is committed. */
  lemma OnlyTaken(l: Layers.Layers, merged: Table)
    requires l.l1 == [] && l.l0 == [] && l.imm == [] && l.mem == map[]
    ensures Layers.View(l) == Union(l.taken) && Layers.View(Committed(l, merged)) == merged
  {
    hide Layers.View, Union;
    Layers.ViewByLayers(l);
    Layers.ViewByLayers(Committed(l, merged));
    UnionAppend([], [merged]);
    UnionOne(merged);
    Layers.UnionNone();
    assert [] + [merged] == [merged];
    assert Union(l.taken) + map[] + map[] + map[] == Union(l.taken);
  }

  lemma LastOfKey(es: seq<Entry>, e: Entry)
    ensures e.key in ToMap(es + [e]) && ToMap(es + [e])[e.key] == e
  {
    ToMapSnoc(es, e);
  }

  lemma RunOfTwo(c: Config, s: State, x: Step, y: Step)
    requires s.bloom.Valid() && Enabled(c, s, x)
    requires var t := Do(c, s, x); t.bloom.Valid() && Enabled(c, t, y)
    ensures Lsm.Run(c, s, [x, y]) == Do(c, Do(c, s, x), y) && Possible(c, s, [x, y])
  {
    hide Do, Enabled;
    assert [x, y][..1] == [x] && [x][..0] == [];
    assert Lsm.Run(c, s, []) == s && Possible(c, s, []);
    assert Lsm.Run(c, s, [x]) == Do(c, s, x) && Possible(c, s, [x]);
  }

  lemma MergeThenCommit(c: Config, s: State, id: nat)
    requires s.compacting.Merging? && LooseInv(s)
    ensures Enabled(c, s, WriteMerge(id)) && s.bloom.Valid()
    ensures var t := Do(c, s, WriteMerge(id));
      && LooseInv(t) && t.bloom.Valid() && LayersOf(t) == LayersOf(s) && Enabled(c, t, CommitMerge)
      && t.compacting == Merged(s.compacting.tables, MergedTable(TiesOf(c), s.compacting.tables, id))
      && Lsm.Run(c, s, [WriteMerge(id), CommitMerge]) == Do(c, t, CommitMerge)
      && Possible(c, s, [WriteMerge(id), CommitMerge])
  {
    hide MergedTable, Contents, Merge, Scans, Bloom.AddAll, Bloom.Valid, LooseInv, Lsm.Run, Possible;
    LooseParts(s);
    StepKeepsLoose(c, s, WriteMerge(id));
    LooseParts(Do(c, s, WriteMerge(id)));
    RunOfTwo(c, s, WriteMerge(id), CommitMerge);
  }

  /** A compaction over tables that are all there is in the store, and what committing it leaves. */
  lemma OnlyTakenCommits(c: Config, s: State, id: nat)
    requires Inv(s) && s.compacting.Merging? && s.mem == map[] && s.imm == [] && s.l0 == [] && s.l1 == []
    ensures View(s) == Union(Contents(s.compacting.tables))
    ensures var steps := [WriteMerge(id), CommitMerge];
      Possible(c, s, steps) && View(Lsm.Run(c, s, steps)) == Content(MergedTable(TiesOf(c), s.compacting.tables, id))
  {
    hide Enabled, Do, Inv, LooseInv, Layers.View, Lsm.Run, Possible, Content, Contents, MergedTable, Scans, Union;
    InvIsLoose(s);
    LooseParts(s);
    MergeThenCommit(c, s, id);
    CommitMovesLayers(c, Do(c, s, WriteMerge(id)));
    NoContents();
    OnlyTaken(LayersOf(s), Content(MergedTable(TiesOf(c), s.compacting.tables, id)));
  }
}
