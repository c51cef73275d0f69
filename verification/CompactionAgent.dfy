/** The compaction agent: take level 0, merge it into one table, commit that to level 1 or put the tables back. */
module CompactionAgent {
  import opened Entries
  import opened SortedTable
  import opened BloomFilter
  import opened MergeHeap
  import opened Compaction
  import opened Ingestion
  import opened Lsm
  import opened AnyTies
  import opened Core
  import Layers

  /** Under the lock: nothing below the trigger, otherwise all of level 0 is taken. */
  method TakeLevelZero(bb: SystemState) returns (tables: Option<seq<SSTable>>)
    requires bb.Valid() && bb.compacting == Resting
    modifies bb`ssTables, bb`compacting
    ensures bb.Valid()
    ensures tables == None <==> |old(bb.Abs()).l0| < bb.config.trigger
    ensures tables == None ==> bb.Abs() == old(bb.Abs()) && bb.compacting == Resting
    ensures tables.Some? ==>
      && bb.compacting == Merging(tables.value)
      && Enabled(bb.config, old(bb.Abs()), TakeTables)
      && bb.Abs() == Do(bb.config, old(bb.Abs()), TakeTables)
  {
    hide *;
    bb.Parts();
    if |bb.ssTables[0]| < bb.config.trigger { return None; }
    TakeStep(bb.config, bb.Abs());
    tables := Some(bb.ssTables[0]);
    bb.ssTables := bb.ssTables[0 := []];
    bb.compacting := Merging(tables.value);
    bb.Recompose();
  }

  lemma TakeStep(c: Config, s: State)
    requires s.bloom.Valid() && s.compacting == Resting && |s.l0| >= c.trigger
    ensures Enabled(c, s, TakeTables) && Do(c, s, TakeTables) == s.(compacting := Merging(s.l0), l0 := [])
  {
  }

  /** Without the lock: the taken tables are merged into a new file, or the merge fails without a trace. */
  method MergeTaken(bb: SystemState, tables: seq<SSTable>, fileID: nat, filesUsable: bool) returns (merged: Option<SSTable>)
    requires bb.Valid() && bb.compacting == Merging(tables)
    modifies bb`compacting, bb.bloomFilter.shards
    ensures bb.Valid() && merged.Some? == filesUsable
    ensures merged == None ==> bb.compacting == Merging(tables) && bb.Abs() == old(bb.Abs())
    ensures merged.Some? ==>
      && bb.compacting == Merged(tables, merged.value)
      && Enabled(bb.config, old(bb.Abs()), WriteMerge(fileID))
      && bb.Abs() == Do(bb.config, old(bb.Abs()), WriteMerge(fileID))
  {
    hide *;
    bb.Parts();
    MergeStep(bb.config, bb.Abs(), fileID);
    merged := PerformMerge(TiesOf(bb.config), tables, fileID, filesUsable, bb.bloomFilter);
    if merged.Some? { bb.compacting := Merged(tables, merged.value); }
    bb.Recompose();
  }

  lemma MergeStep(c: Config, s: State, id: nat)
    requires s.bloom.Valid() && s.compacting.Merging?
    ensures var ts := s.compacting.tables;
      && Enabled(c, s, WriteMerge(id))
      && Do(c, s, WriteMerge(id)) == s.(compacting := Merged(ts, MergedTable(TiesOf(c), ts, id)),
                                        bloom := s.bloom.AddAll(id, Merge(TiesOf(c), Scans(ts))))
  {
    hide MergedTable, Merge, Scans, Bloom.Valid, Bloom.AddAll;
  }

  /** Under the lock: the merged table joins level 1; after an error the taken tables go back below whatever
      level 0 has received meanwhile. */
  method FinishCompaction(bb: SystemState, tables: seq<SSTable>, merged: Option<SSTable>)
    requires bb.Valid()
    requires bb.compacting == (match merged case None => Merging(tables) case Some(t) => Merged(tables, t))
    modifies bb`ssTables, bb`compacting
    ensures bb.Valid() && bb.compacting == Resting
    ensures var step := if merged == None then FailMerge else CommitMerge;
      Enabled(bb.config, old(bb.Abs()), step) && bb.Abs() == Do(bb.config, old(bb.Abs()), step)
  {
    hide *;
    bb.Parts();
    FinishSteps(bb.config, bb.Abs());
    if merged == None {
      bb.ssTables := bb.ssTables[0 := tables + bb.ssTables[0]];
    } else {
      bb.ssTables := bb.ssTables[1 := bb.ssTables[1] + [merged.value]];
    }
    bb.compacting := Resting;
    bb.Recompose();
  }

  lemma FinishSteps(c: Config, s: State)
    requires s.bloom.Valid()
    ensures s.compacting.Merging? ==>
      Enabled(c, s, FailMerge) && Do(c, s, FailMerge) == s.(l0 := s.compacting.tables + s.l0, compacting := Resting)
    ensures s.compacting.Merged? ==>
      Enabled(c, s, CommitMerge) && Do(c, s, CommitMerge) == s.(l1 := s.l1 + [s.compacting.result], compacting := Resting)
  {
  }

  /** One round of the agent with no other agent in between, whether it completes, fails or has nothing to do:
      the keys that have an entry stay the same, and every entry shown was in the store before. With ties broken
      by run, or level-0 tables that agree on the keys they share, every key's newest entry stays as it was. */
  method CheckAndRunCompaction(bb: SystemState, fileID: nat, filesUsable: bool)
    requires bb.Valid() && bb.compacting == Resting && Inv(bb.Abs())
    modifies bb`ssTables, bb`compacting, bb.bloomFilter.shards
    ensures bb.Valid() && bb.compacting == Resting && LooseInv(bb.Abs())
    ensures View(bb.Abs()).Keys == View(old(bb.Abs())).Keys
    ensures forall k :: k in View(bb.Abs()) ==> Holds(Layers.All(LayersOf(old(bb.Abs()))), k, View(bb.Abs())[k])
    ensures bb.config.tieBySource || SharedKeysAgree(Scans(old(bb.Abs()).l0)) ==>
      Inv(bb.Abs()) && View(bb.Abs()) == View(old(bb.Abs()))
  {
    hide *;
    ghost var origin := Layers.All(LayersOf(bb.Abs()));
    ghost var sound := bb.config.tieBySource || SharedKeysAgree(Scans(bb.Abs().l0));
    StartsLoose(bb.Abs());
    var tables := TakeLevelZero(bb);
    if tables == None {
      SettledView(bb.Abs(), origin);
      return;
    }
    if sound {
      RoundIsSound(bb.config, old(bb.Abs()), fileID);
      QuietStep(bb.config, old(bb.Abs()), TakeTables);
    }
    LooseStep(bb.config, old(bb.Abs()), TakeTables, origin);
    ghost var s1 := bb.Abs();
    var merged := MergeTaken(bb, tables.value, fileID, filesUsable);
    ghost var s2 := bb.Abs();
    if merged.Some? {
      if sound { QuietStep(bb.config, s1, WriteMerge(fileID)); }
      LooseStep(bb.config, s1, WriteMerge(fileID), origin);
    }
    FinishCompaction(bb, tables.value, merged);
    OtherStepsSound(bb.config, s2);
    if sound { QuietStep(bb.config, s2, if merged == None then FailMerge else CommitMerge); }
    LooseStep(bb.config, s2, if merged == None then FailMerge else CommitMerge, origin);
    SettledView(bb.Abs(), origin);
  }

  lemma StartsLoose(s: State)
    requires Inv(s)
    ensures LooseInv(s) && LayersKnown(LayersOf(s), Layers.All(LayersOf(s)), [])
  {
    hide *;
    InvIsLoose(s);
    OriginKnown(LayersOf(s));
  }

  lemma SettledView(s: State, origin: seq<Table>)
    requires LayersKnown(LayersOf(s), origin, [])
    ensures forall k :: k in View(s) ==> Holds(origin, k, View(s)[k])
  {
    hide LayersKnown, LayersOf, Layers.View, Holds;
    ViewKnown(LayersOf(s), origin, []);
  }

  /** A compaction step under any tie rule. */
  lemma LooseStep(c: Config, s: State, step: Step, origin: seq<Table>)
    requires LooseInv(s) && Enabled(c, s, step) && LayersKnown(LayersOf(s), origin, [])
    requires step.TakeTables? || step.WriteMerge? || step.CommitMerge? || step.FailMerge?
    ensures s.bloom.Valid() && LooseInv(Do(c, s, step))
    ensures View(Do(c, s, step)).Keys == View(s).Keys
    ensures LayersKnown(LayersOf(Do(c, s, step)), origin, [])
  {
    hide Do, Enabled, LooseInv, LayersOf, View, LayersKnown, ToMap, LiveEntries;
    StepKeepsLoose(c, s, step);
    StepKeepsKnown(c, s, step, origin, []);
    MapOfNothing();
    assert PutsOf(c, step) == [] && [] + PutsOf(c, step) == [];
    forall k ensures k in View(Do(c, s, step)) <==> k in View(s) { StepKeys(c, s, step, k); }
  }

  lemma RoundIsSound(c: Config, s: State, id: nat)
    requires s.bloom.Valid() && Enabled(c, s, TakeTables) && (c.tieBySource || SharedKeysAgree(Scans(s.l0)))
    ensures MergeSound(c, s, TakeTables) && MergeSound(c, Do(c, s, TakeTables), WriteMerge(id))
  {
    hide SharedKeysAgree, Scans, Bloom.Valid;
  }

  lemma OtherStepsSound(c: Config, s: State)
    ensures MergeSound(c, s, FailMerge) && MergeSound(c, s, CommitMerge)
  {
  }

  /** A compaction step keeps the invariant and the view. */
  lemma QuietStep(c: Config, s: State, step: Step)
    requires Inv(s) && Enabled(c, s, step) && MergeSound(c, s, step)
    requires step.TakeTables? || step.WriteMerge? || step.CommitMerge? || step.FailMerge?
    ensures s.bloom.Valid() && Inv(Do(c, s, step)) && View(Do(c, s, step)) == View(s)
  {
    hide Do, Enabled, Inv, LayersOf, Layers.View, MergeSound;
    InvParts(s);
    StepKeepsInv(c, s, step);
    StepMovesLayers(c, s, step);
    Layers.DoView(LayersOf(s), MoveOf(c, step));
  }
}
