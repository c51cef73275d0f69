/** Compaction: the k-way merge of sorted runs with duplicate resolution, composed with the table format
    on both sides. */
module Compaction {
  import opened Entries
  import opened MergeHeap
  import opened SortedTable
  import opened BloomFilter

  /** A sorted run: what one reader has still to yield. */
  type Run = seq<Entry>

  // ---------- The merge as a function ----------

  function Unread(runs: seq<Run>): nat {
    if runs == [] then 0 else |runs[0]| + Unread(runs[1..])
  }

  lemma {:induction false} UnreadDrops(runs: seq<Run>, s: nat)
    requires s < |runs| && runs[s] != []
    ensures Unread(runs[s := runs[s][1..]]) == Unread(runs) - 1
  {
    if s > 0 {
      UnreadDrops(runs[1..], s - 1);
      assert runs[s := runs[s][1..]][1..] == runs[1..][s - 1 := runs[s][1..]];
    }
  }

  /** The reader of run s moves on and its entry enters the heap; an exhausted run adds nothing. */
  function Advance(ties: Ties, runs: seq<Run>, heap: Heap, s: nat): (r: (seq<Run>, Heap))
    ensures |r.0| == |runs|
  {
    if s < |runs| && runs[s] != []
    then (runs[s := runs[s][1..]], Push(ties, heap, MergeItem(runs[s][0], s)))
    else (runs, heap)
  }

  /** The heap after the first n runs have contributed their heads. */
  function Fill(ties: Ties, runs: seq<Run>, n: nat): (r: (seq<Run>, Heap))
    requires n <= |runs|
    ensures |r.0| == |runs|
  {
    if n == 0 then (runs, [])
    else
      var (rest, heap) := Fill(ties, runs, n - 1);
      Advance(ties, rest, heap, n - 1)
  }

  /** The order in which the items leave the heap. */
  function Pops(ties: Ties, runs: seq<Run>, heap: Heap): seq<MergeItem>
    decreases |heap| + Unread(runs)
  {
    if heap == [] then []
    else
      var (top, heap') := Pop(ties, heap);
      var (runs', heap'') := Advance(ties, runs, heap', top.source);
      if top.source < |runs| && runs[top.source] != [] then
        UnreadDrops(runs, top.source);
        [top] + Pops(ties, runs', heap'')
      else [top] + Pops(ties, runs', heap'')
  }

  /** An entry overwrites the last one emitted if the keys are equal, and is appended otherwise. */
  function Emit(out: seq<Entry>, e: Entry): seq<Entry> {
    if out != [] && out[|out| - 1].key == e.key then out[|out| - 1 := e] else out + [e]
  }

  function Collapse(ps: seq<MergeItem>): seq<Entry> {
    if ps == [] then [] else Emit(Collapse(ps[..|ps| - 1]), ps[|ps| - 1].entry)
  }

  function MergePops(ties: Ties, runs: seq<Run>): seq<MergeItem> {
    var (rest, heap) := Fill(ties, runs, |runs|);
    Pops(ties, rest, heap)
  }

  function Merge(ties: Ties, runs: seq<Run>): seq<Entry> {
    Collapse(MergePops(ties, runs))
  }

  // ---------- The heap delivers a sorted interleaving ----------

  ghost predicate IsItem(runs: seq<Run>, x: MergeItem) {
    x.source < |runs| && x.entry in runs[x.source]
  }

  ghost predicate SortedPops(ties: Ties, ps: seq<MergeItem>) {
    forall a, b :: 0 <= a < b < |ps| ==> Leq(ties, ps[a], ps[b])
  }

  ghost predicate SortedRuns(runs: seq<Run>) {
    forall i :: 0 <= i < |runs| ==> StrictlySorted(runs[i])
  }

  /** A pop order that a comparison with these ties allows: all items of the runs, none out of order. */
  ghost predicate PopOrder(ties: Ties, runs: seq<Run>, ps: seq<MergeItem>) {
    && SortedPops(ties, ps)
    && forall x :: IsItem(runs, x) <==> x in ps
  }

  /** The heap and the unread runs: the heap is ordered, and every item in it comes strictly before what
      its run has still to yield. */
  ghost predicate Feeding(ties: Ties, rest: seq<Run>, heap: Heap) {
    && SortedRuns(rest)
    && IsHeap(ties, heap, |heap|)
    && (forall x :: x in heap ==> x.source < |rest| && (rest[x.source] != [] ==> Below(x.entry.key, rest[x.source][0].key)))
  }

  /** Every run with unread entries from index n on has no head in the heap yet; the others have one. */
  ghost predicate HeadsPresent(rest: seq<Run>, heap: Heap, n: nat) {
    forall i :: 0 <= i < |rest| && i < n && rest[i] != [] ==> exists x :: x in heap && x.source == i
  }

  lemma PushMembers(ties: Ties, heap: Heap, x: MergeItem)
    ensures forall y :: y in Push(ties, heap, x) <==> y in heap || y == x
  {
    hide Push;
    forall y ensures y in Push(ties, heap, x) <==> y in heap || y == x {
      assert y in Push(ties, heap, x) <==> y in multiset(Push(ties, heap, x));
    }
  }

  lemma PopMembers(ties: Ties, heap: Heap)
    requires heap != []
    ensures forall y :: y in heap <==> y in Pop(ties, heap).1 || y == Pop(ties, heap).0
  {
    hide Pop;
    forall y ensures y in heap <==> y in Pop(ties, heap).1 || y == Pop(ties, heap).0 {
      assert y in heap <==> y in multiset(heap);
      assert y in Pop(ties, heap).1 <==> y in multiset(Pop(ties, heap).1);
    }
  }

  lemma TailMembers(run: Run)
    requires run != []
    ensures forall e :: e in run <==> e == run[0] || e in run[1..]
  {
    assert run == [run[0]] + run[1..];
  }

  /** Advancing a run loses no item and invents none. */
  lemma AdvanceMembers(ties: Ties, rest: seq<Run>, heap: Heap, s: nat, x: MergeItem)
    ensures var (rest', heap') := Advance(ties, rest, heap, s);
      (x in heap' || IsItem(rest', x)) <==> (x in heap || IsItem(rest, x))
  {
    if s < |rest| && rest[s] != [] {
      PushMembers(ties, heap, MergeItem(rest[s][0], s));
      TailMembers(rest[s]);
    }
  }

  lemma AdvanceFeeds(ties: Ties, rest: seq<Run>, heap: Heap, s: nat)
    requires Feeding(ties, rest, heap)
    ensures var (rest', heap') := Advance(ties, rest, heap, s); Feeding(ties, rest', heap')
  {
    hide Push, IsHeap, Below;
    if s < |rest| && rest[s] != [] {
      var x := MergeItem(rest[s][0], s);
      var (rest', heap') := Advance(ties, rest, heap, s);
      PushIsHeap(ties, heap, x);
      PushMembers(ties, heap, x);
      forall y | y in heap' && rest'[y.source] != []
        ensures Below(y.entry.key, rest'[y.source][0].key)
      {
        if y.source == s && y != x { BelowTransitive(y.entry.key, x.entry.key, rest[s][1].key); }
      }
    }
  }

  lemma AdvanceHeads(ties: Ties, rest: seq<Run>, heap: Heap, s: nat, n: nat)
    requires forall i :: 0 <= i < |rest| && i < n && i != s && rest[i] != [] ==> exists x :: x in heap && x.source == i
    ensures var (rest', heap') := Advance(ties, rest, heap, s);
      HeadsPresent(rest', heap', n) && (s == n ==> HeadsPresent(rest', heap', n + 1))
  {
    hide Push;
    if s < |rest| && rest[s] != [] {
      var x := MergeItem(rest[s][0], s);
      var (rest', heap') := Advance(ties, rest, heap, s);
      PushMembers(ties, heap, x);
      forall i | 0 <= i < |rest'| && (i < n || i == s) && rest'[i] != [] ensures exists y :: y in heap' && y.source == i {
        if i == s {
          assert x in heap';
        } else {
          var y :| y in heap && y.source == i;
          assert y in heap';
        }
      }
    }
  }

  lemma {:induction false} FillFeeds(ties: Ties, runs: seq<Run>, n: nat)
    requires n <= |runs| && SortedRuns(runs)
    ensures var (rest, heap) := Fill(ties, runs, n);
      && Feeding(ties, rest, heap) && HeadsPresent(rest, heap, n)
      && forall x :: (x in heap || IsItem(rest, x)) <==> IsItem(runs, x)
  {
    hide Advance, Feeding, IsItem;
    if n == 0 {
      assert Feeding(ties, runs, []) by { FeedingFromNothing(ties, runs); }
    } else {
      var (rest, heap) := Fill(ties, runs, n - 1);
      FillFeeds(ties, runs, n - 1);
      AdvanceFeeds(ties, rest, heap, n - 1);
      AdvanceHeads(ties, rest, heap, n - 1, n - 1);
      forall x ensures var (rest', heap') := Fill(ties, runs, n); (x in heap' || IsItem(rest', x)) <==> IsItem(runs, x) {
        AdvanceMembers(ties, rest, heap, n - 1, x);
      }
    }
  }

  lemma FeedingFromNothing(ties: Ties, runs: seq<Run>)
    requires SortedRuns(runs)
    ensures Feeding(ties, runs, [])
  {
  }

  /** Popping one item and advancing its run keeps the feed in order, loses no item, and pops nothing that
      comes after what is left. */
  lemma PopStep(ties: Ties, rest: seq<Run>, heap: Heap)
    requires heap != [] && Feeding(ties, rest, heap) && HeadsPresent(rest, heap, |rest|)
    ensures var (top, h) := Pop(ties, heap); var (rest', heap') := Advance(ties, rest, h, top.source);
      && Feeding(ties, rest', heap') && HeadsPresent(rest', heap', |rest'|)
      && (forall x :: (x in heap || IsItem(rest, x)) <==> (x == top || x in heap' || IsItem(rest', x)))
      && (forall x :: x in heap' ==> Leq(ties, top, x))
  {
    var (top, h) := Pop(ties, heap);
    var (rest', heap') := Advance(ties, rest, h, top.source);
    PopMembers(ties, heap);
    PopIsHeap(ties, heap);
    assert Feeding(ties, rest, h) by { hide Pop, IsHeap, Below; }
    AdvanceFeeds(ties, rest, h, top.source);
    forall i | 0 <= i < |rest| && i != top.source && rest[i] != [] ensures exists x :: x in h && x.source == i {
      hide Pop, Feeding;
      var x :| x in heap && x.source == i;
      assert x in h;
    }
    AdvanceHeads(ties, rest, h, top.source, |rest|);
    forall x ensures (x in heap || IsItem(rest, x)) <==> (x == top || x in heap' || IsItem(rest', x)) {
      hide Pop, IsItem, Advance, Feeding;
      AdvanceMembers(ties, rest, h, top.source, x);
    }
    forall x | x in heap' ensures Leq(ties, top, x) { PoppedFirst(ties, rest, heap, x); }
  }

  lemma PoppedFirst(ties: Ties, rest: seq<Run>, heap: Heap, x: MergeItem)
    requires heap != [] && Feeding(ties, rest, heap)
    requires var (top, h) := Pop(ties, heap); x in Advance(ties, rest, h, top.source).1
    ensures Leq(ties, Pop(ties, heap).0, x)
  {
    hide Pop, Push;
    var (top, h) := Pop(ties, heap);
    PopMembers(ties, heap);
    if x in h {
      PopIsLeast(ties, heap, x);
    } else {
      PushMembers(ties, h, MergeItem(rest[top.source][0], top.source));
      BelowAsymmetric(top.entry.key, x.entry.key);
    }
  }

  /** What is still to be popped is sorted, starts no earlier than the heap's least item, and consists of
      exactly the items in the heap and the unread runs. */
  lemma {:induction false} PopsSorted(ties: Ties, rest: seq<Run>, heap: Heap, floor: MergeItem)
    requires Feeding(ties, rest, heap) && HeadsPresent(rest, heap, |rest|)
    requires forall x :: x in heap ==> Leq(ties, floor, x)
    ensures var ps := Pops(ties, rest, heap);
      && SortedPops(ties, [floor] + ps)
      && forall x :: x in ps <==> x in heap || IsItem(rest, x)
    decreases |heap| + Unread(rest)
  {
    hide Pop, Advance, Feeding, Leq;
    if heap == [] {
      assert forall i :: 0 <= i < |rest| ==> rest[i] == [];
    } else {
      var (top, h) := Pop(ties, heap);
      var (rest', heap') := Advance(ties, rest, h, top.source);
      PopStep(ties, rest, heap);
      AdvanceMeasure(ties, rest, heap);
      PopsSorted(ties, rest', heap', top);
      PopMembers(ties, heap);
      assert Leq(ties, floor, top);
      SortedWithFloor(ties, floor, [top] + Pops(ties, rest', heap'));
    }
  }

  lemma AdvanceMeasure(ties: Ties, rest: seq<Run>, heap: Heap)
    requires heap != []
    ensures var (top, h) := Pop(ties, heap); var (rest', heap') := Advance(ties, rest, h, top.source);
      |heap'| + Unread(rest') == |heap| + Unread(rest) - 1
  {
    hide Pop, Push;
    var s := Pop(ties, heap).0.source;
    if s < |rest| && rest[s] != [] { UnreadDrops(rest, s); }
  }

  lemma SortedWithFloor(ties: Ties, floor: MergeItem, ps: seq<MergeItem>)
    requires ps != [] && SortedPops(ties, ps) && Leq(ties, floor, ps[0])
    ensures SortedPops(ties, [floor] + ps)
  {
    hide Leq;
    var qs := [floor] + ps;
    forall a, b | 0 <= a < b < |qs| ensures Leq(ties, qs[a], qs[b]) {
      if a > 0 {
        assert Leq(ties, ps[a - 1], ps[b - 1]);
      } else if b > 1 {
        assert Leq(ties, ps[0], ps[b - 1]);
        LeqTransitive(ties, floor, ps[0], ps[b - 1]);
      }
    }
  }

  /** The heap pops all items of the runs, none out of order. */
  lemma MergePopsInOrder(ties: Ties, runs: seq<Run>)
    requires SortedRuns(runs)
    ensures PopOrder(ties, runs, MergePops(ties, runs))
  {
    hide Feeding, Pop, Advance, Leq, IsItem;
    var (rest, heap) := Fill(ties, runs, |runs|);
    FillFeeds(ties, runs, |runs|);
    var ps := Pops(ties, rest, heap);
    if heap == [] {
      assert forall i :: 0 <= i < |rest| ==> rest[i] == [];
      assert forall x :: !IsItem(rest, x) by { NoItems(rest); }
    } else {
      PopStep(ties, rest, heap);
      var top := Pop(ties, heap).0;
      PopMembers(ties, heap);
      forall x | x in heap ensures Leq(ties, top, x) { RootFirst(ties, rest, heap, x); }
      PopsSorted(ties, rest, heap, top);
      assert ps == ([top] + ps)[1..];
    }
  }

  lemma NoItems(rest: seq<Run>)
    requires forall i :: 0 <= i < |rest| ==> rest[i] == []
    ensures forall x :: !IsItem(rest, x)
  {
  }

  lemma RootFirst(ties: Ties, rest: seq<Run>, heap: Heap, x: MergeItem)
    requires Feeding(ties, rest, heap) && x in heap
    ensures Leq(ties, Pop(ties, heap).0, x)
  {
    hide Pop;
    PopMembers(ties, heap);
    if x in Pop(ties, heap).1 { PopIsLeast(ties, heap, x); } else { BelowIrreflexive(x.entry.key); }
  }

  // ---------- Collapsing equal keys ----------

  function PopEntries(ps: seq<MergeItem>): seq<Entry> {
    if ps == [] then [] else PopEntries(ps[..|ps| - 1]) + [ps[|ps| - 1].entry]
  }

  lemma EmitSorted(out: seq<Entry>, e: Entry)
    requires StrictlySorted(out)
    requires out != [] ==> out[|out| - 1].key == e.key || Below(out[|out| - 1].key, e.key)
    ensures StrictlySorted(Emit(out, e))
    ensures ToMap(Emit(out, e)) == ToMap(out)[e.key := e]
  {
    hide Below, ToMap;
    var init := if out != [] && out[|out| - 1].key == e.key then out[..|out| - 1] else out;
    assert Emit(out, e) == init + [e];
    forall i | 0 <= i < |init| ensures Below(init[i].key, e.key) {
      if i < |out| - 1 && init == out { BelowTransitive(out[i].key, out[|out| - 1].key, e.key); }
    }
    SortedSnoc(init, e);
    EmitMap(out, init, e);
  }

  lemma SortedSnoc(init: seq<Entry>, e: Entry)
    requires StrictlySorted(init) && forall i :: 0 <= i < |init| ==> Below(init[i].key, e.key)
    ensures StrictlySorted(init + [e])
  {
    hide Below;
  }

  lemma EmitMap(out: seq<Entry>, init: seq<Entry>, e: Entry)
    requires init == out || (out != [] && out[|out| - 1].key == e.key && init == out[..|out| - 1])
    ensures ToMap(init + [e]) == ToMap(out)[e.key := e]
  {
    hide ToMap;
    ToMapSnoc(init, e);
    if init != out { OverwriteLast(init, out[|out| - 1], out, e); }
  }

  lemma OverwriteLast(init: seq<Entry>, last: Entry, out: seq<Entry>, e: Entry)
    requires last.key == e.key && out == init + [last]
    ensures ToMap(out)[e.key := e] == ToMap(init)[e.key := e]
  {
    hide ToMap;
    ToMapSnoc(init, last);
    Overwrite(ToMap(init), e.key, last, e);
  }

  lemma Overwrite(m: Table, k: Key, e: Entry, f: Entry)
    ensures m[k := e][k := f] == m[k := f]
  {
  }

  /** Collapsing pops that come in key order gives a strictly sorted run in which the last pop of every key
      has won. */
  lemma {:induction false} CollapseSorted(ties: Ties, ps: seq<MergeItem>)
    requires SortedPops(ties, ps)
    ensures StrictlySorted(Collapse(ps))
    ensures ToMap(Collapse(ps)) == ToMap(PopEntries(ps))
    ensures ps != [] ==> Collapse(ps) != [] && Collapse(ps)[|Collapse(ps)| - 1] == ps[|ps| - 1].entry
  {
    hide Below, ToMap, StrictlySorted;
    if ps == [] {
      SortedNothing();
    } else {
      var n := |ps| - 1;
      CollapseSorted(ties, ps[..n]);
      if n > 0 {
        assert Leq(ties, ps[n - 1], ps[n]);
        BelowTotal(ps[n - 1].entry.key, ps[n].entry.key);
      }
      EmitSorted(Collapse(ps[..n]), ps[n].entry);
      PopEntriesSnoc(ps);
    }
  }

  lemma SortedNothing()
    ensures StrictlySorted([])
  {
  }

  lemma PopEntriesSnoc(ps: seq<MergeItem>)
    requires ps != []
    ensures var e := ps[|ps| - 1].entry; ToMap(PopEntries(ps)) == ToMap(PopEntries(ps[..|ps| - 1]))[e.key := e]
  {
    hide ToMap;
    ToMapSnoc(PopEntries(ps[..|ps| - 1]), ps[|ps| - 1].entry);
  }

  /** A last pop of the key, if there is any pop of it. */
  ghost predicate IsLastPop(ps: seq<MergeItem>, k: Key, b: nat) {
    b < |ps| && ps[b].entry.key == k && forall a :: b < a < |ps| ==> ps[a].entry.key != k
  }

  /** The entry kept for a key comes from the last pop of that key. */
  lemma {:induction false} LastPop(ps: seq<MergeItem>, k: Key) returns (b: nat)
    ensures k in ToMap(PopEntries(ps)) ==> IsLastPop(ps, k, b) && ps[b].entry == ToMap(PopEntries(ps))[k]
    ensures k !in ToMap(PopEntries(ps)) ==> forall a :: 0 <= a < |ps| ==> ps[a].entry.key != k
  {
    hide ToMap, PopEntries;
    b := 0;
    if ps == [] {
      NoPopEntries();
    } else {
      var n := |ps| - 1;
      PopEntriesSnoc(ps);
      if ps[n].entry.key == k {
        b := n;
      } else {
        b := LastPop(ps[..n], k);
      }
    }
  }

  lemma NoPopEntries()
    ensures ToMap(PopEntries([])) == map[]
  {
  }

  // ---------- Which run wins a key ----------

  function Maps(runs: seq<Run>): (ms: seq<Table>)
    ensures |ms| == |runs|
    ensures forall i :: 0 <= i < |ms| ==> ms[i] == ToMap(runs[i])
  {
    seq(|runs|, i requires 0 <= i < |runs| => ToMap(runs[i]))
  }

  lemma SortedHolds(run: Run, e: Entry)
    requires StrictlySorted(run)
    ensures e in run <==> e.key in ToMap(run) && ToMap(run)[e.key] == e
  {
    hide ToMap;
    SortedIsDistinct(run);
    if e in run {
      var i :| 0 <= i < |run| && run[i] == e;
      ToMapAt(run, i);
    }
  }

  /** In any admissible pop order, a key is kept if and only if some run holds it, and the entry kept comes
      from a run whose rank no other holder of the key exceeds. */
  lemma WinnerOfPops(ties: Ties, runs: seq<Run>, ps: seq<MergeItem>, k: Key) returns (w: nat)
    requires SortedRuns(runs) && PopOrder(ties, runs, ps)
    ensures k in ToMap(Collapse(ps)) <==> exists i :: 0 <= i < |runs| && k in ToMap(runs[i])
    ensures k in ToMap(Collapse(ps)) ==>
      && w < |runs| && k in ToMap(runs[w]) && ToMap(Collapse(ps))[k] == ToMap(runs[w])[k]
      && forall v :: 0 <= v < |runs| && k in ToMap(runs[v]) ==> ties(v) <= ties(w)
  {
    hide ToMap, Below, StrictlySorted;
    CollapseSorted(ties, ps);
    var b := LastPop(ps, k);
    w := 0;
    forall i | 0 <= i < |runs| && k in ToMap(runs[i])
      ensures MergeItem(ToMap(runs[i])[k], i) in ps
    {
      SortedHolds(runs[i], ToMap(runs[i])[k]);
      assert IsItem(runs, MergeItem(ToMap(runs[i])[k], i));
    }
    if k in ToMap(Collapse(ps)) {
      w := ps[b].source;
      assert ps[b] in ps && IsItem(runs, ps[b]);
      SortedHolds(runs[w], ps[b].entry);
      forall v | 0 <= v < |runs| && k in ToMap(runs[v]) ensures ties(v) <= ties(w) {
        var x := MergeItem(ToMap(runs[v])[k], v);
        var a :| 0 <= a < |ps| && ps[a] == x;
        if a < b { assert Leq(ties, ps[a], ps[b]); }
      }
    }
  }

  /** With the comparison as it stands, whatever order the heap gives to ties: the output is strictly
      sorted, its keys are exactly the union of the keys of the runs, and every entry comes from a run. */
  lemma AnyTiesMerge(runs: seq<Run>, ps: seq<MergeItem>)
    requires SortedRuns(runs) && PopOrder(KeyOnly(), runs, ps)
    ensures StrictlySorted(Collapse(ps))
    ensures forall k :: k in ToMap(Collapse(ps)) <==> exists i :: 0 <= i < |runs| && k in ToMap(runs[i])
    ensures forall e :: e in Collapse(ps) ==> exists i :: 0 <= i < |runs| && e in runs[i]
  {
    hide ToMap, Below, StrictlySorted, Collapse;
    CollapseSorted(KeyOnly(), ps);
    forall k ensures k in ToMap(Collapse(ps)) <==> exists i :: 0 <= i < |runs| && k in ToMap(runs[i]) {
      var _ := WinnerOfPops(KeyOnly(), runs, ps, k);
    }
    forall e | e in Collapse(ps) ensures exists i :: 0 <= i < |runs| && e in runs[i] {
      SortedHolds(Collapse(ps), e);
      var w := WinnerOfPops(KeyOnly(), runs, ps, e.key);
      SortedHolds(runs[w], e);
    }
  }

  /** Newest wins: with ties broken by run number the merge is the sorted right-biased union of the runs. */
  lemma MergeIsUnion(runs: seq<Run>)
    requires SortedRuns(runs)
    ensures StrictlySorted(Merge(BySource(), runs))
    ensures ToMap(Merge(BySource(), runs)) == Union(Maps(runs))
  {
    hide ToMap, Below, StrictlySorted, Collapse, MergePops;
    var ties := BySource();
    var ps := MergePops(ties, runs);
    MergePopsInOrder(ties, runs);
    CollapseSorted(ties, ps);
    forall k ensures Lookup(ToMap(Collapse(ps)), k) == Lookup(Union(Maps(runs)), k) {
      hide Union, PopOrder;
      var w := WinnerOfPops(ties, runs, ps, k);
      UnionKeys(Maps(runs), k);
      if k in ToMap(Collapse(ps)) { UnionNewest(Maps(runs), w, k); }
    }
    SameLookups(ToMap(Collapse(ps)), Union(Maps(runs)));
  }

  /** There is only one such run: whatever sorted run holds the right-biased union is the merge. */
  lemma MergeIsTheSortedUnion(runs: seq<Run>, es: Run)
    requires SortedRuns(runs)
    ensures StrictlySorted(es) && ToMap(es) == Union(Maps(runs)) <==> es == Merge(BySource(), runs)
  {
    hide *;
    MergeIsUnion(runs);
    if StrictlySorted(es) && ToMap(es) == Union(Maps(runs)) { SortedRunUnique(es, Merge(BySource(), runs)); }
  }

  /** Runs that hold the same key hold the same entry for it. */
  ghost predicate SharedKeysAgree(runs: seq<Run>) {
    forall i, j, k :: 0 <= i < |runs| && 0 <= j < |runs| && k in ToMap(runs[i]) && k in ToMap(runs[j])
      ==> ToMap(runs[i])[k] == ToMap(runs[j])[k]
  }

  /** A rank that lets run v win every key it holds. */
  function Favouring(v: nat): Ties {
    (source: nat) => if source == v then 1 else 0
  }

  lemma FavouredIsKeyOnly(v: nat, runs: seq<Run>, ps: seq<MergeItem>)
    requires PopOrder(Favouring(v), runs, ps)
    ensures PopOrder(KeyOnly(), runs, ps)
  {
    hide Below;
    forall a, b | 0 <= a < b < |ps| ensures Leq(KeyOnly(), ps[a], ps[b]) {
      assert Leq(Favouring(v), ps[a], ps[b]);
    }
  }

  lemma AgreeingRunsMerge(runs: seq<Run>, ps: seq<MergeItem>)
    requires SortedRuns(runs) && SharedKeysAgree(runs) && PopOrder(KeyOnly(), runs, ps)
    ensures ToMap(Collapse(ps)) == Union(Maps(runs))
  {
    hide ToMap, Collapse, PopOrder;
    forall k ensures Lookup(ToMap(Collapse(ps)), k) == Lookup(Union(Maps(runs)), k) {
      hide Union;
      var w := WinnerOfPops(KeyOnly(), runs, ps, k);
      UnionKeys(Maps(runs), k);
      if k in ToMap(Collapse(ps)) {
        var n := NewestHolder(Maps(runs), k);
        UnionNewest(Maps(runs), n, k);
      }
    }
    SameLookups(ToMap(Collapse(ps)), Union(Maps(runs)));
  }

  lemma {:induction false} NewestHolder(ms: seq<Table>, k: Key) returns (n: nat)
    requires exists i :: 0 <= i < |ms| && k in ms[i]
    ensures n < |ms| && k in ms[n] && forall j :: n < j < |ms| ==> k !in ms[j]
  {
    n := |ms| - 1;
    if k !in ms[n] {
      var i :| 0 <= i < |ms| && k in ms[i];
      assert k in ms[..n][i];
      n := NewestHolder(ms[..n], k);
    }
  }

  /** The comparison as it stands is right for newest-wins, whatever the heap does with ties, exactly when
      no two runs disagree on a key they share. */
  lemma KeyOnlyMergeIff(runs: seq<Run>)
    requires SortedRuns(runs)
    ensures SharedKeysAgree(runs) <==>
      forall ps :: PopOrder(KeyOnly(), runs, ps) ==> ToMap(Collapse(ps)) == Union(Maps(runs))
  {
    hide ToMap, Collapse, PopOrder, Union;
    if SharedKeysAgree(runs) {
      forall ps | PopOrder(KeyOnly(), runs, ps) ensures ToMap(Collapse(ps)) == Union(Maps(runs)) {
        AgreeingRunsMerge(runs, ps);
      }
    } else {
      var i, j, k :| 0 <= i < |runs| && 0 <= j < |runs| && k in ToMap(runs[i]) && k in ToMap(runs[j])
        && ToMap(runs[i])[k] != ToMap(runs[j])[k];
      var ps := BadPopOrder(runs, i, j, k);
    }
  }

  /** If two runs disagree on a key, some admissible pop order lets an older one of its holders win. */
  lemma BadPopOrder(runs: seq<Run>, i: nat, j: nat, k: Key) returns (ps: seq<MergeItem>)
    requires SortedRuns(runs) && i < |runs| && j < |runs| && k in ToMap(runs[i]) && k in ToMap(runs[j])
    requires ToMap(runs[i])[k] != ToMap(runs[j])[k]
    ensures PopOrder(KeyOnly(), runs, ps) && ToMap(Collapse(ps)) != Union(Maps(runs))
  {
    hide ToMap, Collapse, PopOrder, Union, SortedRuns;
    assert k in Maps(runs)[i];
    var n := NewestHolder(Maps(runs), k);
    UnionNewest(Maps(runs), n, k);
    var v := if ToMap(runs[i])[k] != ToMap(runs[n])[k] then i else j;
    MergePopsInOrder(Favouring(v), runs);
    ps := MergePops(Favouring(v), runs);
    FavouredIsKeyOnly(v, runs, ps);
    var w := WinnerOfPops(Favouring(v), runs, ps, k);
    assert w == v;
  }

  lemma HeapOfTwo(ties: Ties, x: MergeItem, y: MergeItem)
    requires !Less(ties, y, x)
    ensures Push(ties, [], x) == [x] && Push(ties, [x], y) == [x, y]
    ensures Pop(ties, [x, y]) == (x, [y]) && Pop(ties, [y]) == (y, [])
  {
    assert [] + [x] == [x] && [x] + [y] == [x, y];
    assert Swap([x, y], 0, 1) == [y, x];
    assert Down(ties, [y, x], 0, 1) == [y, x];
    assert [y, x][..1] == [y];
    assert Swap([y], 0, 0) == [y];
    assert Down(ties, [y], 0, 0) == [y];
    assert [y][..0] == [];
  }

  lemma FillTwo(ties: Ties, a: Entry, b: Entry, b': Entry)
    requires !Less(ties, MergeItem(b', 1), MergeItem(a, 0))
    ensures Fill(ties, [[a, b], [b']], 2) == ([[b], []], [MergeItem(a, 0), MergeItem(b', 1)])
  {
    hide Push, Less;
    var runs: seq<Run> := [[a, b], [b']];
    HeapOfTwo(ties, MergeItem(a, 0), MergeItem(b', 1));
    assert Fill(ties, runs, 0) == (runs, []);
    assert runs[0 := [b]] == [[b], [b']] && runs[0 := [b]][1 := []] == [[b], []];
    assert [a, b][1..] == [b] && [b'][1..] == [];
    assert Advance(ties, runs, [], 0) == ([[b], [b']], [MergeItem(a, 0)]);
    assert Advance(ties, [[b], [b']], [MergeItem(a, 0)], 1) == ([[b], []], [MergeItem(a, 0), MergeItem(b', 1)]);
    assert Fill(ties, runs, 1) == Advance(ties, runs, [], 0);
    assert Fill(ties, runs, 2) == Advance(ties, [[b], [b']], [MergeItem(a, 0)], 1);
  }

  lemma PopsThree(ties: Ties, x: MergeItem, y: MergeItem, z: MergeItem)
    requires x.source == z.source == 0 && y.source == 1
    requires !Less(ties, y, x) && !Less(ties, z, y)
    ensures Pops(ties, [[z.entry], []], [x, y]) == [x, y, z]
  {
    hide Push, Pop, Less;
    HeapOfTwo(ties, x, y);
    HeapOfTwo(ties, y, z);
    var none: seq<Run> := [[], []];
    var one: seq<Run> := [[z.entry], []];
    assert one[0][1..] == [] && one[0 := []] == none;
    assert Advance(ties, one, [y], 0) == (none, [y, z]);
    assert Pops(ties, none, [z]) == [z] + Pops(ties, none, []);
    assert Pops(ties, none, [y, z]) == [y] + Pops(ties, none, [z]);
    UnreadDrops(one, 0);
    assert Pops(ties, one, [x, y]) == [x] + Pops(ties, none, [y, z]);
  }

  lemma CollapseThree(x: MergeItem, y: MergeItem, z: MergeItem)
    requires x.entry.key != y.entry.key == z.entry.key
    ensures Collapse([x, y, z]) == [x.entry, z.entry]
  {
    assert [x, y, z][..2] == [x, y] && [x, y][..1] == [x] && [x][..0] == [];
    assert Collapse([x]) == [x.entry];
    assert Collapse([x, y]) == [x.entry, y.entry];
  }

  /** The heap as it stands, on any older run [a, b] and newer run [b']: b' is popped first and the older b
      overwrites it, so the merge differs from newest-wins whenever b and b' do. */
  lemma KeyOnlyMergeKeepsOld(a: Entry, b: Entry, b': Entry)
    requires Below(a.key, b.key) && b'.key == b.key
    ensures Merge(KeyOnly(), [[a, b], [b']]) == [a, b]
    ensures b != b' ==> ToMap(Merge(KeyOnly(), [[a, b], [b']])) != Union(Maps([[a, b], [b']]))
  {
    hide *;
    var runs: seq<Run> := [[a, b], [b']];
    MergeKeepsOld(a, b, b');
    TwoRuns(a, b, b');
    SortedHolds([a, b], b);
    SortedHolds([b'], b');
    UnionNewest(Maps(runs), 1, b.key);
  }

  lemma MergeKeepsOld(a: Entry, b: Entry, b': Entry)
    requires Below(a.key, b.key) && b'.key == b.key
    ensures Merge(KeyOnly(), [[a, b], [b']]) == [a, b]
  {
    hide Below, Fill, Pops, Collapse;
    BelowAsymmetric(a.key, b.key);
    BelowIrreflexive(b.key);
    var x, y, z := MergeItem(a, 0), MergeItem(b', 1), MergeItem(b, 0);
    FillTwo(KeyOnly(), a, b, b');
    PopsThree(KeyOnly(), x, y, z);
    CollapseThree(x, y, z);
  }

  lemma TwoRuns(a: Entry, b: Entry, b': Entry)
    requires Below(a.key, b.key)
    ensures StrictlySorted([a, b]) && StrictlySorted([b'])
    ensures var ms := Maps([[a, b], [b']]); ms[0] == ToMap([a, b]) && ms[1] == ToMap([b'])
  {
    hide ToMap, Below;
  }

  // ---------- Runs of one entry each, all with the same key ----------

  function Singles(es: seq<Entry>): (runs: seq<Run>)
    ensures |runs| == |es| && forall i :: 0 <= i < |es| ==> runs[i] == [es[i]]
  {
    seq(|es|, i requires 0 <= i < |es| => [es[i]])
  }

  /** The first n of them in the heap. */
  function Items(es: seq<Entry>, n: nat): (h: Heap)
    requires n <= |es|
    ensures |h| == n && forall i :: 0 <= i < n ==> h[i] == MergeItem(es[i], i)
  {
    seq(n, i requires 0 <= i < n => MergeItem(es[i], i))
  }

  function Emptied(es: seq<Entry>, n: nat): (runs: seq<Run>)
    ensures |runs| == |es| && forall i :: 0 <= i < |es| ==> runs[i] == if i < n then [] else [es[i]]
  {
    seq(|es|, i requires 0 <= i < |es| => if i < n then [] else [es[i]])
  }

  predicate OneKey(h: seq<MergeItem>, k: Key) {
    forall i :: 0 <= i < |h| ==> h[i].entry.key == k
  }

  lemma NeverLess(x: MergeItem, y: MergeItem)
    requires x.entry.key == y.entry.key
    ensures !Less(KeyOnly(), x, y)
  {
    BelowIrreflexive(x.entry.key);
  }

  lemma PushOneKey(h: Heap, x: MergeItem, k: Key)
    requires OneKey(h, k) && x.entry.key == k
    ensures Push(KeyOnly(), h, x) == h + [x]
  {
    hide Less;
    if h != [] { NeverLess(x, h[Parent(|h|)]); }
  }

  lemma DownOneKey(g: Heap, n: nat, k: Key)
    requires n < |g| && OneKey(g, k)
    ensures Down(KeyOnly(), g, 0, n) == g
  {
    hide Less, Child;
    if 1 < n { NeverLess(g[Child(KeyOnly(), g, 0, n)], g[0]); }
  }

  /** The last item takes the place of the first. */
  lemma PopOneKey(h: Heap, k: Key)
    requires h != [] && OneKey(h, k)
    ensures Pop(KeyOnly(), h) == (h[0], if |h| == 1 then [] else [h[|h| - 1]] + h[1..|h| - 1])
    ensures OneKey(Pop(KeyOnly(), h).1, k)
  {
    hide Down;
    var n := |h| - 1;
    var g := Swap(h, 0, n);
    DownOneKey(g, n, k);
    assert g[..n] == if |h| == 1 then [] else [h[n]] + h[1..n];
  }

  lemma {:induction false} FillOneKey(es: seq<Entry>, n: nat, k: Key)
    requires n <= |es| && forall i :: 0 <= i < |es| ==> es[i].key == k
    ensures Fill(KeyOnly(), Singles(es), n) == (Emptied(es, n), Items(es, n))
  {
    hide Push;
    if n == 0 {
      assert Emptied(es, 0) == Singles(es) && Items(es, 0) == [];
    } else {
      FillOneKey(es, n - 1, k);
      PushOneKey(Items(es, n - 1), MergeItem(es[n - 1], n - 1), k);
      assert Emptied(es, n - 1)[n - 1][1..] == [];
      assert Emptied(es, n - 1)[n - 1 := []] == Emptied(es, n);
      assert Items(es, n - 1) + [MergeItem(es[n - 1], n - 1)] == Items(es, n);
    }
  }

  /** The item behind the first leaves the heap last. */
  lemma {:induction false} PopsOneKey(rest: seq<Run>, h: Heap, k: Key)
    requires h != [] && OneKey(h, k) && forall i :: 0 <= i < |rest| ==> rest[i] == []
    ensures var ps := Pops(KeyOnly(), rest, h);
      ps != [] && OneKey(ps, k) && ps[|ps| - 1] == if |h| >= 2 then h[1] else h[0]
    decreases |h|
  {
    hide Pop, Push;
    PopOneKey(h, k);
    var h' := Pop(KeyOnly(), h).1;
    PopsUnfold(KeyOnly(), rest, h);
    if h' == [] {
      PopsDone(KeyOnly(), rest);
    } else {
      PopsOneKey(rest, h', k);
    }
  }

  lemma {:induction false} CollapseOneKey(ps: seq<MergeItem>, k: Key)
    requires ps != [] && OneKey(ps, k)
    ensures Collapse(ps) == [ps[|ps| - 1].entry]
  {
    if |ps| == 1 {
      assert ps[..0] == [];
    } else {
      CollapseOneKey(ps[..|ps| - 1], k);
    }
  }

  /** Several runs of one entry each, all with the same key, in the heap as it stands: the second oldest wins. */
  lemma KeyOnlyMergeOfEquals(es: seq<Entry>, k: Key)
    requires |es| >= 2 && forall i :: 0 <= i < |es| ==> es[i].key == k
    ensures Merge(KeyOnly(), Singles(es)) == [es[1]]
  {
    hide *;
    FillOneKey(es, |es|, k);
    ItemsOneKey(es, k);
    MergePopsFrom(KeyOnly(), Singles(es), Emptied(es, |es|), Items(es, |es|));
    PopsOneKey(Emptied(es, |es|), Items(es, |es|), k);
    var ps := Pops(KeyOnly(), Emptied(es, |es|), Items(es, |es|));
    assert [] + ps == ps;
    CollapseOneKey(ps, k);
    MergeIsCollapse(KeyOnly(), Singles(es));
  }

  lemma ItemsOneKey(es: seq<Entry>, k: Key)
    requires forall i :: 0 <= i < |es| ==> es[i].key == k
    ensures OneKey(Items(es, |es|), k)
  {
  }

  /** Of two such runs the newer one, tombstone or not, does win. */
  lemma KeyOnlyMergeOfSingles(x: Entry, y: Entry)
    requires x.key == y.key
    ensures Merge(KeyOnly(), [[x], [y]]) == [y]
  {
    hide Merge;
    KeyOnlyMergeOfEquals([x, y], x.key);
    assert Singles([x, y]) == [[x], [y]];
  }

  // ---------- Two holders of a key between two other runs ----------

  lemma PushBehind(h: Heap, x: MergeItem)
    requires h != [] ==> !Less(KeyOnly(), x, h[Parent(|h|)])
    ensures Push(KeyOnly(), h, x) == h + [x]
  {
    hide Less;
  }

  lemma SwapAt(h: Heap, i: nat, j: nat)
    requires i < |h| && j < |h|
    ensures |Swap(h, i, j)| == |h| && Swap(h, i, j)[i] == h[j] && Swap(h, i, j)[j] == h[i]
    ensures forall k :: 0 <= k < |h| && k != i && k != j ==> Swap(h, i, j)[k] == h[k]
  {
  }

  lemma PopByDown(h: Heap)
    requires h != []
    ensures var n := |h| - 1; var g := Down(KeyOnly(), Swap(h, 0, n), 0, n);
      Pop(KeyOnly(), h) == (g[n], g[..n])
  {
    hide Down, Swap;
  }

  lemma DownStays(h: Heap, i: nat, n: nat)
    requires i <= n <= |h|
    requires 2 * i + 1 < n ==> !Less(KeyOnly(), h[2 * i + 1], h[i])
    requires 2 * i + 2 < n ==> !Less(KeyOnly(), h[2 * i + 2], h[i])
    ensures Down(KeyOnly(), h, i, n) == h
  {
    hide Less;
  }

  lemma DownLeft(h: Heap, i: nat, n: nat)
    requires i <= n <= |h| && 2 * i + 2 < n && !Less(KeyOnly(), h[2 * i + 2], h[2 * i + 1])
    requires Less(KeyOnly(), h[2 * i + 1], h[i])
    ensures Down(KeyOnly(), h, i, n) == Down(KeyOnly(), Swap(h, i, 2 * i + 1), 2 * i + 1, n)
  {
    hide Less, Swap;
  }

  lemma PopFour(h: Heap)
    requires |h| == 4 && Less(KeyOnly(), h[1], h[3]) && !Less(KeyOnly(), h[2], h[1])
    ensures var (top, g) := Pop(KeyOnly(), h);
      top == h[0] && |g| == 3 && g[0] == h[1] && g[1] == h[3] && g[2] == h[2]
  {
    hide Less, Down, Pop, Swap;
    var s := Swap(h, 0, 3);
    SwapAt(h, 0, 3);
    SwapAt(s, 0, 1);
    DownLeft(s, 0, 3);
    DownStays(Swap(s, 0, 1), 1, 3);
    PopByDown(h);
  }

  lemma PopThree(h: Heap)
    requires |h| == 3 && !Less(KeyOnly(), h[1], h[2])
    ensures var (top, g) := Pop(KeyOnly(), h); top == h[0] && |g| == 2 && g[0] == h[2] && g[1] == h[1]
  {
    hide Less, Down, Pop, Swap;
    var s := Swap(h, 0, 2);
    SwapAt(h, 0, 2);
    DownStays(s, 0, 2);
    PopByDown(h);
  }

  lemma PopTwo(h: Heap)
    requires |h| == 2
    ensures var (top, g) := Pop(KeyOnly(), h); top == h[0] && |g| == 1 && g[0] == h[1]
  {
    hide Less, Down, Pop, Swap;
    var s := Swap(h, 0, 1);
    SwapAt(h, 0, 1);
    DownStays(s, 0, 1);
    PopByDown(h);
  }

  lemma PopNext(rest: seq<Run>, h: Heap, top: MergeItem, h': Heap)
    requires h != [] && Pop(KeyOnly(), h) == (top, h') && forall i :: 0 <= i < |rest| ==> rest[i] == []
    ensures Pops(KeyOnly(), rest, h) == [top] + Pops(KeyOnly(), rest, h')
  {
    hide Pop, Push, Pops;
    PopsUnfold(KeyOnly(), rest, h);
  }

  lemma FillFour(es: seq<Entry>)
    requires |es| == 4 && !Less(KeyOnly(), MergeItem(es[1], 1), MergeItem(es[0], 0))
    requires !Less(KeyOnly(), MergeItem(es[2], 2), MergeItem(es[0], 0)) && !Less(KeyOnly(), MergeItem(es[3], 3), MergeItem(es[1], 1))
    ensures Fill(KeyOnly(), Singles(es), 4) == (Emptied(es, 4), Items(es, 4))
  {
    hide Push, Less;
    FillNone(KeyOnly(), Singles(es));
    assert Emptied(es, 0) == Singles(es) && Items(es, 0) == [];
    for n := 0 to 4
      invariant Fill(KeyOnly(), Singles(es), n) == (Emptied(es, n), Items(es, n))
    {
      PushBehind(Items(es, n), MergeItem(es[n], n));
      FillOneMore(KeyOnly(), Singles(es), n);
      assert Emptied(es, n)[n][1..] == [];
      assert Emptied(es, n)[n := []] == Emptied(es, n + 1);
      assert Items(es, n) + [MergeItem(es[n], n)] == Items(es, n + 1);
    }
  }

  lemma PopsOfThree(rest: seq<Run>, h: Heap)
    requires (forall i :: 0 <= i < |rest| ==> rest[i] == []) && |h| == 3 && !Less(KeyOnly(), h[1], h[2])
    ensures Pops(KeyOnly(), rest, h) == [h[0], h[2], h[1]]
  {
    hide Pop, Pops, Less;
    PopThree(h);
    var h2 := Pop(KeyOnly(), h).1;
    PopNext(rest, h, h[0], h2);
    PopTwo(h2);
    var h1 := Pop(KeyOnly(), h2).1;
    PopNext(rest, h2, h[2], h1);
    PopOneKey(h1, h[1].entry.key);
    PopNext(rest, h1, h[1], []);
    PopsDone(KeyOnly(), rest);
    assert [h[0]] + ([h[2]] + ([h[1]] + [])) == [h[0], h[2], h[1]];
  }

  lemma PopsOfFour(rest: seq<Run>, h: Heap)
    requires (forall i :: 0 <= i < |rest| ==> rest[i] == []) && |h| == 4
    requires Less(KeyOnly(), h[1], h[3]) && !Less(KeyOnly(), h[2], h[1]) && !Less(KeyOnly(), h[3], h[2])
    ensures Pops(KeyOnly(), rest, h) == h
  {
    hide Pop, Pops, Less;
    PopFour(h);
    var h3 := Pop(KeyOnly(), h).1;
    PopNext(rest, h, h[0], h3);
    PopsOfThree(rest, h3);
    assert [h[0]] + [h[1], h[2], h[3]] == h;
  }

  /** Four runs of one entry each, the middle two with the same key, in the heap as it stands: the newer of the two
      wins. */
  lemma KeyOnlyMergeOfFour(a: Entry, p: Entry, q: Entry, m: Entry)
    requires Below(a.key, p.key) && p.key == q.key && Below(q.key, m.key)
    ensures Merge(KeyOnly(), [[a], [p], [q], [m]]) == [a, q, m]
  {
    hide Below, Fill, Pops, Collapse;
    var es := [a, p, q, m];
    BelowAsymmetric(a.key, p.key);
    BelowAsymmetric(q.key, m.key);
    BelowIrreflexive(p.key);
    FillFour(es);
    assert Items(es, 4) == [MergeItem(a, 0), MergeItem(p, 1), MergeItem(q, 2), MergeItem(m, 3)];
    PopsOfFour(Emptied(es, 4), Items(es, 4));
    assert Singles(es) == [[a], [p], [q], [m]];
    CollapseFour(MergeItem(a, 0), MergeItem(p, 1), MergeItem(q, 2), MergeItem(m, 3));
  }

  lemma CollapseFour(a: MergeItem, p: MergeItem, q: MergeItem, m: MergeItem)
    requires a.entry.key != p.entry.key && p.entry.key == q.entry.key && q.entry.key != m.entry.key
    ensures Collapse([a, p, q, m]) == [a.entry, q.entry, m.entry]
  {
    hide Collapse;
    CollapseSnoc([], a);
    CollapseSnoc([a], p);
    CollapseSnoc([a, p], q);
    CollapseSnoc([a, p, q], m);
    FillNone(KeyOnly(), []);
    assert [] + [a] == [a] && [a] + [p] == [a, p] && [a, p] + [q] == [a, p, q] && [a, p, q] + [m] == [a, p, q, m];
  }

  // ---------- Merging table files ----------

  /** The runs the readers of these tables yield. */
  function Scans(tables: seq<SSTable>): (runs: seq<Run>)
    ensures |runs| == |tables|
    ensures forall i :: 0 <= i < |runs| ==> runs[i] == Scan(tables[i].file)
  {
    seq(|tables|, i requires 0 <= i < |tables| => Scan(tables[i].file))
  }

  function MergedTable(ties: Ties, tables: seq<SSTable>, fileID: nat): SSTable {
    WriteTable(Merge(ties, Scans(tables)), fileID, 1)
  }

  function Contents(tables: seq<SSTable>): (ms: seq<Table>)
    ensures |ms| == |tables|
    ensures forall i :: 0 <= i < |ms| ==> ms[i] == Content(tables[i])
  {
    seq(|tables|, i requires 0 <= i < |tables| => Content(tables[i]))
  }

  ghost predicate AllWellFormed(tables: seq<SSTable>) {
    forall i :: 0 <= i < |tables| ==> WellFormed(tables[i])
  }

  /** The answer of the newest table that finds the key, searching from the end of the list. */
  function SearchTables(tables: seq<SSTable>, k: Key): Option<Entry> {
    if tables == [] then None
    else match Find(tables[|tables| - 1], k)
      case Some(e) => Some(e)
      case None => SearchTables(tables[..|tables| - 1], k)
  }

  lemma {:induction false} SearchIsUnion(tables: seq<SSTable>, k: Key)
    ensures SearchTables(tables, k) == Lookup(Union(Contents(tables)), k)
  {
    hide Find, Content;
    if tables != [] {
      var n := |tables| - 1;
      SearchIsUnion(tables[..n], k);
      ContentLookup(tables[n], k);
      assert Contents(tables)[..n] == Contents(tables[..n]);
    }
  }

  lemma WellFormedRuns(tables: seq<SSTable>)
    requires AllWellFormed(tables)
    ensures SortedRuns(Scans(tables)) && Maps(Scans(tables)) == Contents(tables)
  {
    hide Content, Scan, ToMap;
    forall i | 0 <= i < |tables| ensures StrictlySorted(Scans(tables)[i]) && Maps(Scans(tables))[i] == Contents(tables)[i] {
      WellFormedContent(tables[i]);
      WellFormedIsSorted(tables[i]);
    }
  }

  lemma WellFormedIsSorted(t: SSTable)
    requires WellFormed(t)
    ensures StrictlySorted(Scan(t.file))
  {
  }

  /** Every entry of the merge fits its length fields, since it was read from a table. */
  lemma MergeFits(ties: Ties, tables: seq<SSTable>)
    requires SortedRuns(Scans(tables))
    ensures AllFit(Merge(ties, Scans(tables)))
    ensures StrictlySorted(Merge(ties, Scans(tables)))
  {
    hide ToMap, Scan, StrictlySorted, Collapse, MergePops;
    var runs := Scans(tables);
    var ps := MergePops(ties, runs);
    MergePopsInOrder(ties, runs);
    CollapseSorted(ties, ps);
    forall i | 0 <= i < |Collapse(ps)| ensures Fits(Collapse(ps)[i]) {
      hide PopOrder, Fits;
      var e := Collapse(ps)[i];
      assert e in Collapse(ps);
      SortedHolds(Collapse(ps), e);
      var w := WinnerOfPops(ties, runs, ps, e.key);
      SortedHolds(runs[w], e);
      assert AllFit(Scan(tables[w].file));
    }
  }

  /** Merging table files newest-wins and writing the result yields a well-formed table that holds exactly
      the right-biased union of the tables. */
  lemma MergedIsUnion(tables: seq<SSTable>, fileID: nat)
    requires AllWellFormed(tables)
    ensures WellFormed(MergedTable(BySource(), tables, fileID))
    ensures Content(MergedTable(BySource(), tables, fileID)) == Union(Contents(tables))
  {
    hide *;
    WellFormedRuns(tables);
    MergeFits(BySource(), tables);
    MergeIsUnion(Scans(tables));
    WrittenIsWellFormed(Merge(BySource(), Scans(tables)), fileID, 1);
    MergedTableIsWritten(BySource(), tables, fileID);
  }

  /** The same with the comparison as it stands, for tables that agree on the keys they share. */
  lemma KeyOnlyMergedIsUnion(tables: seq<SSTable>, fileID: nat)
    requires AllWellFormed(tables) && SharedKeysAgree(Scans(tables))
    ensures WellFormed(MergedTable(KeyOnly(), tables, fileID))
    ensures Content(MergedTable(KeyOnly(), tables, fileID)) == Union(Contents(tables))
  {
    hide *;
    WellFormedRuns(tables);
    MergeFits(KeyOnly(), tables);
    MergePopsInOrder(KeyOnly(), Scans(tables));
    AgreeingRunsMerge(Scans(tables), MergePops(KeyOnly(), Scans(tables)));
    MergeIsCollapse(KeyOnly(), Scans(tables));
    WrittenIsWellFormed(Merge(KeyOnly(), Scans(tables)), fileID, 1);
    MergedTableIsWritten(KeyOnly(), tables, fileID);
  }

  lemma MergeIsCollapse(ties: Ties, runs: seq<Run>)
    ensures Merge(ties, runs) == Collapse(MergePops(ties, runs))
  {
  }

  lemma MergedTableIsWritten(ties: Ties, tables: seq<SSTable>, fileID: nat)
    ensures MergedTable(ties, tables, fileID) == WriteTable(Merge(ties, Scans(tables)), fileID, 1)
  {
  }

  /** A table that holds exactly the keys of the given ones, each with an entry that one of them holds. */
  ghost predicate Chosen(m: Table, ms: seq<Table>) {
    && (forall k :: k in m <==> k in Union(ms))
    && forall k :: k in m ==> exists i :: 0 <= i < |ms| && k in ms[i] && ms[i][k] == m[k]
  }

  /** Whatever the tie rule, merging table files loses no key, invents none, and keeps for every key an entry
      that one of the files holds. */
  lemma MergedIsChosen(ties: Ties, tables: seq<SSTable>, fileID: nat)
    requires AllWellFormed(tables)
    ensures WellFormed(MergedTable(ties, tables, fileID))
    ensures Chosen(Content(MergedTable(ties, tables, fileID)), Contents(tables))
  {
    hide *;
    WellFormedRuns(tables);
    MergeFits(ties, tables);
    WrittenIsWellFormed(Merge(ties, Scans(tables)), fileID, 1);
    MergedTableIsWritten(ties, tables, fileID);
    MergeIsChosen(ties, Scans(tables));
  }

  lemma MergeIsChosen(ties: Ties, runs: seq<Run>)
    requires SortedRuns(runs)
    ensures Chosen(ToMap(Merge(ties, runs)), Maps(runs))
  {
    hide ToMap, Collapse, PopOrder, Union, MergePops, SortedRuns;
    var ps := MergePops(ties, runs);
    MergePopsInOrder(ties, runs);
    forall k ensures k in ToMap(Collapse(ps)) <==> k in Union(Maps(runs)) {
      var w := WinnerOfPops(ties, runs, ps, k);
      UnionKeys(Maps(runs), k);
    }
    forall k | k in ToMap(Collapse(ps))
      ensures exists i :: 0 <= i < |Maps(runs)| && k in Maps(runs)[i] && Maps(runs)[i][k] == ToMap(Collapse(ps))[k]
    {
      var w := WinnerOfPops(ties, runs, ps, k);
      assert k in Maps(runs)[w];
    }
  }

  /** Point lookup in the merged file answers every key, tombstones included, as a newest-to-oldest search
      of the original files does. */
  lemma MergedFindsAsOriginals(tables: seq<SSTable>, fileID: nat, k: Key)
    requires AllWellFormed(tables)
    ensures Find(MergedTable(BySource(), tables, fileID), k) == SearchTables(tables, k)
  {
    hide *;
    MergedIsUnion(tables, fileID);
    ContentLookup(MergedTable(BySource(), tables, fileID), k);
    SearchIsUnion(tables, k);
  }

  // ---------- The merge loop ----------

  ghost predicate Distinct(iters: seq<SSTableReader>) {
    forall i, j :: 0 <= i < j < |iters| ==> iters[i] != iters[j]
  }

  ghost function Remaining(iters: seq<SSTableReader>): (runs: seq<Run>)
    reads iters
    ensures |runs| == |iters|
    ensures forall i :: 0 <= i < |runs| ==> runs[i] == Scan(iters[i].unread)
  {
    seq(|iters|, i requires 0 <= i < |iters| reads iters => Scan(iters[i].unread))
  }

  /** One reader's `Next`, followed by a push of what it yields. */
  method Feed(ties: Ties, iters: seq<SSTableReader>, heap: Heap, s: nat) returns (heap': Heap)
    requires s < |iters| && Distinct(iters)
    modifies iters[s]
    ensures (Remaining(iters), heap') == Advance(ties, old(Remaining(iters)), heap, s)
  {
    hide NextEntry, Push;
    var e := iters[s].Next();
    heap' := if e.Some? then Push(ties, heap, MergeItem(e.value, s)) else heap;
    ScanNext(old(iters[s].unread));
    ghost var before := old(Remaining(iters));
    assert e.Some? <==> before[s] != [];
    assert forall i :: 0 <= i < |iters| && i != s ==> iters[i].unread == old(iters[i].unread);
    assert Remaining(iters) == before[s := Scan(iters[s].unread)];
    assert before[s] == [] ==> before[s := []] == before;
  }

  lemma ScanNext(b: seq<Entries.Byte>)
    ensures NextEntry(b) == None ==> Scan(b) == [] && Scan([]) == []
    ensures NextEntry(b).Some? ==> Scan(b) != [] && Scan(b)[0] == NextEntry(b).value.0 && Scan(b)[1..] == Scan(NextEntry(b).value.1)
  {
    NextOfNothing();
  }

  /** Every reader contributes its first entry. */
  method FillHeap(ties: Ties, iters: seq<SSTableReader>) returns (mh: Heap)
    requires Distinct(iters)
    modifies iters
    ensures |Remaining(iters)| == |iters|
    ensures (Remaining(iters), mh) == Fill(ties, old(Remaining(iters)), |iters|)
    ensures forall x :: x in mh ==> x.source < |iters|
  {
    hide *;
    ghost var runs := Remaining(iters);
    mh := [];
    FillNone(ties, runs);
    for i := 0 to |iters|
      invariant |Remaining(iters)| == |iters| && |runs| == |iters|
      invariant (Remaining(iters), mh) == Fill(ties, runs, i)
      invariant forall x :: x in mh ==> x.source < |iters|
    {
      AdvanceSources(ties, Remaining(iters), mh, i);
      FillOneMore(ties, runs, i);
      mh := Feed(ties, iters, mh, i);
    }
  }

  method MergeIterators(ties: Ties, iters: seq<SSTableReader>) returns (entries: seq<Entry>)
    requires Distinct(iters)
    modifies iters
    ensures entries == Merge(ties, old(Remaining(iters)))
  {
    hide *;
    ghost var runs := Remaining(iters);
    var mh := FillHeap(ties, iters);
    entries := [];
    var lastKey: Key := [];
    ghost var popped: seq<MergeItem> := [];
    MergePopsFrom(ties, runs, Remaining(iters), mh);
    FillNone(ties, runs);
    while |mh| > 0
      invariant |Remaining(iters)| == |iters|
      invariant MergePops(ties, runs) == popped + Pops(ties, Remaining(iters), mh)
      invariant forall x :: x in mh ==> x.source < |iters|
      invariant entries == Collapse(popped)
      invariant entries != [] ==> lastKey == entries[|entries| - 1].key
      decreases |mh| + Unread(Remaining(iters))
    {
      ghost var rest, heap := Remaining(iters), mh;
      var (top, h) := Pop(ties, mh);
      PopStepUnfolds(ties, rest, heap, popped);
      if |entries| > 0 && lastKey == top.entry.key {
        entries := entries[|entries| - 1 := top.entry];
      } else {
        entries := entries + [top.entry];
        lastKey := top.entry.key;
      }
      mh := Feed(ties, iters, h, top.source);
      popped := popped + [top];
    }
    PopsDone(ties, Remaining(iters));
    assert MergePops(ties, runs) == popped;
    MergeIsCollapse(ties, runs);
  }

  /** One turn of the merge loop, seen from the heap, the runs and the items popped so far. */
  lemma PopStepUnfolds(ties: Ties, rest: seq<Run>, heap: Heap, popped: seq<MergeItem>)
    requires heap != [] && forall x :: x in heap ==> x.source < |rest|
    ensures var (top, h) := Pop(ties, heap); var (rest', heap') := Advance(ties, rest, h, top.source);
      && top.source < |rest|
      && (forall x :: x in heap' ==> x.source < |rest|)
      && |heap'| + Unread(rest') < |heap| + Unread(rest)
      && popped + Pops(ties, rest, heap) == (popped + [top]) + Pops(ties, rest', heap')
      && Collapse(popped + [top]) ==
         (var out := Collapse(popped);
          if out != [] && out[|out| - 1].key == top.entry.key then out[|out| - 1 := top.entry] else out + [top.entry])
  {
    hide *;
    var (top, h) := Pop(ties, heap);
    AdvanceMeasure(ties, rest, heap);
    PopMembers(ties, heap);
    assert top in heap;
    PopsUnfold(ties, rest, heap);
    CollapseSnoc(popped, top);
    AdvanceSources(ties, rest, h, top.source);
    var (rest', heap') := Advance(ties, rest, h, top.source);
    assert popped + ([top] + Pops(ties, rest', heap')) == (popped + [top]) + Pops(ties, rest', heap');
  }

  lemma FillNone(ties: Ties, runs: seq<Run>)
    ensures Fill(ties, runs, 0) == (runs, []) && Collapse([]) == []
  {
  }

  lemma FillOneMore(ties: Ties, runs: seq<Run>, i: nat)
    requires i < |runs|
    ensures Fill(ties, runs, i + 1) == (var (rest, heap) := Fill(ties, runs, i); Advance(ties, rest, heap, i))
  {
    hide Advance;
  }

  lemma MergePopsFrom(ties: Ties, runs: seq<Run>, rest: seq<Run>, heap: Heap)
    requires Fill(ties, runs, |runs|) == (rest, heap)
    ensures MergePops(ties, runs) == [] + Pops(ties, rest, heap)
  {
    hide Fill, Pops;
  }

  lemma PopsUnfold(ties: Ties, rest: seq<Run>, heap: Heap)
    requires heap != []
    ensures var (top, h) := Pop(ties, heap); var (rest', heap') := Advance(ties, rest, h, top.source);
      Pops(ties, rest, heap) == [top] + Pops(ties, rest', heap')
  {
    hide Pop, Advance;
    AdvanceMeasure(ties, rest, heap);
  }

  lemma PopsDone(ties: Ties, rest: seq<Run>)
    ensures Pops(ties, rest, []) == []
  {
  }

  lemma CollapseSnoc(ps: seq<MergeItem>, x: MergeItem)
    ensures Collapse(ps + [x]) ==
            (var out := Collapse(ps);
             if out != [] && out[|out| - 1].key == x.entry.key then out[|out| - 1 := x.entry] else out + [x.entry])
  {
    assert (ps + [x])[..|ps|] == ps;
  }

  lemma AdvanceSources(ties: Ties, rest: seq<Run>, h: Heap, s: nat)
    requires s < |rest| && forall x :: x in h ==> x.source < |rest|
    ensures forall x :: x in Advance(ties, rest, h, s).1 ==> x.source < |rest|
  {
    if rest[s] != [] { PushMembers(ties, h, MergeItem(rest[s][0], s)); }
  }

  method CreateIterators(tables: seq<SSTable>) returns (iters: seq<SSTableReader>)
    ensures Distinct(iters) && Remaining(iters) == Scans(tables)
    ensures forall j :: 0 <= j < |iters| ==> fresh(iters[j])
  {
    hide Scan;
    iters := [];
    for i := 0 to |tables|
      invariant |iters| == i && Distinct(iters)
      invariant forall j :: 0 <= j < i ==> fresh(iters[j]) && iters[j].unread == tables[j].file
    {
      var iter := new SSTableReader(tables[i].file);
      iters := iters + [iter];
    }
  }

  /** Opens a reader per table and merges what they yield. */
  method MergeFiles(ties: Ties, tables: seq<SSTable>) returns (entries: seq<Entry>)
    ensures entries == Merge(ties, Scans(tables))
  {
    hide *;
    var iters := CreateIterators(tables);
    entries := MergeIterators(ties, iters);
  }

  /** Reads the tables, merges them and writes the result to a new level-1 file. A file that cannot be
      opened or created ends the merge with an error and without a trace. */
  method PerformMerge(ties: Ties, tables: seq<SSTable>, fileID: nat, filesUsable: bool, bloom: SharedBloomFilter)
    returns (merged: Option<SSTable>)
    requires bloom.Valid()
    modifies bloom.shards
    ensures merged == if filesUsable then Some(MergedTable(ties, tables, fileID)) else None
    ensures merged.Some? ==> merged.value.meta.level == 1 && merged.value.meta.fileID == fileID
    ensures bloom.Valid()
    ensures bloom.Value() == if filesUsable then old(bloom.Value()).AddAll(fileID, Merge(ties, Scans(tables))) else old(bloom.Value())
  {
    if !filesUsable { return None; }
    hide *;
    MergedTableIsWritten(ties, tables, fileID);
    var entries := MergeFiles(ties, tables);
    var t := WriteSortedStringTableToDisk(entries, fileID, 1, bloom);
    merged := Some(t);
  }
}
