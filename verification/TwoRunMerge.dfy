/** The merge of two runs by the heap as it stands: which run wins a shared key, exactly. */
module TwoRunMerge {
  import opened Entries
  import opened MergeHeap
  import opened Compaction

  // ---------- The order in which two runs leave the heap ----------

  /** Of the heads of two runs the older run's comes out first if its key is smaller, or if the keys are equal and
      the newer run's head was pushed last. */
  predicate OlderFirst(x: Run, y: Run, newerLast: bool)
    requires x != [] && y != []
  {
    Below(x[0].key, y[0].key) || (x[0].key == y[0].key && newerLast)
  }

  function Zip(x: Run, y: Run, newerLast: bool): seq<MergeItem>
    decreases |x| + |y|
  {
    if x == [] && y == [] then []
    else if y == [] || (x != [] && OlderFirst(x, y, newerLast)) then [MergeItem(x[0], 0)] + Zip(x[1..], y, false)
    else [MergeItem(y[0], 1)] + Zip(x, y[1..], true)
  }

  function Rest(x: Run): Run {
    if x == [] then [] else x[1..]
  }

  /** The heap that holds the heads of two runs. */
  function Heads(x: Run, y: Run, newerLast: bool): Heap {
    if x == [] && y == [] then []
    else if y == [] then [MergeItem(x[0], 0)]
    else if x == [] then [MergeItem(y[0], 1)]
    else if OlderFirst(x, y, newerLast) then [MergeItem(x[0], 0), MergeItem(y[0], 1)]
    else [MergeItem(y[0], 1), MergeItem(x[0], 0)]
  }

  lemma PushPop(ties: Ties, p: MergeItem, q: MergeItem)
    ensures Push(ties, [], p) == [p] && Pop(ties, [p]) == (p, [])
    ensures Push(ties, [p], q) == if Less(ties, q, p) then [q, p] else [p, q]
    ensures Pop(ties, [p, q]) == (p, [q])
  {
    assert [] + [p] == [p] && [p] + [q] == [p, q];
    assert Swap([p, q], 0, 1) == [q, p];
    assert Down(ties, [q, p], 0, 1) == [q, p];
    assert [q, p][..1] == [q];
    assert Swap([p], 0, 0) == [p];
    assert Down(ties, [p], 0, 0) == [p];
    assert [p][..0] == [];
    assert Up(ties, [q, p], 0) == [q, p];
  }

  /** The next head joins the heap behind the other run's head unless its key is smaller. */
  lemma AdvanceOlder(x: Run, y: Run)
    requires x != []
    ensures Advance(KeyOnly(), [x[1..], Rest(y)], if y == [] then [] else [MergeItem(y[0], 1)], 0)
      == ([Rest(x[1..]), Rest(y)], Heads(x[1..], y, false))
  {
    hide Push, Below;
    var rest: seq<Run> := [x[1..], Rest(y)];
    assert x[1..] != [] ==> rest[0 := x[1..][1..]] == [x[1..][1..], Rest(y)];
    var q := if x[1..] != [] then MergeItem(x[1], 0) else MergeItem(x[0], 0);
    PushPop(KeyOnly(), if y == [] then q else MergeItem(y[0], 1), q);
  }

  lemma NewerBehind(p: MergeItem, q: MergeItem)
    ensures Less(KeyOnly(), q, p) <==> !(Below(p.entry.key, q.entry.key) || p.entry.key == q.entry.key)
  {
    hide Below;
    BelowTotal(p.entry.key, q.entry.key);
    if Below(q.entry.key, p.entry.key) { BelowAsymmetric(q.entry.key, p.entry.key); }
    BelowIrreflexive(p.entry.key);
  }

  lemma AdvanceNewer(x: Run, y: Run)
    requires y != []
    ensures Advance(KeyOnly(), [Rest(x), y[1..]], if x == [] then [] else [MergeItem(x[0], 0)], 1)
      == ([Rest(x), Rest(y[1..])], Heads(x, y[1..], true))
  {
    hide Push, Below, Less;
    var rest: seq<Run> := [Rest(x), y[1..]];
    var tail := y[1..];
    if tail == [] {
      assert rest[1] == [] && rest == [Rest(x), Rest(tail)];
    } else {
      var q := MergeItem(tail[0], 1);
      assert rest[1] == tail && rest[1 := tail[1..]] == [Rest(x), Rest(tail)];
      if x == [] {
        PushPop(KeyOnly(), q, q);
      } else {
        PushPop(KeyOnly(), MergeItem(x[0], 0), q);
        NewerBehind(MergeItem(x[0], 0), q);
      }
    }
  }

  lemma {:induction false} PopsAreZip(x: Run, y: Run, newerLast: bool)
    ensures Pops(KeyOnly(), [Rest(x), Rest(y)], Heads(x, y, newerLast)) == Zip(x, y, newerLast)
    decreases |x| + |y|
  {
    hide Push, Pop, Advance, OlderFirst;
    var ties, rest, heap := KeyOnly(), [Rest(x), Rest(y)], Heads(x, y, newerLast);
    if x == [] && y == [] {
      PopsDone(ties, rest);
    } else {
      PopsUnfold(ties, rest, heap);
      if y == [] || (x != [] && OlderFirst(x, y, newerLast)) {
        PushPop(ties, MergeItem(x[0], 0), if y == [] then MergeItem(x[0], 0) else MergeItem(y[0], 1));
        AdvanceOlder(x, y);
        PopsAreZip(x[1..], y, false);
      } else {
        PushPop(ties, MergeItem(y[0], 1), if x == [] then MergeItem(y[0], 1) else MergeItem(x[0], 0));
        AdvanceNewer(x, y);
        PopsAreZip(x, y[1..], true);
      }
    }
  }

  lemma FillFirst(x: Run, y: Run)
    ensures Advance(KeyOnly(), [x, y], [], 0) == ([Rest(x), y], if x == [] then [] else [MergeItem(x[0], 0)])
  {
    hide Push;
    var runs: seq<Run> := [x, y];
    assert runs[0 := Rest(x)] == [Rest(x), y];
    if x != [] { PushPop(KeyOnly(), MergeItem(x[0], 0), MergeItem(x[0], 0)); }
  }

  lemma FillIsHeads(x: Run, y: Run)
    ensures Fill(KeyOnly(), [x, y], 2) == ([Rest(x), Rest(y)], Heads(x, y, true))
  {
    hide Advance, Heads, Fill;
    FillNone(KeyOnly(), [x, y]);
    FillOneMore(KeyOnly(), [x, y], 0);
    FillFirst(x, y);
    FillOneMore(KeyOnly(), [x, y], 1);
    var before := [Entry([], [], 0, false)] + y;
    assert before[1..] == y;
    AdvanceNewer(x, before);
  }

  lemma MergePopsAreZip(x: Run, y: Run)
    ensures MergePops(KeyOnly(), [x, y]) == Zip(x, y, true)
  {
    hide *;
    FillIsHeads(x, y);
    PopsAreZip(x, y, true);
    MergePopsFrom(KeyOnly(), [x, y], [Rest(x), Rest(y)], Heads(x, y, true));
    assert [] + Pops(KeyOnly(), [Rest(x), Rest(y)], Heads(x, y, true)) == Zip(x, y, true);
  }

  // ---------- What the overwriting leaves ----------

  lemma {:induction false} PopEntriesFirst(p: MergeItem, ps: seq<MergeItem>)
    ensures PopEntries([p] + ps) == [p.entry] + PopEntries(ps)
    decreases |ps|
  {
    if ps == [] {
      assert [p] + ps == [p] && [p][..0] == [];
    } else {
      var n := |ps| - 1;
      PopEntriesFirst(p, ps[..n]);
      assert ([p] + ps)[..n + 1] == [p] + ps[..n];
    }
  }

  function ZipMap(x: Run, y: Run, newerLast: bool): Table {
    ToMap(PopEntries(Zip(x, y, newerLast)))
  }

  lemma ZipMapFirst(p: MergeItem, ps: seq<MergeItem>)
    ensures ToMap(PopEntries([p] + ps)) == map[p.entry.key := p.entry] + ToMap(PopEntries(ps))
  {
    hide ToMap, PopEntries;
    PopEntriesFirst(p, ps);
    ToMapAppend([p.entry], PopEntries(ps));
    ToMapOne(p.entry);
  }

  lemma ToMapOne(e: Entry)
    ensures ToMap([e]) == map[e.key := e] && ToMap([]) == map[]
  {
    assert [e][..0] == [];
  }

  /** A sorted run's head and tail. */
  lemma HeadAndTail(x: Run)
    requires x != [] && StrictlySorted(x)
    ensures StrictlySorted(x[1..]) && ToMap(x) == map[x[0].key := x[0]] + ToMap(x[1..])
    ensures forall k :: k in ToMap(x[1..]) ==> Below(x[0].key, k)
    ensures x[0].key !in ToMap(x[1..])
  {
    hide ToMap, Below;
    TailAbove(x);
    hide StrictlySorted;
    assert x == [x[0]] + x[1..];
    ToMapAppend([x[0]], x[1..]);
    ToMapOne(x[0]);
    BelowIrreflexive(x[0].key);
  }

  lemma TailAbove(x: Run)
    requires x != [] && StrictlySorted(x)
    ensures StrictlySorted(x[1..]) && forall k :: k in ToMap(x[1..]) ==> Below(x[0].key, k)
  {
    hide ToMap, Below;
    forall k | k in ToMap(x[1..]) ensures Below(x[0].key, k) {
      var i :| 0 <= i < |x[1..]| && x[1..][i] == ToMap(x[1..])[k];
      assert x[i + 1].key == k;
    }
  }

  lemma KeysFirst(k: Key, e: Entry, m: Table)
    ensures (map[k := e] + m).Keys == {k} + m.Keys
  {
  }

  /** The newer run wins every shared key on which the runs disagree. */
  predicate NewerWins(x: Run, y: Run, newerLast: bool)
    decreases |x| + |y|
  {
    if x == [] || y == [] then true
    else if Below(x[0].key, y[0].key) then NewerWins(x[1..], y, false)
    else if Below(y[0].key, x[0].key) then NewerWins(x, y[1..], true)
    else (newerLast || x[0] == y[0]) && NewerWins(x[1..], y[1..], newerLast)
  }

  lemma ZipMapSteps(x: Run, y: Run, newerLast: bool)
    ensures x != [] && (y == [] || OlderFirst(x, y, newerLast)) ==>
      ZipMap(x, y, newerLast) == map[x[0].key := x[0]] + ZipMap(x[1..], y, false)
    ensures y != [] && (x == [] || !OlderFirst(x, y, newerLast)) ==>
      ZipMap(x, y, newerLast) == map[y[0].key := y[0]] + ZipMap(x, y[1..], true)
    ensures x == [] && y == [] ==> ZipMap(x, y, newerLast) == map[] && ToMap(x) == map[]
  {
    hide ToMap, PopEntries, OlderFirst;
    ToMapOne(Entry([], [], 0, false));
    NoPops();
    if x != [] { ZipMapFirst(MergeItem(x[0], 0), Zip(x[1..], y, false)); }
    if y != [] { ZipMapFirst(MergeItem(y[0], 1), Zip(x, y[1..], true)); }
  }

  lemma {:induction false} ZipKeys(x: Run, y: Run, newerLast: bool)
    requires StrictlySorted(x) && StrictlySorted(y)
    ensures ZipMap(x, y, newerLast).Keys == ToMap(x).Keys + ToMap(y).Keys
    decreases |x| + |y|
  {
    hide ToMap, PopEntries, Below, OlderFirst, StrictlySorted, Zip, ZipMap;
    ZipMapSteps(x, y, newerLast);
    if x == [] && y == [] {
    } else if y == [] || (x != [] && OlderFirst(x, y, newerLast)) {
      HeadAndTail(x);
      ZipKeys(x[1..], y, false);
      KeysFirst(x[0].key, x[0], ToMap(x[1..]));
      KeysFirst(x[0].key, x[0], ZipMap(x[1..], y, false));
    } else {
      HeadAndTail(y);
      ZipKeys(x, y[1..], true);
      KeysFirst(y[0].key, y[0], ToMap(y[1..]));
      KeysFirst(y[0].key, y[0], ZipMap(x, y[1..], true));
    }
  }

  lemma SameFirst(a: Table, b: Table, k: Key, e: Entry)
    requires k !in a && k !in b
    ensures map[k := e] + a == map[k := e] + b <==> a == b
  {
    if map[k := e] + a == map[k := e] + b {
      forall j ensures j in a <==> j in b { assert j in map[k := e] + a <==> j in map[k := e] + b; }
      forall j | j in a ensures a[j] == b[j] { assert (map[k := e] + a)[j] == (map[k := e] + b)[j]; }
      assert a == b;
    }
  }

  lemma LaidOver(k: Key, e: Entry, f: Entry, a: Table, b: Table)
    ensures k !in b ==> (map[k := e] + a) + b == map[k := e] + (a + b)
    ensures k !in a ==> a + (map[k := f] + b) == map[k := f] + (a + b)
    ensures k !in a ==> (map[k := e] + a) + (map[k := f] + b) == map[k := f] + (a + b)
    ensures map[k := e] + (map[k := f] + a) == map[k := f] + a
  {
  }

  lemma {:induction false} ZipIsUnionIff(x: Run, y: Run, newerLast: bool)
    requires StrictlySorted(x) && StrictlySorted(y)
    ensures ZipMap(x, y, newerLast) == ToMap(x) + ToMap(y) <==> NewerWins(x, y, newerLast)
    decreases |x| + |y|
  {
    hide ToMap, PopEntries, Below, StrictlySorted, ZipMap, Zip;
    ToMapOne(Entry([], [], 0, false));
    if x == [] || y == [] {
      OneRun(x, y, newerLast);
    } else {
      BelowTotal(x[0].key, y[0].key);
      BelowIrreflexive(x[0].key);
      HeadAndTail(x);
      HeadAndTail(y);
      if Below(x[0].key, y[0].key) {
        SmallerFirst(x, y, newerLast);
        ZipIsUnionIff(x[1..], y, false);
      } else if Below(y[0].key, x[0].key) {
        SmallerSecond(x, y, newerLast);
        ZipIsUnionIff(x, y[1..], true);
      } else {
        EqualHeads(x, y, newerLast);
        ZipIsUnionIff(x[1..], y[1..], newerLast);
      }
    }
  }

  lemma {:induction false} ZipOfOne(x: Run, newerLast: bool)
    ensures PopEntries(Zip(x, [], newerLast)) == x && PopEntries(Zip([], x, newerLast)) == x
    decreases |x|
  {
    hide PopEntries;
    if x == [] {
      NoPops();
    } else {
      assert x == [x[0]] + x[1..];
      PopEntriesFirst(MergeItem(x[0], 0), Zip(x[1..], [], false));
      PopEntriesFirst(MergeItem(x[0], 1), Zip([], x[1..], true));
      ZipOfOne(x[1..], false);
      ZipOfOne(x[1..], true);
    }
  }

  lemma NoPops()
    ensures PopEntries([]) == []
  {
  }

  lemma OneRun(x: Run, y: Run, newerLast: bool)
    requires x == [] || y == []
    ensures ZipMap(x, y, newerLast) == ToMap(x) + ToMap(y)
  {
    hide ToMap, PopEntries, Zip;
    ToMapOne(Entry([], [], 0, false));
    ZipOfOne(if x == [] then y else x, newerLast);
    assert map[] + ToMap(y) == ToMap(y) && ToMap(x) + map[] == ToMap(x);
  }

  lemma NotIn(x: Run, k: Key)
    requires x != [] && StrictlySorted(x) && Below(k, x[0].key)
    ensures k !in ToMap(x)
  {
    hide ToMap, Below;
    if k in ToMap(x) {
      var i :| 0 <= i < |x| && x[i] == ToMap(x)[k];
      if i > 0 { BelowTransitive(k, x[0].key, x[i].key); }
      BelowIrreflexive(k);
    }
  }

  lemma SmallerFirst(x: Run, y: Run, newerLast: bool)
    requires x != [] && y != [] && StrictlySorted(x) && StrictlySorted(y) && Below(x[0].key, y[0].key)
    ensures ZipMap(x, y, newerLast) == ToMap(x) + ToMap(y) <==> ZipMap(x[1..], y, false) == ToMap(x[1..]) + ToMap(y)
  {
    hide ToMap, PopEntries, Below, StrictlySorted;
    var k := x[0].key;
    HeadAndTail(x);
    NotIn(y, k);
    ZipKeys(x[1..], y, false);
    ZipMapFirst(MergeItem(x[0], 0), Zip(x[1..], y, false));
    LaidOver(k, x[0], x[0], ToMap(x[1..]), ToMap(y));
    SameFirst(ZipMap(x[1..], y, false), ToMap(x[1..]) + ToMap(y), k, x[0]);
  }

  lemma SmallerSecond(x: Run, y: Run, newerLast: bool)
    requires x != [] && y != [] && StrictlySorted(x) && StrictlySorted(y) && Below(y[0].key, x[0].key)
    ensures ZipMap(x, y, newerLast) == ToMap(x) + ToMap(y) <==> ZipMap(x, y[1..], true) == ToMap(x) + ToMap(y[1..])
  {
    hide ToMap, PopEntries, Below, StrictlySorted;
    var k := y[0].key;
    BelowAsymmetric(y[0].key, x[0].key);
    BelowIrreflexive(x[0].key);
    HeadAndTail(y);
    NotIn(x, k);
    ZipKeys(x, y[1..], true);
    ZipMapFirst(MergeItem(y[0], 1), Zip(x, y[1..], true));
    LaidOver(k, y[0], y[0], ToMap(x), ToMap(y[1..]));
    SameFirst(ZipMap(x, y[1..], true), ToMap(x) + ToMap(y[1..]), k, y[0]);
  }

  /** With equal heads the run whose head was pushed last has its entry kept, and its next head is pushed last
      again. */
  lemma ZipEqual(x: Run, y: Run, newerLast: bool)
    requires x != [] && y != [] && StrictlySorted(x) && StrictlySorted(y) && x[0].key == y[0].key
    ensures var (p, q) := (MergeItem(x[0], 0), MergeItem(y[0], 1));
      Zip(x, y, newerLast) == (if newerLast then [p] + ([q] + Zip(x[1..], y[1..], true))
                               else [q] + ([p] + Zip(x[1..], y[1..], false)))
  {
    hide Below;
    BelowIrreflexive(x[0].key);
    if newerLast {
      if |x| > 1 { BelowAsymmetric(x[0].key, x[1].key); }
      assert Zip(x[1..], y, false) == [MergeItem(y[0], 1)] + Zip(x[1..], y[1..], true);
    } else {
      if |y| > 1 { assert Below(y[0].key, y[1].key); }
      assert Zip(x, y[1..], true) == [MergeItem(x[0], 0)] + Zip(x[1..], y[1..], false);
    }
  }

  lemma EqualHeads(x: Run, y: Run, newerLast: bool)
    requires x != [] && y != [] && StrictlySorted(x) && StrictlySorted(y) && x[0].key == y[0].key
    ensures ZipMap(x, y, newerLast) == ToMap(x) + ToMap(y) <==>
      (newerLast || x[0] == y[0]) && ZipMap(x[1..], y[1..], newerLast) == ToMap(x[1..]) + ToMap(y[1..])
  {
    hide ToMap, PopEntries, Below, StrictlySorted, Zip;
    var k := x[0].key;
    var (p, q) := (MergeItem(x[0], 0), MergeItem(y[0], 1));
    var tail := Zip(x[1..], y[1..], newerLast);
    ZipEqual(x, y, newerLast);
    HeadAndTail(x);
    HeadAndTail(y);
    ZipKeys(x[1..], y[1..], newerLast);
    var (first, last) := if newerLast then (p, q) else (q, p);
    ZipMapFirst(first, [last] + tail);
    ZipMapFirst(last, tail);
    var a := ZipMap(x[1..], y[1..], newerLast);
    LaidOver(k, first.entry, last.entry, a, map[]);
    LaidOver(k, x[0], y[0], ToMap(x[1..]), ToMap(y[1..]));
    var b := ToMap(x[1..]) + ToMap(y[1..]);
    assert ZipMap(x, y, newerLast) == map[k := last.entry] + a;
    assert ToMap(x) + ToMap(y) == map[k := y[0]] + b;
    SameFirst(a, b, k, y[0]);
    assert (map[k := last.entry] + a)[k] == last.entry && (map[k := y[0]] + b)[k] == y[0];
  }

  // ---------- In terms of the keys ----------

  /** The key is in one table and not in the other. */
  predicate Alone(m: Table, n: Table, k: Key) {
    k in m && k !in n
  }

  /** The greatest key below k that only one of the tables holds is the newer one's, or there is none and the
      newer run's head was pushed last at the start. */
  ghost predicate NewerJustBelow(older: Table, newer: Table, newerLast: bool, k: Key) {
    && (newerLast || exists e :: Alone(newer, older, e) && Below(e, k))
    && forall d :: Alone(older, newer, d) && Below(d, k) ==> exists e :: Alone(newer, older, e) && Below(d, e) && Below(e, k)
  }

  ghost predicate Disputed(older: Table, newer: Table, k: Key) {
    k in older && k in newer && older[k] != newer[k]
  }

  ghost predicate AllNewer(older: Table, newer: Table, newerLast: bool) {
    forall k :: Disputed(older, newer, k) ==> NewerJustBelow(older, newer, newerLast, k)
  }

  lemma DropOlder(m: Table, n: Table, newerLast: bool, k: Key, e: Entry)
    requires k !in m && k !in n && (forall j :: j in m || j in n ==> Below(k, j))
    ensures AllNewer(map[k := e] + m, n, newerLast) <==> AllNewer(m, n, false)
  {
    hide Below;
    var m' := map[k := e] + m;
    forall j ensures Disputed(m', n, j) <==> Disputed(m, n, j) { }
    forall j | Disputed(m, n, j) ensures NewerJustBelow(m', n, newerLast, j) <==> NewerJustBelow(m, n, false, j) {
      assert Below(k, j);
      assert forall d :: Alone(n, m', d) <==> Alone(n, m, d);
      assert forall d :: Alone(m', n, d) <==> Alone(m, n, d) || d == k;
      assert forall d :: Alone(n, m, d) ==> Below(k, d);
    }
  }

  lemma DropNewer(m: Table, n: Table, newerLast: bool, k: Key, e: Entry)
    requires k !in m && k !in n && (forall j :: j in m || j in n ==> Below(k, j))
    ensures AllNewer(m, map[k := e] + n, newerLast) <==> AllNewer(m, n, true)
  {
    hide Below;
    var n' := map[k := e] + n;
    forall j ensures Disputed(m, n', j) <==> Disputed(m, n, j) { }
    forall j | Disputed(m, n, j) ensures NewerJustBelow(m, n', newerLast, j) <==> NewerJustBelow(m, n, true, j) {
      assert Below(k, j);
      assert forall d :: Alone(n', m, d) <==> Alone(n, m, d) || d == k;
      assert forall d :: Alone(m, n', d) <==> Alone(m, n, d);
      assert Alone(n', m, k) && Below(k, j);
      forall d | Alone(m, n, d) ensures !Below(d, k) { BelowAsymmetric(k, d); }
      forall d | Alone(m, n, d) && Below(d, j)
        ensures (exists e :: Alone(n', m, e) && Below(d, e) && Below(e, j)) <==>
                (exists e :: Alone(n, m, e) && Below(d, e) && Below(e, j))
      {
      }
    }
  }

  lemma DropBoth(m: Table, n: Table, newerLast: bool, k: Key, e: Entry, f: Entry)
    requires k !in m && k !in n && (forall j :: j in m || j in n ==> Below(k, j))
    ensures AllNewer(map[k := e] + m, map[k := f] + n, newerLast) <==>
      (newerLast || e == f) && AllNewer(m, n, newerLast)
  {
    hide Below;
    var m', n' := map[k := e] + m, map[k := f] + n;
    assert forall d :: Alone(n', m', d) <==> Alone(n, m, d);
    assert forall d :: Alone(m', n', d) <==> Alone(m, n, d);
    forall j | Disputed(m, n, j) ensures Disputed(m', n', j) && (NewerJustBelow(m', n', newerLast, j) <==> NewerJustBelow(m, n, newerLast, j)) {
    }
    forall j | Disputed(m', n', j) && j != k ensures Disputed(m, n, j) { }
    forall d | Alone(m, n, d) || Alone(n, m, d) ensures !Below(d, k) { BelowAsymmetric(k, d); }
    assert Disputed(m', n', k) <==> e != f;
    assert NewerJustBelow(m', n', newerLast, k) <==> newerLast;
  }

  lemma {:induction false} NewerWinsByKeys(x: Run, y: Run, newerLast: bool)
    requires StrictlySorted(x) && StrictlySorted(y)
    ensures NewerWins(x, y, newerLast) <==> AllNewer(ToMap(x), ToMap(y), newerLast)
    decreases |x| + |y|
  {
    hide ToMap, Below, StrictlySorted, NewerJustBelow;
    ToMapOne(Entry([], [], 0, false));
    if x != [] && y != [] {
      hide AllNewer;
      BelowTotal(x[0].key, y[0].key);
      BelowIrreflexive(x[0].key);
      HeadAndTail(x);
      HeadAndTail(y);
      if Below(x[0].key, y[0].key) {
        AllAbove(y, x[0].key);
        NewerWinsByKeys(x[1..], y, false);
        DropOlder(ToMap(x[1..]), ToMap(y), newerLast, x[0].key, x[0]);
      } else if Below(y[0].key, x[0].key) {
        AllAbove(x, y[0].key);
        NewerWinsByKeys(x, y[1..], true);
        DropNewer(ToMap(x), ToMap(y[1..]), newerLast, y[0].key, y[0]);
      } else {
        NewerWinsByKeys(x[1..], y[1..], newerLast);
        DropBoth(ToMap(x[1..]), ToMap(y[1..]), newerLast, x[0].key, x[0], y[0]);
      }
    }
  }

  lemma AllAbove(x: Run, k: Key)
    requires x != [] && StrictlySorted(x) && Below(k, x[0].key)
    ensures k !in ToMap(x) && forall j :: j in ToMap(x) ==> Below(k, j)
  {
    hide ToMap, Below;
    NotIn(x, k);
    forall j | j in ToMap(x) ensures Below(k, j) {
      var i :| 0 <= i < |x| && x[i] == ToMap(x)[j];
      if i > 0 { BelowTransitive(k, x[0].key, x[i].key); }
    }
  }

  /** The heap as it stands merges two runs newest-wins if and only if, for every key they share and disagree on,
      the greatest smaller key that only one of them holds is held by the newer run, or there is no such key. */
  lemma KeyOnlyMergeOfTwoIff(x: Run, y: Run)
    requires StrictlySorted(x) && StrictlySorted(y)
    ensures ToMap(Merge(KeyOnly(), [x, y])) == Union(Maps([x, y])) <==> AllNewer(ToMap(x), ToMap(y), true)
  {
    hide *;
    var ties := KeyOnly();
    BothSorted(x, y);
    MergePopsInOrder(ties, [x, y]);
    InOrder(ties, [x, y], MergePops(ties, [x, y]));
    CollapseSorted(ties, MergePops(ties, [x, y]));
    MergeIsCollapse(ties, [x, y]);
    MergePopsAreZip(x, y);
    ZipMapIs(x, y, true);
    ZipIsUnionIff(x, y, true);
    NewerWinsByKeys(x, y, true);
    UnionOfTwo(x, y);
  }

  lemma ZipMapIs(x: Run, y: Run, newerLast: bool)
    ensures ZipMap(x, y, newerLast) == ToMap(PopEntries(Zip(x, y, newerLast)))
  {
  }

  lemma BothSorted(x: Run, y: Run)
    requires StrictlySorted(x) && StrictlySorted(y)
    ensures SortedRuns([x, y])
  {
    hide StrictlySorted;
  }

  lemma InOrder(ties: Ties, runs: seq<Run>, ps: seq<MergeItem>)
    requires PopOrder(ties, runs, ps)
    ensures SortedPops(ties, ps)
  {
  }

  lemma UnionOfTwo(x: Run, y: Run)
    ensures Union(Maps([x, y])) == ToMap(x) + ToMap(y)
  {
    hide ToMap;
    var ms := Maps([x, y]);
    assert ms[..1] == [ToMap(x)];
    assert Union(ms[..1]) == ToMap(x) by { UnionOne(ToMap(x)); }
  }
}
