/** The merge heap of compaction: `container/heap` sifting over the items at the heads of the runs. */
module MergeHeap {
  import opened Entries

  datatype MergeItem = MergeItem(entry: Entry, source: nat)

  /** How items with equal keys compare: by a rank of the run they come from. */
  type Ties = nat -> int

  type Heap = seq<MergeItem>

  /** The comparison as it stands: keys only. */
  function KeyOnly(): Ties {
    (source: nat) => 0
  }

  /** The comparison the overwrite of equal keys relies on: later runs come out later. */
  function BySource(): Ties {
    (source: nat) => source
  }

  predicate Less(ties: Ties, a: MergeItem, b: MergeItem) {
    Below(a.entry.key, b.entry.key) || (a.entry.key == b.entry.key && ties(a.source) < ties(b.source))
  }

  predicate Leq(ties: Ties, a: MergeItem, b: MergeItem) {
    !Less(ties, b, a)
  }

  lemma LessImpliesLeq(ties: Ties, a: MergeItem, b: MergeItem)
    requires Less(ties, a, b)
    ensures Leq(ties, a, b)
  {
    if Below(a.entry.key, b.entry.key) {
      BelowAsymmetric(a.entry.key, b.entry.key);
    } else {
      BelowIrreflexive(a.entry.key);
    }
  }

  lemma LeqTransitive(ties: Ties, a: MergeItem, b: MergeItem, c: MergeItem)
    requires Leq(ties, a, b) && Leq(ties, b, c)
    ensures Leq(ties, a, c)
  {
    hide Below;
    var ka, kb, kc := a.entry.key, b.entry.key, c.entry.key;
    BelowTotal(ka, kb);
    BelowTotal(kb, kc);
    BelowIrreflexive(ka);
    if Below(ka, kb) && Below(kb, kc) { BelowTransitive(ka, kb, kc); }
    if Below(ka, kc) { BelowAsymmetric(ka, kc); }
  }

  // ---------- Heap order ----------

  function Parent(j: nat): nat
    requires j > 0
  {
    (j - 1) / 2
  }

  predicate OrderedAt(ties: Ties, h: Heap, j: nat)
    requires 0 < j < |h|
  {
    Leq(ties, h[Parent(j)], h[j])
  }

  ghost predicate IsHeap(ties: Ties, h: Heap, n: nat)
    requires n <= |h|
  {
    forall j :: 0 < j < n ==> OrderedAt(ties, h, j)
  }

  lemma {:induction false} RootIsLeast(ties: Ties, h: Heap, n: nat, j: nat)
    requires j < n <= |h| && IsHeap(ties, h, n)
    ensures j == 0 || Leq(ties, h[0], h[j])
    decreases j
  {
    if j > 0 {
      RootIsLeast(ties, h, n, Parent(j));
      assert OrderedAt(ties, h, j);
      if Parent(j) > 0 { LeqTransitive(ties, h[0], h[Parent(j)], h[j]); }
    }
  }

  function Swap(h: Heap, i: nat, j: nat): (r: Heap)
    requires i < |h| && j < |h|
    ensures |r| == |h|
    ensures multiset(r) == multiset(h)
  {
    h[i := h[j]][j := h[i]]
  }

  // ---------- Push ----------

  function Up(ties: Ties, h: Heap, j: nat): (r: Heap)
    requires j < |h|
    ensures |r| == |h| && multiset(r) == multiset(h)
    decreases j
  {
    if j == 0 || !Less(ties, h[j], h[Parent(j)]) then h else Up(ties, Swap(h, Parent(j), j), Parent(j))
  }

  /** Heap order may fail only between j and its parent. */
  ghost predicate RisingAt(ties: Ties, h: Heap, j: nat)
    requires j < |h|
  {
    && (forall m :: 0 < m < |h| && m != j ==> OrderedAt(ties, h, m))
    && (forall m :: 0 < m < |h| && Parent(m) == j && j > 0 ==> Leq(ties, h[Parent(j)], h[m]))
  }

  lemma {:induction false} UpIsHeap(ties: Ties, h: Heap, j: nat)
    requires j < |h| && RisingAt(ties, h, j)
    ensures var r := Up(ties, h, j); IsHeap(ties, r, |r|)
    decreases j
  {
    hide Less;
    if j > 0 && Less(ties, h[j], h[Parent(j)]) {
      hide Leq;
      var i := Parent(j);
      var r := Swap(h, i, j);
      LessImpliesLeq(ties, h[j], h[i]);
      forall m | 0 < m < |r| && m != i ensures OrderedAt(ties, r, m) {
        assert m != j ==> OrderedAt(ties, h, m);
        if m != j && Parent(m) == i { LeqTransitive(ties, h[j], h[i], h[m]); }
      }
      forall m | 0 < m < |r| && Parent(m) == i && i > 0 ensures Leq(ties, r[Parent(i)], r[m]) {
        assert OrderedAt(ties, h, i);
        if m != j {
          assert OrderedAt(ties, h, m);
          LeqTransitive(ties, h[Parent(i)], h[i], h[m]);
        }
      }
      UpIsHeap(ties, r, i);
    } else if j > 0 {
      assert OrderedAt(ties, h, j);
    }
  }

  function Push(ties: Ties, h: Heap, x: MergeItem): (r: Heap)
    ensures multiset(r) == multiset(h) + multiset{x}
    ensures |r| == |h| + 1
  {
    Up(ties, h + [x], |h|)
  }

  lemma PushIsHeap(ties: Ties, h: Heap, x: MergeItem)
    requires IsHeap(ties, h, |h|)
    ensures IsHeap(ties, Push(ties, h, x), |Push(ties, h, x)|)
  {
    hide Leq;
    var g := h + [x];
    forall m | 0 < m < |g| && m != |h| ensures OrderedAt(ties, g, m) { assert OrderedAt(ties, h, m); }
    UpIsHeap(ties, g, |h|);
  }

  // ---------- Pop ----------

  /** The smaller child of i among the first n items, the left one on a tie. */
  function Child(ties: Ties, h: Heap, i: nat, n: nat): (j: nat)
    requires n <= |h| && 2 * i + 1 < n
    ensures i < j < n && Parent(j) == i
  {
    if 2 * i + 2 < n && Less(ties, h[2 * i + 2], h[2 * i + 1]) then 2 * i + 2 else 2 * i + 1
  }

  function Down(ties: Ties, h: Heap, i: nat, n: nat): (r: Heap)
    requires i <= n <= |h|
    ensures |r| == |h| && multiset(r) == multiset(h) && r[n..] == h[n..]
    decreases n - i
  {
    if 2 * i + 1 >= n then h
    else
      var j := Child(ties, h, i, n);
      if !Less(ties, h[j], h[i]) then h else Down(ties, Swap(h, i, j), j, n)
  }

  /** Heap order may fail only between i and its children. */
  ghost predicate SinkingAt(ties: Ties, h: Heap, i: nat, n: nat)
    requires n <= |h|
  {
    && (forall m :: 0 < m < n && Parent(m) != i ==> OrderedAt(ties, h, m))
    && (forall m :: 0 < m < n && Parent(m) == i && i > 0 ==> Leq(ties, h[Parent(i)], h[m]))
  }

  lemma ChildIsLeast(ties: Ties, h: Heap, i: nat, n: nat, m: nat)
    requires n <= |h| && 2 * i + 1 < n && 0 < m < n && Parent(m) == i
    ensures Leq(ties, h[Child(ties, h, i, n)], h[m])
  {
    var j := Child(ties, h, i, n);
    assert m == 2 * i + 1 || m == 2 * i + 2;
    if j != m && j == 2 * i + 2 { LessImpliesLeq(ties, h[j], h[m]); }
    if j == m { BelowIrreflexive(h[j].entry.key); }
  }

  lemma {:induction false} DownIsHeap(ties: Ties, h: Heap, i: nat, n: nat)
    requires i <= n <= |h| && SinkingAt(ties, h, i, n)
    ensures IsHeap(ties, Down(ties, h, i, n), n)
    decreases n - i
  {
    hide Less, Leq, Child;
    if 2 * i + 1 >= n {
      assert forall m :: 0 < m < n ==> Parent(m) != i;
    } else {
      var j := Child(ties, h, i, n);
      forall m | 0 < m < n && Parent(m) == i ensures Leq(ties, h[j], h[m]) { ChildIsLeast(ties, h, i, n, m); }
      if Less(ties, h[j], h[i]) {
        LessImpliesLeq(ties, h[j], h[i]);
        var r := Swap(h, i, j);
        forall m | 0 < m < n && Parent(m) != j ensures OrderedAt(ties, r, m) {
          if Parent(m) != i { assert OrderedAt(ties, h, m); }
        }
        forall m | 0 < m < n && Parent(m) == j && j > 0 ensures Leq(ties, r[Parent(j)], r[m]) {
          assert OrderedAt(ties, h, m);
        }
        DownIsHeap(ties, r, j, n);
      } else {
        NotLess(ties, h[j], h[i]);
        forall m | 0 < m < n ensures OrderedAt(ties, h, m) {
          if Parent(m) == i { LeqTransitive(ties, h[i], h[j], h[m]); }
        }
      }
    }
  }

  lemma NotLess(ties: Ties, a: MergeItem, b: MergeItem)
    requires !Less(ties, a, b)
    ensures Leq(ties, b, a)
  {
  }

  function Pop(ties: Ties, h: Heap): (r: (MergeItem, Heap))
    requires h != []
    ensures multiset(h) == multiset(r.1) + multiset{r.0}
    ensures |r.1| == |h| - 1
  {
    var n := |h| - 1;
    var g := Down(ties, Swap(h, 0, n), 0, n);
    assert g == g[..n] + [g[n]];
    (g[n], g[..n])
  }

  lemma PopIsRoot(ties: Ties, h: Heap)
    requires h != []
    ensures Pop(ties, h).0 == h[0]
  {
    var n := |h| - 1;
    var s := Swap(h, 0, n);
    var g := Down(ties, s, 0, n);
    assert g[n..][0] == s[n..][0];
  }

  lemma PopIsHeap(ties: Ties, h: Heap)
    requires h != [] && IsHeap(ties, h, |h|)
    ensures IsHeap(ties, Pop(ties, h).1, |h| - 1)
  {
    hide Leq, Down;
    var n := |h| - 1;
    var s := Swap(h, 0, n);
    forall m | 0 < m < n && Parent(m) != 0 ensures OrderedAt(ties, s, m) { assert OrderedAt(ties, h, m); }
    DownIsHeap(ties, s, 0, n);
    var g := Down(ties, s, 0, n);
    forall j | 0 < j < n ensures OrderedAt(ties, g[..n], j) { assert OrderedAt(ties, g, j); }
  }

  /** What is popped is a least item. */
  lemma PopIsLeast(ties: Ties, h: Heap, x: MergeItem)
    requires h != [] && IsHeap(ties, h, |h|) && x in Pop(ties, h).1
    ensures Leq(ties, Pop(ties, h).0, x)
  {
    hide Pop;
    PopIsRoot(ties, h);
    assert x in multiset(h);
    var j :| 0 <= j < |h| && h[j] == x;
    RootIsLeast(ties, h, |h|, j);
    BelowIrreflexive(x.entry.key);
  }

  // ---------- Which items move ----------

  /** Position m of the heap after a sift: it kept its item, or took the item x that sinks, or took the item of a child,
      which then comes strictly before x, and strictly before its left sibling or not after its right one. */
  ghost predicate Settled(ties: Ties, h: Heap, g: Heap, m: nat, n: nat, x: MergeItem)
    requires m < n <= |h| == |g|
  {
    || g[m] == h[m] || g[m] == x
    || (2 * m + 1 < n && g[m] == h[2 * m + 1] && Less(ties, h[2 * m + 1], x)
        && (2 * m + 2 < n ==> !Less(ties, h[2 * m + 2], h[2 * m + 1])))
    || (2 * m + 2 < n && g[m] == h[2 * m + 2] && Less(ties, h[2 * m + 2], x) && Less(ties, h[2 * m + 2], h[2 * m + 1]))
  }

  lemma {:induction false} DownSettles(ties: Ties, h: Heap, i: nat, n: nat) returns (g: Heap)
    requires i < n <= |h|
    ensures g == Down(ties, h, i, n) && |g| == |h|
    ensures forall m :: 0 <= m < i ==> g[m] == h[m]
    ensures forall m :: i <= m < n ==> Settled(ties, h, g, m, n, h[i])
    decreases n - i
  {
    hide Less, Settled, Child;
    if 2 * i + 1 >= n || !Less(ties, h[Child(ties, h, i, n)], h[i]) {
      g := h;
      forall m | i <= m < n ensures Settled(ties, h, g, m, n, h[i]) { SettledKept(ties, h, g, m, n, h[i]); }
    } else {
      var j := Child(ties, h, i, n);
      var s := Swap(h, i, j);
      g := DownSettles(ties, s, j, n);
      forall m | i <= m < n ensures Settled(ties, h, g, m, n, h[i]) {
        if m >= j {
          SettledBelow(ties, h, s, g, i, j, m, n);
        } else if m > i {
          SettledKept(ties, h, g, m, n, h[i]);
        } else {
          SettledChild(ties, h, g, i, n);
        }
      }
    }
  }

  lemma SettledKept(ties: Ties, h: Heap, g: Heap, m: nat, n: nat, x: MergeItem)
    requires m < n <= |h| == |g| && g[m] == h[m]
    ensures Settled(ties, h, g, m, n, x)
  {
  }

  lemma SettledBelow(ties: Ties, h: Heap, s: Heap, g: Heap, i: nat, j: nat, m: nat, n: nat)
    requires i < j <= m < n <= |h| == |g| && s == Swap(h, i, j) && Settled(ties, s, g, m, n, s[j])
    ensures Settled(ties, h, g, m, n, h[i])
  {
    hide Less;
  }

  lemma SettledChild(ties: Ties, h: Heap, g: Heap, i: nat, n: nat)
    requires 2 * i + 1 < n <= |h| == |g|
    requires var j := Child(ties, h, i, n); Less(ties, h[j], h[i]) && g[i] == h[j]
    ensures Settled(ties, h, g, i, n, h[i])
  {
    hide Less;
  }

  /** What a pop does to the rest of the heap: the last item x sinks from the top, and every other position keeps its
      item or takes that of a child that comes strictly before x; of two children the right one rises only if it comes
      strictly before the left. */
  lemma PopSettles(ties: Ties, h: Heap, m: nat)
    requires m < |h| - 1
    ensures var g, n, x := Pop(ties, h).1, |h| - 1, h[|h| - 1];
      || g[m] == x || (m > 0 && g[m] == h[m])
      || (2 * m + 1 < n && g[m] == h[2 * m + 1] && Less(ties, h[2 * m + 1], x)
          && (2 * m + 2 < n ==> !Less(ties, h[2 * m + 2], h[2 * m + 1])))
      || (2 * m + 2 < n && g[m] == h[2 * m + 2] && Less(ties, h[2 * m + 2], x) && Less(ties, h[2 * m + 2], h[2 * m + 1]))
  {
    hide Less, Down;
    var n := |h| - 1;
    var s := Swap(h, 0, n);
    var g := DownSettles(ties, s, 0, n);
    assert Settled(ties, s, g, m, n, s[0]);
  }

  /** Of two children of the top with equal keys the left one rises, if the item that sinks is larger. */
  lemma LeftRisesOnTie(h: Heap)
    requires |h| >= 4 && IsHeap(KeyOnly(), h, |h|) && h[1].entry.key == h[2].entry.key
    requires Below(h[1].entry.key, h[|h| - 1].entry.key)
    ensures Pop(KeyOnly(), h).1[0] == h[1]
  {
    hide Below, Pop;
    var n, x := |h| - 1, h[|h| - 1];
    PopSettles(KeyOnly(), h, 0);
    BelowIrreflexive(h[1].entry.key);
    if Pop(KeyOnly(), h).1[0] == x {
      PopIsHeap(KeyOnly(), h);
      PoppedLeast(h);
    }
  }

  /** The new top of the heap comes after nothing that stays. */
  lemma PoppedLeast(h: Heap)
    requires |h| >= 4 && IsHeap(KeyOnly(), h, |h|)
    ensures Leq(KeyOnly(), Pop(KeyOnly(), h).1[0], h[1])
  {
    hide Leq, Pop, IsHeap;
    PopIsHeap(KeyOnly(), h);
    PopIsRoot(KeyOnly(), h);
    var g := Pop(KeyOnly(), h).1;
    assert h == [h[0]] + h[1..];
    assert multiset(h) == multiset{h[0]} + multiset(h[1..]);
    assert multiset(h)[h[1]] == multiset{h[0]}[h[1]] + multiset(h[1..])[h[1]];
    assert multiset(h)[h[1]] == multiset(g)[h[1]] + multiset{h[0]}[h[1]];
    assert h[1] == h[1..][0] && h[1] in multiset(h[1..]);
    assert h[1] in multiset(g);
    var j :| 0 <= j < |g| && g[j] == h[1];
    RootIsLeast(KeyOnly(), g, |g|, j);
    if j == 0 { LeqSame(g[0]); }
  }

  lemma LeqSame(x: MergeItem)
    ensures Leq(KeyOnly(), x, x)
  {
    BelowIrreflexive(x.entry.key);
  }

  /** And what a push does: the new item overtakes only items that come strictly after it. */
  lemma {:induction false} UpSettles(ties: Ties, h: Heap, j: nat, m: nat)
    requires j < |h| && m < |h|
    ensures var g, x := Up(ties, h, j), h[j];
      g[m] == h[m] || g[m] == x || (m > 0 && g[m] == h[Parent(m)] && Less(ties, x, h[Parent(m)]))
    decreases j
  {
    hide Less;
    if j > 0 && Less(ties, h[j], h[Parent(j)]) {
      UpSettles(ties, Swap(h, Parent(j), j), Parent(j), m);
      if m > Parent(j) { UpKeepsBehind(ties, Swap(h, Parent(j), j), Parent(j), m); }
    }
  }

  lemma {:induction false} UpKeepsBehind(ties: Ties, h: Heap, j: nat, m: nat)
    requires j < m < |h|
    ensures Up(ties, h, j)[m] == h[m]
    decreases j
  {
    hide Less;
    if j > 0 && Less(ties, h[j], h[Parent(j)]) { UpKeepsBehind(ties, Swap(h, Parent(j), j), Parent(j), m); }
  }

  lemma PushSettles(ties: Ties, h: Heap, x: MergeItem, m: nat)
    requires m <= |h|
    ensures var g := Push(ties, h, x);
      g[m] == x || (m < |h| && g[m] == h[m]) || (m > 0 && g[m] == h[Parent(m)] && Less(ties, x, h[Parent(m)]))
  {
    hide Less, Up;
    UpSettles(ties, h + [x], |h|, m);
  }
}
