/** Entries, keys and their byte-wise order, and tables seen as maps from key to newest entry. */
module Entries {

  datatype Option<+T> = None | Some(value: T)

  type Byte = x: int | 0 <= x < 0x100

  type Int64 = x: int | -0x8000_0000_0000_0000 <= x < 0x8000_0000_0000_0000

  /** A Go string is a sequence of bytes. */
  type Key = seq<Byte>

  datatype Entry = Entry(key: Key, value: seq<Byte>, expiry: Int64, deleted: bool)

  /** The two lengths survive their `uint32` length fields. */
  predicate Fits(e: Entry) {
    |e.key| < 0x1_0000_0000 && |e.value| < 0x1_0000_0000
  }

  predicate AllFit(es: seq<Entry>) {
    forall i :: 0 <= i < |es| ==> Fits(es[i])
  }

  // ---------- Go's string order ----------

  predicate Below(a: Key, b: Key)
    decreases |a|
  {
    b != [] && (a == [] || a[0] < b[0] || (a[0] == b[0] && Below(a[1..], b[1..])))
  }

  /** The strings agree up to position n, where a ends or has the smaller byte. */
  predicate DiffersAt(a: Key, b: Key, n: nat) {
    n <= |a| && n < |b| && a[..n] == b[..n] && (n == |a| || a[n] < b[n])
  }

  ghost predicate ByteOrdered(a: Key, b: Key) {
    exists n: nat :: DiffersAt(a, b, n)
  }

  /** What the order is: at the first position where two strings differ the smaller byte comes first, and so does a
      string that ends there. */
  lemma {:induction false} BelowIsByteOrder(a: Key, b: Key)
    ensures Below(a, b) <==> ByteOrdered(a, b)
    decreases |a|
  {
    if b != [] {
      if a == [] || a[0] < b[0] {
        assert DiffersAt(a, b, 0);
      } else if a[0] == b[0] {
        BelowIsByteOrder(a[1..], b[1..]);
        DiffersInTail(a, b);
      } else {
        forall n: nat | 0 < n <= |a| && n < |b| ensures a[..n] != b[..n] { assert a[..n][0] != b[..n][0]; }
      }
    }
  }

  lemma DiffersInTail(a: Key, b: Key)
    requires a != [] && b != [] && a[0] == b[0]
    ensures (exists n: nat :: DiffersAt(a, b, n)) <==> exists n: nat :: DiffersAt(a[1..], b[1..], n)
  {
    if n: nat :| DiffersAt(a[1..], b[1..], n) {
      assert a[..n + 1] == [a[0]] + a[1..][..n] && b[..n + 1] == [b[0]] + b[1..][..n];
      assert DiffersAt(a, b, n + 1);
    }
    if n: nat :| DiffersAt(a, b, n) {
      assert n > 0;
      assert a[1..][..n - 1] == a[..n][1..] && b[1..][..n - 1] == b[..n][1..];
      assert DiffersAt(a[1..], b[1..], n - 1);
    }
  }

  lemma {:induction false} BelowIrreflexive(a: Key)
    ensures !Below(a, a)
    decreases |a|
  {
    if a != [] { BelowIrreflexive(a[1..]); }
  }

  lemma {:induction false} BelowTransitive(a: Key, b: Key, c: Key)
    requires Below(a, b) && Below(b, c)
    ensures Below(a, c)
    decreases |a|
  {
    if a != [] && a[0] == b[0] == c[0] { BelowTransitive(a[1..], b[1..], c[1..]); }
  }

  lemma {:induction false} BelowTotal(a: Key, b: Key)
    ensures Below(a, b) || a == b || Below(b, a)
    decreases |a|
  {
    if a != [] && b != [] && a[0] == b[0] {
      BelowTotal(a[1..], b[1..]);
      assert a == [a[0]] + a[1..] && b == [b[0]] + b[1..];
    }
  }

  lemma BelowAsymmetric(a: Key, b: Key)
    requires Below(a, b)
    ensures !Below(b, a) && a != b
  {
    BelowIrreflexive(a);
    if Below(b, a) { BelowTransitive(a, b, a); }
  }

  // ---------- Sorted runs ----------

  predicate StrictlySorted(es: seq<Entry>) {
    forall i, j :: 0 <= i < j < |es| ==> Below(es[i].key, es[j].key)
  }

  predicate DistinctKeys(es: seq<Entry>) {
    forall i, j :: 0 <= i < j < |es| ==> es[i].key != es[j].key
  }

  lemma SortedIsDistinct(es: seq<Entry>)
    requires StrictlySorted(es)
    ensures DistinctKeys(es)
  {
    forall i, j | 0 <= i < j < |es| ensures es[i].key != es[j].key {
      BelowIrreflexive(es[i].key);
    }
  }

  // ---------- Tables as maps ----------

  type Table = map<Key, Entry>

  /** Every entry is stored under its own key. */
  predicate KeyedByEntry(m: Table) {
    forall k :: k in m ==> m[k].key == k
  }

  /** The table left by putting the entries in order: the last one for a key wins. */
  function ToMap(es: seq<Entry>): (m: Table)
    ensures forall k :: k in m ==> m[k] in es && m[k].key == k
    ensures forall e :: e in es ==> e.key in m
  {
    if es == [] then map[]
    else
      var last := es[|es| - 1];
      assert es == es[..|es| - 1] + [last];
      ToMap(es[..|es| - 1])[last.key := last]
  }

  lemma ToMapSnoc(es: seq<Entry>, e: Entry)
    ensures ToMap(es + [e]) == ToMap(es)[e.key := e]
  {
    assert (es + [e])[..|es|] == es;
  }

  lemma UpdateAfterUnion(a: Table, b: Table, k: Key, e: Entry)
    ensures (a + b)[k := e] == a + b[k := e]
  {
  }

  lemma {:induction false} ToMapAppend(a: seq<Entry>, b: seq<Entry>)
    ensures ToMap(a + b) == ToMap(a) + ToMap(b)
    decreases |b|
  {
    if b == [] {
      assert a + b == a;
    } else {
      var b', last := b[..|b| - 1], b[|b| - 1];
      assert (a + b)[..|a + b| - 1] == a + b';
      ToMapAppend(a, b');
      assert ToMap(a + b) == ToMap(a + b')[last.key := last];
      assert ToMap(b) == ToMap(b')[last.key := last];
      UpdateAfterUnion(ToMap(a), ToMap(b'), last.key, last);
    }
  }

  lemma {:induction false} ToMapAt(es: seq<Entry>, i: nat)
    requires i < |es| && DistinctKeys(es)
    ensures es[i].key in ToMap(es) && ToMap(es)[es[i].key] == es[i]
  {
    if i < |es| - 1 { ToMapAt(es[..|es| - 1], i); }
  }

  lemma LastIsGreatest(es: seq<Entry>, k: Key)
    requires StrictlySorted(es) && k in ToMap(es)
    ensures es != []
    ensures k == es[|es| - 1].key || Below(k, es[|es| - 1].key)
  {
    var i :| 0 <= i < |es| && es[i] == ToMap(es)[k];
  }

  lemma DropLast(es: seq<Entry>)
    requires es != [] && DistinctKeys(es)
    ensures ToMap(es[..|es| - 1]) == ToMap(es) - {es[|es| - 1].key}
  {
    var m := ToMap(es[..|es| - 1]);
    var last := es[|es| - 1];
    assert last.key !in m;
    assert ToMap(es) == m[last.key := last];
    assert ToMap(es) - {last.key} == m;
  }

  lemma SameLast(a: seq<Entry>, b: seq<Entry>)
    requires StrictlySorted(a) && StrictlySorted(b) && ToMap(a) == ToMap(b) && a != []
    ensures b != [] && a[|a| - 1] == b[|b| - 1]
  {
    SortedIsDistinct(a);
    SortedIsDistinct(b);
    var e := a[|a| - 1];
    ToMapAt(a, |a| - 1);
    LastIsGreatest(b, e.key);
    var f := b[|b| - 1];
    ToMapAt(b, |b| - 1);
    LastIsGreatest(a, f.key);
    if e.key != f.key { BelowAsymmetric(e.key, f.key); }
  }

  lemma SortedPrefix(es: seq<Entry>)
    requires StrictlySorted(es) && es != []
    ensures StrictlySorted(es[..|es| - 1])
  {
    hide Below;
  }

  /** A strictly sorted run is determined by the table it holds. */
  lemma {:induction false} SortedRunUnique(a: seq<Entry>, b: seq<Entry>)
    requires StrictlySorted(a) && StrictlySorted(b) && ToMap(a) == ToMap(b)
    ensures a == b
    decreases |a|
  {
    hide ToMap, Below, StrictlySorted, DistinctKeys;
    if a == [] {
      if b != [] { SameLast(b, a); }
    } else {
      SameLast(a, b);
      SortedPrefix(a);
      SortedPrefix(b);
      SortedIsDistinct(a);
      SortedIsDistinct(b);
      DropLast(a);
      DropLast(b);
      var a', b' := a[..|a| - 1], b[..|b| - 1];
      SortedRunUnique(a', b');
      assert a == a' + [a[|a| - 1]] && b == b' + [b[|b| - 1]];
    }
  }

  // ---------- Searching several tables, newest first ----------

  /** Tables listed oldest to newest, laid over one another. */
  function Union(ms: seq<Table>): Table {
    if ms == [] then map[] else Union(ms[..|ms| - 1]) + ms[|ms| - 1]
  }

  function Lookup(m: Table, k: Key): Option<Entry> {
    if k in m then Some(m[k]) else None
  }

  lemma UnionAssociative(a: Table, b: Table, c: Table)
    ensures (a + b) + c == a + (b + c)
  {
  }

  lemma SameLookups(a: Table, b: Table)
    requires forall k :: Lookup(a, k) == Lookup(b, k)
    ensures a == b
  {
    forall k ensures k in a <==> k in b { assert Lookup(a, k) == Lookup(b, k); }
    forall k | k in a ensures a[k] == b[k] { assert Lookup(a, k) == Lookup(b, k); }
  }

  lemma {:induction false} UnionAppend(a: seq<Table>, b: seq<Table>)
    ensures Union(a + b) == Union(a) + Union(b)
    decreases |b|
  {
    if b == [] {
      assert a + b == a;
    } else {
      var b', last := b[..|b| - 1], b[|b| - 1];
      assert (a + b)[..|a + b| - 1] == a + b';
      UnionAppend(a, b');
      assert Union(a + b) == Union(a + b') + last;
      assert Union(b) == Union(b') + last;
      UnionAssociative(Union(a), Union(b'), last);
    }
  }

  lemma UnionOne(m: Table)
    ensures Union([m]) == m
  {
    assert [m][..0] == [];
    assert Union([]) + m == m;
  }

  lemma {:induction false} UnionKeys(ms: seq<Table>, k: Key)
    ensures k in Union(ms) <==> exists i :: 0 <= i < |ms| && k in ms[i]
  {
    if ms != [] {
      UnionKeys(ms[..|ms| - 1], k);
      if exists i :: 0 <= i < |ms| && k in ms[i] {
        var i :| 0 <= i < |ms| && k in ms[i];
        if i < |ms| - 1 { assert k in ms[..|ms| - 1][i]; }
      }
    }
  }

  /** The newest table that holds the key decides. */
  lemma {:induction false} UnionNewest(ms: seq<Table>, i: nat, k: Key)
    requires i < |ms| && k in ms[i]
    requires forall j :: i < j < |ms| ==> k !in ms[j]
    ensures k in Union(ms) && Union(ms)[k] == ms[i][k]
  {
    if i < |ms| - 1 { UnionNewest(ms[..|ms| - 1], i, k); }
  }
}
