/** The hot-key cache: an eviction list with a key index and a capacity. */
module LruCache {
  import opened Entries

  datatype Item = Item(key: Key, value: seq<Byte>)

  /** The eviction list, most recently used first. */
  type Items = seq<Item>

  predicate Holds(items: Items, k: Key) {
    exists i :: 0 <= i < |items| && items[i].key == k
  }

  ghost predicate Distinct(items: Items) {
    forall i, j :: 0 <= i < j < |items| ==> items[i].key != items[j].key
  }

  function Without(items: Items, k: Key): (r: Items)
    ensures |r| <= |items|
  {
    if items == [] then []
    else if items[0].key == k then Without(items[1..], k)
    else [items[0]] + Without(items[1..], k)
  }

  lemma {:induction false} WithoutMembers(items: Items, k: Key)
    ensures forall x :: x in Without(items, k) <==> x in items && x.key != k
  {
    if items != [] {
      assert items == [items[0]] + items[1..];
      WithoutMembers(items[1..], k);
    }
  }

  /** The item cached for a key. */
  function Cached(items: Items, k: Key): (r: Option<Item>)
    ensures r.Some? <==> Holds(items, k)
    ensures r.Some? ==> r.value in items && r.value.key == k
  {
    if items == [] then None
    else if items[0].key == k then Some(items[0])
    else
      assert items == [items[0]] + items[1..];
      assert Holds(items, k) ==> Holds(items[1..], k) by {
        if Holds(items, k) {
          var i :| 0 <= i < |items| && items[i].key == k;
          assert items[1..][i - 1].key == k;
        }
      }
      assert Holds(items[1..], k) ==> Holds(items, k) by {
        if Holds(items[1..], k) {
          var i :| 0 <= i < |items[1..]| && items[1..][i].key == k;
          assert items[i + 1].key == k;
        }
      }
      Cached(items[1..], k)
  }

  // ---------- The operations on the list ----------

  function MaxLength(capacity: int): nat {
    if capacity > 0 then capacity else 0
  }

  /** At most one item goes, from the back. */
  function Trim(items: Items, capacity: int): Items {
    if |items| <= capacity || items == [] then items else items[..|items| - 1]
  }

  function Retrieve(items: Items, k: Key): Items {
    match Cached(items, k)
    case None => items
    case Some(x) => [x] + Without(items, k)
  }

  function Insert(items: Items, capacity: int, k: Key, v: seq<Byte>): Items {
    if Holds(items, k) then [Item(k, v)] + Without(items, k) else Trim([Item(k, v)] + items, capacity)
  }

  datatype Op = Read(key: Key) | Add(key: Key, value: seq<Byte>) | Remove(key: Key)

  function Do(items: Items, capacity: int, op: Op): Items {
    match op
    case Read(k) => Retrieve(items, k)
    case Add(k, v) => Insert(items, capacity, k, v)
    case Remove(k) => Without(items, k)
  }

  function Run(capacity: int, ops: seq<Op>): Items {
    if ops == [] then [] else Do(Run(capacity, ops[..|ops| - 1]), capacity, ops[|ops| - 1])
  }

  // ---------- Reachable lists ----------

  lemma {:induction false} WithoutAt(items: Items, i: nat)
    requires Distinct(items) && i < |items|
    ensures Without(items, items[i].key) == items[..i] + items[i + 1..]
  {
    if i == 0 {
      WithoutAbsent(items[1..], items[0].key);
    } else {
      WithoutAt(items[1..], i - 1);
      assert items[..i] + items[i + 1..] == [items[0]] + (items[1..][..i - 1] + items[1..][i..]);
    }
  }

  /** Dropping a key of a list of distinct keys keeps the others in order. */
  lemma WithoutInOrder(items: Items, k: Key, i: nat, j: nat) returns (i': nat, j': nat)
    requires Distinct(items) && i < j < |Without(items, k)|
    ensures i' < j' < |items| && items[i'] == Without(items, k)[i] && items[j'] == Without(items, k)[j]
  {
    hide Without;
    if Holds(items, k) {
      var p :| 0 <= p < |items| && items[p].key == k;
      WithoutAt(items, p);
      i', j' := AroundGap(items, p, i, j);
    } else {
      WithoutAbsent(items, k);
      i', j' := i, j;
    }
  }

  lemma AroundGap(items: Items, p: nat, i: nat, j: nat) returns (i': nat, j': nat)
    requires p < |items| && i < j < |items| - 1
    ensures var r := items[..p] + items[p + 1..];
      i' < j' < |items| && items[i'] == r[i] && items[j'] == r[j]
  {
    i', j' := if i < p then i else i + 1, if j < p then j else j + 1;
  }

  lemma {:induction false} WithoutAbsent(items: Items, k: Key)
    requires !Holds(items, k)
    ensures Without(items, k) == items
  {
    if items != [] {
      assert forall i :: 0 <= i < |items[1..]| ==> items[1..][i] == items[i + 1];
      WithoutAbsent(items[1..], k);
    }
  }

  lemma {:induction false} CachedWithout(items: Items, k: Key, j: Key)
    ensures Cached(Without(items, k), j) == if j == k then None else Cached(items, j)
  {
    if items != [] { CachedWithout(items[1..], k, j); }
  }

  lemma {:induction false} WithoutAppend(a: Items, b: Items, k: Key)
    ensures Without(a + b, k) == Without(a, k) + Without(b, k)
  {
    if a == [] {
      assert a + b == b;
    } else {
      assert (a + b)[1..] == a[1..] + b;
      WithoutAppend(a[1..], b, k);
    }
  }

  /** The most recent position in the history at which a key was used, counted from 1; 0 if never. */
  function LastUse(ops: seq<Op>, k: Key): (n: nat)
    ensures n <= |ops|
  {
    if ops == [] then 0
    else if ops[|ops| - 1].key == k then |ops|
    else LastUse(ops[..|ops| - 1], k)
  }

  /** List order is recency of use. */
  ghost predicate ByRecency(items: Items, ops: seq<Op>) {
    forall i, j :: 0 <= i < j < |items| ==> LastUse(ops, items[i].key) > LastUse(ops, items[j].key)
  }

  lemma LastUseOther(ops: seq<Op>, op: Op, k: Key)
    ensures LastUse(ops + [op], k) == if op.key == k then |ops| + 1 else LastUse(ops, k)
  {
    assert (ops + [op])[..|ops|] == ops;
  }

  lemma RecencyOfWithout(items: Items, ops: seq<Op>, op: Op)
    requires ByRecency(items, ops)
    ensures ByRecency(Without(items, op.key), ops + [op])
  {
    hide LastUse, Without;
    DistinctByRecency(items, ops);
    var w := Without(items, op.key);
    WithoutMembers(items, op.key);
    forall i, j | 0 <= i < j < |w|
      ensures LastUse(ops + [op], w[i].key) > LastUse(ops + [op], w[j].key)
    {
      var i', j' := WithoutInOrder(items, op.key, i, j);
      assert w[i] in w && w[j] in w;
      LastUseOther(ops, op, w[i].key);
      LastUseOther(ops, op, w[j].key);
    }
  }

  lemma RecencyInFront(w: Items, x: Item, ops: seq<Op>, op: Op)
    requires ByRecency(w, ops + [op]) && x.key == op.key
    requires forall y :: y in w ==> y.key != op.key
    ensures ByRecency([x] + w, ops + [op])
  {
    hide LastUse;
    var r := [x] + w;
    forall i, j | 0 <= i < j < |r|
      ensures LastUse(ops + [op], r[i].key) > LastUse(ops + [op], r[j].key)
    {
      if i == 0 {
        assert r[j] in w;
        LastUseOther(ops, op, x.key);
        LastUseOther(ops, op, r[j].key);
      } else {
        assert r[i] == w[i - 1] && r[j] == w[j - 1];
      }
    }
  }

  lemma DistinctByRecency(items: Items, ops: seq<Op>)
    requires ByRecency(items, ops)
    ensures Distinct(items)
  {
    hide LastUse;
  }

  /** One operation on a list ordered by recency. */
  lemma DoKeepsRecency(items: Items, capacity: int, ops: seq<Op>, op: Op)
    requires ByRecency(items, ops) && |items| <= MaxLength(capacity)
    ensures ByRecency(Do(items, capacity, op), ops + [op]) && |Do(items, capacity, op)| <= MaxLength(capacity)
  {
    hide LastUse, Without, ByRecency;
    var w := Without(items, op.key);
    DistinctByRecency(items, ops);
    WithoutMembers(items, op.key);
    RecencyOfWithout(items, ops, op);
    if Holds(items, op.key) {
      WithoutShorter(items, op.key);
      match op {
        case Read(k) => RecencyInFront(w, Cached(items, k).value, ops, op);
        case Add(k, v) => RecencyInFront(w, Item(k, v), ops, op);
        case Remove(k) =>
      }
    } else {
      WithoutAbsent(items, op.key);
      match op {
        case Read(k) =>
        case Add(k, v) =>
          RecencyInFront(w, Item(k, v), ops, op);
          TrimKeepsRecency([Item(k, v)] + items, capacity, ops + [op]);
        case Remove(k) =>
      }
    }
  }

  lemma TrimKeepsRecency(items: Items, capacity: int, ops: seq<Op>)
    requires ByRecency(items, ops)
    ensures ByRecency(Trim(items, capacity), ops)
  {
    hide LastUse;
  }

  /** In every reachable list the keys are distinct, the length stays within the capacity (0 for a negative
      one), and the order is recency of use. */
  lemma {:induction false} ReachableList(capacity: int, ops: seq<Op>)
    ensures var items := Run(capacity, ops);
      Distinct(items) && |items| <= MaxLength(capacity) && ByRecency(items, ops)
    decreases |ops|
  {
    hide Do, ByRecency, LastUse;
    if ops == [] {
      NothingByRecency(ops);
    } else {
      var before, op := ops[..|ops| - 1], ops[|ops| - 1];
      ReachableList(capacity, before);
      assert ops == before + [op];
      DoKeepsRecency(Run(capacity, before), capacity, before, op);
    }
    DistinctByRecency(Run(capacity, ops), ops);
  }

  lemma NothingByRecency(ops: seq<Op>)
    ensures ByRecency([], ops)
  {
  }

  lemma WithoutShorter(items: Items, k: Key)
    requires Distinct(items) && Holds(items, k)
    ensures |Without(items, k)| == |items| - 1
  {
    var i :| 0 <= i < |items| && items[i].key == k;
    WithoutAt(items, i);
  }

  /** Adding a new key to a full cache evicts exactly the key whose last use lies furthest back. */
  lemma EvictsLeastRecent(capacity: int, ops: seq<Op>, k: Key, v: seq<Byte>)
    requires var items := Run(capacity, ops); !Holds(items, k) && |items| == capacity > 0
    ensures var items := Run(capacity, ops); var last := items[|items| - 1];
      && Run(capacity, ops + [Add(k, v)]) == [Item(k, v)] + items[..|items| - 1]
      && (forall i :: 0 <= i < |items| - 1 ==> LastUse(ops, last.key) < LastUse(ops, items[i].key))
  {
    ReachableList(capacity, ops);
    assert (ops + [Add(k, v)])[..|ops|] == ops;
    var items := Run(capacity, ops);
    assert Trim([Item(k, v)] + items, capacity) == [Item(k, v)] + items[..|items| - 1];
  }

  /** Nothing is evicted as long as there is room. */
  lemma NewKeyJoins(capacity: int, ops: seq<Op>, k: Key, v: seq<Byte>)
    requires !Holds(Run(capacity, ops), k) && |Run(capacity, ops)| < capacity
    ensures Run(capacity, ops + [Add(k, v)]) == [Item(k, v)] + Run(capacity, ops)
  {
    assert (ops + [Add(k, v)])[..|ops|] == ops;
  }

  function KeysOf(items: Items): set<Key> {
    if items == [] then {} else {items[0].key} + KeysOf(items[1..])
  }

  /** The keys ever added. */
  function Added(ops: seq<Op>): set<Key> {
    if ops == [] then {}
    else Added(ops[..|ops| - 1]) + (if ops[|ops| - 1].Add? then {ops[|ops| - 1].key} else {})
  }

  lemma {:induction false} KeysHold(items: Items, k: Key)
    ensures k in KeysOf(items) <==> Holds(items, k)
  {
    if items != [] {
      KeysHold(items[1..], k);
      assert forall i :: 0 <= i < |items| - 1 ==> items[1..][i] == items[i + 1];
      if Holds(items, k) && items[0].key != k {
        var i :| 0 <= i < |items| && items[i].key == k;
        assert items[1..][i - 1].key == k;
      }
    }
  }

  lemma {:induction false} KeysCount(items: Items)
    requires Distinct(items)
    ensures |KeysOf(items)| == |items|
  {
    if items != [] {
      KeysCount(items[1..]);
      KeysHold(items[1..], items[0].key);
      assert forall i :: 0 <= i < |items| - 1 ==> items[1..][i] == items[i + 1];
    }
  }

  lemma {:induction false} KeysOfWithout(items: Items, k: Key)
    ensures KeysOf(Without(items, k)) == KeysOf(items) - {k}
  {
    if items != [] {
      KeysOfWithout(items[1..], k);
      if items[0].key != k { KeysCons(items[0], Without(items[1..], k)); }
    }
  }

  lemma KeysCons(x: Item, items: Items)
    ensures KeysOf([x] + items) == {x.key} + KeysOf(items)
  {
    assert ([x] + items)[1..] == items;
  }

  lemma TrimKeys(items: Items, capacity: int)
    ensures KeysOf(Trim(items, capacity)) <= KeysOf(items)
    ensures |items| <= capacity ==> Trim(items, capacity) == items
    ensures |Trim(items, capacity)| < capacity ==> Trim(items, capacity) == items
  {
    var t := Trim(items, capacity);
    forall k | k in KeysOf(t) ensures k in KeysOf(items) {
      KeysHold(t, k);
      KeysHold(items, k);
    }
  }

  /** One operation, no removal, on a list that holds all of some keys unless it is full. */
  lemma DoHoldsAll(items: Items, capacity: int, op: Op, added: set<Key>)
    requires Distinct(items) && |items| <= MaxLength(capacity) && !op.Remove?
    requires KeysOf(items) <= added && (|items| < capacity ==> KeysOf(items) == added)
    ensures var r, added' := Do(items, capacity, op), added + (if op.Add? then {op.key} else {});
      KeysOf(r) <= added' && (|r| < capacity ==> KeysOf(r) == added')
  {
    hide Without, Distinct, KeysOf, Trim;
    KeysHold(items, op.key);
    if Holds(items, op.key) {
      hide Holds;
      WithoutShorter(items, op.key);
      KeysOfWithout(items, op.key);
      var x := if op.Add? then Item(op.key, op.value) else Cached(items, op.key).value;
      KeysCons(x, Without(items, op.key));
    } else if op.Add? {
      hide Holds;
      KeysCons(Item(op.key, op.value), items);
      TrimKeys([Item(op.key, op.value)] + items, capacity);
    }
  }

  /** Without removals the cache holds added keys only, and all of them unless it is full. */
  lemma {:induction false} HoldsAllUnlessFull(capacity: int, ops: seq<Op>)
    requires forall i :: 0 <= i < |ops| ==> !ops[i].Remove?
    ensures var items := Run(capacity, ops);
      KeysOf(items) <= Added(ops) && (|items| < capacity ==> KeysOf(items) == Added(ops))
    decreases |ops|
  {
    hide Do, ByRecency;
    if ops != [] {
      var before, op := ops[..|ops| - 1], ops[|ops| - 1];
      HoldsAllUnlessFull(capacity, before);
      ReachableList(capacity, before);
      DoHoldsAll(Run(capacity, before), capacity, op, Added(before));
    }
  }

  /** Without removals the cache is as long as the number of different keys added, up to its capacity. */
  lemma LengthIsKeysAdded(capacity: int, ops: seq<Op>)
    requires forall i :: 0 <= i < |ops| ==> !ops[i].Remove?
    ensures |Run(capacity, ops)| == if capacity <= 0 then 0 else if |Added(ops)| <= capacity then |Added(ops)| else capacity
  {
    hide Run, ByRecency;
    var items := Run(capacity, ops);
    HoldsAllUnlessFull(capacity, ops);
    ReachableList(capacity, ops);
    KeysCount(items);
    Fewer(KeysOf(items), Added(ops));
  }

  lemma {:induction false} Fewer(a: set<Key>, b: set<Key>)
    requires a <= b
    ensures |a| <= |b|
  {
    if a != {} {
      var k :| k in a;
      Fewer(a - {k}, b - {k});
    }
  }

  /** The keys used by some operations. */
  function Used(ops: seq<Op>): set<Key> {
    if ops == [] then {} else Used(ops[..|ops| - 1]) + {ops[|ops| - 1].key}
  }

  /** The key is in the list behind nothing but keys of the given set. */
  ghost predicate BehindOnly(items: Items, k: Key, p: nat, others: set<Key>) {
    p < |items| && items[p].key == k && forall i :: 0 <= i < p ==> items[i].key in others
  }

  lemma {:induction false} AtMost(items: Items, p: nat, others: set<Key>)
    requires Distinct(items) && p <= |items| && forall i :: 0 <= i < p ==> items[i].key in others
    ensures p <= |others|
  {
    if p > 0 { AtMost(items, p - 1, others - {items[p - 1].key}); }
  }

  /** A key that is added stays until it is removed or `capacity` other keys have been used since. */
  lemma {:induction false} KeyStays(capacity: int, before: seq<Op>, k: Key, v: seq<Byte>, after: seq<Op>) returns (p: nat)
    requires |Used(after) - {k}| < capacity && forall i :: 0 <= i < |after| ==> after[i] != Remove(k)
    ensures BehindOnly(Run(capacity, before + [Add(k, v)] + after), k, p, Used(after) - {k})
    ensures Holds(Run(capacity, before + [Add(k, v)] + after), k)
    decreases |after|
  {
    hide LastUse, ByRecency, Without, Do;
    if after == [] {
      p := 0;
      assert before + [Add(k, v)] + after == before + [Add(k, v)];
      AddedFirst(capacity, before, k, v);
    } else {
      var earlier, op := after[..|after| - 1], after[|after| - 1];
      var ops := before + [Add(k, v)] + earlier;
      Fewer(Used(earlier) - {k}, Used(after) - {k});
      var q := KeyStays(capacity, before, k, v, earlier);
      assert (before + [Add(k, v)] + after)[..|ops|] == ops;
      ReachableList(capacity, ops);
      assert after == earlier + [op];
      p := StaysBehind(Run(capacity, ops), capacity, op, k, q, Used(earlier) - {k}, Used(after) - {k});
    }
    KeyIsHeld(Run(capacity, before + [Add(k, v)] + after), k, p);
  }

  lemma AddedFirst(capacity: int, before: seq<Op>, k: Key, v: seq<Byte>)
    requires capacity > 0
    ensures var items := Run(capacity, before + [Add(k, v)]); items != [] && items[0] == Item(k, v)
  {
    ReachableList(capacity, before);
    assert (before + [Add(k, v)])[..|before|] == before;
  }

  lemma StaysBehind(items: Items, capacity: int, op: Op, k: Key, q: nat, others: set<Key>, others': set<Key>) returns (p: nat)
    requires Distinct(items) && |items| <= MaxLength(capacity) && BehindOnly(items, k, q, others) && op != Remove(k)
    requires others' == (others + {op.key}) - {k} && k !in others && |others'| < capacity
    ensures BehindOnly(Do(items, capacity, op), k, p, others')
  {
    hide Without, Distinct;
    if Holds(items, op.key) {
      var x := if op.Add? then Item(op.key, op.value) else Cached(items, op.key).value;
      hide Holds;
      if op.key == k {
        p := 0;
      } else {
        var w := BehindWithout(items, op.key, k, q, others);
        p := if op.Remove? then w else w + 1;
        BehindJoined(Without(items, op.key), x, k, w, others);
      }
    } else {
      hide Holds;
      WithoutAbsent(items, op.key);
      p := q;
      if op.Add? {
        var x := Item(op.key, op.value);
        p := q + 1;
        KeyIsHeld(items, k, q);
        BehindJoined(items, x, k, q, others);
        DistinctJoined(items, x);
        AtMost([x] + items, q + 1, others');
      }
    }
  }

  lemma KeyIsHeld(items: Items, k: Key, q: nat)
    requires q < |items| && items[q].key == k
    ensures Holds(items, k)
  {
  }

  lemma BehindWithout(items: Items, j: Key, k: Key, q: nat, others: set<Key>) returns (p: nat)
    requires Distinct(items) && Holds(items, j) && j != k && BehindOnly(items, k, q, others)
    ensures BehindOnly(Without(items, j), k, p, others)
  {
    hide Without;
    var i :| 0 <= i < |items| && items[i].key == j;
    WithoutAt(items, i);
    p := if i < q then q - 1 else q;
  }

  lemma BehindJoined(items: Items, x: Item, k: Key, q: nat, others: set<Key>)
    requires BehindOnly(items, k, q, others) && x.key != k && k !in others
    ensures BehindOnly([x] + items, k, q + 1, (others + {x.key}) - {k})
  {
    var all := [x] + items;
    forall i | 0 <= i < q + 1 ensures all[i].key in (others + {x.key}) - {k} {
      if i > 0 { assert all[i] == items[i - 1]; }
    }
  }

  lemma DistinctJoined(items: Items, x: Item)
    requires Distinct(items) && !Holds(items, x.key)
    ensures Distinct([x] + items)
  {
    var all := [x] + items;
    forall i, j | 0 <= i < j < |all| ensures all[i].key != all[j].key {
      assert all[j] == items[j - 1];
      if i > 0 { assert all[i] == items[i - 1]; }
    }
  }

  // ---------- A larger cache never loses a hit ----------

  /** Requests as the server issues them: a write drops the key from the cache; a fetch reads the cache and on a
      miss inserts what the store holds; a fill inserts the key's value whether it is cached or not, as the second
      of two fetches does that have both missed. */
  datatype Request = Write(key: Key, value: seq<Byte>) | Erase(key: Key) | Fetch(key: Key) | Fill(key: Key, value: seq<Byte>)

  datatype Server = Server(store: map<Key, seq<Byte>>, cache: Items)

  function Serve(sv: Server, capacity: int, r: Request): Server {
    match r
    case Write(k, v) => Server(sv.store[k := v], Without(sv.cache, k))
    case Erase(k) => Server(sv.store - {k}, Without(sv.cache, k))
    case Fetch(k) =>
      if Holds(sv.cache, k) then sv.(cache := Retrieve(sv.cache, k))
      else if k in sv.store then sv.(cache := Insert(sv.cache, capacity, k, sv.store[k]))
      else sv
    case Fill(k, v) => Server(sv.store[k := v], Insert(sv.cache, capacity, k, v))
  }

  function ServeAll(store: map<Key, seq<Byte>>, capacity: int, rs: seq<Request>): Server {
    if rs == [] then Server(store, []) else Serve(ServeAll(store, capacity, rs[..|rs| - 1]), capacity, rs[|rs| - 1])
  }

  ghost predicate Coherent(sv: Server) {
    forall x :: x in sv.cache ==> x.key in sv.store && sv.store[x.key] == x.value
  }

  ghost predicate Good(sv: Server, capacity: int) {
    Distinct(sv.cache) && |sv.cache| <= MaxLength(capacity) && Coherent(sv)
  }

  lemma DistinctWithout(items: Items, k: Key)
    requires Distinct(items)
    ensures Distinct(Without(items, k))
    ensures forall x: Item :: x.key == k ==> Distinct([x] + Without(items, k))
  {
    hide Without;
    var w := Without(items, k);
    WithoutMembers(items, k);
    forall i, j | 0 <= i < j < |w| ensures w[i].key != w[j].key { var i', j' := WithoutInOrder(items, k, i, j); }
    forall i | 0 <= i < |w| ensures w[i].key != k { assert w[i] in w; }
  }

  lemma ServeKeepsGood(sv: Server, capacity: int, r: Request)
    requires Good(sv, capacity)
    ensures Good(Serve(sv, capacity, r), capacity)
  {
    DistinctWithout(sv.cache, r.key);
    WithoutMembers(sv.cache, r.key);
    if Holds(sv.cache, r.key) { WithoutShorter(sv.cache, r.key); } else { WithoutAbsent(sv.cache, r.key); }
  }

  lemma PrefixWithout(small: Items, big: Items, k: Key)
    requires small <= big
    ensures Without(small, k) <= Without(big, k)
  {
    assert big == small + big[|small|..];
    WithoutAppend(small, big[|small|..], k);
  }

  lemma PrefixHolds(small: Items, big: Items, k: Key)
    requires small <= big && Holds(small, k)
    ensures Holds(big, k)
  {
    var i :| 0 <= i < |small| && small[i].key == k;
    assert big[i].key == k;
  }

  lemma ServeKeepsPrefix(small: Server, big: Server, c: int, c': int, r: Request)
    requires c <= c' && Good(small, c) && Good(big, c')
    requires small.store == big.store && small.cache <= big.cache
    ensures Serve(small, c, r).store == Serve(big, c', r).store
    ensures Serve(small, c, r).cache <= Serve(big, c', r).cache
  {
    hide Without, Distinct;
    var k := r.key;
    PrefixWithout(small.cache, big.cache, k);
    if r.Fetch? || r.Fill? {
      if Holds(small.cache, k) {
        PrefixHolds(small.cache, big.cache, k);
      } else if Holds(big.cache, k) {
        WithoutAbsent(small.cache, k);
        if r.Fetch? { assert Cached(big.cache, k).value == Item(k, big.store[k]); }
      }
    }
  }

  /** For any requests, plain inserts included, the list at a capacity is a prefix, keys and values, of the list at any larger
      capacity; so whatever the smaller cache serves, the larger serves alike. */
  lemma {:induction false} LargerCacheKeepsHits(store: map<Key, seq<Byte>>, c: int, c': int, rs: seq<Request>)
    requires c <= c'
    ensures var small, big := ServeAll(store, c, rs), ServeAll(store, c', rs);
      && Good(small, c) && Good(big, c') && small.store == big.store
      && small.cache <= big.cache
      && (forall k :: Holds(small.cache, k) ==> Holds(big.cache, k) && Cached(small.cache, k) == Cached(big.cache, k))
    decreases |rs|
  {
    hide Good, Serve, Holds, Cached;
    if rs == [] {
      GoodStart(store, c);
      GoodStart(store, c');
    } else {
      var n := |rs| - 1;
      LargerCacheKeepsHits(store, c, c', rs[..n]);
      var small, big := ServeAll(store, c, rs[..n]), ServeAll(store, c', rs[..n]);
      ServeKeepsGood(small, c, rs[n]);
      ServeKeepsGood(big, c', rs[n]);
      ServeKeepsPrefix(small, big, c, c', rs[n]);
    }
    var small, big := ServeAll(store, c, rs), ServeAll(store, c', rs);
    forall k | Holds(small.cache, k) ensures Holds(big.cache, k) && Cached(small.cache, k) == Cached(big.cache, k) {
      PrefixHolds(small.cache, big.cache, k);
      PrefixCached(small, big, c, c', k);
    }
  }

  lemma GoodStart(store: map<Key, seq<Byte>>, c: int)
    ensures Good(Server(store, []), c)
  {
  }

  lemma PrefixCached(small: Server, big: Server, c: int, c': int, k: Key)
    requires Good(small, c) && Good(big, c') && small.store == big.store
    requires Holds(small.cache, k) && Holds(big.cache, k)
    ensures Cached(small.cache, k) == Cached(big.cache, k)
  {
  }

  // ---------- The cache in memory ----------

  class Node {
    const key: Key
    var value: seq<Byte>

    constructor (key: Key, value: seq<Byte>)
      ensures this.key == key && this.value == value
    {
      this.key, this.value := key, value;
    }
  }

  /** The items a list of nodes stands for. */
  ghost function ItemsOf(nodes: seq<Node>): (items: Items)
    reads nodes
    ensures |items| == |nodes|
    ensures forall i :: 0 <= i < |items| ==> items[i] == Item(nodes[i].key, nodes[i].value)
  {
    seq(|nodes|, i requires 0 <= i < |nodes| reads nodes => Item(nodes[i].key, nodes[i].value))
  }

  ghost predicate DistinctNodes(nodes: seq<Node>) {
    forall i, j :: 0 <= i < j < |nodes| ==> nodes[i].key != nodes[j].key
  }

  function Unlinked(nodes: seq<Node>, i: nat): seq<Node>
    requires i < |nodes|
  {
    nodes[..i] + nodes[i + 1..]
  }

  lemma DropOldest(nodes: seq<Node>)
    requires nodes != []
    ensures ItemsOf(nodes[..|nodes| - 1]) == ItemsOf(nodes)[..|nodes| - 1]
  {
  }

  lemma HeadAndTail(nodes: seq<Node>)
    requires nodes != [] && DistinctNodes(nodes)
    ensures nodes[0] !in nodes[1..]
    ensures ItemsOf(nodes) == [Item(nodes[0].key, nodes[0].value)] + ItemsOf(nodes[1..])
    ensures ItemsOf(nodes)[1..] == ItemsOf(nodes[1..])
  {
  }

  lemma UnlinkedItems(nodes: seq<Node>, i: nat)
    requires i < |nodes| && DistinctNodes(nodes)
    ensures ItemsOf(Unlinked(nodes, i)) == Without(ItemsOf(nodes), nodes[i].key)
  {
    hide Without;
    var items := ItemsOf(nodes);
    WithoutAt(items, i);
    assert ItemsOf(Unlinked(nodes, i)) == items[..i] + items[i + 1..];
  }

  lemma UnlinkedNodes(nodes: seq<Node>, i: nat)
    requires i < |nodes| && DistinctNodes(nodes)
    ensures var r := Unlinked(nodes, i);
      && DistinctNodes(r) && nodes[i] !in r
      && forall n :: n in nodes <==> n in r || n == nodes[i]
  {
    assert nodes == nodes[..i] + [nodes[i]] + nodes[i + 1..];
  }

  /** Each key of the index names its own node of the list, and every node is indexed. */
  ghost predicate Indexed(m: map<Key, Node>, nodes: seq<Node>) {
    && (forall k :: k in m ==> m[k] in nodes && m[k].key == k)
    && (forall n :: n in nodes ==> n.key in m && m[n.key] == n)
  }

  lemma UnlinkedIndex(m: map<Key, Node>, nodes: seq<Node>, i: nat)
    requires i < |nodes| && DistinctNodes(nodes) && Indexed(m, nodes)
    ensures Indexed(m - {nodes[i].key}, Unlinked(nodes, i))
  {
    UnlinkedNodes(nodes, i);
    hide DistinctNodes, Unlinked;
  }

  lemma IndexedAt(m: map<Key, Node>, nodes: seq<Node>, k: Key)
    requires Indexed(m, nodes)
    ensures k in m ==> m[k] in nodes && m[k].key == k
  {
  }

  lemma IndexWithout(m: map<Key, Node>, nodes: seq<Node>, rest: seq<Node>, node: Node)
    requires Indexed(m, nodes) && node in nodes && node !in rest
    requires forall n :: n in nodes <==> n in rest || n == node
    ensures Indexed(m - {node.key}, rest)
  {
  }

  class LruCache {
    const capacity: int
    var evictionList: seq<Node>
    var itemsMap: map<Key, Node>

    /** The map and the list hold the same distinct keys, and each map entry points at its own node. */
    ghost predicate Valid()
      reads this
    {
      DistinctNodes(evictionList) && Indexed(itemsMap, evictionList)
    }

    ghost function Contents(): (items: Items)
      reads this, evictionList
      ensures |items| == |evictionList|
    {
      ItemsOf(evictionList)
    }

    constructor (capacity: int)
      ensures Valid() && Contents() == [] && this.capacity == capacity && evictionList == []
    {
      this.capacity := capacity;
      evictionList := [];
      itemsMap := map[];
    }

    lemma IndexAgrees(k: Key)
      requires Valid()
      ensures Distinct(Contents()) && (k in itemsMap <==> Holds(Contents(), k))
      ensures k in itemsMap ==> Cached(Contents(), k) == Some(Item(k, itemsMap[k].value))
    {
      if k in itemsMap {
        var i :| 0 <= i < |evictionList| && evictionList[i] == itemsMap[k];
        assert Contents()[i].key == k;
      }
    }

    /** `list.Remove` of a node of the list. */
    method Unlink(node: Node)
      requires DistinctNodes(evictionList) && node in evictionList
      modifies this`evictionList
      ensures Contents() == Without(old(Contents()), node.key)
      ensures DistinctNodes(evictionList) && node !in evictionList
      ensures forall n :: n in old(evictionList) <==> n in evictionList || n == node
    {
      hide *;
      var i :| 0 <= i < |evictionList| && evictionList[i] == node;
      UnlinkedItems(evictionList, i);
      UnlinkedNodes(evictionList, i);
      ContentsOfList();
      evictionList := Unlinked(evictionList, i);
      ContentsOfList();
    }

    lemma ContentsOfList()
      ensures Contents() == ItemsOf(evictionList)
    {
    }

    /** `list.PushFront`. */
    method PushFront(node: Node)
      requires DistinctNodes(evictionList) && forall n :: n in evictionList ==> n.key != node.key
      modifies this`evictionList
      ensures evictionList == [node] + old(evictionList) && DistinctNodes(evictionList)
      ensures Contents() == [Item(node.key, node.value)] + old(Contents())
    {
      evictionList := [node] + evictionList;
      assert Contents() == [Item(node.key, node.value)] + old(Contents());
    }

    method MoveToFront(node: Node)
      requires Valid() && node in evictionList
      modifies this`evictionList
      ensures Valid()
      ensures Contents() == [Item(node.key, node.value)] + Without(old(Contents()), node.key)
      ensures forall n :: n in old(evictionList) <==> n in evictionList
      ensures |evictionList| > 0 && evictionList[0] == node
    {
      hide DistinctNodes, Without, ItemsOf, LruCache.Contents;
      Unlink(node);
      PushFront(node);
    }

    method RetrieveFromCache(key: Key) returns (r: Option<seq<Byte>>)
      requires Valid()
      modifies this`evictionList
      ensures Valid() && Contents() == Retrieve(old(Contents()), key)
      ensures r == (match Cached(old(Contents()), key) case None => None case Some(x) => Some(x.value))
      ensures r == None ==> evictionList == old(evictionList)
    {
      IndexAgrees(key);
      if key !in itemsMap { return None; }
      var element := itemsMap[key];
      MoveToFront(element);
      return Some(element.value);
    }

    method InsertIntoCache(key: Key, value: seq<Byte>)
      requires Valid()
      modifies this, evictionList
      ensures Valid() && Contents() == Insert(old(Contents()), capacity, key, value)
      ensures !Holds(old(Contents()), key) && |old(Contents())| < capacity ==>
        Contents() == [Item(key, value)] + old(Contents())
      ensures forall n :: n in evictionList ==> n in old(evictionList) || fresh(n)
    {
      IndexAgrees(key);
      if key in itemsMap {
        UpdateExistingEntry(itemsMap[key], value);
      } else {
        AddNewEntry(key, value);
        EnforceCapacity();
      }
    }

    method UpdateExistingEntry(element: Node, value: seq<Byte>)
      requires Valid() && element in evictionList
      modifies this`evictionList, element
      ensures Valid()
      ensures Contents() == [Item(element.key, value)] + Without(old(Contents()), element.key)
      ensures forall n :: n in evictionList ==> n in old(evictionList)
    {
      hide Without, DistinctNodes, Indexed, ItemsOf;
      MoveToFront(element);
      HeadAndTail(evictionList);
      ghost var rest := ItemsOf(evictionList[1..]);
      element.value := value;
      assert ItemsOf(evictionList[1..]) == rest;
      HeadAndTail(evictionList);
    }

    method AddNewEntry(key: Key, value: seq<Byte>)
      requires Valid() && key !in itemsMap
      modifies this
      ensures Valid() && Contents() == [Item(key, value)] + old(Contents())
      ensures forall n :: n in evictionList ==> n in old(evictionList) || fresh(n)
    {
      hide DistinctNodes;
      var element := new Node(key, value);
      PushFront(element);
      itemsMap := itemsMap[key := element];
    }

    method EnforceCapacity()
      requires Valid()
      modifies this
      ensures Valid() && Contents() == Trim(old(Contents()), capacity)
      ensures |old(Contents())| <= capacity ==> Contents() == old(Contents())
      ensures |old(Contents())| > capacity && old(Contents()) != [] ==>
        Contents() == old(Contents())[..|old(Contents())| - 1]
      ensures forall n :: n in evictionList ==> n in old(evictionList)
    {
      if |evictionList| <= capacity { return; }
      if |evictionList| > 0 {
        hide DistinctNodes, ItemsOf, Indexed;
        var last := |evictionList| - 1;
        var oldest := evictionList[last];
        DropOldest(evictionList);
        UnlinkedNodes(evictionList, last);
        UnlinkedIndex(itemsMap, evictionList, last);
        assert Unlinked(evictionList, last) == evictionList[..last];
        evictionList := evictionList[..last];
        itemsMap := itemsMap - {oldest.key};
      }
    }

    method RemoveFromCache(key: Key)
      requires Valid()
      modifies this
      ensures Valid() && Contents() == Without(old(Contents()), key)
      ensures forall n :: n in evictionList ==> n in old(evictionList)
    {
      hide Without, DistinctNodes, ItemsOf, Holds, Cached, Indexed;
      IndexedAt(itemsMap, evictionList, key);
      IndexAgrees(key);
      if key in itemsMap {
        var element := itemsMap[key];
        Unlink(element);
        IndexWithout(itemsMap, old(evictionList), evictionList, element);
        itemsMap := itemsMap - {key};
      } else {
        WithoutAbsent(Contents(), key);
      }
    }
  }
}
