/** The store as layers of tables: how the agents move tables between layers, what that does to the newest
    entry of every key, and what a read that looks at the layers one after another may return. */
module Layers {
  import opened Entries

  /** Each layer oldest to newest. `taken` holds the level-0 tables a running compaction has removed and not
      yet committed; no read looks there. */
  datatype Layers = Layers(l1: seq<Table>, taken: seq<Table>, l0: seq<Table>, imm: seq<Table>, mem: Table)

  datatype Move =
    | Put(puts: Table)   // a batch reaches the memtable
    | Rotate             // the memtable becomes the newest frozen one
    | Flush              // the oldest frozen memtable becomes the newest level-0 table
    | Take               // a compaction removes level 0
    | Undo               // a failed compaction puts its tables back below level 0
    | Commit             // a compaction's tables become one level-1 table
    | Stay               // nothing moves

  function Do(s: Layers, mv: Move): Layers {
    match mv
    case Put(puts) => s.(mem := s.mem + puts)
    case Rotate => s.(imm := s.imm + [s.mem], mem := map[])
    case Flush => if s.imm == [] then s else s.(l0 := s.l0 + [s.imm[0]], imm := s.imm[1..])
    case Take => s.(taken := s.l0, l0 := [])
    case Undo => s.(l0 := s.taken + s.l0, taken := [])
    case Commit => s.(l1 := s.l1 + [Union(s.taken)], taken := [])
    case Stay => s
  }

  /** A compaction starts only when none is running: there is one compaction agent. */
  predicate Allowed(s: Layers, mv: Move) {
    mv.Take? ==> s.taken == []
  }

  function All(s: Layers): seq<Table> {
    s.l1 + s.taken + s.l0 + s.imm + [s.mem]
  }

  /** The newest entry of every key. */
  function View(s: Layers): Table {
    Union(All(s))
  }

  lemma ViewByLayers(s: Layers)
    ensures View(s) == Union(s.l1) + Union(s.taken) + Union(s.l0) + Union(s.imm) + s.mem
  {
    UnionAppend(s.l1, s.taken);
    UnionAppend(s.l1 + s.taken, s.l0);
    UnionAppend(s.l1 + s.taken + s.l0, s.imm);
    UnionAppend(s.l1 + s.taken + s.l0 + s.imm, [s.mem]);
    UnionOne(s.mem);
  }

  /** Only a put changes the view, and it changes it by exactly what is put. */
  lemma DoView(s: Layers, mv: Move)
    requires Allowed(s, mv)
    ensures View(Do(s, mv)) == if mv.Put? then View(s) + mv.puts else View(s)
  {
    hide Union;
    match mv
    case Put(puts) => PutView(s, puts);
    case Rotate => RotateView(s);
    case Flush =>
      if s.imm != [] {
        assert s.imm == [s.imm[0]] + s.imm[1..];
        assert All(Do(s, mv)) == All(s);
      }
    case Take => assert All(Do(s, mv)) == All(s);
    case Undo => assert All(Do(s, mv)) == All(s);
    case Commit => CommitView(s);
    case Stay =>
  }

  lemma PutView(s: Layers, puts: Table)
    ensures View(Do(s, Put(puts))) == View(s) + puts
  {
    hide View, Union;
    ViewByLayers(s);
    ViewByLayers(Do(s, Put(puts)));
    UnionAssociative(Union(s.l1) + Union(s.taken) + Union(s.l0) + Union(s.imm), s.mem, puts);
  }

  lemma RotateView(s: Layers)
    ensures View(Do(s, Rotate)) == View(s)
  {
    hide Union;
    UnionAppend(All(s), [map[]]);
    UnionOne(map[]);
    assert All(Do(s, Rotate)) == All(s) + [map[]];
    assert View(s) + map[] == View(s);
  }

  lemma CommitView(s: Layers)
    ensures View(Do(s, Commit)) == View(s)
  {
    hide View, Union;
    UnionAppend(s.l1, [Union(s.taken)]);
    UnionOne(Union(s.taken));
    ViewByLayers(s);
    ViewByLayers(Do(s, Commit));
    UnionNone();
    assert Union(s.l1) + Union(s.taken) + map[] == Union(s.l1) + Union(s.taken);
  }

  lemma UnionNone()
    ensures Union([]) == map[]
  {
  }

  // ---------- Runs ----------

  function Run(s: Layers, mvs: seq<Move>): Layers {
    if mvs == [] then s else Do(Run(s, mvs[..|mvs| - 1]), mvs[|mvs| - 1])
  }

  predicate Legal(s: Layers, mvs: seq<Move>) {
    mvs == [] || (Legal(s, mvs[..|mvs| - 1]) && Allowed(Run(s, mvs[..|mvs| - 1]), mvs[|mvs| - 1]))
  }

  /** The state after the first n moves. */
  function At(s: Layers, mvs: seq<Move>, n: nat): Layers
    requires n <= |mvs|
  {
    Run(s, mvs[..n])
  }

  lemma AtNext(s: Layers, mvs: seq<Move>, n: nat)
    requires n < |mvs|
    ensures At(s, mvs, n + 1) == Do(At(s, mvs, n), mvs[n])
  {
    assert mvs[..n + 1][..n] == mvs[..n];
  }

  lemma {:induction false} LegalAt(s: Layers, mvs: seq<Move>, n: nat)
    requires Legal(s, mvs) && n < |mvs|
    ensures Allowed(At(s, mvs, n), mvs[n])
    decreases |mvs|
  {
    if n < |mvs| - 1 {
      LegalAt(s, mvs[..|mvs| - 1], n);
      assert mvs[..|mvs| - 1][..n] == mvs[..n];
    }
  }

  // ---------- Reading ----------

  /** The first hit from newest to oldest. */
  function Search(ms: seq<Table>, k: Key): Option<Entry> {
    if ms == [] then None
    else if k in ms[|ms| - 1] then Some(ms[|ms| - 1][k])
    else Search(ms[..|ms| - 1], k)
  }

  lemma {:induction false} SearchIsLookup(ms: seq<Table>, k: Key)
    ensures Search(ms, k) == Lookup(Union(ms), k)
  {
    if ms != [] { SearchIsLookup(ms[..|ms| - 1], k); }
  }

  lemma {:induction false} SearchAppend(a: seq<Table>, b: seq<Table>, k: Key)
    ensures Search(a + b, k) == if Search(b, k).Some? then Search(b, k) else Search(a, k)
    decreases |b|
  {
    if b == [] {
      assert a + b == a;
    } else {
      assert (a + b)[..|a + b| - 1] == a + b[..|b| - 1];
      SearchAppend(a, b[..|b| - 1], k);
    }
  }

  lemma SearchOne(m: Table, k: Key)
    ensures Search([m], k) == Lookup(m, k)
  {
  }

  lemma {:induction false} SearchHits(ms: seq<Table>, k: Key)
    ensures Search(ms, k).Some? ==> exists i :: 0 <= i < |ms| && k in ms[i] && Search(ms, k) == Some(ms[i][k])
    ensures Search(ms, k) == None ==> forall i :: 0 <= i < |ms| ==> k !in ms[i]
  {
    if ms != [] {
      SearchHits(ms[..|ms| - 1], k);
      if k !in ms[|ms| - 1] && Search(ms, k).Some? {
        var i :| 0 <= i < |ms| - 1 && k in ms[..|ms| - 1][i] && Search(ms, k) == Some(ms[..|ms| - 1][i][k]);
        assert k in ms[i];
      }
    }
  }

  function MemorySearch(s: Layers, k: Key): Option<Entry> {
    Search(s.imm + [s.mem], k)
  }

  function Newest(s: Layers, k: Key): Option<Entry> {
    Search(All(s), k)
  }

  lemma NewestIsView(s: Layers, k: Key)
    ensures Newest(s, k) == Lookup(View(s), k)
  {
    SearchIsLookup(All(s), k);
  }

  /** The layers below memory, as one list. */
  function Disk(s: Layers): seq<Table> {
    s.l1 + s.taken + s.l0
  }

  lemma NewestByParts(s: Layers, k: Key)
    ensures Newest(s, k) == if MemorySearch(s, k).Some? then MemorySearch(s, k) else Search(Disk(s), k)
    ensures Search(Disk(s), k) ==
      if Search(s.l0, k).Some? then Search(s.l0, k)
      else if Search(s.taken, k).Some? then Search(s.taken, k)
      else Search(s.l1, k)
  {
    hide Search;
    assert All(s) == Disk(s) + (s.imm + [s.mem]);
    SearchAppend(Disk(s), s.imm + [s.mem], k);
    SearchAppend(s.l1 + s.taken, s.l0, k);
    SearchAppend(s.l1, s.taken, k);
  }

  /** What the disk part of a read sees when it looks at level 0 and then at level 1. */
  function DiskSearch(s: Layers, k: Key): Option<Entry> {
    if Search(s.l0, k).Some? then Search(s.l0, k) else Search(s.l1, k)
  }

  /** A read of one state is right exactly when memory or level 0 decides, or the tables a compaction has
      taken do not hold the key, or they hold for it just what level 1 does. */
  lemma ReadRightIff(s: Layers, k: Key)
    ensures (if MemorySearch(s, k).Some? then MemorySearch(s, k) else DiskSearch(s, k)) == Newest(s, k)
      <==> MemorySearch(s, k).Some? || Search(s.l0, k).Some? || Search(s.taken, k) == None || Search(s.taken, k) == Search(s.l1, k)
  {
    NewestByParts(s, k);
  }

  // ---------- A read spread over a run ----------

  /** The entry (or absence) was the newest for the key at some moment between two points of a run. */
  ghost predicate Seen(s: Layers, mvs: seq<Move>, from: nat, upTo: nat, k: Key, e: Option<Entry>)
    requires from <= upTo <= |mvs|
  {
    exists n :: from <= n <= upTo && Newest(At(s, mvs, n), k) == e
  }

  lemma SeenLater(s: Layers, mvs: seq<Move>, from: nat, a: nat, b: nat, k: Key, e: Option<Entry>)
    requires from <= a <= b <= |mvs| && Seen(s, mvs, from, a, k, e)
    ensures Seen(s, mvs, from, b, k, e)
  {
  }

  /** A compaction has taken level 0 between two points. */
  ghost predicate TakenSince(mvs: seq<Move>, from: nat, n: nat)
    requires from <= n <= |mvs|
  {
    exists p :: from <= p < n && mvs[p].Take?
  }

  /** What level 1 holds for the key goes back no further than a moment since which we have been looking: no layer
      above level 1 held the key on disk at that moment; or a compaction that holds the key has been committed
      since, which took it since or which level 0 did not shadow at that moment. */
  ghost predicate LevelOneFresh(s: Layers, mvs: seq<Move>, from: nat, n: nat, k: Key)
    requires from <= n <= |mvs|
  {
    || (Search(At(s, mvs, from).l0, k) == None && Search(At(s, mvs, from).taken, k) == None)
    || exists q :: from <= q < n && CommitsFresh(s, mvs, from, q, k)
  }

  ghost predicate CommitsFresh(s: Layers, mvs: seq<Move>, from: nat, q: nat, k: Key)
    requires from <= q < |mvs|
  {
    mvs[q].Commit? && Search(At(s, mvs, q).taken, k).Some? && TakenFresh(s, mvs, from, q, k)
  }

  ghost predicate TakenFresh(s: Layers, mvs: seq<Move>, from: nat, q: nat, k: Key)
    requires from <= q <= |mvs|
  {
    Search(At(s, mvs, from).l0, k) == None || TakenSince(mvs, from, q)
  }

  lemma FreshNext(s: Layers, mvs: seq<Move>, from: nat, n: nat, k: Key)
    requires from <= n < |mvs|
    ensures TakenSince(mvs, from, n + 1) <==> TakenSince(mvs, from, n) || mvs[n].Take?
    ensures LevelOneFresh(s, mvs, from, n + 1, k) <==> LevelOneFresh(s, mvs, from, n, k) || CommitsFresh(s, mvs, from, n, k)
  {
    hide At, Search;
    if mvs[n].Take? { assert TakenSince(mvs, from, n + 1); }
  }

  /** From a moment at which memory did not hold the key: whatever memory or level 0 holds for it since was the
      newest at some moment; so was what a compaction has taken and what level 1 holds, as far as they are fresh;
      and if level 1 is not, some layer above it on disk holds the key. */
  ghost predicate SinceMiss(s: Layers, mvs: seq<Move>, from: nat, n: nat, k: Key)
    requires from <= n <= |mvs|
  {
    var t := At(s, mvs, n);
    && MemorySeen(s, mvs, from, n, k)
    && (Search(t.l0, k).Some? ==> Seen(s, mvs, from, n, k, Search(t.l0, k)))
    && (Search(t.taken, k).Some? && TakenFresh(s, mvs, from, n, k) ==> Seen(s, mvs, from, n, k, Search(t.taken, k)))
    && (LevelOneFresh(s, mvs, from, n, k) ==> Seen(s, mvs, from, n, k, Search(t.l1, k)))
    && (!TakenFresh(s, mvs, from, n, k) ==> Search(t.l0, k).Some?)
    && (!LevelOneFresh(s, mvs, from, n, k) ==> Search(t.l0, k).Some? || Search(t.taken, k).Some?)
  }

  ghost predicate MemorySeen(s: Layers, mvs: seq<Move>, from: nat, n: nat, k: Key)
    requires from <= n <= |mvs|
  {
    var t := At(s, mvs, n);
    && (k in t.mem ==> Seen(s, mvs, from, n, k, Some(t.mem[k])))
    && (forall i :: 0 <= i < |t.imm| && k in t.imm[i] ==> Seen(s, mvs, from, n, k, Some(t.imm[i][k])))
  }

  lemma MissStart(s: Layers, mvs: seq<Move>, from: nat, k: Key)
    requires from <= |mvs| && MemorySearch(At(s, mvs, from), k) == None
    ensures SinceMiss(s, mvs, from, from, k)
  {
    hide Search, At;
    var t := At(s, mvs, from);
    NewestByParts(t, k);
    SearchHits(t.imm + [t.mem], k);
    assert (t.imm + [t.mem])[|t.imm|] == t.mem;
    assert forall i :: 0 <= i < |t.imm| ==> (t.imm + [t.mem])[i] == t.imm[i];
    assert Seen(s, mvs, from, from, k, Newest(t, k));
  }

  lemma MemoryStep(s: Layers, mvs: seq<Move>, from: nat, n: nat, k: Key)
    requires from <= n < |mvs| && MemorySeen(s, mvs, from, n, k)
    ensures MemorySeen(s, mvs, from, n + 1, k)
  {
    hide Search, At, Newest;
    AtNext(s, mvs, n);
    var t, t' := At(s, mvs, n), At(s, mvs, n + 1);
    if k in t.mem { SeenLater(s, mvs, from, n, n + 1, k, Some(t.mem[k])); }
    forall i | 0 <= i < |t.imm| && k in t.imm[i] ensures Seen(s, mvs, from, n + 1, k, Some(t.imm[i][k])) {
      SeenLater(s, mvs, from, n, n + 1, k, Some(t.imm[i][k]));
    }
    if mvs[n].Put? && k in mvs[n].puts {
      MemFirst(t', k);
      assert Seen(s, mvs, from, n + 1, k, Some(t'.mem[k]));
    }
  }

  /** The memtable decides for the keys it holds. */
  lemma MemFirst(s: Layers, k: Key)
    requires k in s.mem
    ensures Newest(s, k) == Some(s.mem[k])
  {
    assert All(s)[|All(s)| - 1] == s.mem;
  }

  lemma DiskStep(s: Layers, mvs: seq<Move>, from: nat, n: nat, k: Key)
    requires from <= n < |mvs| && SinceMiss(s, mvs, from, n, k) && Allowed(At(s, mvs, n), mvs[n])
    ensures SinceMiss(s, mvs, from, n + 1, k)
  {
    hide Search, At, MemorySeen, Seen, TakenSince, LevelOneFresh;
    AtNext(s, mvs, n);
    MemoryStep(s, mvs, from, n, k);
    FreshNext(s, mvs, from, n, k);
    FreshNow(s, mvs, from, n + 1, k);
    var t := At(s, mvs, n);
    forall e: Option<Entry> | Seen(s, mvs, from, n, k, e) ensures Seen(s, mvs, from, n + 1, k, e) {
      SeenLater(s, mvs, from, n, n + 1, k, e);
    }
    SearchNone(k);
    match mvs[n]
    case Flush =>
      if t.imm != [] {
        SearchAppend(t.l0, [t.imm[0]], k);
        SearchOne(t.imm[0], k);
        if k in t.imm[0] { FlushedSeen(s, mvs, from, n, k); }
      }
    case Undo => SearchAppend(t.taken, t.l0, k);
    case Commit =>
      SearchAppend(t.l1, [Union(t.taken)], k);
      SearchOne(Union(t.taken), k);
      SearchIsLookup(t.taken, k);
    case _ =>
  }

  /** Where level 1 is fresh, so is what a compaction takes. */
  lemma FreshNow(s: Layers, mvs: seq<Move>, from: nat, n: nat, k: Key)
    requires from <= n <= |mvs|
    ensures LevelOneFresh(s, mvs, from, n, k) ==> TakenFresh(s, mvs, from, n, k)
  {
    hide At, Search;
    if LevelOneFresh(s, mvs, from, n, k) && Search(At(s, mvs, from).l0, k).Some? {
      var q :| from <= q < n && CommitsFresh(s, mvs, from, q, k);
      assert TakenSince(mvs, from, n);
    }
  }

  lemma FlushedSeen(s: Layers, mvs: seq<Move>, from: nat, n: nat, k: Key)
    requires from <= n <= |mvs| && MemorySeen(s, mvs, from, n, k) && At(s, mvs, n).imm != []
    requires k in At(s, mvs, n).imm[0]
    ensures Seen(s, mvs, from, n, k, Some(At(s, mvs, n).imm[0][k]))
  {
  }

  lemma SearchNone(k: Key)
    ensures Search([], k) == None
  {
  }

  lemma {:induction false} SinceMissHolds(s: Layers, mvs: seq<Move>, from: nat, n: nat, k: Key)
    requires Legal(s, mvs) && from <= n <= |mvs| && MemorySearch(At(s, mvs, from), k) == None
    ensures SinceMiss(s, mvs, from, n, k)
    decreases n
  {
    hide SinceMiss, MemorySearch, At, Allowed, Legal;
    if n == from {
      MissStart(s, mvs, from, k);
    } else {
      SinceMissHolds(s, mvs, from, n - 1, k);
      LegalAt(s, mvs, n - 1);
      DiskStep(s, mvs, from, n - 1, k);
    }
  }

  /** The three looks of a read: memory at one moment, level 0 at a later one, level 1 at a later one still. */
  function Read(memory: Layers, levelZero: Layers, levelOne: Layers, k: Key): Option<Entry> {
    if MemorySearch(memory, k).Some? then MemorySearch(memory, k)
    else if Search(levelZero.l0, k).Some? then Search(levelZero.l0, k)
    else Search(levelOne.l1, k)
  }

  /** One of a read's looks decides rightly: memory or level 0 holds the key, or what level 1 holds at the last
      look is fresh since the first. */
  ghost predicate SomeLookDecides(s: Layers, mvs: seq<Move>, i: nat, j: nat, n: nat, k: Key)
    requires i <= j <= n <= |mvs|
  {
    MemorySearch(At(s, mvs, i), k).Some? || Search(At(s, mvs, j).l0, k).Some? || LevelOneFresh(s, mvs, i, n, k)
  }

  /** Whatever the agents do between its looks, a read one of whose looks decides rightly returns an entry (or an
      absence) that was the newest for its key at some moment between its first look and its last. */
  lemma ReadIsLinearizable(s: Layers, mvs: seq<Move>, i: nat, j: nat, n: nat, k: Key)
    requires Legal(s, mvs) && i <= j <= n <= |mvs| && SomeLookDecides(s, mvs, i, j, n, k)
    ensures Seen(s, mvs, i, n, k, Read(At(s, mvs, i), At(s, mvs, j), At(s, mvs, n), k))
  {
    hide Search, At, MemorySeen, Legal, LevelOneFresh;
    var a, b := At(s, mvs, i), At(s, mvs, j);
    if MemorySearch(a, k).Some? {
      NewestByParts(a, k);
    } else {
      SinceMissHolds(s, mvs, i, j, k);
      SinceMissHolds(s, mvs, i, n, k);
      if Search(b.l0, k).Some? { SeenLater(s, mvs, i, j, n, k, Search(b.l0, k)); }
    }
  }

  /** Any other read is wrong throughout: it returns what level 1 holds, although at every moment from its first
      look to its last a layer above level 1 held the key. */
  lemma OtherReadIsOld(s: Layers, mvs: seq<Move>, i: nat, j: nat, n: nat, m: nat, k: Key)
    requires Legal(s, mvs) && i <= j <= n <= |mvs| && i <= m <= n && !SomeLookDecides(s, mvs, i, j, n, k)
    ensures Read(At(s, mvs, i), At(s, mvs, j), At(s, mvs, n), k) == Search(At(s, mvs, n).l1, k)
    ensures Search(At(s, mvs, m).l0, k).Some? || Search(At(s, mvs, m).taken, k).Some?
  {
    hide Search, At, MemorySeen, Legal, Seen;
    SinceMissHolds(s, mvs, i, m, k);
  }

  /** In particular a read is right if no compaction holds the key when it looks at level 0, or if one that does is
      committed before it looks at level 1. */
  lemma NothingTakenDecides(s: Layers, mvs: seq<Move>, i: nat, j: nat, n: nat, q: nat, k: Key)
    requires Legal(s, mvs) && i <= j <= n <= |mvs|
    requires Search(At(s, mvs, j).taken, k) == None || (j <= q < n && mvs[q].Commit? && Search(At(s, mvs, q).taken, k).Some?)
    ensures SomeLookDecides(s, mvs, i, j, n, k)
  {
    hide Search, At, MemorySeen, Legal, Seen;
    if MemorySearch(At(s, mvs, i), k) == None && Search(At(s, mvs, j).l0, k) == None {
      SinceMissHolds(s, mvs, i, j, k);
      if Search(At(s, mvs, j).taken, k).Some? {
        assert TakenFresh(s, mvs, i, q, k);
        assert CommitsFresh(s, mvs, i, q, k);
      }
    }
  }

  /** The proviso is needed: a read of one state inside a compaction misses a key that only the taken tables
      hold, although the key has been there throughout. */
  lemma ReadInWindowMisses(m: Table, k: Key)
    requires k in m
    ensures var s := Layers([], [], [m], [], map[]);
      var t := Do(s, Take);
      && Legal(s, [Take])
      && Newest(s, k) == Some(m[k]) && Newest(t, k) == Some(m[k])
      && Read(t, t, t, k) == None
  {
    var s := Layers([], [], [m], [], map[]);
    var t := Do(s, Take);
    assert [Take][..0] == [];
    assert Run(s, []) == s;
    NewestByParts(s, k);
    NewestByParts(t, k);
    SearchOne(m, k);
    SearchOne(map[], k);
    SearchNone(k);
    assert s.imm + [s.mem] == [map[]] && t.imm + [t.mem] == [map[]];
  }

  /** A key that memory does not hold stays out of memory until it is put. */
  lemma MemoryStaysWithout(s: Layers, mv: Move, k: Key)
    requires MemorySearch(s, k) == None && (mv.Put? ==> k !in mv.puts)
    ensures MemorySearch(Do(s, mv), k) == None
  {
    hide Search, Union;
    var t := Do(s, mv);
    SearchAppend(s.imm, [s.mem], k);
    SearchAppend(t.imm, [t.mem], k);
    SearchOne(s.mem, k);
    SearchOne(t.mem, k);
    match mv
    case Rotate => SearchAppend(s.imm, [s.mem], k);
    case Flush =>
      if s.imm != [] {
        assert s.imm == [s.imm[0]] + s.imm[1..];
        SearchAppend([s.imm[0]], s.imm[1..], k);
      }
    case _ =>
  }

  // ---------- One key at a time ----------

  /** A table, a list of tables, a store, a move, as far as one key is concerned. */
  function CutTable(m: Table, k: Key): Table {
    if k in m then map[k := m[k]] else map[]
  }

  function CutAll(ms: seq<Table>, k: Key): (r: seq<Table>)
    ensures |r| == |ms| && forall i :: 0 <= i < |r| ==> r[i] == CutTable(ms[i], k)
  {
    seq(|ms|, i requires 0 <= i < |ms| => CutTable(ms[i], k))
  }

  function Cut(s: Layers, k: Key): Layers {
    Layers(CutAll(s.l1, k), CutAll(s.taken, k), CutAll(s.l0, k), CutAll(s.imm, k), CutTable(s.mem, k))
  }

  function CutMove(mv: Move, k: Key): Move {
    if mv.Put? then Put(CutTable(mv.puts, k)) else mv
  }

  lemma CutAppend(a: seq<Table>, b: seq<Table>, k: Key)
    ensures CutAll(a + b, k) == CutAll(a, k) + CutAll(b, k)
  {
    hide CutTable;
  }

  lemma CutOne(m: Table, k: Key)
    ensures CutAll([m], k) == [CutTable(m, k)] && CutAll([], k) == [] && CutTable(map[], k) == map[]
  {
  }

  lemma {:induction false} CutSearch(ms: seq<Table>, k: Key)
    ensures Search(CutAll(ms, k), k) == Search(ms, k)
  {
    if ms != [] {
      CutSearch(ms[..|ms| - 1], k);
      assert CutAll(ms, k)[..|ms| - 1] == CutAll(ms[..|ms| - 1], k);
    }
  }

  lemma {:induction false} CutUnion(ms: seq<Table>, k: Key)
    ensures Union(CutAll(ms, k)) == CutTable(Union(ms), k)
  {
    if ms != [] {
      CutUnion(ms[..|ms| - 1], k);
      assert CutAll(ms, k)[..|ms| - 1] == CutAll(ms[..|ms| - 1], k);
    }
  }

  /** Moves act on each key by itself. */
  lemma CutDo(s: Layers, mv: Move, k: Key)
    ensures Cut(Do(s, mv), k) == Do(Cut(s, k), CutMove(mv, k))
    ensures Allowed(s, mv) ==> Allowed(Cut(s, k), CutMove(mv, k))
  {
    hide Union;
    CutOne(map[], k);
    match mv
    case Put(puts) =>
    case Rotate =>
      CutAppend(s.imm, [s.mem], k);
      CutOne(s.mem, k);
    case Flush =>
      if s.imm != [] {
        CutAppend(s.l0, [s.imm[0]], k);
        CutOne(s.imm[0], k);
        assert CutAll(s.imm[1..], k) == CutAll(s.imm, k)[1..];
      }
    case Take =>
    case Undo => CutAppend(s.taken, s.l0, k);
    case Commit =>
      CutAppend(s.l1, [Union(s.taken)], k);
      CutOne(Union(s.taken), k);
      CutUnion(s.taken, k);
    case Stay =>
  }

  lemma CutNewest(s: Layers, k: Key)
    ensures Newest(Cut(s, k), k) == Newest(s, k)
    ensures MemorySearch(Cut(s, k), k) == MemorySearch(s, k)
  {
    hide Search;
    assert All(Cut(s, k)) == CutAll(All(s), k);
    CutSearch(All(s), k);
    assert Cut(s, k).imm + [Cut(s, k).mem] == CutAll(s.imm + [s.mem], k);
    CutSearch(s.imm + [s.mem], k);
  }

  lemma CutRead(a: Layers, b: Layers, d: Layers, k: Key)
    ensures Read(Cut(a, k), Cut(b, k), Cut(d, k), k) == Read(a, b, d, k)
  {
    hide Search, MemorySearch;
    CutNewest(a, k);
    CutSearch(b.l0, k);
    CutSearch(d.l1, k);
  }
}
