/** The shared bloom filter: bit probes over sharded 64-bit words. */
module BloomFilter {
  import opened Entries
  import opened LittleEndian

  const SHARD_COUNT: nat := 32

  type Word = bv64

  /** One shard's words. */
  type Words = seq<Word>

  /** The 32-bit checksum of the decimal file id, a colon and the key, taken as a parameter. */
  type Checksum = (nat, Key) -> nat

  /** `1 << i`, shifted one place at a time. */
  function Mask(i: nat): Word
    requires i < 64
  {
    if i == 0 then 1 else Mask(i - 1) << 1
  }

  function WordsFor(bits: nat): nat {
    (bits + 63) / 64
  }

  /** `(h1 + i*h2) % shardSize` on unsigned 64-bit integers, with h2 the upper half of h1. */
  function Probe(h1: nat, i: nat, shardSize: nat): (idx: nat)
    requires shardSize > 0
    ensures idx < shardSize
  {
    (h1 + i * (h1 / 0x1_0000)) % TWO_TO_64 % shardSize
  }

  function And(w: Word, m: Word): Word {
    w & m
  }

  function Or(w: Word, m: Word): Word {
    w | m
  }

  predicate HasBit(w: Word, m: Word) {
    And(w, m) != 0
  }

  predicate TestBit(words: Words, idx: nat)
    requires idx / 64 < |words|
  {
    HasBit(words[idx / 64], Mask(idx % 64))
  }

  function SetBit(words: Words, idx: nat): (r: Words)
    requires idx / 64 < |words|
    ensures |r| == |words|
  {
    words[idx / 64 := Or(words[idx / 64], Mask(idx % 64))]
  }

  // ---------- What the bit arithmetic is ----------

  /** The masks are the powers of two up to the topmost bit. */
  lemma MaskValues()
    ensures Mask(0) == 1 && Mask(7) == 0x80 && Mask(31) == 0x8000_0000 && Mask(63) == 0x8000_0000_0000_0000
  {
    assert Mask(15) == 0x8000;
    assert Mask(23) == 0x80_0000;
    assert Mask(39) == 0x80_0000_0000;
    assert Mask(47) == 0x8000_0000_0000;
    assert Mask(55) == 0x80_0000_0000_0000;
  }

  lemma {:induction false} MaskNonZero(i: nat)
    requires i < 64
    ensures Mask(i) != 0
    decreases 64 - i
  {
    if i < 63 { MaskNonZero(i + 1); } else { MaskValues(); }
  }

  lemma ShiftAnd(m: Word, x: Word)
    ensures m & x == 0 ==> (m << 1) & (x << 1) == 0
    ensures (1 as Word) & (x << 1) == 0
  {
  }

  lemma {:induction false} MasksApart(i: nat, j: nat)
    requires i < j < 64
    ensures Mask(i) & Mask(j) == 0
  {
    if i > 0 {
      MasksApart(i - 1, j - 1);
      ShiftAnd(Mask(i - 1), Mask(j - 1));
    } else {
      ShiftAnd(1, Mask(j - 1));
    }
  }

  lemma AndLaws(m: Word, x: Word)
    ensures m & x == x & m && m & m == m
  {
  }

  lemma BitLaw(w: Word, m: Word, x: Word)
    ensures (w | m) & x == (w & x) | (m & x)
  {
  }

  lemma Operators(w: Word, m: Word)
    ensures And(w, m) == w & m && Or(w, m) == w | m
  {
  }

  lemma OrDistributes(w: Word, m: Word, x: Word)
    ensures And(Or(w, m), x) == Or(And(w, x), And(m, x))
  {
    hide And, Or;
    BitLaw(w, m, x);
    Operators(w, m);
    Operators(w, x);
    Operators(m, x);
    Operators(w | m, x);
    Operators(w & x, m & x);
  }

  lemma OrZero(a: Word, b: Word)
    ensures Or(a, b) != 0 <==> a != 0 || b != 0
  {
  }

  /** Each mask is a bit of its own. */
  lemma MaskBits(i: nat, j: nat)
    requires i < 64 && j < 64
    ensures HasBit(Mask(i), Mask(j)) <==> i == j
  {
    AndLaws(Mask(i), Mask(j));
    if i < j {
      MasksApart(i, j);
    } else if j < i {
      MasksApart(j, i);
    } else {
      MaskNonZero(i);
    }
  }

  lemma OrHasBit(w: Word, m: Word, x: Word)
    ensures HasBit(Or(w, m), x) <==> HasBit(w, x) || HasBit(m, x)
  {
    hide And, Or;
    OrDistributes(w, m, x);
    OrZero(And(w, x), And(m, x));
  }

  /** Setting a bit sets that bit and no other. */
  lemma SetBitExactly(words: Words, idx: nat, other: nat)
    requires idx / 64 < |words| && other / 64 < |words|
    ensures TestBit(SetBit(words, idx), other) <==> other == idx || TestBit(words, other)
  {
    hide Mask, HasBit, Or;
    var i, j := idx % 64, other % 64;
    OrHasBit(words[idx / 64], Mask(i), Mask(j));
    MaskBits(i, j);
  }

  /** In particular bits only ever grow. */
  lemma SetBitGrows(words: Words, idx: nat, other: nat)
    requires idx / 64 < |words| && other / 64 < |words|
    ensures TestBit(SetBit(words, idx), idx)
    ensures TestBit(words, other) ==> TestBit(SetBit(words, idx), other)
  {
    hide TestBit, SetBit;
    SetBitExactly(words, idx, idx);
    SetBitExactly(words, idx, other);
  }

  lemma TimesApart(n: int, k: int)
    requires n > 0
    ensures k >= 1 ==> n * k >= n
    ensures k <= -1 ==> n * k <= -n
  {
  }

  /** Quotient and remainder are unique. */
  lemma RemainderOf(n: nat, q: int, r: nat)
    requires r < n
    ensures (n * q + r) % n == r
  {
    var x := n * q + r;
    var d, e := x / n, x % n;
    assert x == n * d + e;
    TimesApart(n, d - q);
    assert n * (d - q) == n * d - n * q;
  }

  lemma Distributes(n: int, a: int, b: int)
    ensures n * (a + b) == n * a + n * b
  {
  }

  lemma AddMod(x: nat, h: nat, n: nat)
    requires n > 0
    ensures (x % n + h) % n == (x + h) % n
  {
    var y := x % n + h;
    var p, q, r := x / n, y / n, y % n;
    assert x == n * p + x % n && y == n * q + r;
    Distributes(n, p, q);
    assert x + h == n * (p + q) + r;
    RemainderOf(n, p + q, r);
  }

  lemma BelowWrap(h1: nat, i: nat, shardSize: nat)
    requires shardSize > 0 && h1 + i * (h1 / 0x1_0000) < 0x1_0000_0000_0000_0000
    ensures Probe(h1, i, shardSize) == (h1 + i * (h1 / 0x1_0000)) % shardSize
  {
  }

  /** The probes: the first at the checksum, each next one further by the checksum's upper half, modulo the number of
      bits, as long as the sum stays below 2^64. */
  lemma ProbeSteps(h1: nat, i: nat, shardSize: nat)
    requires shardSize > 0 && h1 + (i + 1) * (h1 / 65536) < 0x1_0000_0000_0000_0000
    ensures Probe(h1, 0, shardSize) == h1 % shardSize
    ensures Probe(h1, i + 1, shardSize) == (Probe(h1, i, shardSize) + h1 / 65536) % shardSize
  {
    hide Probe;
    var h2 := h1 / 65536;
    assert (i + 1) * h2 == i * h2 + h2 && 0 * h2 == 0 <= i * h2;
    BelowWrap(h1, 0, shardSize);
    BelowWrap(h1, i, shardSize);
    BelowWrap(h1, i + 1, shardSize);
    AddMod(h1 + i * h2, h2, shardSize);
  }

  // ---------- The filter as a value ----------

  predicate WordsValid(words: Words, shardSize: nat) {
    shardSize > 0 && |words| == WordsFor(shardSize)
  }

  /** The first n probes of a checksum, set one after another. */
  function SetProbes(words: Words, h1: nat, n: nat, shardSize: nat): (r: Words)
    requires WordsValid(words, shardSize)
    ensures WordsValid(r, shardSize)
  {
    if n == 0 then words else SetBit(SetProbes(words, h1, n - 1, shardSize), Probe(h1, n - 1, shardSize))
  }

  predicate TestProbes(words: Words, h1: nat, n: nat, shardSize: nat)
    requires WordsValid(words, shardSize)
  {
    forall i :: 0 <= i < n ==> TestBit(words, Probe(h1, i, shardSize))
  }

  lemma {:induction false} SetProbesKeep(words: Words, h1: nat, n: nat, shardSize: nat, idx: nat)
    requires WordsValid(words, shardSize) && idx < shardSize && TestBit(words, idx)
    ensures TestBit(SetProbes(words, h1, n, shardSize), idx)
  {
    if n > 0 {
      SetProbesKeep(words, h1, n - 1, shardSize, idx);
      SetBitGrows(SetProbes(words, h1, n - 1, shardSize), Probe(h1, n - 1, shardSize), idx);
    }
  }

  lemma {:induction false} SetProbesSet(words: Words, h1: nat, n: nat, shardSize: nat, i: nat)
    requires WordsValid(words, shardSize) && i < n
    ensures TestBit(SetProbes(words, h1, n, shardSize), Probe(h1, i, shardSize))
  {
    var before, last := SetProbes(words, h1, n - 1, shardSize), Probe(h1, n - 1, shardSize);
    if i < n - 1 { SetProbesSet(words, h1, n - 1, shardSize, i); }
    SetBitGrows(before, last, Probe(h1, i, shardSize));
  }

  /** Setting probes sets exactly their bits. */
  lemma {:induction false} SetProbesExactly(words: Words, h1: nat, n: nat, shardSize: nat, idx: nat)
    requires WordsValid(words, shardSize) && idx < shardSize
    ensures TestBit(SetProbes(words, h1, n, shardSize), idx) <==>
      TestBit(words, idx) || exists i :: 0 <= i < n && Probe(h1, i, shardSize) == idx
  {
    hide Probe, SetBit, TestBit;
    if n > 0 {
      SetProbesExactly(words, h1, n - 1, shardSize, idx);
      SetBitExactly(SetProbes(words, h1, n - 1, shardSize), Probe(h1, n - 1, shardSize), idx);
    }
  }

  datatype Bloom = Bloom(checksum: Checksum, hashCount: nat, shardSize: nat, shards: seq<Words>) {

    ghost predicate Valid() {
      && |shards| == SHARD_COUNT
      && forall i :: 0 <= i < SHARD_COUNT ==> WordsValid(shards[i], shardSize)
    }

    function Add(id: nat, key: Key): (b: Bloom)
      requires Valid()
      ensures b.Valid()
    {
      var s := id % SHARD_COUNT;
      this.(shards := shards[s := SetProbes(shards[s], checksum(id, key), hashCount, shardSize)])
    }

    predicate Contains(id: nat, key: Key)
      requires Valid()
    {
      TestProbes(shards[id % SHARD_COUNT], checksum(id, key), hashCount, shardSize)
    }

    /** One `Add` per entry of a table. */
    function AddAll(id: nat, es: seq<Entry>): (b: Bloom)
      requires Valid()
      ensures b.Valid()
    {
      if es == [] then this else AddAll(id, es[..|es| - 1]).Add(id, es[|es| - 1].key)
    }
  }

  /** Bits only ever grow: what the filter contained it still contains. */
  lemma AddKeeps(b: Bloom, id: nat, key: Key, id': nat, key': Key)
    requires b.Valid() && b.Contains(id, key)
    ensures b.Add(id', key').Contains(id, key)
  {
    var s := id % SHARD_COUNT;
    if s == id' % SHARD_COUNT {
      forall i | 0 <= i < b.hashCount
        ensures TestBit(b.Add(id', key').shards[s], Probe(b.checksum(id, key), i, b.shardSize))
      {
        SetProbesKeep(b.shards[s], b.checksum(id', key'), b.hashCount, b.shardSize,
                      Probe(b.checksum(id, key), i, b.shardSize));
      }
    }
  }

  /** Exactly what an `Add` brings in: afterwards the filter contains a key of the same shard if every probe of the key
      was set or is a probe of the added key; keys of other shards it contains as before. */
  lemma AddExactly(b: Bloom, id: nat, key: Key, id': nat, key': Key)
    requires b.Valid()
    ensures id % 32 != id' % 32 ==> (b.Add(id, key).Contains(id', key') <==> b.Contains(id', key'))
    ensures id % 32 == id' % 32 ==> (b.Add(id, key).Contains(id', key') <==>
      forall i :: 0 <= i < b.hashCount ==> var p := Probe(b.checksum(id', key'), i, b.shardSize);
        TestBit(b.shards[id' % 32], p) || exists j :: 0 <= j < b.hashCount && Probe(b.checksum(id, key), j, b.shardSize) == p)
  {
    hide Probe, TestBit, SetProbes;
    assert WordsValid(b.shards[id' % 32], b.shardSize);
    if id % 32 == id' % 32 {
      forall i | 0 <= i < b.hashCount
        ensures var p := Probe(b.checksum(id', key'), i, b.shardSize);
          TestBit(b.Add(id, key).shards[id' % 32], p) <==>
          TestBit(b.shards[id' % 32], p) || exists j :: 0 <= j < b.hashCount && Probe(b.checksum(id, key), j, b.shardSize) == p
      {
        SetProbesExactly(b.shards[id % 32], b.checksum(id, key), b.hashCount, b.shardSize, Probe(b.checksum(id', key'), i, b.shardSize));
      }
    }
  }

  /** A filter of zeros that probes at all contains nothing. */
  lemma EmptyContainsNothing(b: Bloom, id: nat, key: Key)
    requires b.Valid() && b.hashCount > 0 && forall i, j :: 0 <= i < 32 && 0 <= j < |b.shards[i]| ==> b.shards[i][j] == 0
    ensures !b.Contains(id, key)
  {
    hide Mask;
    assert WordsValid(b.shards[id % 32], b.shardSize);
    var p := Probe(b.checksum(id, key), 0, b.shardSize);
    NothingSet(Mask(p % 64));
    hide And;
    assert !TestBit(b.shards[id % 32], p);
  }

  lemma NothingSet(m: Word)
    ensures And(0, m) == 0
  {
  }

  /** No false negative right after an `Add`. */
  lemma AddContains(b: Bloom, id: nat, key: Key)
    requires b.Valid()
    ensures b.Add(id, key).Contains(id, key)
  {
    var s := id % SHARD_COUNT;
    forall i | 0 <= i < b.hashCount
      ensures TestBit(b.Add(id, key).shards[s], Probe(b.checksum(id, key), i, b.shardSize))
    {
      SetProbesSet(b.shards[s], b.checksum(id, key), b.hashCount, b.shardSize, i);
    }
  }

  /** After a table is written, the filter contains everything it contained and every key of the table. */
  lemma {:induction false} AddAllContains(b: Bloom, id: nat, es: seq<Entry>, id': nat, key: Key)
    requires b.Valid()
    requires b.Contains(id', key) || (id' == id && key in ToMap(es))
    ensures b.AddAll(id, es).Contains(id', key)
  {
    if es != [] {
      var before, last := es[..|es| - 1], es[|es| - 1];
      if id' == id && key == last.key {
        AddContains(b.AddAll(id, before), id, key);
      } else {
        AddAllContains(b, id, before, id', key);
        AddKeeps(b.AddAll(id, before), id', key, id, last.key);
      }
    }
  }

  // ---------- The filter in memory ----------

  class SharedBloomFilter {
    const checksum: Checksum
    const shards: seq<array<Word>>
    const hashCount: nat
    const shardSize: nat

    ghost predicate Valid()
      reads shards
    {
      && |shards| == SHARD_COUNT
      && (forall i, j :: 0 <= i < j < SHARD_COUNT ==> shards[i] != shards[j])
      && forall i :: 0 <= i < SHARD_COUNT ==> WordsValid(shards[i][..], shardSize)
    }

    ghost function Value(): (b: Bloom)
      requires Valid()
      reads shards
      ensures b.Valid()
    {
      Bloom(checksum, hashCount, shardSize, seq(SHARD_COUNT, i requires 0 <= i < SHARD_COUNT reads shards => shards[i][..]))
    }

    /** Sizing once the floating-point formula has given a bit and a hash count. */
    constructor (checksum: Checksum, wantedBits: nat, hashes: nat)
      ensures Valid() && forall i :: 0 <= i < SHARD_COUNT ==> fresh(shards[i])
      ensures Value().checksum == checksum && hashCount == hashes
      ensures var bits := if wantedBits < 64 then 64 else if wantedBits > 0x4_0000_0000 then 0x4_0000_0000 else wantedBits;
        bits <= 32 * shardSize < bits + 32
      ensures |shards| == 32 && forall i :: 0 <= i < 32 ==> shards[i].Length == (shardSize + 63) / 64
      ensures forall i, j :: 0 <= i < SHARD_COUNT && 0 <= j < shards[i].Length ==> shards[i][j] == 0
    {
      var bits := wantedBits;
      if bits < 64 { bits := 64; }
      if bits > 0x4_0000_0000 { bits := 0x4_0000_0000; }
      var bitsPerShard := (bits + SHARD_COUNT - 1) / SHARD_COUNT;
      var made: seq<array<Word>> := [];
      for i := 0 to SHARD_COUNT
        invariant |made| == i
        invariant forall j :: 0 <= j < i ==> fresh(made[j]) && made[j].Length == WordsFor(bitsPerShard)
        invariant forall j, k :: 0 <= j < k < i ==> made[j] != made[k]
        invariant forall j, k :: 0 <= j < i && 0 <= k < made[j].Length ==> made[j][k] == 0
      {
        var data := new Word[WordsFor(bitsPerShard)](_ => 0);
        made := made + [data];
      }
      this.checksum := checksum;
      shards := made;
      hashCount := hashes;
      shardSize := bitsPerShard;
    }

    method Add(id: nat, key: Key)
      requires Valid()
      modifies shards
      ensures Valid() && Value() == old(Value()).Add(id, key)
    {
      var s := id % SHARD_COUNT;
      SetAll(shards[s], checksum(id, key));
      assert forall j :: 0 <= j < SHARD_COUNT && j != s ==> shards[j][..] == old(shards[j][..]);
    }

    /** The probe loop of `Add` on one shard's words. */
    method SetAll(data: array<Word>, h1: nat)
      requires WordsValid(data[..], shardSize)
      modifies data
      ensures data[..] == SetProbes(old(data[..]), h1, hashCount, shardSize)
    {
      for i := 0 to hashCount
        invariant data[..] == SetProbes(old(data[..]), h1, i, shardSize)
      {
        var idx := Probe(h1, i, shardSize);
        data[idx / 64] := Or(data[idx / 64], Mask(idx % 64));
      }
    }

    method Contains(id: nat, key: Key) returns (r: bool)
      requires Valid()
      ensures r == Value().Contains(id, key)
    {
      hide Mask, And;
      var data := shards[id % SHARD_COUNT];
      var h1 := checksum(id, key);
      for i := 0 to hashCount
        invariant TestProbes(data[..], h1, i, shardSize)
      {
        var idx := Probe(h1, i, shardSize);
        if And(data[idx / 64], Mask(idx % 64)) == 0 {
          assert !TestBit(data[..], idx);
          return false;
        }
      }
      return true;
    }
  }
}
