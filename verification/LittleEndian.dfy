/** Fixed-width little-endian integers as `encoding/binary` lays them out, truncation included. */
module LittleEndian {
  import opened Entries

  const TWO_TO_32: int := 0x1_0000_0000
  const TWO_TO_63: int := 0x8000_0000_0000_0000
  const TWO_TO_64: int := 0x1_0000_0000_0000_0000

  function Pow256(w: nat): (p: nat)
    ensures p > 0
  {
    if w == 0 then 1 else 0x100 * Pow256(w - 1)
  }

  /** The low w bytes of n, least significant first. */
  function Put(n: nat, w: nat): (b: seq<Byte>)
    ensures |b| == w
    decreases w
  {
    if w == 0 then [] else [n % 0x100] + Put(n / 0x100, w - 1)
  }

  function Get(b: seq<Byte>): (n: nat)
    ensures n < Pow256(|b|)
    decreases |b|
  {
    if b == [] then 0
    else
      var low: int := b[0];
      low + 0x100 * Get(b[1..])
  }

  lemma {:induction false} PutGet(n: nat, w: nat)
    requires n < Pow256(w)
    ensures Get(Put(n, w)) == n
    decreases w
  {
    if w > 0 {
      PutGet(n / 0x100, w - 1);
      assert Put(n, w)[1..] == Put(n / 0x100, w - 1);
    }
  }

  lemma Pow256Values()
    ensures Pow256(4) == TWO_TO_32 && Pow256(8) == TWO_TO_64
  {
    assert Pow256(2) == 0x1_0000;
    assert Pow256(4) == TWO_TO_32;
    assert Pow256(6) == 0x1_0000 * TWO_TO_32;
  }

  /** `uint64(x)` of a signed timestamp. */
  function Unsigned(x: Int64): nat {
    if x < 0 then x + TWO_TO_64 else x
  }

  /** `int64(u)`, also where the conversion wraps around. */
  function Signed(u: int): Int64 {
    var low := u % TWO_TO_64;
    if low < TWO_TO_63 then low else low - TWO_TO_64
  }

  /** `PutUint32(uint32(n))`: a length of 2^32 or more loses its high bits. */
  function U32(n: nat): (b: seq<Byte>)
    ensures |b| == 4
  {
    Put(n, 4)
  }

  function GetU32(b: seq<Byte>): (n: nat)
    requires |b| == 4
    ensures n < TWO_TO_32
  {
    Pow256Values();
    Get(b)
  }

  function I64(x: Int64): (b: seq<Byte>)
    ensures |b| == 8
  {
    Put(Unsigned(x), 8)
  }

  function GetI64(b: seq<Byte>): Int64
    requires |b| == 8
  {
    Signed(Get(b))
  }

  /** The four bytes of a length, least significant first. */
  lemma U32Bytes(n: nat)
    ensures U32(n) == [n % 0x100, n / 0x100 % 0x100, n / 0x1_0000 % 0x100, n / 0x100_0000 % 0x100]
  {
    PutStep(n, 3);
    PutStep(n / 0x100, 2);
    PutStep(n / 0x100 / 0x100, 1);
    PutStep(n / 0x100 / 0x100 / 0x100, 0);
    assert n / 0x100 / 0x100 == n / 0x1_0000 && n / 0x1_0000 / 0x100 == n / 0x100_0000;
    assert Put(n / 0x100 / 0x100 / 0x100 / 0x100, 0) == [];
  }

  lemma PutStep(n: nat, w: nat)
    ensures Put(n, w + 1) == [n % 0x100] + Put(n / 0x100, w) && Put(n, 0) == []
  {
  }

  /** The eight bytes of a timestamp: its two's complement, least significant first. */
  lemma I64Bytes(x: Int64)
    ensures var u := x % 0x1_0000_0000_0000_0000;
      I64(x) == [u % 0x100, u / 0x100 % 0x100, u / 0x1_0000 % 0x100, u / 0x100_0000 % 0x100,
                 u / 0x1_0000_0000 % 0x100, u / 0x100_0000_0000 % 0x100, u / 0x1_0000_0000_0000 % 0x100,
                 u / 0x100_0000_0000_0000 % 0x100]
  {
    var u := x % 0x1_0000_0000_0000_0000;
    assert u == Unsigned(x);
    var low, high := Put(u, 4), u / 0x1_0000_0000;
    U32Bytes(u);
    U32Bytes(high);
    HighHalf(u);
    assert high / 0x100 == u / 0x100_0000_0000 && high / 0x1_0000 == u / 0x1_0000_0000_0000;
    assert high / 0x100_0000 == u / 0x100_0000_0000_0000;
  }

  lemma HighHalf(n: nat)
    ensures Put(n, 8) == U32(n) + U32(n / 0x1_0000_0000)
  {
    hide Put;
    PutStep(n, 7);
    PutStep(n / 0x100, 6);
    PutStep(n / 0x100 / 0x100, 5);
    PutStep(n / 0x100 / 0x100 / 0x100, 4);
    PutStep(n, 3);
    PutStep(n / 0x100, 2);
    PutStep(n / 0x100 / 0x100, 1);
    PutStep(n / 0x100 / 0x100 / 0x100, 0);
    PutStep(n / 0x100 / 0x100 / 0x100 / 0x100, 0);
    assert n / 0x100 / 0x100 / 0x100 / 0x100 == n / 0x1_0000_0000;
  }

  /** A conversion to signed keeps the value up to multiples of 2^64. */
  lemma SignedIsCongruent(u: int)
    ensures (Signed(u) - u) % 0x1_0000_0000_0000_0000 == 0
  {
  }

  lemma U32RoundTrip(n: nat)
    requires n < TWO_TO_32
    ensures GetU32(U32(n)) == n
  {
    Pow256Values();
    PutGet(n, 4);
  }

  lemma I64RoundTrip(x: Int64)
    ensures GetI64(I64(x)) == x
  {
    var u := Unsigned(x);
    assert Signed(u) == x;
    Pow256Values();
    PutGet(u, 8);
  }

  function Flag(deleted: bool): Byte {
    if deleted then 1 else 0
  }
}
