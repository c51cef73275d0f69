/** Reading from and copying into byte buffers, as `io.ReadFull` and `copy` do. */
module ByteStream {
  import opened Entries

  /** `io.ReadFull` of n bytes: the bytes and what follows them, or None when fewer are left. */
  function ReadFull(b: seq<Byte>, n: nat): (r: Option<(seq<Byte>, seq<Byte>)>)
    ensures r.Some? <==> n <= |b|
    ensures r.Some? ==> |r.value.0| == n && b == r.value.0 + r.value.1
  {
    if |b| < n then None else Some((b[..n], b[n..]))
  }

  lemma ReadBack(x: seq<Byte>, rest: seq<Byte>)
    ensures ReadFull(x + rest, |x|) == Some((x, rest))
  {
    assert (x + rest)[..|x|] == x && (x + rest)[|x|..] == rest;
  }

  lemma ReadMore(b: seq<Byte>, rest: seq<Byte>, n: nat)
    requires n <= |b|
    ensures ReadFull(b + rest, n) == Some((b[..n], b[n..] + rest))
  {
    assert (b + rest)[..n] == b[..n] && (b + rest)[n..] == b[n..] + rest;
  }

  /** `io.ReadFull` into a zeroed buffer whose error is ignored: a short read leaves zeros behind. */
  function ReadPadded(b: seq<Byte>, n: nat): (r: (seq<Byte>, seq<Byte>))
    ensures |r.0| == n && |r.1| <= |b|
  {
    if |b| < n then (b + Zeros(n - |b|), []) else (b[..n], b[n..])
  }

  /** What is there, then zeros; and what is left over. */
  lemma ReadPaddedBytes(b: seq<Byte>, n: nat)
    ensures forall i :: 0 <= i < n ==> ReadPadded(b, n).0[i] == if i < |b| then b[i] else 0
    ensures ReadPadded(b, n).1 == if n < |b| then b[n..] else []
  {
  }

  lemma ReadPaddedBack(x: seq<Byte>, rest: seq<Byte>)
    ensures ReadPadded(x + rest, |x|) == (x, rest)
  {
    assert (x + rest)[..|x|] == x && (x + rest)[|x|..] == rest;
  }

  function Zeros(n: nat): (z: seq<Byte>)
    ensures |z| == n
  {
    seq(n, _ => 0)
  }

  /** `copy(buffer[offset:], bytes)` after which the cursor moves past the copied bytes. */
  method CopyAt(buffer: array<Byte>, offset: nat, bytes: seq<Byte>) returns (next: nat)
    requires offset + |bytes| <= buffer.Length
    modifies buffer
    ensures next == offset + |bytes|
    ensures buffer[..next] == old(buffer[..offset]) + bytes
  {
    for i := 0 to |bytes|
      invariant buffer[..offset + i] == old(buffer[..offset]) + bytes[..i]
    {
      buffer[offset + i] := bytes[i];
    }
    next := offset + |bytes|;
  }
}
