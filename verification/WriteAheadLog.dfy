/** The write-ahead log: precomputed-size encoder and streaming decoder over a byte file. */
module WriteAheadLog {
  import opened Entries
  import opened LittleEndian
  import opened ByteStream

  /** One record: key length, key, value length, value, expiry, tombstone flag. */
  function Record(e: Entry): (b: seq<Byte>)
    ensures |b| == 17 + |e.key| + |e.value|
  {
    U32(|e.key|) + (e.key + (U32(|e.value|) + (e.value + (I64(e.expiry) + [Flag(e.deleted)]))))
  }

  /** Where the fields of a record lie. */
  lemma RecordLayout(e: Entry)
    ensures var b, k, v := Record(e), |e.key|, |e.value|;
      && |b| == 17 + k + v
      && b[..4] == U32(k) && b[4..4 + k] == e.key
      && b[4 + k..8 + k] == U32(v) && b[8 + k..8 + k + v] == e.value
      && b[8 + k + v..16 + k + v] == I64(e.expiry) && b[16 + k + v] == (if e.deleted then 1 else 0)
  {
    hide U32, I64;
  }

  function Encode(es: seq<Entry>): seq<Byte> {
    if es == [] then [] else Record(es[0]) + Encode(es[1..])
  }

  /** The first record of a byte string and what follows it, or None where a `ReadFull` comes up short. */
  function Decode(b: seq<Byte>): (r: Option<(Entry, seq<Byte>)>)
    ensures r.Some? ==> |r.value.1| < |b| && Fits(r.value.0)
  {
    match ReadFull(b, 4)
    case None => None
    case Some((kLen, b1)) =>
      match ReadFull(b1, GetU32(kLen))
      case None => None
      case Some((key, b2)) =>
        match ReadFull(b2, 4)
        case None => None
        case Some((vLen, b3)) =>
          match ReadFull(b3, GetU32(vLen))
          case None => None
          case Some((value, b4)) =>
            match ReadFull(b4, 9)
            case None => None
            case Some((meta, b5)) =>
              Some((Entry(key, value, GetI64(meta[..8]), meta[8] == 1), b5))
  }

  /** What a replay hands to its callback, and whether it returned nil. */
  datatype Replayed = Replayed(entries: seq<Entry>, ok: bool)

  function ReplayLog(log: seq<Byte>): (r: Replayed)
    ensures AllFit(r.entries)
    decreases |log|
  {
    if log == [] then Replayed([], true)
    else match Decode(log)
      case None => Replayed([], false)
      case Some((e, rest)) => var r := ReplayLog(rest); Replayed([e] + r.entries, r.ok)
  }

  // ---------- The encoder and the decoder are inverse ----------

  lemma DecodeRecord(e: Entry, rest: seq<Byte>)
    requires Fits(e)
    ensures Decode(Record(e) + rest) == Some((e, rest))
  {
    hide ReadFull, U32, I64, GetU32, GetI64;
    var meta := I64(e.expiry) + [Flag(e.deleted)];
    var b4 := meta + rest;
    var b3 := e.value + b4;
    var b2 := U32(|e.value|) + b3;
    var b1 := e.key + b2;
    assert Record(e) + rest == U32(|e.key|) + b1;
    ReadBack(U32(|e.key|), b1);
    U32RoundTrip(|e.key|);
    ReadBack(e.key, b2);
    ReadBack(U32(|e.value|), b3);
    U32RoundTrip(|e.value|);
    ReadBack(e.value, b4);
    ReadBack(meta, rest);
    assert meta[..8] == I64(e.expiry);
    I64RoundTrip(e.expiry);
  }

  /** Decoding looks no further than the record it returns. */
  lemma DecodePrefix(b: seq<Byte>, rest: seq<Byte>)
    requires Decode(b).Some?
    ensures Decode(b + rest) == Some((Decode(b).value.0, Decode(b).value.1 + rest))
  {
    var (kLen, b1) := ReadFull(b, 4).value;
    ReadMore(b, rest, 4);
    var (key, b2) := ReadFull(b1, GetU32(kLen)).value;
    ReadMore(b1, rest, GetU32(kLen));
    var (vLen, b3) := ReadFull(b2, 4).value;
    ReadMore(b2, rest, 4);
    var (value, b4) := ReadFull(b3, GetU32(vLen)).value;
    ReadMore(b3, rest, GetU32(vLen));
    ReadMore(b4, rest, 9);
  }

  /** A record cut anywhere but at its end does not decode: were the cut decodable, the whole record
      would decode to the same entry with bytes to spare. */
  lemma DecodeTorn(e: Entry, n: nat)
    requires Fits(e) && n < |Record(e)|
    ensures Decode(Record(e)[..n]) == None
  {
    hide Decode;
    var b := Record(e);
    DecodeRecord(e, []);
    assert b + [] == b;
    assert b[..n] + b[n..] == b;
    if Decode(b[..n]).Some? { DecodePrefix(b[..n], b[n..]); }
  }

  lemma {:induction false} EncodeAppend(a: seq<Entry>, b: seq<Entry>)
    ensures Encode(a + b) == Encode(a) + Encode(b)
    decreases |a|
  {
    hide Record;
    if a == [] {
      assert a + b == b;
    } else {
      assert (a + b)[1..] == a[1..] + b;
      EncodeAppend(a[1..], b);
    }
  }

  lemma {:induction false} EncodeSnoc(es: seq<Entry>, i: nat)
    requires i < |es|
    ensures Encode(es[..i + 1]) == Encode(es[..i]) + Record(es[i])
  {
    hide Record;
    assert es[..i + 1] == es[..i] + [es[i]];
    EncodeAppend(es[..i], [es[i]]);
    assert Encode([es[i]]) == Record(es[i]) + Encode([es[i]][1..]);
  }

  /** Bytes appended to a log that replays cleanly are replayed as they would be on their own. */
  lemma {:induction false} ReplayConcat(log: seq<Byte>, tail: seq<Byte>)
    requires ReplayLog(log).ok
    ensures ReplayLog(log + tail) == Replayed(ReplayLog(log).entries + ReplayLog(tail).entries, ReplayLog(tail).ok)
    decreases |log|
  {
    hide Decode;
    if log == [] {
      assert log + tail == tail;
    } else {
      DecodePrefix(log, tail);
      ReplayConcat(Decode(log).value.1, tail);
    }
  }

  lemma {:induction false} ReplayEncoded(es: seq<Entry>)
    requires AllFit(es)
    ensures ReplayLog(Encode(es)) == Replayed(es, true)
  {
    hide Decode, Record;
    if es != [] {
      DecodeRecord(es[0], Encode(es[1..]));
      ReplayEncoded(es[1..]);
      assert es == [es[0]] + es[1..];
    }
  }

  /** Appending encoded entries to a log that replays cleanly appends exactly those entries to its replay. */
  lemma ReplayAppend(log: seq<Byte>, es: seq<Entry>)
    requires ReplayLog(log).ok && AllFit(es)
    ensures ReplayLog(log + Encode(es)) == Replayed(ReplayLog(log).entries + es, true)
  {
    hide Decode;
    ReplayConcat(log, Encode(es));
    ReplayEncoded(es);
  }

  /** Encoding round trips exactly when every length survives its 32-bit field. */
  lemma RoundTripIff(es: seq<Entry>)
    ensures ReplayLog(Encode(es)) == Replayed(es, true) <==> AllFit(es)
  {
    hide Decode, Record;
    if AllFit(es) { ReplayEncoded(es); }
  }

  // ---------- A log cut at any byte ----------

  /** How many whole records lie in the first n bytes. */
  function WholeRecords(es: seq<Entry>, n: nat): (k: nat)
    ensures k <= |es|
  {
    if es == [] || n < |Record(es[0])| then 0 else 1 + WholeRecords(es[1..], n - |Record(es[0])|)
  }

  lemma EncodeFirst(es: seq<Entry>, k: nat)
    requires 1 <= k <= |es|
    ensures es[..k] == [es[0]] + es[1..][..k - 1]
    ensures Encode(es[..k]) == Record(es[0]) + Encode(es[1..][..k - 1])
  {
    hide Record;
    assert es[..k][1..] == es[1..][..k - 1];
  }

  /** That many records fit before the cut, and no more. */
  lemma {:induction false} WholeRecordsIsMost(es: seq<Entry>, n: nat)
    ensures var k := WholeRecords(es, n);
      |Encode(es[..k])| <= n && (k < |es| ==> n < |Encode(es[..k + 1])|)
    decreases |es|
  {
    hide Record;
    if es == [] {
    } else if n < |Record(es[0])| {
      EncodeFirst(es, 1);
    } else {
      var k := WholeRecords(es, n);
      WholeRecordsIsMost(es[1..], n - |Record(es[0])|);
      EncodeFirst(es, k);
      if k < |es| { EncodeFirst(es, k + 1); }
    }
  }

  /** Replay of a cut log delivers exactly the whole records before the cut, in order, and returns nil
      exactly when the cut falls on a record boundary. */
  lemma {:induction false} TornReplay(es: seq<Entry>, n: nat)
    requires AllFit(es) && n <= |Encode(es)|
    ensures var k := WholeRecords(es, n);
      && ReplayLog(Encode(es)[..n]) == Replayed(es[..k], n == |Encode(es[..k])|)
      && |Encode(es[..k])| <= n && (k < |es| ==> n < |Encode(es[..k + 1])|)
    decreases |es|
  {
    hide Decode, Record;
    WholeRecordsIsMost(es, n);
    if es == [] {
    } else if n < |Record(es[0])| {
      assert Encode(es)[..n] == Record(es[0])[..n];
      DecodeTorn(es[0], n);
    } else {
      var r := Record(es[0]);
      var m := n - |r|;
      TornReplay(es[1..], m);
      assert Encode(es)[..n] == r + Encode(es[1..])[..m];
      DecodeRecord(es[0], Encode(es[1..])[..m]);
      EncodeFirst(es, WholeRecords(es, n));
    }
  }

  /** The same for a log that already held cleanly replayable bytes: a write that keeps only a prefix of
      its batch leaves every earlier entry, the batch's whole records, and a nil replay exactly on a
      boundary. */
  lemma TornWrite(log: seq<Byte>, es: seq<Entry>, n: nat)
    requires ReplayLog(log).ok && AllFit(es) && n <= |Encode(es)|
    ensures var k := WholeRecords(es, n);
      ReplayLog(log + Encode(es)[..n]) == Replayed(ReplayLog(log).entries + es[..k], n == |Encode(es[..k])|)
  {
    hide Decode;
    ReplayConcat(log, Encode(es)[..n]);
    TornReplay(es, n);
  }

  /** Decoding a record consumes exactly as many bytes as encoding it takes. */
  lemma DecodeLength(b: seq<Byte>)
    requires Decode(b).Some?
    ensures |b| == |Record(Decode(b).value.0)| + |Decode(b).value.1|
  {
    hide Record, GetU32, GetI64;
  }

  /** A log that replays cleanly is just as long as the encoding of what it replays to. */
  lemma {:induction false} CleanLength(log: seq<Byte>)
    requires ReplayLog(log).ok
    ensures |log| == |Encode(ReplayLog(log).entries)|
    decreases |log|
  {
    hide Decode, Record;
    if log != [] {
      var (e, rest) := Decode(log).value;
      CleanLength(rest);
      DecodeLength(log);
      assert ([e] + ReplayLog(rest).entries)[1..] == ReplayLog(rest).entries;
    }
  }

  /** Writing on after a failed write: the records kept by it and those of the next write are all replayed
      exactly when the failed write stopped on a record boundary. Otherwise the next batch, although its
      own write succeeded, is not recovered as it was written. */
  lemma WriteAfterTornWriteIff(log: seq<Byte>, es: seq<Entry>, n: nat, fs: seq<Entry>)
    requires ReplayLog(log).ok && AllFit(es) && AllFit(fs) && n <= |Encode(es)|
    ensures var k := WholeRecords(es, n);
      ReplayLog(log + Encode(es)[..n] + Encode(fs)) == Replayed(ReplayLog(log).entries + es[..k] + fs, true)
      <==> n == |Encode(es[..k])|
  {
    hide Encode, WholeRecords, ReplayLog;
    var k := WholeRecords(es, n);
    var torn := log + Encode(es)[..n];
    TornWrite(log, es, n);
    if n == |Encode(es[..k])| {
      ReplayAppend(torn, fs);
    } else if ReplayLog(torn + Encode(fs)) == Replayed(ReplayLog(log).entries + es[..k] + fs, true) {
      CleanLength(torn + Encode(fs));
      CleanLength(log);
      EncodeAppend(ReplayLog(log).entries + es[..k], fs);
      EncodeAppend(ReplayLog(log).entries, es[..k]);
    }
  }

  /** An instance in which nothing at all comes back: after one stray byte this record is read with a wrong
      key length. */
  lemma RecordAfterTornWriteLost()
    ensures exists e, f :: Fits(e) && Fits(f) && ReplayLog(Record(e)[..1] + Record(f)) == Replayed([], false)
  {
    var e, f := Entry([], [], 0, false), Entry([7], [], 0, false);
    var b := Record(e)[..1] + Record(f);
    assert Put(0, 4)[0] == 0 && Record(e)[0] == 0;
    assert U32(1) == [1] + Put(0, 3) && Put(0, 3) == [0] + Put(0, 2) && Put(0, 2) == [0] + Put(0, 1);
    assert b[..4] == [0, 1, 0, 0];
    assert Get([0, 0]) == 0 by { assert [0, 0][1..] == [0] && [0][1..] == []; }
    assert [0, 1, 0, 0][1..] == [1, 0, 0] && [1, 0, 0][1..] == [0, 0];
    assert Get([0, 1, 0, 0]) == 0x100;
    assert Decode(b) == None;
  }

  // ---------- The log file ----------

  /** How a write to the file ends: done, or failed after keeping some bytes (all of them when only the
      final sync fails). */
  datatype WriteOutcome = Written | Failed(kept: nat)

  class DiskWAL {
    var file: seq<Byte>

    constructor ()
      ensures file == []
    {
      file := [];
    }

    method WriteBatch(entries: seq<Entry>, outcome: WriteOutcome) returns (ok: bool)
      requires outcome.Failed? ==> outcome.kept <= |Encode(entries)|
      modifies this
      ensures ok == outcome.Written?
      ensures file == old(file) + (if ok then Encode(entries) else Encode(entries)[..outcome.kept])
    {
      hide Record;
      var totalSize := 0;
      for i := 0 to |entries|
        invariant totalSize == |Encode(entries[..i])|
        invariant file == old(file)
      {
        EncodeSnoc(entries, i);
        totalSize := totalSize + 4 + |entries[i].key| + 4 + |entries[i].value| + 9;
      }
      assert entries[..|entries|] == entries;

      var buffer := new Byte[totalSize](_ => 0);
      var offset := 0;
      for i := 0 to |entries|
        invariant offset == |Encode(entries[..i])| <= buffer.Length
        invariant buffer[..offset] == Encode(entries[..i])
        invariant file == old(file)
      {
        FitsBuffer(entries, i);
        EncodeSnoc(entries, i);
        offset := PutRecord(buffer, offset, entries[i]);
      }
      assert buffer[..] == Encode(entries);

      match outcome {
        case Written => file := file + buffer[..];
        case Failed(kept) =>
          assert buffer[..kept] == buffer[..][..kept];
          file := file + buffer[..kept];
      }
      ok := outcome.Written?;
    }

    /** The callback of the original receives the delivered entries one by one, in order. */
    method Replay() returns (delivered: seq<Entry>, ok: bool)
      ensures Replayed(delivered, ok) == ReplayLog(file)
    {
      var reader := file;
      delivered := [];
      while reader != []
        invariant ReplayLog(file) == (var r := ReplayLog(reader); Replayed(delivered + r.entries, r.ok))
        decreases |reader|
      {
        ghost var start := reader;
        var header := ReadFull(reader, 4);
        if header == None { return delivered, false; }
        var kLen := GetU32(header.value.0);
        var key := ReadFull(header.value.1, kLen);
        if key == None { return delivered, false; }
        header := ReadFull(key.value.1, 4);
        if header == None { return delivered, false; }
        var vLen := GetU32(header.value.0);
        var val := ReadFull(header.value.1, vLen);
        if val == None { return delivered, false; }
        var meta := ReadFull(val.value.1, 9);
        if meta == None { return delivered, false; }
        var e := Entry(key.value.0, val.value.0, GetI64(meta.value.0[..8]), meta.value.0[8] == 1);
        assert Decode(start) == Some((e, meta.value.1));
        delivered := delivered + [e];
        reader := meta.value.1;
      }
      ok := true;
    }
  }

  lemma FitsBuffer(es: seq<Entry>, i: nat)
    requires i < |es|
    ensures |Encode(es[..i])| + |Record(es[i])| <= |Encode(es)|
  {
    hide Record, Encode;
    EncodeSnoc(es, i);
    assert es == es[..i + 1] + es[i + 1..];
    EncodeAppend(es[..i + 1], es[i + 1..]);
  }

  method PutRecord(buffer: array<Byte>, offset: nat, e: Entry) returns (next: nat)
    requires offset + |Record(e)| <= buffer.Length
    modifies buffer
    ensures next == offset + |Record(e)|
    ensures buffer[..next] == old(buffer[..offset]) + Record(e)
  {
    next := CopyAt(buffer, offset, U32(|e.key|));
    next := CopyAt(buffer, next, e.key);
    next := CopyAt(buffer, next, U32(|e.value|));
    next := CopyAt(buffer, next, e.value);
    next := CopyAt(buffer, next, I64(e.expiry));
    next := CopyAt(buffer, next, [Flag(e.deleted)]);
    Regroup(old(buffer[..offset]), U32(|e.key|), e.key, U32(|e.value|), e.value, I64(e.expiry), [Flag(e.deleted)]);
  }

  lemma Regroup(s: seq<Byte>, a: seq<Byte>, b: seq<Byte>, c: seq<Byte>, d: seq<Byte>, e: seq<Byte>, f: seq<Byte>)
    ensures s + a + b + c + d + e + f == s + (a + (b + (c + (d + (e + f)))))
  {
  }
}
