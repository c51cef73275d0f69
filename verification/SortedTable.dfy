/** The on-disk sorted table: writer with offset index, sequential reader, point lookup. */
module SortedTable {
  import opened Entries
  import opened LittleEndian
  import opened ByteStream
  import opened BloomFilter

  /** Key length, value length, expiry, tombstone flag. */
  function Header(e: Entry): (h: seq<Byte>)
    ensures |h| == 17
  {
    U32(|e.key|) + U32(|e.value|) + I64(e.expiry) + [Flag(e.deleted)]
  }

  function Block(e: Entry): (b: seq<Byte>)
    ensures |b| == 17 + |e.key| + |e.value|
  {
    Header(e) + (e.key + e.value)
  }

  /** Where the fields of a table entry lie. */
  lemma BlockLayout(e: Entry)
    ensures var b, k, v := Block(e), |e.key|, |e.value|;
      && |b| == 17 + k + v
      && b[..4] == U32(k) && b[4..8] == U32(v) && b[8..16] == I64(e.expiry) && b[16] == (if e.deleted then 1 else 0)
      && b[17..17 + k] == e.key && b[17 + k..] == e.value
  {
    hide U32, I64;
  }

  function EncodeTable(es: seq<Entry>): seq<Byte> {
    if es == [] then [] else Block(es[0]) + EncodeTable(es[1..])
  }

  datatype Metadata = Metadata(level: nat, fileID: nat, index: map<Key, nat>, minKey: Key, maxKey: Key)

  /** A table's metadata together with the bytes of its file. */
  datatype SSTable = SSTable(meta: Metadata, file: seq<Byte>)

  function IndexOf(es: seq<Entry>): map<Key, nat> {
    if es == [] then map[] else IndexOf(es[..|es| - 1])[es[|es| - 1].key := |EncodeTable(es[..|es| - 1])|]
  }

  function MetadataOf(es: seq<Entry>, fileID: nat, level: nat): Metadata {
    Metadata(level, fileID, IndexOf(es), if es == [] then [] else es[0].key, if es == [] then [] else es[|es| - 1].key)
  }

  function WriteTable(es: seq<Entry>, fileID: nat, level: nat): SSTable {
    SSTable(MetadataOf(es, fileID, level), EncodeTable(es))
  }

  /** The metadata of a sorted table: its level and file id, its least and its greatest key. */
  lemma KeyBounds(es: seq<Entry>, fileID: nat, level: nat)
    requires StrictlySorted(es)
    ensures var meta := WriteTable(es, fileID, level).meta;
      && meta.level == level && meta.fileID == fileID
      && (es == [] ==> meta.minKey == [] && meta.maxKey == [])
      && (es != [] ==> (exists e :: e in es && e.key == meta.minKey) && exists e :: e in es && e.key == meta.maxKey)
      && forall e :: e in es ==>
        (e.key == meta.minKey || Below(meta.minKey, e.key)) && (e.key == meta.maxKey || Below(e.key, meta.maxKey))
  {
    hide Below, IndexOf, EncodeTable;
    if es != [] { assert es[0] in es && es[|es| - 1] in es; }
  }

  // ---------- Reading ----------

  datatype HeaderFields = HeaderFields(kLen: nat, vLen: nat, expiry: Int64, deleted: bool)

  function ParseHeader(h: seq<Byte>): (f: HeaderFields)
    requires |h| == 17
    ensures f.kLen < TWO_TO_32 && f.vLen < TWO_TO_32
  {
    HeaderFields(GetU32(h[0..4]), GetU32(h[4..8]), GetI64(h[8..16]), h[16] == 1)
  }

  /** The sequential reader's next entry and the unread bytes. Only the header read is checked: a body
      cut short comes back padded with zeros. */
  function NextEntry(b: seq<Byte>): (r: Option<(Entry, seq<Byte>)>)
    ensures r.Some? ==> |r.value.1| < |b| && Fits(r.value.0)
  {
    match ReadFull(b, 17)
    case None => None
    case Some((h, b1)) =>
      var f := ParseHeader(h);
      var (key, b2) := ReadPadded(b1, f.kLen);
      var (val, b3) := ReadPadded(b2, f.vLen);
      Some((Entry(key, val, f.expiry, f.deleted), b3))
  }

  /** Everything the sequential reader yields before it stops. */
  function Scan(b: seq<Byte>): (es: seq<Entry>)
    ensures AllFit(es)
    decreases |b|
  {
    match NextEntry(b)
    case None => []
    case Some((e, rest)) => [e] + Scan(rest)
  }

  /** The point lookup: seek to the indexed offset, read the header, skip the stored key, read the value.
      No read is checked. */
  function Find(t: SSTable, key: Key): Option<Entry> {
    if key !in t.meta.index then None else
    var offset := t.meta.index[key];
    var b := if offset <= |t.file| then t.file[offset..] else [];
    var (h, b1) := ReadPadded(b, 17);
    var f := ParseHeader(h);
    var b2 := if f.kLen <= |b1| then b1[f.kLen..] else [];
    Some(Entry(key, ReadPadded(b2, f.vLen).0, f.expiry, f.deleted))
  }

  /** The table as the map its point lookups answer from. */
  function Content(t: SSTable): (m: Table)
    ensures KeyedByEntry(m)
  {
    map k | k in t.meta.index :: Find(t, k).value
  }

  lemma ContentLookup(t: SSTable, k: Key)
    ensures Find(t, k) == Lookup(Content(t), k)
  {
  }

  // ---------- Writer against readers ----------

  lemma ParseOwnHeader(e: Entry)
    requires Fits(e)
    ensures ParseHeader(Header(e)) == HeaderFields(|e.key|, |e.value|, e.expiry, e.deleted)
  {
    hide U32, I64, GetU32, GetI64;
    U32RoundTrip(|e.key|);
    U32RoundTrip(|e.value|);
    I64RoundTrip(e.expiry);
    var h := Header(e);
    assert h[0..4] == U32(|e.key|) && h[4..8] == U32(|e.value|) && h[8..16] == I64(e.expiry);
  }

  lemma NextOfBlock(e: Entry, rest: seq<Byte>)
    requires Fits(e)
    ensures NextEntry(Block(e) + rest) == Some((e, rest))
  {
    hide ParseHeader, Header, ReadFull, ReadPadded;
    var b2 := e.value + rest;
    var b1 := e.key + b2;
    assert Block(e) + rest == Header(e) + b1;
    ReadBack(Header(e), b1);
    ParseOwnHeader(e);
    ReadPaddedBack(e.key, b2);
    ReadPaddedBack(e.value, rest);
  }

  lemma NextOfNothing()
    ensures NextEntry([]) == None
  {
  }

  lemma {:induction false} ScanEncoded(es: seq<Entry>)
    requires AllFit(es)
    ensures Scan(EncodeTable(es)) == es
  {
    hide NextEntry, Block;
    if es == [] {
      NextOfNothing();
    } else {
      NextOfBlock(es[0], EncodeTable(es[1..]));
      ScanEncoded(es[1..]);
    }
  }

  /** The sequential reader gives back what was written exactly when every length survives its field. */
  lemma ScanRoundTripIff(es: seq<Entry>)
    ensures Scan(EncodeTable(es)) == es <==> AllFit(es)
  {
    hide NextEntry, Block;
    if AllFit(es) { ScanEncoded(es); }
  }

  lemma {:induction false} EncodeTableAppend(a: seq<Entry>, b: seq<Entry>)
    ensures EncodeTable(a + b) == EncodeTable(a) + EncodeTable(b)
    decreases |a|
  {
    hide Block;
    if a == [] {
      assert a + b == b;
    } else {
      assert (a + b)[1..] == a[1..] + b;
      EncodeTableAppend(a[1..], b);
    }
  }

  lemma EncodeTableSnoc(es: seq<Entry>, i: nat)
    requires i < |es|
    ensures EncodeTable(es[..i + 1]) == EncodeTable(es[..i]) + Block(es[i])
  {
    hide Block;
    assert es[..i + 1] == es[..i] + [es[i]];
    EncodeTableAppend(es[..i], [es[i]]);
    assert EncodeTable([es[i]]) == Block(es[i]) + EncodeTable([es[i]][1..]);
  }

  lemma SplitAt(es: seq<Entry>, i: nat)
    requires i < |es|
    ensures var at := |EncodeTable(es[..i])|;
      at <= |EncodeTable(es)| && EncodeTable(es)[at..] == Block(es[i]) + EncodeTable(es[i + 1..])
  {
    hide Block;
    assert es == es[..i] + es[i..];
    EncodeTableAppend(es[..i], es[i..]);
    assert es[i..][1..] == es[i + 1..];
  }

  /** The index holds the keys of the table, each at the offset of the entry written last for it. */
  lemma {:induction false} IndexFinds(es: seq<Entry>, k: Key) returns (i: nat)
    ensures k in IndexOf(es) <==> k in ToMap(es)
    ensures k in ToMap(es) ==> i < |es| && es[i] == ToMap(es)[k] && IndexOf(es)[k] == |EncodeTable(es[..i])|
  {
    hide EncodeTable;
    i := 0;
    if es != [] {
      var n := |es| - 1;
      if es[n].key == k {
        i := n;
      } else {
        i := IndexFinds(es[..n], k);
        if k in ToMap(es) { assert es[..n][..i] == es[..i]; }
      }
    }
  }

  lemma FindAt(es: seq<Entry>, i: nat, t: SSTable)
    requires i < |es| && Fits(es[i])
    requires t.file == EncodeTable(es) && es[i].key in t.meta.index
    requires t.meta.index[es[i].key] == |EncodeTable(es[..i])|
    ensures Find(t, es[i].key) == Some(es[i])
  {
    hide ParseHeader, Header, ReadFull, ReadPadded;
    var e := es[i];
    SplitAt(es, i);
    var rest := EncodeTable(es[i + 1..]);
    var b := Block(e) + rest;
    assert b == Header(e) + (e.key + (e.value + rest));
    ReadPaddedBack(Header(e), e.key + (e.value + rest));
    ParseOwnHeader(e);
    assert (e.key + (e.value + rest))[|e.key|..] == e.value + rest;
    ReadPaddedBack(e.value, rest);
  }

  /** The point lookup by index offset answers as the table written last-entry-wins does; a key is found
      only if it was written, and it comes back intact if its own lengths fit. */
  lemma FindWritten(es: seq<Entry>, fileID: nat, level: nat, k: Key)
    requires k in ToMap(es) ==> Fits(ToMap(es)[k])
    ensures Find(WriteTable(es, fileID, level), k) == Lookup(ToMap(es), k)
  {
    var i := IndexFinds(es, k);
    if k in ToMap(es) { FindAt(es, i, WriteTable(es, fileID, level)); }
  }

  /** Lookup by offset and linear scan agree on every key of a written table. */
  lemma FindIsScan(es: seq<Entry>, fileID: nat, level: nat, k: Key)
    requires AllFit(es)
    ensures var t := WriteTable(es, fileID, level);
      Find(t, k) == Lookup(ToMap(Scan(t.file)), k)
  {
    ScanEncoded(es);
    FindWritten(es, fileID, level, k);
  }

  /** A table as the writer leaves it: sorted, and indexed by what its file holds. */
  ghost predicate WellFormed(t: SSTable) {
    var es := Scan(t.file);
    StrictlySorted(es) && t.file == EncodeTable(es) && t.meta.index == IndexOf(es)
  }

  lemma WrittenIsWellFormed(es: seq<Entry>, fileID: nat, level: nat)
    requires AllFit(es) && StrictlySorted(es)
    ensures WellFormed(WriteTable(es, fileID, level))
    ensures Content(WriteTable(es, fileID, level)) == ToMap(es)
  {
    hide Find;
    var t := WriteTable(es, fileID, level);
    ScanEncoded(es);
    WellFormedContent(t);
  }

  lemma FindWellFormed(t: SSTable, k: Key)
    requires WellFormed(t)
    ensures Find(t, k) == Lookup(ToMap(Scan(t.file)), k)
  {
    hide Find, Block, NextEntry;
    var es := Scan(t.file);
    var i := IndexFinds(es, k);
    if k in ToMap(es) { FindAt(es, i, t); } else { FindMisses(t, k); }
  }

  lemma FindMisses(t: SSTable, k: Key)
    ensures Find(t, k) == None <==> k !in t.meta.index
  {
  }

  lemma WellFormedContent(t: SSTable)
    requires WellFormed(t)
    ensures Content(t) == ToMap(Scan(t.file))
  {
    hide Find, Content, WellFormed;
    forall k ensures Lookup(Content(t), k) == Lookup(ToMap(Scan(t.file)), k) {
      ContentLookup(t, k);
      FindWellFormed(t, k);
    }
    SameLookups(Content(t), ToMap(Scan(t.file)));
  }

  // ---------- The writer and the reader as objects ----------

  /** A reader over an opened file: the bytes its buffered cursor has not passed. */
  class SSTableReader {
    var unread: seq<Byte>

    constructor (file: seq<Byte>)
      ensures unread == file
    {
      unread := file;
    }

    method Next() returns (r: Option<Entry>)
      modifies this
      ensures r == (match NextEntry(old(unread)) case None => None case Some((e, _)) => Some(e))
      ensures unread == (match NextEntry(old(unread)) case None => [] case Some((_, rest)) => rest)
    {
      var header := ReadFull(unread, 17);
      if header == None {
        unread := [];
        return None;
      }
      var f := ParseHeader(header.value.0);
      var (key, afterKey) := ReadPadded(header.value.1, f.kLen);
      var (val, afterVal) := ReadPadded(afterKey, f.vLen);
      unread := afterVal;
      return Some(Entry(key, val, f.expiry, f.deleted));
    }
  }

  /** The 17-byte header buffer is filled anew for every entry. */
  method FillHeader(header: array<Byte>, e: Entry)
    requires header.Length == 17
    modifies header
    ensures header[..] == Header(e)
  {
    hide U32, I64;
    var at := CopyAt(header, 0, U32(|e.key|));
    at := CopyAt(header, at, U32(|e.value|));
    at := CopyAt(header, at, I64(e.expiry));
    at := CopyAt(header, at, [Flag(e.deleted)]);
    assert header[..] == header[..at];
  }

  /** What one more entry adds to the file, the index and the filter. */
  lemma WriteOneMore(es: seq<Entry>, i: nat, b: Bloom, fileID: nat)
    requires i < |es| && b.Valid()
    ensures EncodeTable(es[..i + 1]) == EncodeTable(es[..i]) + Block(es[i])
    ensures IndexOf(es[..i + 1]) == IndexOf(es[..i])[es[i].key := |EncodeTable(es[..i])|]
    ensures b.AddAll(fileID, es[..i + 1]) == b.AddAll(fileID, es[..i]).Add(fileID, es[i].key)
  {
    hide Block;
    EncodeTableSnoc(es, i);
    assert es[..i + 1][..i] == es[..i];
  }

  lemma WriteNothing(b: Bloom, fileID: nat)
    requires b.Valid()
    ensures EncodeTable([]) == [] && IndexOf([]) == map[] && b.AddAll(fileID, []) == b
  {
  }

  method WriteSortedStringTableToDisk(entries: seq<Entry>, fileID: nat, level: nat, bloom: SharedBloomFilter)
    returns (t: SSTable)
    requires bloom.Valid()
    modifies bloom.shards
    ensures t == WriteTable(entries, fileID, level) && t.meta.level == level && t.meta.fileID == fileID
    ensures bloom.Valid() && bloom.Value() == old(bloom.Value()).AddAll(fileID, entries)
  {
    hide Header, EncodeTable, IndexOf, Bloom.AddAll, Bloom.Add, SharedBloomFilter.Valid, SharedBloomFilter.Value;
    WriteNothing(bloom.Value(), fileID);
    assert entries[..0] == [];
    var file: seq<Byte> := [];
    var index: map<Key, nat> := map[];
    var offset := 0;
    var minKey: Key, maxKey: Key := [], [];
    var header := new Byte[17](_ => 0);
    for i := 0 to |entries|
      invariant bloom.Valid() && bloom.Value() == old(bloom.Value()).AddAll(fileID, entries[..i])
      invariant file == EncodeTable(entries[..i]) && offset == |file|
      invariant index == IndexOf(entries[..i])
      invariant minKey == if i == 0 then [] else entries[0].key
      invariant maxKey == if i < |entries| || i == 0 then [] else entries[i - 1].key
      invariant fresh(header)
    {
      var e := entries[i];
      WriteOneMore(entries, i, old(bloom.Value()), fileID);
      if i == 0 { minKey := e.key; }
      if i == |entries| - 1 { maxKey := e.key; }
      bloom.Add(fileID, e.key);
      index := index[e.key := offset];
      FillHeader(header, e);
      file := file + (header[..] + (e.key + e.value));
      offset := offset + 17 + |e.key| + |e.value|;
    }
    assert entries[..|entries|] == entries;
    t := SSTable(Metadata(level, fileID, index, minKey, maxKey), file);
  }
}
