/**
 The point lookup: bloom filter, binary search in the index, and two or three
 positioned reads, against the scan of the whole file.
 */
module PointLookup {
  import opened Wrappers
  import opened ByteStrings
  import opened Keys
  import opened Entries
  import opened SsTableFormat
  import opened BloomFilter
  import opened SsTable

  /** `binary_search_by` on `keys[lo..hi]`. */
  function BinarySearch(keys: seq<Key>, key: Key, lo: nat, hi: nat): (r: Option<nat>)
    requires lo <= hi <= |keys|
    ensures r.Some? ==> lo <= r.value < hi && keys[r.value] == key
    decreases hi - lo
  {
    if lo == hi then None
    else
      var mid := (lo + hi) / 2;
      if keys[mid] == key then Some(mid)
      else if Lt(keys[mid], key) then BinarySearch(keys, key, mid + 1, hi)
      else BinarySearch(keys, key, lo, mid)
  }

  /** Binary search misses a key only when it is not there. */
  lemma {:induction false} BinarySearchFinds(keys: seq<Key>, key: Key, lo: nat, hi: nat)
    requires lo <= hi <= |keys| && StrictlyAscending(keys)
    ensures BinarySearch(keys, key, lo, hi).None? ==> forall i | lo <= i < hi :: keys[i] != key
    decreases hi - lo
  {
    if lo < hi {
      var mid := (lo + hi) / 2;
      if keys[mid] == key {
      } else if Lt(keys[mid], key) {
        BinarySearchFinds(keys, key, mid + 1, hi);
        forall i | lo <= i < mid ensures keys[i] != key {
          LeOrLt(key, keys[mid]);
          assert Lt(keys[i], keys[mid]);
        }
      } else {
        BinarySearchFinds(keys, key, lo, mid);
        forall i | mid < i < hi ensures keys[i] != key {
          LeOrLt(key, keys[mid]);
          assert Lt(keys[mid], keys[i]);
        }
      }
    }
  }

  /** What a scan for exactly `key` says about it. */
  function FromScan(scan: Result<seq<Entry>, Error>): Result<Option<Value>, Error> {
    match scan
    case Err(e) => Err(e)
    case Ok(es) => Ok(if es == [] then None else es[0].val)
  }

  /** The reads at an indexed offset. */
  function ReadEntryAt(keyops: Bytes, blobs: Bytes, key: Key, offset: nat): Result<Option<Value>, Error> {
    var prefixLen := 4 + |key| + 1;
    if !Readable(keyops, offset, prefixLen) then Err(UnexpectedEof)
    else if ReadAt(keyops, offset, prefixLen)[prefixLen - 1] == 0 then Ok(None)
    else if !Readable(keyops, offset + prefixLen, 16) then Err(UnexpectedEof)
    else
      var meta := ReadAt(keyops, offset + prefixLen, 16);
      var blobOffset, valueLen := FromLittleEndian(meta[..8]), FromLittleEndian(meta[8..16]);
      if !Readable(blobs, blobOffset, valueLen) then Err(UnexpectedEof)
      else Ok(Some(ReadAt(blobs, blobOffset, valueLen)))
  }

  /** `None` both for a tombstone and for a key that is not there. */
  function Get(crc: Crc, t: SsTable, key: Key): Result<Option<Value>, Error>
    requires t.filter.numBits > 0 && |t.filter.bits| == ByteCount(t.filter.numBits)
  {
    if !MightContain(crc, t.filter, key) then Ok(None)
    else
      match BinarySearch(t.index.keys, key, 0, |t.index.keys|)
      case None => Ok(None)
      case Some(pos) =>
        if pos < |t.index.offsets| then ReadEntryAt(t.keyops, t.blobs, key, t.index.offsets[pos])
        else FromScan(Scan(t.keyops, t.blobs, key, key))
  }

  lemma {:induction false} OnlyKeyInRange(es: seq<Entry>, key: Key)
    requires Ascending(es)
    ensures RangeOf(es, key, key) ==
            if key in ToTable(es) then [Entry(key, ToTable(es)[key])] else []
  {
    if es != [] {
      var init, last := es[..|es| - 1], es[|es| - 1];
      OnlyKeyInRange(init, key);
      LastNotBefore(es);
      LeReflexive(key);
      if Within(last.key, key, key) {
        LeAntisymmetric(key, last.key);
      }
    }
  }

  lemma PrefixByte(keyops: Bytes, start: nat, e: Entry, blobOffset: nat)
    requires start + EntrySize(e) <= |keyops|
    requires keyops[start..start + EntrySize(e)] == EncodeEntry(e, blobOffset) && |e.key| < 0x1_0000_0000
    requires blobOffset < 0x1_0000_0000_0000_0000
    requires e.val.Some? ==> |e.val.value| < 0x1_0000_0000_0000_0000
    ensures Readable(keyops, start, 4 + |e.key| + 1)
    ensures ReadAt(keyops, start, 4 + |e.key| + 1)[4 + |e.key|] == if e.val.Some? then 1 else 0
  {
    var op := 4 + |e.key|;
    var bytes := keyops[start..start + EntrySize(e)];
    EncodedFields(e, blobOffset, bytes);
    assert keyops[start + op] == bytes[op];
  }

  lemma MetaBytes(keyops: Bytes, start: nat, e: Entry, blobOffset: nat)
    requires start + EntrySize(e) <= |keyops| && e.val.Some?
    requires keyops[start..start + EntrySize(e)] == EncodeEntry(e, blobOffset) && |e.key| < 0x1_0000_0000
    requires blobOffset < 0x1_0000_0000_0000_0000 && |e.val.value| < 0x1_0000_0000_0000_0000
    ensures var at := start + 4 + |e.key| + 1;
            && Readable(keyops, at, 16)
            && FromLittleEndian(ReadAt(keyops, at, 16)[..8]) == blobOffset
            && FromLittleEndian(ReadAt(keyops, at, 16)[8..16]) == |e.val.value|
  {
    var end, op := start + EntrySize(e), 4 + |e.key|;
    var bytes := keyops[start..end];
    EncodedFields(e, blobOffset, bytes);
    SubSlice(keyops, start, end, op + 1, op + 17);
    assert ReadAt(keyops, start + op + 1, 16) == bytes[op + 1..op + 17];
    SubSlice(bytes, op + 1, op + 17, 0, 8);
    SubSlice(bytes, op + 1, op + 17, 8, 16);
  }

  /** The positioned reads find an encoded entry wherever it stands. */
  lemma ReadEncoded(keyops: Bytes, blobs: Bytes, start: nat, e: Entry, before: Bytes)
    requires start + EntrySize(e) <= |keyops|
    requires keyops[start..start + EntrySize(e)] == EncodeEntry(e, |before|)
    requires before + ValueBytes(e) <= blobs
    requires |e.key| < 0x1_0000_0000 && |blobs| < 0x1_0000_0000_0000_0000
    ensures ReadEntryAt(keyops, blobs, e.key, start) == Ok(e.val)
  {
    PrefixByte(keyops, start, e, |before|);
    if e.val.Some? {
      MetaBytes(keyops, start, e, |before|);
      ResolveSlice(blobs, e.key, before, e.val.value);
    }
  }

  lemma ReadStoredEntry(es: seq<Entry>, i: nat)
    requires Encodable(es) && i < |es|
    ensures ReadEntryAt(KeyOps(es), Blobs(es), es[i].key, |KeyOps(es[..i])|) == Ok(es[i].val)
  {
    var keyops, blobs, start, before := KeyOps(es), Blobs(es), |KeyOps(es[..i])|, Blobs(es[..i]);
    EntryBytes(es, i);
    ValueInBlobs(es, i);
    ReadEncoded(keyops, blobs, start, es[i], before);
  }

  /**
   For every key, stored or not, the fast lookup and the scan of the whole file
   give the same answer, and it is the one the entries define.
   */
  lemma GetAgreesWithScan(crc: Crc, t: SsTable, es: seq<Entry>, key: Key)
    requires Stores(crc, t, es) && Encodable(es) && Ascending(es)
    ensures t.filter.numBits > 0
    ensures Get(crc, t, key) == FromScan(Scan(t.keyops, t.blobs, key, key))
    ensures Get(crc, t, key) == Ok(if key in ToTable(es) then ToTable(es)[key] else None)
  {
    ScanStored(crc, t, es, key, key);
    OnlyKeyInRange(es, key);
    ToTableKeys(es, key);
    var keys := KeysOf(es);
    assert StrictlyAscending(keys);
    var found := BinarySearch(keys, key, 0, |keys|);
    BinarySearchFinds(keys, key, 0, |keys|);
    if found.Some? {
      assert keys[found.value] in keys;
      NoFalseNegatives(crc, t.filter, keys, key);
      ReadStoredEntry(es, found.value);
      ToTableAt(es, found.value);
    } else {
      assert forall i | 0 <= i < |es| :: keys[i] == es[i].key;
    }
  }

  /** A run whose index has no offsets is scanned instead: every lookup gives the same answer. */
  lemma WithoutOffsets(crc: Crc, t: SsTable, es: seq<Entry>, key: Key)
    requires Stores(crc, t, es) && Encodable(es) && Ascending(es)
    ensures var older := t.(index := t.index.(offsets := []));
            older.filter.numBits > 0 && Get(crc, older, key) == Get(crc, t, key)
  {
    GetAgreesWithScan(crc, t, es, key);
    var keys := KeysOf(es);
    BinarySearchFinds(keys, key, 0, |keys|);
    if !MightContain(crc, t.filter, key) || BinarySearch(keys, key, 0, |keys|).None? {
      assert Get(crc, t, key) == Ok(None);
    }
  }

  /** A lookup takes every operation but 0 for an insert, where a scan takes every one but 1 for a tombstone. */
  lemma OtherOperationIsInsert(key: Key, op: byte, offset: nat, length: nat, blobs: Bytes)
    requires |key| < 0x1_0000_0000 && op != 0
    requires offset < 0x1_0000_0000_0000_0000 && length < 0x1_0000_0000_0000_0000
    ensures var front, meta := LittleEndian(|key|, 4) + key, LittleEndian(offset, 8) + LittleEndian(length, 8);
            ReadEntryAt(front + [op] + meta, blobs, key, 0) ==
            if length == 0 then Ok(Some([]))
            else if offset + length <= |blobs| then Ok(Some(blobs[offset..offset + length]))
            else Err(UnexpectedEof)
  {
    var front, meta := LittleEndian(|key|, 4) + key, LittleEndian(offset, 8) + LittleEndian(length, 8);
    MetaFields(meta, offset, length);
    ReadParts(front, op, meta, blobs, key);
  }

  lemma MetaFields(meta: Bytes, offset: nat, length: nat)
    requires meta == LittleEndian(offset, 8) + LittleEndian(length, 8)
    requires offset < 0x1_0000_0000_0000_0000 && length < 0x1_0000_0000_0000_0000
    ensures FromLittleEndian(meta[..8]) == offset && FromLittleEndian(meta[8..16]) == length
  {
    SpanOfU64();
    assert meta[..8] == LittleEndian(offset, 8) && meta[8..16] == LittleEndian(length, 8);
    LittleEndianRoundTrip(offset, 8);
    LittleEndianRoundTrip(length, 8);
  }

  lemma ReadParts(front: Bytes, op: byte, meta: Bytes, blobs: Bytes, key: Key)
    requires |front| == 4 + |key| && |meta| == 16 && op != 0
    ensures var offset, length := FromLittleEndian(meta[..8]), FromLittleEndian(meta[8..16]);
            ReadEntryAt(front + [op] + meta, blobs, key, 0) ==
            if Readable(blobs, offset, length) then Ok(Some(ReadAt(blobs, offset, length))) else Err(UnexpectedEof)
  {
    var keyops, at := front + [op] + meta, |front| + 1;
    assert ReadAt(keyops, 0, at)[at - 1] == op;
    assert ReadAt(keyops, at, 16) == meta;
  }

  /** A lookup whose reads reach beyond a file fails. */
  lemma CutEntryFails(key: Key, keyops: Bytes, blobs: Bytes, offset: nat)
    requires offset + 4 + |key| + 1 > |keyops| ||
             (keyops[offset + 4 + |key|] != 0 && offset + 4 + |key| + 1 + 16 > |keyops|)
    ensures ReadEntryAt(keyops, blobs, key, offset) == Err(UnexpectedEof)
  {
  }
}
