/**
 What a scan makes of a keyops file that does not end where an entry ends, or
 that has an operation byte the writer never writes.
 */
module DamagedFiles {
  import opened Wrappers
  import opened ByteStrings
  import opened Keys
  import opened Entries
  import opened SsTableFormat

  /** Whole entries are parsed as before, whatever stands behind them. */
  lemma EntryBeforeTail(es: seq<Entry>, tail: Bytes, i: nat)
    requires Encodable(es) && i < |es|
    ensures |KeyOps(es[..i])| <= |KeyOps(es)|
    ensures ParseOne(KeyOps(es) + tail, |KeyOps(es[..i])|) == Next(ItemOf(es, i), |KeyOps(es[..i + 1])|)
  {
    var written, start, before := KeyOps(es), |KeyOps(es[..i])|, Blobs(es[..i]);
    EntryBytes(es, i);
    assert |before| + |ValueBytes(es[i])| <= |Blobs(es)| by {
      ValueInBlobs(es, i);
    }
    SliceBeforeTail(written, tail, start, start + EntrySize(es[i]));
    ParseEncoded(written + tail, start, es[i], |before|);
  }

  lemma SliceBeforeTail(data: Bytes, tail: Bytes, start: nat, end: nat)
    requires start <= end <= |data|
    ensures (data + tail)[start..end] == data[start..end]
  {
  }

  function AllBefore(items: seq<Item>, rest: Result<seq<Item>, Error>): Result<seq<Item>, Error> {
    match rest
    case Err(e) => Err(e)
    case Ok(more) => Ok(items + more)
  }

  function ItemsFrom(es: seq<Entry>, i: nat, from: Key, to: Key): seq<Item>
    requires i <= |es|
    decreases |es| - i
  {
    if i == |es| then []
    else
      var rest := ItemsFrom(es, i + 1, from, to);
      if Within(es[i].key, from, to) then [ItemOf(es, i)] + rest else rest
  }

  lemma {:induction false} ParseToTail(es: seq<Entry>, tail: Bytes, i: nat, from: Key, to: Key)
    requires Encodable(es) && i <= |es|
    ensures |KeyOps(es[..i])| <= |KeyOps(es)|
    ensures ParseFrom(KeyOps(es) + tail, |KeyOps(es[..i])|, from, to) ==
            AllBefore(ItemsFrom(es, i, from, to), ParseFrom(KeyOps(es) + tail, |KeyOps(es)|, from, to))
    decreases |es| - i
  {
    KeyOpsPrefix(es, i);
    var data := KeyOps(es) + tail;
    var last := ParseFrom(data, |KeyOps(es)|, from, to);
    if i == |es| {
      assert es[..i] == es;
      assert last.Ok? ==> [] + last.value == last.value;
    } else {
      EntryBeforeTail(es, tail, i);
      ParseToTail(es, tail, i + 1, from, to);
      OneBefore(data, |KeyOps(es[..i])|, from, to, ItemsFrom(es, i + 1, from, to), last);
    }
  }

  /** One entry more in front of those already parsed. */
  lemma OneBefore(data: Bytes, pos: nat, from: Key, to: Key, items: seq<Item>, last: Result<seq<Item>, Error>)
    requires pos <= |data| && ParseOne(data, pos).Next?
    requires ParseFrom(data, ParseOne(data, pos).pos, from, to) == AllBefore(items, last)
    ensures var item := ParseOne(data, pos).item;
            ParseFrom(data, pos, from, to) ==
            AllBefore(if Within(item.key, from, to) then [item] + items else items, last)
  {
    var item := ParseOne(data, pos).item;
    assert last.Ok? ==> [item] + (items + last.value) == [item] + items + last.value;
  }

  lemma ParseAllToTail(es: seq<Entry>, tail: Bytes, from: Key, to: Key)
    requires Encodable(es)
    ensures ParseFrom(KeyOps(es) + tail, 0, from, to) ==
            AllBefore(ItemsFrom(es, 0, from, to), ParseFrom(KeyOps(es) + tail, |KeyOps(es)|, from, to))
  {
    assert es[..0] == [];
    ParseToTail(es, tail, 0, from, to);
  }

  /** Fewer than four bytes behind the last entry are ignored. */
  lemma FewBytesIgnored(es: seq<Entry>, tail: Bytes, from: Key, to: Key)
    requires Encodable(es) && |tail| < 4
    ensures Scan(KeyOps(es) + tail, Blobs(es), from, to) == Ok(RangeOf(es, from, to))
  {
    ParseAllToTail(es, tail, from, to);
    ParseAllToTail(es, [], from, to);
    assert KeyOps(es) + [] == KeyOps(es);
    ScanWritten(es, from, to);
  }

  lemma CutEntry(data: Bytes, pos: nat, e: Entry, blobOffset: nat, n: nat)
    requires pos <= |data| && 4 <= n < EntrySize(e) && |e.key| < 0x1_0000_0000
    requires |EncodeEntry(e, blobOffset)| == EntrySize(e) && data[pos..] == EncodeEntry(e, blobOffset)[..n]
    ensures ParseOne(data, pos) == Broken
  {
    var bytes := EncodeEntry(e, blobOffset);
    SpanOfU32();
    LittleEndianRoundTrip(|e.key|, 4);
    assert |data| == pos + n;
    assert data[pos..pos + 4] == data[pos..][..4] == bytes[..4] == LittleEndian(|e.key|, 4);
    var op := 4 + |e.key|;
    if n > op {
      assert data[pos + op] == data[pos..][op] == bytes[op];
      assert e.val.Some? ==> bytes[op] == 1;
    }
  }

  /** A file that is cut off inside an entry, past its length field, cannot be scanned. */
  lemma CutFileFails(es: seq<Entry>, e: Entry, n: nat, blobs: Bytes, from: Key, to: Key)
    requires Encodable(es) && 4 <= n < EntrySize(e) && |e.key| < 0x1_0000_0000
    ensures |EncodeEntry(e, |Blobs(es)|)| == EntrySize(e)
    ensures Scan(KeyOps(es) + EncodeEntry(e, |Blobs(es)|)[..n], blobs, from, to) == Err(UnexpectedEof)
  {
    EncodedSize(e, |Blobs(es)|);
    var tail := EncodeEntry(e, |Blobs(es)|)[..n];
    var data := KeyOps(es) + tail;
    assert data[|KeyOps(es)|..] == tail;
    CutEntry(data, |KeyOps(es)|, e, |Blobs(es)|, n);
    ParseAllToTail(es, tail, from, to);
  }

  lemma ParseOther(data: Bytes, key: Key, op: byte)
    requires |key| < 0x1_0000_0000 && op != 1 && data == LittleEndian(|key|, 4) + key + [op]
    ensures ParseOne(data, 0) == Next(Item(key, None), |data|)
  {
    SpanOfU32();
    LittleEndianRoundTrip(|key|, 4);
    assert data[0..4] == LittleEndian(|key|, 4) && data[4..4 + |key|] == key && data[4 + |key|] == op;
  }

  /** One insert entry, whatever its blob position and value length say. */
  function OneInsert(key: Key, offset: nat, length: nat): Bytes {
    LittleEndian(|key|, 4) + key + [1] + LittleEndian(offset, 8) + LittleEndian(length, 8)
  }

  lemma ParseInsert(data: Bytes, key: Key, offset: nat, length: nat)
    requires |key| < 0x1_0000_0000 && data == OneInsert(key, offset, length)
    requires offset < 0x1_0000_0000_0000_0000 && length < 0x1_0000_0000_0000_0000
    ensures ParseOne(data, 0) == Next(Item(key, Some(BlobRef(offset, length))), |data|)
  {
    SpanOfU32();
    SpanOfU64();
    var op := 4 + |key|;
    assert data[0..4] == LittleEndian(|key|, 4) && data[4..op] == key && data[op] == 1;
    assert data[op + 1..op + 9] == LittleEndian(offset, 8) && data[op + 9..op + 17] == LittleEndian(length, 8);
    LittleEndianRoundTrip(|key|, 4);
    LittleEndianRoundTrip(offset, 8);
    LittleEndianRoundTrip(length, 8);
  }

  /** A value is the bytes its reference spans; an empty one can be anywhere, any other must lie inside the file. */
  lemma ValueRead(key: Key, offset: nat, length: nat, blobs: Bytes)
    requires |key| < 0x1_0000_0000
    requires offset < 0x1_0000_0000_0000_0000 && length < 0x1_0000_0000_0000_0000
    ensures Scan(OneInsert(key, offset, length), blobs, key, key) ==
            if length == 0 then Ok([Entry(key, Some([]))])
            else if offset + length <= |blobs| then Ok([Entry(key, Some(blobs[offset..offset + length]))])
            else Err(UnexpectedEof)
  {
    var data, item := OneInsert(key, offset, length), Item(key, Some(BlobRef(offset, length)));
    ParseInsert(data, key, offset, length);
    ParseOnlyItem(data, item);
    ScanOneItem(data, blobs, item);
  }

  lemma ScanOneItem(data: Bytes, blobs: Bytes, item: Item)
    requires ParseFrom(data, 0, item.key, item.key) == Ok([item])
    ensures Scan(data, blobs, item.key, item.key) ==
            if Resolvable(item, blobs) then Ok([Resolve(item, blobs)]) else Err(UnexpectedEof)
  {
    assert [item][0] == item;
    if Resolvable(item, blobs) {
      assert Scan(data, blobs, item.key, item.key).value == [Resolve(item, blobs)];
    }
  }

  lemma ParseOnlyItem(data: Bytes, item: Item)
    requires data != [] && ParseOne(data, 0) == Next(item, |data|)
    ensures ParseFrom(data, 0, item.key, item.key) == Ok([item])
  {
    LeReflexive(item.key);
    assert ParseOne(data, |data|) == End;
    assert ParseFrom(data, |data|, item.key, item.key) == Ok([]);
    assert [item] + [] == [item];
  }

  /** A scan takes every operation but 1 for a tombstone. */
  lemma OtherOperation(key: Key, op: byte)
    requires |key| < 0x1_0000_0000 && op != 1
    ensures Scan(LittleEndian(|key|, 4) + key + [op], [], key, key) == Ok([Entry(key, None)])
  {
    var data := LittleEndian(|key|, 4) + key + [op];
    ParseOther(data, key, op);
    ParseOnlyItem(data, Item(key, None));
    ScanOneItem(data, [], Item(key, None));
  }
}
