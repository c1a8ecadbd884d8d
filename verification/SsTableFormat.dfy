/**
 The byte format of a run: what the writer puts into the `.keyops` and
 `.blobs` files, and what the parser makes of any bytes it finds there.
 */
module SsTableFormat {
  import opened Wrappers
  import opened ByteStrings
  import opened Keys
  import opened Entries

  datatype Error = UnexpectedEof | EmptySsTable

  // ----- What is written -----

  function ValueBytes(e: Entry): Bytes {
    match e.val
    case Some(v) => v
    case None => []
  }

  /** One entry: key length, key, operation, and for an insert the place of its value. */
  function EncodeEntry(e: Entry, blobOffset: nat): Bytes {
    LittleEndian(|e.key|, 4) + e.key +
    match e.val
    case Some(v) => [1] + LittleEndian(blobOffset, 8) + LittleEndian(|v|, 8)
    case None => [0]
  }

  /** Bytes of one entry: 4 for the length field, the key, and 17 or 1 for the operation. */
  function EntrySize(e: Entry): nat {
    4 + |e.key| + if e.val.Some? then 17 else 1
  }

  function Blobs(es: seq<Entry>): Bytes {
    if es == [] then [] else Blobs(es[..|es| - 1]) + ValueBytes(es[|es| - 1])
  }

  function KeyOps(es: seq<Entry>): Bytes {
    if es == [] then []
    else
      var init := es[..|es| - 1];
      KeyOps(init) + EncodeEntry(es[|es| - 1], |Blobs(init)|)
  }

  // ----- What is read -----

  datatype BlobRef = BlobRef(offset: nat, length: nat)

  datatype Item = Item(key: Key, blob: Option<BlobRef>)

  datatype Parsed = End | Broken | Next(item: Item, pos: nat)

  /** One turn of the parser's loop at `pos`. */
  function ParseOne(data: Bytes, pos: nat): (p: Parsed)
    requires pos <= |data|
    ensures p.Next? ==> pos < p.pos <= |data|
  {
    if pos + 4 > |data| then End
    else
      var keyLen := FromLittleEndian(data[pos..pos + 4]);
      var op := pos + 4 + keyLen;
      if op + 1 > |data| then Broken
      else
        var key := data[pos + 4..op];
        if data[op] == 1 then
          if op + 17 > |data| then Broken
          else
            var ref := BlobRef(FromLittleEndian(data[op + 1..op + 9]), FromLittleEndian(data[op + 9..op + 17]));
            Next(Item(key, Some(ref)), op + 17)
        else Next(Item(key, None), op + 1)
  }

  /** All entries in range from `pos` on. */
  function ParseFrom(data: Bytes, pos: nat, from: Key, to: Key): Result<seq<Item>, Error>
    requires pos <= |data|
    decreases |data| - pos
  {
    match ParseOne(data, pos)
    case End => Ok([])
    case Broken => Err(UnexpectedEof)
    case Next(item, pos') =>
      match ParseFrom(data, pos', from, to)
      case Err(e) => Err(e)
      case Ok(rest) => Ok(if Within(item.key, from, to) then [item] + rest else rest)
  }

  /** A positioned read of exactly `length` bytes. */
  predicate Readable(file: Bytes, offset: nat, length: nat) {
    length == 0 || offset + length <= |file|
  }

  function ReadAt(file: Bytes, offset: nat, length: nat): (data: Bytes)
    requires Readable(file, offset, length)
    ensures |data| == length
  {
    if length == 0 then [] else file[offset..offset + length]
  }

  predicate Resolvable(item: Item, blobs: Bytes) {
    item.blob.Some? ==> Readable(blobs, item.blob.value.offset, item.blob.value.length)
  }

  function Resolve(item: Item, blobs: Bytes): Entry
    requires Resolvable(item, blobs)
  {
    match item.blob
    case None => Entry(item.key, None)
    case Some(ref) => Entry(item.key, Some(ReadAt(blobs, ref.offset, ref.length)))
  }

  /** A scan of the whole file for the keys in range, values included. */
  function Scan(keyops: Bytes, blobs: Bytes, from: Key, to: Key): Result<seq<Entry>, Error> {
    match ParseFrom(keyops, 0, from, to)
    case Err(e) => Err(e)
    case Ok(items) =>
      if forall i | 0 <= i < |items| :: Resolvable(items[i], blobs)
      then Ok(seq(|items|, i requires 0 <= i < |items| && Resolvable(items[i], blobs) => Resolve(items[i], blobs)))
      else Err(UnexpectedEof)
  }

  // ----- Reading back what was written -----

  /** The field widths the format has: lengths in 32 bits, blob positions in 64. */
  ghost predicate Encodable(es: seq<Entry>) {
    && (forall i | 0 <= i < |es| :: |es[i].key| < 0x1_0000_0000)
    && |Blobs(es)| < 0x1_0000_0000_0000_0000
  }

  function ItemOf(es: seq<Entry>, i: nat): Item
    requires i < |es|
  {
    Item(es[i].key,
         if es[i].val.Some? then Some(BlobRef(|Blobs(es[..i])|, |es[i].val.value|)) else None)
  }

  lemma EncodedSize(e: Entry, blobOffset: nat)
    ensures |EncodeEntry(e, blobOffset)| == EntrySize(e)
  {
  }

  lemma {:induction false} BlobsPrefix(es: seq<Entry>, i: nat)
    requires i <= |es|
    ensures Blobs(es[..i]) <= Blobs(es)
    decreases |es|
  {
    if i < |es| {
      var init := es[..|es| - 1];
      assert init[..i] == es[..i];
      BlobsPrefix(init, i);
    } else {
      assert es[..i] == es;
    }
  }

  lemma {:induction false} KeyOpsPrefix(es: seq<Entry>, i: nat)
    requires i <= |es|
    ensures KeyOps(es[..i]) <= KeyOps(es)
    decreases |es|
  {
    if i < |es| {
      var init := es[..|es| - 1];
      assert init[..i] == es[..i];
      KeyOpsPrefix(init, i);
    } else {
      assert es[..i] == es;
    }
  }

  lemma KeyOpsStep(es: seq<Entry>, i: nat)
    requires i < |es|
    ensures KeyOps(es[..i + 1]) == KeyOps(es[..i]) + EncodeEntry(es[i], |Blobs(es[..i])|)
    ensures Blobs(es[..i + 1]) == Blobs(es[..i]) + ValueBytes(es[i])
  {
    assert es[..i + 1][..i] == es[..i];
  }

  /** The bytes of entry `i` start right behind those of the entries before it. */
  lemma EntryBytes(es: seq<Entry>, i: nat)
    requires i < |es|
    ensures var start := |KeyOps(es[..i])|; var end := start + EntrySize(es[i]);
            end == |KeyOps(es[..i + 1])| <= |KeyOps(es)| &&
            KeyOps(es)[start..end] == EncodeEntry(es[i], |Blobs(es[..i])|)
  {
    KeyOpsStep(es, i);
    EncodedSize(es[i], |Blobs(es[..i])|);
    KeyOpsPrefix(es, i + 1);
    var start, end := |KeyOps(es[..i])|, |KeyOps(es[..i + 1])|;
    assert KeyOps(es)[..end] == KeyOps(es[..i + 1]);
    assert KeyOps(es)[start..end] == KeyOps(es)[..end][start..];
  }

  lemma ValueInBlobs(es: seq<Entry>, i: nat)
    requires i < |es|
    ensures Blobs(es[..i]) + ValueBytes(es[i]) <= Blobs(es)
  {
    KeyOpsStep(es, i);
    BlobsPrefix(es, i + 1);
  }

  /** The value of entry `i` is where its blob reference says. */
  lemma ValueAt(es: seq<Entry>, i: nat)
    requires i < |es|
    ensures Resolvable(ItemOf(es, i), Blobs(es)) && Resolve(ItemOf(es, i), Blobs(es)) == es[i]
  {
    if es[i].val.Some? {
      ValueInBlobs(es, i);
      ResolveSlice(Blobs(es), es[i].key, Blobs(es[..i]), es[i].val.value);
    }
  }

  lemma ResolveSlice(blobs: Bytes, key: Key, before: Bytes, v: Value)
    requires before + v <= blobs
    ensures var item := Item(key, Some(BlobRef(|before|, |v|)));
            Resolvable(item, blobs) && Resolve(item, blobs) == Entry(key, Some(v))
  {
    assert blobs[..|before + v|] == before + v;
  }

  /** Decoding the fields of one encoded entry. */
  lemma EncodedFields(e: Entry, blobOffset: nat, bytes: Bytes)
    requires bytes == EncodeEntry(e, blobOffset)
    requires |e.key| < 0x1_0000_0000 && blobOffset < 0x1_0000_0000_0000_0000
    requires e.val.Some? ==> |e.val.value| < 0x1_0000_0000_0000_0000
    ensures var op := 4 + |e.key|;
            && |bytes| == EntrySize(e)
            && FromLittleEndian(bytes[..4]) == |e.key|
            && bytes[4..op] == e.key
            && (e.val.Some? ==>
                  && bytes[op] == 1
                  && FromLittleEndian(bytes[op + 1..op + 9]) == blobOffset
                  && FromLittleEndian(bytes[op + 9..op + 17]) == |e.val.value|)
            && (e.val.None? ==> bytes[op] == 0)
  {
    SpanOfU32();
    SpanOfU64();
    var op := 4 + |e.key|;
    assert bytes[..4] == LittleEndian(|e.key|, 4);
    assert bytes[4..op] == e.key;
    LittleEndianRoundTrip(|e.key|, 4);
    if e.val.Some? {
      assert bytes[op + 1..op + 9] == LittleEndian(blobOffset, 8);
      assert bytes[op + 9..op + 17] == LittleEndian(|e.val.value|, 8);
      LittleEndianRoundTrip(blobOffset, 8);
      LittleEndianRoundTrip(|e.val.value|, 8);
    }
  }

  lemma SubSlice<T>(s: seq<T>, start: nat, end: nat, lo: nat, hi: nat)
    requires start <= end <= |s| && lo <= hi <= end - start
    ensures s[start..end][lo..hi] == s[start + lo..start + hi]
  {
    var outer := s[start..end];
    assert outer[lo..hi] == s[start + lo..start + hi] by {
      forall k | 0 <= k < hi - lo ensures outer[lo..hi][k] == s[start + lo..start + hi][k] {
        assert outer[lo..hi][k] == outer[lo + k] == s[start + lo + k];
      }
    }
  }

  /** The parser decodes an encoded entry wherever it stands. */
  lemma ParseEncoded(data: Bytes, start: nat, e: Entry, blobOffset: nat)
    requires start + EntrySize(e) <= |data|
    requires data[start..start + EntrySize(e)] == EncodeEntry(e, blobOffset)
    requires |e.key| < 0x1_0000_0000 && blobOffset < 0x1_0000_0000_0000_0000
    requires e.val.Some? ==> |e.val.value| < 0x1_0000_0000_0000_0000
    ensures ParseOne(data, start) ==
            Next(Item(e.key, if e.val.Some? then Some(BlobRef(blobOffset, |e.val.value|)) else None),
                 start + EntrySize(e))
  {
    var bytes := data[start..start + EntrySize(e)];
    EncodedFields(e, blobOffset, bytes);
    var end, op := start + EntrySize(e), 4 + |e.key|;
    SubSlice(data, start, end, 0, 4);
    SubSlice(data, start, end, 4, op);
    assert data[start + op] == bytes[op];
    if e.val.Some? {
      SubSlice(data, start, end, op + 1, op + 9);
      SubSlice(data, start, end, op + 9, op + 17);
    }
  }

  lemma ParseEntry(es: seq<Entry>, i: nat)
    requires Encodable(es) && i < |es|
    ensures |KeyOps(es[..i])| <= |KeyOps(es)|
    ensures ParseOne(KeyOps(es), |KeyOps(es[..i])|) == Next(ItemOf(es, i), |KeyOps(es[..i + 1])|)
  {
    var data, start, before := KeyOps(es), |KeyOps(es[..i])|, Blobs(es[..i]);
    EntryBytes(es, i);
    assert |before| + |ValueBytes(es[i])| <= |Blobs(es)| by {
      ValueInBlobs(es, i);
    }
    ParseEncoded(data, start, es[i], |before|);
  }

  lemma {:induction false} RangeOfAppend(a: seq<Entry>, b: seq<Entry>, from: Key, to: Key)
    ensures RangeOf(a + b, from, to) == RangeOf(a, from, to) + RangeOf(b, from, to)
  {
    if b == [] {
      assert a + b == a;
    } else {
      assert (a + b)[..|a + b| - 1] == a + b[..|b| - 1];
      RangeOfAppend(a, b[..|b| - 1], from, to);
    }
  }

  lemma RangeOfStep(es: seq<Entry>, i: nat, from: Key, to: Key)
    requires i < |es|
    ensures RangeOf(es[i..], from, to) ==
            (if Within(es[i].key, from, to) then [es[i]] else []) + RangeOf(es[i + 1..], from, to)
  {
    assert es[i..] == [es[i]] + es[i + 1..];
    RangeOfAppend([es[i]], es[i + 1..], from, to);
    assert [es[i]][..0] == [];
  }

  ghost predicate ItemsMatch(items: seq<Item>, es: seq<Entry>, blobs: Bytes) {
    && |items| == |es|
    && forall i | 0 <= i < |items| :: Resolvable(items[i], blobs) && Resolve(items[i], blobs) == es[i]
  }

  lemma ItemsMatchStep(item: Item, e: Entry, items: seq<Item>, es: seq<Entry>, blobs: Bytes)
    requires ItemsMatch(items, es, blobs) && Resolvable(item, blobs) && Resolve(item, blobs) == e
    ensures ItemsMatch([item] + items, [e] + es, blobs)
  {
  }

  lemma {:induction false} ParseWritten(es: seq<Entry>, i: nat, from: Key, to: Key)
    requires Encodable(es) && i <= |es|
    ensures |KeyOps(es[..i])| <= |KeyOps(es)|
    ensures ParseFrom(KeyOps(es), |KeyOps(es[..i])|, from, to).Ok?
    ensures ItemsMatch(ParseFrom(KeyOps(es), |KeyOps(es[..i])|, from, to).value, RangeOf(es[i..], from, to), Blobs(es))
    decreases |es| - i
  {
    KeyOpsPrefix(es, i);
    if i == |es| {
      assert es[..i] == es;
    } else {
      var data, item := KeyOps(es), ItemOf(es, i);
      ParseEntry(es, i);
      ParseWritten(es, i + 1, from, to);
      var rest := ParseFrom(data, |KeyOps(es[..i + 1])|, from, to).value;
      assert ParseFrom(data, |KeyOps(es[..i])|, from, to) ==
             Ok(if Within(item.key, from, to) then [item] + rest else rest);
      ValueAt(es, i);
      ItemsMatchStep(item, es[i], rest, RangeOf(es[i + 1..], from, to), Blobs(es));
      RangeOfStep(es, i, from, to);
      assert [] + RangeOf(es[i + 1..], from, to) == RangeOf(es[i + 1..], from, to);
    }
  }

  /**
   Round trip: scanning what was written for `[from, to]` gives exactly the
   entries in that range, tombstones included, in order.
   */
  lemma ScanWritten(es: seq<Entry>, from: Key, to: Key)
    requires Encodable(es)
    ensures Scan(KeyOps(es), Blobs(es), from, to) == Ok(RangeOf(es, from, to))
  {
    assert es[..0] == [] && es[0..] == es;
    ParseWritten(es, 0, from, to);
    var items := ParseFrom(KeyOps(es), 0, from, to).value;
    assert Scan(KeyOps(es), Blobs(es), from, to).value == RangeOf(es, from, to);
  }
}
