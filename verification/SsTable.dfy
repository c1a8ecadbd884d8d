/**
 Runs on disk: the writer that produces one, the scan of its files, and the
 point lookup through bloom filter and index.
 */
module SsTable {
  import opened Wrappers
  import opened ByteStrings
  import opened Keys
  import opened Sorting
  import opened Entries
  import opened SsTableFormat
  import opened BloomFilter

  datatype Index = Index(keys: seq<Key>, offsets: seq<nat>)

  datatype SsTable = SsTable(
    number: nat,
    level: nat,
    minKey: Key,
    maxKey: Key,
    numEntries: nat,
    filter: Filter,
    index: Index,
    keyops: Bytes,
    blobs: Bytes)

  predicate ByKey(a: Entry, b: Entry) {
    Le(a.key, b.key)
  }

  function KeysOf(es: seq<Entry>): seq<Key> {
    seq(|es|, i requires 0 <= i < |es| => es[i].key)
  }

  /** `t` is what the writer leaves behind for the entries `es`. */
  ghost predicate Stores(crc: Crc, t: SsTable, es: seq<Entry>) {
    && es != []
    && t.minKey == es[0].key
    && t.maxKey == es[|es| - 1].key
    && t.numEntries == |es|
    && t.keyops == KeyOps(es)
    && t.blobs == Blobs(es)
    && t.index.keys == KeysOf(es)
    && |t.index.offsets| == |es|
    && (forall i | 0 <= i < |es| :: t.index.offsets[i] == |KeyOps(es[..i])|)
    && Covers(crc, t.filter, KeysOf(es))
  }

  class SsTableWriter {
    const number: nat
    var entries: seq<Entry>
    var keyops: Bytes
    var blobs: Bytes
    var blobOffset: nat

    constructor (number: nat)
      ensures this.number == number && entries == [] && Unwritten()
    {
      this.number := number;
      entries, keyops, blobs, blobOffset := [], [], [], 0;
    }

    predicate Unwritten()
      reads this
    {
      keyops == [] && blobs == [] && blobOffset == 0
    }

    method Add(key: Key, val: Option<Value>)
      modifies this`entries
      ensures entries == old(entries) + [Entry(key, val)]
    {
      entries := entries + [Entry(key, val)];
    }

    /** Key, operation and blob reference to keyops; the value to blobs. */
    method WriteEntry(e: Entry)
      modifies this`keyops, this`blobs, this`blobOffset
      ensures keyops == old(keyops) + EncodeEntry(e, old(blobOffset))
      ensures blobs == old(blobs) + ValueBytes(e)
      ensures blobOffset == old(blobOffset) + |ValueBytes(e)|
    {
      keyops := keyops + LittleEndian(|e.key|, 4);
      keyops := keyops + e.key;
      match e.val {
        case Some(v) =>
          keyops := keyops + [1];
          keyops := keyops + LittleEndian(blobOffset, 8);
          keyops := keyops + LittleEndian(|v|, 8);
          blobs := blobs + v;
          blobOffset := blobOffset + |v|;
        case None =>
          keyops := keyops + [0];
      }
    }

    /** The entries one after another, and where in keyops each begins. */
    method WriteEntries(sorted: seq<Entry>) returns (offsets: seq<nat>)
      requires Unwritten()
      modifies this`keyops, this`blobs, this`blobOffset
      ensures keyops == KeyOps(sorted) && blobs == Blobs(sorted)
      ensures |offsets| == |sorted|
      ensures forall i | 0 <= i < |sorted| :: offsets[i] == |KeyOps(sorted[..i])|
    {
      var offset: nat := 0;
      offsets := [];
      for i := 0 to |sorted|
        invariant keyops == KeyOps(sorted[..i]) && offset == |keyops|
        invariant blobs == Blobs(sorted[..i]) && blobOffset == |blobs|
        invariant |offsets| == i
        invariant forall j | 0 <= j < i :: offsets[j] == |KeyOps(sorted[..j])|
      {
        KeyOpsStep(sorted, i);
        EncodedSize(sorted[i], blobOffset);
        offsets := offsets + [offset];
        WriteEntry(sorted[i]);
        offset := offset + 4 + |sorted[i].key| + if sorted[i].val.Some? then 17 else 1;
      }
      assert sorted[..|sorted|] == sorted;
    }

    method Finish(crc: Crc, level: nat) returns (r: Result<SsTable, Error>)
      requires Unwritten()
      modifies this
      ensures r.Err? <==> old(entries) == []
      ensures r.Ok? ==>
                && r.value.number == number
                && r.value.level == level
                && Stores(crc, r.value, SortBy(ByKey, old(entries)))
    {
      if entries == [] {
        return Err(EmptySsTable);
      }
      var sorted := SortBy(ByKey, entries);
      entries := sorted;
      var minKey, maxKey := sorted[0].key, sorted[|sorted| - 1].key;
      var offsets := WriteEntries(sorted);
      var filter := FromKeys(crc, KeysOf(sorted));
      r := Ok(SsTable(number, level, minKey, maxKey, |sorted|, filter,
                      Index(KeysOf(sorted), offsets), keyops, blobs));
    }
  }

  // ----- Sorting what was added -----

  lemma ByKeyOrdering()
    ensures Ordering(ByKey)
  {
    forall a, b ensures ByKey(a, b) || ByKey(b, a) {
      LeTotal(a.key, b.key);
    }
    forall a, b, c | ByKey(a, b) && ByKey(b, c) ensures ByKey(a, c) {
      LeTransitive(a.key, b.key, c.key);
    }
  }

  ghost predicate DistinctKeys(es: seq<Entry>) {
    forall i, j | 0 <= i < j < |es| :: es[i].key != es[j].key
  }

  /** Distinct keys come out strictly ascending, the entries unchanged. */
  lemma SortDistinct(es: seq<Entry>)
    requires DistinctKeys(es)
    ensures Ascending(SortBy(ByKey, es)) && multiset(SortBy(ByKey, es)) == multiset(es)
  {
    var sorted := SortBy(ByKey, es);
    ByKeyOrdering();
    SortBySorted(ByKey, es);
    SortByPermutes(ByKey, es);
    forall i, j | 0 <= i < j < |sorted| ensures Lt(sorted[i].key, sorted[j].key) {
      assert ByKey(sorted[i], sorted[j]);
      if sorted[i].key == sorted[j].key {
        SharedKey(es, sorted, i, j);
      }
    }
  }

  lemma SharedKey(es: seq<Entry>, sorted: seq<Entry>, i: nat, j: nat)
    requires multiset(es) == multiset(sorted) && i < j < |sorted| && sorted[i].key == sorted[j].key
    ensures !DistinctKeys(es)
  {
    if DistinctKeys(es) {
      PermutedNoDuplicates(es, sorted);
      SameElement(es, sorted, sorted[i]);
      SameElement(es, sorted, sorted[j]);
    }
  }

  /** Entries added in key order, as every writer in the tree adds them, stay where they are. */
  lemma SortAscending(es: seq<Entry>)
    requires Ascending(es)
    ensures SortBy(ByKey, es) == es
  {
    forall i, j | 0 <= i < j < |es| ensures ByKey(es[i], es[j]) {
      assert Lt(es[i].key, es[j].key);
    }
    SortByIdle(ByKey, es);
  }

  // ----- Scanning -----

  /** `read_batch`: one positioned read per request, or the first error. */
  method ReadBatch(file: Bytes, requests: seq<BlobRef>) returns (r: Result<seq<Bytes>, Error>)
    ensures r.Ok? <==> forall i | 0 <= i < |requests| :: Readable(file, requests[i].offset, requests[i].length)
    ensures r.Ok? ==> |r.value| == |requests| &&
                      forall i | 0 <= i < |requests| ::
                        r.value[i] == ReadAt(file, requests[i].offset, requests[i].length)
  {
    var values := [];
    for i := 0 to |requests|
      invariant |values| == i
      invariant forall j | 0 <= j < i ::
        Readable(file, requests[j].offset, requests[j].length) &&
        values[j] == ReadAt(file, requests[j].offset, requests[j].length)
    {
      if !Readable(file, requests[i].offset, requests[i].length) {
        return Err(UnexpectedEof);
      }
      values := values + [ReadAt(file, requests[i].offset, requests[i].length)];
    }
    r := Ok(values);
  }

  /** What the parser's loop has collected: placeholders, and the blob requests that will fill them. */
  ghost predicate Collected(items: seq<Item>, results: seq<Entry>, slots: seq<nat>, refs: seq<BlobRef>) {
    && |results| == |items|
    && |slots| == |refs|
    && (forall i | 0 <= i < |items| :: results[i] == Entry(items[i].key, None))
    && (forall s | 0 <= s < |slots| :: slots[s] < |items| && items[slots[s]].blob == Some(refs[s]))
    && (forall i | 0 <= i < |items| && items[i].blob.Some? :: exists s :: 0 <= s < |slots| && slots[s] == i)
    && (forall s, t | 0 <= s < t < |slots| :: slots[s] < slots[t])
  }

  ghost function Prepend(items: seq<Item>, rest: Result<seq<Item>, Error>): Result<seq<Item>, Error> {
    match rest
    case Err(e) => Err(e)
    case Ok(more) => Ok(items + more)
  }

  lemma PrependNothing(rest: Result<seq<Item>, Error>)
    ensures Prepend([], rest) == rest
  {
    if rest.Ok? {
      assert [] + rest.value == rest.value;
    }
  }

  lemma PrependStep(items: seq<Item>, item: Item, rest: Result<seq<Item>, Error>)
    ensures Prepend(items, Prepend([item], rest)) == Prepend(items + [item], rest)
  {
    if rest.Ok? {
      assert items + ([item] + rest.value) == (items + [item]) + rest.value;
    }
  }

  lemma CollectedStep(items: seq<Item>, results: seq<Entry>, slots: seq<nat>, refs: seq<BlobRef>, item: Item)
    requires Collected(items, results, slots, refs)
    ensures item.blob.None? ==> Collected(items + [item], results + [Entry(item.key, None)], slots, refs)
    ensures item.blob.Some? ==>
              Collected(items + [item], results + [Entry(item.key, None)],
                        slots + [|results|], refs + [item.blob.value])
  {
    var items' := items + [item];
    if item.blob.Some? {
      var slots' := slots + [|results|];
      forall i | 0 <= i < |items'| && items'[i].blob.Some?
        ensures exists s :: 0 <= s < |slots'| && slots'[s] == i
      {
        if i < |items| {
          var s :| 0 <= s < |slots| && slots[s] == i;
          assert slots'[s] == i;
        } else {
          assert slots'[|slots|] == i;
        }
      }
    }
  }

  lemma ParseFromStep(data: Bytes, pos: nat, from: Key, to: Key)
    requires pos <= |data| && ParseOne(data, pos).Next?
    ensures var next := ParseOne(data, pos);
            ParseFrom(data, pos, from, to) ==
            Prepend(if Within(next.item.key, from, to) then [next.item] else [], ParseFrom(data, next.pos, from, to))
  {
    PrependNothing(ParseFrom(data, ParseOne(data, pos).pos, from, to));
  }

  /** The cursor loop: placeholders for the entries in range, and the blob requests of the inserts among them. */
  method ParseKeyOps(data: Bytes, from: Key, to: Key)
    returns (r: Result<(seq<Entry>, seq<nat>, seq<BlobRef>), Error>, ghost items: seq<Item>)
    ensures r.Err? ==> ParseFrom(data, 0, from, to) == Err(UnexpectedEof)
    ensures r.Ok? ==> ParseFrom(data, 0, from, to) == Ok(items) &&
                      Collected(items, r.value.0, r.value.1, r.value.2)
  {
    var pos: nat := 0;
    var results: seq<Entry>, slots: seq<nat>, refs: seq<BlobRef> := [], [], [];
    items := [];
    PrependNothing(ParseFrom(data, 0, from, to));
    while pos < |data|
      invariant pos <= |data|
      invariant Collected(items, results, slots, refs)
      invariant ParseFrom(data, 0, from, to) == Prepend(items, ParseFrom(data, pos, from, to))
      decreases |data| - pos
    {
      var parsed := ParseOne(data, pos);
      if parsed.End? {
        break;
      }
      if parsed.Broken? {
        return Err(UnexpectedEof), items;
      }
      var item := parsed.item;
      ParseFromStep(data, pos, from, to);
      pos := parsed.pos;
      if !Within(item.key, from, to) {
        continue;
      }
      CollectedStep(items, results, slots, refs, item);
      if item.blob.Some? {
        slots, refs := slots + [|results|], refs + [item.blob.value];
      }
      results := results + [Entry(item.key, None)];
      PrependStep(items, item, ParseFrom(data, pos, from, to));
      items := items + [item];
    }
    assert ParseOne(data, pos) == End;
    assert items + [] == items;
    r := Ok((results, slots, refs));
  }

  method RangeWithTombstones(t: SsTable, from: Key, to: Key) returns (r: Result<seq<Entry>, Error>)
    ensures r == Scan(t.keyops, t.blobs, from, to)
  {
    var parsed, items := ParseKeyOps(t.keyops, from, to);
    if parsed.Err? {
      return Err(UnexpectedEof);
    }
    var (results, slots, refs) := parsed.value;
    var read := ReadBatch(t.blobs, refs);
    AllResolvable(items, results, slots, refs, t.blobs);
    if read.Err? {
      return Err(UnexpectedEof);
    }
    r := FillIn(items, results, slots, refs, t.blobs, read.value);
    assert r.value == Scan(t.keyops, t.blobs, from, to).value;
  }

  lemma AllResolvable(items: seq<Item>, results: seq<Entry>, slots: seq<nat>, refs: seq<BlobRef>, blobs: Bytes)
    requires Collected(items, results, slots, refs)
    ensures (forall s | 0 <= s < |refs| :: Readable(blobs, refs[s].offset, refs[s].length)) <==>
            (forall i | 0 <= i < |items| :: Resolvable(items[i], blobs))
  {
    if forall i | 0 <= i < |items| :: Resolvable(items[i], blobs) {
      forall s | 0 <= s < |refs| ensures Readable(blobs, refs[s].offset, refs[s].length) {
        assert Resolvable(items[slots[s]], blobs);
      }
    }
  }

  /** Put the values read into the placeholders they were requested for. */
  method FillIn(ghost items: seq<Item>, placeholders: seq<Entry>, slots: seq<nat>, ghost refs: seq<BlobRef>,
                ghost blobs: Bytes, values: seq<Bytes>)
    returns (r: Result<seq<Entry>, Error>)
    requires Collected(items, placeholders, slots, refs)
    requires forall i | 0 <= i < |items| :: Resolvable(items[i], blobs)
    requires |values| == |refs| &&
             forall s | 0 <= s < |refs| ::
               Readable(blobs, refs[s].offset, refs[s].length) &&
               values[s] == ReadAt(blobs, refs[s].offset, refs[s].length)
    ensures r.Ok? && |r.value| == |items| && forall i | 0 <= i < |items| :: r.value[i] == Resolve(items[i], blobs)
  {
    var results := placeholders;
    for s := 0 to |slots|
      invariant |results| == |items|
      invariant forall i | 0 <= i < |items| :: results[i].key == items[i].key
      invariant forall q | 0 <= q < s :: results[slots[q]] == Resolve(items[slots[q]], blobs)
      invariant forall i | 0 <= i < |items| && items[i].blob.None? :: results[i] == Resolve(items[i], blobs)
    {
      results := results[slots[s] := results[slots[s]].(val := Some(values[s]))];
    }
    forall i | 0 <= i < |items| ensures results[i] == Resolve(items[i], blobs) {
      if items[i].blob.Some? {
        var s :| 0 <= s < |slots| && slots[s] == i;
      }
    }
    r := Ok(results);
  }

  /** A table scanned for a range yields the entries it was written from, cut to that range. */
  lemma ScanStored(crc: Crc, t: SsTable, es: seq<Entry>, from: Key, to: Key)
    requires Stores(crc, t, es) && Encodable(es)
    ensures Scan(t.keyops, t.blobs, from, to) == Ok(RangeOf(es, from, to))
  {
    ScanWritten(es, from, to);
  }
}
