/**
 From the bytes on disk to the tree's answers: runs written by the SSTable writer,
 and `get` and `range` reading nothing but those files and the memtable.
 */
module StoredTree {
  import opened Wrappers
  import opened Keys
  import opened Sorting
  import opened Entries
  import opened Levels
  import opened TreeState
  import opened SsTableFormat
  import opened BloomFilter
  import opened SsTable
  import PointLookup
  import LsmTree

  // ----- Runs and the tables that store them -----

  ghost predicate HoldsRun(crc: Crc, t: SsTable, run: Run) {
    && t.number == run.number && t.level == run.level
    && Stores(crc, t, run.entries) && Encodable(run.entries) && Ascending(run.entries)
  }

  ghost function Holding(crc: Crc): (SsTable, Run) -> bool {
    (t: SsTable, run: Run) => HoldsRun(crc, t, run)
  }

  ghost predicate HoldsLevel(crc: Crc, tables: seq<SsTable>, level: Level) {
    Parallel(Holding(crc), tables, level)
  }

  ghost predicate HoldsLevels(crc: Crc, tables: seq<seq<SsTable>>, levels: seq<Level>) {
    && |tables| == |levels|
    && forall i | 0 <= i < |tables| :: HoldsLevel(crc, tables[i], levels[i])
  }

  // ----- Writing -----

  /** What a flush does with a memtable's entries, and a merge with its own: all are added, then written. */
  method WriteRun(crc: Crc, number: nat, level: nat, entries: seq<Entry>) returns (r: Result<SsTable, Error>)
    requires Ascending(entries)
    ensures r.Err? <==> entries == []
    ensures r.Ok? ==> Stores(crc, r.value, entries) && r.value.number == number && r.value.level == level
  {
    var writer := new SsTableWriter(number);
    for i := 0 to |entries|
      invariant fresh(writer) && writer.Unwritten() && writer.number == number
      invariant writer.entries == entries[..i]
    {
      assert entries[i] == Entry(entries[i].key, entries[i].val);
      writer.Add(entries[i].key, entries[i].val);
    }
    assert entries[..|entries|] == entries;
    SortAscending(entries);
    r := writer.Finish(crc, level);
  }

  /** A memtable flushed to disk is the run the tree says it is. */
  method FlushToDisk(crc: Crc, mem: Table, number: nat) returns (t: SsTable)
    requires mem != map[] && Encodable(ListOf(mem))
    ensures HoldsRun(crc, t, Run(number, 0, ListOf(mem)))
  {
    ListOfRoundTrip(mem);
    assert ListOf(mem) == [] ==> ToTable(ListOf(mem)) == map[];
    var r := WriteRun(crc, number, 0, ListOf(mem));
    return r.value;
  }

  // ----- get -----

  /** One run: the bounds test, then the point lookup. */
  function ReadRun(crc: Crc, t: SsTable, key: Key): Result<Option<Value>, Error>
    requires t.filter.numBits > 0 && |t.filter.bits| == ByteCount(t.filter.numBits)
  {
    if Le(t.minKey, key) && Le(key, t.maxKey) then PointLookup.Get(crc, t, key) else Ok(None)
  }

  lemma ReadRunAnswers(crc: Crc, t: SsTable, run: Run, key: Key)
    requires HoldsRun(crc, t, run)
    ensures t.filter.numBits > 0 && |t.filter.bits| == ByteCount(t.filter.numBits)
    ensures ReadRun(crc, t, key) == Ok(GetFromRun(run, key))
  {
    PointLookup.GetAgreesWithScan(crc, t, run.entries, key);
    LsmTree.OutsideBounds(run, key);
  }

  method ReadAt(crc: Crc, tables: seq<SsTable>, p: nat, key: Key, ghost level: Level)
    returns (r: Result<Option<Value>, Error>)
    requires HoldsLevel(crc, tables, level) && p < |tables|
    ensures r == Ok(GetFromRun(level[p], key))
  {
    assert Holding(crc)(tables[p], level[p]);
    ReadRunAnswers(crc, tables[p], level[p], key);
    r := ReadRun(crc, tables[p], key);
  }

  lemma OneRunFurther(level: Level, p: nat, key: Key)
    requires p < |level|
    ensures GetFromLevel(level[..p + 1], key) ==
            if GetFromRun(level[p], key).Some? then GetFromRun(level[p], key) else GetFromLevel(level[..p], key)
  {
    assert level[..p + 1][..p] == level[..p];
  }

  method Get(crc: Crc, mem: Table, tables: seq<seq<SsTable>>, key: Key, ghost levels: seq<Level>)
    returns (r: Result<Option<Value>, Error>)
    requires HoldsLevels(crc, tables, levels)
    ensures r == Ok(GetOn(Tree(mem, levels, 0, 0), key))
  {
    if key in mem {
      return Ok(mem[key]);
    }
    for i := 0 to |tables|
      invariant GetFromLevels(levels, key) == GetFromLevels(levels[i..], key)
    {
      var found := GetFromTables(crc, tables[i], key, levels[i]);
      assert levels[i..][1..] == levels[i + 1..];
      if found.Err? || found.value.Some? {
        return found;
      }
    }
    return Ok(None);
  }

  /** One level, from the back of its vector. */
  method GetFromTables(crc: Crc, tables: seq<SsTable>, key: Key, ghost level: Level)
    returns (r: Result<Option<Value>, Error>)
    requires HoldsLevel(crc, tables, level)
    ensures r == Ok(GetFromLevel(level, key))
  {
    var j := |tables|;
    assert level[..j] == level;
    while j > 0
      invariant 0 <= j <= |tables| == |level|
      invariant GetFromLevel(level, key) == GetFromLevel(level[..j], key)
    {
      j := j - 1;
      OneRunFurther(level, j, key);
      r := ReadAt(crc, tables, j, key, level);
      if r.value.Some? {
        return;
      }
    }
    return Ok(None);
  }

  // ----- range -----

  predicate ByTableNumber(a: SsTable, b: SsTable) {
    a.number <= b.number
  }

  /** Sorting the tables by number sorts the runs they hold. */
  lemma SortHolds(crc: Crc, tables: seq<SsTable>, level: Level)
    requires HoldsLevel(crc, tables, level)
    ensures HoldsLevel(crc, SortBy(ByTableNumber, tables), SortBy(ByNumber, level))
  {
    SortParallel(Holding(crc), ByTableNumber, ByNumber, tables, level);
  }

  /** Read one table's range and overwrite. */
  method InsertStored(crc: Crc, all: Table, t: SsTable, from: Key, to: Key, ghost run: Run) returns (r: Table)
    requires HoldsRun(crc, t, run)
    ensures r == all + Clip(ToTable(run.entries), from, to)
  {
    ScanStored(crc, t, run.entries, from, to);
    ToTableRange(run.entries, from, to);
    var read := RangeWithTombstones(t, from, to);
    r := LsmTree.OverwriteAll(all, read.value);
  }

  method MergeStored(crc: Crc, base: Table, tables: seq<SsTable>, from: Key, to: Key, ghost runs: Level)
    returns (all: Table)
    requires HoldsLevel(crc, tables, runs)
    ensures all == base + Clip(MergeRuns(runs), from, to)
  {
    all := base;
    assert base + Clip(map[], from, to) == base;
    for i := 0 to |tables|
      invariant all == base + Clip(MergeRuns(runs[..i]), from, to)
    {
      assert Holding(crc)(tables[i], runs[i]);
      assert runs[..i + 1][..i] == runs[..i];
      ghost var older, newer := MergeRuns(runs[..i]), ToTable(runs[i].entries);
      all := InsertStored(crc, all, tables[i], from, to, runs[i]);
      ClipOverlay(older, newer, from, to);
      OverlayAssociative(base, Clip(older, from, to), Clip(newer, from, to));
    }
    assert runs[..|runs|] == runs;
  }

  method Range(crc: Crc, mem: Table, tables: seq<seq<SsTable>>, from: Key, to: Key, ghost levels: seq<Level>)
    returns (r: seq<(Key, Value)>)
    requires HoldsLevels(crc, tables, levels)
    ensures r == RangeOn(DiskTable(levels) + mem, from, to)
  {
    var entries: Table := map[];
    for i := |tables| downto 0
      invariant entries == Clip(DiskTable(levels[i..]), from, to)
    {
      assert levels[i..][1..] == levels[i + 1..];
      SortHolds(crc, tables[i], levels[i]);
      entries := MergeStored(crc, entries, SortBy(ByTableNumber, tables[i]), from, to, SortBy(ByNumber, levels[i]));
      ClipOverlay(DiskTable(levels[i + 1..]), LevelTable(levels[i]), from, to);
    }
    assert levels[0..] == levels;
    ListOfRoundTrip(Clip(mem, from, to));
    entries := LsmTree.OverwriteAll(entries, ListOf(Clip(mem, from, to)));
    ClipOverlay(DiskTable(levels), mem, from, to);
    r := LsmTree.LiveEntries(entries, from, to);
    LsmTree.RangeOfClipped(DiskTable(levels) + mem, from, to);
  }
}
