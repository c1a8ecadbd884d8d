/**
 The tree itself: a memtable, the levels and two counters, updated in place.
 Each method is tied to the function of `TreeState` that says what it does.
 A round of compaction is cut into the sections between its locks.
 */
module LsmTree {
  import opened Wrappers
  import opened Keys
  import opened Sorting
  import opened Entries
  import opened Levels
  import opened Compaction
  import opened TreeState
  import opened Reading
  import MT = MemTables
  import Reference

  class LsmTree {
    const maxLevel: nat
    const memtableSize: nat
    const level0Trigger: nat

    var memtable: MT.MemTable
    var levels: seq<Level>
    var nextRunNumber: nat
    var compactionGeneration: nat

    ghost predicate Valid()
      reads this, memtable
    {
      && memtable.Valid()
      && maxLevel > 0
      && |levels| == maxLevel + 1
      && forall i | 0 <= i < |levels| :: WellFormed(levels[i])
    }

    /** The tree as a value. */
    ghost function Value(): Tree
      reads this, memtable
    {
      Tree(memtable.data, levels, nextRunNumber, compactionGeneration)
    }

    /** A new tree on an empty directory. */
    constructor Open(memtableSize: nat, level0Trigger: nat)
      ensures Valid() && fresh(memtable) && maxLevel == 6 && Value() == EmptyTree(6)
      ensures this.memtableSize == memtableSize && this.level0Trigger == level0Trigger
    {
      this.maxLevel := 6;
      this.memtableSize := memtableSize;
      this.level0Trigger := level0Trigger;
      this.levels := Emptied(7);
      this.nextRunNumber := 1;
      this.compactionGeneration := 0;
      this.memtable := new MT.MemTable();
    }

    // ----- Writing -----

    method Insert(key: Key, value: Value)
      requires Valid()
      modifies this, memtable
      ensures Valid() && (memtable == old(memtable) || fresh(memtable))
      ensures var t := Written(old(Value()), key, Some(value));
              Value() == if MT.SizeOf(t.mem) >= memtableSize then Flushed(t) else t
    {
      memtable.Insert(key, value);
      if memtable.sizeBytes >= memtableSize {
        FlushMemTable();
      }
    }

    method Delete(key: Key)
      requires Valid()
      modifies this, memtable
      ensures Valid() && (memtable == old(memtable) || fresh(memtable))
      ensures var t := Written(old(Value()), key, None);
              Value() == if MT.SizeOf(t.mem) >= memtableSize then Flushed(t) else t
    {
      memtable.Delete(key);
      if memtable.sizeBytes >= memtableSize {
        FlushMemTable();
      }
    }

    method FlushMemTable()
      requires Valid()
      modifies this
      ensures Valid() && fresh(memtable)
      ensures Value() == Flushed(old(Value()))
    {
      var oldMemtable := memtable;
      memtable := new MT.MemTable();
      if oldMemtable.IsEmpty() {
        return;
      }
      var runNumber := nextRunNumber;
      nextRunNumber := nextRunNumber + 1;
      var run := Run(runNumber, 0, ListOf(oldMemtable.data));
      FlushedRunWellFormed(oldMemtable.data);
      levels := levels[0 := levels[0] + [run]];
    }

    // ----- Reading -----

    method Get(key: Key) returns (r: Option<Value>)
      requires Valid()
      ensures r == GetOn(Value(), key)
    {
      var buffered := memtable.Get(key);
      if buffered.Some? {
        return buffered.value;
      }
      for i := 0 to |levels|
        invariant GetFromLevels(levels, key) == GetFromLevels(levels[i..], key)
      {
        var level := levels[i];
        assert levels[i..][1..] == levels[i + 1..];
        assert level[..|level|] == level;
        for j := |level| downto 0
          invariant GetFromLevel(level, key) == GetFromLevel(level[..j], key)
        {
          var run := level[j];
          assert level[..j + 1][..j] == level[..j];
          OutsideBounds(run, key);
          if Le(run.entries[0].key, key) && Le(key, run.entries[|run.entries| - 1].key) {
            var value := GetFromRun(run, key);
            if value.Some? {
              return value;
            }
          }
        }
      }
      return None;
    }

    method Range(from: Key, to: Key) returns (r: seq<(Key, Value)>)
      requires Valid()
      ensures r == RangeOn(Contents(Value()), from, to)
    {
      var entries: Table := map[];
      for i := |levels| downto 0
        invariant entries == Clip(DiskTable(levels[i..]), from, to)
      {
        assert levels[i..][1..] == levels[i + 1..];
        var sorted := SortBy(ByNumber, levels[i]);
        ClipOverlay(DiskTable(levels[i + 1..]), LevelTable(levels[i]), from, to);
        entries := MergeOnto(entries, sorted, from, to);
      }
      assert levels[0..] == levels;
      var buffered := memtable.Range(from, to);
      ClipOverlay(DiskTable(levels), memtable.data, from, to);
      entries := OverwriteAll(entries, buffered);
      r := LiveEntries(entries, from, to);
      RangeOfClipped(Contents(Value()), from, to);
    }

    // ----- Snapshots -----

    method Snapshot() returns (s: LsmSnapshot)
      requires Valid()
      ensures s == SnapshotOf(Value())
    {
      return LsmSnapshot(memtable.data, memtable.sizeBytes, levels);
    }

    method Rollback(snapshot: LsmSnapshot)
      requires Valid()
      requires snapshot.sizeBytes == MT.SizeOf(snapshot.mem) && |snapshot.levels| == maxLevel + 1
      requires forall i | 0 <= i < |snapshot.levels| :: WellFormed(snapshot.levels[i])
      modifies this
      ensures Valid() && fresh(memtable)
      ensures Value() == RolledBack(old(Value()), snapshot)
    {
      memtable := new MT.MemTable.Restore(snapshot.mem, snapshot.sizeBytes);
      levels := snapshot.levels;
      compactionGeneration := compactionGeneration + 1;
    }

    // ----- One round of compaction -----

    /** `generation.load()` */
    method BeginRound() returns (round: Round)
      ensures round == RoundBegun(Value())
    {
      return GenerationRead(compactionGeneration);
    }

    /** Clone the levels and look for work: an oversized level, or too many L0 files. */
    method ChooseRound(gen: nat) returns (round: Round)
      requires Valid()
      ensures round == JobChosen(Value(), gen, maxLevel, level0Trigger)
    {
      var copy := levels;
      var job := SelectLevelCompaction(copy, maxLevel, SIZE_RATIO);
      if job.None? {
        var l0Files := |copy[0]|;
        if l0Files < level0Trigger || l0Files == 0 {
          return Idle;
        }
        return Chosen(gen, copy, LevelCompactionJob(0, 1, UpTo(l0Files), copy[1]));
      }
      return Chosen(gen, copy, job.value);
    }

    /** Take a run number, then merge without any lock. */
    method BuildRound(round: Round) returns (r: Round)
      requires Valid() && round.Chosen? && RoundFits(round.copy, round.job, maxLevel)
      modifies this`nextRunNumber
      ensures Valid() && Value() == NumberTaken(old(Value()))
      ensures var result := ResultOf(round.job, round.copy[round.job.sourceLevel], old(nextRunNumber), maxLevel);
              r == Ready(round.gen, round.copy, round.job, old(nextRunNumber), result)
    {
      var runNumber := nextRunNumber;
      nextRunNumber := nextRunNumber + 1;
      var sourceRuns := round.copy[round.job.sourceLevel];
      var result := CompactLevels(round.job, sourceRuns, runNumber, maxLevel);
      return Ready(round.gen, round.copy, round.job, runNumber, result);
    }

    /** Under the lock: nothing if the generation changed, else remove by index and push. */
    method WriteBackRound(round: Round)
      requires Valid() && round.Ready? && RoundFits(round.copy, round.job, maxLevel)
      requires round.result.output.Some? ==> WellFormed([round.result.output.value])
      modifies this`levels
      ensures Valid()
      ensures Value() == WrittenBack(old(Value()), round.gen, round.job, round.result, maxLevel)
    {
      if compactionGeneration != round.gen {
        return;
      }
      var source, target := round.job.sourceLevel, round.job.targetLevel;
      var toRemove := SortBy(Descending, round.result.inputsToRemove);
      ghost var before := levels;
      for i := 0 to |toRemove|
        invariant levels == before[source := RemoveEach(before[source], toRemove[..i])]
        invariant forall j | 0 <= j < |levels| :: WellFormed(levels[j])
      {
        assert toRemove[..i + 1][..i] == toRemove[..i];
        var idx := toRemove[i];
        if idx < |levels[source]| {
          RemovedWellFormed(levels[source], idx);
          levels := levels[source := levels[source][..idx] + levels[source][idx + 1..]];
        }
      }
      assert toRemove[..|toRemove|] == toRemove;
      match round.result.output {
        case None =>
        case Some(output) =>
          if target == maxLevel {
            levels := levels[target := []];
            levels := levels[target := levels[target] + [output]];
            assert [] + [output] == [output];
          } else {
            levels := levels[target := levels[target] + [output]];
          }
      }
    }

    /** `compact`: one round with nothing in between. */
    method RunCompaction()
      requires Valid()
      modifies this
      ensures Valid() && memtable == old(memtable)
      ensures Value() == Compacted(old(Value()), maxLevel, level0Trigger)
    {
      var round := BeginRound();
      round := ChooseRound(round.gen);
      if round.Idle? {
        return;
      }
      round := BuildRound(round);
      OutputWellFormed(round.job, round.copy[round.job.sourceLevel], round.number, maxLevel);
      WriteBackRound(round);
    }

    method CompactAll()
      requires Valid()
      modifies this
      ensures Valid() && memtable == old(memtable)
      ensures Value() == CompactedAll(old(Value()), maxLevel)
    {
      var all := CollectRuns(levels);
      if all == [] {
        return;
      }
      var runNumber := nextRunNumber;
      nextRunNumber := nextRunNumber + 1;
      PickAll(all);
      var result := Compact(UpTo(|all|), all, runNumber);
      MergedRunWellFormed(DropTombstones(Scanned(LevelTable(all))), runNumber, 0);
      levels := Emptied(maxLevel + 1);
      if result.output.Some? {
        levels := levels[maxLevel := [result.output.value]];
      }
      OnlyOutputLeft(maxLevel, levels, result.output);
      AllCompacted(old(Value()), Value(), maxLevel, all, result.output);
    }
  }

  /** The memtable's entries in the range, put over those of the levels one by one. */
  method OverwriteAll(entries: Table, newer: seq<Entry>) returns (r: Table)
    ensures r == entries + ToTable(newer)
  {
    r := entries;
    assert r == entries + ToTable([]);
    for j := 0 to |newer|
      invariant r == entries + ToTable(newer[..j])
    {
      assert newer[..j + 1][..j] == newer[..j];
      InsertStep(entries, ToTable(newer[..j]), newer[j].key, newer[j].val);
      r := r[newer[j].key := newer[j].val];
    }
    assert newer[..|newer|] == newer;
  }

  /** `levels.iter().flat_map(|level| level.clone())` */
  method CollectRuns(levels: seq<Level>) returns (all: seq<Run>)
    ensures all == Flatten(levels)
  {
    all := [];
    for i := 0 to |levels|
      invariant all + Flatten(levels[i..]) == Flatten(levels)
    {
      assert levels[i..][1..] == levels[i + 1..];
      all := all + levels[i];
    }
  }

  // ----- Facts the methods use -----

  /** A job chosen from `copy`, as the build and the write-back expect it. */
  ghost predicate RoundFits(copy: seq<Level>, job: LevelCompactionJob, maxLevel: nat) {
    && |copy| == maxLevel + 1
    && job.sourceLevel < maxLevel
    && job == JobFor(copy, job.sourceLevel)
    && forall i | 0 <= i < |copy| :: WellFormed(copy[i])
  }

  lemma MergedRunWellFormed(t: Table, number: nat, level: nat)
    ensures OutputRun(t, number, level).Some? ==> WellFormed([OutputRun(t, number, level).value])
  {
    ListOfRoundTrip(t);
    assert ListOf(t) == [] ==> ToTable(ListOf(t)) == map[];
  }

  lemma FlushedRunWellFormed(t: Table)
    requires t != map[]
    ensures ListOf(t) != [] && Ascending(ListOf(t))
  {
    ListOfRoundTrip(t);
    assert ListOf(t) == [] ==> ToTable(ListOf(t)) == map[];
  }

  lemma OutputWellFormed(job: LevelCompactionJob, sources: Level, number: nat, maxLevel: nat)
    requires forall i | 0 <= i < |job.sourceRuns| :: job.sourceRuns[i] < |sources|
    ensures var output := ResultOf(job, sources, number, maxLevel).output;
            output.Some? ==> WellFormed([output.value])
  {
    MergedRunWellFormed(Merged(Pick(sources, job.sourceRuns), job.targetLevelRuns, job.targetLevel == maxLevel),
                        number, job.targetLevel);
  }

  lemma RemovedWellFormed(level: Level, i: nat)
    requires WellFormed(level) && i < |level|
    ensures WellFormed(level[..i] + level[i + 1..])
  {
  }

  lemma OnlyOutputLeft(maxLevel: nat, levels: seq<Level>, output: Option<Run>)
    requires output.Some? ==> WellFormed([output.value])
    requires var empty := Emptied(maxLevel + 1);
             levels == if output.None? then empty else empty[maxLevel := [output.value]]
    ensures levels == Emptied(maxLevel + 1)[maxLevel := if output.None? then [] else [output.value]]
    ensures forall i | 0 <= i < |levels| :: WellFormed(levels[i])
  {
  }

  lemma AllCompacted(before: Tree, after: Tree, maxLevel: nat, all: seq<Run>, output: Option<Run>)
    requires |before.levels| == maxLevel + 1 && all == Flatten(before.levels) && all != []
    requires output == OutputRun(DropTombstones(Scanned(LevelTable(all))), before.nextRun, 0)
    requires after.levels == Emptied(maxLevel + 1)[maxLevel := if output.None? then [] else [output.value]]
    requires after == before.(levels := after.levels, nextRun := before.nextRun + 1)
    ensures after == CompactedAll(before, maxLevel)
  {
  }

  /** The key bounds of a run exclude no key it holds. */
  lemma OutsideBounds(run: Run, key: Key)
    requires run.entries != [] && Ascending(run.entries)
    ensures GetFromRun(run, key).Some? ==>
              Le(run.entries[0].key, key) && Le(key, run.entries[|run.entries| - 1].key)
  {
    ToTableKeys(run.entries, key);
    if key in ToTable(run.entries) {
      var i :| 0 <= i < |run.entries| && run.entries[i].key == key;
      LeReflexive(key);
      assert i > 0 ==> Lt(run.entries[0].key, run.entries[i].key);
      assert i < |run.entries| - 1 ==> Lt(run.entries[i].key, run.entries[|run.entries| - 1].key);
    }
  }

  lemma RangeOfClipped(t: Table, from: Key, to: Key)
    ensures RangeOn(Clip(t, from, to), from, to) == RangeOn(t, from, to)
  {
    assert Clip(Clip(t, from, to), from, to) == Clip(t, from, to);
  }

  /** `filter_map` over the merged map, in key order. */
  method LiveEntries(entries: Table, ghost from: Key, ghost to: Key) returns (r: seq<(Key, Value)>)
    requires forall k | k in entries :: Within(k, from, to)
    ensures r == RangeOn(entries, from, to)
  {
    var list := ListOf(entries);
    r := [];
    for i := 0 to |list|
      invariant r == Reference.LivePairs(list[..i], from, to)
    {
      assert list[..i + 1][..i] == list[..i];
      assert Sorted(entries.Keys)[i] in entries.Keys;
      if list[i].val.Some? {
        r := r + [(list[i].key, list[i].val.value)];
      }
    }
    assert list[..|list|] == list;
    RangeIsReferenceRange(entries, from, to);
  }
}
