/**
 What each operation of the tree does to its parts, in plain terms: tables,
 positions and counters.
 */
module TreeOperations {
  import opened Keys
  import opened Entries
  import opened Levels
  import opened Compaction
  import opened TreeState
  import MemTables

  /** A flush of an empty memtable changes nothing; any other puts one new run behind L0. */
  lemma FlushMeaning(t: Tree)
    requires t.levels != []
    ensures t.mem == map[] ==> Flushed(t) == t
    ensures t.mem != map[] ==>
              var t', n := Flushed(t), |t.levels[0]|;
              && t'.mem == map[] && t'.nextRun == t.nextRun + 1 && t'.generation == t.generation
              && |t'.levels| == |t.levels| && t'.levels[1..] == t.levels[1..]
              && |t'.levels[0]| == n + 1 && t'.levels[0][..n] == t.levels[0]
              && t'.levels[0][n].number == t.nextRun && t'.levels[0][n].level == 0
              && Ascending(t'.levels[0][n].entries) && ToTable(t'.levels[0][n].entries) == t.mem
  {
    ListOfRoundTrip(t.mem);
  }

  /** A flush in two halves is a flush. */
  lemma FlushInHalves(t: Tree)
    requires t.levels != []
    ensures FlushedRun(t).None? <==> t.mem == map[]
    ensures FlushedRun(t).None? ==> MemTableTaken(t) == t
    ensures FlushedRun(t).Some? ==> RunPushed(MemTableTaken(t), FlushedRun(t).value) == Flushed(t)
  {
  }

  /** A rollback brings back what was there at the snapshot, but no run number: the generation tells rounds about it. */
  lemma RollbackMeaning(t: Tree, later: Tree)
    ensures var back := RolledBack(later, SnapshotOf(t));
            && back.mem == t.mem && back.levels == t.levels
            && back.nextRun == later.nextRun && back.generation == later.generation + 1
    ensures SnapshotOf(t).sizeBytes == MemTables.SizeOf(t.mem)
  {
  }

  /** A write-back changes two levels and no counter; under another generation it changes nothing. */
  lemma WriteBackMeaning(t: Tree, gen: nat, job: LevelCompactionJob, result: CompactionResult, maxLevel: nat)
    requires |t.levels| == maxLevel + 1 && job.sourceLevel < job.targetLevel < |t.levels|
    ensures var t' := WrittenBack(t, gen, job, result, maxLevel);
            && (gen != t.generation ==> t' == t)
            && t'.mem == t.mem && t'.nextRun == t.nextRun && t'.generation == t.generation
            && |t'.levels| == |t.levels|
            && (forall i | 0 <= i < |t.levels| && i != job.sourceLevel && i != job.targetLevel ::
                  t'.levels[i] == t.levels[i])
    ensures gen == t.generation && result.output.Some? ==>
              var before, after := t.levels[job.targetLevel],
                                   WrittenBack(t, gen, job, result, maxLevel).levels[job.targetLevel];
              after == if job.targetLevel == maxLevel then [result.output.value] else before + [result.output.value]
    ensures gen == t.generation && result.output.None? ==>
              WrittenBack(t, gen, job, result, maxLevel).levels[job.targetLevel] == t.levels[job.targetLevel]
  {
  }

  /** `compact_all` takes one number, leaves at most one run, under that number and tag 0, and only at the bottom. */
  lemma CompactAllMeaning(t: Tree, maxLevel: nat)
    requires |t.levels| == maxLevel + 1
    ensures Flatten(t.levels) == [] ==> CompactedAll(t, maxLevel) == t
    ensures Flatten(t.levels) != [] ==>
              var t' := CompactedAll(t, maxLevel);
              && t'.mem == t.mem && t'.nextRun == t.nextRun + 1 && t'.generation == t.generation
              && |t'.levels| == |t.levels| && (forall i | 0 <= i < maxLevel :: t'.levels[i] == [])
              && |t'.levels[maxLevel]| <= 1
              && forall run | run in t'.levels[maxLevel] :: run.number == t.nextRun && run.level == 0
  {
  }

  /** Where a run stands in the list of all runs: behind those of all shallower levels. */
  lemma {:induction false} FlattenInOrder(levels: seq<Level>, i: nat, p: nat)
    requires i < |levels| && p < |levels[i]|
    ensures var at := |Flatten(levels[..i])| + p;
            at < |Flatten(levels)| && Flatten(levels)[at] == levels[i][p]
  {
    if i > 0 {
      var rest := levels[1..];
      FlattenInOrder(rest, i - 1, p);
      assert levels[..i][1..] == rest[..i - 1];
    }
  }

  /** No run is listed that stands on no level. */
  lemma {:induction false} FlattenOnly(levels: seq<Level>, at: nat)
    requires at < |Flatten(levels)|
    ensures exists i, p :: 0 <= i < |levels| && 0 <= p < |levels[i]| && levels[i][p] == Flatten(levels)[at]
  {
    var n := |levels[0]|;
    if at < n {
      assert levels[0][at] == Flatten(levels)[at];
    } else {
      var rest := levels[1..];
      FlattenOnly(rest, at - n);
      var i, p :| 0 <= i < |rest| && 0 <= p < |rest[i]| && rest[i][p] == Flatten(rest)[at - n];
      assert levels[i + 1][p] == Flatten(levels)[at];
    }
  }

  /** In a list looked up from the front, the first run that has a key decides. */
  lemma {:induction false} FirstWinsIs(runs: seq<Run>, i: nat, k: Key)
    requires i < |runs| && k in ToTable(runs[i].entries)
    requires forall j | 0 <= j < i :: k !in ToTable(runs[j].entries)
    ensures k in FirstWins(runs) && FirstWins(runs)[k] == ToTable(runs[i].entries)[k]
    decreases |runs|
  {
    var init := runs[..|runs| - 1];
    if i < |init| {
      FirstWinsIs(init, i, k);
    } else {
      NoneWins(init, k);
    }
  }

  lemma {:induction false} NoneWins(runs: seq<Run>, k: Key)
    requires forall j | 0 <= j < |runs| :: k !in ToTable(runs[j].entries)
    ensures k !in FirstWins(runs)
  {
    if runs != [] {
      NoneWins(runs[..|runs| - 1], k);
    }
  }

  /** The table of a list of entries: the last entry for a key counts. */
  lemma {:induction false} LastEntryCounts(entries: seq<Entry>, i: nat)
    requires i < |entries| && forall j | i < j < |entries| :: entries[j].key != entries[i].key
    ensures entries[i].key in ToTable(entries) && ToTable(entries)[entries[i].key] == entries[i].val
  {
    if i < |entries| - 1 {
      LastEntryCounts(entries[..|entries| - 1], i);
    }
  }
}
