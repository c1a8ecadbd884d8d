/**
 The LazyLevelling compactor: which level to compact, what the merge produces,
 and how its result is put back into the levels.
 */
module Compaction {
  import opened Wrappers
  import opened Keys
  import opened Sorting
  import opened Entries
  import opened Levels

  /** The upper bound of every read a compaction makes: 256 bytes of 0xFF. */
  const TOP_KEY: Key := AllOnes(256)
  const SIZE_RATIO: nat := 4

  datatype LevelCompactionJob = LevelCompactionJob(
    sourceLevel: nat,
    targetLevel: nat,
    sourceRuns: seq<nat>,
    targetLevelRuns: seq<Run>)

  datatype CompactionResult = CompactionResult(output: Option<Run>, inputsToRemove: seq<nat>)

  // ----- Selection -----

  function Power(b: nat, e: nat): nat {
    if e == 0 then 1 else b * Power(b, e - 1)
  }

  function LevelTargetSize(level: nat, sizeRatio: nat): nat {
    10_000 * Power(sizeRatio, level)
  }

  function UpTo(n: nat): seq<nat> {
    seq(n, i => i)
  }

  /** Compact all of level `i` into level `i + 1`. */
  function JobFor(levels: seq<Level>, i: nat): LevelCompactionJob
    requires i < |levels|
  {
    LevelCompactionJob(i, i + 1, UpTo(|levels[i]|), if i + 1 < |levels| then levels[i + 1] else [])
  }

  /** The first level in `[i, maxLevel)` that holds more entries than its target. */
  function FirstOversized(levels: seq<Level>, i: nat, maxLevel: nat, sizeRatio: nat): (r: Option<nat>)
    requires i <= maxLevel <= |levels|
    ensures r.Some? ==> i <= r.value < maxLevel
    decreases maxLevel - i
  {
    if i == maxLevel then None
    else if LevelSize(levels[i]) > LevelTargetSize(i, sizeRatio) then Some(i)
    else FirstOversized(levels, i + 1, maxLevel, sizeRatio)
  }

  /** It is the first level above the bottom that is larger than its target; none if there is none. */
  lemma {:induction false} FirstOversizedIsFirst(levels: seq<Level>, i: nat, maxLevel: nat, sizeRatio: nat)
    requires i <= maxLevel <= |levels|
    ensures var r := FirstOversized(levels, i, maxLevel, sizeRatio);
            && (r.Some? ==> LevelSize(levels[r.value]) > LevelTargetSize(r.value, sizeRatio))
            && forall j | i <= j < (if r.Some? then r.value else maxLevel) ::
                 LevelSize(levels[j]) <= LevelTargetSize(j, sizeRatio)
    decreases maxLevel - i
  {
    if i < maxLevel && LevelSize(levels[i]) <= LevelTargetSize(i, sizeRatio) {
      FirstOversizedIsFirst(levels, i + 1, maxLevel, sizeRatio);
    }
  }

  method SelectLevelCompaction(levels: seq<Level>, maxLevel: nat, sizeRatio: nat)
    returns (job: Option<LevelCompactionJob>)
    requires maxLevel <= |levels|
    ensures job == match FirstOversized(levels, 0, maxLevel, sizeRatio)
                   case None => None
                   case Some(i) => Some(JobFor(levels, i))
  {
    for level := 0 to maxLevel
      invariant FirstOversized(levels, 0, maxLevel, sizeRatio) == FirstOversized(levels, level, maxLevel, sizeRatio)
    {
      var levelSize := LevelSize(levels[level]);
      if levelSize > LevelTargetSize(level, sizeRatio) {
        return Some(JobFor(levels, level));
      }
    }
    return None;
  }

  /** The job of one round: an oversized level, or an L0 with too many files. */
  function ChooseJob(levels: seq<Level>, maxLevel: nat, level0Trigger: nat): (job: Option<LevelCompactionJob>)
    requires |levels| == maxLevel + 1
    ensures job.Some? && maxLevel > 0 ==>
              job.value.sourceLevel < maxLevel && job.value == JobFor(levels, job.value.sourceLevel)
  {
    match FirstOversized(levels, 0, maxLevel, SIZE_RATIO)
    case Some(i) => Some(JobFor(levels, i))
    case None =>
      if |levels[0]| < level0Trigger || |levels[0]| == 0 then None else Some(JobFor(levels, 0))
  }

  /** The targets above the bottom, in entries. */
  lemma LevelTargets()
    ensures LevelTargetSize(0, SIZE_RATIO) == 10_000 && LevelTargetSize(1, SIZE_RATIO) == 40_000
    ensures LevelTargetSize(2, SIZE_RATIO) == 160_000 && LevelTargetSize(3, SIZE_RATIO) == 640_000
    ensures LevelTargetSize(4, SIZE_RATIO) == 2_560_000 && LevelTargetSize(5, SIZE_RATIO) == 10_240_000
  {
    assert Power(4, 0) == 1 && Power(4, 1) == 4 * Power(4, 0) && Power(4, 2) == 4 * Power(4, 1);
    assert Power(4, 3) == 4 * Power(4, 2) && Power(4, 4) == 4 * Power(4, 3) && Power(4, 5) == 4 * Power(4, 4);
  }

  /** The job takes every run of level `i`, towards the runs on the next level. */
  ghost predicate TakesLevel(job: LevelCompactionJob, levels: seq<Level>, i: nat)
    requires i + 1 < |levels|
  {
    && job.sourceLevel == i && job.targetLevel == i + 1 && job.targetLevelRuns == levels[i + 1]
    && |job.sourceRuns| == |levels[i]| && forall p | 0 <= p < |job.sourceRuns| :: job.sourceRuns[p] == p
  }

  ghost predicate Oversized(levels: seq<Level>, i: nat)
    requires i < |levels|
  {
    LevelSize(levels[i]) > LevelTargetSize(i, SIZE_RATIO)
  }

  lemma FoundOversized(levels: seq<Level>, maxLevel: nat)
    requires |levels| == maxLevel + 1
    ensures var r := FirstOversized(levels, 0, maxLevel, SIZE_RATIO); r.Some? ==> Oversized(levels, r.value)
  {
    FirstOversizedIsFirst(levels, 0, maxLevel, SIZE_RATIO);
  }

  /** The shallowest oversized level is taken, however many files L0 has. */
  lemma OversizedComesFirst(levels: seq<Level>, i: nat, maxLevel: nat, level0Trigger: nat)
    requires |levels| == maxLevel + 1 && i < maxLevel && Oversized(levels, i)
    requires forall j | 0 <= j < i :: !Oversized(levels, j)
    ensures var job := ChooseJob(levels, maxLevel, level0Trigger);
            job.Some? && TakesLevel(job.value, levels, i)
  {
    FirstOversizedIsFirst(levels, 0, maxLevel, SIZE_RATIO);
    FoundOversized(levels, maxLevel);
  }

  /** Only when no level is oversized do the files of L0 count. */
  lemma FilesComeSecond(levels: seq<Level>, maxLevel: nat, level0Trigger: nat)
    requires |levels| == maxLevel + 1 && maxLevel > 0 && forall j | 0 <= j < maxLevel :: !Oversized(levels, j)
    ensures var job := ChooseJob(levels, maxLevel, level0Trigger);
            && (job.Some? <==> levels[0] != [] && |levels[0]| >= level0Trigger)
            && (job.Some? ==> TakesLevel(job.value, levels, 0))
  {
    FoundOversized(levels, maxLevel);
  }

  /** A key of at most 256 bytes is read; a longer one exactly if one of its first 256 bytes is not 0xFF. */
  lemma ReadKeys(key: Key)
    ensures |key| <= 256 ==> Le(key, TOP_KEY)
    ensures Le(key, TOP_KEY) <==> |key| <= 256 || exists j :: 0 <= j < 256 && key[j] < 255
  {
    WithinAllOnes(key, 256);
  }

  // ----- Merging -----

  /** Runs as they are on disk: sorted, and never empty. */
  ghost predicate WellFormed(runs: seq<Run>) {
    forall i | 0 <= i < |runs| :: runs[i].entries != [] && Ascending(runs[i].entries)
  }

  /** What a compaction reads of a table. */
  function Scanned(t: Table): Table {
    Clip(t, [], TOP_KEY)
  }

  function Pick(runs: seq<Run>, indices: seq<nat>): seq<Run>
    requires forall i | 0 <= i < |indices| :: indices[i] < |runs|
  {
    seq(|indices|, i requires 0 <= i < |indices| => runs[indices[i]])
  }

  lemma PickAll(runs: Level)
    ensures Pick(runs, UpTo(|runs|)) == runs
  {
  }

  /** Runs looked up in order until one has the key. */
  function FirstWins(runs: seq<Run>): Table {
    if runs == [] then map[] else ToTable(runs[|runs| - 1].entries) + FirstWins(runs[..|runs| - 1])
  }

  /** The merge of a job: tiering keeps tombstones, leveling pulls in the target level and drops them. */
  function Merged(sources: seq<Run>, targets: seq<Run>, isBottomLevel: bool): Table {
    var newest := Scanned(LevelTable(sources));
    if isBottomLevel then DropTombstones(Scanned(FirstWins(targets)) + newest) else newest
  }

  function OutputRun(t: Table, number: nat, level: nat): Option<Run> {
    if t == map[] then None else Some(Run(number, level, ListOf(t)))
  }

  lemma OrInsertStep(a: Table, all: Table, key: Key, val: Option<Value>)
    requires key !in a
    ensures a[key := val] + all == if key in a + all then a + all else (a + all)[key := val]
  {
  }

  lemma NextEntry(entries: seq<Entry>, j: nat)
    requires Ascending(entries) && j < |entries|
    ensures entries[j].key !in ToTable(entries[..j])
    ensures ToTable(entries[..j + 1]) == ToTable(entries[..j])[entries[j].key := entries[j].val]
  {
    assert entries[..j + 1][..j] == entries[..j];
    LastNotBefore(entries[..j + 1]);
  }

  /** Earlier entries stay: `all.entry(key).or_insert(value)` for every entry read. */
  method OrInsertAll(all: Table, run: Run) returns (r: Table)
    requires Ascending(run.entries)
    ensures r == Scanned(ToTable(run.entries)) + all
  {
    var entries := RangeOf(run.entries, [], TOP_KEY);
    ToTableRange(run.entries, [], TOP_KEY);
    RangeAscending(run.entries, [], TOP_KEY);
    r := all;
    for j := 0 to |entries|
      invariant r == ToTable(entries[..j]) + all
    {
      var key := entries[j].key;
      NextEntry(entries, j);
      OrInsertStep(ToTable(entries[..j]), all, key, entries[j].val);
      if key !in r {
        r := r[key := entries[j].val];
      }
    }
    assert entries[..|entries|] == entries;
  }

  lemma {:induction false} RangeAscending(entries: seq<Entry>, from: Key, to: Key)
    requires Ascending(entries)
    ensures Ascending(RangeOf(entries, from, to))
  {
    if entries != [] {
      var init, last := entries[..|entries| - 1], entries[|entries| - 1];
      RangeAscending(init, from, to);
      var r := RangeOf(init, from, to);
      forall i | 0 <= i < |r| ensures Lt(r[i].key, last.key) {
        assert r[i] in init;
        var j :| 0 <= j < |init| && init[j] == r[i];
        assert Lt(entries[j].key, last.key);
      }
    }
  }

  method MergeSorted(sorted: seq<Run>) returns (all: Table)
    ensures all == Scanned(MergeRuns(sorted))
  {
    all := MergeOnto(map[], sorted, [], TOP_KEY);
  }

  method MergeUnder(newest: Table, targets: seq<Run>) returns (all: Table)
    requires WellFormed(targets)
    ensures all == Scanned(FirstWins(targets)) + newest
  {
    all := newest;
    assert Scanned(map[]) + newest == newest;
    for i := 0 to |targets|
      invariant all == Scanned(FirstWins(targets[..i])) + newest
    {
      var below := ToTable(targets[i].entries);
      all := OrInsertAll(all, targets[i]);
      assert targets[..i + 1][..i] == targets[..i];
      ClipOverlay(below, FirstWins(targets[..i]), [], TOP_KEY);
      OverlayAssociative(Scanned(below), Scanned(FirstWins(targets[..i])), newest);
    }
    assert targets[..|targets|] == targets;
  }

  method CompactLevels(job: LevelCompactionJob, sourceLevelRuns: seq<Run>, runNumber: nat, maxLevel: nat)
    returns (r: CompactionResult)
    requires forall i | 0 <= i < |job.sourceRuns| :: job.sourceRuns[i] < |sourceLevelRuns|
    requires WellFormed(job.targetLevelRuns)
    ensures r.inputsToRemove == job.sourceRuns
    ensures r.output ==
            OutputRun(Merged(Pick(sourceLevelRuns, job.sourceRuns), job.targetLevelRuns, job.targetLevel == maxLevel),
                      runNumber, job.targetLevel)
  {
    var sorted := SortBy(ByNumber, Pick(sourceLevelRuns, job.sourceRuns));
    var all := MergeSorted(sorted);
    var isBottomLevel := job.targetLevel == maxLevel;
    if isBottomLevel {
      all := MergeUnder(all, job.targetLevelRuns);
      all := DropTombstones(all);
    }
    return CompactionResult(OutputRun(all, runNumber, job.targetLevel), job.sourceRuns);
  }

  /** The merge behind `compact_all`: by run number across all levels, tombstones dropped if nothing is left out. */
  method Compact(inputs: seq<nat>, sstables: seq<Run>, runNumber: nat) returns (r: CompactionResult)
    requires forall i | 0 <= i < |inputs| :: inputs[i] < |sstables|
    ensures r.inputsToRemove == inputs
    ensures var newest := Scanned(LevelTable(Pick(sstables, inputs)));
            r.output == OutputRun(if |inputs| == |sstables| then DropTombstones(newest) else newest, runNumber, 0)
  {
    var all := MergeSorted(SortBy(ByNumber, Pick(sstables, inputs)));
    var compactingAll := |inputs| == |sstables|;
    if compactingAll {
      all := DropTombstones(all);
    }
    return CompactionResult(OutputRun(all, runNumber, 0), inputs);
  }

  // ----- Putting the result back -----

  predicate Descending(a: nat, b: nat) {
    a >= b
  }

  function RemoveAt(level: Level, i: nat): Level {
    if i < |level| then level[..i] + level[i + 1..] else level
  }

  /** Remove by index, in the order given, skipping indices that are out of range. */
  function RemoveEach(level: Level, indices: seq<nat>): Level {
    if indices == [] then level
    else RemoveAt(RemoveEach(level, indices[..|indices| - 1]), indices[|indices| - 1])
  }

  function Install(levels: seq<Level>, job: LevelCompactionJob, result: CompactionResult, maxLevel: nat):
    (r: seq<Level>)
    requires |levels| == maxLevel + 1 && job.sourceLevel < |levels| && job.targetLevel < |levels|
    ensures |r| == |levels|
  {
    var rest := RemoveEach(levels[job.sourceLevel], SortBy(Descending, result.inputsToRemove));
    var removed := levels[job.sourceLevel := rest];
    match result.output
    case None => removed
    case Some(output) =>
      if job.targetLevel == maxLevel then removed[job.targetLevel := [output]]
      else removed[job.targetLevel := removed[job.targetLevel] + [output]]
  }

  lemma {:induction false} InsertInFront(xs: seq<nat>, x: nat)
    requires forall i | 0 <= i < |xs| :: xs[i] < x
    ensures InsertBy(Descending, xs, x) == [x] + xs
  {
    if xs != [] {
      InsertInFront(xs[..|xs| - 1], x);
      assert xs == xs[..|xs| - 1] + [xs[|xs| - 1]];
    } else {
      assert [x] + xs == xs + [x];
    }
  }

  function DownFrom(n: nat): seq<nat> {
    seq(n, i requires 0 <= i < n => n - 1 - i)
  }

  lemma {:induction false} SortDescending(n: nat)
    ensures SortBy(Descending, UpTo(n)) == DownFrom(n)
  {
    if n > 0 {
      assert UpTo(n)[..n - 1] == UpTo(n - 1);
      SortDescending(n - 1);
      InsertInFront(DownFrom(n - 1), n - 1);
      assert DownFrom(n) == [n - 1] + DownFrom(n - 1);
    }
  }

  /** Removing indices `n - 1, ..., n - i` takes the end off the first `n` runs. */
  lemma {:induction false} RemoveFromEnd(copy: Level, suffix: Level, i: nat)
    requires i <= |copy|
    ensures RemoveEach(copy + suffix, DownFrom(|copy|)[..i]) == copy[..|copy| - i] + suffix
  {
    var n := |copy|;
    if i == 0 {
      assert copy[..n] == copy;
    } else {
      var indices := DownFrom(n)[..i];
      assert indices[..i - 1] == DownFrom(n)[..i - 1] && indices[i - 1] == n - i;
      RemoveFromEnd(copy, suffix, i - 1);
      var level := copy[..n - i + 1] + suffix;
      assert level[..n - i] == copy[..n - i] && level[n - i + 1..] == suffix;
    }
  }

  /** On a level shorter than the indices reach, all but the ones in range are skipped. */
  lemma {:induction false} RemoveSkips(level: Level, n: nat, i: nat)
    requires |level| <= n && i <= n
    ensures RemoveEach(level, DownFrom(n)[..i]) == level[..if n - i < |level| then n - i else |level|]
  {
    if i > 0 {
      var indices := DownFrom(n)[..i];
      assert indices[..i - 1] == DownFrom(n)[..i - 1] && indices[i - 1] == n - i;
      RemoveSkips(level, n, i - 1);
      var before := level[..if n - i + 1 < |level| then n - i + 1 else |level|];
      if n - i < |before| {
        assert before[..n - i] == level[..n - i] && before[n - i + 1..] == [];
      }
    }
  }

  /**
   From any level, removing the first `n` indices in descending order takes
   exactly its first `n` runs, or all of them if there are fewer.
   */
  lemma RemovesFirst(level: Level, n: nat)
    ensures RemoveEach(level, SortBy(Descending, UpTo(n))) == level[if n < |level| then n else |level|..]
  {
    SortDescending(n);
    assert DownFrom(n)[..n] == DownFrom(n);
    if n < |level| {
      var copy, suffix := level[..n], level[n..];
      assert level == copy + suffix;
      RemoveFromEnd(copy, suffix, n);
      assert copy[..0] + suffix == suffix;
    } else {
      RemoveSkips(level, n, n);
      assert level[..0] == level[|level|..];
    }
  }

  /**
   So the descending removals delete exactly the merged runs while the level
   begins with them: whatever was pushed behind them since it was copied stays.
   */
  lemma RemovesExactlyTheCopy(copy: Level, suffix: Level)
    ensures RemoveEach(copy + suffix, SortBy(Descending, UpTo(|copy|))) == suffix
  {
    RemovesFirst(copy + suffix, |copy|);
    assert (copy + suffix)[|copy|..] == suffix;
  }
}
