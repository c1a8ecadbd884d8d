/** Without new flushes compaction comes to rest, and at rest every level fits its target. */
module CompactionProgress {
  import opened Keys
  import opened Sorting
  import opened Entries
  import opened Levels
  import opened Compaction
  import opened CompactionView
  import opened LevelInvariant
  import opened TreeState
  import opened InterleavingStructure

  /** Entries weighted by how many levels they may still sink. */
  function Weight(levels: seq<Level>, i: nat, maxLevel: nat): nat
    requires i <= |levels| <= maxLevel + 1
    decreases |levels| - i
  {
    if i == |levels| then 0
    else
      var rise: nat, size: nat := maxLevel - i, LevelSize(levels[i]);
      rise * size + Weight(levels, i + 1, maxLevel)
  }

  // ----- A merge never has more entries than its sources -----

  lemma {:induction false} TableSize(entries: seq<Entry>)
    ensures |ToTable(entries).Keys| <= |entries|
  {
    if entries != [] {
      var init, last := entries[..|entries| - 1], entries[|entries| - 1];
      TableSize(init);
      assert ToTable(entries).Keys == ToTable(init).Keys + {last.key};
    }
  }

  lemma OverlaySize(a: Table, b: Table)
    ensures |(a + b).Keys| <= |a.Keys| + |b.Keys|
  {
    assert (a + b).Keys == a.Keys + b.Keys;
  }

  lemma {:induction false} MergeSize(runs: seq<Run>)
    ensures |MergeRuns(runs).Keys| <= LevelSize(runs)
  {
    if runs != [] {
      var init, last := runs[..|runs| - 1], runs[|runs| - 1];
      MergeSize(init);
      TableSize(last.entries);
      OverlaySize(MergeRuns(init), ToTable(last.entries));
    }
  }

  lemma {:induction false} InsertSize(runs: seq<Run>, run: Run)
    ensures LevelSize(InsertBy(ByNumber, runs, run)) == LevelSize(runs) + |run.entries|
  {
    var all := InsertBy(ByNumber, runs, run);
    if runs == [] || ByNumber(runs[|runs| - 1], run) {
      assert all[..|all| - 1] == runs;
    } else {
      InsertSize(runs[..|runs| - 1], run);
      assert all[..|all| - 1] == InsertBy(ByNumber, runs[..|runs| - 1], run);
    }
  }

  lemma {:induction false} SortSize(runs: seq<Run>)
    ensures LevelSize(SortBy(ByNumber, runs)) == LevelSize(runs)
  {
    if runs != [] {
      SortSize(runs[..|runs| - 1]);
      InsertSize(SortBy(ByNumber, runs[..|runs| - 1]), runs[|runs| - 1]);
    }
  }

  lemma TieredSize(sources: Level, targets: Level)
    ensures |ListOf(Merged(sources, targets, false))| <= LevelSize(sources)
  {
    MergeSize(SortBy(ByNumber, sources));
    SortSize(sources);
    var all, read := LevelTable(sources), Scanned(LevelTable(sources));
    assert read.Keys <= all.Keys;
    SubsetSize(read.Keys, all.Keys);
    SortedSize(read.Keys);
  }

  lemma SubsetSize<T>(a: set<T>, b: set<T>)
    requires a <= b
    ensures |a| <= |b|
  {
    assert b == a + (b - a);
  }

  // ----- One round -----

  lemma {:induction false} WeightUnchanged(a: seq<Level>, b: seq<Level>, i: nat, maxLevel: nat)
    requires i <= |a| == |b| <= maxLevel + 1 && a[i..] == b[i..]
    ensures Weight(a, i, maxLevel) == Weight(b, i, maxLevel)
    decreases |a| - i
  {
    if i < |a| {
      assert a[i] == a[i..][0] == b[i..][0] == b[i];
      assert a[i + 1..] == a[i..][1..] == b[i..][1..] == b[i + 1..];
      WeightUnchanged(a, b, i + 1, maxLevel);
    }
  }

  /** Weight of levels `i` and `i + 1`, `rise` levels above the bottom, before and after a move. */
  lemma MovedDown(rise: nat, moved: nat, below: nat, after: nat)
    requires rise > 0 && moved > 0
    requires rise > 1 ==> after <= below + moved
    ensures (rise - 1) * after < rise * moved + (rise - 1) * below
  {
    if rise > 1 {
      MulMonotone(rise - 1, after, below + moved);
      assert (rise - 1) * (below + moved) == (rise - 1) * below + (rise - 1) * moved;
      assert rise * moved == (rise - 1) * moved + moved;
    } else {
      assert rise == 1;
    }
  }

  /** Entries moved one level down, some perhaps dropped, weigh less. */
  lemma {:induction false} WeightDrops(levels: seq<Level>, i: nat, target: Level, maxLevel: nat, from: nat)
    requires |levels| == maxLevel + 1 && from <= i < maxLevel
    requires LevelSize(levels[i]) > 0
    requires i + 1 < maxLevel ==> LevelSize(target) <= LevelSize(levels[i + 1]) + LevelSize(levels[i])
    ensures Weight(levels[i := []][i + 1 := target], from, maxLevel) < Weight(levels, from, maxLevel)
    decreases i - from
  {
    var after := levels[i := []][i + 1 := target];
    if from < i {
      WeightDrops(levels, i, target, maxLevel, from + 1);
      assert after[from] == levels[from];
    } else {
      WeightUnchanged(after, levels, i + 2, maxLevel);
      assert after[i] == [] && LevelSize([]) == 0;
      WeightOfTwo(after, i, maxLevel);
      WeightOfTwo(levels, i, maxLevel);
      MovedDown(maxLevel - i, LevelSize(levels[i]), LevelSize(levels[i + 1]), LevelSize(target));
    }
  }

  lemma WeightOfTwo(levels: seq<Level>, i: nat, maxLevel: nat)
    requires |levels| == maxLevel + 1 && i < maxLevel
    ensures Weight(levels, i, maxLevel) ==
            (maxLevel - i) * LevelSize(levels[i]) +
            ((maxLevel - i - 1) * LevelSize(levels[i + 1]) + Weight(levels, i + 2, maxLevel))
  {
    assert Weight(levels, i + 1, maxLevel) ==
           (maxLevel - (i + 1)) * LevelSize(levels[i + 1]) + Weight(levels, i + 2, maxLevel);
  }

  lemma MulMonotone(a: nat, x: nat, y: nat)
    requires x <= y
    ensures a * x <= a * y
  {
  }

  lemma {:induction false} NonEmptyLevel(level: Level)
    requires WellFormed(level) && level != []
    ensures LevelSize(level) > 0
  {
    assert level[|level| - 1].entries != [];
  }

  /** Merging a nonempty level into the next one lowers the weight. */
  lemma CommitDrops(levels: seq<Level>, i: nat, n: nat, maxLevel: nat)
    requires |levels| == maxLevel + 1 && i < maxLevel && LevelSize(levels[i]) > 0
    ensures Weight(Committed(levels, i, levels[i], levels[i + 1], n, maxLevel), 0, maxLevel) <
            Weight(levels, 0, maxLevel)
  {
    CommittedAt(levels, i, levels[i], n, maxLevel);
    var merged := Merged(levels[i], levels[i + 1], i + 1 == maxLevel);
    var output := OutputRun(merged, n, i + 1);
    var target := if output.None? then levels[i + 1]
                  else if i + 1 == maxLevel then [output.value]
                  else levels[i + 1] + [output.value];
    if i + 1 < maxLevel && output.Some? {
      TieredSize(levels[i], levels[i + 1]);
      assert target[..|target| - 1] == levels[i + 1];
    }
    assert levels[i][|levels[i]|..] == [];
    WeightDrops(levels, i, target, maxLevel, 0);
  }

  /** A level chosen for a round holds entries. */
  lemma ChosenHasEntries(levels: seq<Level>, n: nat, maxLevel: nat, level0Trigger: nat)
    requires maxLevel > 0 && LevelsOk(levels, maxLevel, n) && ChooseJob(levels, maxLevel, level0Trigger).Some?
    ensures LevelSize(levels[ChooseJob(levels, maxLevel, level0Trigger).value.sourceLevel]) > 0
  {
    var i := ChooseJob(levels, maxLevel, level0Trigger).value.sourceLevel;
    FirstOversizedIsFirst(levels, 0, maxLevel, SIZE_RATIO);
    assert LevelOk(levels[i], n);
    LevelOkTable(levels[i], n);
    if levels[i] != [] {
      NonEmptyLevel(levels[i]);
    }
  }

  /** Every round that finds work strictly lowers the weight. */
  lemma RoundDrops(t: Tree, maxLevel: nat, level0Trigger: nat)
    requires maxLevel > 0 && LevelsOk(t.levels, maxLevel, t.nextRun)
    requires ChooseJob(t.levels, maxLevel, level0Trigger).Some?
    ensures |Compacted(t, maxLevel, level0Trigger).levels| == maxLevel + 1
    ensures Weight(Compacted(t, maxLevel, level0Trigger).levels, 0, maxLevel) < Weight(t.levels, 0, maxLevel)
  {
    var i := ChooseJob(t.levels, maxLevel, level0Trigger).value.sourceLevel;
    ChosenHasEntries(t.levels, t.nextRun, maxLevel, level0Trigger);
    CommitDrops(t.levels, i, t.nextRun, maxLevel);
    var after := Compacted(t, maxLevel, level0Trigger).levels;
    assert after == Committed(t.levels, i, t.levels[i], t.levels[i + 1], t.nextRun, maxLevel) by {
      CompactedIsCommit(t, maxLevel, level0Trigger);
    }
  }

  // ----- All rounds -----

  function Rounds(t: Tree, n: nat, maxLevel: nat, level0Trigger: nat): (r: Tree)
    requires maxLevel > 0 && |t.levels| == maxLevel + 1
    ensures |r.levels| == maxLevel + 1
    decreases n
  {
    if n == 0 then t else Rounds(Compacted(t, maxLevel, level0Trigger), n - 1, maxLevel, level0Trigger)
  }

  /** No level above the bottom is over its target, and L0 has too few files to matter. */
  ghost predicate AtRest(t: Tree, maxLevel: nat, level0Trigger: nat)
    requires |t.levels| == maxLevel + 1
  {
    && (forall i | 0 <= i < maxLevel :: LevelSize(t.levels[i]) <= 10_000 * Power(4, i))
    && (t.levels[0] == [] || |t.levels[0]| < level0Trigger)
  }

  /** A round is a no-op exactly at rest. */
  lemma IdleMeansAtRest(t: Tree, maxLevel: nat, level0Trigger: nat)
    requires maxLevel > 0 && |t.levels| == maxLevel + 1
    ensures ChooseJob(t.levels, maxLevel, level0Trigger).None? <==> AtRest(t, maxLevel, level0Trigger)
    ensures AtRest(t, maxLevel, level0Trigger) ==> Compacted(t, maxLevel, level0Trigger) == t
  {
    FirstOversizedIsFirst(t.levels, 0, maxLevel, SIZE_RATIO);
    var oversized := FirstOversized(t.levels, 0, maxLevel, SIZE_RATIO);
    if oversized.Some? {
      assert LevelSize(t.levels[oversized.value]) > 10_000 * Power(4, oversized.value);
    } else {
      assert forall i | 0 <= i < maxLevel :: LevelSize(t.levels[i]) <= LevelTargetSize(i, SIZE_RATIO);
    }
  }

  /** With no flush in between, at most `Weight` rounds bring the tree to rest. */
  lemma {:induction false} ComesToRest(t: Tree, maxLevel: nat, level0Trigger: nat) returns (n: nat)
    requires maxLevel > 0 && LevelsOk(t.levels, maxLevel, t.nextRun)
    ensures n <= Weight(t.levels, 0, maxLevel)
    ensures AtRest(Rounds(t, n, maxLevel, level0Trigger), maxLevel, level0Trigger)
    decreases Weight(t.levels, 0, maxLevel)
  {
    IdleMeansAtRest(t, maxLevel, level0Trigger);
    if AtRest(t, maxLevel, level0Trigger) {
      return 0;
    }
    RoundDrops(t, maxLevel, level0Trigger);
    CompactedTreeOk(t, maxLevel, level0Trigger);
    n := ComesToRest(Compacted(t, maxLevel, level0Trigger), maxLevel, level0Trigger);
    n := n + 1;
  }
}
