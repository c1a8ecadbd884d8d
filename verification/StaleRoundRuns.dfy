/**
 Runs of a new tree on which a write-back takes away nothing it has not merged,
 and still brings an old value back.
 */
module StaleRoundRuns {
  import opened Wrappers
  import opened Keys
  import opened Entries
  import opened Levels
  import opened Compaction
  import opened CompactionView
  import opened TreeState
  import opened InterleavingStructure
  import opened CompactAllView
  import opened SecondRound
  import opened StaleRound
  import opened Witnesses
  import opened CompactAllRace

  /** Insert 1 and flush; the background round copies L0; insert 2 under the same key and flush. */
  ghost predicate Begins(t1: Tree, background: Round, t2: Tree) {
    && |EmptyTree(6).levels| == 7 && t1 == Flushed(Written(EmptyTree(6), [7], Some([1])))
    && |t1.levels| == 7 && background == JobChosen(t1, 0, 6, 1)
    && t2 == Flushed(Written(t1, [7], Some([2]))) && |t2.levels| == 7
  }

  /** The background round takes a number, merges its copy and writes back. */
  ghost predicate Ends(t3: Tree, background: Round, t4: Tree) {
    && |t3.levels| == 7 && background.Chosen?
    && |background.copy| == 7 && background.job == JobFor(background.copy, 0)
    && t4 == WrittenBack(NumberTaken(t3), background.gen, background.job,
                         ResultOf(background.job, background.copy[0], t3.nextRun, 6), 6)
  }

  /** The write-back takes away no run that it has not merged, and readers go from the newer value to the older. */
  ghost predicate HarmsUnnoticed(t3: Tree, background: Round, t4: Tree)
    requires background.Chosen? && background.copy != [] && t3.levels != []
  {
    && OnlyMerged(background.copy[0], t3.levels[0])
    && Live(Contents(t3)) == map[[7] := [2]]
    && Live(Contents(t4)) == map[[7] := [1]]
  }

  lemma BeginsWith() returns (t1: Tree, background: Round, t2: Tree)
    ensures Begins(t1, background, t2)
    ensures var older, newer := Holding(1, 0, [7], [1]), Holding(2, 0, [7], [2]);
            && background == Chosen(0, TwoLevels([older], []), JobFor(TwoLevels([older], []), 0))
            && t2 == Tree(map[], TwoLevels([older, newer], []), 3, 0)
  {
    var older, newer := Holding(1, 0, [7], [1]), Holding(2, 0, [7], [2]);
    assert EmptyTree(6) == Tree(map[], TwoLevels([], []), 1, 0);
    FlushMore([], 1, [7], Some([1]));
    assert [] + [older] == [older];
    t1 := Tree(map[], TwoLevels([older], []), 2, 0);
    SmallJob([older], []);
    background := JobChosen(t1, 0, 6, 1);
    FlushMore([older], 2, [7], Some([2]));
    assert [older] + [newer] == [older, newer];
    t2 := Tree(map[], TwoLevels([older, newer], []), 3, 0);
  }

  /** One run moved to L1 by a round that copied it alone, from whatever L0 and L1 hold by then. */
  lemma PushesCopy(levels: seq<Level>, run: Run, number: nat, v: Value)
    requires |levels| == 7 && levels[0] == [] && run.entries == [Entry([7], Some(v))]
    ensures Committed(levels, 0, [run], [], number, 6) == levels[1 := levels[1] + [Holding(number, 1, [7], v)]]
  {
    var copy := TwoLevels([run], []);
    CommittedAnywhere(levels, 0, copy, number, 6);
    ShortKeysBelowTop([7], 256);
    OneRun(run, [7], Some(v));
    ScannedAll(LevelTable([run]));
    OneEntry([7], Some(v));
    assert levels[0 := []] == levels;
  }

  lemma FinishesWith(t: Tree, run: Run, v: Value)
    requires |t.levels| == 7 && t.levels[0] == [] && t.generation == 0 && run.entries == [Entry([7], Some(v))]
    ensures var copy := TwoLevels([run], []);
            var result := ResultOf(JobFor(copy, 0), [run], t.nextRun, 6);
            var after := WrittenBack(NumberTaken(t), 0, JobFor(copy, 0), result, 6);
            after == Tree(t.mem, t.levels[1 := t.levels[1] + [Holding(t.nextRun, 1, [7], v)]], t.nextRun + 1, 0)
  {
    WrittenBackIsCommitted(NumberTaken(t), TwoLevels([run], []), 0, t.nextRun, 6);
    PushesCopy(t.levels, run, t.nextRun, v);
  }

  // ----- compact in the middle -----

  lemma BothCompacted(t2: Tree, t3: Tree)
    requires t2 == Tree(map[], TwoLevels([Holding(1, 0, [7], [1]), Holding(2, 0, [7], [2])], []), 3, 0)
    requires t3 == Tree(map[], TwoLevels([], [Holding(3, 1, [7], [2])]), 4, 0)
    ensures Compacted(t2, 6, 1) == t3
  {
    var older, newer := Holding(1, 0, [7], [1]), Holding(2, 0, [7], [2]);
    SmallerJob([older, newer], []);
    CompactedIsCommit(t2, 6, 1);
    BothCommitted([older, newer], Holding(3, 1, [7], [2]));
  }

  lemma BothMerged(l0: Level)
    requires l0 == [Holding(1, 0, [7], [1]), Holding(2, 0, [7], [2])]
    ensures Merged(l0, [], false) == map[[7] := Some([2])]
  {
    ShortKeysBelowTop([7], 256);
    MergeTwoNumbers(l0[0], l0[1], [7], Some([1]), Some([2]));
    ScannedAll(LevelTable(l0));
  }

  lemma BothCommitted(l0: Level, output: Run)
    requires l0 == [Holding(1, 0, [7], [1]), Holding(2, 0, [7], [2])] && output == Holding(3, 1, [7], [2])
    ensures Committed(TwoLevels(l0, []), 0, l0, [], 3, 6) == TwoLevels([], [output])
  {
    CommittedAt(TwoLevels(l0, []), 0, l0, 3, 6);
    BothMerged(l0);
    OneEntry([7], Some([2]));
    assert l0[|l0|..] == [];
    assert [] + [output] == [output];
  }

  lemma SmallerJob(l0: Level, l1: Level)
    requires |l0| == 2 && |l0[0].entries| <= 1 && |l0[1].entries| <= 1 && l1 == []
    ensures ChooseJob(TwoLevels(l0, l1), 6, 1) == Some(JobFor(TwoLevels(l0, l1), 0))
  {
    var levels := TwoLevels(l0, l1);
    assert LevelSize(l0) <= 2 by {
      assert l0[..1] == [l0[0]];
      SmallLevel(l0[0]);
    }
    forall j | 0 <= j < 6 ensures LevelSize(levels[j]) <= 2 {
      assert levels[j] == if j == 0 then l0 else [];
    }
    NoneOversized(levels, 0, 6);
    TriggerJob(levels, 6, 1);
  }

  /** `compact` takes runs 1 and 2 into run 3; then the background round pushes run 1 again, as run 4. */
  lemma CompactInTheMiddle() returns (t1: Tree, background: Round, t2: Tree, t3: Tree, t4: Tree)
    ensures Begins(t1, background, t2) && t3 == Compacted(t2, 6, 1)
    ensures Ends(t3, background, t4) && HarmsUnnoticed(t3, background, t4)
  {
    t1, background, t2 := BeginsWith();
    t3 := Tree(map[], TwoLevels([], [Holding(3, 1, [7], [2])]), 4, 0);
    BothCompacted(t2, t3);
    t4 := HarmOnL1(t3, background);
  }

  lemma HarmOnL1(t3: Tree, background: Round) returns (t4: Tree)
    requires t3 == Tree(map[], TwoLevels([], [Holding(3, 1, [7], [2])]), 4, 0)
    requires var copy := TwoLevels([Holding(1, 0, [7], [1])], []); background == Chosen(0, copy, JobFor(copy, 0))
    ensures Ends(t3, background, t4) && HarmsUnnoticed(t3, background, t4)
  {
    t4 := EndsWith(t3, background);
    OnL1(Holding(3, 1, [7], [2]), Holding(4, 1, [7], [1]), t3, t4);
  }

  lemma EndsWith(t3: Tree, background: Round) returns (t4: Tree)
    requires |t3.levels| == 7 && t3.levels[0] == [] && t3.generation == 0
    requires var copy := TwoLevels([Holding(1, 0, [7], [1])], []); background == Chosen(0, copy, JobFor(copy, 0))
    ensures Ends(t3, background, t4)
    ensures t4 == Tree(t3.mem, t3.levels[1 := t3.levels[1] + [Holding(t3.nextRun, 1, [7], [1])]], t3.nextRun + 1, 0)
  {
    FinishesWith(t3, Holding(1, 0, [7], [1]), [1]);
    t4 := Tree(t3.mem, t3.levels[1 := t3.levels[1] + [Holding(t3.nextRun, 1, [7], [1])]], t3.nextRun + 1, 0);
  }

  lemma OnL1(kept: Run, stale: Run, t3: Tree, t4: Tree)
    requires kept == Holding(3, 1, [7], [2]) && stale == Holding(4, 1, [7], [1])
    requires t3.mem == t4.mem == map[] && t3.levels == TwoLevels([], [kept])
    requires t4.levels == t3.levels[1 := [kept] + [stale]]
    ensures Live(Contents(t3)) == map[[7] := [2]] && Live(Contents(t4)) == map[[7] := [1]]
  {
    assert [kept] + [stale] == [kept, stale] && t4.levels == TwoLevels([], [kept, stale]);
    TwoLevelsTable([], [kept]);
    OneRun(kept, [7], Some([2]));
    TwoLevelsTable([], [kept, stale]);
    MergeTwoNumbers(kept, stale, [7], Some([2]), Some([1]));
    assert LevelTable([]) == map[];
  }

  // ----- compact_all in the middle -----

  lemma AllCompactedTogether()
    ensures var older, newer := Holding(1, 0, [7], [1]), Holding(2, 0, [7], [2]);
            CompactedAll(Tree(map[], TwoLevels([older, newer], []), 3, 0), 6) ==
            Tree(map[], Emptied(7)[6 := [Holding(3, 0, [7], [2])]], 4, 0)
  {
    var older, newer := Holding(1, 0, [7], [1]), Holding(2, 0, [7], [2]);
    FlattenTwo([older, newer], []);
    assert [older, newer] + [] == [older, newer];
    MergeTwoNumbers(older, newer, [7], Some([1]), Some([2]));
    ShortKeysBelowTop([7], 256);
    ScannedAll(LevelTable([older, newer]));
    OneEntry([7], Some([2]));
    assert DropTombstones(map[[7] := Some([2])]) == map[[7] := Some([2])];
  }

  /** One run on L1 hides the bottom run. */
  lemma OneAboveBottom(upper: Level, bottom: Level)
    ensures DiskTable(Emptied(7)[6 := bottom][1 := upper]) == LevelTable(bottom) + LevelTable(upper)
  {
    var levels: seq<Level> := Emptied(7)[6 := bottom][1 := upper];
    var below: seq<Level> := Emptied(5)[4 := bottom];
    assert levels[2..] == below;
    OnlyBottom(4, bottom);
    DiskTableAround(levels, 0);
    assert LevelTable(levels[0]) == map[];
    assert DiskTable(levels[..0]) == map[];
    DropNothing(LevelTable(bottom) + LevelTable(upper));
  }

  lemma DropNothing(t: Table)
    ensures t + map[] + map[] == t
  {
  }

  /** `compact_all` takes runs 1 and 2 to the bottom as run 3; then the background round pushes run 1 on L1. */
  lemma CompactAllInTheMiddle() returns (t1: Tree, background: Round, t2: Tree, t3: Tree, t4: Tree)
    ensures Begins(t1, background, t2) && t3 == CompactedAll(t2, 6)
    ensures Ends(t3, background, t4) && HarmsUnnoticed(t3, background, t4)
  {
    t1, background, t2 := BeginsWith();
    AllCompactedTogether();
    t3 := Tree(map[], Emptied(7)[6 := [Holding(3, 0, [7], [2])]], 4, 0);
    t4 := EndsWith(t3, background);
    AboveBottom(Holding(3, 0, [7], [2]), Holding(4, 1, [7], [1]), 4, t4);
  }

  lemma AboveBottom(kept: Run, stale: Run, nextRun: nat, t4: Tree)
    requires kept == Holding(3, 0, [7], [2]) && stale == Holding(4, 1, [7], [1])
    requires t4.mem == map[] && t4.levels == Emptied(7)[6 := [kept]][1 := [] + [stale]]
    ensures Live(Contents(Tree(map[], Emptied(7)[6 := [kept]], nextRun, 0))) == map[[7] := [2]]
    ensures Live(Contents(t4)) == map[[7] := [1]]
  {
    assert [] + [stale] == [stale];
    OnlyBottom(6, [kept]);
    OneRun(kept, [7], Some([2]));
    OneAboveBottom([stale], [kept]);
    OneRun(stale, [7], Some([1]));
  }
}
