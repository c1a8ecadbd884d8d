/**
 Concrete trees and runs on which the guards of the other theorems are needed.
 */
module Witnesses {
  import opened Wrappers
  import opened Keys
  import opened Sorting
  import opened Entries
  import opened Levels
  import opened Compaction
  import opened CompactionView
  import opened TreeState
  import opened InterleavingStructure
  import Reading

  // ----- Small tables -----

  lemma OneEntry(k: Key, val: Option<Value>)
    ensures ToTable([Entry(k, val)]) == map[k := val]
    ensures ListOf(map[k := val]) == [Entry(k, val)]
  {
    var es := [Entry(k, val)];
    assert es[..0] == [];
    ListOfRoundTrip(map[k := val]);
    AscendingUnique(ListOf(map[k := val]), es);
  }

  lemma OneRun(run: Run, k: Key, val: Option<Value>)
    requires run.entries == [Entry(k, val)]
    ensures LevelTable([run]) == map[k := val]
  {
    OneEntry(k, val);
    LevelTableOne(run);
  }

  lemma {:induction false} PowerPositive(b: nat, e: nat)
    requires b > 0
    ensures Power(b, e) > 0
  {
    if e > 0 {
      PowerPositive(b, e - 1);
    }
  }

  /** Seven levels of which only the first two hold anything. */
  function TwoLevels(l0: Level, l1: Level): seq<Level> {
    [l0, l1, [], [], [], [], []]
  }

  /** Two levels among empty ones. */
  lemma TableOfTwo(above: seq<Level>, upper: Level, lower: Level, below: seq<Level>)
    requires forall i | 0 <= i < |above| :: above[i] == []
    requires forall i | 0 <= i < |below| :: below[i] == []
    ensures DiskTable(above + [upper, lower] + below) == LevelTable(lower) + LevelTable(upper)
  {
    var levels: seq<Level> := above + [upper, lower] + below;
    var i := |above|;
    assert levels[..i] == above && levels[i] == upper && levels[i + 1] == lower && levels[i + 2..] == below;
    DiskTableAround(levels, i);
    EmptyLevels(above);
    EmptyLevels(below);
    DropEmpty(LevelTable(lower), LevelTable(upper));
  }

  lemma DropEmpty(a: Table, b: Table)
    ensures map[] + a + b + map[] == a + b
  {
  }

  lemma TwoLevelsTable(l0: Level, l1: Level)
    ensures DiskTable(TwoLevels(l0, l1)) == LevelTable(l1) + LevelTable(l0)
  {
    assert TwoLevels(l0, l1) == [] + [l0, l1] + [[], [], [], [], []];
    TableOfTwo([], l0, l1, [[], [], [], [], []]);
  }

  /** No level is oversized when each holds at most two entries. */
  lemma {:induction false} NoneOversized(levels: seq<Level>, i: nat, maxLevel: nat)
    requires |levels| == maxLevel + 1 && i <= maxLevel
    requires forall j | i <= j < maxLevel :: LevelSize(levels[j]) <= 2
    ensures FirstOversized(levels, i, maxLevel, SIZE_RATIO) == None
    decreases maxLevel - i
  {
    if i < maxLevel {
      PowerPositive(SIZE_RATIO, i);
      NoneOversized(levels, i + 1, maxLevel);
    }
  }

  lemma TriggerJob(levels: seq<Level>, maxLevel: nat, level0Trigger: nat)
    requires maxLevel > 0 && |levels| == maxLevel + 1 && levels[0] != [] && |levels[0]| >= level0Trigger
    requires FirstOversized(levels, 0, maxLevel, SIZE_RATIO) == None
    ensures ChooseJob(levels, maxLevel, level0Trigger) == Some(JobFor(levels, 0))
  {
  }

  lemma SmallLevel(run: Run)
    requires |run.entries| <= 1
    ensures LevelSize([run]) <= 1
  {
    assert [run][..0] == [];
  }

  /** One small run in L0 and a trigger of one file: a job from L0 to L1. */
  lemma SmallJob(l0: Level, l1: Level)
    requires |l0| == 1 && |l0[0].entries| <= 1 && LevelSize(l1) <= 1
    ensures ChooseJob(TwoLevels(l0, l1), 6, 1) == Some(JobFor(TwoLevels(l0, l1), 0))
  {
    var levels := TwoLevels(l0, l1);
    assert LevelSize(l0) <= 1 by {
      assert l0 == [l0[0]];
      SmallLevel(l0[0]);
    }
    assert FirstOversized(levels, 0, 6, SIZE_RATIO) == None by {
      forall j | 0 <= j < 6 ensures LevelSize(levels[j]) <= 1 {
        assert levels[j] == if j == 0 then l0 else if j == 1 then l1 else [];
      }
      NoneOversized(levels, 0, 6);
    }
    TriggerJob(levels, 6, 1);
  }

  // ----- A deleted key that is still found -----

  lemma FlushMore(l0: Level, number: nat, k: Key, val: Option<Value>)
    ensures Flushed(Written(Tree(map[], TwoLevels(l0, []), number, 0), k, val)) ==
            Tree(map[], TwoLevels(l0 + [Run(number, 0, [Entry(k, val)])], []), number + 1, 0)
  {
    OneEntry(k, val);
    var mem: Table := map[];
    assert mem[k := val] == map[k := val];
  }

  /** Insert, flush, delete and flush on a new tree lead to the tree of `GetReturnsDeletedValue`. */
  lemma DeletedAfterFlushHappens()
    ensures var written := Flushed(Written(EmptyTree(6), [7], Some([42])));
            |written.levels| == 7 && Flushed(Written(written, [7], None)) == Reading.DeletedAfterFlush()
  {
    assert EmptyTree(6) == Tree(map[], TwoLevels([], []), 1, 0);
    FlushMore([], 1, [7], Some([42]));
    var first := Run(1, 0, [Entry([7], Some([42]))]);
    assert [] + [first] == [first];
    FlushMore([first], 2, [7], None);
    assert [first] + [Run(2, 0, [Entry([7], None)])] == [first, Run(2, 0, [Entry([7], None)])];
  }

  // ----- A key above the bound is lost -----

  lemma {:induction false} AllOnesAboveShorter(n: nat)
    ensures !Le(AllOnes(n + 1), AllOnes(n))
  {
    if n > 0 {
      assert AllOnes(n + 1)[1..] == AllOnes(n) && AllOnes(n)[1..] == AllOnes(n - 1);
      AllOnesAboveShorter(n - 1);
    }
  }

  lemma UnreadableMerge(run: Run, k: Key, v: Value, number: nat)
    requires run.entries == [Entry(k, Some(v))] && !Le(k, TOP_KEY)
    ensures Committed(TwoLevels([run], []), 0, [run], [], number, 6) == TwoLevels([], [])
  {
    OneRun(run, k, Some(v));
    assert Merged([run], [], false) == map[];
    CommittedAt(TwoLevels([run], []), 0, [run], number, 6);
    assert [run][|[run]|..] == [];
  }

  /** Insert and flush in a new tree: under a key compaction does not read, the value goes with the first round. */
  lemma LongKeyIsLost(k: Key, v: Value)
    requires !Le(k, TOP_KEY)
    ensures var t := Flushed(Written(EmptyTree(6), k, Some(v)));
            && |t.levels| == 7
            && k in Live(Contents(t)) && k !in Live(Contents(Compacted(t, 6, 1)))
  {
    assert EmptyTree(6) == Tree(map[], TwoLevels([], []), 1, 0);
    FlushMore([], 1, k, Some(v));
    assert [] + [Run(1, 0, [Entry(k, Some(v))])] == [Run(1, 0, [Entry(k, Some(v))])];
    FlushedKeyIsLost(k, v);
  }

  lemma FlushedKeyIsLost(k: Key, v: Value)
    requires !Le(k, TOP_KEY)
    ensures var t := Tree(map[], TwoLevels([Run(1, 0, [Entry(k, Some(v))])], []), 2, 0);
            k in Live(Contents(t)) && k !in Live(Contents(Compacted(t, 6, 1)))
  {
    var run := Run(1, 0, [Entry(k, Some(v))]);
    OneRun(run, k, Some(v));
    TwoLevelsTable([run], []);
    TwoLevelsTable([], []);
    assert LevelTable([]) == map[];
    SmallJob([run], []);
    CompactedIsCommit(Tree(map[], TwoLevels([run], []), 2, 0), 6, 1);
    UnreadableMerge(run, k, v, 2);
  }

  /** 257 bytes of 0xFF are such a key. */
  lemma SuchAKeyExists()
    ensures !Le(AllOnes(257), TOP_KEY)
  {
    AllOnesAboveShorter(256);
  }

  // ----- Two compactors at once lose a flushed run -----

  /** Moving one single-entry run from L0 to an empty L1. */
  lemma MoveOne(run: Run, k: Key, v: Value, number: nat)
    requires run.entries == [Entry(k, Some(v))] && Le(k, TOP_KEY)
    ensures var levels := TwoLevels([run], []);
            ResultOf(JobFor(levels, 0), [run], number, 6) ==
            CompactionResult(Some(Run(number, 1, [Entry(k, Some(v))])), [0])
  {
    OneRun(run, k, Some(v));
    OneEntry(k, Some(v));
    PickAll([run]);
    ScannedAll(LevelTable([run]));
    assert UpTo(1) == [0];
  }

  lemma InstallOne(l0: Level, rest: Level, l1: Level, output: Run, job: LevelCompactionJob)
    requires |l0| > 0 && rest == l0[1..] && job.sourceLevel == 0 && job.targetLevel == 1
    ensures Install(TwoLevels(l0, l1), job, CompactionResult(Some(output), [0]), 6) == TwoLevels(rest, l1 + [output])
  {
    assert SortBy(Descending, [0]) == [0];
    assert [0][..0] == [];
    assert RemoveEach(l0, [0]) == RemoveAt(RemoveEach(l0, []), 0) == l0[1..];
  }

  function Holding(number: nat, level: nat, k: Key, v: Value): Run {
    Run(number, level, [Entry(k, Some(v))])
  }

  /** `compact` on a tree with one run in L0. */
  lemma CompactOne(k: Key, v: Value)
    requires Le(k, TOP_KEY)
    ensures Compacted(Tree(map[], TwoLevels([Holding(1, 0, k, v)], []), 2, 0), 6, 1) ==
            Tree(map[], TwoLevels([], [Holding(2, 1, k, v)]), 3, 0)
    ensures JobChosen(Tree(map[], TwoLevels([Holding(1, 0, k, v)], []), 2, 0), 0, 6, 1) ==
            Chosen(0, TwoLevels([Holding(1, 0, k, v)], []), JobFor(TwoLevels([Holding(1, 0, k, v)], []), 0))
  {
    var first, moved := Holding(1, 0, k, v), Holding(2, 1, k, v);
    SmallJob([first], []);
    MoveOne(first, k, v, 2);
    InstallOne([first], [], [], moved, JobFor(TwoLevels([first], []), 0));
    assert [] + [moved] == [moved];
  }

  lemma FlushOne(l1: Level, number: nat, k: Key, v: Value)
    ensures Flushed(Written(Tree(map[], TwoLevels([], l1), number, 0), k, Some(v))) ==
            Tree(map[], TwoLevels([Holding(number, 0, k, v)], l1), number + 1, 0)
  {
    OneEntry(k, Some(v));
    assert Written(Tree(map[], TwoLevels([], l1), number, 0), k, Some(v)).mem == map[k := Some(v)];
    assert [] + [Holding(number, 0, k, v)] == [Holding(number, 0, k, v)];
  }

  /** Writing a round's result back when its source run is gone and another one is in its place. */
  lemma StaleWriteBack(stale: Run, flushed: Run, moved: Run, k: Key, v: Value)
    requires stale == Holding(1, 0, k, v) && Le(k, TOP_KEY)
    ensures var job := JobFor(TwoLevels([stale], []), 0);
            WrittenBack(Tree(map[], TwoLevels([flushed], [moved]), 5, 0), 0, job, ResultOf(job, [stale], 4, 6), 6) ==
            Tree(map[], TwoLevels([], [moved] + [Holding(4, 1, k, v)]), 5, 0)
  {
    MoveOne(stale, k, v, 4);
    InstallOne([flushed], [], [moved], Holding(4, 1, k, v), JobFor(TwoLevels([stale], []), 0));
  }

  lemma OnlyThisKey(l1: Level, k: Key, v: Value, other: Key)
    requires LevelTable(l1) == map[k := Some(v)] && other != k
    ensures other !in Live(Contents(Tree(map[], TwoLevels([], l1), 5, 0)))
  {
    TwoLevelsTable([], l1);
    assert LevelTable([]) == map[];
  }

  lemma NewestKey(run: Run, l1: Level, k: Key, v: Value)
    requires run.entries == [Entry(k, Some(v))]
    ensures k in Live(Contents(Tree(map[], TwoLevels([run], l1), 4, 0)))
  {
    TwoLevelsTable([run], l1);
    OneRun(run, k, Some(v));
  }

  /** What the two rounds and the flush between them lead to, step by step. */
  ghost predicate TwoCompactors(t1: Tree, background: Round, t2: Tree, t3: Tree, t4: Tree) {
    && |t1.levels| == 7 && |t2.levels| == 7 && |t3.levels| == 7
    && background == JobChosen(t1, 0, 6, 1)
    && t2 == Compacted(t1, 6, 1)
    && t3 == Flushed(Written(t2, [8], Some([2])))
    && background.Chosen?
    && t4 == WrittenBack(NumberTaken(t3), 0, background.job,
                         ResultOf(background.job, background.copy[background.job.sourceLevel], t3.nextRun, 6), 6)
  }

  /**
   The background round copies L0 = [run 1]; `compact` merges run 1 into L1; run
   3 is flushed to L0; the background write-back removes index 0, which is run 3.
   */
  lemma TwoCompactorsLoseARun() returns (t1: Tree, background: Round, t2: Tree, t3: Tree, t4: Tree)
    ensures TwoCompactors(t1, background, t2, t3, t4)
    ensures [8] in Live(Contents(t3)) && [8] !in Live(Contents(t4))
  {
    t1, background, t2, t3, t4 := TwoCompactorsRun();
    NewestKey(Holding(3, 0, [8], [2]), [Holding(2, 1, [7], [1])], [8], [2]);
    TwiceMoved(Holding(2, 1, [7], [1]), Holding(4, 1, [7], [1]), [7], [1]);
    OnlyThisKey([Holding(2, 1, [7], [1])] + [Holding(4, 1, [7], [1])], [7], [1], [8]);
  }

  lemma TwiceMoved(moved: Run, again: Run, k: Key, v: Value)
    requires moved.number < again.number && moved.entries == again.entries == [Entry(k, Some(v))]
    ensures LevelTable([moved] + [again]) == map[k := Some(v)]
  {
    OneRun(moved, k, Some(v));
    OneRun(again, k, Some(v));
    LevelTableSplit([moved], [again]);
  }

  lemma TwoCompactorsRun() returns (t1: Tree, background: Round, t2: Tree, t3: Tree, t4: Tree)
    ensures TwoCompactors(t1, background, t2, t3, t4)
    ensures t3 == Tree(map[], TwoLevels([Holding(3, 0, [8], [2])], [Holding(2, 1, [7], [1])]), 4, 0)
    ensures t4 == Tree(map[], TwoLevels([], [Holding(2, 1, [7], [1])] + [Holding(4, 1, [7], [1])]), 5, 0)
  {
    var first, moved, flushed := Holding(1, 0, [7], [1]), Holding(2, 1, [7], [1]), Holding(3, 0, [8], [2]);
    ShortKeysBelowTop([7], 256);
    t1 := Tree(map[], TwoLevels([first], []), 2, 0);
    background := Chosen(0, TwoLevels([first], []), JobFor(TwoLevels([first], []), 0));
    t2 := Tree(map[], TwoLevels([], [moved]), 3, 0);
    CompactOne([7], [1]);
    t3 := Tree(map[], TwoLevels([flushed], [moved]), 4, 0);
    FlushOne([moved], 3, [8], [2]);
    t4 := Tree(map[], TwoLevels([], [moved] + [Holding(4, 1, [7], [1])]), 5, 0);
    StaleWriteBack(first, flushed, moved, [7], [1]);
    assert NumberTaken(t3) == Tree(map[], TwoLevels([flushed], [moved]), 5, 0);
  }
}
