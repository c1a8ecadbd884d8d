/**
 A run of the tree after which run numbers do not fall with depth: a value
 flushed while an older one is being merged gets the lower number, and
 `compact_all` then brings the older value back.
 */
module CompactAllRace {
  import opened Wrappers
  import opened Keys
  import opened Entries
  import opened Levels
  import opened Compaction
  import opened CompactionView
  import opened TreeState
  import opened Interleaving
  import opened Conformance
  import opened CompactAllView
  import opened Reference
  import opened Witnesses

  const RACE_CONFIG := Config(6, 1)

  function PutAndFlush(v: Value): seq<Step> {
    [Call(Insert([7], v)), StartFlush, FinishFlush]
  }

  function Race(): seq<Step> {
    PutAndFlush([1]) + [ReadGeneration, CloneLevels] + PutAndFlush([2]) + [BuildMerge, WriteBack]
  }

  function At(l0: Level, l1: Level, nextRun: nat, round: Round): State {
    State(Tree(map[], TwoLevels(l0, l1), nextRun, 0), None, map[], round)
  }

  lemma PutAndFlushRuns(trace: seq<Step>, l0: Level, l1: Level, number: nat, round: Round, v: Value)
    requires Exec(RACE_CONFIG, Init(RACE_CONFIG), trace).state == At(l0, l1, number, round)
    ensures Exec(RACE_CONFIG, Init(RACE_CONFIG), trace + PutAndFlush(v)).state ==
            At(l0 + [Holding(number, 0, [7], v)], l1, number + 1, round)
  {
    var c, put := RACE_CONFIG, Call(Insert([7], v));
    ExecStep(c, trace, put);
    ExecStep(c, trace + [put], StartFlush);
    ExecStep(c, trace + [put] + [StartFlush], FinishFlush);
    assert trace + PutAndFlush(v) == trace + [put] + [StartFlush] + [FinishFlush];
    OneEntry([7], Some(v));
    var mem: Table := map[];
    assert mem[[7] := Some(v)] == map[[7] := Some(v)];
    var flushed := l0 + [Holding(number, 0, [7], v)];
    assert TwoLevels(l0, l1)[0 := flushed] == TwoLevels(flushed, l1);
  }

  lemma CopyStarts(trace: seq<Step>, run: Run)
    requires Exec(RACE_CONFIG, Init(RACE_CONFIG), trace).state == At([run], [], 2, Idle) && |run.entries| == 1
    ensures Exec(RACE_CONFIG, Init(RACE_CONFIG), trace + [ReadGeneration, CloneLevels]).state ==
            At([run], [], 2, Chosen(0, TwoLevels([run], []), JobFor(TwoLevels([run], []), 0)))
  {
    var c := RACE_CONFIG;
    ExecStep(c, trace, ReadGeneration);
    ExecStep(c, trace + [ReadGeneration], CloneLevels);
    assert trace + [ReadGeneration, CloneLevels] == trace + [ReadGeneration] + [CloneLevels];
    SmallJob([run], []);
  }

  lemma CopyEnds(trace: seq<Step>, older: Run, newer: Run)
    requires older == Holding(1, 0, [7], [1])
    requires Exec(RACE_CONFIG, Init(RACE_CONFIG), trace).state ==
             At([older, newer], [], 3, Chosen(0, TwoLevels([older], []), JobFor(TwoLevels([older], []), 0)))
    ensures Exec(RACE_CONFIG, Init(RACE_CONFIG), trace + [BuildMerge, WriteBack]).state ==
            At([newer], [Holding(3, 1, [7], [1])], 4, Idle)
  {
    var c, job := RACE_CONFIG, JobFor(TwoLevels([older], []), 0);
    ExecStep(c, trace, BuildMerge);
    ExecStep(c, trace + [BuildMerge], WriteBack);
    assert trace + [BuildMerge, WriteBack] == trace + [BuildMerge] + [WriteBack];
    ShortKeysBelowTop([7], 256);
    MoveOne(older, [7], [1], 3);
    InstallOne([older, newer], [newer], [], Holding(3, 1, [7], [1]), job);
    assert [] + [Holding(3, 1, [7], [1])] == [Holding(3, 1, [7], [1])];
  }

  /** Up to the merge: run 1 is being compacted while run 2 has been flushed behind it. */
  lemma CopyIsChosen()
    ensures var older, newer := Holding(1, 0, [7], [1]), Holding(2, 0, [7], [2]);
            var trace := PutAndFlush([1]) + [ReadGeneration, CloneLevels] + PutAndFlush([2]);
            Exec(RACE_CONFIG, Init(RACE_CONFIG), trace).state ==
            At([older, newer], [], 3, Chosen(0, TwoLevels([older], []), JobFor(TwoLevels([older], []), 0)))
  {
    var older, newer := Holding(1, 0, [7], [1]), Holding(2, 0, [7], [2]);
    assert EmptyTree(6).levels == TwoLevels([], []);
    PutAndFlushRuns([], [], [], 1, Idle, [1]);
    assert [] + PutAndFlush([1]) == PutAndFlush([1]) && [] + [older] == [older];
    CopyStarts(PutAndFlush([1]), older);
    var chosen := Chosen(0, TwoLevels([older], []), JobFor(TwoLevels([older], []), 0));
    PutAndFlushRuns(PutAndFlush([1]) + [ReadGeneration, CloneLevels], [older], [], 2, chosen, [2]);
    assert [older] + [newer] == [older, newer];
  }

  /** The race leaves run 2, with the newer value, above run 3, with the older one. */
  lemma RaceEnds()
    ensures Exec(RACE_CONFIG, Init(RACE_CONFIG), Race()).state ==
            At([Holding(2, 0, [7], [2])], [Holding(3, 1, [7], [1])], 4, Idle)
  {
    var before := PutAndFlush([1]) + [ReadGeneration, CloneLevels] + PutAndFlush([2]);
    CopyIsChosen();
    CopyEnds(before, Holding(1, 0, [7], [1]), Holding(2, 0, [7], [2]));
    assert Race() == before + [BuildMerge, WriteBack];
  }

  // ----- The race is one of the guarded runs -----

  lemma GuardedOneMore(trace: seq<Step>, step: Step)
    requires GuardedTraceInOrder(RACE_CONFIG, Init(RACE_CONFIG), trace)
    requires GuardedInOrder(RACE_CONFIG, Exec(RACE_CONFIG, Init(RACE_CONFIG), trace).state, step)
    ensures GuardedTraceInOrder(RACE_CONFIG, Init(RACE_CONFIG), trace + [step])
  {
    assert (trace + [step])[..|trace|] == trace;
  }

  /** A step whose guard does not look at the state. */
  predicate AlwaysGuarded(step: Step) {
    match step
    case Call(Insert(k, _)) => Le(k, TOP_KEY)
    case Call(_) => false
    case WriteBack => false
    case CompactAll => false
    case _ => true
  }

  lemma AlwaysGuardedStep(s: State, step: Step)
    requires Shape(RACE_CONFIG, s) && AlwaysGuarded(step)
    ensures GuardedInOrder(RACE_CONFIG, s, step)
  {
  }

  lemma GuardedOneEasy(trace: seq<Step>, step: Step)
    requires GuardedTraceInOrder(RACE_CONFIG, Init(RACE_CONFIG), trace) && AlwaysGuarded(step)
    ensures GuardedTraceInOrder(RACE_CONFIG, Init(RACE_CONFIG), trace + [step])
  {
    AlwaysGuardedStep(Exec(RACE_CONFIG, Init(RACE_CONFIG), trace).state, step);
    GuardedOneMore(trace, step);
  }

  lemma {:induction false} GuardedMore(trace: seq<Step>, more: seq<Step>, all: seq<Step>)
    requires GuardedTraceInOrder(RACE_CONFIG, Init(RACE_CONFIG), trace) && all == trace + more
    requires forall i | 0 <= i < |more| :: AlwaysGuarded(more[i])
    ensures GuardedTraceInOrder(RACE_CONFIG, Init(RACE_CONFIG), all)
    decreases |more|
  {
    if more == [] {
      assert all == trace;
    } else {
      GuardedOneEasy(trace, more[0]);
      GuardedMore(trace + [more[0]], more[1..], all);
    }
  }

  lemma BuildKeepsJob(trace: seq<Step>, older: Run, newer: Run)
    requires Exec(RACE_CONFIG, Init(RACE_CONFIG), trace).state ==
             At([older, newer], [], 3, Chosen(0, TwoLevels([older], []), JobFor(TwoLevels([older], []), 0)))
    ensures GuardedInOrder(RACE_CONFIG, Exec(RACE_CONFIG, Init(RACE_CONFIG), trace + [BuildMerge]).state, WriteBack)
  {
    ExecStep(RACE_CONFIG, trace, BuildMerge);
    assert Exec(RACE_CONFIG, Init(RACE_CONFIG), trace + [BuildMerge]).state.round.job.sourceLevel == 0;
  }

  lemma GuardedUpToBuild(trace: seq<Step>)
    requires trace == PutAndFlush([1]) + [ReadGeneration, CloneLevels] + PutAndFlush([2]) + [BuildMerge]
    ensures GuardedTraceInOrder(RACE_CONFIG, Init(RACE_CONFIG), trace)
  {
    ShortKeysBelowTop([7], 256);
    GuardedMore([], trace, trace);
  }

  /** The race breaks no guard: up to its end, readers see what the reference model says. */
  lemma RaceIsGuarded()
    ensures GuardedTraceInOrder(RACE_CONFIG, Init(RACE_CONFIG), Race())
  {
    var before := PutAndFlush([1]) + [ReadGeneration, CloneLevels] + PutAndFlush([2]);
    var built := before + [BuildMerge];
    GuardedUpToBuild(built);
    assert GuardedInOrder(RACE_CONFIG, Exec(RACE_CONFIG, Init(RACE_CONFIG), built).state, WriteBack) by {
      CopyIsChosen();
      BuildKeepsJob(before, Holding(1, 0, [7], [1]), Holding(2, 0, [7], [2]));
    }
    GuardedOneMore(built, WriteBack);
    assert Race() == built + [WriteBack];
  }

  lemma MergeTwoNumbers(low: Run, high: Run, k: Key, v: Option<Value>, w: Option<Value>)
    requires low.number < high.number && low.entries == [Entry(k, v)] && high.entries == [Entry(k, w)]
    ensures LevelTable([low, high]) == map[k := w]
  {
    assert [low, high] == [low] + [high];
    LevelTableSplit([low], [high]);
    OneRun(low, k, v);
    OneRun(high, k, w);
  }

  lemma BeforeCompactAll(newer: Run, older: Run, nextRun: nat)
    requires newer == Holding(2, 0, [7], [2]) && older == Holding(3, 1, [7], [1])
    ensures Live(Contents(Tree(map[], TwoLevels([newer], [older]), nextRun, 0))) == map[[7] := [2]]
    ensures !NumbersFallWithDepth(TwoLevels([newer], [older]))
  {
    TwoLevelsTable([newer], [older]);
    OneRun(newer, [7], Some([2]));
    OneRun(older, [7], Some([1]));
    var levels := TwoLevels([newer], [older]);
    assert !NumbersBelow(levels[1], levels[0]) by {
      assert levels[1][0].number >= levels[0][0].number;
    }
  }

  lemma CompactAllOutput(newer: Run, older: Run, number: nat)
    requires newer == Holding(2, 0, [7], [2]) && older == Holding(3, 1, [7], [1])
    ensures OutputRun(DropTombstones(Scanned(LevelTable([newer, older]))), number, 0) ==
            Some(Holding(number, 0, [7], [1]))
  {
    MergeTwoNumbers(newer, older, [7], Some([2]), Some([1]));
    ShortKeysBelowTop([7], 256);
    ScannedAll(LevelTable([newer, older]));
    OneEntry([7], Some([1]));
    assert DropTombstones(map[[7] := Some([1])]) == map[[7] := Some([1])];
  }

  lemma AfterCompactAll(newer: Run, older: Run)
    requires newer == Holding(2, 0, [7], [2]) && older == Holding(3, 1, [7], [1])
    ensures Live(Contents(CompactedAll(Tree(map[], TwoLevels([newer], [older]), 4, 0), 6))) == map[[7] := [1]]
  {
    FlattenTwo([newer], [older]);
    assert [newer] + [older] == [newer, older];
    CompactAllOutput(newer, older, 4);
    var output := Holding(4, 0, [7], [1]);
    OnlyBottom(6, [output]);
    OneRun(output, [7], Some([1]));
  }

  /** Before `compact_all` readers see the newer value, after it the older one. */
  lemma CompactAllBringsBackOldValue()
    ensures var t := Exec(RACE_CONFIG, Init(RACE_CONFIG), Race()).state.tree;
            && GuardedTraceInOrder(RACE_CONFIG, Init(RACE_CONFIG), Race())
            && |t.levels| == 7
            && !NumbersFallWithDepth(t.levels)
            && Live(Contents(t)) == map[[7] := [2]]
            && Live(Contents(CompactedAll(t, 6))) == map[[7] := [1]]
  {
    var newer, older := Holding(2, 0, [7], [2]), Holding(3, 1, [7], [1]);
    RaceIsGuarded();
    RaceEnds();
    BeforeCompactAll(newer, older, 4);
    AfterCompactAll(newer, older);
  }

  lemma FlattenTwo(l0: Level, l1: Level)
    ensures Flatten(TwoLevels(l0, l1)) == l0 + l1
  {
    var levels := TwoLevels(l0, l1);
    assert levels[1..][1..] == [[], [], [], [], []];
    FlattenEmpty(levels[1..][1..]);
    assert Flatten(levels[1..]) == l1 + Flatten(levels[1..][1..]);
  }
}
