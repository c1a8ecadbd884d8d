/** Every step, of every interleaving, keeps the structural invariant. */
module InterleavingStructure {
  import opened Wrappers
  import opened Keys
  import opened Entries
  import opened Levels
  import opened Compaction
  import opened CompactionView
  import opened LevelInvariant
  import opened TreeState
  import opened Reference
  import opened Reading
  import opened Interleaving
  import opened CompactAllView

  lemma InitOk(c: Config)
    requires c.maxLevel > 0
    ensures StateOk(c, Init(c))
  {
    var levels := Init(c).tree.levels;
    assert forall i | 0 <= i < |levels| :: levels[i] == [];
    assert LevelTable([]) == map[];
  }

  lemma AllBelowNext(levels: seq<Level>, maxLevel: nat, bound: nat)
    requires LevelsOk(levels, maxLevel, bound)
    ensures forall i | 0 <= i < |levels| :: AllBelow(levels[i], bound)
    ensures Unused(bound, levels)
  {
    forall i | 0 <= i < |levels| ensures AllBelow(levels[i], bound) && bound !in Numbers(levels[i]) {
      assert LevelOk(levels[i], bound);
      LevelOkNumbers(levels[i], bound);
    }
  }

  lemma SnapshotsWeaken(c: Config, snapshots: map<string, LsmSnapshot>, bound: nat, bound': nat)
    requires bound <= bound' && forall id | id in snapshots :: SnapshotOk(c, snapshots[id], bound)
    ensures forall id | id in snapshots :: SnapshotOk(c, snapshots[id], bound')
  {
    forall id | id in snapshots ensures SnapshotOk(c, snapshots[id], bound') {
      assert SnapshotOk(c, snapshots[id], bound);
      LevelsOkWeaken(snapshots[id].levels, c.maxLevel, bound, bound');
    }
  }

  // ----- Flush -----

  lemma FlushedRunOk(mem: Table, number: nat)
    requires WithinTop(mem) && mem != map[]
    ensures RunOk(Run(number, 0, ListOf(mem)), number + 1)
    ensures ToTable(ListOf(mem)) == mem
  {
    ListOfRoundTrip(mem);
    assert ListOf(mem) == [] ==> ToTable(ListOf(mem)) == map[];
  }

  lemma StartFlushFlushOk(c: Config, s: State)
    requires Shape(c, s) && LevelsOk(s.tree.levels, c.maxLevel, s.tree.nextRun)
    requires WithinTop(s.tree.mem) && Enabled(s, StartFlush)
    ensures FlushOk(Next(c, s, StartFlush))
    ensures LevelsOk(s.tree.levels, c.maxLevel, Next(c, s, StartFlush).tree.nextRun)
  {
    if s.tree.mem != map[] {
      var n := s.tree.nextRun;
      FlushedRunOk(s.tree.mem, n);
      AllBelowNext(s.tree.levels, c.maxLevel, n);
      LevelsOkWeaken(s.tree.levels, c.maxLevel, n, n + 1);
    }
  }

  /** The flushed run's number is new to a round under way. */
  lemma StartFlushRoundOk(c: Config, s: State)
    requires Shape(c, s) && RoundOk(c, s) && Enabled(s, StartFlush)
    ensures Shape(c, Next(c, s, StartFlush)) && RoundOk(c, Next(c, s, StartFlush))
  {
  }

  lemma StartFlushOk(c: Config, s: State)
    requires StateOk(c, s) && Enabled(s, StartFlush)
    ensures StateOk(c, Next(c, s, StartFlush))
  {
    StartFlushFlushOk(c, s);
    StartFlushRoundOk(c, s);
    SnapshotsWeaken(c, s.snapshots, s.tree.nextRun, Next(c, s, StartFlush).tree.nextRun);
  }

  lemma FrontOfPushed(copy: Level, level: Level, run: Run)
    requires AllBelow(level, run.number)
    ensures FrontOf(copy, level) ==> FrontOf(copy, level + [run])
  {
    if FrontOf(copy, level) {
      var rest, rest' := level[|copy|..], (level + [run])[|copy|..];
      assert rest' == rest + [run];
      assert forall i | 0 <= i < |copy| :: copy[i] == level[i];
    }
  }

  /** What a round under way relies on outlives a push to L0. */
  lemma FreshAfterPush(levels: seq<Level>, copy: seq<Level>, run: Run)
    requires StillFresh(levels, copy) && AllBelow(levels[0], run.number)
    ensures StillFresh(levels[0 := levels[0] + [run]], copy)
  {
    FrontOfPushed(copy[0], levels[0], run);
    assert levels[0 := levels[0] + [run]][1..] == levels[1..];
  }

  lemma UnusedAfterPush(levels: seq<Level>, run: Run, number: nat, bound: nat)
    requires levels != [] && LevelOk(levels[0], bound) && RunOk(run, bound) && AllBelow(levels[0], run.number)
    requires Unused(number, levels) && number != run.number
    ensures Unused(number, levels[0 := levels[0] + [run]])
  {
    LevelOkPush(levels[0], run, bound);
  }

  lemma FinishFlushRoundOk(c: Config, s: State)
    requires StateOk(c, s) && Enabled(s, FinishFlush)
    ensures RoundOk(c, Next(c, s, FinishFlush))
  {
    var run := s.flushing.value;
    match s.round
    case Idle =>
    case GenerationRead(_) =>
    case Chosen(gen, copy, _) =>
      if gen == s.tree.generation {
        FreshAfterPush(s.tree.levels, copy, run);
      }
    case Ready(gen, copy, _, number, _) =>
      if gen == s.tree.generation {
        FreshAfterPush(s.tree.levels, copy, run);
        assert LevelOk(s.tree.levels[0], s.tree.nextRun);
        UnusedAfterPush(s.tree.levels, run, number, s.tree.nextRun);
      }
  }

  lemma FinishFlushOk(c: Config, s: State)
    requires StateOk(c, s) && Enabled(s, FinishFlush)
    ensures StateOk(c, Next(c, s, FinishFlush))
  {
    FinishFlushRoundOk(c, s);
    PushKeepsLevelsOk(s.tree.levels, s.flushing.value, c.maxLevel, s.tree.nextRun);
  }

  // ----- The caller's operations -----

  lemma PutOk(c: Config, s: State, k: Key, val: Option<Value>)
    requires StateOk(c, s) && Le(k, TOP_KEY)
    ensures StateOk(c, s.(tree := Written(s.tree, k, val)))
  {
  }

  lemma RollbackOk(c: Config, s: State, id: string)
    requires StateOk(c, s) && s.flushing.None? && id in s.snapshots
    ensures StateOk(c, s.(tree := RolledBack(s.tree, s.snapshots[id])))
  {
    assert SnapshotOk(c, s.snapshots[id], s.tree.nextRun);
  }

  // ----- The round -----

  /** The in-flight copy against the live levels. */
  lemma CopyIsFront(levels: seq<Level>, copy: seq<Level>, i: nat)
    requires StillFresh(levels, copy) && i + 1 < |levels|
    ensures FrontOf(copy[i], levels[i]) && copy[i + 1] == levels[i + 1]
  {
    assert copy[1..][i] == levels[1..][i];
    if i > 0 {
      assert copy[1..][i - 1] == levels[1..][i - 1];
    }
  }

  /** Writing back a result whose generation is current is committing the merge of the copy. */
  lemma WriteBackIsCommit(levels: seq<Level>, copy: seq<Level>, i: nat, number: nat, maxLevel: nat)
    requires StillFresh(levels, copy) && |levels| == maxLevel + 1 && i < maxLevel
    ensures var job := JobFor(copy, i);
            Install(levels, job, ResultOf(job, copy[i], number, maxLevel), maxLevel) ==
            Committed(levels, i, copy[i], levels[i + 1], number, maxLevel)
  {
    CopyIsFront(levels, copy, i);
    PickAll(copy[i]);
  }

  lemma BuildMergeRoundOk(c: Config, s: State)
    requires Shape(c, s) && RoundOk(c, s) && FlushOk(s) && Enabled(s, BuildMerge)
    requires LevelsOk(s.tree.levels, c.maxLevel, s.tree.nextRun)
    ensures Shape(c, Next(c, s, BuildMerge)) && RoundOk(c, Next(c, s, BuildMerge))
  {
    AllBelowNext(s.tree.levels, c.maxLevel, s.tree.nextRun);
  }

  lemma FlushOkWeaken(s: State, s': State)
    requires s.tree.levels != [] && FlushOk(s)
    requires s'.flushing == s.flushing && s'.tree.levels == s.tree.levels && s'.tree.nextRun >= s.tree.nextRun
    ensures FlushOk(s')
  {
  }

  lemma BuildMergeOk(c: Config, s: State)
    requires StateOk(c, s) && Enabled(s, BuildMerge)
    ensures StateOk(c, Next(c, s, BuildMerge))
  {
    var n := s.tree.nextRun;
    BuildMergeRoundOk(c, s);
    FlushOkWeaken(s, Next(c, s, BuildMerge));
    LevelsOkWeaken(s.tree.levels, c.maxLevel, n, n + 1);
    SnapshotsWeaken(c, s.snapshots, n, n + 1);
  }

  lemma UnusedAfterReplacing(levels: seq<Level>, i: nat, rest: Level, target: Level, number: nat, other: nat)
    requires i + 1 < |levels| && Unused(other, levels) && other != number
    requires Numbers(rest) <= Numbers(levels[i]) && Numbers(target) <= Numbers(levels[i + 1]) + {number}
    ensures Unused(other, levels[i := rest][i + 1 := target])
  {
    var after := levels[i := rest][i + 1 := target];
    assert other !in Numbers(levels[i]) && other !in Numbers(levels[i + 1]);
    forall j | 0 <= j < |after| ensures other !in Numbers(after[j]) {
      assert other !in Numbers(levels[j]);
    }
  }

  /** A commit changes two levels, and brings in no run number but its own. */
  lemma CommittedShape(levels: seq<Level>, i: nat, copy: Level, number: nat, maxLevel: nat, bound: nat)
    returns (rest: Level, target: Level)
    requires i < maxLevel && LevelsOk(levels, maxLevel, bound) && copy <= levels[i]
    requires number < bound && AllBelow(levels[i + 1], number)
    ensures Committed(levels, i, copy, levels[i + 1], number, maxLevel) == levels[i := rest][i + 1 := target]
    ensures rest == levels[i][|copy|..] && Numbers(rest) <= Numbers(levels[i])
    ensures Numbers(target) <= Numbers(levels[i + 1]) + {number}
  {
    var output := OutputRun(Merged(copy, levels[i + 1], i + 1 == maxLevel), number, i + 1);
    rest := levels[i][|copy|..];
    target := if output.None? then levels[i + 1]
              else if i + 1 == maxLevel then [output.value]
              else levels[i + 1] + [output.value];
    CommittedAt(levels, i, copy, number, maxLevel);
    assert LevelOk(levels[i], bound) && LevelOk(levels[i + 1], bound);
    LevelOkFront(levels[i], copy, bound);
    TargetOk(copy, levels[i + 1], number, i, maxLevel, bound);
  }

  /** What a committed level keeps of the condition on a flush under way. */
  lemma CommittedNumbers(levels: seq<Level>, i: nat, copy: Level, number: nat, other: nat, maxLevel: nat, bound: nat)
    requires i < maxLevel && LevelsOk(levels, maxLevel, bound) && copy <= levels[i]
    requires number < bound && AllBelow(levels[i + 1], number)
    requires other != number && Unused(other, levels) && AllBelow(levels[0], other)
    ensures var after := Committed(levels, i, copy, levels[i + 1], number, maxLevel);
            Unused(other, after) && AllBelow(after[0], other)
  {
    var rest, target := CommittedShape(levels, i, copy, number, maxLevel, bound);
    UnusedAfterReplacing(levels, i, rest, target, number, other);
  }

  lemma WriteBackOk(c: Config, s: State)
    requires StateOk(c, s) && Enabled(s, WriteBack)
    ensures StateOk(c, Next(c, s, WriteBack))
  {
    var Ready(gen, copy, job, number, result) := s.round;
    if gen == s.tree.generation {
      var levels, i := s.tree.levels, job.sourceLevel;
      CopyIsFront(levels, copy, i);
      WriteBackIsCommit(levels, copy, i, number, c.maxLevel);
      CommitKeepsLevelsOk(levels, i, copy[i], number, c.maxLevel, s.tree.nextRun);
      if s.flushing.Some? {
        CommittedNumbers(levels, i, copy[i], number, s.flushing.value.number, c.maxLevel, s.tree.nextRun);
      }
    }
  }

  /** A round run in one go is committing the merge of the chosen level with the next run number. */
  lemma CompactedIsCommit(t: Tree, maxLevel: nat, level0Trigger: nat)
    requires maxLevel > 0 && |t.levels| == maxLevel + 1
    ensures match ChooseJob(t.levels, maxLevel, level0Trigger)
            case None => Compacted(t, maxLevel, level0Trigger) == t
            case Some(job) =>
              job.sourceLevel < maxLevel &&
              Compacted(t, maxLevel, level0Trigger) ==
              Tree(t.mem,
                   Committed(t.levels, job.sourceLevel, t.levels[job.sourceLevel], t.levels[job.sourceLevel + 1],
                             t.nextRun, maxLevel),
                   t.nextRun + 1, t.generation)
  {
    var chosen := ChooseJob(t.levels, maxLevel, level0Trigger);
    if chosen.Some? {
      WriteBackIsCommit(t.levels, t.levels, chosen.value.sourceLevel, t.nextRun, maxLevel);
    }
  }

  ghost predicate Follows(t: Tree, t': Tree, maxLevel: nat) {
    && t'.nextRun >= t.nextRun && t'.mem == t.mem && t'.generation == t.generation
    && LevelsOk(t'.levels, maxLevel, t'.nextRun)
  }

  lemma FollowsByCommit(t: Tree, i: nat, after: seq<Level>, maxLevel: nat)
    requires i < maxLevel && LevelsOk(t.levels, maxLevel, t.nextRun)
    requires after == Committed(t.levels, i, t.levels[i], t.levels[i + 1], t.nextRun, maxLevel)
    ensures Follows(t, Tree(t.mem, after, t.nextRun + 1, t.generation), maxLevel)
  {
    NextCommitOk(t.levels, i, maxLevel, t.nextRun, after);
  }

  lemma CompactedTreeOk(t: Tree, maxLevel: nat, level0Trigger: nat)
    requires maxLevel > 0 && LevelsOk(t.levels, maxLevel, t.nextRun)
    ensures Follows(t, Compacted(t, maxLevel, level0Trigger), maxLevel)
  {
    CompactedIsCommit(t, maxLevel, level0Trigger);
    match ChooseJob(t.levels, maxLevel, level0Trigger)
    case None =>
    case Some(job) =>
      var i := job.sourceLevel;
      FollowsByCommit(t, i, Committed(t.levels, i, t.levels[i], t.levels[i + 1], t.nextRun, maxLevel), maxLevel);
  }

  /** Committing a whole level under a new run number. */
  lemma NextCommitOk(levels: seq<Level>, i: nat, maxLevel: nat, n: nat, after: seq<Level>)
    requires i < maxLevel && LevelsOk(levels, maxLevel, n)
    requires after == Committed(levels, i, levels[i], levels[i + 1], n, maxLevel)
    ensures LevelsOk(after, maxLevel, n + 1)
  {
    AllBelowNext(levels, maxLevel, n);
    LevelsOkWeaken(levels, maxLevel, n, n + 1);
    CommitKeepsLevelsOk(levels, i, levels[i], n, maxLevel, n + 1);
  }

  lemma CompactOk(c: Config, s: State)
    requires StateOk(c, s) && s.flushing.None? && s.round.Idle?
    ensures StateOk(c, Called(c, s, Operation.Compact))
  {
    CompactedTreeOk(s.tree, c.maxLevel, c.level0Trigger);
    SnapshotsWeaken(c, s.snapshots, s.tree.nextRun, Called(c, s, Operation.Compact).tree.nextRun);
  }

  lemma CompactAllOk(c: Config, s: State)
    requires StateOk(c, s) && Enabled(s, CompactAll)
    ensures StateOk(c, Next(c, s, CompactAll))
  {
    CompactedAllOk(s.tree, c.maxLevel);
    SnapshotsWeaken(c, s.snapshots, s.tree.nextRun, CompactedAll(s.tree, c.maxLevel).nextRun);
  }

  lemma CallOk(c: Config, s: State, op: Operation)
    requires StateOk(c, s) && Enabled(s, Call(op))
    requires op.Insert? ==> Le(op.key, TOP_KEY)
    requires op.Delete? ==> Le(op.key, TOP_KEY)
    ensures StateOk(c, Called(c, s, op))
  {
    match op
    case Insert(k, v) => PutOk(c, s, k, Some(v));
    case Delete(k) => PutOk(c, s, k, None);
    case Get(_) =>
    case Range(_, _) =>
    case Snapshot(_) =>
    case Rollback(id) => if id in s.snapshots { RollbackOk(c, s, id); }
    case Compact => CompactOk(c, s);
  }

  lemma CloneLevelsOk(c: Config, s: State)
    requires StateOk(c, s) && Enabled(s, CloneLevels)
    ensures StateOk(c, Next(c, s, CloneLevels))
  {
    NextKeepsShape(c, s, CloneLevels);
  }

  /** Every step keeps the invariant, guarded or not, but for keys above the bound. */
  lemma NextOk(c: Config, s: State, step: Step)
    requires StateOk(c, s) && Enabled(s, step)
    requires step.Call? && step.op.Insert? ==> Le(step.op.key, TOP_KEY)
    requires step.Call? && step.op.Delete? ==> Le(step.op.key, TOP_KEY)
    ensures StateOk(c, Next(c, s, step))
  {
    match step
    case Call(op) => CallOk(c, s, op);
    case StartFlush => StartFlushOk(c, s);
    case FinishFlush => FinishFlushOk(c, s);
    case ReadGeneration =>
    case CloneLevels => CloneLevelsOk(c, s);
    case BuildMerge => BuildMergeOk(c, s);
    case WriteBack => WriteBackOk(c, s);
    case CompactAll => CompactAllOk(c, s);
  }

  /**
   The structural invariant holds after every sequence of steps that writes only
   keys a compaction can read; no other guard is needed.
   */
  lemma {:induction false} AlwaysStateOk(c: Config, start: State, trace: seq<Step>)
    requires StateOk(c, start) && KeysWithinTop(trace)
    ensures StateOk(c, Exec(c, start, trace).state)
  {
    if trace != [] {
      var init, step := trace[..|trace| - 1], trace[|trace| - 1];
      assert forall i | 0 <= i < |init| :: init[i] == trace[i];
      AlwaysStateOk(c, start, init);
      var s := Exec(c, start, init).state;
      if Enabled(s, step) {
        NextOk(c, s, step);
      }
    }
  }

  /** What the write-back of a finished round does to the levels. */
  ghost predicate RemovesOnlyTheCopy(levels: seq<Level>, copy: seq<Level>, i: nat, after: seq<Level>) {
    && |levels| == |copy| == |after| && i + 1 < |levels|
    && FrontOf(copy[0], levels[0]) && copy[1..] == levels[1..]
    && copy[i] <= levels[i] && after[i] == levels[i][|copy[i]|..]
    && forall j | 0 <= j < |levels| && j != i && j != i + 1 :: after[j] == levels[j]
  }

  lemma WriteBackRemoves(levels: seq<Level>, copy: seq<Level>, i: nat, number: nat, maxLevel: nat)
    requires StillFresh(levels, copy) && |levels| == maxLevel + 1 && i < maxLevel
    ensures var job := JobFor(copy, i);
            var result := ResultOf(job, copy[i], number, maxLevel);
            RemovesOnlyTheCopy(levels, copy, i, Install(levels, job, result, maxLevel))
  {
    CopyIsFront(levels, copy, i);
    WriteBackIsCommit(levels, copy, i, number, maxLevel);
    CommittedAt(levels, i, copy[i], number, maxLevel);
  }

  /** The write-back of `s` does what it should: nothing if stale, else only remove the merged runs. */
  ghost predicate WriteBackExact(c: Config, s: State)
    requires Shape(c, s) && s.round.Ready?
  {
    var after := Next(c, s, WriteBack).tree.levels;
    if s.round.gen == s.tree.generation
    then RemovesOnlyTheCopy(s.tree.levels, s.round.copy, s.round.job.sourceLevel, after)
    else after == s.tree.levels
  }

  lemma WrittenBackLevels(c: Config, s: State)
    requires Shape(c, s) && s.round.Ready?
    ensures Next(c, s, WriteBack).tree.levels ==
            if s.round.gen == s.tree.generation
            then Install(s.tree.levels, s.round.job, s.round.result, c.maxLevel)
            else s.tree.levels
  {
  }

  lemma ReadyIsExact(c: Config, s: State)
    requires Shape(c, s) && RoundOk(c, s) && s.round.Ready?
    ensures WriteBackExact(c, s)
  {
    var Ready(gen, copy, job, number, result) := s.round;
    if gen == s.tree.generation {
      var levels, i := s.tree.levels, job.sourceLevel;
      assert RemovesOnlyTheCopy(levels, copy, i, Install(levels, job, result, c.maxLevel)) by {
        WriteBackRemoves(levels, copy, i, number, c.maxLevel);
      }
    }
    WrittenBackLevels(c, s);
  }

  /** What a round that has cloned the levels finds when the generation it read is still current. */
  ghost predicate CopyStands(c: Config, s: State)
    requires Shape(c, s)
  {
    match s.round
    case Chosen(gen, copy, _) => gen == s.tree.generation ==> StillFresh(s.tree.levels, copy)
    case Ready(gen, copy, _, _, _) =>
      (gen == s.tree.generation ==> StillFresh(s.tree.levels, copy)) && WriteBackExact(c, s)
    case _ => true
  }

  /**
   A round under way at any time, chosen or already merged: while the generation
   it read is current, its copy of L0 is a prefix of L0 with only newer runs
   behind it, and every deeper level is the copy's. Its write-back then leaves of
   the source level exactly the runs behind the copy; if the generation has moved
   on, it changes nothing.
   */
  lemma RoundUnderWay(c: Config, start: State, trace: seq<Step>)
    requires StateOk(c, start) && KeysWithinTop(trace)
    ensures CopyStands(c, Exec(c, start, trace).state)
  {
    var s := Exec(c, start, trace).state;
    AlwaysStateOk(c, start, trace);
    if s.round.Ready? {
      ReadyIsExact(c, s);
    }
  }

  // ----- Vectors in number order -----

  /** Every vector of levels in sight is in number order. */
  ghost predicate Ordered(s: State) {
    && LevelsInNumberOrder(s.tree.levels)
    && forall id | id in s.snapshots :: LevelsInNumberOrder(s.snapshots[id].levels)
  }

  lemma CommittedOrdered(levels: seq<Level>, i: nat, copy: Level, number: nat, maxLevel: nat)
    requires |levels| == maxLevel + 1 && i < maxLevel && FrontOf(copy, levels[i])
    requires LevelsInNumberOrder(levels) && AllBelow(levels[i + 1], number)
    ensures LevelsInNumberOrder(Committed(levels, i, copy, levels[i + 1], number, maxLevel))
  {
    var after := Committed(levels, i, copy, levels[i + 1], number, maxLevel);
    CommittedAt(levels, i, copy, number, maxLevel);
    assert InNumberOrder(levels[i]) && InNumberOrder(levels[i + 1]);
    forall j | 0 <= j < |after| ensures InNumberOrder(after[j]) {
      assert InNumberOrder(levels[j]);
    }
  }

  lemma WriteBackOrdered(levels: seq<Level>, copy: seq<Level>, i: nat, number: nat, maxLevel: nat)
    requires StillFresh(levels, copy) && |levels| == maxLevel + 1 && i < maxLevel
    requires LevelsInNumberOrder(levels) && AllBelow(levels[i + 1], number)
    ensures var job := JobFor(copy, i);
            LevelsInNumberOrder(Install(levels, job, ResultOf(job, copy[i], number, maxLevel), maxLevel))
  {
    CopyIsFront(levels, copy, i);
    WriteBackIsCommit(levels, copy, i, number, maxLevel);
    CommittedOrdered(levels, i, copy[i], number, maxLevel);
  }

  lemma CompactedOrdered(t: Tree, maxLevel: nat, level0Trigger: nat)
    requires maxLevel > 0 && LevelsOk(t.levels, maxLevel, t.nextRun) && LevelsInNumberOrder(t.levels)
    ensures LevelsInNumberOrder(Compacted(t, maxLevel, level0Trigger).levels)
  {
    CompactedIsCommit(t, maxLevel, level0Trigger);
    var chosen := ChooseJob(t.levels, maxLevel, level0Trigger);
    if chosen.Some? {
      var i := chosen.value.sourceLevel;
      AllBelowNext(t.levels, maxLevel, t.nextRun);
      CommittedOrdered(t.levels, i, t.levels[i], t.nextRun, maxLevel);
    }
  }

  lemma PushOrdered(levels: seq<Level>, run: Run)
    requires levels != [] && LevelsInNumberOrder(levels) && AllBelow(levels[0], run.number)
    ensures LevelsInNumberOrder(levels[0 := levels[0] + [run]])
  {
    assert InNumberOrder(levels[0]);
  }

  lemma CompactedAllOrdered(t: Tree, maxLevel: nat)
    requires |t.levels| == maxLevel + 1 && LevelsInNumberOrder(t.levels)
    ensures LevelsInNumberOrder(CompactedAll(t, maxLevel).levels)
  {
  }

  lemma FlushOrdered(s: State)
    requires s.tree.levels != [] && Ordered(s) && FlushOk(s) && s.flushing.Some?
    ensures Ordered(s.(tree := RunPushed(s.tree, s.flushing.value), flushing := None))
  {
    PushOrdered(s.tree.levels, s.flushing.value);
  }

  lemma WriteBackStepOrdered(c: Config, s: State)
    requires Shape(c, s) && RoundOk(c, s) && Ordered(s) && s.round.Ready?
    ensures LevelsInNumberOrder(Next(c, s, WriteBack).tree.levels)
  {
    WrittenBackLevels(c, s);
    if s.round.gen == s.tree.generation {
      WriteBackOrdered(s.tree.levels, s.round.copy, s.round.job.sourceLevel, s.round.number, c.maxLevel);
    }
  }

  lemma NextOrdered(c: Config, s: State, step: Step)
    requires StateOk(c, s) && Ordered(s) && Enabled(s, step)
    ensures Ordered(Next(c, s, step))
  {
    match step
    case Call(Compact) => CompactedOrdered(s.tree, c.maxLevel, c.level0Trigger);
    case CompactAll => CompactedAllOrdered(s.tree, c.maxLevel);
    case FinishFlush => FlushOrdered(s);
    case WriteBack => WriteBackStepOrdered(c, s);
    case _ =>
  }

  /** Starting from ordered vectors, they stay ordered across flush, compaction and rollback. */
  lemma {:induction false} AlwaysOrdered(c: Config, start: State, trace: seq<Step>)
    requires StateOk(c, start) && Ordered(start) && KeysWithinTop(trace)
    ensures Ordered(Exec(c, start, trace).state)
  {
    if trace != [] {
      var init, step := trace[..|trace| - 1], trace[|trace| - 1];
      assert forall i | 0 <= i < |init| :: init[i] == trace[i];
      AlwaysStateOk(c, start, init);
      AlwaysOrdered(c, start, init);
      var s := Exec(c, start, init).state;
      if Enabled(s, step) {
        NextOrdered(c, s, step);
      }
    }
  }
}
