/**
 The handles a tree holds: in its levels, in in-memory snapshots, in the run a
 flush is about to push, and in the round under way; and what each step does to
 them.
 */
module TreeHandles {
  import opened Wrappers
  import opened Entries
  import opened Levels
  import opened Sorting
  import opened Compaction
  import opened TreeState
  import opened Reference
  import opened Interleaving

  // ----- What a state holds -----

  /** One handle for each run, counted by run number. */
  function OfRuns(runs: seq<Run>): multiset<nat> {
    if runs == [] then multiset{} else OfRuns(runs[..|runs| - 1]) + multiset{runs[|runs| - 1].number}
  }

  function OfLevels(levels: seq<Level>): multiset<nat> {
    if levels == [] then multiset{} else OfRuns(levels[0]) + OfLevels(levels[1..])
  }

  ghost function AnyOf(ids: set<string>): (id: string)
    requires ids != {}
    ensures id in ids
  {
    var id :| id in ids;
    id
  }

  lemma FewerKeys(snapshots: map<string, LsmSnapshot>, id: string)
    requires id in snapshots
    ensures (snapshots - {id}).Keys == snapshots.Keys - {id}
  {
  }

  ghost function OfSnapshots(snapshots: map<string, LsmSnapshot>): multiset<nat>
    decreases |snapshots.Keys|
  {
    if snapshots.Keys == {} then multiset{}
    else
      var id := AnyOf(snapshots.Keys);
      FewerKeys(snapshots, id);
      OfLevels(snapshots[id].levels) + OfSnapshots(snapshots - {id})
  }

  function OfOutput(output: Option<Run>): multiset<nat> {
    if output.None? then multiset{} else multiset{output.value.number}
  }

  /**
   A round holds its clone of the levels; the job's clone of the target level
   until the merge is done; from then on the clone of the source level, and the
   merge's output.
   */
  function OfRound(round: Round): multiset<nat> {
    match round
    case Chosen(_, copy, job) => OfLevels(copy) + OfRuns(job.targetLevelRuns)
    case Ready(_, copy, job, _, result) =>
      OfLevels(copy) + OfRuns(if job.sourceLevel < |copy| then copy[job.sourceLevel] else []) + OfOutput(result.output)
    case _ => multiset{}
  }

  /** A round that has chosen its job holds the runs of the target level twice, all others of its copy once. */
  lemma ChosenHolds(c: Config, s: State, n: nat)
    requires Shape(c, s) && s.round.Chosen?
    ensures var copy, i := s.round.copy, s.round.job.sourceLevel;
            OfRound(s.round)[n] == OfLevels(copy)[n] + OfRuns(copy[i + 1])[n]
  {
  }

  /** A round that has merged holds the runs of the source level twice, all others once, and its output. */
  lemma ReadyHolds(c: Config, s: State, n: nat)
    requires Shape(c, s) && s.round.Ready?
    ensures var copy, i, output := s.round.copy, s.round.job.sourceLevel, s.round.result.output;
            OfRound(s.round)[n] == OfLevels(copy)[n] + OfRuns(copy[i])[n] +
                                   if output.Some? && output.value.number == n then 1 else 0
  {
  }

  ghost function Held(s: State): multiset<nat> {
    OfLevels(s.tree.levels) + OfOutput(s.flushing) + OfSnapshots(s.snapshots) + OfRound(s.round)
  }

  // ----- What a step does -----

  /** The run a step writes, if it writes one: a flush, or a merge that leaves something. */
  function Published(c: Config, s: State, step: Step): multiset<nat>
    requires Shape(c, s) && Enabled(s, step)
  {
    match step
    case StartFlush => OfOutput(FlushedRun(s.tree))
    case BuildMerge =>
      OfOutput(ResultOf(s.round.job, s.round.copy[s.round.job.sourceLevel], s.tree.nextRun, c.maxLevel).output)
    case Call(Compact) =>
      (match ChooseJob(s.tree.levels, c.maxLevel, c.level0Trigger)
       case None => multiset{}
       case Some(job) => OfOutput(ResultOf(job, s.tree.levels[job.sourceLevel], s.tree.nextRun, c.maxLevel).output))
    case CompactAll =>
      var all := Flatten(s.tree.levels);
      if all == [] then multiset{}
      else OfOutput(OutputRun(DropTombstones(Scanned(LevelTable(all))), s.tree.nextRun, 0))
    case _ => multiset{}
  }

  /** The handles a step clones. */
  function Cloned(c: Config, s: State, step: Step): multiset<nat>
    requires Shape(c, s) && Enabled(s, step)
  {
    match step
    case Call(Snapshot(_)) => OfLevels(s.tree.levels)
    case Call(Rollback(id)) => if id in s.snapshots then OfLevels(s.snapshots[id].levels) else multiset{}
    case Call(Compact) =>
      OfLevels(s.tree.levels) +
      (match ChooseJob(s.tree.levels, c.maxLevel, c.level0Trigger)
       case None => multiset{}
       case Some(job) => OfRuns(job.targetLevelRuns) + OfRuns(s.tree.levels[job.sourceLevel]))
    case CloneLevels =>
      OfLevels(s.tree.levels) +
      (match ChooseJob(s.tree.levels, c.maxLevel, c.level0Trigger)
       case None => multiset{}
       case Some(job) => OfRuns(job.targetLevelRuns))
    case BuildMerge => OfRuns(s.round.copy[s.round.job.sourceLevel])
    case CompactAll => OfLevels(s.tree.levels)
    case _ => multiset{}
  }

  // ----- Counting -----

  lemma {:induction false} OfRunsAppend(a: seq<Run>, b: seq<Run>)
    ensures OfRuns(a + b) == OfRuns(a) + OfRuns(b)
  {
    if b == [] {
      assert a + b == a;
    } else {
      assert (a + b)[..|a + b| - 1] == a + b[..|b| - 1];
      OfRunsAppend(a, b[..|b| - 1]);
    }
  }

  lemma OfOneRun(run: Run)
    ensures OfRuns([run]) == multiset{run.number}
  {
    assert [run][..0] == [];
  }

  lemma {:induction false} OfLevelsSplit(levels: seq<Level>, i: nat)
    requires i < |levels|
    ensures OfLevels(levels) == OfLevels(levels[..i]) + OfRuns(levels[i]) + OfLevels(levels[i + 1..])
  {
    if i > 0 {
      var rest := levels[1..];
      OfLevelsSplit(rest, i - 1);
      assert levels[..i][1..] == rest[..i - 1] && rest[i - 1 + 1..] == levels[i + 1..];
    }
  }

  lemma OfLevelsUpdate(levels: seq<Level>, i: nat, level: Level)
    requires i < |levels|
    ensures OfLevels(levels[i := level]) + OfRuns(levels[i]) == OfLevels(levels) + OfRuns(level)
    ensures OfRuns(levels[i]) <= OfLevels(levels)
  {
    var after := levels[i := level];
    assert after[..i] == levels[..i] && after[i + 1..] == levels[i + 1..];
    OfLevelsSplit(levels, i);
    OfLevelsSplit(after, i);
  }

  lemma {:induction false} OfFlatten(levels: seq<Level>)
    ensures OfRuns(Flatten(levels)) == OfLevels(levels)
  {
    if levels != [] {
      OfFlatten(levels[1..]);
      OfRunsAppend(levels[0], Flatten(levels[1..]));
    }
  }

  lemma {:induction false} OfEmptyLevels(levels: seq<Level>)
    requires forall i | 0 <= i < |levels| :: levels[i] == []
    ensures OfLevels(levels) == multiset{}
  {
    if levels != [] {
      OfEmptyLevels(levels[1..]);
    }
  }

  lemma RemoveAtHolds(level: Level, i: nat)
    ensures OfRuns(RemoveAt(level, i)) <= OfRuns(level)
  {
    if i < |level| {
      assert level == level[..i] + ([level[i]] + level[i + 1..]);
      OfRunsAppend(level[..i], [level[i]] + level[i + 1..]);
      OfRunsAppend([level[i]], level[i + 1..]);
      OfRunsAppend(level[..i], level[i + 1..]);
    }
  }

  lemma {:induction false} RemoveEachHolds(level: Level, indices: seq<nat>)
    ensures OfRuns(RemoveEach(level, indices)) <= OfRuns(level)
  {
    if indices != [] {
      RemoveEachHolds(level, indices[..|indices| - 1]);
      RemoveAtHolds(RemoveEach(level, indices[..|indices| - 1]), indices[|indices| - 1]);
    }
  }

  lemma Smaller(after: multiset<nat>, taken: multiset<nat>, before: multiset<nat>, put: multiset<nat>)
    requires after + taken == before + put && put <= taken
    ensures after <= before
  {
    forall n ensures after[n] <= before[n] {
      assert (after + taken)[n] == (before + put)[n];
    }
  }

  lemma Larger(after: multiset<nat>, taken: multiset<nat>, before: multiset<nat>, more: multiset<nat>)
    requires after + taken == before + (taken + more)
    ensures after == before + more
  {
    forall n ensures after[n] == (before + more)[n] {
      assert (after + taken)[n] == (before + (taken + more))[n];
    }
  }

  lemma ShrunkHolds(levels: seq<Level>, i: nat, rest: Level)
    requires i < |levels| && OfRuns(rest) <= OfRuns(levels[i])
    ensures OfLevels(levels[i := rest]) <= OfLevels(levels)
  {
    OfLevelsUpdate(levels, i, rest);
    Smaller(OfLevels(levels[i := rest]), OfRuns(levels[i]), OfLevels(levels), OfRuns(rest));
  }

  lemma PushedHolds(levels: seq<Level>, i: nat, run: Run)
    requires i < |levels|
    ensures OfLevels(levels[i := levels[i] + [run]]) == OfLevels(levels) + multiset{run.number}
  {
    OfOneRun(run);
    OfRunsAppend(levels[i], [run]);
    OfLevelsUpdate(levels, i, levels[i] + [run]);
    Larger(OfLevels(levels[i := levels[i] + [run]]), OfRuns(levels[i]), OfLevels(levels), multiset{run.number});
  }

  lemma Bounded(after: multiset<nat>, taken: multiset<nat>, before: multiset<nat>, put: multiset<nat>)
    requires after + taken == before + put
    ensures after <= before + put
  {
    forall n ensures after[n] <= (before + put)[n] {
      assert (after + taken)[n] == (before + put)[n];
    }
  }

  lemma ReplacedHolds(levels: seq<Level>, i: nat, run: Run)
    requires i < |levels|
    ensures OfLevels(levels[i := [run]]) <= OfLevels(levels) + multiset{run.number}
  {
    OfOneRun(run);
    OfLevelsUpdate(levels, i, [run]);
    Bounded(OfLevels(levels[i := [run]]), OfRuns(levels[i]), OfLevels(levels), multiset{run.number});
  }

  /** A write-back moves its output in and takes nothing else in. */
  lemma InstallHolds(levels: seq<Level>, job: LevelCompactionJob, result: CompactionResult, maxLevel: nat)
    requires |levels| == maxLevel + 1 && job.sourceLevel < |levels| && job.targetLevel < |levels|
    ensures OfLevels(Install(levels, job, result, maxLevel)) <= OfLevels(levels) + OfOutput(result.output)
  {
    var rest := RemoveEach(levels[job.sourceLevel], SortBy(Descending, result.inputsToRemove));
    RemoveEachHolds(levels[job.sourceLevel], SortBy(Descending, result.inputsToRemove));
    ShrunkHolds(levels, job.sourceLevel, rest);
    var removed := levels[job.sourceLevel := rest];
    match result.output
    case None =>
    case Some(output) =>
      ReplacedHolds(removed, job.targetLevel, output);
      PushedHolds(removed, job.targetLevel, output);
  }

  lemma RemovedEitherWay(snapshots: map<string, LsmSnapshot>, a: string, b: string)
    ensures snapshots - {a} - {b} == snapshots - {b} - {a}
  {
  }

  lemma {:induction false} OfSnapshotsWithout(snapshots: map<string, LsmSnapshot>, id: string)
    requires id in snapshots
    ensures OfSnapshots(snapshots) == OfLevels(snapshots[id].levels) + OfSnapshots(snapshots - {id})
    decreases |snapshots.Keys|
  {
    var first := AnyOf(snapshots.Keys);
    if first != id {
      var rest, other := snapshots - {first}, snapshots - {id};
      FewerKeys(snapshots, first);
      FewerKeys(snapshots, id);
      OfSnapshotsWithout(rest, id);
      OfSnapshotsWithout(other, first);
      RemovedEitherWay(snapshots, first, id);
    }
  }

  lemma OfSnapshotsUpdate(snapshots: map<string, LsmSnapshot>, id: string, snapshot: LsmSnapshot)
    ensures OfSnapshots(snapshots[id := snapshot]) <= OfSnapshots(snapshots) + OfLevels(snapshot.levels)
  {
    var after := snapshots[id := snapshot];
    OfSnapshotsWithout(after, id);
    assert after - {id} == snapshots - {id};
    if id in snapshots {
      OfSnapshotsWithout(snapshots, id);
    } else {
      assert snapshots - {id} == snapshots;
    }
  }

  // ----- Ownership -----

  /** After a step nothing is held that was not held before, written or cloned; what is held no longer is dropped. */
  ghost predicate Owns(c: Config, s: State, step: Step)
    requires Shape(c, s) && Enabled(s, step)
  {
    && Held(Next(c, s, step)) <= Held(s) + Published(c, s, step) + Cloned(c, s, step)
    && (forall n :: n in Cloned(c, s, step) ==> n in Held(s))
    && (Published(c, s, step) == multiset{} || Published(c, s, step) == multiset{s.tree.nextRun})
    && Next(c, s, step).tree.nextRun >= s.tree.nextRun
    && (Published(c, s, step) != multiset{} ==> Next(c, s, step).tree.nextRun > s.tree.nextRun)
  }

  lemma CompactedHolds(t: Tree, maxLevel: nat, level0Trigger: nat)
    requires maxLevel > 0 && |t.levels| == maxLevel + 1
    ensures var t' := Compacted(t, maxLevel, level0Trigger);
            match ChooseJob(t.levels, maxLevel, level0Trigger)
            case None => t' == t
            case Some(job) =>
              var output := ResultOf(job, t.levels[job.sourceLevel], t.nextRun, maxLevel).output;
              OfLevels(t'.levels) <= OfLevels(t.levels) + OfOutput(output) && t'.nextRun == t.nextRun + 1
  {
    match ChooseJob(t.levels, maxLevel, level0Trigger)
    case None =>
    case Some(job) =>
      InstallHolds(t.levels, job, ResultOf(job, t.levels[job.sourceLevel], t.nextRun, maxLevel), maxLevel);
  }

  lemma JobClones(levels: seq<Level>, maxLevel: nat, level0Trigger: nat)
    requires maxLevel > 0 && |levels| == maxLevel + 1
    ensures match ChooseJob(levels, maxLevel, level0Trigger)
            case None => true
            case Some(job) =>
              && OfRuns(job.targetLevelRuns) <= OfLevels(levels)
              && OfRuns(levels[job.sourceLevel]) <= OfLevels(levels)
  {
    match ChooseJob(levels, maxLevel, level0Trigger)
    case None =>
    case Some(job) =>
      OfLevelsUpdate(levels, job.sourceLevel, []);
      OfLevelsUpdate(levels, job.sourceLevel + 1, []);
  }

  /** Only the levels change, and they take in no more than what was written. */
  lemma LevelsOwn(c: Config, s: State, step: Step)
    requires Shape(c, s) && Enabled(s, step)
    requires var s' := Next(c, s, step);
             && s'.flushing == s.flushing && s'.snapshots == s.snapshots && s'.round == s.round
             && OfLevels(s'.tree.levels) <= OfLevels(s.tree.levels) + Published(c, s, step)
    ensures Held(Next(c, s, step)) <= Held(s) + Published(c, s, step) + Cloned(c, s, step)
  {
    var s' := Next(c, s, step);
    SumWithLevels(OfLevels(s'.tree.levels), OfLevels(s.tree.levels), OfOutput(s.flushing) + OfSnapshots(s.snapshots),
                  OfRound(s.round), Published(c, s, step), Cloned(c, s, step));
  }

  lemma SumWithLevels(after: multiset<nat>, before: multiset<nat>, a: multiset<nat>, b: multiset<nat>,
                      published: multiset<nat>, cloned: multiset<nat>)
    requires after <= before + published
    ensures after + a + b <= before + a + b + published + cloned
  {
  }

  lemma CompactClones(c: Config, s: State)
    requires Shape(c, s) && Enabled(s, Call(Operation.Compact))
    ensures forall n :: n in Cloned(c, s, Call(Operation.Compact)) ==> n in OfLevels(s.tree.levels)
  {
    JobClones(s.tree.levels, c.maxLevel, c.level0Trigger);
  }

  lemma CompactWrites(c: Config, s: State)
    requires Shape(c, s) && Enabled(s, Call(Operation.Compact))
    ensures var call, t' := Call(Operation.Compact), Compacted(s.tree, c.maxLevel, c.level0Trigger);
            && Next(c, s, call) == s.(tree := t')
            && OfLevels(t'.levels) <= OfLevels(s.tree.levels) + Published(c, s, call)
            && t'.nextRun >= s.tree.nextRun
            && (Published(c, s, call) != multiset{} ==> t'.nextRun > s.tree.nextRun)
  {
    CompactedHolds(s.tree, c.maxLevel, c.level0Trigger);
  }

  lemma CompactOwns(c: Config, s: State)
    requires Shape(c, s) && Enabled(s, Call(Operation.Compact))
    ensures Owns(c, s, Call(Operation.Compact))
  {
    CompactWrites(c, s);
    LevelsOwn(c, s, Call(Operation.Compact));
    CompactClones(c, s);
  }

  lemma CompactedAllHolds(t: Tree, maxLevel: nat)
    requires |t.levels| == maxLevel + 1 && Flatten(t.levels) != []
    ensures var output := OutputRun(DropTombstones(Scanned(LevelTable(Flatten(t.levels)))), t.nextRun, 0);
            OfLevels(CompactedAll(t, maxLevel).levels) == OfOutput(output)
  {
    var output := OutputRun(DropTombstones(Scanned(LevelTable(Flatten(t.levels)))), t.nextRun, 0);
    var emptied: seq<Level> := Emptied(maxLevel + 1);
    OfEmptyLevels(emptied);
    if output.Some? {
      PushedHolds(emptied, maxLevel, output.value);
      assert emptied[maxLevel] + [output.value] == [output.value];
    } else {
      assert emptied[maxLevel := []] == emptied;
    }
  }

  lemma CompactAllOwns(c: Config, s: State)
    requires Shape(c, s) && Enabled(s, CompactAll)
    ensures Owns(c, s, CompactAll)
  {
    if Flatten(s.tree.levels) != [] {
      CompactedAllHolds(s.tree, c.maxLevel);
    }
    LevelsOwn(c, s, CompactAll);
  }

  lemma FlushOwns(c: Config, s: State)
    requires Shape(c, s) && Enabled(s, FinishFlush)
    ensures Owns(c, s, FinishFlush)
  {
    PushedHolds(s.tree.levels, 0, s.flushing.value);
  }

  /** Only the round changes, and it takes in no more than what was written and cloned. */
  lemma RoundOwns(c: Config, s: State, step: Step)
    requires Shape(c, s) && Enabled(s, step)
    requires var s' := Next(c, s, step);
             && s'.flushing == s.flushing && s'.snapshots == s.snapshots && s'.tree.levels == s.tree.levels
             && OfRound(s'.round) <= OfRound(s.round) + Published(c, s, step) + Cloned(c, s, step)
    ensures Held(Next(c, s, step)) <= Held(s) + Published(c, s, step) + Cloned(c, s, step)
  {
    var s' := Next(c, s, step);
    var rest := OfLevels(s.tree.levels) + OfOutput(s.flushing) + OfSnapshots(s.snapshots);
    SumWithRound(rest, OfRound(s'.round), OfRound(s.round), Published(c, s, step), Cloned(c, s, step));
  }

  lemma SumWithRound(rest: multiset<nat>, after: multiset<nat>, before: multiset<nat>,
                     published: multiset<nat>, cloned: multiset<nat>)
    requires after <= before + published + cloned
    ensures rest + after <= rest + before + published + cloned
  {
  }

  lemma CloneLevelsOwns(c: Config, s: State)
    requires Shape(c, s) && Enabled(s, CloneLevels)
    ensures Owns(c, s, CloneLevels)
  {
    JobClones(s.tree.levels, c.maxLevel, c.level0Trigger);
    RoundOwns(c, s, CloneLevels);
  }

  lemma BuiltRound(copies: multiset<nat>, target: multiset<nat>, source: multiset<nat>, output: multiset<nat>)
    ensures copies + source + output <= copies + target + output + source
  {
  }

  lemma BuildRest(c: Config, s: State)
    requires Shape(c, s) && Enabled(s, BuildMerge)
    ensures var s' := Next(c, s, BuildMerge);
            && s'.flushing == s.flushing && s'.snapshots == s.snapshots
            && s'.tree.levels == s.tree.levels && s'.tree.nextRun == s.tree.nextRun + 1
  {
  }

  lemma RoundIsBuilt(c: Config, s: State)
    requires Shape(c, s) && Enabled(s, BuildMerge)
    ensures var copy, job := s.round.copy, s.round.job;
            var result := ResultOf(job, copy[job.sourceLevel], s.tree.nextRun, c.maxLevel);
            && Next(c, s, BuildMerge).round == Ready(s.round.gen, copy, job, s.tree.nextRun, result)
            && Published(c, s, BuildMerge) == OfOutput(result.output)
  {
  }

  lemma BuildChanges(c: Config, s: State)
    requires Shape(c, s) && Enabled(s, BuildMerge)
    ensures var copy, job := s.round.copy, s.round.job;
            && OfRound(s.round) == OfLevels(copy) + OfRuns(job.targetLevelRuns)
            && OfRound(Next(c, s, BuildMerge).round) ==
               OfLevels(copy) + OfRuns(copy[job.sourceLevel]) + Published(c, s, BuildMerge)
            && Cloned(c, s, BuildMerge) == OfRuns(copy[job.sourceLevel])
  {
    RoundIsBuilt(c, s);
  }

  lemma SourceIsHeld(c: Config, s: State)
    requires Shape(c, s) && Enabled(s, BuildMerge)
    ensures forall n :: n in Cloned(c, s, BuildMerge) ==> n in Held(s)
  {
    OfLevelsUpdate(s.round.copy, s.round.job.sourceLevel, []);
    BuildChanges(c, s);
    var source := OfRuns(s.round.copy[s.round.job.sourceLevel]);
    forall n | n in source ensures n in Held(s) {
      assert n in OfLevels(s.round.copy);
    }
  }

  lemma BuildOwns(c: Config, s: State)
    requires Shape(c, s) && Enabled(s, BuildMerge)
    ensures Owns(c, s, BuildMerge)
  {
    SourceIsHeld(c, s);
    BuildRest(c, s);
    BuildChanges(c, s);
    var copy, job := s.round.copy, s.round.job;
    BuiltRound(OfLevels(copy), OfRuns(job.targetLevelRuns), OfRuns(copy[job.sourceLevel]), Published(c, s, BuildMerge));
    RoundOwns(c, s, BuildMerge);
  }

  /** The output moves from the round to the levels, or goes with the round if the generation has moved on. */
  lemma WrittenHolds(t: Tree, gen: nat, job: LevelCompactionJob, result: CompactionResult, maxLevel: nat)
    requires |t.levels| == maxLevel + 1 && job.sourceLevel < |t.levels| && job.targetLevel < |t.levels|
    ensures OfLevels(WrittenBack(t, gen, job, result, maxLevel).levels) <= OfLevels(t.levels) + OfOutput(result.output)
  {
    InstallHolds(t.levels, job, result, maxLevel);
  }

  lemma SumOfWriteBack(after: multiset<nat>, before: multiset<nat>, a: multiset<nat>, b: multiset<nat>,
                       copies: multiset<nat>, output: multiset<nat>)
    requires after <= before + output
    ensures after + a + b <= before + a + b + (copies + output)
  {
  }

  lemma WriteBackChanges(c: Config, s: State)
    requires Shape(c, s) && Enabled(s, WriteBack)
    ensures var s', r := Next(c, s, WriteBack), s.round;
            var after := WrittenBack(s.tree, r.gen, r.job, r.result, c.maxLevel).levels;
            && Held(s') == OfLevels(after) + OfOutput(s.flushing) + OfSnapshots(s.snapshots) + multiset{}
            && Held(s) == OfLevels(s.tree.levels) + OfOutput(s.flushing) + OfSnapshots(s.snapshots) +
                          (OfLevels(r.copy) + OfRuns(r.copy[r.job.sourceLevel]) + OfOutput(r.result.output))
            && Published(c, s, WriteBack) == Cloned(c, s, WriteBack) == multiset{}
            && s'.tree.nextRun == s.tree.nextRun
  {
  }

  lemma WriteBackOwns(c: Config, s: State)
    requires Shape(c, s) && Enabled(s, WriteBack)
    ensures Owns(c, s, WriteBack)
  {
    var r := s.round;
    WriteBackChanges(c, s);
    WrittenHolds(s.tree, r.gen, r.job, r.result, c.maxLevel);
    var after := WrittenBack(s.tree, r.gen, r.job, r.result, c.maxLevel).levels;
    SumOfWriteBack(OfLevels(after), OfLevels(s.tree.levels), OfOutput(s.flushing), OfSnapshots(s.snapshots),
                   OfLevels(r.copy) + OfRuns(r.copy[r.job.sourceLevel]), OfOutput(r.result.output));
  }

  lemma CallOwns(c: Config, s: State, op: Operation)
    requires Shape(c, s) && Enabled(s, Call(op))
    ensures Owns(c, s, Call(op))
  {
    match op
    case Snapshot(id) => OfSnapshotsUpdate(s.snapshots, id, SnapshotOf(s.tree));
    case Rollback(id) => if id in s.snapshots { OfSnapshotsWithout(s.snapshots, id); }
    case Compact => CompactOwns(c, s);
    case _ =>
  }

  lemma StepOwns(c: Config, s: State, step: Step)
    requires Shape(c, s) && Enabled(s, step)
    ensures Owns(c, s, step)
  {
    match step
    case Call(op) => CallOwns(c, s, op);
    case StartFlush =>
    case FinishFlush => FlushOwns(c, s);
    case ReadGeneration =>
    case CloneLevels => CloneLevelsOwns(c, s);
    case BuildMerge => BuildOwns(c, s);
    case WriteBack => WriteBackOwns(c, s);
    case CompactAll => CompactAllOwns(c, s);
  }
}
