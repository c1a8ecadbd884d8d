/**
 All interleavings of one caller and one compactor. The caller's operations are
 atomic except for a flush, which lets the compactor in between taking a run
 number and pushing the run; the compactor's round is cut at its locks.
 */
module Interleaving {
  import opened Wrappers
  import opened Keys
  import opened Entries
  import opened Levels
  import opened Compaction
  import opened CompactionView
  import opened LevelInvariant
  import opened TreeState
  import opened Reading
  import opened Holders
  import opened CompactAllView
  import opened Reference
  import MemTables

  datatype Config = Config(maxLevel: nat, level0Trigger: nat)

  datatype State = State(
    tree: Tree,
    flushing: Option<Run>,
    snapshots: map<string, LsmSnapshot>,
    round: Round)

  datatype Step =
    | Call(op: Operation)
    | StartFlush
    | FinishFlush
    | ReadGeneration
    | CloneLevels
    | BuildMerge
    | WriteBack
    | CompactAll

  function Init(c: Config): State {
    State(EmptyTree(c.maxLevel), None, map[], Idle)
  }

  /** The part of a state that makes every step well defined. */
  ghost predicate Shape(c: Config, s: State) {
    && c.maxLevel > 0
    && |s.tree.levels| == c.maxLevel + 1
    && (forall id | id in s.snapshots :: |s.snapshots[id].levels| == c.maxLevel + 1)
    && (s.round.Chosen? || s.round.Ready? ==> JobShape(c, s.round.copy, s.round.job))
  }

  ghost predicate JobShape(c: Config, copy: seq<Level>, job: LevelCompactionJob) {
    |copy| == c.maxLevel + 1 && job.sourceLevel < c.maxLevel && job == JobFor(copy, job.sourceLevel)
  }

  /**
   The caller waits for its flush; `compact` and `compact_all` are called while
   no other round is under way.
   */
  predicate Enabled(s: State, step: Step) {
    match step
    case Call(op) => s.flushing.None? && (op.Compact? ==> s.round.Idle?)
    case StartFlush => s.flushing.None?
    case FinishFlush => s.flushing.Some?
    case ReadGeneration => s.round.Idle?
    case CloneLevels => s.round.GenerationRead?
    case BuildMerge => s.round.Chosen?
    case WriteBack => s.round.Ready?
    case CompactAll => s.flushing.None? && s.round.Idle?
  }

  function Called(c: Config, s: State, op: Operation): State
    requires c.maxLevel > 0 && |s.tree.levels| == c.maxLevel + 1
  {
    match op
    case Insert(k, v) => s.(tree := Written(s.tree, k, Some(v)))
    case Delete(k) => s.(tree := Written(s.tree, k, None))
    case Get(_) => s
    case Range(_, _) => s
    case Snapshot(id) => s.(snapshots := s.snapshots[id := SnapshotOf(s.tree)])
    case Rollback(id) =>
      if id in s.snapshots then s.(tree := RolledBack(s.tree, s.snapshots[id])) else s
    case Compact => s.(tree := Compacted(s.tree, c.maxLevel, c.level0Trigger))
  }

  function Next(c: Config, s: State, step: Step): State
    requires Shape(c, s) && Enabled(s, step)
  {
    match step
    case Call(op) => Called(c, s, op)
    case StartFlush => s.(tree := MemTableTaken(s.tree), flushing := FlushedRun(s.tree))
    case FinishFlush => s.(tree := RunPushed(s.tree, s.flushing.value), flushing := None)
    case ReadGeneration => s.(round := RoundBegun(s.tree))
    case CloneLevels => s.(round := JobChosen(s.tree, s.round.gen, c.maxLevel, c.level0Trigger))
    case BuildMerge =>
      var job := s.round.job;
      var result := ResultOf(job, s.round.copy[job.sourceLevel], s.tree.nextRun, c.maxLevel);
      s.(tree := NumberTaken(s.tree), round := Ready(s.round.gen, s.round.copy, job, s.tree.nextRun, result))
    case WriteBack =>
      s.(tree := WrittenBack(s.tree, s.round.gen, s.round.job, s.round.result, c.maxLevel), round := Idle)
    case CompactAll => s.(tree := CompactedAll(s.tree, c.maxLevel))
  }

  /** The result the caller sees. */
  function Response(s: State, op: Operation): OperationResult {
    match op
    case Get(k) => OperationResult.Ok(GetOn(s.tree, k))
    case Range(from, to) => OkRange(RangeOn(Contents(s.tree), from, to))
    case Rollback(id) => if id in s.snapshots then OkUnit else SnapshotNotFound
    case _ => OkUnit
  }

  lemma NextKeepsShape(c: Config, s: State, step: Step)
    requires Shape(c, s) && Enabled(s, step)
    ensures Shape(c, Next(c, s, step))
  {
    if step.CloneLevels? {
      var job := ChooseJob(s.tree.levels, c.maxLevel, c.level0Trigger);
    }
  }

  datatype Outcome = Outcome(state: State, calls: seq<Operation>, responses: seq<OperationResult>)

  /** Any sequence of steps, those that are not possible at their turn left out. */
  ghost function Exec(c: Config, start: State, trace: seq<Step>): (r: Outcome)
    requires Shape(c, start)
    ensures Shape(c, r.state)
  {
    if trace == [] then Outcome(start, [], [])
    else
      var before, step := Exec(c, start, trace[..|trace| - 1]), trace[|trace| - 1];
      if !Enabled(before.state, step) then before
      else
        NextKeepsShape(c, before.state, step);
        var after := Next(c, before.state, step);
        if step.Call? then
          Outcome(after, before.calls + [step.op], before.responses + [Response(before.state, step.op)])
        else before.(state := after)
  }

  /** A step at the end of a trace happens if it is possible there, and a call is answered then. */
  lemma ExecOneMore(c: Config, start: State, trace: seq<Step>, step: Step)
    requires Shape(c, start)
    ensures var before, after := Exec(c, start, trace), Exec(c, start, trace + [step]);
            && (!Enabled(before.state, step) ==> after == before)
            && (Enabled(before.state, step) ==> after.state == Next(c, before.state, step))
            && (Enabled(before.state, step) && step.Call? ==>
                  && after.calls == before.calls + [step.op]
                  && after.responses == before.responses + [Response(before.state, step.op)])
            && (!step.Call? ==> after.calls == before.calls && after.responses == before.responses)
    ensures Exec(c, start, []) == Outcome(start, [], [])
  {
    assert (trace + [step])[..|trace|] == trace;
  }

  /**
   What may happen at the same time: the compactor's steps never wait for the
   caller; the caller waits for its own flush only, but for compactions, which also
   wait for a round under way.
   */
  lemma NobodyElseWaits(s: State)
    ensures s.round.Idle? ==> Enabled(s, ReadGeneration)
    ensures s.round.GenerationRead? ==> Enabled(s, CloneLevels)
    ensures s.round.Chosen? ==> Enabled(s, BuildMerge)
    ensures s.round.Ready? ==> Enabled(s, WriteBack)
    ensures s.flushing.Some? ==> Enabled(s, FinishFlush)
    ensures s.flushing.None? ==>
              Enabled(s, StartFlush) && forall op: Operation | !op.Compact? :: Enabled(s, Call(op))
    ensures s.flushing.None? && s.round.Idle? ==>
              Enabled(s, Call(Operation.Compact)) && Enabled(s, CompactAll)
  {
  }

  lemma ExecStep(c: Config, trace: seq<Step>, step: Step)
    requires c.maxLevel > 0
    ensures var s := Exec(c, Init(c), trace).state;
            Exec(c, Init(c), trace + [step]).state == if Enabled(s, step) then Next(c, s, step) else s
  {
    assert (trace + [step])[..|trace|] == trace;
  }

  // ----- What can go wrong -----

  /** What is newer than the levels: the run being flushed, and the memtable. */
  function OnTop(s: State): Table {
    (if s.flushing.Some? then ToTable(s.flushing.value.entries) else map[]) + s.tree.mem
  }

  function View(s: State): Table {
    DiskTable(s.tree.levels) + OnTop(s)
  }

  /** A round run in one go would resurrect a key. */
  ghost predicate CompactResurrects(c: Config, s: State)
    requires Shape(c, s)
  {
    var job := ChooseJob(s.tree.levels, c.maxLevel, c.level0Trigger);
    job.Some? &&
    Resurrects(s.tree.levels, job.value.sourceLevel, s.tree.levels[job.value.sourceLevel], c.maxLevel, OnTop(s))
  }

  /**
   The conditions under which a step keeps to the reference model: keys that a
   compaction can read, no lookup whose walk stops at another answer than the
   newest run's, no bottom-level write-back that resurrects a key, and no
   `compact_all` while the highest number answers otherwise than readers do.
   */
  ghost predicate Guarded(c: Config, s: State, step: Step)
    requires Shape(c, s)
  {
    match step
    case Call(Insert(k, _)) => Le(k, TOP_KEY)
    case Call(Delete(k)) => Le(k, TOP_KEY)
    case Call(Get(k)) => GetSeesNewest(s.tree, k)
    case Call(Compact) => !CompactResurrects(c, s)
    case WriteBack =>
      s.round.Ready? && s.round.gen == s.tree.generation
      && |s.round.copy[s.round.job.sourceLevel]| <= |s.tree.levels[s.round.job.sourceLevel]| ==>
        !Resurrects(s.tree.levels, s.round.job.sourceLevel, s.round.copy[s.round.job.sourceLevel], c.maxLevel, OnTop(s))
    case CompactAll => NumbersAnswerAlike(s.tree.levels, s.tree.mem)
    case _ => true
  }

  ghost predicate LevelsInNumberOrder(levels: seq<Level>) {
    forall i | 0 <= i < |levels| :: InNumberOrder(levels[i])
  }

  /** Every step of the trace is guarded in the state it finds. */
  ghost predicate GuardedTrace(c: Config, start: State, trace: seq<Step>)
    requires Shape(c, start)
  {
    trace != [] ==>
      var init := trace[..|trace| - 1];
      GuardedTrace(c, start, init) && Guarded(c, Exec(c, start, init).state, trace[|trace| - 1])
  }

  /** The least that the structural invariant needs: keys that a compaction can read. */
  predicate KeyWithinTop(step: Step) {
    step.Call? ==> (step.op.Insert? ==> Le(step.op.key, TOP_KEY)) && (step.op.Delete? ==> Le(step.op.key, TOP_KEY))
  }

  ghost predicate KeysWithinTop(trace: seq<Step>) {
    forall i | 0 <= i < |trace| :: KeyWithinTop(trace[i])
  }

  // ----- Structure -----

  /** Nothing but flushes has touched the levels since they were cloned. */
  ghost predicate StillFresh(levels: seq<Level>, copy: seq<Level>) {
    |levels| == |copy| > 0 && FrontOf(copy[0], levels[0]) && copy[1..] == levels[1..]
  }

  ghost predicate RoundOk(c: Config, s: State)
    requires Shape(c, s)
  {
    match s.round
    case Idle => true
    case GenerationRead(gen) => gen <= s.tree.generation
    case Chosen(gen, copy, job) =>
      gen <= s.tree.generation && (gen == s.tree.generation ==> StillFresh(s.tree.levels, copy))
    case Ready(gen, copy, job, number, result) =>
      && gen <= s.tree.generation
      && number < s.tree.nextRun
      && result == ResultOf(job, copy[job.sourceLevel], number, c.maxLevel)
      && (gen == s.tree.generation ==>
            && StillFresh(s.tree.levels, copy)
            && AllBelow(s.tree.levels[job.targetLevel], number)
            && Unused(number, s.tree.levels)
            && (s.flushing.Some? ==> s.flushing.value.number != number))
  }

  ghost predicate FlushOk(s: State)
    requires s.tree.levels != []
  {
    s.flushing.Some? ==>
      && RunOk(s.flushing.value, s.tree.nextRun)
      && AllBelow(s.tree.levels[0], s.flushing.value.number)
      && Unused(s.flushing.value.number, s.tree.levels)
  }

  ghost predicate SnapshotOk(c: Config, snapshot: LsmSnapshot, bound: nat) {
    && LevelsOk(snapshot.levels, c.maxLevel, bound)
    && WithinTop(snapshot.mem)
    && snapshot.sizeBytes == MemTables.SizeOf(snapshot.mem)
  }

  ghost predicate StateOk(c: Config, s: State) {
    && Shape(c, s)
    && LevelsOk(s.tree.levels, c.maxLevel, s.tree.nextRun)
    && WithinTop(s.tree.mem)
    && FlushOk(s)
    && (forall id | id in s.snapshots :: SnapshotOk(c, s.snapshots[id], s.tree.nextRun))
    && RoundOk(c, s)
  }

  /** Readers cannot tell the state, or any of its snapshots, from the model's. */
  ghost predicate Agrees(s: State, m: Model) {
    && Live(View(s)) == Live(m.table)
    && s.snapshots.Keys == m.snapshots.Keys
    && forall id | id in s.snapshots ::
         Live(DiskTable(s.snapshots[id].levels) + s.snapshots[id].mem) == Live(m.snapshots[id])
  }
}
