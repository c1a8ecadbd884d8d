/**
 The tree as a value: what each of its operations does to the memtable, the
 levels and the counters.
 */
module TreeState {
  import opened Wrappers
  import opened Keys
  import opened Entries
  import opened Levels
  import opened Compaction
  import MemTables

  datatype Tree = Tree(mem: Table, levels: seq<Level>, nextRun: nat, generation: nat)

  /** An in-memory snapshot: clones of the memtable and of every handle. */
  datatype LsmSnapshot = LsmSnapshot(mem: Table, sizeBytes: nat, levels: seq<Level>)

  /** How far one `run_compaction` has got: the locals that outlive a lock. */
  datatype Round =
    | Idle
    | GenerationRead(gen: nat)
    | Chosen(gen: nat, copy: seq<Level>, job: LevelCompactionJob)
    | Ready(gen: nat, copy: seq<Level>, job: LevelCompactionJob, number: nat, result: CompactionResult)

  /** Levels without runs. */
  function Emptied(count: nat): (levels: seq<Level>)
    ensures |levels| == count && forall i | 0 <= i < count :: levels[i] == []
  {
    seq(count, _ => [])
  }

  function EmptyTree(maxLevel: nat): Tree {
    Tree(map[], Emptied(maxLevel + 1), 1, 0)
  }

  /** Everything the tree holds, tombstones included. */
  function Contents(t: Tree): Table {
    DiskTable(t.levels) + t.mem
  }

  function Written(t: Tree, key: Key, val: Option<Value>): Tree {
    t.(mem := t.mem[key := val])
  }

  // ----- Flushing -----

  /** The run a flush is about to push: none for an empty memtable. */
  function FlushedRun(t: Tree): Option<Run> {
    if t.mem == map[] then None else Some(Run(t.nextRun, 0, ListOf(t.mem)))
  }

  function MemTableTaken(t: Tree): Tree {
    if t.mem == map[] then t else t.(mem := map[], nextRun := t.nextRun + 1)
  }

  function RunPushed(t: Tree, run: Run): Tree
    requires t.levels != []
  {
    t.(levels := t.levels[0 := t.levels[0] + [run]])
  }

  function Flushed(t: Tree): Tree
    requires t.levels != []
  {
    match FlushedRun(t)
    case None => MemTableTaken(t)
    case Some(run) => RunPushed(MemTableTaken(t), run)
  }

  // ----- Snapshots -----

  function SnapshotOf(t: Tree): LsmSnapshot {
    LsmSnapshot(t.mem, MemTables.SizeOf(t.mem), t.levels)
  }

  function RolledBack(t: Tree, snapshot: LsmSnapshot): Tree {
    t.(mem := snapshot.mem, levels := snapshot.levels, generation := t.generation + 1)
  }

  // ----- One round of compaction -----

  function RoundBegun(t: Tree): Round {
    GenerationRead(t.generation)
  }

  function JobChosen(t: Tree, gen: nat, maxLevel: nat, level0Trigger: nat): Round
    requires |t.levels| == maxLevel + 1 && maxLevel > 0
  {
    match ChooseJob(t.levels, maxLevel, level0Trigger)
    case None => Idle
    case Some(job) => Chosen(gen, t.levels, job)
  }

  function NumberTaken(t: Tree): Tree {
    t.(nextRun := t.nextRun + 1)
  }

  function ResultOf(job: LevelCompactionJob, sources: Level, number: nat, maxLevel: nat): CompactionResult
    requires forall i | 0 <= i < |job.sourceRuns| :: job.sourceRuns[i] < |sources|
  {
    var merged := Merged(Pick(sources, job.sourceRuns), job.targetLevelRuns, job.targetLevel == maxLevel);
    CompactionResult(OutputRun(merged, number, job.targetLevel), job.sourceRuns)
  }

  /** The write-back: nothing if the generation moved on since it was read. */
  function WrittenBack(t: Tree, gen: nat, job: LevelCompactionJob, result: CompactionResult, maxLevel: nat): Tree
    requires |t.levels| == maxLevel + 1
    requires job.sourceLevel < |t.levels| && job.targetLevel < |t.levels|
  {
    if t.generation != gen then t else t.(levels := Install(t.levels, job, result, maxLevel))
  }

  /** A whole round with nothing in between. */
  function Compacted(t: Tree, maxLevel: nat, level0Trigger: nat): Tree
    requires |t.levels| == maxLevel + 1 && maxLevel > 0
  {
    match ChooseJob(t.levels, maxLevel, level0Trigger)
    case None => t
    case Some(job) =>
      var result := ResultOf(job, t.levels[job.sourceLevel], t.nextRun, maxLevel);
      WrittenBack(NumberTaken(t), t.generation, job, result, maxLevel)
  }

  // ----- compact_all -----

  /** All runs, L0 first, each level in vector order. */
  function Flatten(levels: seq<Level>): seq<Run> {
    if levels == [] then [] else levels[0] + Flatten(levels[1..])
  }

  /** One merge of everything by run number, put alone on the bottom level under a level tag of 0. */
  function CompactedAll(t: Tree, maxLevel: nat): Tree
    requires |t.levels| == maxLevel + 1
  {
    var all := Flatten(t.levels);
    if all == [] then t
    else
      var output := OutputRun(DropTombstones(Scanned(LevelTable(all))), t.nextRun, 0);
      var bottom := if output.None? then [] else [output.value];
      t.(levels := Emptied(maxLevel + 1)[maxLevel := bottom], nextRun := t.nextRun + 1)
  }

  // ----- Reading -----

  function ListLive(m: map<Key, Value>): (pairs: seq<(Key, Value)>)
    ensures |pairs| == |Sorted(m.Keys)|
  {
    var order := Sorted(m.Keys);
    seq(|order|, i requires 0 <= i < |order| => assert order[i] in order; (order[i], m[order[i]]))
  }

  /** What `range` returns for a tree with these contents. */
  function RangeOn(t: Table, from: Key, to: Key): seq<(Key, Value)> {
    ListLive(Live(Clip(t, from, to)))
  }

  /** A run's lookup: `None` for a tombstone as well as for a missing key. */
  function GetFromRun(run: Run, key: Key): Option<Value> {
    var t := ToTable(run.entries);
    if key in t then t[key] else None
  }

  /** From the back of the vector to the front. */
  function GetFromLevel(level: Level, key: Key): Option<Value> {
    if level == [] then None
    else
      var found := GetFromRun(level[|level| - 1], key);
      if found.Some? then found else GetFromLevel(level[..|level| - 1], key)
  }

  function GetFromLevels(levels: seq<Level>, key: Key): Option<Value> {
    if levels == [] then None
    else
      var found := GetFromLevel(levels[0], key);
      if found.Some? then found else GetFromLevels(levels[1..], key)
  }

  function GetOn(t: Tree, key: Key): Option<Value> {
    if key in t.mem then t.mem[key] else GetFromLevels(t.levels, key)
  }
}
