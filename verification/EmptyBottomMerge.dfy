/**
 A run of a new tree in which deleted keys come back: more entries than L5 may
 hold are written, flushed and compacted down to the bottom; then all of them are
 deleted, and the tombstones follow. The last merge leaves nothing, so the old
 bottom run stays.
 */
module EmptyBottomMerge {
  import opened Wrappers
  import opened ByteStrings
  import opened Keys
  import opened Entries
  import opened Levels
  import opened Compaction
  import opened CompactionView
  import opened TreeState
  import opened Interleaving
  import opened InterleavingStructure
  import opened Reference
  import opened Witnesses

  // ----- Many keys -----

  /** Distinct keys that a compaction reads. */
  ghost predicate Readable(keys: seq<Key>) {
    && (forall i, j | 0 <= i < j < |keys| :: keys[i] != keys[j])
    && forall i | 0 <= i < |keys| :: Le(keys[i], TOP_KEY)
  }

  /** The numbers below `n` as keys of four bytes. */
  function FourByteKeys(n: nat): seq<Key> {
    seq(n, i requires 0 <= i < n => LittleEndian(i, 4))
  }

  lemma FourByteKeysReadable(n: nat)
    requires n <= 0x1_0000_0000
    ensures Readable(FourByteKeys(n))
  {
    var keys := FourByteKeys(n);
    SpanOfU32();
    forall i, j | 0 <= i < j < |keys| ensures keys[i] != keys[j] {
      LittleEndianRoundTrip(i, 4);
      LittleEndianRoundTrip(j, 4);
    }
    forall i | 0 <= i < |keys| ensures Le(keys[i], TOP_KEY) {
      ShortKeysBelowTop(keys[i], 256);
    }
  }

  function Front(keys: seq<Key>): seq<Key>
    requires keys != []
  {
    keys[..|keys| - 1]
  }

  function Last(keys: seq<Key>): Key
    requires keys != []
  {
    keys[|keys| - 1]
  }

  /** All of the keys, with the same value or deleted. */
  function Filled(keys: seq<Key>, val: Option<Value>): Table {
    if keys == [] then map[] else Filled(Front(keys), val)[Last(keys) := val]
  }

  lemma {:induction false} FilledHolds(keys: seq<Key>, val: Option<Value>)
    ensures forall k :: k in Filled(keys, val) <==> k in keys
    ensures forall k :: k in keys ==> Filled(keys, val)[k] == val
  {
    if keys != [] {
      FilledHolds(Front(keys), val);
      assert keys == Front(keys) + [Last(keys)];
    }
  }

  lemma {:induction false} FilledSize(keys: seq<Key>, val: Option<Value>)
    requires Readable(keys)
    ensures |Filled(keys, val).Keys| == |keys|
  {
    if keys != [] {
      FilledSize(Front(keys), val);
      FilledHolds(Front(keys), val);
      assert Last(keys) !in Front(keys);
      assert Filled(keys, val).Keys == Filled(Front(keys), val).Keys + {Last(keys)};
    }
  }

  /** What the table of many keys is to a round of compaction. */
  lemma FilledFits(keys: seq<Key>, val: Option<Value>)
    requires Readable(keys) && |keys| > TOO_MANY
    ensures var t := Filled(keys, val); t != map[] && |t.Keys| > TOO_MANY && WithinTop(t)
  {
    FilledHolds(keys, val);
    FilledSize(keys, val);
  }

  lemma RunHolds(t: Table, run: Run)
    requires run.entries == ListOf(t)
    ensures LevelTable([run]) == t && LevelSize([run]) == |t.Keys|
  {
    ListOfRoundTrip(t);
    LevelTableOne(run);
    SortedSize(t.Keys);
    assert [run][..0] == [];
  }

  // ----- Levels with one run above the bottom -----

  function OnlyAtBottom(bottom: Level): seq<Level> {
    [[], [], [], [], [], [], bottom]
  }

  function OnLevel(i: nat, run: Run, bottom: Level): seq<Level>
    requires i < 6
  {
    OnlyAtBottom(bottom)[i := [run]]
  }

  /** The run of table `t`, flushed as number `first`, after `k` rounds. */
  function RunAfter(t: Table, first: nat, k: nat): Run {
    Run(first + k, k, ListOf(t))
  }

  /** The tree whose only other run is at the bottom, after `k` rounds. */
  function Sunk(t: Table, first: nat, k: nat, bottom: Level): Tree
    requires k < 6
  {
    Tree(map[], OnLevel(k, RunAfter(t, first, k), bottom), first + k + 1, 0)
  }

  /** More entries than any level above the bottom may hold. */
  const TOO_MANY: nat := 10_240_000

  lemma TargetBelow(i: nat)
    requires i < 6
    ensures LevelTargetSize(i, SIZE_RATIO) <= TOO_MANY
  {
    assert Power(4, 2) == 4 * Power(4, 1) == 16;
    assert Power(4, 5) == 4 * Power(4, 4) == 16 * Power(4, 3) == 1024;
    assert Power(4, 3) == 64 && Power(4, 4) == 256;
  }

  lemma {:induction false} FirstIsLevel(levels: seq<Level>, j: nat, i: nat)
    requires |levels| == 7 && j <= i < 6 && LevelSize(levels[i]) > TOO_MANY
    requires forall l | j <= l < i :: levels[l] == []
    ensures FirstOversized(levels, j, 6, SIZE_RATIO) == Some(i)
    decreases i - j
  {
    if j < i {
      PowerPositive(SIZE_RATIO, j);
      FirstIsLevel(levels, j + 1, i);
    } else {
      TargetBelow(i);
    }
  }

  lemma ChoosesLevel(t: Table, i: nat, run: Run, bottom: Level, trigger: nat)
    requires i < 6 && |t.Keys| > TOO_MANY && run.entries == ListOf(t)
    ensures ChooseJob(OnLevel(i, run, bottom), 6, trigger) == Some(JobFor(OnLevel(i, run, bottom), i))
  {
    RunHolds(t, run);
    EmptyAbove(i, run, bottom);
    FirstIsLevel(OnLevel(i, run, bottom), 0, i);
  }

  lemma EmptyAbove(i: nat, run: Run, bottom: Level)
    requires i < 6
    ensures var levels := OnLevel(i, run, bottom);
            && levels[i] == [run]
            && levels[i + 1] == (if i == 5 then bottom else [])
            && forall l | 0 <= l < i :: levels[l] == []
  {
  }

  /** A round whose job is known. */
  lemma CompactedWith(levels: seq<Level>, i: nat, number: nat, trigger: nat)
    requires |levels| == 7 && i < 6 && ChooseJob(levels, 6, trigger) == Some(JobFor(levels, i))
    ensures Compacted(Tree(map[], levels, number, 0), 6, trigger) ==
            Tree(map[], Committed(levels, i, levels[i], levels[i + 1], number, 6), number + 1, 0)
  {
    var t := Tree(map[], levels, number, 0);
    CompactedIsCommit(t, 6, trigger);
  }

  lemma Shifted(i: nat, run: Run, output: Run, bottom: Level)
    requires i < 5
    ensures OnLevel(i, run, bottom)[i := []][i + 1 := [] + [output]] == OnLevel(i + 1, output, bottom)
  {
    assert [] + [output] == [output];
  }

  lemma ShiftedOut(run: Run, bottom: Level, after: Level)
    ensures OnLevel(5, run, bottom)[5 := []][6 := after] == OnlyAtBottom(after)
  {
  }

  lemma MergedAbove(t: Table, run: Run)
    requires run.entries == ListOf(t) && WithinTop(t)
    ensures Merged([run], [], false) == t
  {
    RunHolds(t, run);
    ScannedAll(t);
  }

  lemma CommitAbove(t: Table, i: nat, run: Run, bottom: Level, number: nat)
    requires i < 5 && t != map[] && WithinTop(t) && run.entries == ListOf(t)
    ensures Committed(OnLevel(i, run, bottom), i, [run], [], number, 6) ==
            OnLevel(i + 1, Run(number, i + 1, ListOf(t)), bottom)
  {
    EmptyAbove(i, run, bottom);
    MergedAbove(t, run);
    CommittedAt(OnLevel(i, run, bottom), i, [run], number, 6);
    assert [run][|[run]|..] == [];
    Shifted(i, run, Run(number, i + 1, ListOf(t)), bottom);
  }

  /** One round moves the run one level down. */
  lemma MoveDown(before: Tree, after: Tree, t: Table, i: nat, run: Run, next: Run, bottom: Level, trigger: nat)
    requires i < 5 && |t.Keys| > TOO_MANY && WithinTop(t) && run.entries == ListOf(t)
    requires before == Tree(map[], OnLevel(i, run, bottom), next.number, 0)
    requires next == Run(next.number, i + 1, ListOf(t))
    requires after == Tree(map[], OnLevel(i + 1, next, bottom), next.number + 1, 0)
    ensures Compacted(before, 6, trigger) == after
  {
    assert t != map[];
    ChoosesLevel(t, i, run, bottom, trigger);
    CompactedWith(OnLevel(i, run, bottom), i, next.number, trigger);
    EmptyAbove(i, run, bottom);
    CommitAbove(t, i, run, bottom, next.number);
  }

  lemma SinksOne(before: Tree, after: Tree, t: Table, first: nat, k: nat, bottom: Level, trigger: nat)
    requires k < 5 && |t.Keys| > TOO_MANY && WithinTop(t)
    requires before == Sunk(t, first, k, bottom) && after == Sunk(t, first, k + 1, bottom)
    ensures Compacted(before, 6, trigger) == after
  {
    MoveDown(before, after, t, k, RunAfter(t, first, k), RunAfter(t, first, k + 1), bottom, trigger);
  }

  lemma MergedAtBottom(t: Table, run: Run, bottom: Level)
    requires run.entries == ListOf(t) && WithinTop(t) && |bottom| <= 1 && WithinTop(LevelTable(bottom))
    ensures Merged([run], bottom, true) == DropTombstones(LevelTable(bottom) + t)
  {
    RunHolds(t, run);
    ScannedAll(t);
    FirstWinsOne(bottom);
    ScannedAll(LevelTable(bottom));
  }

  lemma CommitAtBottom(t: Table, run: Run, bottom: Level, number: nat)
    requires WithinTop(t) && run.entries == ListOf(t) && |bottom| <= 1 && WithinTop(LevelTable(bottom))
    ensures var merged := DropTombstones(LevelTable(bottom) + t);
            Committed(OnLevel(5, run, bottom), 5, [run], bottom, number, 6) ==
            OnlyAtBottom(if merged == map[] then bottom else [Run(number, 6, ListOf(merged))])
  {
    EmptyAbove(5, run, bottom);
    MergedAtBottom(t, run, bottom);
    CommittedAt(OnLevel(5, run, bottom), 5, [run], number, 6);
    assert [run][|[run]|..] == [];
    var merged := DropTombstones(LevelTable(bottom) + t);
    ShiftedOut(run, bottom, if merged == map[] then bottom else [Run(number, 6, ListOf(merged))]);
  }

  /** The last round merges it into the bottom run. */
  lemma MoveToBottom(t: Table, run: Run, bottom: Level, number: nat, trigger: nat)
    requires |t.Keys| > TOO_MANY && WithinTop(t) && run.entries == ListOf(t)
    requires |bottom| <= 1 && WithinTop(LevelTable(bottom))
    ensures var merged := DropTombstones(LevelTable(bottom) + t);
            Compacted(Tree(map[], OnLevel(5, run, bottom), number, 0), 6, trigger) ==
            Tree(map[], OnlyAtBottom(if merged == map[] then bottom else [Run(number, 6, ListOf(merged))]),
                 number + 1, 0)
  {
    ChoosesLevel(t, 5, run, bottom, trigger);
    CompactedWith(OnLevel(5, run, bottom), 5, number, trigger);
    EmptyAbove(5, run, bottom);
    CommitAtBottom(t, run, bottom, number);
  }

  // ----- The run -----

  function WriteAll(keys: seq<Key>, val: Option<Value>): seq<Step> {
    if keys == [] then [] else WriteAll(Front(keys), val) + [WriteOne(Last(keys), val)]
  }

  function CompactTimes(k: nat): seq<Step> {
    if k == 0 then [] else CompactTimes(k - 1) + [Call(Operation.Compact)]
  }

  function FlushSteps(): seq<Step> {
    [StartFlush, FinishFlush]
  }

  function Quiet(t: Tree): State {
    State(t, None, map[], Idle)
  }

  function WriteOne(key: Key, val: Option<Value>): Step {
    Call(if val.Some? then Insert(key, val.value) else Delete(key))
  }

  lemma ExecWriteOne(c: Config, trace: seq<Step>, t: Tree, keys: seq<Key>, val: Option<Value>, next: seq<Step>)
    requires c.maxLevel > 0 && keys != [] && next == trace + [WriteOne(Last(keys), val)]
    requires Exec(c, Init(c), trace).state == Quiet(t.(mem := Filled(Front(keys), val)))
    ensures Exec(c, Init(c), next).state == Quiet(t.(mem := Filled(keys, val)))
  {
    ExecStep(c, trace, WriteOne(Last(keys), val));
  }

  lemma {:induction false} ExecWriteAll(c: Config, trace: seq<Step>, t: Tree, keys: seq<Key>, val: Option<Value>)
    requires c.maxLevel > 0 && t.mem == map[] && Exec(c, Init(c), trace).state == Quiet(t)
    ensures Exec(c, Init(c), trace + WriteAll(keys, val)).state == Quiet(t.(mem := Filled(keys, val)))
  {
    if keys == [] {
      assert trace + [] == trace;
    } else {
      ExecWriteAll(c, trace, t, Front(keys), val);
      assert trace + WriteAll(keys, val) == trace + WriteAll(Front(keys), val) + [WriteOne(Last(keys), val)];
      ExecWriteOne(c, trace + WriteAll(Front(keys), val), t, keys, val, trace + WriteAll(keys, val));
    }
  }

  lemma ExecFlush(c: Config, trace: seq<Step>, t: Tree)
    requires c.maxLevel > 0 && |t.levels| == c.maxLevel + 1 && t.mem != map[]
    requires Exec(c, Init(c), trace).state == Quiet(t)
    ensures Exec(c, Init(c), trace + FlushSteps()).state == Quiet(Flushed(t))
  {
    ExecStep(c, trace, StartFlush);
    ExecStep(c, trace + [StartFlush], FinishFlush);
    assert trace + FlushSteps() == trace + [StartFlush] + [FinishFlush];
  }

  lemma ExecCompact(c: Config, trace: seq<Step>, t: Tree)
    requires c.maxLevel > 0 && |t.levels| == c.maxLevel + 1 && Exec(c, Init(c), trace).state == Quiet(t)
    ensures Exec(c, Init(c), trace + [Call(Operation.Compact)]).state ==
            Quiet(Compacted(t, c.maxLevel, c.level0Trigger))
  {
    ExecStep(c, trace, Call(Operation.Compact));
  }

  lemma ExecMoveOne(c: Config, trace: seq<Step>, t: Table, first: nat, bottom: Level, k: nat, next: seq<Step>)
    requires next == trace + [Call(Operation.Compact)] && c.maxLevel == 6 && k < 5
    requires |t.Keys| > TOO_MANY && WithinTop(t)
    requires Exec(c, Init(c), trace).state == Quiet(Sunk(t, first, k, bottom))
    ensures Exec(c, Init(c), next).state == Quiet(Sunk(t, first, k + 1, bottom))
  {
    var before, after := Sunk(t, first, k, bottom), Sunk(t, first, k + 1, bottom);
    SinksOne(before, after, t, first, k, bottom, c.level0Trigger);
    ExecCompact(c, trace, before);
  }

  /** Five rounds take a run from L0 to L5. */
  lemma {:induction false} ExecMoveDown(c: Config, trace: seq<Step>, t: Table, first: nat, bottom: Level, k: nat)
    requires c.maxLevel == 6 && k <= 5 && |t.Keys| > TOO_MANY && WithinTop(t)
    requires Exec(c, Init(c), trace).state == Quiet(Sunk(t, first, 0, bottom))
    ensures Exec(c, Init(c), trace + CompactTimes(k)).state ==
            Quiet(Sunk(t, first, k, bottom))
  {
    if k == 0 {
      assert trace + [] == trace;
    } else {
      ExecMoveDown(c, trace, t, first, bottom, k - 1);
      assert trace + CompactTimes(k) == trace + CompactTimes(k - 1) + [Call(Operation.Compact)];
      ExecMoveOne(c, trace + CompactTimes(k - 1), t, first, bottom, k - 1, trace + CompactTimes(k));
    }
  }

  lemma ExecFiveRounds(c: Config, trace: seq<Step>, t: Table, first: nat, bottom: Level, next: seq<Step>)
    requires next == trace + CompactTimes(5) && c.maxLevel == 6 && |t.Keys| > TOO_MANY && WithinTop(t)
    requires Exec(c, Init(c), trace).state == Quiet(Sunk(t, first, 0, bottom))
    ensures Exec(c, Init(c), next).state == Quiet(Sunk(t, first, 5, bottom))
  {
    ExecMoveDown(c, trace, t, first, bottom, 5);
  }

  lemma ExecToBottom(c: Config, trace: seq<Step>, t: Table, first: nat, bottom: Level)
    requires c.maxLevel == 6 && |t.Keys| > TOO_MANY && WithinTop(t)
    requires |bottom| <= 1 && WithinTop(LevelTable(bottom))
    requires Exec(c, Init(c), trace).state == Quiet(Sunk(t, first, 5, bottom))
    ensures var merged := DropTombstones(LevelTable(bottom) + t);
            Exec(c, Init(c), trace + [Call(Operation.Compact)]).state ==
            Quiet(Tree(map[], OnlyAtBottom(if merged == map[] then bottom else [Run(first + 6, 6, ListOf(merged))]),
                       first + 7, 0))
  {
    ExecCompact(c, trace, Sunk(t, first, 5, bottom));
    MoveToBottom(t, RunAfter(t, first, 5), bottom, first + 6, c.level0Trigger);
  }

  /** Write or delete all keys, flush, and compact five times: the run stands on L5, above what was at the bottom. */
  function DownToL5(keys: seq<Key>, val: Option<Value>): seq<Step> {
    WriteAll(keys, val) + FlushSteps() + CompactTimes(5)
  }

  lemma ExecOntoL0(c: Config, trace: seq<Step>, bottom: Level, first: nat, keys: seq<Key>, val: Option<Value>,
                   next: seq<Step>)
    requires c.maxLevel == 6 && Filled(keys, val) != map[] && next == trace + WriteAll(keys, val) + FlushSteps()
    requires Exec(c, Init(c), trace).state == Quiet(Tree(map[], OnlyAtBottom(bottom), first, 0))
    ensures Exec(c, Init(c), next).state ==
            Quiet(Sunk(Filled(keys, val), first, 0, bottom))
  {
    ExecWriteAll(c, trace, Tree(map[], OnlyAtBottom(bottom), first, 0), keys, val);
    ExecFlush(c, trace + WriteAll(keys, val), Tree(Filled(keys, val), OnlyAtBottom(bottom), first, 0));
    FlushedOntoL0(bottom, first, Filled(keys, val));
  }

  lemma DownInTwo(trace: seq<Step>, keys: seq<Key>, val: Option<Value>) returns (flushed: seq<Step>, next: seq<Step>)
    ensures flushed == trace + WriteAll(keys, val) + FlushSteps()
    ensures next == trace + DownToL5(keys, val) == flushed + CompactTimes(5)
  {
    flushed, next := trace + WriteAll(keys, val) + FlushSteps(), trace + DownToL5(keys, val);
  }

  lemma ExecDownToL5(c: Config, trace: seq<Step>, bottom: Level, first: nat, keys: seq<Key>, val: Option<Value>)
    returns (next: seq<Step>)
    requires c.maxLevel == 6 && Readable(keys) && |keys| > TOO_MANY
    requires Exec(c, Init(c), trace).state == Quiet(Tree(map[], OnlyAtBottom(bottom), first, 0))
    ensures next == trace + DownToL5(keys, val)
    ensures Exec(c, Init(c), next).state ==
            Quiet(Sunk(Filled(keys, val), first, 5, bottom))
  {
    var flushed;
    flushed, next := DownInTwo(trace, keys, val);
    FilledFits(keys, val);
    ExecOntoL0(c, trace, bottom, first, keys, val, flushed);
    ExecFiveRounds(c, flushed, Filled(keys, val), first, bottom, next);
  }

  lemma FlushedOntoL0(bottom: Level, first: nat, t: Table)
    requires t != map[]
    ensures Flushed(Tree(t, OnlyAtBottom(bottom), first, 0)) ==
            Sunk(t, first, 0, bottom)
  {
    assert [] + [RunAfter(t, first, 0)] == [RunAfter(t, first, 0)];
  }

  // ----- What readers see -----

  lemma SeenAtBottom(bottom: Level, nextRun: nat)
    ensures View(Quiet(Tree(map[], OnlyAtBottom(bottom), nextRun, 0))) == LevelTable(bottom)
  {
    var levels: seq<Level> := OnlyAtBottom(bottom);
    assert levels == [[], [], [], [], []] + [[], bottom] + [];
    TableOfTwo([[], [], [], [], []], [], bottom, []);
    assert LevelTable([]) == map[];
    assert LevelTable(bottom) + map[] + (map[] + map[]) == LevelTable(bottom);
  }

  lemma SeenOnL5(run: Run, bottom: Level, nextRun: nat)
    ensures View(Quiet(Tree(map[], OnLevel(5, run, bottom), nextRun, 0))) == LevelTable(bottom) + LevelTable([run])
  {
    var levels: seq<Level> := OnLevel(5, run, bottom);
    assert levels == [[], [], [], [], []] + [[run], bottom] + [];
    TableOfTwo([[], [], [], [], []], [run], bottom, []);
    assert LevelTable(bottom) + LevelTable([run]) + (map[] + map[]) == LevelTable(bottom) + LevelTable([run]);
  }

  lemma Hides(keys: seq<Key>, v: Value)
    ensures Filled(keys, Some(v)) + Filled(keys, None) == Filled(keys, None)
    ensures Live(Filled(keys, None)) == map[] && DropTombstones(Filled(keys, None)) == map[]
    ensures DropTombstones(Filled(keys, Some(v))) == Filled(keys, Some(v))
  {
    FilledHolds(keys, None);
    FilledHolds(keys, Some(v));
    assert (Filled(keys, Some(v)) + Filled(keys, None)).Keys == Filled(keys, None).Keys;
  }

  function WrittenDown(keys: seq<Key>, v: Value): seq<Step> {
    DownToL5(keys, Some(v)) + [Call(Operation.Compact)]
  }

  function DeletedDown(keys: seq<Key>, v: Value): seq<Step> {
    WrittenDown(keys, v) + DownToL5(keys, None)
  }

  /** The first half: all entries live in one run at the bottom. */
  lemma WrittenEnds(c: Config, keys: seq<Key>, v: Value)
    requires c.maxLevel == 6 && Readable(keys) && |keys| > TOO_MANY
    ensures Exec(c, Init(c), WrittenDown(keys, v)).state ==
            Quiet(Tree(map[], OnlyAtBottom([Run(7, 6, ListOf(Filled(keys, Some(v))))]), 8, 0))
  {
    var table := Filled(keys, Some(v));
    FilledFits(keys, Some(v));
    Hides(keys, v);
    assert Init(c) == Quiet(Tree(map[], OnlyAtBottom([]), 1, 0));
    var next := ExecDownToL5(c, [], [], 1, keys, Some(v));
    assert [] + DownToL5(keys, Some(v)) == DownToL5(keys, Some(v));
    EmptyBottom(table);
    ExecToBottom(c, DownToL5(keys, Some(v)), table, 1, []);
  }

  lemma EmptyBottom(t: Table)
    ensures LevelTable([]) == map[] && LevelTable([]) + t == t
  {
  }

  lemma DeletedEnds(c: Config, keys: seq<Key>, v: Value)
    requires c.maxLevel == 6 && Readable(keys) && |keys| > TOO_MANY
    ensures var bottom := [Run(7, 6, ListOf(Filled(keys, Some(v))))];
            && Exec(c, Init(c), DeletedDown(keys, v)).state ==
               Quiet(Sunk(Filled(keys, None), 8, 5, bottom))
            && Exec(c, Init(c), DeletedDown(keys, v) + [Call(Operation.Compact)]).state ==
               Quiet(Tree(map[], OnlyAtBottom(bottom), 15, 0))
  {
    var bottom := [Run(7, 6, ListOf(Filled(keys, Some(v))))];
    WrittenEnds(c, keys, v);
    var next := ExecDownToL5(c, WrittenDown(keys, v), bottom, 8, keys, None);
    FilledFits(keys, None);
    FilledFits(keys, Some(v));
    RunHolds(Filled(keys, Some(v)), bottom[0]);
    Hides(keys, v);
    ExecToBottom(c, DeletedDown(keys, v), Filled(keys, None), 8, bottom);
  }

  /**
   Any distinct keys that compaction reads, more of them than L5 may have entries,
   in a new tree with any trigger: written and compacted to the bottom, deleted,
   flushed, and compacted five times, they are gone; the sixth round of compaction
   brings every one of them back.
   */
  lemma BottomMergeResurrects(keys: seq<Key>, v: Value, trigger: nat)
    requires Readable(keys) && |keys| > TOO_MANY
    ensures var c := Config(6, trigger);
            && Live(View(Exec(c, Init(c), DeletedDown(keys, v)).state)) == map[]
            && Live(View(Exec(c, Init(c), DeletedDown(keys, v) + [Call(Operation.Compact)]).state)) ==
               map k | k in keys :: v
  {
    DeletedEnds(Config(6, trigger), keys, v);
    SeenAfterDeletion(keys, v);
    SeenAfterMerge(keys, v);
  }

  /** 10,240,001 keys of four bytes each will do. */
  lemma FourByteKeysResurrect(v: Value, trigger: nat)
    ensures var c, keys := Config(6, trigger), FourByteKeys(TOO_MANY + 1);
            && Live(View(Exec(c, Init(c), DeletedDown(keys, v)).state)) == map[]
            && Live(View(Exec(c, Init(c), DeletedDown(keys, v) + [Call(Operation.Compact)]).state)) ==
               map k | k in keys :: v
  {
    FourByteKeysReadable(TOO_MANY + 1);
    BottomMergeResurrects(FourByteKeys(TOO_MANY + 1), v, trigger);
  }

  lemma SeenAfterDeletion(keys: seq<Key>, v: Value)
    ensures var bottom := [Run(7, 6, ListOf(Filled(keys, Some(v))))];
            Live(View(Quiet(Sunk(Filled(keys, None), 8, 5, bottom)))) == map[]
  {
    var live, tombs := Filled(keys, Some(v)), Filled(keys, None);
    var bottom := [Run(7, 6, ListOf(live))];
    RunHolds(live, bottom[0]);
    RunHolds(tombs, RunAfter(tombs, 8, 5));
    SeenOnL5(RunAfter(tombs, 8, 5), bottom, 14);
    Hides(keys, v);
  }

  lemma SeenAfterMerge(keys: seq<Key>, v: Value)
    ensures var bottom := [Run(7, 6, ListOf(Filled(keys, Some(v))))];
            Live(View(Quiet(Tree(map[], OnlyAtBottom(bottom), 15, 0)))) == map k | k in keys :: v
  {
    var live := Filled(keys, Some(v));
    var bottom := [Run(7, 6, ListOf(live))];
    RunHolds(live, bottom[0]);
    SeenAtBottom(bottom, 15);
    FilledHolds(keys, Some(v));
  }
}
