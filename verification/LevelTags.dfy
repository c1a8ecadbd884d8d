/**
 The level tags of runs. Flushes and rounds tag a run with the level they put it
 on; `compact_all` tags its output 0 and puts it at the bottom.
 */
module LevelTags {
  import opened Levels
  import opened Compaction
  import opened CompactionView
  import opened TreeState
  import opened Reference
  import opened Interleaving
  import opened InterleavingStructure

  /** Every run is tagged with the level it is kept on. */
  ghost predicate TagsRight(levels: seq<Level>) {
    forall i, p | 0 <= i < |levels| && 0 <= p < |levels[i]| :: levels[i][p].level == i
  }

  /** The bottom run's tag is right or, if that is allowed, 0 with a number below those of L0. */
  ghost predicate BottomRunTagged(run: Run, maxLevel: nat, top: Level, zeroAllowed: bool) {
    run.level == maxLevel ||
    (zeroAllowed && run.level == 0 && forall q | 0 <= q < |top| :: run.number < top[q].number)
  }

  ghost predicate BottomTagged(levels: seq<Level>, maxLevel: nat, zeroAllowed: bool) {
    && |levels| == maxLevel + 1
    && (forall i, p | 0 <= i < maxLevel && 0 <= p < |levels[i]| :: levels[i][p].level == i)
    && forall p | 0 <= p < |levels[maxLevel]| :: BottomRunTagged(levels[maxLevel][p], maxLevel, levels[0], zeroAllowed)
  }

  lemma TagsRightMeans(levels: seq<Level>, maxLevel: nat)
    requires |levels| == maxLevel + 1
    ensures BottomTagged(levels, maxLevel, false) <==> TagsRight(levels)
  {
    if TagsRight(levels) {
      assert forall p | 0 <= p < |levels[maxLevel]| :: levels[maxLevel][p].level == maxLevel;
    }
    if BottomTagged(levels, maxLevel, false) {
      forall i, p | 0 <= i < |levels| && 0 <= p < |levels[i]| ensures levels[i][p].level == i {
        if i == maxLevel {
          assert BottomRunTagged(levels[maxLevel][p], maxLevel, levels[0], false);
        }
      }
    }
  }

  /** A run on its way to L0 is tagged 0 and newer than a bottom run tagged 0. */
  ghost predicate FlushTagged(run: Run, levels: seq<Level>, maxLevel: nat)
    requires |levels| == maxLevel + 1
  {
    && run.level == 0
    && forall p | 0 <= p < |levels[maxLevel]| ::
         levels[maxLevel][p].level == maxLevel || levels[maxLevel][p].number < run.number
  }

  ghost predicate TagsOk(c: Config, s: State, zeroAllowed: bool)
    requires Shape(c, s)
  {
    && BottomTagged(s.tree.levels, c.maxLevel, zeroAllowed)
    && (s.flushing.Some? ==> FlushTagged(s.flushing.value, s.tree.levels, c.maxLevel))
    && forall id | id in s.snapshots :: BottomTagged(s.snapshots[id].levels, c.maxLevel, zeroAllowed)
  }

  lemma PushTagged(levels: seq<Level>, run: Run, maxLevel: nat, zeroAllowed: bool)
    requires maxLevel > 0 && BottomTagged(levels, maxLevel, zeroAllowed) && FlushTagged(run, levels, maxLevel)
    ensures BottomTagged(levels[0 := levels[0] + [run]], maxLevel, zeroAllowed)
  {
    var pushed := levels[0 := levels[0] + [run]];
    forall p | 0 <= p < |pushed[maxLevel]|
      ensures BottomRunTagged(pushed[maxLevel][p], maxLevel, pushed[0], zeroAllowed)
    {
      assert BottomRunTagged(levels[maxLevel][p], maxLevel, levels[0], zeroAllowed);
    }
  }

  /** A round leaves of its source level a suffix, and tags what it pushes with the level it pushes it on. */
  lemma CommitTagged(levels: seq<Level>, i: nat, copy: Level, number: nat, maxLevel: nat, zeroAllowed: bool)
    requires i < maxLevel && BottomTagged(levels, maxLevel, zeroAllowed) && copy <= levels[i]
    ensures BottomTagged(Committed(levels, i, copy, levels[i + 1], number, maxLevel), maxLevel, zeroAllowed)
  {
    CommittedAt(levels, i, copy, number, maxLevel);
    var output := OutputRun(Merged(copy, levels[i + 1], i + 1 == maxLevel), number, i + 1);
    var target := if output.None? then levels[i + 1]
                  else if i + 1 == maxLevel then [output.value]
                  else levels[i + 1] + [output.value];
    ReplacedTagged(levels, i, levels[i][|copy|..], target, maxLevel, zeroAllowed);
  }

  lemma ReplacedTagged(levels: seq<Level>, i: nat, rest: Level, target: Level, maxLevel: nat, zeroAllowed: bool)
    requires i < maxLevel && BottomTagged(levels, maxLevel, zeroAllowed)
    requires |rest| <= |levels[i]| && rest == levels[i][|levels[i]| - |rest|..]
    requires target == levels[i + 1] || (|target| == 1 && target[0].level == maxLevel == i + 1)
             || (i + 1 < maxLevel && forall p | 0 <= p < |target| :: target[p].level == i + 1)
    ensures BottomTagged(levels[i := rest][i + 1 := target], maxLevel, zeroAllowed)
  {
    var after := levels[i := rest][i + 1 := target];
    assert forall p | 0 <= p < |rest| :: rest[p] == levels[i][|levels[i]| - |rest| + p];
    forall p | 0 <= p < |after[maxLevel]| ensures BottomRunTagged(after[maxLevel][p], maxLevel, after[0], zeroAllowed) {
      if after[maxLevel] == levels[maxLevel] {
        assert BottomRunTagged(levels[maxLevel][p], maxLevel, levels[0], zeroAllowed);
      }
    }
  }

  lemma CommitFlushTagged(levels: seq<Level>, i: nat, copy: Level, number: nat, maxLevel: nat, run: Run)
    requires i < maxLevel && |levels| == maxLevel + 1 && copy <= levels[i] && FlushTagged(run, levels, maxLevel)
    ensures FlushTagged(run, Committed(levels, i, copy, levels[i + 1], number, maxLevel), maxLevel)
  {
    CommittedAt(levels, i, copy, number, maxLevel);
  }

  lemma AllBelowFlushTagged(levels: seq<Level>, maxLevel: nat, run: Run)
    requires |levels| == maxLevel + 1 && AllBelow(levels[maxLevel], run.number) && run.level == 0
    ensures FlushTagged(run, levels, maxLevel)
  {
  }

  lemma StartFlushTagsOk(c: Config, s: State, zeroAllowed: bool)
    requires StateOk(c, s) && TagsOk(c, s, zeroAllowed) && Enabled(s, StartFlush)
    ensures Shape(c, Next(c, s, StartFlush)) && TagsOk(c, Next(c, s, StartFlush), zeroAllowed)
  {
    NextKeepsShape(c, s, StartFlush);
    if s.tree.mem != map[] {
      AllBelowNext(s.tree.levels, c.maxLevel, s.tree.nextRun);
      AllBelowFlushTagged(s.tree.levels, c.maxLevel, FlushedRun(s.tree).value);
    }
  }

  lemma WriteBackTagsOk(c: Config, s: State, zeroAllowed: bool)
    requires StateOk(c, s) && TagsOk(c, s, zeroAllowed) && Enabled(s, WriteBack)
    ensures Shape(c, Next(c, s, WriteBack)) && TagsOk(c, Next(c, s, WriteBack), zeroAllowed)
  {
    NextKeepsShape(c, s, WriteBack);
    WrittenBackLevels(c, s);
    var Ready(gen, copy, job, number, result) := s.round;
    if gen == s.tree.generation {
      var levels, i := s.tree.levels, job.sourceLevel;
      CopyIsFront(levels, copy, i);
      WriteBackIsCommit(levels, copy, i, number, c.maxLevel);
      CommitTagged(levels, i, copy[i], number, c.maxLevel, zeroAllowed);
      if s.flushing.Some? {
        CommitFlushTagged(levels, i, copy[i], number, c.maxLevel, s.flushing.value);
      }
    }
  }

  lemma CompactTagged(t: Tree, maxLevel: nat, level0Trigger: nat, zeroAllowed: bool)
    requires maxLevel > 0 && BottomTagged(t.levels, maxLevel, zeroAllowed)
    ensures BottomTagged(Compacted(t, maxLevel, level0Trigger).levels, maxLevel, zeroAllowed)
  {
    CompactedIsCommit(t, maxLevel, level0Trigger);
    var chosen := ChooseJob(t.levels, maxLevel, level0Trigger);
    if chosen.Some? {
      var i := chosen.value.sourceLevel;
      CommitTagged(t.levels, i, t.levels[i], t.nextRun, maxLevel, zeroAllowed);
    }
  }

  /** `compact_all` leaves nothing in L0, so that its tag of 0 is below all numbers there. */
  lemma CompactAllTagged(t: Tree, maxLevel: nat)
    requires maxLevel > 0 && BottomTagged(t.levels, maxLevel, true)
    ensures BottomTagged(CompactedAll(t, maxLevel).levels, maxLevel, true)
  {
  }

  lemma CallTagsOk(c: Config, s: State, op: Operation, zeroAllowed: bool)
    requires StateOk(c, s) && TagsOk(c, s, zeroAllowed) && Enabled(s, Call(op))
    ensures Shape(c, Called(c, s, op)) && TagsOk(c, Called(c, s, op), zeroAllowed)
  {
    NextKeepsShape(c, s, Call(op));
    match op
    case Compact => CompactTagged(s.tree, c.maxLevel, c.level0Trigger, zeroAllowed);
    case _ =>
  }

  /** Tags stay as they are allowed to be; only `compact_all` needs 0 to be allowed at the bottom. */
  lemma NextTagsOk(c: Config, s: State, step: Step, zeroAllowed: bool)
    requires StateOk(c, s) && TagsOk(c, s, zeroAllowed) && Enabled(s, step)
    requires step.CompactAll? ==> zeroAllowed
    ensures Shape(c, Next(c, s, step)) && TagsOk(c, Next(c, s, step), zeroAllowed)
  {
    NextKeepsShape(c, s, step);
    match step
    case Call(op) => CallTagsOk(c, s, op, zeroAllowed);
    case StartFlush => StartFlushTagsOk(c, s, zeroAllowed);
    case FinishFlush => PushTagged(s.tree.levels, s.flushing.value, c.maxLevel, zeroAllowed);
    case WriteBack => WriteBackTagsOk(c, s, zeroAllowed);
    case CompactAll => CompactAllTagged(s.tree, c.maxLevel);
    case _ =>
  }

  lemma InitTagsOk(c: Config, zeroAllowed: bool)
    requires c.maxLevel > 0
    ensures StateOk(c, Init(c)) && TagsOk(c, Init(c), zeroAllowed)
  {
    InitOk(c);
  }

  /**
   In every reachable state runs above the bottom are tagged with their level,
   and the bottom run with its level or with 0, below all numbers of L0.
   */
  lemma {:induction false} AlwaysTagsOk(c: Config, start: State, trace: seq<Step>, zeroAllowed: bool)
    requires StateOk(c, start) && TagsOk(c, start, zeroAllowed) && KeysWithinTop(trace)
    requires zeroAllowed || forall i | 0 <= i < |trace| :: !trace[i].CompactAll?
    ensures TagsOk(c, Exec(c, start, trace).state, zeroAllowed)
  {
    if trace != [] {
      var init, step := trace[..|trace| - 1], trace[|trace| - 1];
      assert forall i | 0 <= i < |init| :: init[i] == trace[i];
      AlwaysStateOk(c, start, init);
      AlwaysTagsOk(c, start, init, zeroAllowed);
      var s := Exec(c, start, init).state;
      if Enabled(s, step) {
        NextTagsOk(c, s, step, zeroAllowed);
      }
    }
  }

  /** Until `compact_all` is called, every run is tagged with its level. */
  lemma TagsRightWithoutCompactAll(c: Config, trace: seq<Step>)
    requires c.maxLevel > 0 && KeysWithinTop(trace) && forall i | 0 <= i < |trace| :: !trace[i].CompactAll?
    ensures TagsRight(Exec(c, Init(c), trace).state.tree.levels)
  {
    InitTagsOk(c, false);
    AlwaysTagsOk(c, Init(c), trace, false);
    TagsRightMeans(Exec(c, Init(c), trace).state.tree.levels, c.maxLevel);
  }
}
