/**
 What every vector of levels in the tree, in a snapshot or in a reopened tree
 built by the tree itself satisfies.
 */
module LevelInvariant {
  import opened Keys
  import opened Entries
  import opened Levels
  import opened Compaction
  import opened CompactionView

  /** A run on disk, numbered before `bound`; its tag may be that of another level. */
  ghost predicate RunOk(run: Run, bound: nat) {
    && run.entries != []
    && Ascending(run.entries)
    && WithinTop(ToTable(run.entries))
    && run.number < bound
  }

  ghost predicate LevelOk(level: Level, bound: nat) {
    && (forall p | 0 <= p < |level| :: RunOk(level[p], bound))
    && (forall p, q | 0 <= p < q < |level| :: level[p].number != level[q].number)
  }

  ghost function Numbers(level: Level): set<nat> {
    set p | 0 <= p < |level| :: level[p].number
  }

  ghost predicate NoTombstones(t: Table) {
    forall k | k in t :: t[k].Some?
  }

  /**
   Runs are sorted; all numbers are distinct and below `bound`; the bottom level
   has at most one run, and that run has no tombstones. Vectors need not be in
   number order: a reopened tree's are not. Runs need not be tagged with their
   level: `compact_all`'s are not.
   */
  ghost predicate LevelsOk(levels: seq<Level>, maxLevel: nat, bound: nat) {
    && |levels| == maxLevel + 1
    && (forall i | 0 <= i < |levels| :: LevelOk(levels[i], bound))
    && (forall i, j | 0 <= i < j < |levels| :: Numbers(levels[i]) !! Numbers(levels[j]))
    && |levels[maxLevel]| <= 1
    && NoTombstones(LevelTable(levels[maxLevel]))
  }

  lemma LevelsOkWeaken(levels: seq<Level>, maxLevel: nat, bound: nat, bound': nat)
    requires LevelsOk(levels, maxLevel, bound) && bound <= bound'
    ensures LevelsOk(levels, maxLevel, bound')
  {
    forall i | 0 <= i < |levels| ensures LevelOk(levels[i], bound') {
      assert LevelOk(levels[i], bound);
      assert forall p | 0 <= p < |levels[i]| :: RunOk(levels[i][p], bound);
    }
  }

  lemma LevelOkNumbers(level: Level, bound: nat)
    requires LevelOk(level, bound)
    ensures AllBelow(level, bound) && forall n | n in Numbers(level) :: n < bound
  {
    assert forall p | 0 <= p < |level| :: RunOk(level[p], bound);
  }

  lemma LevelOkTable(level: Level, bound: nat)
    requires LevelOk(level, bound)
    ensures WithinTop(LevelTable(level))
    ensures WellFormed(level)
  {
    forall k | k in LevelTable(level) ensures Le(k, TOP_KEY) {
      LevelTableKeys(level, k);
      var run :| run in level && k in ToTable(run.entries);
      var p :| 0 <= p < |level| && level[p] == run;
      assert RunOk(level[p], bound);
    }
    forall p | 0 <= p < |level| ensures level[p].entries != [] && Ascending(level[p].entries) {
      assert RunOk(level[p], bound);
    }
  }

  lemma LevelOkFront(level: Level, copy: Level, bound: nat)
    requires LevelOk(level, bound) && copy <= level
    ensures LevelOk(copy, bound) && LevelOk(level[|copy|..], bound)
    ensures Numbers(level[|copy|..]) <= Numbers(level)
  {
    var rest := level[|copy|..];
    assert forall p | 0 <= p < |copy| :: copy[p] == level[p];
    assert forall p | 0 <= p < |rest| :: rest[p] == level[p + |copy|];
    forall n | n in Numbers(rest) ensures n in Numbers(level) {
      var p :| 0 <= p < |rest| && rest[p].number == n;
      assert level[p + |copy|].number == n;
    }
  }

  lemma LevelOkPush(level: Level, run: Run, bound: nat)
    requires LevelOk(level, bound) && RunOk(run, bound) && AllBelow(level, run.number)
    ensures LevelOk(level + [run], bound)
    ensures Numbers(level + [run]) == Numbers(level) + {run.number}
  {
    var level' := level + [run];
    assert level'[|level|] == run;
    forall n | n in Numbers(level) ensures n in Numbers(level') {
      var p :| 0 <= p < |level| && level[p].number == n;
      assert level'[p].number == n;
    }
    forall n | n in Numbers(level') ensures n in Numbers(level) + {run.number} {
      var p :| 0 <= p < |level'| && level'[p].number == n;
      if p < |level| {
        assert level[p].number == n;
      }
    }
  }

  ghost predicate Unused(number: nat, levels: seq<Level>) {
    forall i | 0 <= i < |levels| :: number !in Numbers(levels[i])
  }

  /** Pushing a fresh, newest run on L0. */
  lemma PushKeepsLevelsOk(levels: seq<Level>, run: Run, maxLevel: nat, bound: nat)
    requires maxLevel > 0 && LevelsOk(levels, maxLevel, bound)
    requires RunOk(run, bound) && AllBelow(levels[0], run.number) && Unused(run.number, levels)
    ensures LevelsOk(levels[0 := levels[0] + [run]], maxLevel, bound)
  {
    var after := levels[0 := levels[0] + [run]];
    assert LevelOk(levels[0], bound);
    LevelOkPush(levels[0], run, bound);
    forall i | 0 <= i < |after| ensures LevelOk(after[i], bound) {
      assert LevelOk(levels[i], bound);
    }
    forall i, j | 0 <= i < j < |after| ensures Numbers(after[i]) !! Numbers(after[j]) {
      assert Numbers(levels[i]) !! Numbers(levels[j]) && run.number !in Numbers(levels[j]);
    }
  }

  /** A run made from a merge. */
  lemma OutputRunOk(t: Table, number: nat, i: nat, bound: nat)
    requires WithinTop(t) && number < bound && t != map[]
    ensures RunOk(OutputRun(t, number, i).value, bound)
  {
    ListOfRoundTrip(t);
    assert ListOf(t) == [] ==> ToTable(ListOf(t)) == map[];
  }

  lemma MergedWithinTop(sources: Level, targets: Level, isBottomLevel: bool)
    ensures WithinTop(Merged(sources, targets, isBottomLevel))
    ensures isBottomLevel ==> NoTombstones(Merged(sources, targets, isBottomLevel))
  {
  }

  lemma ReplaceTwo(levels: seq<Level>, i: nat, rest: Level, target: Level, number: nat, maxLevel: nat, bound: nat)
    requires i < maxLevel && LevelsOk(levels, maxLevel, bound) && Unused(number, levels)
    requires LevelOk(rest, bound) && Numbers(rest) <= Numbers(levels[i])
    requires LevelOk(target, bound) && Numbers(target) <= Numbers(levels[i + 1]) + {number}
    requires i + 1 == maxLevel ==> |target| <= 1 && NoTombstones(LevelTable(target))
    ensures LevelsOk(levels[i := rest][i + 1 := target], maxLevel, bound)
  {
    var after := levels[i := rest][i + 1 := target];
    forall p, q | 0 <= p < q < |after| ensures Numbers(after[p]) !! Numbers(after[q]) {
      assert Numbers(levels[p]) !! Numbers(levels[q]);
      assert number !in Numbers(levels[p]) && number !in Numbers(levels[q]);
    }
  }

  /** The target level after a commit. */
  lemma TargetOk(copy: Level, target: Level, number: nat, i: nat, maxLevel: nat, bound: nat)
    requires i < maxLevel && LevelOk(target, bound) && number < bound && AllBelow(target, number)
    requires i + 1 == maxLevel ==> |target| <= 1 && NoTombstones(LevelTable(target))
    ensures var output := OutputRun(Merged(copy, target, i + 1 == maxLevel), number, i + 1);
            var target' := if output.None? then target
                           else if i + 1 == maxLevel then [output.value]
                           else target + [output.value];
            && LevelOk(target', bound)
            && Numbers(target') <= Numbers(target) + {number}
            && (i + 1 == maxLevel ==> |target'| <= 1 && NoTombstones(LevelTable(target')))
  {
    var bottom := i + 1 == maxLevel;
    var merged := Merged(copy, target, bottom);
    var output := OutputRun(merged, number, i + 1);
    MergedWithinTop(copy, target, bottom);
    if output.Some? {
      OutputRunOk(merged, number, i + 1, bound);
      if bottom {
        OutputTable(merged, number, i + 1);
        LevelOkPush([], output.value, bound);
        assert [] + [output.value] == [output.value];
      } else {
        LevelOkPush(target, output.value, bound);
      }
    }
  }

  /** Committing a merge under a fresh number. */
  lemma CommitKeepsLevelsOk(levels: seq<Level>, i: nat, copy: Level, number: nat, maxLevel: nat, bound: nat)
    requires i < maxLevel && LevelsOk(levels, maxLevel, bound) && copy <= levels[i]
    requires number < bound && AllBelow(levels[i + 1], number) && Unused(number, levels)
    ensures LevelsOk(Committed(levels, i, copy, levels[i + 1], number, maxLevel), maxLevel, bound)
  {
    var target := levels[i + 1];
    var output := OutputRun(Merged(copy, target, i + 1 == maxLevel), number, i + 1);
    var target' := if output.None? then target
                   else if i + 1 == maxLevel then [output.value]
                   else target + [output.value];
    CommittedAt(levels, i, copy, number, maxLevel);
    LevelOkFront(levels[i], copy, bound);
    TargetOk(copy, target, number, i, maxLevel, bound);
    ReplaceTwo(levels, i, levels[i][|copy|..], target', number, maxLevel, bound);
  }
}
