/**
 A write-back on levels that a second round has changed. Only rollback advances
 the generation, so nothing tells the first round that its copy is out of date.
 */
module SecondRound {
  import opened Levels
  import opened RunOrder
  import opened Compaction
  import opened CompactionView
  import opened TreeState
  import opened InterleavingStructure

  /** How many runs a write-back of `copied` runs takes from a level of `present` runs. */
  function TakenOff(copied: nat, present: nat): nat {
    if copied < present then copied else present
  }

  /** The runs a write-back takes away. */
  function Removed(copy: Level, live: Level): Level {
    live[..TakenOff(|copy|, |live|)]
  }

  /** Whatever the level holds by then, the write-back takes its first runs, as many as were copied. */
  lemma WriteBackTakes(t: Tree, copy: seq<Level>, i: nat, number: nat, maxLevel: nat)
    requires |t.levels| == |copy| == maxLevel + 1 && i < maxLevel
    ensures var job := JobFor(copy, i);
            var after := WrittenBack(t, t.generation, job, ResultOf(job, copy[i], number, maxLevel), maxLevel);
            t.levels[i] == Removed(copy[i], t.levels[i]) + after.levels[i]
  {
    RemovesFirst(t.levels[i], |copy[i]|);
  }

  ghost predicate OnlyMerged(copy: Level, live: Level) {
    forall p | 0 <= p < |Removed(copy, live)| :: Removed(copy, live)[p] in copy
  }

  /** The level as other rounds and pushes leave it: they took `gone` runs from its front and pushed `pushed`. */
  function Left(copy: Level, pushed: Level, gone: nat): Level
    requires gone <= |copy| + |pushed|
  {
    (copy + pushed)[gone..]
  }

  /**
   A write-back takes away nothing but runs it has merged exactly when no other
   round took runs from the level since it was copied, or nothing is left that was
   pushed since. This is about the removal alone, not about what readers see.
   */
  lemma SecondRoundExactly(copy: Level, pushed: Level, gone: nat)
    requires copy != [] && gone <= |copy| + |pushed| && DistinctNumbers(copy + pushed)
    ensures OnlyMerged(copy, Left(copy, pushed, gone)) <==> gone == 0 || pushed == [] || gone == |copy| + |pushed|
  {
    var all, live := copy + pushed, Left(copy, pushed, gone);
    var removed := Removed(copy, live);
    assert forall p | 0 <= p < |removed| :: removed[p] == all[gone + p];
    if gone == 0 || pushed == [] || gone == |copy| + |pushed| {
      forall p | 0 <= p < |removed| ensures removed[p] in copy {
        assert gone + p < |copy| ==> all[gone + p] == copy[gone + p];
      }
    } else {
      var p := if gone <= |copy| then |copy| - gone else 0;
      assert p < |removed| && removed[p] == all[gone + p] && gone + p >= |copy|;
      PushedIsNotCopied(copy, pushed, gone + p);
    }
  }

  lemma PushedIsNotCopied(copy: Level, pushed: Level, p: nat)
    requires DistinctNumbers(copy + pushed) && |copy| <= p < |copy| + |pushed|
    ensures (copy + pushed)[p] !in copy
  {
    var all := copy + pushed;
    forall q | 0 <= q < |copy| ensures copy[q] != all[p] {
      assert all[q] == copy[q] && all[q].number != all[p].number;
    }
  }

  /** What a second round leaves: `compact` takes the whole level it chooses, and only that. */
  lemma CompactTakesLevel(t: Tree, maxLevel: nat, level0Trigger: nat)
    requires maxLevel > 0 && |t.levels| == maxLevel + 1
    requires ChooseJob(t.levels, maxLevel, level0Trigger).Some?
    ensures var i := ChooseJob(t.levels, maxLevel, level0Trigger).value.sourceLevel;
            var t' := Compacted(t, maxLevel, level0Trigger);
            i < maxLevel && t'.levels[i] == [] && t'.generation == t.generation
  {
    CompactedIsCommit(t, maxLevel, level0Trigger);
    var i := ChooseJob(t.levels, maxLevel, level0Trigger).value.sourceLevel;
    CommittedAt(t.levels, i, t.levels[i], t.nextRun, maxLevel);
    assert t.levels[i][|t.levels[i]|..] == [];
  }

  /** L0 after some flushes. */
  function PushedAll(levels: seq<Level>, runs: Level): seq<Level>
    requires levels != []
  {
    levels[0 := levels[0] + runs]
  }

  /**
   Two rounds on L0: one copies it, runs may be flushed behind the copy, `compact`
   merges the whole of L0 away, more runs are flushed, and the first round writes
   back. It takes the oldest of those last runs, as many as it had copied, though
   it never merged them; it takes none of that kind exactly when nothing was
   flushed after `compact`. What its push does to readers is another matter.
   */
  lemma TwoRoundsOnL0(t: Tree, copy: seq<Level>, flushed: Level, number: nat, maxLevel: nat, level0Trigger: nat)
    requires maxLevel > 0 && |t.levels| == |copy| == maxLevel + 1
    requires var job := ChooseJob(t.levels, maxLevel, level0Trigger); job.Some? && job.value.sourceLevel == 0
    requires copy[0] != [] && copy[0] <= t.levels[0] && DistinctNumbers(t.levels[0] + flushed)
    ensures var job := JobFor(copy, 0);
            var between := Compacted(t, maxLevel, level0Trigger);
            var later := between.(levels := PushedAll(between.levels, flushed));
            var after := WrittenBack(later, t.generation, job, ResultOf(job, copy[0], number, maxLevel), maxLevel);
            && after.levels[0] == flushed[TakenOff(|copy[0]|, |flushed|)..]
            && (OnlyMerged(copy[0], later.levels[0]) <==> flushed == [])
  {
    var between := Compacted(t, maxLevel, level0Trigger);
    var later := between.(levels := PushedAll(between.levels, flushed));
    FlushedAfterCompact(t, flushed, maxLevel, level0Trigger);
    WriteBackOnL0(later, copy, flushed, number, maxLevel);
    OnlyMergedOnL0(copy[0], t.levels[0], flushed);
  }

  lemma FlushedAfterCompact(t: Tree, flushed: Level, maxLevel: nat, level0Trigger: nat)
    requires maxLevel > 0 && |t.levels| == maxLevel + 1
    requires var job := ChooseJob(t.levels, maxLevel, level0Trigger); job.Some? && job.value.sourceLevel == 0
    ensures var between := Compacted(t, maxLevel, level0Trigger);
            && |between.levels| == maxLevel + 1 && between.generation == t.generation
            && PushedAll(between.levels, flushed)[0] == flushed
  {
    CompactTakesLevel(t, maxLevel, level0Trigger);
    assert [] + flushed == flushed;
  }

  lemma WriteBackOnL0(later: Tree, copy: seq<Level>, flushed: Level, number: nat, maxLevel: nat)
    requires maxLevel > 0 && |later.levels| == |copy| == maxLevel + 1 && later.levels[0] == flushed
    ensures var job := JobFor(copy, 0);
            var after := WrittenBack(later, later.generation, job, ResultOf(job, copy[0], number, maxLevel), maxLevel);
            after.levels[0] == flushed[TakenOff(|copy[0]|, |flushed|)..]
  {
    RemovesFirst(flushed, |copy[0]|);
  }

  lemma OnlyMergedOnL0(copy: Level, compacted: Level, flushed: Level)
    requires copy != [] && copy <= compacted && DistinctNumbers(compacted + flushed)
    ensures OnlyMerged(copy, flushed) <==> flushed == []
  {
    var pushed := compacted[|copy|..] + flushed;
    assert copy + pushed == compacted + flushed;
    SecondRoundExactly(copy, pushed, |compacted|);
    assert Left(copy, pushed, |compacted|) == flushed;
  }
}
