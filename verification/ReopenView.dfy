/**
 What readers see of a tree that was saved and opened again: which runs come back
 on which level, and when that makes no difference.
 */
module ReopenView {
  import opened Wrappers
  import opened Keys
  import opened Sorting
  import opened Entries
  import opened Levels
  import opened LevelInvariant
  import opened TreeState
  import opened Reading
  import opened Holders
  import opened LevelTags
  import opened Snapshots

  /** Where a reopened tree puts the runs: a bottom run tagged 0 goes behind those of L0. */
  function Moved(levels: seq<Level>, maxLevel: nat): seq<Level>
    requires |levels| == maxLevel + 1 && maxLevel > 0
  {
    var bottom := levels[maxLevel];
    if bottom != [] && bottom[0].level == 0 then levels[0 := levels[0] + bottom][maxLevel := []] else levels
  }

  lemma TagsRightWithoutBottom(levels: seq<Level>, maxLevel: nat)
    requires BottomTagged(levels, maxLevel, true)
    ensures TagsRight(levels[..maxLevel])
  {
    forall i, p | 0 <= i < maxLevel && 0 <= p < |levels[..maxLevel][i]| ensures levels[..maxLevel][i][p].level == i {
      assert levels[..maxLevel][i] == levels[i];
    }
  }

  lemma {:induction false} FlattenAppend(upper: seq<Level>, last: Level)
    ensures Flatten(upper + [last]) == Flatten(upper) + last
  {
    if upper == [] {
      assert [last][1..] == [];
      assert last + [] == last;
    } else {
      assert (upper + [last])[1..] == upper[1..] + [last];
      FlattenAppend(upper[1..], last);
    }
  }

  lemma TaggedAboveBottom(levels: seq<Level>, maxLevel: nat, i: nat)
    requires BottomTagged(levels, maxLevel, true) && i <= maxLevel
    ensures Tagged(Flatten(levels[..maxLevel]), i) == if i < maxLevel then levels[i] else []
  {
    TagsRightWithoutBottom(levels, maxLevel);
    TaggedFlatten(levels[..maxLevel], 0, i);
  }

  lemma TaggedInTwo(levels: seq<Level>, maxLevel: nat, i: nat)
    requires |levels| == maxLevel + 1
    ensures Tagged(Flatten(levels), i) == Tagged(Flatten(levels[..maxLevel]), i) + Tagged(levels[maxLevel], i)
  {
    assert levels == levels[..maxLevel] + [levels[maxLevel]];
    FlattenAppend(levels[..maxLevel], levels[maxLevel]);
    TaggedAppend(Flatten(levels[..maxLevel]), levels[maxLevel], i);
  }

  lemma TaggedBottom(bottom: Level, maxLevel: nat, i: nat)
    requires |bottom| <= 1 && (bottom == [] || bottom[0].level == maxLevel || bottom[0].level == 0)
    ensures Tagged(bottom, i) == if bottom != [] && bottom[0].level == i then bottom else []
  {
    if bottom != [] {
      TaggedUniform(bottom, bottom[0].level, i);
    }
  }

  lemma JoinTagged(upper: Level, bottom: Level, tagged: Level, i: nat, maxLevel: nat)
    requires i <= maxLevel && (i == maxLevel ==> upper == [])
    requires bottom == [] || bottom[0].level == maxLevel || bottom[0].level == 0
    requires tagged == upper + if bottom != [] && bottom[0].level == i then bottom else []
    ensures bottom == [] || bottom[0].level != i ==> tagged == upper
    ensures i == maxLevel && bottom != [] && bottom[0].level == maxLevel ==> tagged == bottom
  {
  }

  /** The runs opened under a tag are those that `Moved` puts on that level, in the same order. */
  lemma TaggedIsMoved(levels: seq<Level>, maxLevel: nat, i: nat)
    requires maxLevel > 0 && BottomTagged(levels, maxLevel, true) && |levels[maxLevel]| <= 1 && i <= maxLevel
    ensures Tagged(Flatten(levels), i) == Moved(levels, maxLevel)[i]
  {
    var bottom := levels[maxLevel];
    assert bottom == [] || BottomRunTagged(bottom[0], maxLevel, levels[0], true);
    TaggedInTwo(levels, maxLevel, i);
    TaggedAboveBottom(levels, maxLevel, i);
    TaggedBottom(bottom, maxLevel, i);
    JoinTagged(if i < maxLevel then levels[i] else [], bottom, Tagged(Flatten(levels), i), i, maxLevel);
  }

  lemma ReopenedPermutes(levels: seq<Level>, maxLevel: nat)
    requires maxLevel > 0 && BottomTagged(levels, maxLevel, true) && |levels[maxLevel]| <= 1
    ensures forall i | 0 <= i <= maxLevel ::
              multiset(Moved(levels, maxLevel)[i]) == multiset(LevelsByTag(Flatten(levels), maxLevel)[i])
  {
    forall i | 0 <= i <= maxLevel
      ensures multiset(Moved(levels, maxLevel)[i]) == multiset(LevelsByTag(Flatten(levels), maxLevel)[i])
    {
      TaggedIsMoved(levels, maxLevel, i);
      SortByPermutes(ByMinKey, Tagged(Flatten(levels), i));
    }
  }

  lemma MovedOk(levels: seq<Level>, maxLevel: nat, bound: nat)
    requires maxLevel > 0 && LevelsOk(levels, maxLevel, bound) && BottomTagged(levels, maxLevel, true)
    ensures LevelsOk(Moved(levels, maxLevel), maxLevel, bound)
  {
    var bottom := levels[maxLevel];
    if bottom != [] && bottom[0].level == 0 {
      assert bottom == [bottom[0]];
      MoveBottomOk(levels, bottom[0], maxLevel, bound);
    }
  }

  lemma MoveBottomOk(levels: seq<Level>, run: Run, maxLevel: nat, bound: nat)
    requires maxLevel > 0 && LevelsOk(levels, maxLevel, bound) && levels[maxLevel] == [run]
    ensures LevelsOk(levels[0 := levels[0] + [run]][maxLevel := []], maxLevel, bound)
  {
    var top, moved := levels[0] + [run], levels[0 := levels[0] + [run]][maxLevel := []];
    AppendOk(levels[0], [run], bound) by {
      assert LevelOk(levels[0], bound) && LevelOk(levels[maxLevel], bound);
      assert Numbers(levels[0]) !! Numbers(levels[maxLevel]);
    }
    assert LevelTable([]) == map[];
    forall i | 0 <= i < |moved| ensures LevelOk(moved[i], bound) {
      assert LevelOk(levels[i], bound);
    }
    forall i, j | 0 <= i < j < |moved| ensures Numbers(moved[i]) !! Numbers(moved[j]) {
      assert Numbers(levels[i]) !! Numbers(levels[j]);
      assert j != maxLevel ==> Numbers(levels[j]) !! Numbers(levels[maxLevel]);
    }
  }

  lemma AppendOk(a: Level, b: Level, bound: nat)
    requires LevelOk(a, bound) && LevelOk(b, bound) && Numbers(a) !! Numbers(b)
    ensures LevelOk(a + b, bound) && Numbers(a + b) <= Numbers(a) + Numbers(b)
  {
    var all := a + b;
    forall p | 0 <= p < |all| ensures RunOk(all[p], bound) {
      assert p < |a| ==> all[p] == a[p];
      assert p >= |a| ==> all[p] == b[p - |a|];
    }
    forall p, q | 0 <= p < q < |all| ensures all[p].number != all[q].number {
      if p < |a| && q >= |a| {
        assert a[p].number in Numbers(a) && b[q - |a|].number in Numbers(b);
      }
    }
    forall n | n in Numbers(all) ensures n in Numbers(a) + Numbers(b) {
      var p :| 0 <= p < |all| && all[p].number == n;
      assert p < |a| ==> a[p].number in Numbers(a);
      assert p >= |a| ==> b[p - |a|].number in Numbers(b);
    }
  }

  /**
   Every tree the tree itself can save satisfies the structural invariant again
   when it is opened, and its next run number is above that of every run in it.
   */
  lemma ReopenKeepsLevelsOk(levels: seq<Level>, maxLevel: nat, bound: nat, snapshot: PersistentSnapshot)
    requires maxLevel > 0 && LevelsOk(levels, maxLevel, bound) && BottomTagged(levels, maxLevel, true)
    requires Records(snapshot, Flatten(levels))
    ensures Complete(snapshot)
    ensures var t := Reopened(RunsOf(snapshot), maxLevel);
            LevelsOk(t.levels, maxLevel, t.nextRun)
  {
    OpenedAsRecorded(snapshot, Flatten(levels));
    var moved, again := Moved(levels, maxLevel), LevelsByTag(Flatten(levels), maxLevel);
    MovedOk(levels, maxLevel, bound);
    ReopenedPermutes(levels, maxLevel);
    MovedNumbers(levels, maxLevel);
    LevelsOkPermuted(moved, again, maxLevel, bound, MaxNumber(Flatten(levels)) + 1);
  }

  lemma MovedNumbers(levels: seq<Level>, maxLevel: nat)
    requires maxLevel > 0 && |levels| == maxLevel + 1
    ensures var moved := Moved(levels, maxLevel);
            forall i, p | 0 <= i < |moved| && 0 <= p < |moved[i]| :: moved[i][p].number < MaxNumber(Flatten(levels)) + 1
  {
    var moved: seq<Level> := Moved(levels, maxLevel);
    AllNumbersBelowMax(levels);
    forall i, p | 0 <= i < |moved| && 0 <= p < |moved[i]| ensures moved[i][p].number < MaxNumber(Flatten(levels)) + 1 {
      if i == 0 && p >= |levels[0]| {
        assert moved[0][p] == levels[maxLevel][p - |levels[0]|];
      } else {
        assert moved[i][p] == levels[i][p];
      }
    }
  }

  // ----- What readers see of a reopened tree -----

  /** With every run tagged with its level, a tree saved and opened again has the same table, tombstones included. */
  lemma ReopenKeepsTable(levels: seq<Level>, maxLevel: nat, snapshot: PersistentSnapshot)
    requires |levels| == maxLevel + 1 && TagsRight(levels) && LevelsDistinct(levels)
    requires Records(snapshot, Flatten(levels))
    ensures Complete(snapshot)
    ensures Contents(Reopened(RunsOf(snapshot), maxLevel)) == DiskTable(levels)
  {
    OpenedAsRecorded(snapshot, Flatten(levels));
    RoundTripKeepsLevels(levels, maxLevel);
    SameDiskTable(LevelsByTag(Flatten(levels), maxLevel), levels);
    ContentsReopened(Flatten(levels), maxLevel, DiskTable(levels));
  }

  lemma ContentsReopened(runs: seq<Run>, maxLevel: nat, disk: Table)
    requires DiskTable(LevelsByTag(runs, maxLevel)) == disk
    ensures Contents(Reopened(runs, maxLevel)) == disk
  {
    assert disk + map[] == disk;
  }

  lemma {:induction false} TakenAppend(upper: seq<Level>, lower: seq<Level>, key: Key)
    ensures Taken(upper + lower, key) == if Taken(upper, key).Some? then Taken(upper, key) else Taken(lower, key)
  {
    if upper == [] {
      assert upper + lower == lower;
    } else {
      assert (upper + lower)[1..] == upper[1..] + lower;
      TakenAppend(upper[1..], lower, key);
    }
  }

  /** The levels between L0 and the bottom. */
  function Between(levels: seq<Level>, maxLevel: nat): seq<Level>
    requires 0 < maxLevel < |levels|
  {
    levels[1..maxLevel]
  }

  lemma TakenInThree(levels: seq<Level>, maxLevel: nat, key: Key)
    requires maxLevel > 0 && |levels| == maxLevel + 1
    ensures Taken(levels, key) ==
            if Highest(levels[0], key).Some? then Highest(levels[0], key)
            else if Taken(Between(levels, maxLevel), key).Some? then Taken(Between(levels, maxLevel), key)
            else Highest(levels[maxLevel], key)
  {
    var between, bottom := Between(levels, maxLevel), levels[maxLevel];
    assert levels[1..] == between + [bottom];
    TakenAppend(between, [bottom], key);
    assert [bottom][1..] == [];
    assert Taken([bottom], key) == Highest(bottom, key);
  }

  lemma HighestBehind(level: Level, run: Run, key: Key)
    requires forall p | 0 <= p < |level| :: run.number < level[p].number
    ensures Highest(level + [run], key) ==
            if Highest(level, key).Some? then Highest(level, key) else if Holds(run, key) then Some(run) else None
  {
    assert (level + [run])[..|level|] == level;
    HighestIs(level, key);
    if Highest(level, key).Some? {
      var p :| 0 <= p < |level| && level[p] == Highest(level, key).value;
      assert run.number < level[p].number;
    }
  }

  /** A run moved from the bottom to L0 changes the answer for a key. */
  ghost predicate ChangesAnswer(levels: seq<Level>, maxLevel: nat, run: Run, key: Key)
    requires 0 < maxLevel < |levels|
  {
    var between := Taken(Between(levels, maxLevel), key);
    && Holds(run, key)
    && Highest(levels[0], key).None?
    && between.Some?
    && Answer(between, key) != Answer(Some(run), key)
  }

  /**
   The bottom run, if it is tagged 0, answers for each of its keys as the levels
   between L0 and the bottom do, unless they have no entry for it or L0 has one.
   */
  ghost predicate ReopensAlike(levels: seq<Level>, maxLevel: nat)
    requires 0 < maxLevel < |levels|
  {
    levels[maxLevel] != [] && levels[maxLevel][0].level == 0 ==>
      forall k :: !ChangesAnswer(levels, maxLevel, levels[maxLevel][0], k)
  }

  /** Both trees, for one key, when the bottom run has moved to L0. */
  lemma MovedAnswers(levels: seq<Level>, maxLevel: nat, run: Run, key: Key)
    requires maxLevel > 0 && |levels| == maxLevel + 1 && levels[maxLevel] == [run]
    requires forall p | 0 <= p < |levels[0]| :: run.number < levels[0][p].number
    ensures Answer(Taken(levels[0 := levels[0] + [run]][maxLevel := []], key), key) ==
            Answer(Taken(levels, key), key) <==>
            !ChangesAnswer(levels, maxLevel, run, key)
  {
    var moved := levels[0 := levels[0] + [run]][maxLevel := []];
    TakenInThree(levels, maxLevel, key);
    TakenInThree(moved, maxLevel, key);
    assert Between(moved, maxLevel) == Between(levels, maxLevel);
    HighestBehind(levels[0], run, key);
    assert [run][..0] == [];
    assert Highest([run], key) == if Holds(run, key) then Some(run) else None;
  }

  /** Save and open, for one key. */
  lemma ReopenAnswers(levels: seq<Level>, maxLevel: nat, key: Key)
    requires maxLevel > 0 && LevelsDistinct(levels) && BottomTagged(levels, maxLevel, true) && |levels[maxLevel]| <= 1
    requires LevelsDistinct(Moved(levels, maxLevel))
    ensures var again := LevelsByTag(Flatten(levels), maxLevel);
            LiveValue(DiskTable(again), key) == Answer(Taken(Moved(levels, maxLevel), key), key)
  {
    ReopenedPermutes(levels, maxLevel);
    var moved, again := Moved(levels, maxLevel), LevelsByTag(Flatten(levels), maxLevel);
    SameDiskTable(again, moved);
    TakenAnswers(moved, key);
  }

  ghost predicate MovedAlike(levels: seq<Level>, maxLevel: nat)
    requires maxLevel > 0 && |levels| == maxLevel + 1
  {
    forall k :: Answer(Taken(Moved(levels, maxLevel), k), k) == Answer(Taken(levels, k), k)
  }

  lemma ReopenKeyByKey(levels: seq<Level>, maxLevel: nat, bound: nat)
    requires maxLevel > 0 && LevelsOk(levels, maxLevel, bound) && BottomTagged(levels, maxLevel, true)
    ensures Live(DiskTable(LevelsByTag(Flatten(levels), maxLevel))) == Live(DiskTable(levels)) <==>
            MovedAlike(levels, maxLevel)
  {
    var again := LevelsByTag(Flatten(levels), maxLevel);
    MovedOk(levels, maxLevel, bound);
    LevelsOkDistinct(levels, maxLevel, bound);
    LevelsOkDistinct(Moved(levels, maxLevel), maxLevel, bound);
    SameLive(DiskTable(again), DiskTable(levels));
    forall k
      ensures LiveValue(DiskTable(again), k) == Answer(Taken(Moved(levels, maxLevel), k), k)
      ensures LiveValue(DiskTable(levels), k) == Answer(Taken(levels, k), k)
    {
      ReopenAnswers(levels, maxLevel, k);
      TakenAnswers(levels, k);
    }
  }

  lemma MovedAlikeExactly(levels: seq<Level>, maxLevel: nat)
    requires maxLevel > 0 && BottomTagged(levels, maxLevel, true) && |levels[maxLevel]| <= 1
    ensures MovedAlike(levels, maxLevel) <==> ReopensAlike(levels, maxLevel)
  {
    var bottom := levels[maxLevel];
    if bottom != [] && bottom[0].level == 0 {
      var run := bottom[0];
      assert bottom == [run];
      assert BottomRunTagged(run, maxLevel, levels[0], true);
      forall k
        ensures Answer(Taken(Moved(levels, maxLevel), k), k) == Answer(Taken(levels, k), k) <==>
                !ChangesAnswer(levels, maxLevel, run, k)
      {
        MovedAnswers(levels, maxLevel, run, k);
      }
    }
  }

  /** Saving and opening changes nothing readers see exactly when the bottom run reopens alike. */
  lemma ReopenExactly(levels: seq<Level>, maxLevel: nat, bound: nat, snapshot: PersistentSnapshot)
    requires maxLevel > 0 && LevelsOk(levels, maxLevel, bound) && BottomTagged(levels, maxLevel, true)
    requires Records(snapshot, Flatten(levels))
    ensures Complete(snapshot)
    ensures Live(Contents(Reopened(RunsOf(snapshot), maxLevel))) == Live(DiskTable(levels)) <==>
            ReopensAlike(levels, maxLevel)
  {
    OpenedAsRecorded(snapshot, Flatten(levels));
    ContentsReopened(Flatten(levels), maxLevel, DiskTable(LevelsByTag(Flatten(levels), maxLevel)));
    ReopenKeyByKey(levels, maxLevel, bound);
    MovedAlikeExactly(levels, maxLevel);
  }
}
