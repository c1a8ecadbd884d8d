/**
 What readers see of a write-back, whatever has become of the levels since they
 were copied: by `compact`, by `compact_all`, by flushes.
 */
module StaleRound {
  import opened Wrappers
  import opened Keys
  import opened Entries
  import opened Levels
  import opened RunOrder
  import opened Compaction
  import opened CompactionView
  import opened LevelInvariant
  import opened TreeState
  import opened Reading
  import opened Holders
  import opened SecondRound
  import opened Interleaving

  // ----- The levels afterwards -----

  /** What the write-back leaves of its source level. */
  function Kept(copy: Level, live: Level): Level {
    live[TakenOff(|copy|, |live|)..]
  }

  /** The target level after the push. */
  function TargetAfter(live: Level, output: Option<Run>, isBottomLevel: bool): Level {
    if output.None? then live else if isBottomLevel then [output.value] else live + [output.value]
  }

  /** The merge of a copy of levels `i` and `i + 1`, pushed on the levels as they are now. */
  function PushedOnto(levels: seq<Level>, i: nat, copy: seq<Level>, number: nat, maxLevel: nat): Level
    requires |levels| == |copy| == maxLevel + 1 && i < maxLevel
  {
    var isBottomLevel := i + 1 == maxLevel;
    TargetAfter(levels[i + 1], OutputRun(Merged(copy[i], copy[i + 1], isBottomLevel), number, i + 1), isBottomLevel)
  }

  lemma CommittedAnywhere(levels: seq<Level>, i: nat, copy: seq<Level>, number: nat, maxLevel: nat)
    requires |levels| == |copy| == maxLevel + 1 && i < maxLevel
    ensures Committed(levels, i, copy[i], copy[i + 1], number, maxLevel) ==
            levels[i := Kept(copy[i], levels[i])][i + 1 := PushedOnto(levels, i, copy, number, maxLevel)]
  {
    RemovesFirst(levels[i], |copy[i]|);
  }

  // ----- Readers' view -----

  lemma OnTopOf(level: Level, below: seq<Level>)
    ensures DiskTable([level] + below) == DiskTable(below) + LevelTable(level)
  {
    assert ([level] + below)[1..] == below;
  }

  lemma TwoOnTopOf(upper: Level, lower: Level, below: seq<Level>)
    ensures DiskTable([upper, lower] + below) == DiskTable(below) + LevelTable(lower) + LevelTable(upper)
  {
    assert [upper, lower] + below == [upper] + ([lower] + below);
    OnTopOf(upper, [lower] + below);
    OnTopOf(lower, below);
  }

  /** The table before the write-back, with what it takes off and where it pushes set apart. */
  lemma BeforeApart(levels: seq<Level>, i: nat, copy: Level, top: Table)
    requires i + 1 < |levels| && InNumberOrder(levels[i])
    ensures var gone := Removed(copy, levels[i]);
            DiskTable(levels) + top ==
            DiskTable([gone, levels[i + 1]] + levels[i + 2..]) + Newer(levels, i, gone, top)
  {
    var gone, below := Removed(copy, levels[i]), levels[i + 2..];
    var newer := Newer(levels, i, gone, top);
    assert FrontOf(gone, levels[i]);
    Unchanged(levels, i, top);
    SourceApart(levels, i, gone, top);
    TwoOnTopOf(gone, levels[i + 1], below);
    FourApart(DiskTable(below), LevelTable(levels[i + 1]), LevelTable(gone), newer);
  }

  lemma FourApart(a: Table, b: Table, c: Table, d: Table)
    ensures a + (b + (c + d)) == a + b + c + d
  {
    OverlayAssociative(b, c, d);
    OverlayAssociative(a, b + c, d);
    OverlayAssociative(a, b, c);
  }

  /** The table after it. */
  lemma AfterApart(levels: seq<Level>, i: nat, copy: Level, target: Level, top: Table)
    requires i + 1 < |levels|
    ensures DiskTable(levels[i := Kept(copy, levels[i])][i + 1 := target]) + top ==
            DiskTable([target] + levels[i + 2..]) + Newer(levels, i, Removed(copy, levels[i]), top)
  {
    var kept, below := Kept(copy, levels[i]), levels[i + 2..];
    TakenApart(levels, i, kept, target, top);
    OnTopOf(target, below);
    OverlayAssociative(DiskTable(below), LevelTable(target), LevelTable(kept) + DiskTable(levels[..i]) + top);
  }

  /**
   For every key that neither the rest of the source level, nor a level above it,
   nor `top` has: the levels from the target down answer after the push as they
   did before it under the runs taken off.
   */
  ghost predicate AnswersStay(levels: seq<Level>, i: nat, copy: Level, target: Level, top: Table)
    requires i + 1 < |levels|
  {
    var gone, below := Removed(copy, levels[i]), levels[i + 2..];
    forall k :: k !in Newer(levels, i, gone, top) ==>
      Answer(Taken([target] + below, k), k) == Answer(Taken([gone, levels[i + 1]] + below, k), k)
  }

  lemma AnswersOf(levels: seq<Level>, a: Table, b: Table, other: seq<Level>, newer: Table)
    requires LevelsDistinct(levels) && LevelsDistinct(other)
    requires a == DiskTable(levels) + newer && b == DiskTable(other) + newer
    ensures Live(a) == Live(b) <==>
            forall k :: k !in newer ==> Answer(Taken(levels, k), k) == Answer(Taken(other, k), k)
  {
    SameLiveUnder(DiskTable(levels), DiskTable(other), newer);
    forall k
      ensures LiveValue(DiskTable(levels), k) == Answer(Taken(levels, k), k)
      ensures LiveValue(DiskTable(other), k) == Answer(Taken(other, k), k)
    {
      TakenAnswers(levels, k);
      TakenAnswers(other, k);
    }
  }

  lemma DistinctBelow(levels: seq<Level>, i: nat, copy: Level, target: Level)
    requires i + 1 < |levels| && LevelsDistinct(levels) && DistinctNumbers(target)
    ensures LevelsDistinct([target] + levels[i + 2..])
    ensures LevelsDistinct([Removed(copy, levels[i]), levels[i + 1]] + levels[i + 2..])
  {
    var after, before := [target] + levels[i + 2..], [Removed(copy, levels[i]), levels[i + 1]] + levels[i + 2..];
    forall j | 0 <= j < |after| ensures DistinctNumbers(after[j]) {
      assert j > 0 ==> after[j] == levels[i + 1 + j];
    }
    forall j | 0 <= j < |before| ensures DistinctNumbers(before[j]) {
      assert DistinctNumbers(levels[i]);
      assert j > 0 ==> before[j] == levels[i + j];
    }
  }

  /**
   Exactly when a write-back is invisible. Nothing is asked of the copy: it may be
   out of date on every level, and its keys may be above the bound that a
   compaction reads up to.
   */
  lemma StaleWriteBackExactly(levels: seq<Level>, i: nat, copy: seq<Level>, number: nat, maxLevel: nat, top: Table)
    requires |levels| == |copy| == maxLevel + 1 && i < maxLevel
    requires LevelsDistinct(levels) && InNumberOrder(levels[i])
    requires DistinctNumbers(PushedOnto(levels, i, copy, number, maxLevel))
    ensures Live(DiskTable(Committed(levels, i, copy[i], copy[i + 1], number, maxLevel)) + top) ==
            Live(DiskTable(levels) + top)
            <==> AnswersStay(levels, i, copy[i], PushedOnto(levels, i, copy, number, maxLevel), top)
  {
    var target, gone := PushedOnto(levels, i, copy, number, maxLevel), Removed(copy[i], levels[i]);
    CommittedAnywhere(levels, i, copy, number, maxLevel);
    BeforeApart(levels, i, copy[i], top);
    AfterApart(levels, i, copy[i], target, top);
    DistinctBelow(levels, i, copy[i], target);
    AnswersOf([target] + levels[i + 2..],
              DiskTable(levels[i := Kept(copy[i], levels[i])][i + 1 := target]) + top,
              DiskTable(levels) + top,
              [gone, levels[i + 1]] + levels[i + 2..], Newer(levels, i, gone, top));
  }

  // ----- Any vector order -----

  /** The same without any order: each key that no level above and not `top` has is answered as before. */
  ghost predicate AnswersStayAnyOrder(levels: seq<Level>, i: nat, copy: Level, target: Level, top: Table)
    requires i + 1 < |levels|
  {
    forall k :: k !in DiskTable(levels[..i]) + top ==>
      Answer(Taken([Kept(copy, levels[i]), target] + levels[i + 2..], k), k) == Answer(Taken(levels[i..], k), k)
  }

  lemma KeptDistinct(levels: seq<Level>, i: nat, copy: Level, target: Level)
    requires i + 1 < |levels| && LevelsDistinct(levels) && DistinctNumbers(target)
    ensures LevelsDistinct([Kept(copy, levels[i]), target] + levels[i + 2..]) && LevelsDistinct(levels[i..])
  {
    var after := [Kept(copy, levels[i]), target] + levels[i + 2..];
    forall j | 0 <= j < |after| ensures DistinctNumbers(after[j]) {
      assert DistinctNumbers(levels[i]);
      assert j > 1 ==> after[j] == levels[i + j];
    }
  }

  lemma SplitAt(levels: seq<Level>, i: nat, top: Table)
    requires i <= |levels|
    ensures DiskTable(levels) + top == DiskTable(levels[i..]) + (DiskTable(levels[..i]) + top)
  {
    assert levels == levels[..i] + levels[i..];
    DiskTableAppend(levels[..i], levels[i..]);
    OverlayAssociative(DiskTable(levels[i..]), DiskTable(levels[..i]), top);
  }

  /** Also on a vector that is not in number order, as opening a snapshot can leave it. */
  lemma StaleWriteBackAnyOrder(levels: seq<Level>, i: nat, copy: seq<Level>, number: nat, maxLevel: nat, top: Table)
    requires |levels| == |copy| == maxLevel + 1 && i < maxLevel && LevelsDistinct(levels)
    requires DistinctNumbers(PushedOnto(levels, i, copy, number, maxLevel))
    ensures Live(DiskTable(Committed(levels, i, copy[i], copy[i + 1], number, maxLevel)) + top) ==
            Live(DiskTable(levels) + top)
            <==> AnswersStayAnyOrder(levels, i, copy[i], PushedOnto(levels, i, copy, number, maxLevel), top)
  {
    var target, kept := PushedOnto(levels, i, copy, number, maxLevel), Kept(copy[i], levels[i]);
    var after := levels[i := kept][i + 1 := target];
    CommittedAnywhere(levels, i, copy, number, maxLevel);
    assert after[..i] == levels[..i] && after[i..] == [kept, target] + levels[i + 2..];
    SplitAt(levels, i, top);
    SplitAt(after, i, top);
    KeptDistinct(levels, i, copy[i], target);
    AnswersOf(after[i..], DiskTable(after) + top, DiskTable(levels) + top, levels[i..], DiskTable(levels[..i]) + top);
  }

  // ----- What the pushed run answers -----

  /** The copied runs answer for the key: they hold it, compaction reads it, and no later number stands in their way. */
  predicate CopyDecides(copy: Level, target: Level, number: nat, key: Key) {
    && Le(key, TOP_KEY) && Highest(copy, key).Some?
    && (Highest(target, key).None? || Highest(target, key).value.number <= number)
  }

  lemma HighestPushed(target: Level, run: Run, key: Key)
    ensures Highest(target + [run], key) ==
            if Holds(run, key) && (Highest(target, key).None? || Highest(target, key).value.number <= run.number)
            then Some(run) else Highest(target, key)
  {
    assert (target + [run])[..|target|] == target;
  }

  lemma TakenOnTop(level: Level, below: seq<Level>, key: Key)
    ensures Taken([level] + below, key) ==
            if Highest(level, key).Some? then Highest(level, key) else Taken(below, key)
  {
    assert ([level] + below)[1..] == below;
  }

  lemma ScannedAnswers(copy: Level, key: Key)
    requires DistinctNumbers(copy)
    ensures key in Scanned(LevelTable(copy)) <==> Le(key, TOP_KEY) && Highest(copy, key).Some?
    ensures key in Scanned(LevelTable(copy)) ==>
              LiveValue(Scanned(LevelTable(copy)), key) == Answer(Highest(copy, key), key)
  {
    LevelAnswers(copy, key);
  }

  lemma OutputAnswers(t: Table, number: nat, level: nat, key: Key)
    ensures var output := OutputRun(t, number, level);
            && (key in t <==> output.Some? && Holds(output.value, key))
            && Answer(output, key) == LiveValue(t, key)
            && (output.Some? ==> output.value.number == number)
  {
    ListOfRoundTrip(t);
  }

  /** The target level after a push, for one key. */
  lemma PushedAnswers(copy: Level, target: Level, output: Option<Run>, number: nat, level: nat, key: Key)
    requires DistinctNumbers(copy) && output == OutputRun(Scanned(LevelTable(copy)), number, level)
    ensures var after := Highest(TargetAfter(target, output, false), key);
            if CopyDecides(copy, target, number, key)
            then after.Some? && Answer(after, key) == Answer(Highest(copy, key), key)
            else after == Highest(target, key)
  {
    ScannedAnswers(copy, key);
    OutputAnswers(Scanned(LevelTable(copy)), number, level, key);
    if output.Some? {
      HighestPushed(target, output.value, key);
    }
  }

  /** Above the bottom: the copied runs where they decide, else the target level and those below as they were. */
  lemma TieredAnswers(levels: seq<Level>, i: nat, copy: seq<Level>, number: nat, maxLevel: nat, key: Key)
    requires |levels| == |copy| == maxLevel + 1 && i + 1 < maxLevel && DistinctNumbers(copy[i])
    ensures Answer(Taken([PushedOnto(levels, i, copy, number, maxLevel)] + levels[i + 2..], key), key) ==
            if CopyDecides(copy[i], levels[i + 1], number, key) then Answer(Highest(copy[i], key), key)
            else Answer(Taken(levels[i + 1..], key), key)
  {
    var target, below := levels[i + 1], levels[i + 2..];
    var output := OutputRun(Scanned(LevelTable(copy[i])), number, i + 1);
    PushedAnswers(copy[i], target, output, number, i + 1, key);
    TakenOnTop(TargetAfter(target, output, false), below, key);
    assert levels[i + 1..] == [target] + below;
    TakenOnTop(target, below, key);
  }

  /** At the bottom: the copied runs, newest level first; but the old bottom run if nothing of them is left. */
  lemma BottomAnswers(levels: seq<Level>, i: nat, copy: seq<Level>, number: nat, maxLevel: nat, key: Key)
    requires |levels| == |copy| == maxLevel + 1 && i + 1 == maxLevel
    requires |copy[maxLevel]| <= 1 && DistinctNumbers(copy[i])
    ensures Answer(Taken([PushedOnto(levels, i, copy, number, maxLevel)] + levels[i + 2..], key), key) ==
            if Merged(copy[i], copy[maxLevel], true) == map[] then Answer(Highest(levels[maxLevel], key), key)
            else if Le(key, TOP_KEY) then Answer(Taken([copy[i], copy[maxLevel]], key), key)
            else None
  {
    var merged, target := Merged(copy[i], copy[maxLevel], true), levels[maxLevel];
    var output := OutputRun(merged, number, maxLevel);
    assert levels[i + 2..] == [];
    TakenOnTop(TargetAfter(target, output, true), [], key);
    BottomMergeAnswers(copy[i], copy[maxLevel], key);
    OutputAnswers(merged, number, maxLevel, key);
    if output.Some? {
      HighestOfOne(output.value, key);
    }
  }

  lemma HighestOfOne(run: Run, key: Key)
    ensures Highest([run], key) == if Holds(run, key) then Some(run) else None
  {
    HighestPushed([], run, key);
    assert [] + [run] == [run];
  }

  lemma BottomMergeAnswers(copy: Level, targets: Level, key: Key)
    requires |targets| <= 1 && DistinctNumbers(copy)
    ensures LiveValue(Merged(copy, targets, true), key) ==
            if Le(key, TOP_KEY) then Answer(Taken([copy, targets], key), key) else None
  {
    FirstWinsOne(targets);
    ScannedAnswers(copy, key);
    ScannedAnswers(targets, key);
    assert [copy, targets] == [copy] + [targets] && [targets] == [targets] + [];
    TakenOnTop(copy, [targets], key);
    TakenOnTop(targets, [], key);
  }

  // ----- In terms of the copied runs, and of the tree -----

  lemma PushedDistinct(levels: seq<Level>, i: nat, copy: seq<Level>, number: nat, maxLevel: nat)
    requires |levels| == |copy| == maxLevel + 1 && i < maxLevel && DistinctNumbers(levels[i + 1])
    requires number !in Numbers(levels[i + 1])
    ensures DistinctNumbers(PushedOnto(levels, i, copy, number, maxLevel))
  {
  }

  /**
   Above the bottom: a key that nothing newer hides keeps its answer. Before, that
   is the answer of the runs taken off, the target level and those below; after,
   the copied runs answer where they decide.
   */
  ghost predicate CopyAgrees(levels: seq<Level>, i: nat, copy: Level, number: nat, top: Table)
    requires i + 1 < |levels|
  {
    var gone := Removed(copy, levels[i]);
    forall k :: k !in Newer(levels, i, gone, top) ==>
      Answer(Taken([gone] + levels[i + 1..], k), k) ==
      if CopyDecides(copy, levels[i + 1], number, k) then Answer(Highest(copy, k), k)
      else Answer(Taken(levels[i + 1..], k), k)
  }

  lemma StayInTermsOfCopy(levels: seq<Level>, i: nat, copy: seq<Level>, number: nat, maxLevel: nat, top: Table)
    requires |levels| == |copy| == maxLevel + 1 && i + 1 < maxLevel && DistinctNumbers(copy[i])
    ensures AnswersStay(levels, i, copy[i], PushedOnto(levels, i, copy, number, maxLevel), top) <==>
            CopyAgrees(levels, i, copy[i], number, top)
  {
    var gone, target := Removed(copy[i], levels[i]), PushedOnto(levels, i, copy, number, maxLevel);
    var before, after := [gone, levels[i + 1]] + levels[i + 2..], [target] + levels[i + 2..];
    assert before == [gone] + levels[i + 1..];
    forall k
      ensures Answer(Taken(after, k), k) ==
              if CopyDecides(copy[i], levels[i + 1], number, k) then Answer(Highest(copy[i], k), k)
              else Answer(Taken(levels[i + 1..], k), k)
    {
      TieredAnswers(levels, i, copy, number, maxLevel, k);
    }
  }

  lemma StaleTieringExactly(levels: seq<Level>, i: nat, copy: seq<Level>, number: nat, maxLevel: nat, top: Table)
    requires |levels| == |copy| == maxLevel + 1 && i + 1 < maxLevel
    requires LevelsDistinct(levels) && InNumberOrder(levels[i]) && DistinctNumbers(copy[i])
    requires number !in Numbers(levels[i + 1])
    ensures Live(DiskTable(Committed(levels, i, copy[i], copy[i + 1], number, maxLevel)) + top) ==
            Live(DiskTable(levels) + top)
            <==> CopyAgrees(levels, i, copy[i], number, top)
  {
    PushedDistinct(levels, i, copy, number, maxLevel);
    StaleWriteBackExactly(levels, i, copy, number, maxLevel, top);
    StayInTermsOfCopy(levels, i, copy, number, maxLevel, top);
  }

  lemma WrittenBackIsCommitted(t: Tree, copy: seq<Level>, i: nat, number: nat, maxLevel: nat)
    requires |t.levels| == |copy| == maxLevel + 1 && i < maxLevel
    ensures var job := JobFor(copy, i);
            WrittenBack(t, t.generation, job, ResultOf(job, copy[i], number, maxLevel), maxLevel) ==
            t.(levels := Committed(t.levels, i, copy[i], copy[i + 1], number, maxLevel))
  {
    PickAll(copy[i]);
  }

  /**
   In any state, with or without a flush under way: a write-back under the current
   generation is invisible exactly when the answers stay.
   */
  lemma StaleRoundExactly(s: State, copy: seq<Level>, i: nat, number: nat, maxLevel: nat)
    requires |s.tree.levels| == |copy| == maxLevel + 1 && i < maxLevel
    requires LevelsDistinct(s.tree.levels) && InNumberOrder(s.tree.levels[i])
    requires number !in Numbers(s.tree.levels[i + 1])
    ensures var job := JobFor(copy, i);
            var result := ResultOf(job, copy[i], number, maxLevel);
            var after := WrittenBack(s.tree, s.tree.generation, job, result, maxLevel);
            Live(View(s.(tree := after))) == Live(View(s)) <==>
            AnswersStay(s.tree.levels, i, copy[i], PushedOnto(s.tree.levels, i, copy, number, maxLevel), OnTop(s))
  {
    WrittenBackIsCommitted(s.tree, copy, i, number, maxLevel);
    PushedDistinct(s.tree.levels, i, copy, number, maxLevel);
    StaleWriteBackExactly(s.tree.levels, i, copy, number, maxLevel, OnTop(s));
  }
}
