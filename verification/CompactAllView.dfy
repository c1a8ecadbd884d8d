/**
 `compact_all` merges every run of the tree in run-number order, whatever level
 it is on. That is the order readers use exactly when run numbers fall with
 depth, and readers see no change exactly when for every key the two orders
 answer alike.
 */
module CompactAllView {
  import opened Keys
  import opened Sorting
  import opened Entries
  import opened Levels
  import opened RunOrder
  import opened Compaction
  import opened CompactionView
  import opened LevelInvariant
  import opened TreeState
  import opened Reading
  import opened Holders

  // ----- Layers against numbers -----

  /** The order `range` overwrites in: deepest level first, by number within a level. */
  function OldestFirst(levels: seq<Level>): seq<Run> {
    if levels == [] then [] else OldestFirst(levels[1..]) + SortBy(ByNumber, levels[0])
  }

  lemma {:induction false} DiskTableIsMerge(levels: seq<Level>)
    ensures DiskTable(levels) == MergeRuns(OldestFirst(levels))
  {
    if levels != [] {
      DiskTableIsMerge(levels[1..]);
      MergeRunsAppend(OldestFirst(levels[1..]), SortBy(ByNumber, levels[0]));
    }
  }

  /** Every run of a level is newer, by number, than every run of a deeper one. */
  ghost predicate NumbersFallWithDepth(levels: seq<Level>) {
    forall i, j | 0 <= i < j < |levels| :: NumbersBelow(levels[j], levels[i])
  }

  lemma {:induction false} FlattenPermutes(levels: seq<Level>)
    ensures multiset(OldestFirst(levels)) == multiset(Flatten(levels))
  {
    if levels != [] {
      FlattenPermutes(levels[1..]);
      SortByPermutes(ByNumber, levels[0]);
    }
  }

  lemma {:induction false} InFlatten(levels: seq<Level>, run: Run)
    ensures run in Flatten(levels) <==> exists i :: 0 <= i < |levels| && run in levels[i]
  {
    if levels != [] {
      var rest := levels[1..];
      InFlatten(rest, run);
      if run in Flatten(rest) {
        var i :| 0 <= i < |rest| && run in rest[i];
        assert run in levels[i + 1];
      }
      if exists i :: 0 <= i < |levels| && run in levels[i] {
        var i :| 0 <= i < |levels| && run in levels[i];
        if i > 0 {
          assert run in rest[i - 1];
        }
      }
    }
  }

  lemma {:induction false} FlattenEmpty(levels: seq<Level>)
    requires forall i | 0 <= i < |levels| :: levels[i] == []
    ensures Flatten(levels) == []
  {
    if levels != [] {
      FlattenEmpty(levels[1..]);
    }
  }

  lemma FallsAtFront(levels: seq<Level>)
    requires levels != []
    ensures NumbersFallWithDepth(levels) <==>
            NumbersFallWithDepth(levels[1..]) && NumbersBelow(Flatten(levels[1..]), levels[0])
  {
    var rest := levels[1..];
    var deeper := Flatten(rest);
    if NumbersFallWithDepth(levels) {
      forall p, q | 0 <= p < |deeper| && 0 <= q < |levels[0]| ensures deeper[p].number < levels[0][q].number {
        InFlatten(rest, deeper[p]);
        var i :| 0 <= i < |rest| && deeper[p] in rest[i];
        assert NumbersBelow(levels[i + 1], levels[0]);
      }
      forall i, j | 0 <= i < j < |rest| ensures NumbersBelow(rest[j], rest[i]) {
        assert NumbersBelow(levels[j + 1], levels[i + 1]);
      }
    }
    if NumbersFallWithDepth(rest) && NumbersBelow(deeper, levels[0]) {
      forall i, j | 0 <= i < j < |levels| ensures NumbersBelow(levels[j], levels[i]) {
        if i == 0 {
          forall p, q | 0 <= p < |levels[j]| && 0 <= q < |levels[0]|
            ensures levels[j][p].number < levels[0][q].number
          {
            assert levels[j][p] in rest[j - 1];
            InFlatten(rest, levels[j][p]);
          }
        } else {
          assert NumbersBelow(rest[j - 1], rest[i - 1]);
        }
      }
    }
  }

  lemma AllButFirstDistinct(a: seq<Run>, b: seq<Run>)
    requires DistinctNumbers(a + b)
    ensures DistinctNumbers(a) && DistinctNumbers(b)
    ensures forall i, j | 0 <= i < |a| && 0 <= j < |b| :: a[i].number != b[j].number
  {
    var all := a + b;
    assert forall i | 0 <= i < |a| :: all[i] == a[i];
    assert forall j | 0 <= j < |b| :: all[|a| + j] == b[j];
  }

  /** Sorting everything by number gives the readers' order exactly when numbers fall with depth. */
  lemma {:induction false} SortIsLayered(levels: seq<Level>)
    requires DistinctNumbers(Flatten(levels))
    ensures SortBy(ByNumber, Flatten(levels)) == OldestFirst(levels) <==> NumbersFallWithDepth(levels)
  {
    if levels != [] {
      var top, rest := levels[0], levels[1..];
      var deeper := Flatten(rest);
      AllButFirstDistinct(top, deeper);
      SortIsLayered(rest);
      FallsAtFront(levels);
      if NumbersFallWithDepth(levels) {
        assert multiset(top + deeper) == multiset(deeper + top);
        SortIgnoresOrder(top + deeper, deeper + top);
        SortBySplit(ByNumber, deeper, top);
      }
      if SortBy(ByNumber, Flatten(levels)) == OldestFirst(levels) {
        LayersSplit(levels);
      }
    }
  }

  /** If the readers' order is in number order, then so are its two halves, and the deep half is lower. */
  lemma LayersSplit(levels: seq<Level>)
    requires levels != [] && DistinctNumbers(Flatten(levels))
    requires SortBy(ByNumber, Flatten(levels)) == OldestFirst(levels)
    ensures SortBy(ByNumber, Flatten(levels[1..])) == OldestFirst(levels[1..])
    ensures NumbersBelow(Flatten(levels[1..]), levels[0])
  {
    var top, rest := levels[0], levels[1..];
    var low, high := OldestFirst(rest), SortBy(ByNumber, top);
    SortedStrictly(Flatten(levels));
    StrictHalves(low, high);
    FlattenPermutes(rest);
    AllButFirstDistinct(top, Flatten(rest));
    SortedStrictly(Flatten(rest));
    StrictOrderUnique(low, SortBy(ByNumber, Flatten(rest)));
    SortByPermutes(ByNumber, top);
    PermutedBelow(low, high, Flatten(rest), top);
  }

  lemma StrictHalves(low: seq<Run>, high: seq<Run>)
    requires StrictlyByNumber(low + high)
    ensures StrictlyByNumber(low) && NumbersBelow(low, high)
  {
    var all := low + high;
    assert forall i | 0 <= i < |low| :: all[i] == low[i];
    assert forall j | 0 <= j < |high| :: all[|low| + j] == high[j];
  }

  lemma PermutedBelow(low: seq<Run>, high: seq<Run>, low': seq<Run>, high': seq<Run>)
    requires NumbersBelow(low, high) && multiset(low) == multiset(low') && multiset(high) == multiset(high')
    ensures NumbersBelow(low', high')
  {
    forall p, q | 0 <= p < |low'| && 0 <= q < |high'| ensures low'[p].number < high'[q].number {
      SameElement(low', low, low'[p]);
      SameElement(high', high, high'[q]);
      var i :| 0 <= i < |low| && low[i] == low'[p];
      var j :| 0 <= j < |high| && high[j] == high'[q];
      assert low[i].number < high[j].number;
    }
  }

  // ----- compact_all -----

  lemma {:induction false} FlattenDistinct(levels: seq<Level>, maxLevel: nat, bound: nat, i: nat)
    requires LevelsOk(levels, maxLevel, bound) && i <= |levels|
    ensures DistinctNumbers(Flatten(levels[i..]))
    decreases |levels| - i
  {
    if i < |levels| {
      FlattenDistinct(levels, maxLevel, bound, i + 1);
      var top, rest := levels[i], levels[i + 1..];
      assert levels[i..][1..] == rest;
      var deeper := Flatten(rest);
      assert LevelOk(top, bound);
      forall p, q | 0 <= p < |top| && 0 <= q < |deeper| ensures top[p].number != deeper[q].number {
        InFlatten(rest, deeper[q]);
        var j :| 0 <= j < |rest| && deeper[q] in rest[j];
        var r :| 0 <= r < |rest[j]| && rest[j][r] == deeper[q];
        assert rest[j] == levels[i + 1 + j];
        assert top[p].number in Numbers(levels[i]) && levels[i + 1 + j][r].number in Numbers(levels[i + 1 + j]);
      }
    }
  }

  lemma {:induction false} DiskWithinTop(levels: seq<Level>)
    requires forall i | 0 <= i < |levels| :: WithinTop(LevelTable(levels[i]))
    ensures WithinTop(DiskTable(levels))
  {
    if levels != [] {
      DiskWithinTop(levels[1..]);
    }
  }

  lemma {:induction false} OnlyBottom(maxLevel: nat, bottom: Level)
    ensures DiskTable(Emptied(maxLevel + 1)[maxLevel := bottom]) == LevelTable(bottom)
  {
    var levels: seq<Level> := Emptied(maxLevel + 1)[maxLevel := bottom];
    if maxLevel == 0 {
      assert levels[1..] == [];
      assert DiskTable([]) + LevelTable(bottom) == LevelTable(bottom);
    } else {
      assert levels[1..] == Emptied(maxLevel)[maxLevel - 1 := bottom];
      OnlyBottom(maxLevel - 1, bottom);
      assert LevelTable([]) == map[];
      assert LevelTable(bottom) + map[] == LevelTable(bottom);
    }
  }

  /** For every key the memtable has not, the highest number on disk answers as the run readers take. */
  ghost predicate NumbersAnswerAlike(levels: seq<Level>, mem: Table) {
    forall k :: k !in mem ==> Answer(Highest(Flatten(levels), k), k) == Answer(Taken(levels, k), k)
  }

  lemma LevelsDistinctOf(levels: seq<Level>, maxLevel: nat, bound: nat)
    requires LevelsOk(levels, maxLevel, bound)
    ensures LevelsDistinct(levels) && DistinctNumbers(Flatten(levels))
  {
    assert levels[0..] == levels;
    FlattenDistinct(levels, maxLevel, bound, 0);
    forall i | 0 <= i < |levels| ensures DistinctNumbers(levels[i]) {
      assert LevelOk(levels[i], bound);
    }
  }

  lemma MergedWithinBound(levels: seq<Level>, maxLevel: nat, bound: nat)
    requires LevelsOk(levels, maxLevel, bound)
    ensures WithinTop(LevelTable(Flatten(levels)))
  {
    forall k | k in LevelTable(Flatten(levels)) ensures Le(k, TOP_KEY) {
      LevelTableKeys(Flatten(levels), k);
      var run :| run in Flatten(levels) && k in ToTable(run.entries);
      InFlatten(levels, run);
      var i :| 0 <= i < |levels| && run in levels[i];
      var p :| 0 <= p < |levels[i]| && levels[i][p] == run;
      assert LevelOk(levels[i], bound) && RunOk(levels[i][p], bound);
    }
  }

  /** What the levels hold after `compact_all`: the live entries of the merge by number. */
  lemma CompactedAllTable(t: Tree, maxLevel: nat)
    requires LevelsOk(t.levels, maxLevel, t.nextRun)
    ensures var t' := CompactedAll(t, maxLevel);
            && t'.mem == t.mem
            && DiskTable(t'.levels) == DropTombstones(LevelTable(Flatten(t.levels)))
            && |Flatten(t'.levels)| <= 1
            && NoTombstones(DiskTable(t'.levels))
  {
    var all := Flatten(t.levels);
    MergedWithinBound(t.levels, maxLevel, t.nextRun);
    ScannedAll(LevelTable(all));
    var kept := DropTombstones(LevelTable(all));
    if all == [] {
      assert t.levels[0..] == t.levels;
      FlattenNothing(t.levels);
      assert LevelTable([]) == map[];
      assert kept == map[];
    } else {
      var output := OutputRun(kept, t.nextRun, 0);
      var bottom := if output.None? then [] else [output.value];
      OutputTable(kept, t.nextRun, 0);
      assert LevelTable(bottom) == kept;
      OnlyBottom(maxLevel, bottom);
      FlattenOnlyBottom(maxLevel, bottom);
    }
  }

  lemma {:induction false} FlattenNothing(levels: seq<Level>)
    requires Flatten(levels) == []
    ensures DiskTable(levels) == map[]
  {
    if levels != [] {
      FlattenNothing(levels[1..]);
      assert LevelTable(levels[0]) == map[];
    }
  }

  /** Exactly when readers cannot tell that `compact_all` was called. */
  lemma CompactAllExactly(t: Tree, maxLevel: nat)
    requires LevelsOk(t.levels, maxLevel, t.nextRun)
    ensures Live(Contents(CompactedAll(t, maxLevel))) == Live(Contents(t)) <==> NumbersAnswerAlike(t.levels, t.mem)
  {
    var all, disk := LevelTable(Flatten(t.levels)), DiskTable(t.levels);
    CompactedAllTable(t, maxLevel);
    LevelsDistinctOf(t.levels, maxLevel, t.nextRun);
    LiveDropTombstones(all);
    LiveUnder(DropTombstones(all), all, t.mem);
    SameLiveUnder(all, disk, t.mem);
    forall k
      ensures LiveValue(all, k) == Answer(Highest(Flatten(t.levels), k), k)
      ensures LiveValue(disk, k) == Answer(Taken(t.levels, k), k)
    {
      HighestAnswers(Flatten(t.levels), k);
      TakenAnswers(t.levels, k);
    }
  }

  /** Among the runs that hold a key, numbers fall with depth. */
  ghost predicate HoldersFallWithDepth(levels: seq<Level>) {
    forall i, j, a, b, k ::
      0 <= i < j < |levels| && a in levels[i] && b in levels[j] && Holds(a, k) && Holds(b, k) ==> b.number < a.number
  }

  lemma FallingTakesHighest(levels: seq<Level>, k: Key)
    requires DistinctNumbers(Flatten(levels)) && HoldersFallWithDepth(levels)
    ensures Highest(Flatten(levels), k) == Taken(levels, k)
  {
    var all := Flatten(levels);
    TakenIs(levels, k);
    match Taken(levels, k)
    case Some(run) =>
      var i: nat :| TakenAt(levels, k, i, run);
      InFlatten(levels, run);
      forall other | other in all && Holds(other, k) ensures other.number <= run.number {
        InFlatten(levels, other);
        var j :| 0 <= j < |levels| && other in levels[j];
      }
      HighestIsOnly(all, k, run);
    case None =>
      HighestIs(all, k);
      if Highest(all, k).Some? {
        InFlatten(levels, Highest(all, k).value);
      }
  }

  /**
   When numbers fall with depth among the runs that hold a key, `compact_all`
   changes nothing readers see and leaves at most one run on disk, without
   tombstones.
   */
  lemma CompactAllKeepsView(t: Tree, maxLevel: nat)
    requires LevelsOk(t.levels, maxLevel, t.nextRun) && HoldersFallWithDepth(t.levels)
    ensures var t' := CompactedAll(t, maxLevel);
            && Live(Contents(t')) == Live(Contents(t))
            && |Flatten(t'.levels)| <= 1
            && NoTombstones(DiskTable(t'.levels))
  {
    LevelsDistinctOf(t.levels, maxLevel, t.nextRun);
    forall k ensures Highest(Flatten(t.levels), k) == Taken(t.levels, k) {
      FallingTakesHighest(t.levels, k);
    }
    CompactAllExactly(t, maxLevel);
    CompactedAllTable(t, maxLevel);
  }

  /**
   So `compact_all` is invisible whenever the number order it merges in is the
   readers' order; a run flushed during a merge into L1 ends that.
   */
  lemma LayeredNumbersKeepView(t: Tree, maxLevel: nat)
    requires LevelsOk(t.levels, maxLevel, t.nextRun) && NumbersFallWithDepth(t.levels)
    ensures Live(Contents(CompactedAll(t, maxLevel))) == Live(Contents(t))
  {
    FallingHolders(t.levels);
    CompactAllKeepsView(t, maxLevel);
  }

  lemma FallingHolders(levels: seq<Level>)
    requires NumbersFallWithDepth(levels)
    ensures HoldersFallWithDepth(levels)
  {
    forall i, j, a, b, k | 0 <= i < j < |levels| && a in levels[i] && b in levels[j] && Holds(a, k) && Holds(b, k)
      ensures b.number < a.number
    {
      assert NumbersBelow(levels[j], levels[i]);
    }
  }

  // ----- The invariant after compact_all -----

  lemma OnlyBottomOk(maxLevel: nat, bottom: Level, bound: nat)
    requires LevelOk(bottom, bound) && |bottom| <= 1 && NoTombstones(LevelTable(bottom))
    ensures LevelsOk(Emptied(maxLevel + 1)[maxLevel := bottom], maxLevel, bound)
  {
    var levels: seq<Level> := Emptied(maxLevel + 1)[maxLevel := bottom];
    forall i | 0 <= i < |levels| ensures LevelOk(levels[i], bound) {
      assert levels[i] == if i == maxLevel then bottom else [];
    }
    forall i, j | 0 <= i < j < |levels| ensures Numbers(levels[i]) !! Numbers(levels[j]) {
      assert levels[i] == [];
    }
  }

  lemma MergedBottomOk(kept: Table, number: nat)
    requires WithinTop(kept) && NoTombstones(kept)
    ensures var output := OutputRun(kept, number, 0);
            var bottom: Level := if output.None? then [] else [output.value];
            LevelOk(bottom, number + 1) && |bottom| <= 1 && NoTombstones(LevelTable(bottom))
  {
    OutputTable(kept, number, 0);
    if kept != map[] {
      OutputRunOk(kept, number, 0, number + 1);
    } else {
      assert LevelTable([]) == map[];
    }
  }

  /** The tree `compact_all` leaves is as sound as the one it found. */
  lemma CompactedAllOk(t: Tree, maxLevel: nat)
    requires LevelsOk(t.levels, maxLevel, t.nextRun)
    ensures var t' := CompactedAll(t, maxLevel);
            && LevelsOk(t'.levels, maxLevel, t'.nextRun)
            && t'.nextRun >= t.nextRun && t'.mem == t.mem && t'.generation == t.generation
  {
    var all := Flatten(t.levels);
    if all != [] {
      var kept := DropTombstones(Scanned(LevelTable(all)));
      var output := OutputRun(kept, t.nextRun, 0);
      MergedBottomOk(kept, t.nextRun);
      OnlyBottomOk(maxLevel, if output.None? then [] else [output.value], t.nextRun + 1);
    }
  }

  lemma {:induction false} FlattenOnlyBottom(maxLevel: nat, bottom: Level)
    ensures Flatten(Emptied(maxLevel + 1)[maxLevel := bottom]) == bottom
  {
    var levels: seq<Level> := Emptied(maxLevel + 1)[maxLevel := bottom];
    if maxLevel == 0 {
      assert levels[1..] == [];
    } else {
      assert levels[1..] == Emptied(maxLevel)[maxLevel - 1 := bottom];
      FlattenOnlyBottom(maxLevel - 1, bottom);
    }
  }
}
