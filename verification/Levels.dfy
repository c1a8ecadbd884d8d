/**
 Immutable runs arranged in levels, and the table they define: within a level
 the higher run number wins, and a level wins over every deeper one.
 */
module Levels {
  import opened Wrappers
  import opened Keys
  import opened Sorting
  import opened Entries

  /** `level` is the tag stored in the run's handle, not where the run is kept. */
  datatype Run = Run(number: nat, level: nat, entries: seq<Entry>)

  type Level = seq<Run>

  predicate ByNumber(a: Run, b: Run) {
    a.number <= b.number
  }

  /** Oldest first, so that newer entries overwrite older ones. */
  function MergeRuns(runs: seq<Run>): Table {
    if runs == [] then map[] else MergeRuns(runs[..|runs| - 1]) + ToTable(runs[|runs| - 1].entries)
  }

  function LevelTable(level: Level): Table {
    MergeRuns(SortBy(ByNumber, level))
  }

  /** `levels[0]` is the newest level. */
  function DiskTable(levels: seq<Level>): Table {
    if levels == [] then map[] else DiskTable(levels[1..]) + LevelTable(levels[0])
  }

  function LevelSize(level: Level): nat {
    if level == [] then 0 else LevelSize(level[..|level| - 1]) + |level[|level| - 1].entries|
  }

  /** The size of a level is that of its runs added up. */
  lemma {:induction false} LevelSizeAdds(a: Level, b: Level)
    ensures LevelSize(a + b) == LevelSize(a) + LevelSize(b)
    ensures |b| == 1 ==> LevelSize(b) == |b[0].entries|
  {
    if b == [] {
      assert a + b == a;
    } else {
      assert (a + b)[..|a + b| - 1] == a + b[..|b| - 1];
      LevelSizeAdds(a, b[..|b| - 1]);
    }
  }

  lemma OverlayAssociative(a: Table, b: Table, c: Table)
    ensures (a + b) + c == a + (b + c)
  {
  }

  lemma {:induction false} MergeRunsAppend(a: seq<Run>, b: seq<Run>)
    ensures MergeRuns(a + b) == MergeRuns(a) + MergeRuns(b)
  {
    if b == [] {
      assert a + b == a;
      assert MergeRuns(a) + map[] == MergeRuns(a);
    } else {
      var all, init, last := a + b, b[..|b| - 1], b[|b| - 1];
      assert all[..|all| - 1] == a + init && all[|all| - 1] == last;
      MergeRunsAppend(a, init);
      OverlayAssociative(MergeRuns(a), MergeRuns(init), ToTable(last.entries));
    }
  }

  ghost predicate NumbersBelow(low: seq<Run>, high: seq<Run>) {
    forall i, j | 0 <= i < |low| && 0 <= j < |high| :: low[i].number < high[j].number
  }

  ghost predicate AllBelow(level: Level, bound: nat) {
    forall i | 0 <= i < |level| :: level[i].number < bound
  }

  /** A level made of older runs followed by newer ones. */
  lemma LevelTableSplit(low: Level, high: Level)
    requires NumbersBelow(low, high)
    ensures LevelTable(low + high) == LevelTable(low) + LevelTable(high)
  {
    SortBySplit(ByNumber, low, high);
    MergeRunsAppend(SortBy(ByNumber, low), SortBy(ByNumber, high));
  }

  lemma LevelTableOne(run: Run)
    ensures LevelTable([run]) == ToTable(run.entries)
  {
    assert [run][..0] == [];
    assert SortBy(ByNumber, [run]) == [run];
    assert MergeRuns([run]) == MergeRuns([]) + ToTable(run.entries);
  }

  lemma {:induction false} DiskTableAppend(upper: seq<Level>, lower: seq<Level>)
    ensures DiskTable(upper + lower) == DiskTable(lower) + DiskTable(upper)
  {
    if upper == [] {
      assert upper + lower == lower;
      assert DiskTable(lower) + map[] == DiskTable(lower);
    } else {
      var all := upper + lower;
      assert all[1..] == upper[1..] + lower && all[0] == upper[0];
      DiskTableAppend(upper[1..], lower);
      OverlayAssociative(DiskTable(lower), DiskTable(upper[1..]), LevelTable(upper[0]));
    }
  }

  /** Levels without runs define no entry. */
  lemma {:induction false} EmptyLevels(levels: seq<Level>)
    requires forall i | 0 <= i < |levels| :: levels[i] == []
    ensures DiskTable(levels) == map[]
  {
    if levels != [] {
      EmptyLevels(levels[1..]);
      assert LevelTable(levels[0]) == map[];
    }
  }

  /** The table of the levels, taken apart around levels `i` and `i + 1`. */
  lemma DiskTableAround(levels: seq<Level>, i: nat)
    requires i + 1 < |levels|
    ensures DiskTable(levels) ==
            DiskTable(levels[i + 2..]) + LevelTable(levels[i + 1]) + LevelTable(levels[i]) + DiskTable(levels[..i])
  {
    var upper, lower := levels[..i], levels[i..];
    DiskTableAppend(upper, lower);
    assert levels == upper + lower;
    assert lower[1..] == levels[i + 1..] && lower[0] == levels[i];
    assert levels[i + 1..][1..] == levels[i + 2..];
    assert DiskTable(lower) == DiskTable(levels[i + 1..]) + LevelTable(levels[i]);
    assert DiskTable(levels[i + 1..]) == DiskTable(levels[i + 2..]) + LevelTable(levels[i + 1]);
  }

  // ----- What readers can tell apart -----

  /** Putting the same newer entries on top of two tables readers cannot tell apart. */
  lemma LiveUnder(a: Table, b: Table, top: Table)
    requires Live(a) == Live(b)
    ensures Live(a + top) == Live(b + top)
  {
    forall k ensures k in Live(a + top) <==> k in Live(b + top) {
      assert k in Live(a) <==> k in Live(b);
    }
    forall k | k in Live(a + top) ensures Live(a + top)[k] == Live(b + top)[k] {
      if k !in top {
        assert k in Live(a);
      }
    }
  }

  lemma LiveDropTombstones(t: Table)
    ensures Live(DropTombstones(t)) == Live(t)
  {
  }

  lemma {:induction false} MergeRunsKeys(runs: seq<Run>, k: Key)
    ensures k in MergeRuns(runs) <==> exists i :: 0 <= i < |runs| && k in ToTable(runs[i].entries)
  {
    if runs != [] {
      var init := runs[..|runs| - 1];
      MergeRunsKeys(init, k);
      if k in MergeRuns(init) {
        var i :| 0 <= i < |init| && k in ToTable(init[i].entries);
        assert k in ToTable(runs[i].entries);
      }
      if exists i :: 0 <= i < |runs| && k in ToTable(runs[i].entries) {
        var i :| 0 <= i < |runs| && k in ToTable(runs[i].entries);
        if i < |init| {
          assert k in ToTable(init[i].entries);
        }
      }
    }
  }

  lemma LevelTableKeys(level: Level, k: Key)
    ensures k in LevelTable(level) <==> exists run :: run in level && k in ToTable(run.entries)
  {
    var sorted := SortBy(ByNumber, level);
    SortByPermutes(ByNumber, level);
    MergeRunsKeys(sorted, k);
    if k in LevelTable(level) {
      var i :| 0 <= i < |sorted| && k in ToTable(sorted[i].entries);
      SameElement(level, sorted, sorted[i]);
    }
    if exists run :: run in level && k in ToTable(run.entries) {
      var run :| run in level && k in ToTable(run.entries);
      SameElement(level, sorted, run);
      var i :| 0 <= i < |sorted| && sorted[i] == run;
      assert k in ToTable(sorted[i].entries);
    }
  }

  // ----- The merging loops of `range` and of compaction -----

  lemma InsertStep(all: Table, a: Table, key: Key, val: Option<Value>)
    ensures all + a[key := val] == (all + a)[key := val]
  {
  }

  lemma ClipOverlay(a: Table, b: Table, from: Key, to: Key)
    ensures Clip(a + b, from, to) == Clip(a, from, to) + Clip(b, from, to)
  {
  }

  /** Later entries overwrite: `insert(key, value)` for every entry read of a run. */
  method InsertRange(all: Table, run: Run, from: Key, to: Key) returns (r: Table)
    ensures r == all + Clip(ToTable(run.entries), from, to)
  {
    var entries := RangeOf(run.entries, from, to);
    ToTableRange(run.entries, from, to);
    r := all;
    assert all + ToTable([]) == all;
    for j := 0 to |entries|
      invariant r == all + ToTable(entries[..j])
    {
      assert entries[..j + 1][..j] == entries[..j];
      InsertStep(all, ToTable(entries[..j]), entries[j].key, entries[j].val);
      r := r[entries[j].key := entries[j].val];
    }
    assert entries[..|entries|] == entries;
  }

  /** The entries in range of runs sorted oldest first, on top of `base`. */
  method MergeOnto(base: Table, sorted: seq<Run>, from: Key, to: Key) returns (all: Table)
    ensures all == base + Clip(MergeRuns(sorted), from, to)
  {
    all := base;
    assert base + Clip(map[], from, to) == base;
    for i := 0 to |sorted|
      invariant all == base + Clip(MergeRuns(sorted[..i]), from, to)
    {
      var older, newer := MergeRuns(sorted[..i]), ToTable(sorted[i].entries);
      all := InsertRange(all, sorted[i], from, to);
      assert sorted[..i + 1][..i] == sorted[..i];
      ClipOverlay(older, newer, from, to);
      OverlayAssociative(base, Clip(older, from, to), Clip(newer, from, to));
    }
    assert sorted[..|sorted|] == sorted;
  }
}
