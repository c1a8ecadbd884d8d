/**
 What committing a merge does to the table readers see. The merge was made of
 `copy`, the runs level `i` held when it was copied; by commit time newer runs
 may stand behind them.
 */
module CompactionView {
  import opened Wrappers
  import opened Keys
  import opened Entries
  import opened Levels
  import opened Compaction

  /** `copy` is still the front of level `i`, and everything behind it is newer. */
  ghost predicate FrontOf(copy: Level, level: Level) {
    copy <= level && NumbersBelow(copy, level[|copy|..])
  }

  /** Every key is within the bound that compaction reads up to. */
  ghost predicate WithinTop(t: Table) {
    forall k | k in t :: Le(k, TOP_KEY)
  }

  /** The merge of a job from level `i`, committed on the present levels. */
  function Committed(levels: seq<Level>, i: nat, copy: Level, targets: Level, number: nat, maxLevel: nat):
    (r: seq<Level>)
    requires |levels| == maxLevel + 1 && i < maxLevel
    ensures |r| == |levels|
  {
    var output := OutputRun(Merged(copy, targets, i + 1 == maxLevel), number, i + 1);
    var job := LevelCompactionJob(i, i + 1, UpTo(|copy|), targets);
    Install(levels, job, CompactionResult(output, UpTo(|copy|)), maxLevel)
  }

  /** Everything newer than the merged runs: the rest of their level, the levels above, and `top`. */
  function Newer(levels: seq<Level>, i: nat, copy: Level, top: Table): Table
    requires i < |levels| && |copy| <= |levels[i]|
  {
    LevelTable(levels[i][|copy|..]) + DiskTable(levels[..i]) + top
  }

  /**
   The commit that goes wrong: a bottom-level merge in which nothing survives
   leaves the old bottom run in place, while the tombstones that hid one of its
   keys are removed and nothing newer hides that key.
   */
  ghost predicate Resurrects(levels: seq<Level>, i: nat, copy: Level, maxLevel: nat, top: Table)
    requires |levels| == maxLevel + 1 && i < maxLevel && |copy| <= |levels[i]|
  {
    && i + 1 == maxLevel
    && Merged(copy, levels[maxLevel], true) == map[]
    && exists k :: k in Live(LevelTable(levels[maxLevel])) && k !in Newer(levels, i, copy, top)
  }

  // ----- Shape of the committed levels -----

  lemma CommittedAt(levels: seq<Level>, i: nat, copy: Level, number: nat, maxLevel: nat)
    requires |levels| == maxLevel + 1 && i < maxLevel && copy <= levels[i]
    ensures var output := OutputRun(Merged(copy, levels[i + 1], i + 1 == maxLevel), number, i + 1);
            Committed(levels, i, copy, levels[i + 1], number, maxLevel) ==
            levels[i := levels[i][|copy|..]]
                  [i + 1 := if output.None? then levels[i + 1]
                            else if i + 1 == maxLevel then [output.value]
                            else levels[i + 1] + [output.value]]
  {
    assert levels[i] == copy + levels[i][|copy|..];
    RemovesExactlyTheCopy(copy, levels[i][|copy|..]);
  }

  /** Readers' table before and after, taken apart around the two levels that change. */
  lemma TakenApart(levels: seq<Level>, i: nat, rest: Level, target: Level, top: Table)
    requires i + 1 < |levels|
    ensures var after := levels[i := rest][i + 1 := target];
            DiskTable(after) + top ==
            DiskTable(levels[i + 2..]) + (LevelTable(target) + (LevelTable(rest) + DiskTable(levels[..i]) + top))
  {
    var after := levels[i := rest][i + 1 := target];
    assert after[..i] == levels[..i] && after[i + 2..] == levels[i + 2..];
    DiskTableAround(after, i);
    Regroup(DiskTable(levels[i + 2..]), LevelTable(target), LevelTable(rest), DiskTable(levels[..i]), top);
  }

  lemma Regroup(a: Table, b: Table, c: Table, d: Table, e: Table)
    ensures a + b + c + d + e == a + (b + (c + d + e))
  {
    OverlayAssociative(a, b, c);
    OverlayAssociative(a, b + c, d);
    OverlayAssociative(a, b + c + d, e);
    Regroup3(b, c, d, e);
  }

  /** A level's front and back, and everything on top of it. */
  lemma SourceApart(levels: seq<Level>, i: nat, copy: Level, top: Table)
    requires i < |levels| && FrontOf(copy, levels[i])
    ensures LevelTable(levels[i]) + DiskTable(levels[..i]) + top == LevelTable(copy) + Newer(levels, i, copy, top)
  {
    var rest := levels[i][|copy|..];
    assert levels[i] == copy + rest;
    LevelTableSplit(copy, rest);
    Regroup3(LevelTable(copy), LevelTable(rest), DiskTable(levels[..i]), top);
  }

  lemma Regroup3(a: Table, b: Table, c: Table, d: Table)
    ensures (a + b) + c + d == a + (b + c + d)
  {
    OverlayAssociative(a, b, c);
    OverlayAssociative(a, b + c, d);
  }

  /** A compaction reads a table completely exactly when no key is above the bound. */
  lemma ScannedAll(t: Table)
    ensures Scanned(t) == t <==> WithinTop(t)
  {
    if Scanned(t) == t {
      forall k | k in t ensures Le(k, TOP_KEY) {
        assert k in Scanned(t);
      }
    }
  }

  lemma OutputTable(t: Table, number: nat, level: nat)
    ensures OutputRun(t, number, level).Some? ==>
              LevelTable([OutputRun(t, number, level).value]) == t &&
              ToTable(OutputRun(t, number, level).value.entries) == t
  {
    ListOfRoundTrip(t);
    LevelTableOne(Run(number, level, ListOf(t)));
  }

  // ----- Tiering -----

  function Pushed(target: Level, output: Option<Run>): Level {
    if output.None? then target else target + [output.value]
  }

  lemma PushedTable(target: Level, t: Table, number: nat, level: nat)
    requires AllBelow(target, number)
    ensures LevelTable(Pushed(target, OutputRun(t, number, level))) == LevelTable(target) + t
  {
    OutputTable(t, number, level);
    var output := OutputRun(t, number, level);
    if output.Some? {
      LevelTableSplit(target, [output.value]);
    }
  }

  /** Above the bottom a commit changes no entry at all, tombstones included. */
  lemma TieringKeepsTable(levels: seq<Level>, i: nat, copy: Level, number: nat, maxLevel: nat, top: Table)
    requires |levels| == maxLevel + 1 && i + 1 < maxLevel && FrontOf(copy, levels[i])
    requires WithinTop(LevelTable(copy))
    requires AllBelow(levels[i + 1], number)
    ensures DiskTable(Committed(levels, i, copy, levels[i + 1], number, maxLevel)) + top == DiskTable(levels) + top
  {
    var moved, target, rest := LevelTable(copy), levels[i + 1], levels[i][|copy|..];
    var target' := Pushed(target, OutputRun(moved, number, i + 1));
    ScannedAll(moved);
    CommittedAt(levels, i, copy, number, maxLevel);
    assert Committed(levels, i, copy, target, number, maxLevel) == levels[i := rest][i + 1 := target'];
    PushedTable(target, moved, number, i + 1);
    TakenApart(levels, i, rest, target', top);
    Unchanged(levels, i, top);
    SourceApart(levels, i, copy, top);
    OverlayAssociative(LevelTable(target), moved, Newer(levels, i, copy, top));
  }

  lemma Unchanged(levels: seq<Level>, i: nat, top: Table)
    requires i + 1 < |levels|
    ensures DiskTable(levels) + top ==
            DiskTable(levels[i + 2..]) +
            (LevelTable(levels[i + 1]) + (LevelTable(levels[i]) + DiskTable(levels[..i]) + top))
  {
    assert levels[i := levels[i]][i + 1 := levels[i + 1]] == levels;
    TakenApart(levels, i, levels[i], levels[i + 1], top);
  }

  // ----- Leveling -----

  lemma LiveOfSurvivors(t: Table, newer: Table)
    ensures Live(DropTombstones(t) + newer) == Live(t + newer)
  {
    LiveDropTombstones(t);
    LiveUnder(DropTombstones(t), t, newer);
  }

  /** Removing tombstones without removing what they hide. */
  lemma Unhiding(below: Table, tombs: Table, newer: Table)
    requires DropTombstones(below + tombs) == map[]
    ensures Live(below + newer) == Live(below + tombs + newer) <==> forall k | k in Live(below) :: k in newer
  {
    forall k ensures k in Live(below + tombs + newer) ==> k in newer {
      assert k in Live(below + tombs) ==> k in DropTombstones(below + tombs);
    }
    if forall k | k in Live(below) :: k in newer {
      assert forall k :: k in Live(below + newer) <==> k in Live(below + tombs + newer);
    } else {
      var k :| k in Live(below) && k !in newer;
      assert k in Live(below + newer);
    }
  }

  lemma FirstWinsOne(level: Level)
    requires |level| <= 1
    ensures FirstWins(level) == LevelTable(level)
  {
    if |level| == 1 {
      assert level == [level[0]] && level[..0] == [];
      LevelTableOne(level[0]);
      assert FirstWins(level) == ToTable(level[0].entries) + FirstWins([]);
    }
  }

  /** At the bottom readers see no change, unless the commit resurrects a key. */
  lemma LevelingKeepsView(levels: seq<Level>, i: nat, copy: Level, number: nat, maxLevel: nat, top: Table)
    requires |levels| == maxLevel + 1 && i + 1 == maxLevel && FrontOf(copy, levels[i])
    requires |levels[maxLevel]| <= 1
    requires WithinTop(LevelTable(copy)) && WithinTop(LevelTable(levels[maxLevel]))
    ensures Live(DiskTable(Committed(levels, i, copy, levels[i + 1], number, maxLevel)) + top) ==
            Live(DiskTable(levels) + top)
            <==> !Resurrects(levels, i, copy, maxLevel, top)
  {
    var moved, target, rest := LevelTable(copy), levels[i + 1], levels[i][|copy|..];
    var below, newer := LevelTable(target), Newer(levels, i, copy, top);
    var merged := Merged(copy, target, true);
    FirstWinsOne(target);
    ScannedAll(moved);
    ScannedAll(below);
    assert merged == DropTombstones(below + moved);
    OutputTable(merged, number, maxLevel);
    var output := OutputRun(merged, number, i + 1);
    var target' := if output.None? then target else [output.value];
    CommittedAt(levels, i, copy, number, maxLevel);
    TakenApart(levels, i, rest, target', top);
    Unchanged(levels, i, top);
    SourceApart(levels, i, copy, top);
    assert DiskTable(levels[i + 2..]) == map[];
    NothingBelow(LevelTable(target') + newer);
    NothingBelow(below + (moved + newer));
    OverlayAssociative(below, moved, newer);
    if output.Some? {
      LiveOfSurvivors(below + moved, newer);
    } else {
      Unhiding(below, moved, newer);
    }
  }

  lemma NothingBelow(t: Table)
    ensures map[] + t == t
  {
  }

  /** Exactly when a commit leaves readers' view alone. */
  lemma CommitKeepsView(levels: seq<Level>, i: nat, copy: Level, number: nat, maxLevel: nat, top: Table)
    requires |levels| == maxLevel + 1 && i < maxLevel && FrontOf(copy, levels[i])
    requires |levels[maxLevel]| <= 1
    requires WithinTop(LevelTable(copy)) && WithinTop(LevelTable(levels[maxLevel]))
    requires AllBelow(levels[i + 1], number)
    ensures Live(DiskTable(Committed(levels, i, copy, levels[i + 1], number, maxLevel)) + top) ==
            Live(DiskTable(levels) + top)
            <==> !Resurrects(levels, i, copy, maxLevel, top)
  {
    if i + 1 < maxLevel {
      TieringKeepsTable(levels, i, copy, number, maxLevel, top);
    } else {
      LevelingKeepsView(levels, i, copy, number, maxLevel, top);
    }
  }
}
