/**
 A tree opened from a persistent snapshot: exactly when it shows readers what the
 saved tree did, and exactly when its vectors are in the order `get` relies on,
 and that it conforms from there on.
 */
module ReopenedTree {
  import opened Wrappers
  import opened Keys
  import opened Sorting
  import opened Entries
  import opened Levels
  import opened Compaction
  import opened CompactionView
  import opened LevelInvariant
  import opened TreeState
  import opened Reading
  import opened Reference
  import opened Interleaving
  import opened InterleavingStructure
  import opened Conformance
  import opened CompactAllView
  import opened LevelTags
  import opened Snapshots
  import opened ReopenView
  import opened VectorOrder
  import opened Witnesses

  /** A caller and a compactor on a tree just opened from a snapshot. */
  function OpenedState(snapshot: PersistentSnapshot, maxLevel: nat): State
    requires Complete(snapshot)
  {
    State(Reopened(RunsOf(snapshot), maxLevel), None, map[], Idle)
  }

  lemma OpenedSound(c: Config, snapshot: PersistentSnapshot)
    requires c.maxLevel > 0 && Complete(snapshot)
    requires var t := Reopened(RunsOf(snapshot), c.maxLevel); LevelsOk(t.levels, c.maxLevel, t.nextRun)
    ensures StateOk(c, OpenedState(snapshot, c.maxLevel))
  {
  }

  lemma OpenedAgrees(snapshot: PersistentSnapshot, maxLevel: nat, disk: Table, table: Table)
    requires Complete(snapshot) && Live(disk) == Live(table)
    ensures Agrees(OpenedState(snapshot, maxLevel), Model(table, map[])) <==>
            Live(Contents(Reopened(RunsOf(snapshot), maxLevel))) == Live(disk)
  {
    ViewWithoutFlush(OpenedState(snapshot, maxLevel));
  }

  lemma OpenedLevels(levels: seq<Level>, maxLevel: nat, bound: nat, snapshot: PersistentSnapshot)
    requires maxLevel > 0 && LevelsOk(levels, maxLevel, bound) && BottomTagged(levels, maxLevel, true)
    requires Records(snapshot, Flatten(levels))
    ensures Complete(snapshot)
    ensures var t := Reopened(RunsOf(snapshot), maxLevel);
            && LevelsOk(t.levels, maxLevel, t.nextRun)
            && (Live(Contents(t)) == Live(DiskTable(levels)) <==> ReopensAlike(levels, maxLevel))
  {
    ReopenKeepsLevelsOk(levels, maxLevel, bound, snapshot);
    ReopenExactly(levels, maxLevel, bound, snapshot);
  }

  lemma OpenedFrom(c: Config, levels: seq<Level>, bound: nat, table: Table, snapshot: PersistentSnapshot)
    requires c.maxLevel > 0 && LevelsOk(levels, c.maxLevel, bound) && BottomTagged(levels, c.maxLevel, true)
    requires Live(DiskTable(levels)) == Live(table) && Records(snapshot, Flatten(levels))
    ensures Complete(snapshot) && StateOk(c, OpenedState(snapshot, c.maxLevel))
    ensures Agrees(OpenedState(snapshot, c.maxLevel), Model(table, map[])) <==> ReopensAlike(levels, c.maxLevel)
  {
    OpenedLevels(levels, c.maxLevel, bound, snapshot);
    OpenedSound(c, snapshot);
    OpenedAgrees(snapshot, c.maxLevel, DiskTable(levels), table);
  }

  lemma ViewOfLevels(s: State)
    requires s.tree.mem == map[] && s.flushing.None?
    ensures View(s) == DiskTable(s.tree.levels)
  {
    ViewWithoutFlush(s);
    assert DiskTable(s.tree.levels) + map[] == DiskTable(s.tree.levels);
  }

  /** The reopened tree is sound, and agrees with the saved map exactly when the bottom run reopens alike. */
  lemma OpenedStateOk(c: Config, s: State, table: Table, snapshot: PersistentSnapshot)
    requires StateOk(c, s) && TagsOk(c, s, true) && s.tree.mem == map[] && s.flushing.None?
    requires Live(View(s)) == Live(table) && Records(snapshot, Flatten(s.tree.levels))
    ensures Complete(snapshot) && StateOk(c, OpenedState(snapshot, c.maxLevel))
    ensures Agrees(OpenedState(snapshot, c.maxLevel), Model(table, map[])) <==> ReopensAlike(s.tree.levels, c.maxLevel)
  {
    ViewOfLevels(s);
    OpenedFrom(c, s.tree.levels, s.tree.nextRun, table, snapshot);
  }

  /** Every run of a tree just opened is tagged with its level, so saving and opening can go on round after round. */
  lemma OpenedTagsOk(c: Config, snapshot: PersistentSnapshot)
    requires c.maxLevel > 0 && Complete(snapshot)
    ensures Shape(c, OpenedState(snapshot, c.maxLevel)) && TagsOk(c, OpenedState(snapshot, c.maxLevel), false)
  {
    var runs := RunsOf(snapshot);
    var levels: seq<Level> := LevelsByTag(runs, c.maxLevel);
    forall i, p | 0 <= i < |levels| && 0 <= p < |levels[i]| ensures levels[i][p].level == i {
      TaggedHasTag(runs, i);
      SortByPermutes(ByMinKey, Tagged(runs, i));
      assert levels[i][p] in multiset(Tagged(runs, i));
    }
    TagsRightMeans(levels, c.maxLevel);
  }

  /**
   Save, open, and go on: after any guarded sequence of steps on the reopened
   tree the caller gets what the reference model gives when it goes on from the
   map it had when the snapshot was saved.
   */
  lemma ReopenedConforms(c: Config, s: State, table: Table, snapshot: PersistentSnapshot, trace: seq<Step>)
    requires StateOk(c, s) && TagsOk(c, s, true) && s.tree.mem == map[] && s.flushing.None?
    requires Live(View(s)) == Live(table) && Records(snapshot, Flatten(s.tree.levels))
    requires ReopensAlike(s.tree.levels, c.maxLevel)
    ensures Complete(snapshot) && Shape(c, OpenedState(snapshot, c.maxLevel))
    ensures GuardedTrace(c, OpenedState(snapshot, c.maxLevel), trace) ==>
              var o := Exec(c, OpenedState(snapshot, c.maxLevel), trace);
              o.responses == RunFrom(Model(table, map[]), o.calls).1
  {
    OpenedStateOk(c, s, table, snapshot);
    if GuardedTrace(c, OpenedState(snapshot, c.maxLevel), trace) {
      Conforms(c, OpenedState(snapshot, c.maxLevel), Model(table, map[]), trace);
    }
  }

  lemma OpenedVectors(levels: seq<Level>, maxLevel: nat, bound: nat)
    requires maxLevel > 0 && LevelsOk(levels, maxLevel, bound) && BottomTagged(levels, maxLevel, true)
    ensures forall i | 0 <= i <= maxLevel ::
              InNumberOrder(LevelsByTag(Flatten(levels), maxLevel)[i]) <==>
              MinKeysFollowNumbers(Moved(levels, maxLevel)[i])
  {
    MovedOk(levels, maxLevel, bound);
    LevelsOkDistinct(Moved(levels, maxLevel), maxLevel, bound);
    forall i | 0 <= i <= maxLevel
      ensures InNumberOrder(LevelsByTag(Flatten(levels), maxLevel)[i]) <==>
              MinKeysFollowNumbers(Moved(levels, maxLevel)[i])
    {
      TaggedIsMoved(levels, maxLevel, i);
      SortedByMinKeyInOrder(Moved(levels, maxLevel)[i]);
    }
  }

  lemma OrderedOpened(snapshot: PersistentSnapshot, maxLevel: nat)
    requires Complete(snapshot)
    ensures Ordered(OpenedState(snapshot, maxLevel)) <==>
            forall i | 0 <= i <= maxLevel :: InNumberOrder(LevelsByTag(RunsOf(snapshot), maxLevel)[i])
  {
  }

  /** The reopened vectors are in number order exactly when on every level smallest keys follow numbers. */
  lemma OpenedInOrder(c: Config, s: State, snapshot: PersistentSnapshot)
    requires StateOk(c, s) && TagsOk(c, s, true) && Records(snapshot, Flatten(s.tree.levels))
    ensures Complete(snapshot)
    ensures Ordered(OpenedState(snapshot, c.maxLevel)) <==>
            forall i | 0 <= i <= c.maxLevel :: MinKeysFollowNumbers(Moved(s.tree.levels, c.maxLevel)[i])
  {
    OpenedAsRecorded(snapshot, Flatten(s.tree.levels));
    OrderedOpened(snapshot, c.maxLevel);
    OpenedVectors(s.tree.levels, c.maxLevel, s.tree.nextRun);
  }

  /** With such vectors no guard speaks of their order any more, then or later. */
  lemma ReopenedConformsInOrder(c: Config, s: State, table: Table, snapshot: PersistentSnapshot, trace: seq<Step>)
    requires StateOk(c, s) && TagsOk(c, s, true) && s.tree.mem == map[] && s.flushing.None?
    requires Live(View(s)) == Live(table) && Records(snapshot, Flatten(s.tree.levels))
    requires ReopensAlike(s.tree.levels, c.maxLevel)
    requires forall i | 0 <= i <= c.maxLevel :: MinKeysFollowNumbers(Moved(s.tree.levels, c.maxLevel)[i])
    ensures Complete(snapshot) && Shape(c, OpenedState(snapshot, c.maxLevel))
    ensures GuardedTraceInOrder(c, OpenedState(snapshot, c.maxLevel), trace) ==>
              var o := Exec(c, OpenedState(snapshot, c.maxLevel), trace);
              o.responses == RunFrom(Model(table, map[]), o.calls).1
  {
    OpenedStateOk(c, s, table, snapshot);
    OpenedInOrder(c, s, snapshot);
    if GuardedTraceInOrder(c, OpenedState(snapshot, c.maxLevel), trace) {
      ConformsInOrder(c, OpenedState(snapshot, c.maxLevel), Model(table, map[]), trace);
    }
  }

  // ----- get on reopened vectors -----

  lemma TwoEntries(j: Key, v: Option<Value>, k: Key, w: Option<Value>)
    ensures ToTable([Entry(j, v), Entry(k, w)]) == map[j := v, k := w]
  {
    var es := [Entry(j, v), Entry(k, w)];
    assert es[..1] == [Entry(j, v)];
    OneEntry(j, v);
    assert ToTable(es) == map[j := v][k := w];
  }

  function OlderRun(): Run {
    Run(1, 0, [Entry([8], Some([1]))])
  }

  function NewerRun(): Run {
    Run(2, 0, [Entry([7], Some([0])), Entry([8], Some([2]))])
  }

  lemma SortedByMinKey()
    ensures SortBy(ByMinKey, [OlderRun(), NewerRun()]) == [NewerRun(), OlderRun()]
  {
    var a, b := OlderRun(), NewerRun();
    assert [a, b][..1] == [a] && [a][..0] == [];
    assert SortBy(ByMinKey, [a]) == [a];
    assert !ByMinKey(a, b) by {
      assert [8][0] == 8 && [7][0] == 7;
    }
    assert InsertBy(ByMinKey, [a], b) == InsertBy(ByMinKey, [], b) + [a];
    assert InsertBy(ByMinKey, [], b) == [b];
  }

  lemma ReopenedInL0(runs: seq<Run>)
    requires forall p | 0 <= p < |runs| :: runs[p].level == 0
    ensures Reopened(runs, 6).levels == TwoLevels(SortBy(ByMinKey, runs), [])
  {
    var t := Reopened(runs, 6);
    forall i | 0 <= i <= 6 ensures Tagged(runs, i) == if i == 0 then runs else [] {
      TaggedUniform(runs, 0, i);
    }
  }

  lemma ReopenedTwo()
    ensures Reopened([OlderRun(), NewerRun()], 6).levels == TwoLevels([NewerRun(), OlderRun()], [])
  {
    SortedByMinKey();
    ReopenedInL0([OlderRun(), NewerRun()]);
  }

  lemma TwoRunsTable()
    ensures LevelTable([NewerRun(), OlderRun()]) == map[[7] := Some([0]), [8] := Some([2])]
  {
    var a, b := OlderRun(), NewerRun();
    SwappedPair(a, b);
    OneRun(a, [8], Some([1]));
    LevelTableOne(b);
    TwoEntries([7], Some([0]), [8], Some([2]));
  }

  lemma SwappedPair(a: Run, b: Run)
    requires a.number < b.number
    ensures LevelTable([b, a]) == LevelTable([a]) + LevelTable([b])
  {
    var swapped := [b, a];
    assert SortBy(ByNumber, swapped) == [a, b] by {
      assert swapped[..1] == [b] && [b][..0] == [];
      assert SortBy(ByNumber, [b]) == [b];
      assert InsertBy(ByNumber, [b], a) == InsertBy(ByNumber, [], a) + [b] == [a, b];
    }
    assert [a] + [b] == [a, b];
    MergeRunsAppend([a], [b]);
    LevelTableOne(a);
    LevelTableOne(b);
    MergeOne(a);
    MergeOne(b);
  }

  lemma MergeOne(run: Run)
    ensures MergeRuns([run]) == ToTable(run.entries)
  {
    assert [run][..0] == [];
    assert MergeRuns([run]) == map[] + ToTable(run.entries);
  }

  /**
   Two runs in L0, saved and reopened: sorting by smallest key puts the newer
   run first, and `get`, reading from the back, answers with the older value.
   */
  lemma GetAfterReopenIsStale()
    ensures var t := Reopened([OlderRun(), NewerRun()], 6);
            && GetOn(t, [8]) == Some([1])
            && LiveValue(Contents(t), [8]) == Some([2])
  {
    var level := [NewerRun(), OlderRun()];
    ReopenedTwo();
    OneEntry([8], Some([1]));
    assert GetFromRun(level[1], [8]) == Some([1]);
    TwoLevelsTable(level, []);
    TwoRunsTable();
    assert LevelTable([]) == map[];
  }

  // ----- Saving after compact_all -----

  /** L1 holds the newer value; the bottom run is `compact_all`'s, tagged 0. */
  function AfterCompactAll(): seq<Level> {
    [[], [Holding(4, 1, [7], [2])], [], [], [], [], [Holding(2, 0, [7], [1])]]
  }

  lemma AfterCompactAllTable()
    ensures DiskTable(AfterCompactAll()) == map[[7] := Some([2])]
  {
    var levels: seq<Level> := AfterCompactAll();
    var newer, older := Holding(4, 1, [7], [2]), Holding(2, 0, [7], [1]);
    DiskTableAppend(levels[..2], levels[2..]);
    assert levels == levels[..2] + levels[2..];
    OneRun(newer, [7], Some([2]));
    OneRun(older, [7], Some([1]));
    assert levels[2..] == Emptied(4 + 1)[4 := [older]];
    OnlyBottom(4, [older]);
    assert levels[..2][1..][1..] == [];
    assert DiskTable(levels[..2][1..]) == LevelTable([newer]);
    assert LevelTable([]) == map[];
  }

  lemma ReopenedByTag(newer: Run, older: Run)
    requires newer.level == 1 && older.level == 0
    ensures Reopened([newer, older], 6).levels == TwoLevels([older], [newer])
  {
    var t := Reopened([newer, older], 6);
    assert [newer] + [older] == [newer, older];
    assert SortBy(ByMinKey, [older]) == [older] && SortBy(ByMinKey, [newer]) == [newer];
    forall i | 0 <= i <= 6 ensures t.levels[i] == if i == 0 then [older] else if i == 1 then [newer] else [] {
      TaggedAppend([newer], [older], i);
      TaggedUniform([newer], 1, i);
      TaggedUniform([older], 0, i);
    }
  }

  function SingleRuns(l0: Level, l1: Level, l6: Level): seq<Level> {
    [l0, l1, [], [], [], [], l6]
  }

  lemma SingleJob(l0: Run, l6: Level)
    requires |l0.entries| == 1 && |l6| <= 1
    ensures ChooseJob(SingleRuns([l0], [], l6), 6, 1) == Some(JobFor(SingleRuns([l0], [], l6), 0))
  {
    var levels := SingleRuns([l0], [], l6);
    assert FirstOversized(levels, 0, 6, SIZE_RATIO) == None by {
      SmallLevel(l0);
      forall j | 0 <= j < 6 ensures LevelSize(levels[j]) <= 1 {
        assert levels[j] == if j == 0 then [l0] else [];
      }
      NoneOversized(levels, 0, 6);
    }
    TriggerJob(levels, 6, 1);
  }

  /** `compact` moves the one run of L0 to L1, whatever the bottom holds. */
  lemma MoveAboveBottom(k: Key, v: Value, number: nat, l6: Level)
    requires Le(k, TOP_KEY) && |l6| <= 1
    ensures Compacted(Tree(map[], SingleRuns([Holding(number, 0, k, v)], [], l6), number + 1, 0), 6, 1) ==
            Tree(map[], SingleRuns([], [Holding(number + 1, 1, k, v)], l6), number + 2, 0)
  {
    var run := Holding(number, 0, k, v);
    SingleJob(run, l6);
    CompactedIsCommit(Tree(map[], SingleRuns([run], [], l6), number + 1, 0), 6, 1);
    CommitAboveBottom(run, k, v, number + 1, l6);
  }

  lemma CommitAboveBottom(run: Run, k: Key, v: Value, number: nat, l6: Level)
    requires run.entries == [Entry(k, Some(v))] && Le(k, TOP_KEY)
    ensures Committed(SingleRuns([run], [], l6), 0, [run], [], number, 6) ==
            SingleRuns([], [Holding(number, 1, k, v)], l6)
  {
    MergedOne(run, k, v, number);
    CommittedAt(SingleRuns([run], [], l6), 0, [run], number, 6);
    assert [run][|[run]|..] == [];
    assert [] + [Holding(number, 1, k, v)] == [Holding(number, 1, k, v)];
  }

  lemma MergedOne(run: Run, k: Key, v: Value, number: nat)
    requires run.entries == [Entry(k, Some(v))] && Le(k, TOP_KEY)
    ensures OutputRun(Merged([run], [], false), number, 1) == Some(Holding(number, 1, k, v))
  {
    OneRun(run, k, Some(v));
    OneEntry(k, Some(v));
    ScannedAll(LevelTable([run]));
  }

  lemma FlattenOne(run: Run)
    ensures Flatten(SingleRuns([run], [], [])) == [run]
  {
    var levels: seq<Level> := SingleRuns([run], [], []);
    FlattenEmpty(levels[1..]);
    assert [run] + [] == [run];
  }

  /** The output of `compact_all` on one run with a live entry. */
  lemma CompactAllOutput(run: Run, k: Key, v: Value, number: nat)
    requires run.entries == [Entry(k, Some(v))] && Le(k, TOP_KEY)
    ensures OutputRun(DropTombstones(Scanned(LevelTable([run]))), number, 0) == Some(Holding(number, 0, k, v))
  {
    OneRun(run, k, Some(v));
    OneEntry(k, Some(v));
    ScannedAll(LevelTable([run]));
    var t: Table := map[k := Some(v)];
    assert DropTombstones(t) == t;
  }

  lemma AloneAtTheBottom(run: Run)
    ensures Emptied(6 + 1)[6 := [run]] == SingleRuns([], [], [run])
  {
  }

  lemma CompactAllOne(k: Key, v: Value)
    requires Le(k, TOP_KEY)
    ensures CompactedAll(Tree(map[], SingleRuns([Holding(1, 0, k, v)], [], []), 2, 0), 6) ==
            Tree(map[], SingleRuns([], [], [Holding(2, 0, k, v)]), 3, 0)
  {
    var run := Holding(1, 0, k, v);
    FlattenOne(run);
    CompactAllOutput(run, k, v, 2);
    AloneAtTheBottom(Holding(2, 0, k, v));
  }

  lemma FlushAboveBottom(number: nat, k: Key, v: Value, l6: Level)
    ensures Flushed(Written(Tree(map[], SingleRuns([], [], l6), number, 0), k, Some(v))) ==
            Tree(map[], SingleRuns([Holding(number, 0, k, v)], [], l6), number + 1, 0)
  {
    OneEntry(k, Some(v));
    var mem: Table := map[];
    assert mem[k := Some(v)] == map[k := Some(v)];
    assert [] + [Holding(number, 0, k, v)] == [Holding(number, 0, k, v)];
  }

  lemma FirstHalf() returns (t1: Tree, t2: Tree)
    ensures t1 == Flushed(Written(EmptyTree(6), [7], Some([1]))) && |t1.levels| == 7
    ensures t2 == CompactedAll(t1, 6) == Tree(map[], SingleRuns([], [], [Holding(2, 0, [7], [1])]), 3, 0)
  {
    ShortKeysBelowTop([7], 256);
    t1 := Tree(map[], SingleRuns([Holding(1, 0, [7], [1])], [], []), 2, 0);
    assert EmptyTree(6) == Tree(map[], SingleRuns([], [], []), 1, 0);
    FlushAboveBottom(1, [7], [1], []);
    CompactAllOne([7], [1]);
    t2 := CompactedAll(t1, 6);
  }

  /** These levels come about by insert, flush, `compact_all`, insert, flush and `compact` on a new tree. */
  lemma HowItHappens() returns (t1: Tree, t2: Tree, t3: Tree)
    ensures t1 == Flushed(Written(EmptyTree(6), [7], Some([1]))) && |t1.levels| == 7
    ensures t2 == CompactedAll(t1, 6) && |t2.levels| == 7
    ensures t3 == Flushed(Written(t2, [7], Some([2]))) && |t3.levels| == 7
    ensures Compacted(t3, 6, 1).levels == AfterCompactAll()
  {
    t1, t2 := FirstHalf();
    t3 := Tree(map[], SingleRuns([Holding(3, 0, [7], [2])], [], [Holding(2, 0, [7], [1])]), 4, 0);
    FlushAboveBottom(3, [7], [2], [Holding(2, 0, [7], [1])]);
    ShortKeysBelowTop([7], 256);
    MoveAboveBottom([7], [2], 3, [Holding(2, 0, [7], [1])]);
  }

  /**
   Run 4 in L1 hides run 2 at the bottom. Saved and reopened, run 2 is an L0 run
   by its tag, and hides run 4.
   */
  lemma SavedAfterCompactAll()
    ensures !TagsRight(AfterCompactAll())
    ensures DiskTable(AfterCompactAll()) == map[[7] := Some([2])]
    ensures Contents(Reopened(Flatten(AfterCompactAll()), 6)) == map[[7] := Some([1])]
  {
    AfterCompactAllTable();
    AfterCompactAllRuns();
    var newer, older := Holding(4, 1, [7], [2]), Holding(2, 0, [7], [1]);
    ReopenedByTag(newer, older);
    RestoredTable(newer, older);
    ContentsReopened([newer, older], 6, map[[7] := Some([1])]);
  }

  lemma AfterCompactAllRuns()
    ensures !TagsRight(AfterCompactAll())
    ensures Flatten(AfterCompactAll()) == [Holding(4, 1, [7], [2]), Holding(2, 0, [7], [1])]
  {
    var levels: seq<Level> := AfterCompactAll();
    assert levels[6][0].level == 0;
  }

  lemma RestoredTable(newer: Run, older: Run)
    requires newer.entries == [Entry([7], Some([2]))] && older.entries == [Entry([7], Some([1]))]
    ensures DiskTable(TwoLevels([older], [newer])) == map[[7] := Some([1])]
  {
    TwoLevelsTable([older], [newer]);
    OneRun(newer, [7], Some([2]));
    OneRun(older, [7], Some([1]));
  }
}
