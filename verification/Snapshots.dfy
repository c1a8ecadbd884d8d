/**
 Persistent snapshots: `save_snapshot` records every run under its own number
 and level tag and links its files; `open_snapshot` rebuilds the levels from the
 records.
 */
module Snapshots {
  import opened Wrappers
  import opened Keys
  import opened Sorting
  import opened Entries
  import opened Levels
  import opened RunOrder
  import opened LevelTags
  import opened Compaction
  import opened LevelInvariant
  import opened TreeState
  import LsmTree
  import opened CompactAllView

  datatype SnapshotRun = SnapshotRun(runNumber: nat, minKey: Key, maxKey: Key, numEntries: nat, level: nat)

  /** The records, and the contents of the run files linked under each number. */
  datatype PersistentSnapshot = PersistentSnapshot(runs: seq<SnapshotRun>, files: map<nat, seq<Entry>>)

  datatype SnapshotError = AlreadyExists | DoesNotExist | FileExists | FileMissing

  function RecordOf(run: Run): SnapshotRun
    requires run.entries != []
  {
    SnapshotRun(run.number, run.entries[0].key, run.entries[|run.entries| - 1].key, |run.entries|, run.level)
  }

  lemma {:induction false} AscendingSize(entries: seq<Entry>)
    requires Ascending(entries)
    ensures |ToTable(entries).Keys| == |entries|
  {
    if entries != [] {
      var init, last := entries[..|entries| - 1], entries[|entries| - 1];
      AscendingSize(init);
      LastNotBefore(entries);
      assert ToTable(entries).Keys == ToTable(init).Keys + {last.key};
    }
  }

  /** A record's bounds are the least and the greatest key of the run's table, its count the number of entries in it. */
  lemma RecordMeaning(run: Run)
    requires run.entries != [] && Ascending(run.entries)
    ensures var record, t := RecordOf(run), ToTable(run.entries);
            && record.minKey in t && record.maxKey in t
            && (forall k | k in t :: Le(record.minKey, k) && Le(k, record.maxKey))
            && record.numEntries == |t.Keys|
            && record.runNumber == run.number && record.level == run.level
  {
    var record, t, es := RecordOf(run), ToTable(run.entries), run.entries;
    AscendingSize(es);
    ToTableKeys(es, es[0].key);
    ToTableKeys(es, es[|es| - 1].key);
    forall k | k in t ensures Le(record.minKey, k) && Le(k, record.maxKey) {
      ToTableKeys(es, k);
      var i :| 0 <= i < |es| && es[i].key == k;
      LeReflexive(k);
      assert i > 0 ==> Lt(es[0].key, es[i].key);
      assert i < |es| - 1 ==> Lt(es[i].key, es[|es| - 1].key);
    }
  }

  /** A snapshot that records exactly these runs, in this order. */
  ghost predicate Records(snapshot: PersistentSnapshot, runs: seq<Run>) {
    && |snapshot.runs| == |runs|
    && (forall i | 0 <= i < |runs| :: runs[i].entries != [] && snapshot.runs[i] == RecordOf(runs[i]))
    && (forall i | 0 <= i < |runs| ::
          runs[i].number in snapshot.files && snapshot.files[runs[i].number] == runs[i].entries)
    && (forall n | n in snapshot.files :: exists i :: 0 <= i < |runs| && runs[i].number == n)
  }

  /** Link the files of every run under its number, and record it. */
  method Create(existing: set<string>, name: string, sstables: seq<Run>)
    returns (r: Result<PersistentSnapshot, SnapshotError>)
    requires WellFormed(sstables)
    ensures name in existing ==> r == Err(AlreadyExists)
    ensures name !in existing ==> (r.Ok? <==> DistinctNumbers(sstables))
    ensures r.Ok? ==> Records(r.value, sstables)
  {
    if name in existing {
      return Err(AlreadyExists);
    }
    var runs: seq<SnapshotRun>, files: map<nat, seq<Entry>> := [], map[];
    for i := 0 to |sstables|
      invariant Records(PersistentSnapshot(runs, files), sstables[..i])
      invariant DistinctNumbers(sstables[..i])
    {
      var run := sstables[i];
      if run.number in files {
        NumberTwice(PersistentSnapshot(runs, files), sstables, i);
        return Err(FileExists);
      }
      RecordsStep(PersistentSnapshot(runs, files), sstables, i);
      files := files[run.number := run.entries];
      runs := runs + [RecordOf(run)];
    }
    assert sstables[..|sstables|] == sstables;
    return Ok(PersistentSnapshot(runs, files));
  }

  lemma NumberTwice(snapshot: PersistentSnapshot, sstables: seq<Run>, i: nat)
    requires i < |sstables| && Records(snapshot, sstables[..i]) && sstables[i].number in snapshot.files
    ensures !DistinctNumbers(sstables)
  {
    var before := sstables[..i];
    var j :| 0 <= j < |before| && before[j].number == sstables[i].number;
    assert sstables[j].number == sstables[i].number;
  }

  lemma RecordsStep(snapshot: PersistentSnapshot, sstables: seq<Run>, i: nat)
    requires i < |sstables| && WellFormed(sstables) && Records(snapshot, sstables[..i])
    requires DistinctNumbers(sstables[..i]) && sstables[i].number !in snapshot.files
    ensures Records(PersistentSnapshot(snapshot.runs + [RecordOf(sstables[i])],
                                       snapshot.files[sstables[i].number := sstables[i].entries]),
                    sstables[..i + 1])
    ensures DistinctNumbers(sstables[..i + 1])
  {
    assert sstables[i].entries != [];
    RecordsOneMore(snapshot, sstables[..i], sstables[i]);
    assert sstables[..i + 1] == sstables[..i] + [sstables[i]];
  }

  lemma RecordsOneMore(snapshot: PersistentSnapshot, before: seq<Run>, run: Run)
    requires Records(snapshot, before) && run.entries != []
    requires DistinctNumbers(before) && run.number !in snapshot.files
    ensures Records(PersistentSnapshot(snapshot.runs + [RecordOf(run)], snapshot.files[run.number := run.entries]),
                    before + [run])
    ensures DistinctNumbers(before + [run])
  {
    NumberIsNew(snapshot, before, run);
    var after, files' := before + [run], snapshot.files[run.number := run.entries];
    forall i | 0 <= i < |after|
      ensures after[i].entries != [] && (snapshot.runs + [RecordOf(run)])[i] == RecordOf(after[i])
      ensures after[i].number in files' && files'[after[i].number] == after[i].entries
    {
      assert i < |before| ==> after[i] == before[i];
    }
    forall n | n in files' ensures exists j :: 0 <= j < |after| && after[j].number == n {
      NumberIsThere(snapshot, before, run, n);
    }
  }

  lemma NumberIsNew(snapshot: PersistentSnapshot, before: seq<Run>, run: Run)
    requires Records(snapshot, before) && DistinctNumbers(before) && run.number !in snapshot.files
    ensures DistinctNumbers(before + [run])
    ensures forall i | 0 <= i < |before| :: before[i].number != run.number
  {
    forall i | 0 <= i < |before| ensures before[i].number != run.number {
      assert before[i].number in snapshot.files;
    }
  }

  lemma NumberIsThere(snapshot: PersistentSnapshot, before: seq<Run>, run: Run, n: nat)
    requires Records(snapshot, before) && (n in snapshot.files || n == run.number)
    ensures exists j :: 0 <= j < |before + [run]| && (before + [run])[j].number == n
  {
    var after := before + [run];
    if n == run.number {
      assert after[|before|].number == n;
    } else {
      var j :| 0 <= j < |before| && before[j].number == n;
      assert after[j].number == n;
    }
  }

  lemma {:induction false} FlattenWellFormed(levels: seq<Level>)
    requires forall i | 0 <= i < |levels| :: WellFormed(levels[i])
    ensures WellFormed(Flatten(levels))
  {
    if levels != [] {
      var first, rest := levels[0], levels[1..];
      forall i | 0 <= i < |rest| ensures WellFormed(rest[i]) {
        assert rest[i] == levels[i + 1];
      }
      FlattenWellFormed(rest);
      assert WellFormed(first);
    }
  }

  /** `save_snapshot`: flush, then record every run of the tree, whether or not the name is free. */
  method SaveSnapshot(tree: LsmTree.LsmTree, existing: set<string>, name: string)
    returns (r: Result<PersistentSnapshot, SnapshotError>)
    requires tree.Valid()
    modifies tree
    ensures tree.Valid() && tree.Value() == Flushed(old(tree.Value()))
    ensures name in existing ==> r == Err(AlreadyExists)
    ensures name !in existing ==> (r.Ok? <==> DistinctNumbers(Flatten(tree.levels)))
    ensures r.Ok? ==> Records(r.value, Flatten(tree.levels))
  {
    tree.FlushMemTable();
    var all := LsmTree.CollectRuns(tree.levels);
    FlattenWellFormed(tree.levels);
    r := Create(existing, name, all);
  }

  // ----- Reopening -----

  predicate ByMinKey(a: Run, b: Run) {
    a.entries == [] || (b.entries != [] && Le(a.entries[0].key, b.entries[0].key))
  }

  /** The runs tagged `level`, in the order they were opened. */
  function Tagged(runs: seq<Run>, level: nat): Level {
    if runs == [] then []
    else
      var init, last := Tagged(runs[..|runs| - 1], level), runs[|runs| - 1];
      if last.level == level then init + [last] else init
  }

  /** Runs by level tag, each level sorted by smallest key; tags above the maximum are dropped. */
  function LevelsByTag(runs: seq<Run>, maxLevel: nat): seq<Level> {
    seq(maxLevel + 1, i requires i >= 0 => SortBy(ByMinKey, Tagged(runs, i)))
  }

  function MaxNumber(runs: seq<Run>): nat {
    if runs == [] then 0
    else
      var init, last := MaxNumber(runs[..|runs| - 1]), runs[|runs| - 1].number;
      if last > init then last else init
  }

  function Reopened(runs: seq<Run>, maxLevel: nat): Tree {
    Tree(map[], LevelsByTag(runs, maxLevel), MaxNumber(runs) + 1, 0)
  }

  // ----- What opening makes of the records -----

  lemma {:induction false} TaggedExactly(runs: seq<Run>, level: nat, run: Run)
    ensures run in Tagged(runs, level) <==> run in runs && run.level == level
  {
    if runs != [] {
      TaggedExactly(runs[..|runs| - 1], level, run);
      assert runs == runs[..|runs| - 1] + [runs[|runs| - 1]];
    }
  }

  /** A run goes to the level of its tag, if there is one, and to no other. */
  lemma PlacedByTag(runs: seq<Run>, maxLevel: nat, i: nat, run: Run)
    requires i <= maxLevel
    ensures run in LevelsByTag(runs, maxLevel)[i] <==> run in runs && run.level == i
  {
    TaggedExactly(runs, i, run);
    SortByPermutes(ByMinKey, Tagged(runs, i));
    SameElement(SortBy(ByMinKey, Tagged(runs, i)), Tagged(runs, i), run);
  }

  ghost predicate IsLeastOf(least: Key, run: Run) {
    least in ToTable(run.entries) && forall k | k in ToTable(run.entries) :: Le(least, k)
  }

  lemma FirstIsLeast(run: Run)
    requires run.entries != [] && Ascending(run.entries)
    ensures IsLeastOf(run.entries[0].key, run)
  {
    RecordMeaning(run);
  }

  lemma MinKeyOrdering()
    ensures Ordering(ByMinKey)
  {
    forall a, b ensures ByMinKey(a, b) || ByMinKey(b, a) {
      if a.entries != [] && b.entries != [] {
        LeTotal(a.entries[0].key, b.entries[0].key);
      }
    }
    forall a, b, c | ByMinKey(a, b) && ByMinKey(b, c) ensures ByMinKey(a, c) {
      if a.entries != [] && b.entries != [] && c.entries != [] {
        LeTransitive(a.entries[0].key, b.entries[0].key, c.entries[0].key);
      }
    }
  }

  /** Within a reopened level least keys do not fall; runs with the same one keep the order of the records. */
  lemma SortedByLeastKey(runs: seq<Run>, maxLevel: nat, i: nat)
    requires i <= maxLevel && WellFormed(runs)
    ensures var level := LevelsByTag(runs, maxLevel)[i];
            && (forall p, q, a, b | 0 <= p < q < |level| && IsLeastOf(a, level[p]) && IsLeastOf(b, level[q]) ::
                  Le(a, b))
            && forall run :: Alike(ByMinKey, level, run) == Alike(ByMinKey, Tagged(runs, i), run)
  {
    var level := LevelsByTag(runs, maxLevel)[i];
    MinKeyOrdering();
    SortBySorted(ByMinKey, Tagged(runs, i));
    forall run ensures Alike(ByMinKey, level, run) == Alike(ByMinKey, Tagged(runs, i), run) {
      SortByStable(ByMinKey, Tagged(runs, i), run);
    }
    forall p, q, a, b | 0 <= p < q < |level| && IsLeastOf(a, level[p]) && IsLeastOf(b, level[q]) ensures Le(a, b) {
      PlacedByTag(runs, maxLevel, i, level[p]);
      PlacedByTag(runs, maxLevel, i, level[q]);
      FirstIsLeast(level[p]);
      FirstIsLeast(level[q]);
      LeAntisymmetric(a, level[p].entries[0].key);
      LeAntisymmetric(b, level[q].entries[0].key);
      assert ByMinKey(level[p], level[q]);
    }
  }

  lemma {:induction false} MaxNumberIs(runs: seq<Run>)
    ensures forall i | 0 <= i < |runs| :: runs[i].number <= MaxNumber(runs)
    ensures runs == [] ==> MaxNumber(runs) == 0
    ensures runs != [] ==> exists i :: 0 <= i < |runs| && runs[i].number == MaxNumber(runs)
  {
    if runs != [] {
      var init, last := runs[..|runs| - 1], runs[|runs| - 1];
      MaxNumberIs(init);
      if last.number > MaxNumber(init) || init == [] {
        assert runs[|runs| - 1].number == MaxNumber(runs);
      } else {
        var i :| 0 <= i < |init| && init[i].number == MaxNumber(init);
        assert runs[i].number == MaxNumber(runs);
      }
    }
  }

  /** The counter starts one above the highest number restored, at 1 if there is none. */
  lemma CounterAfterOpening(runs: seq<Run>, maxLevel: nat)
    ensures var next := Reopened(runs, maxLevel).nextRun;
            && (forall i | 0 <= i < |runs| :: runs[i].number < next)
            && (if runs == [] then next == 1 else exists i :: 0 <= i < |runs| && runs[i].number + 1 == next)
    ensures Reopened(runs, maxLevel).mem == map[] && Reopened(runs, maxLevel).generation == 0
  {
    MaxNumberIs(runs);
    if runs != [] {
      var i :| 0 <= i < |runs| && runs[i].number == MaxNumber(runs);
      assert runs[i].number + 1 == Reopened(runs, maxLevel).nextRun;
    }
  }

  ghost predicate Complete(snapshot: PersistentSnapshot) {
    forall i | 0 <= i < |snapshot.runs| :: snapshot.runs[i].runNumber in snapshot.files
  }

  /** The handles a complete snapshot's records stand for. */
  function RunsOf(snapshot: PersistentSnapshot): seq<Run>
    requires Complete(snapshot)
  {
    seq(|snapshot.runs|, i requires 0 <= i < |snapshot.runs| =>
      Run(snapshot.runs[i].runNumber, snapshot.runs[i].level, snapshot.files[snapshot.runs[i].runNumber]))
  }

  method OpenHandles(snapshot: PersistentSnapshot) returns (r: Result<(seq<Run>, nat), SnapshotError>)
    ensures r.Ok? <==> Complete(snapshot)
    ensures r.Ok? ==> r.value == (RunsOf(snapshot), MaxNumber(RunsOf(snapshot)))
  {
    var handles: seq<Run>, maxRunNumber: nat := [], 0;
    for i := 0 to |snapshot.runs|
      invariant |handles| == i
      invariant forall j | 0 <= j < i ::
        var record := snapshot.runs[j];
        record.runNumber in snapshot.files &&
        handles[j] == Run(record.runNumber, record.level, snapshot.files[record.runNumber])
      invariant maxRunNumber == MaxNumber(handles)
    {
      var record := snapshot.runs[i];
      if record.runNumber !in snapshot.files {
        return Err(FileMissing);
      }
      var handle := Run(record.runNumber, 0, snapshot.files[record.runNumber]);
      ghost var before := handles;
      handles := handles + [handle.(level := record.level)];
      assert handles[..i] == before;
      maxRunNumber := if record.runNumber > maxRunNumber then record.runNumber else maxRunNumber;
    }
    assert handles == RunsOf(snapshot);
    return Ok((handles, maxRunNumber));
  }

  /** Each handle goes to the level of its tag, if there is one. */
  method Distribute(handles: seq<Run>, maxLevel: nat) returns (levels: seq<Level>)
    ensures |levels| == maxLevel + 1
    ensures forall l | 0 <= l <= maxLevel :: levels[l] == Tagged(handles, l)
  {
    levels := Emptied(maxLevel + 1);
    for i := 0 to |handles|
      invariant |levels| == maxLevel + 1
      invariant forall l | 0 <= l <= maxLevel :: levels[l] == Tagged(handles[..i], l)
    {
      assert handles[..i + 1][..i] == handles[..i];
      var level := handles[i].level;
      if level <= maxLevel {
        levels := levels[level := levels[level] + [handles[i]]];
      }
    }
    assert handles[..|handles|] == handles;
  }

  /**
   `open_snapshot`: open the linked files of every record, restore the levels
   from the tags, sort each level by smallest key.
   */
  method OpenSnapshot(snapshot: PersistentSnapshot, maxLevel: nat) returns (r: Result<Tree, SnapshotError>)
    ensures r.Ok? <==> Complete(snapshot)
    ensures r.Ok? ==> r.value == Reopened(RunsOf(snapshot), maxLevel)
  {
    var handlesRead := OpenHandles(snapshot);
    if handlesRead.Err? {
      return Err(FileMissing);
    }
    var (handles, maxRunNumber) := handlesRead.value;
    var levels := Distribute(handles, maxLevel);
    for l := 0 to maxLevel + 1
      invariant |levels| == maxLevel + 1
      invariant forall m | 0 <= m < l :: levels[m] == SortBy(ByMinKey, Tagged(handles, m))
      invariant forall m | l <= m <= maxLevel :: levels[m] == Tagged(handles, m)
    {
      levels := levels[l := SortBy(ByMinKey, levels[l])];
    }
    assert levels == LevelsByTag(handles, maxLevel);
    return Ok(Tree(map[], levels, maxRunNumber + 1, 0));
  }

  // ----- What a round trip keeps -----

  lemma {:induction false} TaggedAppend(a: seq<Run>, b: seq<Run>, level: nat)
    ensures Tagged(a + b, level) == Tagged(a, level) + Tagged(b, level)
  {
    if b == [] {
      assert a + b == a;
    } else {
      assert (a + b)[..|a + b| - 1] == a + b[..|b| - 1];
      TaggedAppend(a, b[..|b| - 1], level);
    }
  }

  lemma {:induction false} TaggedUniform(runs: seq<Run>, tag: nat, level: nat)
    requires forall p | 0 <= p < |runs| :: runs[p].level == tag
    ensures Tagged(runs, level) == if tag == level then runs else []
  {
    if runs != [] {
      TaggedUniform(runs[..|runs| - 1], tag, level);
      assert runs == runs[..|runs| - 1] + [runs[|runs| - 1]];
    }
  }

  lemma {:induction false} TaggedHasTag(runs: seq<Run>, level: nat)
    ensures forall p | 0 <= p < |Tagged(runs, level)| :: Tagged(runs, level)[p].level == level
  {
    if runs != [] {
      TaggedHasTag(runs[..|runs| - 1], level);
    }
  }

  lemma {:induction false} TaggedFlatten(levels: seq<Level>, base: nat, level: nat)
    requires forall i, p | 0 <= i < |levels| && 0 <= p < |levels[i]| :: levels[i][p].level == base + i
    ensures Tagged(Flatten(levels), level) ==
            if base <= level < base + |levels| then levels[level - base] else []
  {
    if levels != [] {
      var rest: seq<Level> := levels[1..];
      forall i, p | 0 <= i < |rest| && 0 <= p < |rest[i]| ensures rest[i][p].level == base + 1 + i {
        assert rest[i] == levels[i + 1];
      }
      TaggedAppend(levels[0], Flatten(rest), level);
      TaggedUniform(levels[0], base, level);
      TaggedFlatten(rest, base + 1, level);
      if level == base {
        assert levels[0] + [] == levels[0];
      } else {
        assert [] + Tagged(Flatten(rest), level) == Tagged(Flatten(rest), level);
      }
    }
  }

  lemma RightTagsRoundTrip(levels: seq<Level>, maxLevel: nat, i: nat)
    requires |levels| == maxLevel + 1 && i <= maxLevel && TagsRight(levels)
    ensures multiset(LevelsByTag(Flatten(levels), maxLevel)[i]) == multiset(levels[i])
  {
    TaggedFlatten(levels, 0, i);
    SortByPermutes(ByMinKey, Tagged(Flatten(levels), i));
  }

  lemma RoundTripMeansRightTags(levels: seq<Level>, maxLevel: nat, i: nat, p: nat)
    requires |levels| == maxLevel + 1 && i <= maxLevel && p < |levels[i]|
    requires multiset(LevelsByTag(Flatten(levels), maxLevel)[i]) == multiset(levels[i])
    ensures levels[i][p].level == i
  {
    var tagged := Tagged(Flatten(levels), i);
    SortByPermutes(ByMinKey, tagged);
    SameElement(tagged, levels[i], levels[i][p]);
    TaggedHasTag(Flatten(levels), i);
  }

  /**
   Saving the levels and opening them again puts every run back on its level
   exactly when every run is tagged with its level.
   */
  lemma RoundTripKeepsLevels(levels: seq<Level>, maxLevel: nat)
    requires |levels| == maxLevel + 1
    ensures (forall i | 0 <= i <= maxLevel ::
               multiset(LevelsByTag(Flatten(levels), maxLevel)[i]) == multiset(levels[i]))
            <==> TagsRight(levels)
  {
    var again := LevelsByTag(Flatten(levels), maxLevel);
    if TagsRight(levels) {
      forall i | 0 <= i <= maxLevel ensures multiset(again[i]) == multiset(levels[i]) {
        RightTagsRoundTrip(levels, maxLevel, i);
      }
    }
    if forall i | 0 <= i <= maxLevel :: multiset(again[i]) == multiset(levels[i]) {
      forall i, p | 0 <= i < |levels| && 0 <= p < |levels[i]| ensures levels[i][p].level == i {
        assert multiset(again[i]) == multiset(levels[i]);
        RoundTripMeansRightTags(levels, maxLevel, i, p);
      }
    }
  }

  lemma {:induction false} SameDiskTable(a: seq<Level>, b: seq<Level>)
    requires |a| == |b|
    requires forall i | 0 <= i < |a| :: multiset(a[i]) == multiset(b[i]) && DistinctNumbers(b[i])
    ensures DiskTable(a) == DiskTable(b)
  {
    if a != [] {
      SortIgnoresOrder(b[0], a[0]);
      forall i | 0 <= i < |a[1..]|
        ensures multiset(a[1..][i]) == multiset(b[1..][i]) && DistinctNumbers(b[1..][i])
      {
        assert a[1..][i] == a[i + 1] && b[1..][i] == b[i + 1];
      }
      SameDiskTable(a[1..], b[1..]);
    }
  }

  lemma {:induction false} MaxNumberBounds(runs: seq<Run>)
    ensures forall i | 0 <= i < |runs| :: runs[i].number <= MaxNumber(runs)
    ensures runs != [] ==> exists i :: 0 <= i < |runs| && runs[i].number == MaxNumber(runs)
  {
    if runs != [] {
      var init, last := runs[..|runs| - 1], runs[|runs| - 1];
      MaxNumberBounds(init);
      if init != [] && MaxNumber(runs) != last.number {
        var i :| 0 <= i < |init| && init[i].number == MaxNumber(init);
        assert runs[i].number == MaxNumber(runs);
      } else {
        assert runs[|runs| - 1].number == MaxNumber(runs);
      }
    }
  }

  /** What was recorded is what is opened. */
  lemma OpenedAsRecorded(snapshot: PersistentSnapshot, runs: seq<Run>)
    requires Records(snapshot, runs)
    ensures Complete(snapshot) && RunsOf(snapshot) == runs
  {
    forall i | 0 <= i < |runs|
      ensures snapshot.runs[i].runNumber in snapshot.files
      ensures Run(snapshot.runs[i].runNumber, snapshot.runs[i].level,
                  snapshot.files[snapshot.runs[i].runNumber]) == runs[i]
    {
      assert snapshot.runs[i] == RecordOf(runs[i]);
      assert runs[i].number in snapshot.files;
    }
  }

  lemma LevelsOkDistinct(levels: seq<Level>, maxLevel: nat, bound: nat)
    requires LevelsOk(levels, maxLevel, bound)
    ensures forall i | 0 <= i < |levels| :: DistinctNumbers(levels[i])
  {
    forall i | 0 <= i < |levels| ensures DistinctNumbers(levels[i]) {
      assert LevelOk(levels[i], bound);
    }
  }

  lemma {:induction false} NumbersPermuted(a: Level, b: Level)
    requires multiset(a) == multiset(b)
    ensures Numbers(a) <= Numbers(b)
  {
    forall n | n in Numbers(a) ensures n in Numbers(b) {
      var p :| 0 <= p < |a| && a[p].number == n;
      SameElement(a, b, a[p]);
      var q :| 0 <= q < |b| && b[q] == a[p];
      assert b[q].number == n;
    }
  }

  lemma LevelOkPermuted(a: Level, b: Level, bound: nat, bound': nat)
    requires LevelOk(a, bound) && multiset(a) == multiset(b)
    requires forall p | 0 <= p < |a| :: a[p].number < bound'
    ensures LevelOk(b, bound')
  {
    PermutedDistinct(a, b);
    forall p | 0 <= p < |b| ensures RunOk(b[p], bound') {
      SameElement(a, b, b[p]);
      var q :| 0 <= q < |a| && a[q] == b[p];
      assert RunOk(a[q], bound);
    }
  }

  lemma LevelsOkPermuted(levels: seq<Level>, other: seq<Level>, maxLevel: nat, bound: nat, bound': nat)
    requires LevelsOk(levels, maxLevel, bound) && |other| == |levels|
    requires forall i | 0 <= i < |levels| :: multiset(levels[i]) == multiset(other[i])
    requires forall i, p | 0 <= i < |levels| && 0 <= p < |levels[i]| :: levels[i][p].number < bound'
    ensures LevelsOk(other, maxLevel, bound')
  {
    forall i | 0 <= i < |other| ensures LevelOk(other[i], bound') && Numbers(other[i]) <= Numbers(levels[i]) {
      assert LevelOk(levels[i], bound);
      LevelOkPermuted(levels[i], other[i], bound, bound');
      NumbersPermuted(other[i], levels[i]);
    }
    assert |multiset(levels[maxLevel])| == |levels[maxLevel]| && |multiset(other[maxLevel])| == |other[maxLevel]|;
    LevelsOkDistinct(levels, maxLevel, bound);
    SortIgnoresOrder(levels[maxLevel], other[maxLevel]);
  }

  lemma AllNumbersBelowMax(levels: seq<Level>)
    ensures forall i, p | 0 <= i < |levels| && 0 <= p < |levels[i]| ::
              levels[i][p].number < MaxNumber(Flatten(levels)) + 1
  {
    var runs := Flatten(levels);
    MaxNumberBounds(runs);
    forall i, p | 0 <= i < |levels| && 0 <= p < |levels[i]| ensures levels[i][p].number < MaxNumber(runs) + 1 {
      assert levels[i][p] in levels[i];
      InFlatten(levels, levels[i][p]);
      var q :| 0 <= q < |runs| && runs[q] == levels[i][p];
    }
  }
}
