/**
 Which run answers for a key. Readers take the highest-numbered run that holds
 it on the shallowest level that has one; `compact_all` takes the
 highest-numbered one on any level; `get` takes the first run with a value that
 its walk over the vectors meets.
 */
module Holders {
  import opened Wrappers
  import opened Keys
  import opened Sorting
  import opened Entries
  import opened Levels
  import opened RunOrder
  import opened TreeState
  import opened Reading

  /** The run has an entry for the key: a value or a tombstone. */
  predicate Holds(run: Run, key: Key) {
    key in ToTable(run.entries)
  }

  /** What a run says about a key: nothing if there is no run, and nothing for a tombstone. */
  function Answer(run: Option<Run>, key: Key): Option<Value> {
    if run.None? then None else GetFromRun(run.value, key)
  }

  // ----- By number -----

  function Highest(runs: seq<Run>, key: Key): Option<Run> {
    if runs == [] then None
    else
      var rest, last := Highest(runs[..|runs| - 1], key), runs[|runs| - 1];
      if Holds(last, key) && (rest.None? || rest.value.number <= last.number) then Some(last) else rest
  }

  ghost predicate IsHighest(runs: seq<Run>, key: Key, run: Run) {
    && run in runs && Holds(run, key)
    && forall other :: other in runs && Holds(other, key) ==> other.number <= run.number
  }

  lemma {:induction false} HighestIs(runs: seq<Run>, key: Key)
    ensures match Highest(runs, key)
            case Some(run) => IsHighest(runs, key, run)
            case None => forall run :: run in runs ==> !Holds(run, key)
  {
    if runs != [] {
      var init, last := runs[..|runs| - 1], runs[|runs| - 1];
      HighestIs(init, key);
      assert forall run :: run in runs <==> run in init || run == last by {
        assert runs == init + [last];
      }
    }
  }

  lemma HighestUnique(runs: seq<Run>, key: Key, a: Run, b: Run)
    requires DistinctNumbers(runs) && IsHighest(runs, key, a) && IsHighest(runs, key, b)
    ensures a == b
  {
    var i :| 0 <= i < |runs| && runs[i] == a;
    var j :| 0 <= j < |runs| && runs[j] == b;
    assert a.number == b.number;
  }

  lemma HighestIsOnly(runs: seq<Run>, key: Key, run: Run)
    requires DistinctNumbers(runs) && IsHighest(runs, key, run)
    ensures Highest(runs, key) == Some(run)
  {
    HighestIs(runs, key);
    if Highest(runs, key).Some? {
      HighestUnique(runs, key, run, Highest(runs, key).value);
    }
  }

  lemma HighestPermuted(a: seq<Run>, b: seq<Run>, key: Key)
    requires multiset(a) == multiset(b) && DistinctNumbers(a)
    ensures Highest(a, key) == Highest(b, key)
  {
    PermutedDistinct(a, b);
    HighestIs(a, key);
    HighestIs(b, key);
    forall run ensures run in a <==> run in b {
      SameElement(a, b, run);
    }
    match Highest(a, key)
    case Some(run) => HighestIsOnly(b, key, run);
    case None =>
  }

  /** Of runs merged in number order, the highest-numbered holder decides. */
  lemma {:induction false} MergeAnswers(runs: seq<Run>, key: Key)
    requires StrictlyByNumber(runs)
    ensures key in MergeRuns(runs) <==> Highest(runs, key).Some?
    ensures key in MergeRuns(runs) ==>
              Holds(Highest(runs, key).value, key) &&
              MergeRuns(runs)[key] == ToTable(Highest(runs, key).value.entries)[key]
  {
    if runs != [] {
      var init, last := runs[..|runs| - 1], runs[|runs| - 1];
      MergeAnswers(init, key);
      HighestIs(init, key);
      if Highest(init, key).Some? {
        var i :| 0 <= i < |init| && init[i] == Highest(init, key).value;
        assert runs[i].number < last.number;
      }
    }
  }

  lemma LevelAnswers(level: Level, key: Key)
    requires DistinctNumbers(level)
    ensures key in LevelTable(level) <==> Highest(level, key).Some?
    ensures key in LevelTable(level) ==>
              Holds(Highest(level, key).value, key) &&
              LevelTable(level)[key] == ToTable(Highest(level, key).value.entries)[key]
  {
    SortedStrictly(level);
    MergeAnswers(SortBy(ByNumber, level), key);
    HighestPermuted(SortBy(ByNumber, level), level, key);
  }

  lemma HighestAnswers(level: Level, key: Key)
    requires DistinctNumbers(level)
    ensures LiveValue(LevelTable(level), key) == Answer(Highest(level, key), key)
  {
    LevelAnswers(level, key);
  }

  // ----- By level, then by number -----

  /** The run readers take. */
  function Taken(levels: seq<Level>, key: Key): Option<Run> {
    if levels == [] then None
    else
      var here := Highest(levels[0], key);
      if here.Some? then here else Taken(levels[1..], key)
  }

  ghost predicate LevelsDistinct(levels: seq<Level>) {
    forall i | 0 <= i < |levels| :: DistinctNumbers(levels[i])
  }

  lemma {:induction false} TakenAnswers(levels: seq<Level>, key: Key)
    requires LevelsDistinct(levels)
    ensures key in DiskTable(levels) <==> Taken(levels, key).Some?
    ensures LiveValue(DiskTable(levels), key) == Answer(Taken(levels, key), key)
  {
    if levels != [] {
      LevelAnswers(levels[0], key);
      var rest := levels[1..];
      assert forall i | 0 <= i < |rest| :: rest[i] == levels[i + 1];
      TakenAnswers(rest, key);
    }
  }

  /** It stands on the shallowest level with a holder, and has the highest number there. */
  ghost predicate TakenAt(levels: seq<Level>, key: Key, i: nat, run: Run) {
    && i < |levels| && IsHighest(levels[i], key, run)
    && forall j, other :: 0 <= j < i && other in levels[j] ==> !Holds(other, key)
  }

  lemma {:induction false} TakenIs(levels: seq<Level>, key: Key)
    ensures Taken(levels, key).Some? ==> exists i: nat :: TakenAt(levels, key, i, Taken(levels, key).value)
    ensures Taken(levels, key).None? ==> forall i, run :: 0 <= i < |levels| && run in levels[i] ==> !Holds(run, key)
  {
    if levels != [] {
      var rest := levels[1..];
      HighestIs(levels[0], key);
      TakenIs(rest, key);
      assert forall i | 0 <= i < |rest| :: rest[i] == levels[i + 1];
      if Highest(levels[0], key).Some? {
        assert TakenAt(levels, key, 0, Highest(levels[0], key).value);
      } else if Taken(rest, key).Some? {
        var i: nat :| TakenAt(rest, key, i, Taken(rest, key).value);
        TakenDeeper(levels, key, i, Taken(rest, key).value);
        assert TakenAt(levels, key, i + 1, Taken(levels, key).value);
      } else {
        forall i, run | 0 <= i < |levels| && run in levels[i] ensures !Holds(run, key) {
          assert i > 0 ==> run in rest[i - 1];
        }
      }
    }
  }

  lemma TakenDeeper(levels: seq<Level>, key: Key, i: nat, run: Run)
    requires levels != [] && TakenAt(levels[1..], key, i, run)
    requires forall other :: other in levels[0] ==> !Holds(other, key)
    ensures TakenAt(levels, key, i + 1, run)
  {
    forall j, other | 0 <= j < i + 1 && other in levels[j] ensures !Holds(other, key) {
      assert j > 0 ==> other in levels[1..][j - 1];
    }
  }

  // ----- Tables readers cannot tell apart, key by key -----

  lemma SameLive(a: Table, b: Table)
    ensures Live(a) == Live(b) <==> forall k :: LiveValue(a, k) == LiveValue(b, k)
  {
    if Live(a) == Live(b) {
      forall k ensures LiveValue(a, k) == LiveValue(b, k) {
        assert k in Live(a) <==> k in Live(b);
        assert k in Live(a) ==> Live(a)[k] == Live(b)[k];
      }
    }
    if forall k :: LiveValue(a, k) == LiveValue(b, k) {
      forall k
        ensures k in Live(a) <==> k in Live(b)
        ensures k in Live(a) && k in Live(b) ==> Live(a)[k] == Live(b)[k]
      {
        assert LiveValue(a, k) == LiveValue(b, k);
      }
      assert Live(a).Keys == Live(b).Keys;
    }
  }

  /** With the same entries on top, only the keys without one matter. */
  lemma SameLiveUnder(a: Table, b: Table, top: Table)
    ensures Live(a + top) == Live(b + top) <==> forall k :: k !in top ==> LiveValue(a, k) == LiveValue(b, k)
  {
    SameLive(a + top, b + top);
    forall k ensures LiveValue(a + top, k) == if k in top then top[k] else LiveValue(a, k) {
    }
    forall k ensures LiveValue(b + top, k) == if k in top then top[k] else LiveValue(b, k) {
    }
  }

  // ----- get -----

  /** The run a level's walk from the back stops at: the first with a value. */
  function StopIn(level: Level, key: Key): Option<Run> {
    if level == [] then None
    else if GetFromRun(level[|level| - 1], key).Some? then Some(level[|level| - 1])
    else StopIn(level[..|level| - 1], key)
  }

  function Stop(levels: seq<Level>, key: Key): Option<Run> {
    if levels == [] then None
    else
      var here := StopIn(levels[0], key);
      if here.Some? then here else Stop(levels[1..], key)
  }

  lemma {:induction false} StopInAnswers(level: Level, key: Key)
    ensures GetFromLevel(level, key) == Answer(StopIn(level, key), key)
    ensures StopIn(level, key).Some? ==> Answer(StopIn(level, key), key).Some?
  {
    if level != [] {
      StopInAnswers(level[..|level| - 1], key);
    }
  }

  lemma {:induction false} StopAnswers(levels: seq<Level>, key: Key)
    ensures GetFromLevels(levels, key) == Answer(Stop(levels, key), key)
    ensures Stop(levels, key).Some? ==> Answer(Stop(levels, key), key).Some?
  {
    if levels != [] {
      StopInAnswers(levels[0], key);
      StopAnswers(levels[1..], key);
    }
  }

  /** The last position of its level with a value, with no value on any shallower level. */
  ghost predicate StopsAt(levels: seq<Level>, key: Key, i: nat, p: nat) {
    && i < |levels| && p < |levels[i]| && GetFromRun(levels[i][p], key).Some?
    && (forall q | p < q < |levels[i]| :: GetFromRun(levels[i][q], key).None?)
    && (forall j, q | 0 <= j < i && 0 <= q < |levels[j]| :: GetFromRun(levels[j][q], key).None?)
  }

  lemma {:induction false} StopInIs(level: Level, key: Key)
    ensures StopIn(level, key).Some? ==>
              exists p: nat :: StopsAt([level], key, 0, p) && level[p] == StopIn(level, key).value
    ensures StopIn(level, key).None? ==> forall p | 0 <= p < |level| :: GetFromRun(level[p], key).None?
  {
    if level != [] {
      var init, last := level[..|level| - 1], |level| - 1;
      StopInIs(init, key);
      if GetFromRun(level[last], key).Some? {
        assert StopsAt([level], key, 0, last);
      } else if StopIn(init, key).Some? {
        var p: nat :| StopsAt([init], key, 0, p) && init[p] == StopIn(init, key).value;
        assert forall q | 0 <= q < last :: [init][0][q] == level[q];
        assert StopsAt([level], key, 0, p);
      } else {
        assert forall q | 0 <= q < last :: init[q] == level[q];
      }
    }
  }

  lemma {:induction false} StopIs(levels: seq<Level>, key: Key)
    ensures Stop(levels, key).Some? ==>
              exists i: nat, p: nat :: StopsAt(levels, key, i, p) && levels[i][p] == Stop(levels, key).value
    ensures Stop(levels, key).None? ==>
              forall i, p | 0 <= i < |levels| && 0 <= p < |levels[i]| :: GetFromRun(levels[i][p], key).None?
  {
    if levels != [] {
      var rest := levels[1..];
      StopInIs(levels[0], key);
      StopIs(rest, key);
      if StopIn(levels[0], key).Some? {
        var p: nat :| StopsAt([levels[0]], key, 0, p) && levels[0][p] == StopIn(levels[0], key).value;
        assert StopsAt(levels, key, 0, p);
      } else if Stop(rest, key).Some? {
        var i: nat, p: nat :| StopsAt(rest, key, i, p) && rest[i][p] == Stop(rest, key).value;
        StopsDeeper(levels, key, i, p);
      } else {
        forall i, p | 0 <= i < |levels| && 0 <= p < |levels[i]| ensures GetFromRun(levels[i][p], key).None? {
          assert i > 0 ==> levels[i] == rest[i - 1];
        }
      }
    }
  }

  lemma StopsDeeper(levels: seq<Level>, key: Key, i: nat, p: nat)
    requires levels != [] && StopsAt(levels[1..], key, i, p)
    requires forall q | 0 <= q < |levels[0]| :: GetFromRun(levels[0][q], key).None?
    ensures StopsAt(levels, key, i + 1, p)
  {
    forall j, q | 0 <= j < i + 1 && 0 <= q < |levels[j]| ensures GetFromRun(levels[j][q], key).None? {
      assert j > 0 ==> levels[j] == levels[1..][j - 1];
    }
  }

  /** Where `get`'s walk stops and what readers take give the same answer. */
  predicate GetSeesNewest(t: Tree, key: Key) {
    key in t.mem || Answer(Stop(t.levels, key), key) == Answer(Taken(t.levels, key), key)
  }

  /**
   `get` agrees with `range`, whatever order the vectors are in, exactly when the
   memtable has the key, or the run its walk stops at answers as the newest run
   that holds the key: with that run's value, and not at all if it is a tombstone.
   */
  lemma GetAgreesKeyByKey(t: Tree, key: Key)
    requires LevelsDistinct(t.levels)
    ensures GetOn(t, key) == LiveValue(Contents(t), key) <==> GetSeesNewest(t, key)
  {
    StopAnswers(t.levels, key);
    TakenAnswers(t.levels, key);
  }
}
