/**
 What `range` and `get` return, in terms of the table the tree defines.
 */
module Reading {
  import opened Wrappers
  import opened Keys
  import opened Sorting
  import opened Entries
  import opened Levels
  import opened TreeState
  import Reference

  // ----- range -----

  ghost predicate AscendingPairs(pairs: seq<(Key, Value)>) {
    forall i, j | 0 <= i < j < |pairs| :: Lt(pairs[i].0, pairs[j].0)
  }

  lemma ListLiveMeaning(m: map<Key, Value>)
    ensures AscendingPairs(ListLive(m))
    ensures forall k, v :: (k, v) in ListLive(m) <==> k in m && m[k] == v
  {
    var order, pairs := Sorted(m.Keys), ListLive(m);
    forall i, j | 0 <= i < j < |pairs| ensures Lt(pairs[i].0, pairs[j].0) {
      assert Lt(order[i], order[j]);
    }
    forall k, v ensures (k, v) in pairs <==> k in m && m[k] == v {
      if (k, v) in pairs {
        var i :| 0 <= i < |pairs| && pairs[i] == (k, v);
        assert order[i] in order;
      }
      if k in m && m[k] == v {
        assert k in order;
        var i :| 0 <= i < |order| && order[i] == k;
        assert pairs[i] == (k, v);
      }
    }
  }

  /**
   `range` lists exactly the live entries between its bounds, strictly
   ascending: no tombstone, no key twice, nothing for reversed bounds.
   */
  lemma RangeMeaning(t: Table, from: Key, to: Key)
    ensures AscendingPairs(RangeOn(t, from, to))
    ensures forall k, v :: (k, v) in RangeOn(t, from, to) <==>
              Le(from, k) && Le(k, to) && k in t && t[k] == Some(v)
    ensures Lt(to, from) ==> RangeOn(t, from, to) == []
  {
    ListLiveMeaning(Live(Clip(t, from, to)));
    if Lt(to, from) && RangeOn(t, from, to) != [] {
      var (k, v) := RangeOn(t, from, to)[0];
      assert (k, v) in RangeOn(t, from, to);
      LeTransitive(from, k, to);
      LeAntisymmetric(from, to);
    }
  }

  /** Two ascending lists with the same pairs are the same list. */
  lemma {:induction false} SamePairs(a: seq<(Key, Value)>, b: seq<(Key, Value)>)
    requires AscendingPairs(a) && AscendingPairs(b)
    requires forall p :: p in a <==> p in b
    ensures a == b
  {
    if a == [] {
      assert forall i | 0 <= i < |b| :: b[i] in b;
    } else {
      assert a[0] in b;
      var x, y := a[|a| - 1], b[|b| - 1];
      LastIsGreatest(a, y);
      LastIsGreatest(b, x);
      LeAntisymmetric(x.0, y.0);
      OneValuePerKey(b, x, y);
      var a', b' := a[..|a| - 1], b[..|b| - 1];
      forall p ensures p in a' <==> p in b' {
        WithoutLast(a, p);
        WithoutLast(b, p);
      }
      SamePairs(a', b');
      assert a == a' + [x] && b == b' + [y];
    }
  }

  lemma LastIsGreatest(a: seq<(Key, Value)>, p: (Key, Value))
    requires AscendingPairs(a) && a != [] && (p in a || p == a[|a| - 1])
    ensures Le(p.0, a[|a| - 1].0)
  {
    LeReflexive(p.0);
    var i :| 0 <= i < |a| && a[i] == p;
    assert i < |a| - 1 ==> Lt(a[i].0, a[|a| - 1].0);
  }

  lemma OneValuePerKey(a: seq<(Key, Value)>, p: (Key, Value), q: (Key, Value))
    requires AscendingPairs(a) && p in a && q in a && p.0 == q.0
    ensures p == q
  {
    var i :| 0 <= i < |a| && a[i] == p;
    var j :| 0 <= j < |a| && a[j] == q;
  }

  lemma WithoutLast(a: seq<(Key, Value)>, p: (Key, Value))
    requires AscendingPairs(a) && a != []
    ensures p in a[..|a| - 1] <==> p in a && p != a[|a| - 1]
  {
    assert a == a[..|a| - 1] + [a[|a| - 1]];
    assert forall i | 0 <= i < |a| - 1 :: Lt(a[i].0, a[|a| - 1].0);
  }

  lemma {:induction false} LivePairsMeaning(list: seq<Entry>, from: Key, to: Key)
    requires Ascending(list)
    ensures AscendingPairs(Reference.LivePairs(list, from, to))
    ensures forall k, v :: (k, v) in Reference.LivePairs(list, from, to) <==>
              Within(k, from, to) && k in ToTable(list) && ToTable(list)[k] == Some(v)
  {
    if list != [] {
      var init, last := list[..|list| - 1], list[|list| - 1];
      LivePairsMeaning(init, from, to);
      LastNotBefore(list);
      var pairs := Reference.LivePairs(init, from, to);
      forall i | 0 <= i < |pairs| ensures Lt(pairs[i].0, last.key) {
        var (k, v) := pairs[i];
        assert (k, v) in pairs;
        ToTableKeys(init, k);
        var j :| 0 <= j < |init| && init[j].key == k;
        assert Lt(list[j].key, list[|list| - 1].key);
      }
    }
  }

  /** The tree's range over its table is the reference model's list comprehension. */
  lemma RangeIsReferenceRange(t: Table, from: Key, to: Key)
    ensures RangeOn(t, from, to) == Reference.LivePairs(ListOf(t), from, to)
  {
    ListOfRoundTrip(t);
    RangeMeaning(t, from, to);
    LivePairsMeaning(ListOf(t), from, to);
    var a, b := RangeOn(t, from, to), Reference.LivePairs(ListOf(t), from, to);
    forall p ensures p in a <==> p in b {
      var (k, v) := p;
      assert (k, v) in a <==> (k, v) in b;
    }
    SamePairs(a, b);
  }

  /** Readers only see live entries. */
  lemma RangeOfLive(a: Table, b: Table, from: Key, to: Key)
    requires Live(a) == Live(b)
    ensures RangeOn(a, from, to) == RangeOn(b, from, to)
  {
    var x, y := Live(Clip(a, from, to)), Live(Clip(b, from, to));
    assert x == y by {
      forall k ensures k in x <==> k in y {
        assert k in Live(a) <==> k in Live(b);
      }
      forall k | k in x ensures x[k] == y[k] {
        assert k in Live(a);
      }
    }
  }

  // ----- get -----

  /** Vector order is number order: what `get` takes for granted. */
  ghost predicate InNumberOrder(level: Level) {
    forall p, q | 0 <= p < q < |level| :: level[p].number < level[q].number
  }

  lemma InOrderTable(level: Level)
    requires InNumberOrder(level)
    ensures LevelTable(level) == MergeRuns(level)
  {
    SortByIdle(ByNumber, level);
  }

  /** Some run holds a value for `key`, possibly behind a newer tombstone. */
  ghost predicate HoldsValue(runs: seq<Run>, key: Key) {
    exists p :: 0 <= p < |runs| && GetFromRun(runs[p], key).Some?
  }

  lemma {:induction false} GetFromLevelMeaning(level: Level, key: Key)
    ensures GetFromLevel(level, key).Some? <==> HoldsValue(level, key)
    ensures key !in MergeRuns(level) ==> GetFromLevel(level, key).None?
    ensures key in MergeRuns(level) && MergeRuns(level)[key].Some? ==>
              GetFromLevel(level, key) == MergeRuns(level)[key]
  {
    if level != [] {
      var init, last := level[..|level| - 1], level[|level| - 1];
      GetFromLevelMeaning(init, key);
      if HoldsValue(init, key) {
        var p :| 0 <= p < |init| && GetFromRun(init[p], key).Some?;
        assert GetFromRun(level[p], key).Some?;
      }
      if HoldsValue(level, key) && GetFromRun(last, key).None? {
        var p :| 0 <= p < |level| && GetFromRun(level[p], key).Some?;
        assert GetFromRun(init[p], key).Some?;
      }
    }
  }

  ghost predicate AnyHoldsValue(levels: seq<Level>, key: Key) {
    exists i :: 0 <= i < |levels| && HoldsValue(levels[i], key)
  }

  lemma {:induction false} GetFromLevelsMeaning(levels: seq<Level>, key: Key)
    requires forall i | 0 <= i < |levels| :: InNumberOrder(levels[i])
    ensures GetFromLevels(levels, key).Some? <==> AnyHoldsValue(levels, key)
    ensures key !in DiskTable(levels) ==> GetFromLevels(levels, key).None?
    ensures key in DiskTable(levels) && DiskTable(levels)[key].Some? ==>
              GetFromLevels(levels, key) == DiskTable(levels)[key]
  {
    if levels != [] {
      InOrderTable(levels[0]);
      GetFromLevelMeaning(levels[0], key);
      var rest := levels[1..];
      assert forall i | 0 <= i < |rest| :: rest[i] == levels[i + 1];
      GetFromLevelsMeaning(rest, key);
      if AnyHoldsValue(rest, key) {
        var i :| 0 <= i < |rest| && HoldsValue(rest[i], key);
        assert HoldsValue(levels[i + 1], key);
      }
      if AnyHoldsValue(levels, key) && !HoldsValue(levels[0], key) {
        var i :| 0 <= i < |levels| && HoldsValue(levels[i], key);
        assert HoldsValue(rest[i - 1], key);
      }
    }
  }

  /** The value readers should get for `key`. */
  function LiveValue(t: Table, key: Key): Option<Value> {
    if key in t then t[key] else None
  }

  /**
   A flushed tombstone that hides an older value: the newest entry on disk says
   deleted, the memtable says nothing, and some older run still has a value.
   */
  ghost predicate HiddenByFlushedTombstone(t: Tree, key: Key) {
    && key !in t.mem
    && key in DiskTable(t.levels)
    && DiskTable(t.levels)[key].None?
    && AnyHoldsValue(t.levels, key)
  }

  /** `get` agrees with `range` exactly when it does not walk past a flushed tombstone. */
  lemma GetAgreesExactly(t: Tree, key: Key)
    requires forall i | 0 <= i < |t.levels| :: InNumberOrder(t.levels[i])
    ensures GetOn(t, key) == LiveValue(Contents(t), key) <==> !HiddenByFlushedTombstone(t, key)
  {
    GetFromLevelsMeaning(t.levels, key);
  }

  /** Two one-entry runs in L0: a value, and the tombstone written after it. */
  function DeletedAfterFlush(): Tree {
    var l0 := [Run(1, 0, [Entry([7], Some([42]))]), Run(2, 0, [Entry([7], None)])];
    Tree(map[], [l0, [], [], [], [], [], []], 3, 0)
  }

  lemma DeletedTable()
    ensures DiskTable(DeletedAfterFlush().levels) == map[[7] := None]
  {
    var t := DeletedAfterFlush();
    var l0 := t.levels[0];
    var first, tomb := l0[0], l0[1];
    assert l0 == [first] + [tomb];
    LevelTableSplit([first], [tomb]);
    LevelTableOne(first);
    LevelTableOne(tomb);
    assert first.entries[..0] == [] && tomb.entries[..0] == [];
    assert ToTable(first.entries) == map[[7] := Some([42])];
    assert ToTable(tomb.entries) == map[[7] := None];
    EmptyLevels(t.levels[1..]);
    assert DiskTable(t.levels) == map[] + LevelTable(l0);
  }

  /** The key is deleted, `range` does not show it, and `get` returns the old value. */
  lemma GetReturnsDeletedValue()
    ensures var t := DeletedAfterFlush();
            GetOn(t, [7]) == Some([42]) && LiveValue(Contents(t), [7]) == None && RangeOn(Contents(t), [7], [7]) == []
  {
    var t := DeletedAfterFlush();
    var l0 := t.levels[0];
    var first, tomb := l0[0], l0[1];
    assert l0[..1] == [first] && [first][..0] == [];
    assert first.entries[..0] == [] && tomb.entries[..0] == [];
    assert GetFromRun(tomb, [7]) == None && GetFromRun(first, [7]) == Some([42]);
    assert GetFromLevel([first], [7]) == Some([42]);
    DeletedTable();
    var contents := Contents(t);
    assert contents[[7]] == None;
    RangeMeaning(contents, [7], [7]);
    if RangeOn(contents, [7], [7]) != [] {
      var (k, v) := RangeOn(contents, [7], [7])[0];
      assert (k, v) in RangeOn(contents, [7], [7]);
      LeAntisymmetric(k, [7]);
    }
  }
}
