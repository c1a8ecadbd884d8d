/** Vectors sorted by smallest key, as opening a snapshot leaves them, against run-number order. */
module VectorOrder {
  import opened Keys
  import opened Sorting
  import opened Levels
  import opened RunOrder
  import opened Reading
  import opened Snapshots

  /** The runs in front of `run` with smaller numbers are those whose smallest key is not greater. */
  ghost predicate FollowsBy(runs: seq<Run>, run: Run) {
    forall p | 0 <= p < |runs| :: runs[p].number < run.number <==> ByMinKey(runs[p], run)
  }

  /** Of every two runs, the one in front has the smaller number exactly when its smallest key is not the greater. */
  ghost predicate MinKeysFollowNumbers(runs: seq<Run>) {
    forall p, q | 0 <= p < q < |runs| :: runs[p].number < runs[q].number <==> ByMinKey(runs[p], runs[q])
  }

  lemma FollowsByLast(init: seq<Run>, last: Run, run: Run)
    ensures FollowsBy(init + [last], run) <==>
            FollowsBy(init, run) && (last.number < run.number <==> ByMinKey(last, run))
  {
    var runs := init + [last];
    assert runs[|init|] == last;
    assert forall p | 0 <= p < |init| :: runs[p] == init[p];
  }

  lemma FollowsByMembers(a: seq<Run>, b: seq<Run>, run: Run)
    requires forall r :: r in a <==> r in b
    ensures FollowsBy(a, run) ==> FollowsBy(b, run)
  {
    if FollowsBy(a, run) {
      forall q | 0 <= q < |b| ensures b[q].number < run.number <==> ByMinKey(b[q], run) {
        assert b[q] in a;
      }
    }
  }

  lemma AllBelowMembers(a: seq<Run>, b: seq<Run>, bound: nat)
    requires forall r :: r in a <==> r in b
    ensures AllBelow(a, bound) ==> AllBelow(b, bound)
  {
    if AllBelow(a, bound) {
      forall q | 0 <= q < |b| ensures b[q].number < bound {
        assert b[q] in a;
      }
    }
  }

  lemma AppendInOrder(runs: seq<Run>, run: Run)
    ensures InNumberOrder(runs + [run]) <==> InNumberOrder(runs) && AllBelow(runs, run.number)
  {
    var all := runs + [run];
    assert all[|runs|] == run && forall p | 0 <= p < |runs| :: all[p] == runs[p];
    if InNumberOrder(all) {
      forall p | 0 <= p < |runs| ensures runs[p].number < run.number {
        assert all[p].number < all[|runs|].number;
      }
    }
  }

  lemma SameMembers(a: seq<Run>, b: seq<Run>)
    requires multiset(a) == multiset(b)
    ensures forall r :: r in a <==> r in b
  {
    forall r ensures r in a <==> r in b {
      SameElement(a, b, r);
    }
  }

  lemma BelowWithOneMore(inserted: seq<Run>, init: seq<Run>, run: Run, bound: nat)
    requires multiset(inserted) == multiset(init) + multiset{run}
    ensures AllBelow(inserted, bound) <==> AllBelow(init, bound) && run.number < bound
  {
    var all := init + [run];
    assert multiset(all) == multiset(inserted);
    SameMembers(all, inserted);
    AllBelowMembers(all, inserted, bound);
    AllBelowMembers(inserted, all, bound);
    assert all[|init|] == run && forall p | 0 <= p < |init| :: all[p] == init[p];
  }

  lemma DistinctWithoutOne(init: seq<Run>, last: Run, run: Run)
    requires DistinctNumbers(init + [last] + [run])
    ensures DistinctNumbers(init + [run]) && last.number != run.number
  {
    var all, some := init + [last] + [run], init + [run];
    assert forall p | 0 <= p < |init| :: all[p] == some[p] == init[p];
    assert all[|init|] == last && all[|init| + 1] == run && some[|init|] == run;
  }

  /** The run goes behind all others. */
  lemma InsertAtEnd(runs: seq<Run>, run: Run)
    requires SortedBy(ByMinKey, runs) && Ordering(ByMinKey) && (runs == [] || ByMinKey(runs[|runs| - 1], run))
    ensures FollowsBy(runs, run) <==> AllBelow(runs, run.number)
  {
    forall p | 0 <= p < |runs| ensures ByMinKey(runs[p], run) {
      assert p < |runs| - 1 ==> ByMinKey(runs[p], runs[|runs| - 1]);
    }
  }

  lemma {:induction false} InsertInOrder(runs: seq<Run>, run: Run)
    requires SortedBy(ByMinKey, runs) && Ordering(ByMinKey) && DistinctNumbers(runs + [run])
    ensures InNumberOrder(InsertBy(ByMinKey, runs, run)) <==> InNumberOrder(runs) && FollowsBy(runs, run)
  {
    if runs == [] || ByMinKey(runs[|runs| - 1], run) {
      AppendInOrder(runs, run);
      InsertAtEnd(runs, run);
    } else {
      var init, last := runs[..|runs| - 1], runs[|runs| - 1];
      assert runs == init + [last];
      DistinctWithoutOne(init, last, run);
      InsertInOrder(init, run);
      InsertByPermutes(ByMinKey, init, run);
      var inserted := InsertBy(ByMinKey, init, run);
      BelowWithOneMore(inserted, init, run, last.number);
      AppendInOrder(inserted, last);
      AppendInOrder(init, last);
      FollowsByLast(init, last, run);
    }
  }

  lemma ByMinKeyOrders()
    ensures Ordering(ByMinKey)
  {
    forall a, b ensures ByMinKey(a, b) || ByMinKey(b, a) {
      if a.entries != [] && b.entries != [] {
        LeTotal(a.entries[0].key, b.entries[0].key);
      }
    }
    forall a, b, c | ByMinKey(a, b) && ByMinKey(b, c) ensures ByMinKey(a, c) {
      if a.entries != [] {
        LeTransitive(a.entries[0].key, b.entries[0].key, c.entries[0].key);
      }
    }
  }

  lemma MinKeysUpToLast(init: seq<Run>, last: Run)
    ensures MinKeysFollowNumbers(init + [last]) <==> MinKeysFollowNumbers(init) && FollowsBy(init, last)
  {
    var runs := init + [last];
    assert runs[|init|] == last && forall p | 0 <= p < |init| :: runs[p] == init[p];
    if MinKeysFollowNumbers(runs) {
      forall p | 0 <= p < |init| ensures init[p].number < last.number <==> ByMinKey(init[p], last) {
        assert runs[p].number < runs[|init|].number <==> ByMinKey(runs[p], runs[|init|]);
      }
      forall p, q | 0 <= p < q < |init| ensures init[p].number < init[q].number <==> ByMinKey(init[p], init[q]) {
        assert runs[p].number < runs[q].number <==> ByMinKey(runs[p], runs[q]);
      }
    }
  }

  lemma SortedFollowsBy(init: seq<Run>, last: Run)
    requires DistinctNumbers(init + [last])
    ensures var sorted := SortBy(ByMinKey, init);
            DistinctNumbers(sorted + [last]) && (FollowsBy(sorted, last) <==> FollowsBy(init, last))
  {
    var sorted := SortBy(ByMinKey, init);
    SortByPermutes(ByMinKey, init);
    assert multiset(init + [last]) == multiset(sorted + [last]);
    PermutedDistinct(init + [last], sorted + [last]);
    SameMembers(init, sorted);
    FollowsByMembers(init, sorted, last);
    FollowsByMembers(sorted, init, last);
  }

  /**
   A vector sorted by smallest key is in number order exactly when, of any two
   runs, the one in front has the smaller number just if its smallest key is not
   the greater one. Both can be read off the runs before they are saved.
   */
  lemma {:induction false} SortedByMinKeyInOrder(runs: seq<Run>)
    requires DistinctNumbers(runs)
    ensures InNumberOrder(SortBy(ByMinKey, runs)) <==> MinKeysFollowNumbers(runs)
  {
    if runs != [] {
      var init, last := runs[..|runs| - 1], runs[|runs| - 1];
      assert runs == init + [last];
      SortedByMinKeyInOrder(init);
      MinKeysUpToLast(init, last);
      SortedFollowsBy(init, last);
      ByMinKeyOrders();
      SortBySorted(ByMinKey, init);
      InsertInOrder(SortBy(ByMinKey, init), last);
    }
  }
}
