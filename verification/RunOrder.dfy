/** Runs in the order of their numbers, which are distinct. */
module RunOrder {
  import opened Sorting
  import opened Levels

  ghost predicate DistinctNumbers(runs: seq<Run>) {
    forall i, j | 0 <= i < j < |runs| :: runs[i].number != runs[j].number
  }

  ghost predicate StrictlyByNumber(runs: seq<Run>) {
    forall i, j | 0 <= i < j < |runs| :: runs[i].number < runs[j].number
  }

  lemma ByNumberOrdering()
    ensures Ordering(ByNumber)
  {
  }

  lemma PermutedDistinct(a: seq<Run>, b: seq<Run>)
    requires multiset(a) == multiset(b) && DistinctNumbers(a)
    ensures DistinctNumbers(b)
  {
    PermutedNoDuplicates(a, b);
    forall i, j | 0 <= i < j < |b| ensures b[i].number != b[j].number {
      SameElement(a, b, b[i]);
      SameElement(a, b, b[j]);
      assert b[i] != b[j];
    }
  }

  lemma SortedStrictly(runs: seq<Run>)
    requires DistinctNumbers(runs)
    ensures StrictlyByNumber(SortBy(ByNumber, runs)) && multiset(SortBy(ByNumber, runs)) == multiset(runs)
  {
    var sorted := SortBy(ByNumber, runs);
    ByNumberOrdering();
    SortBySorted(ByNumber, runs);
    SortByPermutes(ByNumber, runs);
    PermutedDistinct(runs, sorted);
    assert forall i, j | 0 <= i < j < |sorted| :: ByNumber(sorted[i], sorted[j]);
  }

  lemma LastNumber(a: seq<Run>, b: seq<Run>)
    requires StrictlyByNumber(b) && multiset(a) == multiset(b) && a != [] && b != []
    ensures a[|a| - 1].number <= b[|b| - 1].number
    ensures a[|a| - 1].number == b[|b| - 1].number ==> a[|a| - 1] == b[|b| - 1]
  {
    SameElement(a, b, a[|a| - 1]);
    var i :| 0 <= i < |b| && b[i] == a[|a| - 1];
    assert i < |b| - 1 ==> b[i].number < b[|b| - 1].number;
  }

  lemma SameSize(a: seq<Run>, b: seq<Run>)
    requires multiset(a) == multiset(b)
    ensures |a| == |b|
  {
    assert |a| == |multiset(a)| && |b| == |multiset(b)|;
  }

  /** There is only one way to put runs in strict number order. */
  lemma {:induction false} StrictOrderUnique(a: seq<Run>, b: seq<Run>)
    requires StrictlyByNumber(a) && StrictlyByNumber(b) && multiset(a) == multiset(b)
    ensures a == b
  {
    SameSize(a, b);
    if a != [] {
      LastNumber(a, b);
      LastNumber(b, a);
      var a', b', x := a[..|a| - 1], b[..|b| - 1], a[|a| - 1];
      assert a == a' + [x] && b == b' + [x];
      CancelLast(a', b', x);
      StrictOrderUnique(a', b');
    }
  }

  /** So a level's table does not depend on the order its vector is in. */
  lemma SortIgnoresOrder(a: seq<Run>, b: seq<Run>)
    requires multiset(a) == multiset(b) && DistinctNumbers(a)
    ensures SortBy(ByNumber, a) == SortBy(ByNumber, b)
  {
    PermutedDistinct(a, b);
    SortedStrictly(a);
    SortedStrictly(b);
    StrictOrderUnique(SortBy(ByNumber, a), SortBy(ByNumber, b));
  }
}
