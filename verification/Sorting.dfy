/**
 Stable sorting (`sort_by`, `sort_by_key`), for any ordering predicate.
 */
module Sorting {

  /** Put `x` behind every element that is not above it. */
  function InsertBy<T>(le: (T, T) -> bool, xs: seq<T>, x: T): (ys: seq<T>)
    ensures |ys| == |xs| + 1
  {
    if xs == [] || le(xs[|xs| - 1], x) then xs + [x]
    else InsertBy(le, xs[..|xs| - 1], x) + [xs[|xs| - 1]]
  }

  function SortBy<T>(le: (T, T) -> bool, xs: seq<T>): (ys: seq<T>)
    ensures |ys| == |xs|
  {
    if xs == [] then []
    else InsertBy(le, SortBy(le, xs[..|xs| - 1]), xs[|xs| - 1])
  }

  ghost predicate SortedBy<T>(le: (T, T) -> bool, xs: seq<T>) {
    forall i, j | 0 <= i < j < |xs| :: le(xs[i], xs[j])
  }

  ghost predicate Ordering<T(!new)>(le: (T, T) -> bool) {
    && (forall a, b :: le(a, b) || le(b, a))
    && (forall a, b, c :: le(a, b) && le(b, c) ==> le(a, c))
  }

  lemma {:induction false} InsertByPermutes<T>(le: (T, T) -> bool, xs: seq<T>, x: T)
    ensures multiset(InsertBy(le, xs, x)) == multiset(xs) + multiset{x}
  {
    if xs != [] && !le(xs[|xs| - 1], x) {
      InsertByPermutes(le, xs[..|xs| - 1], x);
      assert xs == xs[..|xs| - 1] + [xs[|xs| - 1]];
    }
  }

  /** Sorting loses nothing and adds nothing. */
  lemma {:induction false} SortByPermutes<T>(le: (T, T) -> bool, xs: seq<T>)
    ensures multiset(SortBy(le, xs)) == multiset(xs)
  {
    if xs != [] {
      SortByPermutes(le, xs[..|xs| - 1]);
      InsertByPermutes(le, SortBy(le, xs[..|xs| - 1]), xs[|xs| - 1]);
      assert xs == xs[..|xs| - 1] + [xs[|xs| - 1]];
    }
  }

  lemma SameElement<T>(xs: seq<T>, ys: seq<T>, x: T)
    requires multiset(xs) == multiset(ys)
    ensures x in xs <==> x in ys
  {
    assert x in xs <==> x in multiset(xs);
    assert x in ys <==> x in multiset(ys);
  }

  lemma CancelLast<T>(a: seq<T>, b: seq<T>, x: T)
    requires multiset(a + [x]) == multiset(b + [x])
    ensures multiset(a) == multiset(b)
  {
    var ma, mb := multiset(a), multiset(b);
    assert multiset(a + [x]) == ma + multiset{x} && multiset(b + [x]) == mb + multiset{x};
    assert ma == (ma + multiset{x}) - multiset{x} && mb == (mb + multiset{x}) - multiset{x};
  }

  ghost predicate NoDuplicates<T>(xs: seq<T>) {
    forall i, j | 0 <= i < j < |xs| :: xs[i] != xs[j]
  }

  lemma {:induction false} CountedOnce<T>(xs: seq<T>, x: T)
    requires NoDuplicates(xs)
    ensures multiset(xs)[x] <= 1
  {
    if xs != [] {
      var init, last := xs[..|xs| - 1], xs[|xs| - 1];
      assert xs == init + [last];
      CountedOnce(init, x);
      assert x in multiset(init) ==> x in init;
    }
  }

  lemma CountedTwice<T>(xs: seq<T>, i: nat, j: nat)
    requires i < j < |xs| && xs[i] == xs[j]
    ensures multiset(xs)[xs[i]] >= 2
  {
    assert xs == xs[..j] + xs[j..];
    assert xs[i] in xs[..j] && xs[j] in xs[j..];
    assert xs[i] in multiset(xs[..j]) && xs[j] in multiset(xs[j..]);
  }

  lemma PermutedNoDuplicates<T>(a: seq<T>, b: seq<T>)
    requires multiset(a) == multiset(b) && NoDuplicates(a)
    ensures NoDuplicates(b)
  {
    if !NoDuplicates(b) {
      var i, j :| 0 <= i < j < |b| && b[i] == b[j];
      CountedTwice(b, i, j);
      CountedOnce(a, b[i]);
    }
  }

  lemma SortByBelow<T>(le: (T, T) -> bool, xs: seq<T>, x: T)
    requires forall i | 0 <= i < |xs| :: le(xs[i], x)
    ensures forall i | 0 <= i < |xs| :: le(SortBy(le, xs)[i], x)
  {
    var ys := SortBy(le, xs);
    SortByPermutes(le, xs);
    forall i | 0 <= i < |ys| ensures le(ys[i], x) {
      SameElement(xs, ys, ys[i]);
    }
  }

  lemma {:induction false} InsertBySorted<T(!new)>(le: (T, T) -> bool, xs: seq<T>, x: T)
    requires Ordering(le) && SortedBy(le, xs)
    ensures SortedBy(le, InsertBy(le, xs, x))
  {
    if xs != [] && !le(xs[|xs| - 1], x) {
      var init, last := xs[..|xs| - 1], xs[|xs| - 1];
      InsertBySorted(le, init, x);
      var ys := InsertBy(le, init, x);
      InsertByPermutes(le, init, x);
      forall i | 0 <= i < |ys| ensures le(ys[i], last) {
        assert ys[i] in multiset(ys);
        assert ys[i] == x || ys[i] in init;
      }
    } else if xs != [] {
      forall i | 0 <= i < |xs| ensures le(xs[i], x) {
        assert i < |xs| - 1 ==> le(xs[i], xs[|xs| - 1]);
      }
    }
  }

  lemma {:induction false} SortBySorted<T(!new)>(le: (T, T) -> bool, xs: seq<T>)
    requires Ordering(le)
    ensures SortedBy(le, SortBy(le, xs))
  {
    if xs != [] {
      SortBySorted(le, xs[..|xs| - 1]);
      InsertBySorted(le, SortBy(le, xs[..|xs| - 1]), xs[|xs| - 1]);
    }
  }

  /** Sorting leaves a sorted sequence alone. */
  lemma {:induction false} SortByIdle<T>(le: (T, T) -> bool, xs: seq<T>)
    requires SortedBy(le, xs)
    ensures SortBy(le, xs) == xs
  {
    if xs != [] {
      SortByIdle(le, xs[..|xs| - 1]);
      assert xs == xs[..|xs| - 1] + [xs[|xs| - 1]];
    }
  }

  /** The elements that rank as `c` does, in the order they stand. */
  function Alike<T>(le: (T, T) -> bool, xs: seq<T>, c: T): seq<T> {
    if xs == [] then []
    else
      var init, last := Alike(le, xs[..|xs| - 1], c), xs[|xs| - 1];
      if le(last, c) && le(c, last) then init + [last] else init
  }

  lemma {:induction false} InsertByStable<T(!new)>(le: (T, T) -> bool, xs: seq<T>, x: T, c: T)
    requires Ordering(le)
    ensures Alike(le, InsertBy(le, xs, x), c) == Alike(le, xs + [x], c)
  {
    assert (xs + [x])[..|xs|] == xs;
    if xs != [] && !le(xs[|xs| - 1], x) {
      var init, last := xs[..|xs| - 1], xs[|xs| - 1];
      InsertByStable(le, init, x, c);
      assert (init + [x])[..|init|] == init;
      var ys := InsertBy(le, init, x);
      assert (ys + [last])[..|ys|] == ys;
    }
  }

  /** Sorting is stable: elements of the same rank keep their order. */
  lemma {:induction false} SortByStable<T(!new)>(le: (T, T) -> bool, xs: seq<T>, c: T)
    requires Ordering(le)
    ensures Alike(le, SortBy(le, xs), c) == Alike(le, xs, c)
  {
    if xs != [] {
      var init, last := xs[..|xs| - 1], xs[|xs| - 1];
      SortByStable(le, init, c);
      InsertByStable(le, SortBy(le, init), last, c);
      var ys := SortBy(le, init);
      assert (ys + [last])[..|ys|] == ys;
    }
  }

  lemma {:induction false} InsertBySplit<T>(le: (T, T) -> bool, low: seq<T>, high: seq<T>, x: T)
    requires forall i | 0 <= i < |low| :: le(low[i], x)
    ensures InsertBy(le, low + high, x) == low + InsertBy(le, high, x)
  {
    var all := low + high;
    if high == [] {
      assert all == low;
    } else {
      assert all[|all| - 1] == high[|high| - 1];
      assert all[..|all| - 1] == low + high[..|high| - 1];
      if !le(high[|high| - 1], x) {
        InsertBySplit(le, low, high[..|high| - 1], x);
      }
    }
  }

  /** Two blocks that are already in order can be sorted one by one. */
  lemma {:induction false} SortBySplit<T>(le: (T, T) -> bool, low: seq<T>, high: seq<T>)
    requires forall i, j | 0 <= i < |low| && 0 <= j < |high| :: le(low[i], high[j])
    ensures SortBy(le, low + high) == SortBy(le, low) + SortBy(le, high)
  {
    var all := low + high;
    if high == [] {
      assert all == low;
    } else {
      var init, last := high[..|high| - 1], high[|high| - 1];
      assert all[..|all| - 1] == low + init && all[|all| - 1] == last;
      SortBySplit(le, low, init);
      SortByBelow(le, low, last);
      InsertBySplit(le, SortBy(le, low), SortBy(le, init), last);
    }
  }

  // ----- Two sequences side by side -----

  /** The elements of two sequences are related position by position. */
  ghost predicate Parallel<A, B>(related: (A, B) -> bool, xs: seq<A>, ys: seq<B>) {
    |xs| == |ys| && forall i | 0 <= i < |xs| :: related(xs[i], ys[i])
  }

  /** Related elements are ordered alike. */
  ghost predicate OrderedAlike<A(!new), B(!new)>(related: (A, B) -> bool, leA: (A, A) -> bool, leB: (B, B) -> bool) {
    forall a, b, x, y :: related(a, x) && related(b, y) ==> (leA(a, b) <==> leB(x, y))
  }

  lemma {:induction false} InsertParallel<A(!new), B(!new)>(
      related: (A, B) -> bool, leA: (A, A) -> bool, leB: (B, B) -> bool,
      xs: seq<A>, ys: seq<B>, a: A, x: B)
    requires OrderedAlike(related, leA, leB) && Parallel(related, xs, ys) && related(a, x)
    ensures Parallel(related, InsertBy(leA, xs, a), InsertBy(leB, ys, x))
  {
    if xs != [] {
      assert related(xs[|xs| - 1], ys[|ys| - 1]);
      if !leA(xs[|xs| - 1], a) {
        InsertParallel(related, leA, leB, xs[..|xs| - 1], ys[..|ys| - 1], a, x);
      }
    }
  }

  /** Sorting both keeps them side by side. */
  lemma {:induction false} SortParallel<A(!new), B(!new)>(
      related: (A, B) -> bool, leA: (A, A) -> bool, leB: (B, B) -> bool,
      xs: seq<A>, ys: seq<B>)
    requires OrderedAlike(related, leA, leB) && Parallel(related, xs, ys)
    ensures Parallel(related, SortBy(leA, xs), SortBy(leB, ys))
  {
    if xs != [] {
      assert related(xs[|xs| - 1], ys[|ys| - 1]);
      SortParallel(related, leA, leB, xs[..|xs| - 1], ys[..|ys| - 1]);
      InsertParallel(related, leA, leB, SortBy(leA, xs[..|xs| - 1]), SortBy(leB, ys[..|ys| - 1]),
                     xs[|xs| - 1], ys[|ys| - 1]);
    }
  }
}
