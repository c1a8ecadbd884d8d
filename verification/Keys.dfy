/**
 Keys are byte strings in the lexicographic order that Rust gives `Vec<u8>`.
 */
module Keys {
  import opened ByteStrings

  type Key = Bytes

  predicate Le(a: Key, b: Key) {
    a == [] || (b != [] && (a[0] < b[0] || (a[0] == b[0] && Le(a[1..], b[1..]))))
  }

  predicate Lt(a: Key, b: Key) {
    Le(a, b) && a != b
  }

  lemma {:induction false} LeReflexive(a: Key)
    ensures Le(a, a)
  {
    if a != [] {
      LeReflexive(a[1..]);
    }
  }

  lemma {:induction false} LeTotal(a: Key, b: Key)
    ensures Le(a, b) || Le(b, a)
  {
    if a != [] && b != [] {
      LeTotal(a[1..], b[1..]);
    }
  }

  lemma {:induction false} LeAntisymmetric(a: Key, b: Key)
    requires Le(a, b) && Le(b, a)
    ensures a == b
  {
    if a != [] {
      LeAntisymmetric(a[1..], b[1..]);
      assert a == [a[0]] + a[1..] && b == [b[0]] + b[1..];
    }
  }

  lemma {:induction false} LeTransitive(a: Key, b: Key, c: Key)
    requires Le(a, b) && Le(b, c)
    ensures Le(a, c)
  {
    if a != [] && a[0] == b[0] == c[0] {
      LeTransitive(a[1..], b[1..], c[1..]);
    }
  }

  /** Not above is at most. */
  lemma LeOrLt(a: Key, b: Key)
    ensures Le(a, b) <==> !Lt(b, a)
  {
    LeTotal(a, b);
    if Le(a, b) && Le(b, a) {
      LeAntisymmetric(a, b);
    }
    LeReflexive(a);
  }

  // ----- The order, byte by byte -----

  /** The first difference decides, whatever follows it. */
  lemma {:induction false} FirstDifferenceDecides(p: Key, x: byte, a: Key, y: byte, b: Key)
    requires x < y
    ensures Lt(p + [x] + a, p + [y] + b)
  {
    var low, high := p + [x] + a, p + [y] + b;
    if p != [] {
      assert low[1..] == p[1..] + [x] + a && high[1..] == p[1..] + [y] + b;
      FirstDifferenceDecides(p[1..], x, a, y, b);
    }
    assert low[|p|] == x && high[|p|] == y;
  }

  /** A key comes before all its extensions. */
  lemma {:induction false} PrefixFirst(a: Key, b: Key)
    ensures Le(a, a + b)
  {
    if a != [] {
      assert (a + b)[1..] == a[1..] + b;
      PrefixFirst(a[1..], b);
    }
  }

  /** Two keys that agree up to position `i`, where the first has the smaller byte. */
  predicate SmallerAt(a: Key, b: Key, i: nat) {
    i < |a| && i < |b| && a[..i] == b[..i] && a[i] < b[i]
  }

  lemma {:induction false} SmallerSomewhere(a: Key, b: Key)
    requires Le(a, b) && !(a <= b)
    ensures exists i: nat :: SmallerAt(a, b, i)
  {
    if a[0] < b[0] {
      assert SmallerAt(a, b, 0);
    } else {
      assert a == [a[0]] + a[1..] && b == [b[0]] + b[1..];
      SmallerSomewhere(a[1..], b[1..]);
      var i: nat :| SmallerAt(a[1..], b[1..], i);
      assert a[..i + 1] == [a[0]] + a[1..][..i] && b[..i + 1] == [b[0]] + b[1..][..i];
      assert SmallerAt(a, b, i + 1);
    }
  }

  /** The lexicographic order: a prefix, or a smaller byte at the first difference. */
  lemma LeIsLexicographic(a: Key, b: Key)
    ensures Le(a, b) <==> a <= b || exists i: nat :: SmallerAt(a, b, i)
  {
    if Le(a, b) && !(a <= b) {
      SmallerSomewhere(a, b);
    }
    if a <= b {
      PrefixFirst(a, b[|a|..]);
      assert b == a + b[|a|..];
    }
    if exists i: nat :: SmallerAt(a, b, i) {
      var i: nat :| SmallerAt(a, b, i);
      FirstDifferenceDecides(a[..i], a[i], a[i + 1..], b[i], b[i + 1..]);
      assert a == a[..i] + [a[i]] + a[i + 1..] && b == b[..i] + [b[i]] + b[i + 1..];
    }
  }

  predicate IsLeast(least: Key, keys: set<Key>) {
    least in keys && forall k | k in keys :: Le(least, k)
  }

  /** A nonempty finite set of keys has a least one. */
  lemma {:induction false} LeastExists(keys: set<Key>)
    requires keys != {}
    ensures exists least :: IsLeast(least, keys)
    decreases |keys|
  {
    var some :| some in keys;
    LeReflexive(some);
    var rest := keys - {some};
    assert forall k | k in keys :: k == some || k in rest;
    if rest == {} {
      assert IsLeast(some, keys);
    } else {
      LeastExists(rest);
      var best :| IsLeast(best, rest);
      if Le(some, best) {
        forall k | k in keys ensures Le(some, k) {
          if k != some {
            LeTransitive(some, best, k);
          }
        }
        assert IsLeast(some, keys);
      } else {
        LeTotal(some, best);
        assert IsLeast(best, keys);
      }
    }
  }

  lemma LeastUnique(a: Key, b: Key, keys: set<Key>)
    requires IsLeast(a, keys) && IsLeast(b, keys)
    ensures a == b
  {
    LeAntisymmetric(a, b);
  }

  function Least(keys: set<Key>): (least: Key)
    requires keys != {}
    ensures IsLeast(least, keys)
  {
    LeastExists(keys);
    assert forall a, b | IsLeast(a, keys) && IsLeast(b, keys) :: a == b by {
      forall a, b | IsLeast(a, keys) && IsLeast(b, keys) ensures a == b {
        LeastUnique(a, b, keys);
      }
    }
    var least :| least in keys && IsLeast(least, keys);
    least
  }

  ghost predicate StrictlyAscending(keys: seq<Key>) {
    forall i, j | 0 <= i < j < |keys| :: Lt(keys[i], keys[j])
  }

  /** The order in which a `BTreeMap` or `BTreeSet` visits its keys. */
  function Sorted(keys: set<Key>): (order: seq<Key>)
    ensures StrictlyAscending(order)
    ensures forall k :: k in order <==> k in keys
    decreases |keys|
  {
    if keys == {} then []
    else
      var least := Least(keys);
      var rest := Sorted(keys - {least});
      assert forall i | 0 <= i < |rest| :: rest[i] in keys && rest[i] != least by {
        assert forall i | 0 <= i < |rest| :: rest[i] in rest;
      }
      [least] + rest
  }

  lemma {:induction false} SortedSize(keys: set<Key>)
    ensures |Sorted(keys)| == |keys|
    decreases |keys|
  {
    if keys != {} {
      SortedSize(keys - {Least(keys)});
    }
  }

  /** A key no longer than `bound` bytes is at most `bound` bytes of 0xFF. */
  lemma {:induction false} ShortKeysBelowTop(key: Key, bound: nat)
    requires |key| <= bound
    ensures Le(key, AllOnes(bound))
  {
    if key != [] {
      assert AllOnes(bound)[1..] == AllOnes(bound - 1);
      ShortKeysBelowTop(key[1..], bound - 1);
    }
  }

  function AllOnes(length: nat): Key {
    seq(length, _ => 255)
  }

  lemma {:induction false} AboveAllOnes(key: Key, bound: nat)
    requires |key| > bound && forall i | 0 <= i < bound :: key[i] == 255
    ensures !Le(key, AllOnes(bound))
  {
    if bound > 0 {
      assert AllOnes(bound)[1..] == AllOnes(bound - 1);
      AboveAllOnes(key[1..], bound - 1);
    }
  }

  lemma BelowAllOnes(key: Key, bound: nat, i: nat)
    requires i < bound && i < |key| && key[i] < 255 && forall j | 0 <= j < i :: key[j] == 255
    ensures Le(key, AllOnes(bound))
  {
    assert key[..i] == AllOnes(bound)[..i];
    assert SmallerAt(key, AllOnes(bound), i);
    LeIsLexicographic(key, AllOnes(bound));
  }

  lemma {:induction false} FirstBelow(key: Key, n: nat) returns (i: nat)
    requires n <= |key| && exists j :: 0 <= j < n && key[j] < 255
    ensures i < n && key[i] < 255 && forall j | 0 <= j < i :: key[j] == 255
  {
    if exists j :: 0 <= j < n - 1 && key[j] < 255 {
      i := FirstBelow(key, n - 1);
    } else {
      i := n - 1;
    }
  }

  /** The keys within a bound: the short ones, and the longer ones with a smaller byte before the bound. */
  lemma WithinAllOnes(key: Key, bound: nat)
    ensures Le(key, AllOnes(bound)) <==> |key| <= bound || exists j :: 0 <= j < bound && key[j] < 255
  {
    if |key| <= bound {
      ShortKeysBelowTop(key, bound);
    } else if exists j :: 0 <= j < bound && key[j] < 255 {
      var i := FirstBelow(key, bound);
      BelowAllOnes(key, bound, i);
    } else {
      AboveAllOnes(key, bound);
    }
  }
}
