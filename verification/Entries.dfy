/**
 Entries of a run or a memtable, and the `BTreeMap<Key, Option<Value>>` they
 are merged in. A value of `None` is a tombstone.
 */
module Entries {
  import opened Wrappers
  import opened ByteStrings
  import opened Keys

  type Value = Bytes

  datatype Entry = Entry(key: Key, val: Option<Value>)

  type Table = map<Key, Option<Value>>

  /** The table after inserting the entries one by one: later entries win. */
  function ToTable(entries: seq<Entry>): Table {
    if entries == [] then map[]
    else
      var last := entries[|entries| - 1];
      ToTable(entries[..|entries| - 1])[last.key := last.val]
  }

  ghost predicate Ascending(entries: seq<Entry>) {
    forall i, j | 0 <= i < j < |entries| :: Lt(entries[i].key, entries[j].key)
  }

  predicate Within(k: Key, from: Key, to: Key) {
    Le(from, k) && Le(k, to)
  }

  /** The entries with `from <= key <= to`, in order. */
  function RangeOf(entries: seq<Entry>, from: Key, to: Key): (r: seq<Entry>)
    ensures forall e | e in r :: e in entries
  {
    if entries == [] then []
    else
      var last := entries[|entries| - 1];
      var init := RangeOf(entries[..|entries| - 1], from, to);
      if Within(last.key, from, to) then init + [last] else init
  }

  /** The part of a table with `from <= key <= to`. */
  function Clip(t: Table, from: Key, to: Key): Table {
    map k | k in t && Within(k, from, to) :: t[k]
  }

  /** What a reader sees: the entries that are not tombstones. */
  function Live(t: Table): map<Key, Value> {
    map k | k in t && t[k].Some? :: t[k].value
  }

  /** `retain(|_, v| v.is_some())` */
  function DropTombstones(t: Table): Table {
    map k | k in t && t[k].Some? :: t[k]
  }

  /** A table as the entries its `BTreeMap` iterator yields. */
  function ListOf(t: Table): (entries: seq<Entry>)
    ensures |entries| == |Sorted(t.Keys)|
  {
    var order := Sorted(t.Keys);
    seq(|order|, i requires 0 <= i < |order| => assert order[i] in order; Entry(order[i], t[order[i]]))
  }

  lemma {:induction false} ToTableKeys(entries: seq<Entry>, k: Key)
    ensures k in ToTable(entries) <==> exists i :: 0 <= i < |entries| && entries[i].key == k
  {
    if entries != [] {
      var init := entries[..|entries| - 1];
      ToTableKeys(init, k);
      if k in ToTable(init) {
        var i :| 0 <= i < |init| && init[i].key == k;
        assert entries[i].key == k;
      }
      if exists i :: 0 <= i < |entries| && entries[i].key == k {
        var i :| 0 <= i < |entries| && entries[i].key == k;
        if i < |init| {
          assert init[i].key == k;
        }
      }
    }
  }

  /** In an ascending list every entry survives in its table. */
  lemma {:induction false} ToTableAt(entries: seq<Entry>, i: nat)
    requires Ascending(entries) && i < |entries|
    ensures entries[i].key in ToTable(entries) && ToTable(entries)[entries[i].key] == entries[i].val
  {
    if i < |entries| - 1 {
      assert Lt(entries[i].key, entries[|entries| - 1].key);
      ToTableAt(entries[..|entries| - 1], i);
    }
  }

  lemma {:induction false} ToTableRange(entries: seq<Entry>, from: Key, to: Key)
    ensures ToTable(RangeOf(entries, from, to)) == Clip(ToTable(entries), from, to)
  {
    if entries != [] {
      var init, last := entries[..|entries| - 1], entries[|entries| - 1];
      ToTableRange(init, from, to);
      if Within(last.key, from, to) {
        var r := RangeOf(init, from, to);
        assert (r + [last])[..|r|] == r;
      }
    }
  }

  lemma {:induction false} ToTableAppend(a: seq<Entry>, b: seq<Entry>)
    ensures ToTable(a + b) == ToTable(a) + ToTable(b)
  {
    if b == [] {
      assert a + b == a;
    } else {
      assert (a + b)[..|a + b| - 1] == a + b[..|b| - 1];
      ToTableAppend(a, b[..|b| - 1]);
    }
  }

  lemma ListOfAscending(t: Table)
    ensures Ascending(ListOf(t))
  {
    var order := Sorted(t.Keys);
    forall i, j | 0 <= i < j < |order| ensures Lt(ListOf(t)[i].key, ListOf(t)[j].key) {
      assert Lt(order[i], order[j]);
    }
  }

  /** Listing a table and inserting the list again gives the table back. */
  lemma ListOfRoundTrip(t: Table)
    ensures Ascending(ListOf(t)) && ToTable(ListOf(t)) == t
  {
    ListOfAscending(t);
    var order, entries := Sorted(t.Keys), ListOf(t);
    forall k ensures k in ToTable(entries) <==> k in t {
      ToTableKeys(entries, k);
      if k in t {
        assert k in order;
        var i :| 0 <= i < |order| && order[i] == k;
        assert entries[i].key == k;
      }
      if k in ToTable(entries) {
        var i :| 0 <= i < |entries| && entries[i].key == k;
        assert order[i] in order;
      }
    }
    forall k | k in t ensures ToTable(entries)[k] == t[k] {
      assert k in order;
      var i :| 0 <= i < |order| && order[i] == k;
      ToTableAt(entries, i);
    }
  }

  /** An ascending list is the only ascending list of its table. */
  lemma {:induction false} AscendingUnique(a: seq<Entry>, b: seq<Entry>)
    requires Ascending(a) && Ascending(b) && ToTable(a) == ToTable(b)
    ensures a == b
    decreases |a|
  {
    if a == [] {
      if b != [] {
        ToTableAt(b, 0);
      }
    } else if b == [] {
      ToTableAt(a, 0);
    } else {
      LastAgrees(a, b);
      LastAgrees(b, a);
      var x, y := a[|a| - 1], b[|b| - 1];
      LeAntisymmetric(x.key, y.key);
      ToTableAt(a, |a| - 1);
      ToTableAt(b, |b| - 1);
      assert x == y;
      var a', b' := a[..|a| - 1], b[..|b| - 1];
      LastNotBefore(a);
      LastNotBefore(b);
      assert ToTable(a') == ToTable(a) - {x.key};
      assert ToTable(b') == ToTable(b) - {y.key};
      AscendingUnique(a', b');
      assert a == a' + [x] && b == b' + [y];
    }
  }

  lemma LastAgrees(a: seq<Entry>, b: seq<Entry>)
    requires Ascending(a) && Ascending(b) && ToTable(a) == ToTable(b) && a != [] && b != []
    ensures Le(a[|a| - 1].key, b[|b| - 1].key)
  {
    var k := a[|a| - 1].key;
    ToTableAt(a, |a| - 1);
    ToTableKeys(b, k);
    var i :| 0 <= i < |b| && b[i].key == k;
    LeReflexive(k);
    assert i < |b| - 1 ==> Lt(b[i].key, b[|b| - 1].key);
  }

  lemma LastNotBefore(a: seq<Entry>)
    requires Ascending(a) && a != []
    ensures a[|a| - 1].key !in ToTable(a[..|a| - 1])
  {
    var init, k := a[..|a| - 1], a[|a| - 1].key;
    ToTableKeys(init, k);
    assert forall i | 0 <= i < |init| :: init[i] == a[i] && Lt(a[i].key, k);
  }
}
