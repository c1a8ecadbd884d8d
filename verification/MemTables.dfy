/** The in-memory write buffer and its size accounting. */
module MemTables {
  import opened Wrappers
  import opened Keys
  import opened Entries

  /** Bytes one entry accounts for: its key, and its value if it has one. */
  function EntryBytes(k: Key, val: Option<Value>): nat {
    |k| + if val.Some? then |val.value| else 0
  }

  /** Bytes of all keys held, tombstoned ones included, and of all live values. */
  function SizeOf(t: Table): nat
    decreases |t.Keys|
  {
    if t == map[] then 0
    else
      var k := Least(t.Keys);
      assert (t - {k}).Keys == t.Keys - {k};
      EntryBytes(k, t[k]) + SizeOf(t - {k})
  }

  /** Any key may be taken out of the sum first. */
  lemma {:induction false} SizeWithout(t: Table, k: Key)
    requires k in t
    ensures SizeOf(t) == EntryBytes(k, t[k]) + SizeOf(t - {k})
    decreases |t.Keys|
  {
    var least := Least(t.Keys);
    if k != least {
      var rest, other := t - {least}, t - {k};
      assert rest.Keys == t.Keys - {least} && other.Keys == t.Keys - {k};
      SizeWithout(rest, k);
      LeastUnique(least, Least(other.Keys), other.Keys);
      assert rest - {k} == other - {least};
    }
  }

  lemma SizeAfterPut(t: Table, k: Key, val: Option<Value>)
    ensures SizeOf(t[k := val]) == EntryBytes(k, val) + SizeOf(t) - if k in t then EntryBytes(k, t[k]) else 0
  {
    SizeWithout(t[k := val], k);
    assert t[k := val] - {k} == t - {k};
    if k in t {
      SizeWithout(t, k);
    } else {
      assert t - {k} == t;
    }
  }

  function KeyLengths(entries: seq<Entry>): nat {
    if entries == [] then 0 else KeyLengths(entries[..|entries| - 1]) + |entries[|entries| - 1].key|
  }

  function ValueLengths(entries: seq<Entry>): nat {
    if entries == [] then 0
    else
      var last := entries[|entries| - 1];
      ValueLengths(entries[..|entries| - 1]) + if last.val.Some? then |last.val.value| else 0
  }

  lemma {:induction false} SizeOfEntries(entries: seq<Entry>)
    requires Ascending(entries)
    ensures SizeOf(ToTable(entries)) == KeyLengths(entries) + ValueLengths(entries)
  {
    if entries != [] {
      var init, last := entries[..|entries| - 1], entries[|entries| - 1];
      SizeOfEntries(init);
      LastNotBefore(entries);
      SizeAfterPut(ToTable(init), last.key, last.val);
    }
  }

  /** What a table accounts for: the lengths of all its keys and of all its live values. */
  lemma SizeIsLengths(t: Table)
    ensures SizeOf(t) == KeyLengths(ListOf(t)) + ValueLengths(ListOf(t))
  {
    ListOfRoundTrip(t);
    SizeOfEntries(ListOf(t));
  }

  /** The bytes a write adds and takes away. */
  lemma SizeOfWrite(t: Table, k: Key, val: Option<Value>)
    ensures var removed := if k in t && t[k].Some? then |t[k].value| else 0;
            var added := if val.Some? then |val.value| else 0;
            SizeOf(t[k := val]) == SizeOf(t) - removed + added + if k in t then 0 else |k|
  {
    SizeAfterPut(t, k, val);
  }

  class MemTable {
    var data: Table
    var sizeBytes: nat

    ghost predicate Valid()
      reads this
    {
      sizeBytes == SizeOf(data)
    }

    constructor ()
      ensures Valid() && data == map[]
    {
      data, sizeBytes := map[], 0;
    }

    /** A table with the given contents: how a snapshot's clone becomes the tree's own again. */
    constructor Restore(data: Table, sizeBytes: nat)
      requires sizeBytes == SizeOf(data)
      ensures Valid() && this.data == data
    {
      this.data, this.sizeBytes := data, sizeBytes;
    }

    method Insert(key: Key, value: Value)
      requires Valid()
      modifies this
      ensures Valid() && data == old(data)[key := Some(value)]
    {
      SizeAfterPut(data, key, Some(value));
      if key in data {
        HeldAtLeast(data, key);
        if data[key].Some? {
          sizeBytes := sizeBytes - |data[key].value|;
        }
      } else {
        sizeBytes := sizeBytes + |key|;
      }
      sizeBytes := sizeBytes + |value|;
      data := data[key := Some(value)];
    }

    method Delete(key: Key)
      requires Valid()
      modifies this
      ensures Valid() && data == old(data)[key := None]
    {
      SizeAfterPut(data, key, None);
      if key in data {
        HeldAtLeast(data, key);
        if data[key].Some? {
          sizeBytes := sizeBytes - |data[key].value|;
        }
      } else {
        sizeBytes := sizeBytes + |key|;
      }
      data := data[key := None];
    }

    function Get(key: Key): Option<Option<Value>>
      reads this
    {
      if key in data then Some(data[key]) else None
    }

    predicate IsEmpty()
      reads this
    {
      data == map[]
    }

    /** The entries in `[from, to]`: none for reversed bounds. */
    function Range(from: Key, to: Key): (r: seq<Entry>)
      reads this
      ensures ToTable(r) == Clip(data, from, to)
    {
      if Lt(to, from) then
        NothingWithin(from, to);
        []
      else
        ListOfRoundTrip(Clip(data, from, to));
        ListOf(Clip(data, from, to))
    }
  }

  /** The value subtracted for a key that is held has been counted before. */
  lemma HeldAtLeast(t: Table, k: Key)
    requires k in t
    ensures SizeOf(t) >= EntryBytes(k, t[k])
  {
    SizeWithout(t, k);
  }

  /** No key lies between reversed bounds. */
  lemma NothingWithin(from: Key, to: Key)
    requires Lt(to, from)
    ensures forall k :: !Within(k, from, to)
  {
    forall k ensures !Within(k, from, to) {
      if Within(k, from, to) {
        LeTransitive(from, k, to);
        LeAntisymmetric(from, to);
      }
    }
  }
}
