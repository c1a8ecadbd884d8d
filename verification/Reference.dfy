/**
 The reference model of the conformance tests: a map with tombstones, saved
 copies of it, and a fold over the operations.
 */
module Reference {
  import opened Wrappers
  import opened Keys
  import opened Entries

  datatype Operation =
    | Insert(key: Key, value: Value)
    | Get(key: Key)
    | Delete(key: Key)
    | Range(from: Key, to: Key)
    | Snapshot(id: string)
    | Rollback(id: string)
    | Compact

  datatype OperationResult =
    | Ok(value: Option<Value>)
    | OkRange(pairs: seq<(Key, Value)>)
    | OkUnit
    | SnapshotNotFound

  datatype Model = Model(table: Table, snapshots: map<string, Table>)

  const EMPTY_MODEL := Model(map[], map[])

  /** `[(k, v) | (k, Just v) <- list, k >= from, k <= to]` */
  function LivePairs(list: seq<Entry>, from: Key, to: Key): seq<(Key, Value)> {
    if list == [] then []
    else
      var init, last := LivePairs(list[..|list| - 1], from, to), list[|list| - 1];
      if last.val.Some? && Within(last.key, from, to) then init + [(last.key, last.val.value)] else init
  }

  function ExecOp(m: Model, op: Operation): (Model, OperationResult) {
    match op
    case Insert(k, v) => (m.(table := m.table[k := Some(v)]), OkUnit)
    case Get(k) =>
      (m, OperationResult.Ok(if k in m.table && m.table[k].Some? then m.table[k] else None))
    case Delete(k) => (m.(table := m.table[k := None]), OkUnit)
    case Range(from, to) => (m, OkRange(LivePairs(ListOf(m.table), from, to)))
    case Snapshot(id) => (m.(snapshots := m.snapshots[id := m.table]), OkUnit)
    case Rollback(id) =>
      if id in m.snapshots then (m.(table := m.snapshots[id]), OkUnit) else (m, SnapshotNotFound)
    case Compact => (m.(table := DropTombstones(m.table)), OkUnit)
  }

  /** The fold over the operations. */
  function RunFrom(m: Model, ops: seq<Operation>): (Model, seq<OperationResult>) {
    if ops == [] then (m, [])
    else
      var (before, results) := RunFrom(m, ops[..|ops| - 1]);
      var (after, result) := ExecOp(before, ops[|ops| - 1]);
      (after, results + [result])
  }

  function RunReferenceModel(ops: seq<Operation>): seq<OperationResult> {
    RunFrom(EMPTY_MODEL, ops).1
  }

  // ----- What the operations promise -----

  /** The answer to `Get` after some operations. */
  function Answered(m: Model, key: Key): Option<Value> {
    match ExecOp(m, Get(key)).1
    case Ok(value) => value
    case _ => None
  }

  /** A write is seen under its key and nowhere else; reading and compacting change no answer. */
  lemma WritesAreSeen(m: Model, key: Key, value: Value, other: Key)
    ensures Answered(ExecOp(m, Insert(key, value)).0, other) == if other == key then Some(value) else Answered(m, other)
    ensures Answered(ExecOp(m, Delete(key)).0, other) == if other == key then None else Answered(m, other)
    ensures Answered(ExecOp(m, Compact).0, other) == Answered(m, other)
    ensures ExecOp(m, Get(key)).0 == m && ExecOp(m, Get(key)).1.Ok?
  {
  }

  /** A rollback answers as at the snapshot, and changes nothing for a name that was never used. */
  lemma RollbackAnswers(m: Model, later: Model, id: string, key: Key)
    requires id in later.snapshots && later.snapshots[id] == ExecOp(m, Snapshot(id)).0.snapshots[id]
    ensures ExecOp(later, Rollback(id)).1 == OkUnit
    ensures Answered(ExecOp(later, Rollback(id)).0, key) == Answered(m, key)
  {
  }

  lemma UnknownSnapshot(m: Model, id: string)
    requires id !in m.snapshots
    ensures ExecOp(m, Rollback(id)) == (m, SnapshotNotFound)
  {
  }

  /** Saving or rolling back leaves the other snapshots alone. */
  lemma OtherSnapshotsStay(m: Model, id: string, other: string)
    requires other != id && other in m.snapshots
    ensures other in ExecOp(m, Snapshot(id)).0.snapshots
    ensures ExecOp(m, Snapshot(id)).0.snapshots[other] == m.snapshots[other]
    ensures ExecOp(m, Rollback(id)).0.snapshots == m.snapshots
  {
  }

  /** Results come in the order of the operations, each from the state that the ones before it leave. */
  lemma {:induction false} ResultsInOrder(ops: seq<Operation>, i: nat)
    requires i < |ops|
    ensures |RunReferenceModel(ops)| == |ops|
    ensures RunReferenceModel(ops)[i] == ExecOp(RunFrom(EMPTY_MODEL, ops[..i]).0, ops[i]).1
  {
    var init := ops[..|ops| - 1];
    ResultCount(init);
    if i < |init| {
      ResultsInOrder(init, i);
      assert init[..i] == ops[..i];
    } else {
      assert init == ops[..i];
    }
  }

  lemma {:induction false} ResultCount(ops: seq<Operation>)
    ensures |RunReferenceModel(ops)| == |ops|
  {
    if ops != [] {
      ResultCount(ops[..|ops| - 1]);
    }
  }
}
