/**
 Every guarded interleaving of the caller with the compactor answers exactly as
 the reference model does.
 */
module Conformance {
  import opened Wrappers
  import opened Keys
  import opened Entries
  import opened Levels
  import opened RunOrder
  import opened Compaction
  import opened CompactionView
  import opened LevelInvariant
  import opened TreeState
  import opened Reading
  import opened Reference
  import opened Holders
  import opened CompactAllView
  import opened Interleaving
  import opened InterleavingStructure

  // ----- What each step does to the view -----

  lemma LivePut(a: Table, b: Table, k: Key, val: Option<Value>)
    requires Live(a) == Live(b)
    ensures Live(a[k := val]) == Live(b[k := val])
  {
    assert a[k := val] == a + map[k := val] && b[k := val] == b + map[k := val];
    LiveUnder(a, b, map[k := val]);
  }

  lemma PutView(s: State, k: Key, val: Option<Value>)
    requires s.flushing.None?
    ensures View(s.(tree := Written(s.tree, k, val))) == View(s)[k := val]
  {
    InsertStep(map[], s.tree.mem, k, val);
    InsertStep(DiskTable(s.tree.levels), OnTop(s), k, val);
  }

  lemma StartFlushView(s: State)
    requires s.flushing.None? && WithinTop(s.tree.mem)
    ensures View(s.(tree := MemTableTaken(s.tree), flushing := FlushedRun(s.tree))) == View(s)
  {
    var mem := s.tree.mem;
    assert map[] + mem == mem;
    if mem != map[] {
      FlushedRunOk(mem, s.tree.nextRun);
      assert mem + map[] == mem;
    }
  }

  lemma PushedView(levels: seq<Level>, run: Run)
    requires levels != [] && AllBelow(levels[0], run.number)
    ensures DiskTable(levels[0 := levels[0] + [run]]) == DiskTable(levels) + ToTable(run.entries)
  {
    LevelTableSplit(levels[0], [run]);
    LevelTableOne(run);
    assert levels[0 := levels[0] + [run]][1..] == levels[1..];
    OverlayAssociative(DiskTable(levels[1..]), LevelTable(levels[0]), ToTable(run.entries));
  }

  lemma FinishFlushView(s: State)
    requires s.flushing.Some? && s.tree.levels != [] && AllBelow(s.tree.levels[0], s.flushing.value.number)
    ensures View(s.(tree := RunPushed(s.tree, s.flushing.value), flushing := None)) == View(s)
  {
    var run, disk, mem := s.flushing.value, DiskTable(s.tree.levels), s.tree.mem;
    PushedView(s.tree.levels, run);
    OverlayAssociative(disk, ToTable(run.entries), mem);
    assert map[] + mem == mem;
  }

  /** A write-back changes nothing readers see, exactly when it is guarded or stale. */
  lemma WriteBackView(c: Config, s: State)
    requires StateOk(c, s) && Enabled(s, WriteBack)
    ensures Live(View(Next(c, s, WriteBack))) == Live(View(s)) <==> Guarded(c, s, WriteBack)
  {
    var Ready(gen, copy, job, number, result) := s.round;
    if gen == s.tree.generation {
      var levels, i := s.tree.levels, job.sourceLevel;
      CopyIsFront(levels, copy, i);
      WriteBackIsCommit(levels, copy, i, number, c.maxLevel);
      CommitView(levels, i, copy[i], number, c.maxLevel, s.tree.nextRun, OnTop(s));
    }
  }

  lemma CommitView(levels: seq<Level>, i: nat, copy: Level, number: nat, maxLevel: nat, bound: nat, top: Table)
    requires i < maxLevel && LevelsOk(levels, maxLevel, bound) && FrontOf(copy, levels[i])
    requires AllBelow(levels[i + 1], number)
    ensures Live(DiskTable(Committed(levels, i, copy, levels[i + 1], number, maxLevel)) + top) ==
            Live(DiskTable(levels) + top)
            <==> !Resurrects(levels, i, copy, maxLevel, top)
  {
    LevelOkFront(levels[i], copy, bound);
    LevelOkTable(copy, bound);
    LevelOkTable(levels[maxLevel], bound);
    CommitKeepsView(levels, i, copy, number, maxLevel, top);
  }

  /** A round run in one go changes nothing readers see, exactly when it resurrects no key. */
  lemma RoundView(t: Tree, maxLevel: nat, level0Trigger: nat, top: Table)
    requires maxLevel > 0 && LevelsOk(t.levels, maxLevel, t.nextRun)
    ensures var chosen := ChooseJob(t.levels, maxLevel, level0Trigger);
            Live(DiskTable(Compacted(t, maxLevel, level0Trigger).levels) + top) == Live(DiskTable(t.levels) + top) <==>
            !(chosen.Some? &&
              Resurrects(t.levels, chosen.value.sourceLevel, t.levels[chosen.value.sourceLevel], maxLevel, top))
  {
    CompactedIsCommit(t, maxLevel, level0Trigger);
    var chosen := ChooseJob(t.levels, maxLevel, level0Trigger);
    if chosen.Some? {
      NextCommitView(t.levels, chosen.value.sourceLevel, maxLevel, t.nextRun, top);
    }
  }

  lemma CompactedRest(t: Tree, maxLevel: nat, level0Trigger: nat)
    requires maxLevel > 0 && |t.levels| == maxLevel + 1
    ensures Compacted(t, maxLevel, level0Trigger).mem == t.mem
  {
  }

  lemma CompactView(c: Config, s: State)
    requires Shape(c, s) && LevelsOk(s.tree.levels, c.maxLevel, s.tree.nextRun)
    ensures Live(View(Called(c, s, Operation.Compact))) == Live(View(s)) <==> !CompactResurrects(c, s)
  {
    var s' := Called(c, s, Operation.Compact);
    assert OnTop(s') == OnTop(s) by {
      CompactedRest(s.tree, c.maxLevel, c.level0Trigger);
    }
    RoundView(s.tree, c.maxLevel, c.level0Trigger, OnTop(s));
  }

  lemma NextCommitView(levels: seq<Level>, i: nat, maxLevel: nat, n: nat, top: Table)
    requires i < maxLevel && LevelsOk(levels, maxLevel, n)
    ensures Live(DiskTable(Committed(levels, i, levels[i], levels[i + 1], n, maxLevel)) + top) ==
            Live(DiskTable(levels) + top)
            <==> !Resurrects(levels, i, levels[i], maxLevel, top)
  {
    AllBelowNext(levels, maxLevel, n);
    CommitView(levels, i, levels[i], n, maxLevel, n, top);
  }

  // ----- Agreement with the model -----

  lemma ViewWithoutFlush(s: State)
    requires s.flushing.None?
    ensures Contents(s.tree) == View(s)
  {
    assert map[] + s.tree.mem == s.tree.mem;
  }

  lemma GetAgrees(c: Config, s: State, m: Model, k: Key)
    requires StateOk(c, s) && Live(View(s)) == Live(m.table) && s.flushing.None?
    requires GetSeesNewest(s.tree, k)
    ensures Response(s, Get(k)) == ExecOp(m, Get(k)).1
  {
    ViewWithoutFlush(s);
    LevelsDistinctOf(s.tree.levels, c.maxLevel, s.tree.nextRun);
    GetAgreesKeyByKey(s.tree, k);
    assert k in Live(View(s)) <==> k in Live(m.table);
    if k in Live(m.table) {
      assert Live(View(s))[k] == Live(m.table)[k];
    }
  }

  lemma RangeAgrees(s: State, m: Model, from: Key, to: Key)
    requires Live(View(s)) == Live(m.table) && s.flushing.None?
    ensures Response(s, Range(from, to)) == ExecOp(m, Range(from, to)).1
  {
    ViewWithoutFlush(s);
    RangeOfLive(View(s), m.table, from, to);
    RangeIsReferenceRange(m.table, from, to);
  }

  lemma SnapshotAgrees(s: State, m: Model, id: string)
    requires Agrees(s, m) && s.flushing.None?
    ensures Agrees(s.(snapshots := s.snapshots[id := SnapshotOf(s.tree)]), ExecOp(m, Snapshot(id)).0)
  {
    ViewWithoutFlush(s);
  }

  lemma RollbackAgrees(s: State, m: Model, id: string)
    requires Agrees(s, m) && s.flushing.None? && id in s.snapshots
    ensures Agrees(s.(tree := RolledBack(s.tree, s.snapshots[id])), ExecOp(m, Rollback(id)).0)
  {
    ViewWithoutFlush(s.(tree := RolledBack(s.tree, s.snapshots[id])));
  }

  lemma PutAgrees(s: State, m: Model, k: Key, val: Option<Value>)
    requires Agrees(s, m) && s.flushing.None?
    ensures Agrees(s.(tree := Written(s.tree, k, val)), m.(table := m.table[k := val]))
  {
    PutView(s, k, val);
    LivePut(View(s), m.table, k, val);
  }

  lemma CompactAgrees(c: Config, s: State, m: Model)
    requires StateOk(c, s) && Agrees(s, m) && s.flushing.None? && !CompactResurrects(c, s)
    ensures Agrees(Called(c, s, Operation.Compact), ExecOp(m, Operation.Compact).0)
  {
    CompactView(c, s);
    LiveDropTombstones(m.table);
  }

  lemma CallAgrees(c: Config, s: State, m: Model, op: Operation)
    requires StateOk(c, s) && Agrees(s, m) && Enabled(s, Call(op)) && Guarded(c, s, Call(op))
    ensures Agrees(Called(c, s, op), ExecOp(m, op).0)
    ensures Response(s, op) == ExecOp(m, op).1
  {
    match op
    case Insert(k, v) => PutAgrees(s, m, k, Some(v));
    case Delete(k) => PutAgrees(s, m, k, None);
    case Get(k) => GetAgrees(c, s, m, k);
    case Range(from, to) => RangeAgrees(s, m, from, to);
    case Snapshot(id) => SnapshotAgrees(s, m, id);
    case Rollback(id) => if id in s.snapshots { RollbackAgrees(s, m, id); }
    case Compact => CompactAgrees(c, s, m);
  }

  lemma CompactAllInvisible(c: Config, s: State)
    requires StateOk(c, s) && Enabled(s, CompactAll) && Guarded(c, s, CompactAll)
    ensures Live(View(Next(c, s, CompactAll))) == Live(View(s))
  {
    CompactAllExactly(s.tree, c.maxLevel);
    ViewWithoutFlush(s);
    ViewWithoutFlush(Next(c, s, CompactAll));
  }

  /** Flushing and compacting are invisible. */
  lemma InternalStepAgrees(c: Config, s: State, m: Model, step: Step)
    requires StateOk(c, s) && Agrees(s, m) && Enabled(s, step) && Guarded(c, s, step) && !step.Call?
    ensures Agrees(Next(c, s, step), m)
  {
    match step
    case StartFlush => StartFlushView(s);
    case FinishFlush => FinishFlushView(s);
    case WriteBack => WriteBackView(c, s);
    case CompactAll => CompactAllInvisible(c, s);
    case _ =>
  }

  /** One guarded step: the invariant and the agreement stay, and a call gets the model's answer. */
  lemma StepConforms(c: Config, s: State, m: Model, step: Step)
    requires StateOk(c, s) && Agrees(s, m) && Enabled(s, step) && Guarded(c, s, step)
    ensures StateOk(c, Next(c, s, step))
    ensures Agrees(Next(c, s, step), if step.Call? then ExecOp(m, step.op).0 else m)
    ensures step.Call? ==> Response(s, step.op) == ExecOp(m, step.op).1
  {
    NextOk(c, s, step);
    if step.Call? {
      CallAgrees(c, s, m, step.op);
    } else {
      InternalStepAgrees(c, s, m, step);
    }
  }

  /** What the guards promise of one step: agreement stays, and a call gets the model's answer. */
  ghost predicate StepAgrees(c: Config, s: State, m: Model, step: Step)
    requires Shape(c, s) && Enabled(s, step)
  {
    && Agrees(Next(c, s, step), if step.Call? then ExecOp(m, step.op).0 else m)
    && (step.Call? ==> Response(s, step.op) == ExecOp(m, step.op).1)
  }

  lemma GetExactly(c: Config, s: State, m: Model, k: Key)
    requires StateOk(c, s) && Agrees(s, m) && s.flushing.None? && Response(s, Get(k)) == ExecOp(m, Get(k)).1
    ensures GetSeesNewest(s.tree, k)
  {
    ViewWithoutFlush(s);
    LevelsDistinctOf(s.tree.levels, c.maxLevel, s.tree.nextRun);
    GetAgreesKeyByKey(s.tree, k);
    assert k in Live(View(s)) <==> k in Live(m.table);
    if k in Live(m.table) {
      assert Live(View(s))[k] == Live(m.table)[k];
    }
  }

  lemma CallExactly(c: Config, s: State, m: Model, op: Operation)
    requires StateOk(c, s) && Agrees(s, m) && Enabled(s, Call(op)) && StepAgrees(c, s, m, Call(op))
    requires KeyWithinTop(Call(op))
    ensures Guarded(c, s, Call(op))
  {
    match op
    case Get(k) => GetExactly(c, s, m, k);
    case Compact =>
      CompactView(c, s);
      LiveDropTombstones(m.table);
    case _ =>
  }

  lemma CompactAllGuard(c: Config, s: State)
    requires StateOk(c, s) && Enabled(s, CompactAll) && Live(View(Next(c, s, CompactAll))) == Live(View(s))
    ensures Guarded(c, s, CompactAll)
  {
    CompactAllExactly(s.tree, c.maxLevel);
    ViewWithoutFlush(s);
    ViewWithoutFlush(Next(c, s, CompactAll));
  }

  /**
   The guards are exact: in a sound state that agrees with the model, a possible
   step with a readable key keeps the agreement and gets the model's answer if,
   and only if, it is guarded.
   */
  lemma GuardsAreExact(c: Config, s: State, m: Model, step: Step)
    requires StateOk(c, s) && Agrees(s, m) && Enabled(s, step) && KeyWithinTop(step)
    ensures Guarded(c, s, step) <==> StepAgrees(c, s, m, step)
  {
    if Guarded(c, s, step) {
      StepConforms(c, s, m, step);
    } else {
      match step
      case Call(op) =>
        if StepAgrees(c, s, m, step) {
          CallExactly(c, s, m, op);
        }
      case WriteBack => WriteBackView(c, s);
      case CompactAll =>
        if StepAgrees(c, s, m, step) {
          CompactAllGuard(c, s);
        }
      case _ =>
    }
  }

  lemma RunOneMore(m: Model, calls: seq<Operation>, op: Operation)
    ensures RunFrom(m, calls + [op]) ==
            (ExecOp(RunFrom(m, calls).0, op).0, RunFrom(m, calls).1 + [ExecOp(RunFrom(m, calls).0, op).1])
  {
    assert (calls + [op])[..|calls|] == calls;
  }

  /**
   Conformance: started in any sound state, a new tree's or a reopened one's,
   after any guarded sequence of steps the caller has got the results the
   reference model gives for its calls, and readers see the model's map.
   */
  lemma {:induction false} Conforms(c: Config, start: State, m: Model, trace: seq<Step>)
    requires StateOk(c, start) && Agrees(start, m) && GuardedTrace(c, start, trace)
    ensures var o := Exec(c, start, trace);
            && StateOk(c, o.state)
            && Agrees(o.state, RunFrom(m, o.calls).0)
            && o.responses == RunFrom(m, o.calls).1
  {
    if trace != [] {
      var init, step := trace[..|trace| - 1], trace[|trace| - 1];
      Conforms(c, start, m, init);
      var before := Exec(c, start, init);
      if Enabled(before.state, step) {
        StepConforms(c, before.state, RunFrom(m, before.calls).0, step);
        if step.Call? {
          RunOneMore(m, before.calls, step.op);
        }
      }
    }
  }

  // ----- With vectors in number order -----

  /** The guards that remain while vectors are in number order: only a flushed tombstone misleads `get`. */
  ghost predicate GuardedInOrder(c: Config, s: State, step: Step)
    requires Shape(c, s)
  {
    if step.Call? && step.op.Get? then !HiddenByFlushedTombstone(s.tree, step.op.key) else Guarded(c, s, step)
  }

  ghost predicate GuardedTraceInOrder(c: Config, start: State, trace: seq<Step>)
    requires Shape(c, start)
  {
    trace != [] ==>
      var init := trace[..|trace| - 1];
      GuardedTraceInOrder(c, start, init) && GuardedInOrder(c, Exec(c, start, init).state, trace[|trace| - 1])
  }

  lemma GuardedKey(c: Config, s: State, step: Step)
    requires Shape(c, s) && GuardedInOrder(c, s, step)
    ensures KeyWithinTop(step)
  {
  }

  lemma KeysOneMore(trace: seq<Step>, step: Step)
    requires KeysWithinTop(trace) && KeyWithinTop(step)
    ensures KeysWithinTop(trace + [step])
  {
    var all := trace + [step];
    assert forall i | 0 <= i < |trace| :: all[i] == trace[i];
  }

  lemma {:induction false} GuardedKeys(c: Config, start: State, trace: seq<Step>)
    requires Shape(c, start) && GuardedTraceInOrder(c, start, trace)
    ensures KeysWithinTop(trace)
  {
    if trace != [] {
      var init, step := trace[..|trace| - 1], trace[|trace| - 1];
      GuardedKeys(c, start, init);
      GuardedKey(c, Exec(c, start, init).state, step);
      KeysOneMore(init, step);
      assert trace == init + [step];
    }
  }

  lemma OrderedSeesNewest(levels: seq<Level>, mem: Table, nextRun: nat, generation: nat, key: Key)
    requires LevelsInNumberOrder(levels)
    ensures var t := Tree(mem, levels, nextRun, generation);
            GetSeesNewest(t, key) <==> !HiddenByFlushedTombstone(t, key)
  {
    var t := Tree(mem, levels, nextRun, generation);
    forall i | 0 <= i < |levels| ensures DistinctNumbers(levels[i]) {
      assert InNumberOrder(levels[i]);
    }
    GetAgreesKeyByKey(t, key);
    GetAgreesExactly(t, key);
  }

  /** Vector order, the one guard left out, is kept by every run that starts in order. */
  lemma {:induction false} GuardsFollow(c: Config, start: State, trace: seq<Step>)
    requires StateOk(c, start) && Ordered(start) && GuardedTraceInOrder(c, start, trace)
    ensures GuardedTrace(c, start, trace)
  {
    if trace != [] {
      var init, step := trace[..|trace| - 1], trace[|trace| - 1];
      GuardsFollow(c, start, init);
      var s := Exec(c, start, init).state;
      assert Ordered(s) by {
        GuardedKeys(c, start, init);
        AlwaysOrdered(c, start, init);
      }
      if step.Call? && step.op.Get? {
        OrderedSeesNewest(s.tree.levels, s.tree.mem, s.tree.nextRun, s.tree.generation, step.op.key);
      }
      assert Guarded(c, s, step);
    }
  }

  /** Conformance from any sound state whose vectors are in order. */
  lemma ConformsInOrder(c: Config, start: State, m: Model, trace: seq<Step>)
    requires StateOk(c, start) && Agrees(start, m) && Ordered(start) && GuardedTraceInOrder(c, start, trace)
    ensures var o := Exec(c, start, trace);
            && StateOk(c, o.state)
            && Agrees(o.state, RunFrom(m, o.calls).0)
            && o.responses == RunFrom(m, o.calls).1
  {
    GuardsFollow(c, start, trace);
    Conforms(c, start, m, trace);
  }

  // ----- From an empty tree -----

  lemma InitAgrees(c: Config)
    requires c.maxLevel > 0
    ensures StateOk(c, Init(c)) && Agrees(Init(c), EMPTY_MODEL) && Ordered(Init(c))
  {
    InitOk(c);
    EmptyLevels(Init(c).tree.levels);
  }

  lemma RangesAgree(s: State, m: Model)
    requires Live(View(s)) == Live(m.table)
    ensures forall from, to :: RangeOn(View(s), from, to) == LivePairs(ListOf(m.table), from, to)
  {
    forall from, to ensures RangeOn(View(s), from, to) == LivePairs(ListOf(m.table), from, to) {
      RangeOfLive(View(s), m.table, from, to);
      RangeIsReferenceRange(m.table, from, to);
    }
  }

  /**
   Every guarded interleaving of a new tree answers exactly as
   `runReferenceModel` does.
   */
  lemma ConformsFromEmpty(c: Config, trace: seq<Step>)
    requires c.maxLevel > 0 && GuardedTraceInOrder(c, Init(c), trace)
    ensures var o := Exec(c, Init(c), trace);
            && o.responses == RunReferenceModel(o.calls)
            && forall from, to ::
                 RangeOn(View(o.state), from, to) ==
                 LivePairs(ListOf(RunFrom(EMPTY_MODEL, o.calls).0.table), from, to)
  {
    InitAgrees(c);
    ConformsInOrder(c, Init(c), EMPTY_MODEL, trace);
    var o := Exec(c, Init(c), trace);
    RangesAgree(o.state, RunFrom(EMPTY_MODEL, o.calls).0);
  }
}
