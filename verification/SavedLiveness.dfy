/**
 File liveness with persistent snapshots in it: trees that save and trees that
 were opened. Saving clones every handle, links every run into a new directory
 and lets the clones go; opening publishes every recorded run in a new process.
 */
module SavedLiveness {
  import opened ByteStrings
  import opened Levels
  import opened RunOrder
  import opened LevelInvariant
  import opened TreeState
  import opened Interleaving
  import opened InterleavingStructure
  import opened CompactAllView
  import opened LevelTags
  import opened Snapshots
  import opened ReopenedTree
  import opened TreeHandles
  import opened TreeLiveness
  import H = Handles

  // ----- Saving, as calls on handles -----

  /** The files of the runs under a snapshot's name. */
  function FilesOfRuns(runs: seq<Run>, name: Bytes): set<H.File> {
    if runs == [] then {}
    else
      FilesOfRuns(runs[..|runs| - 1], name)
      + H.FilesOf(H.Place(H.SnapshotDirectory(name), runs[|runs| - 1].number))
  }

  /** One handle of the process on each of the runs. */
  ghost predicate OnEach(w: H.World, ids: seq<nat>, runs: seq<Run>) {
    && |ids| == |runs|
    && forall i | 0 <= i < |ids| ::
         && ids[i] in w.live && w.live[ids[i]].loan == H.Owned
         && w.live[ids[i]].place == H.Place(H.Active, runs[i].number)
  }

  lemma {:induction false} HoldersOf(w: H.World, held: multiset<nat>, runs: seq<Run>) returns (ids: seq<nat>)
    requires Hosts(w, held) && forall i | 0 <= i < |runs| :: runs[i].number in held
    ensures OnEach(w, ids, runs)
    decreases |runs|
  {
    if runs == [] {
      return [];
    }
    var init := HoldersOf(w, held, runs[..|runs| - 1]);
    var id := HolderOf(w, held, runs[|runs| - 1].number);
    OnOneMore(w, init, runs[..|runs| - 1], id, runs[|runs| - 1]);
    assert runs == runs[..|runs| - 1] + [runs[|runs| - 1]];
    return init + [id];
  }

  lemma OnOneMore(w: H.World, ids: seq<nat>, runs: seq<Run>, id: nat, run: Run)
    requires OnEach(w, ids, runs)
    requires id in w.live && w.live[id].loan == H.Owned && w.live[id].place == H.Place(H.Active, run.number)
    ensures OnEach(w, ids + [id], runs + [run])
  {
  }

  lemma {:induction false} SameSavedFiles(w: H.World, ids: seq<nat>, runs: seq<Run>, name: Bytes)
    requires OnEach(w, ids, runs)
    ensures H.SavedFiles(w, ids, name) == FilesOfRuns(runs, name)
  {
    if ids != [] {
      SameSavedFiles(w, ids[..|ids| - 1], runs[..|runs| - 1], name);
    }
  }

  ghost predicate AllOwned(w: H.World) {
    forall id :: id in w.live ==> w.live[id].loan == H.Owned
  }

  /** One turn of the loop: a link, and the linked handle dropped. */
  lemma LinkTurn(w: H.World, id: nat, name: Bytes) returns (steps: seq<H.Step>)
    requires H.Counted(w) && AllOwned(w) && id in w.live
    requires H.Linkable(w, H.Place(H.SnapshotDirectory(name), w.live[id].place.number))
    ensures H.Runs(w, steps, H.LinkedOnce(w, id, name))
  {
    var v := H.Linked(w, id, name);
    H.AdditionCounted(w, v, w.live[id].counter);
    assert w.next !in w.live;
    RunsOne(w, H.Link(id, name));
    RunsOne(v, H.Drop(w.next));
    RunsAppend(w, [H.Link(id, name)], v, [H.Drop(w.next)], H.LinkedOnce(w, id, name));
    return [H.Link(id, name)] + [H.Drop(w.next)];
  }

  lemma {:induction false} LinkTurns(w: H.World, ids: seq<nat>, name: Bytes) returns (steps: seq<H.Step>)
    requires H.Counted(w) && AllOwned(w) && forall i | 0 <= i < |ids| :: ids[i] in w.live
    requires H.LinkedAll(w, ids, name).ok
    ensures H.Runs(w, steps, H.LinkedAll(w, ids, name).world)
    decreases |ids|
  {
    if ids == [] {
      return [];
    }
    var front, id := ids[..|ids| - 1], ids[|ids| - 1];
    var s := H.LinkedAll(w, front, name);
    var first := LinkTurns(w, front, name);
    var second := LinkTurn(s.world, id, name);
    RunsAppend(w, first, s.world, second, H.LinkedOnce(s.world, id, name));
    return first + second;
  }

  lemma SameHosts(w: H.World, v: H.World, held: multiset<nat>)
    requires Hosts(w, held) && v.live == w.live && H.Sound(v)
    ensures Hosts(v, held)
  {
    forall n ensures |On(v, n)| == held[n] {
      assert On(v, n) == On(w, n);
    }
  }

  /** A name that no file's directory has. */
  ghost predicate NewName(w: H.World, name: Bytes) {
    forall f | f in w.files :: f.place.directory != H.SnapshotDirectory(name)
  }

  lemma LinkRuns(w: H.World, held: multiset<nat>, runs: seq<Run>, name: Bytes)
    returns (steps: seq<H.Step>, last: H.World)
    requires Hosts(w, held) && DistinctNumbers(runs) && forall i | 0 <= i < |runs| :: runs[i].number in held
    requires NewName(w, name)
    ensures H.Runs(w, steps, last) && Hosts(last, held)
    ensures last.files == w.files + FilesOfRuns(runs, name)
  {
    var ids := HoldersOf(w, held, runs);
    H.SaveLinksEveryRun(w, ids, name);
    assert H.DistinctNumbers(w, ids);
    SameSavedFiles(w, ids, runs, name);
    steps := LinkTurns(w, ids, name);
    last := H.LinkedAll(w, ids, name).world;
    H.AlwaysSound(w, steps, last);
    SameHosts(w, last, held);
  }

  /** Without links, files come and go in `active/` only. */
  lemma {:induction false} NoLinksFiles(w: H.World, steps: seq<H.Step>, last: H.World)
    requires H.Runs(w, steps, last) && NoLinks(steps)
    ensures forall f :: f in last.files && f.place.directory != H.Active ==> f in w.files
    decreases |steps|
  {
    if steps != [] {
      NoLinksFiles(H.Next(w, steps[0]), steps[1..], last);
      assert !steps[0].Link?;
    }
  }

  /** The whole of a save: clone all, link and drop each, drop the clones. */
  lemma SaveCalls(w: H.World, held: multiset<nat>, runs: seq<Run>, name: Bytes)
    returns (steps: seq<H.Step>, last: H.World)
    requires Hosts(w, held) && DistinctNumbers(runs) && OfRuns(runs) <= held && NewName(w, name)
    ensures H.Runs(w, steps, last) && Hosts(last, held)
    ensures forall f: H.File :: f.place.directory != H.Active ==>
              (f in last.files <==> f in w.files || f in FilesOfRuns(runs, name))
  {
    var first, cloned := CloneCalls(w, held, OfRuns(runs));
    NoLinksFiles(w, first, cloned);
    H.AlwaysSound(w, first, cloned);
    forall i | 0 <= i < |runs| ensures runs[i].number in held + OfRuns(runs) {
      InOfRuns(runs, i);
    }
    var second, linked := LinkRuns(cloned, held + OfRuns(runs), runs, name);
    var third, after := DropCalls(linked, held + OfRuns(runs), held);
    NoLinksFiles(linked, third, after);
    H.AlwaysSound(linked, third, after);
    RunsAppend(w, first, cloned, second, linked);
    RunsAppend(w, first + second, linked, third, after);
    return first + second + third, after;
  }

  // ----- Sessions -----

  /** A step of an interleaving; or a save, right after its flush. */
  datatype Act = Do(step: Step) | Save(name: Bytes)

  /** A state, the names of persistent snapshots, and the files these are made of. */
  datatype Session = Session(state: State, names: set<Bytes>, files: set<H.File>)

  predicate Possible(s: Session, act: Act) {
    match act
    case Do(step) => Enabled(s.state, step)
    case Save(_) => s.state.flushing.None? && s.state.tree.mem == map[]
  }

  /** Saving under a name that exists fails and changes nothing. */
  function Acted(c: Config, s: Session, act: Act): Session
    requires Shape(c, s.state) && Possible(s, act)
  {
    match act
    case Do(step) => s.(state := Next(c, s.state, step))
    case Save(name) =>
      if name in s.names then s
      else s.(names := s.names + {name}, files := s.files + FilesOfRuns(Flatten(s.state.tree.levels), name))
  }

  lemma ActedKeepsShape(c: Config, s: Session, act: Act)
    requires Shape(c, s.state) && Possible(s, act)
    ensures Shape(c, Acted(c, s, act).state)
  {
    if act.Do? {
      NextKeepsShape(c, s.state, act.step);
    }
  }

  /** Any sequence of acts, those that are not possible at their turn left out. */
  ghost function After(c: Config, start: Session, acts: seq<Act>): (s: Session)
    requires Shape(c, start.state)
    ensures Shape(c, s.state)
  {
    if acts == [] then start
    else
      var before, act := After(c, start, acts[..|acts| - 1]), acts[|acts| - 1];
      if !Possible(before, act) then before
      else
        ActedKeepsShape(c, before, act);
        Acted(c, before, act)
  }

  ghost predicate ActsWithinTop(acts: seq<Act>) {
    forall i | 0 <= i < |acts| && acts[i].Do? :: KeyWithinTop(acts[i].step)
  }

  ghost predicate FilesNamed(w: H.World, names: set<Bytes>) {
    forall f | f in w.files && f.place.directory != H.Active :: f.place.directory.name in names
  }

  /** A process that has the handles of the session's state, and its snapshots on disk. */
  ghost predicate Serves(c: Config, s: Session, w: H.World) {
    && StateOk(c, s.state) && HeldBelow(s.state) && Hosts(w, Held(s.state))
    && FilesNamed(w, s.names)
    && forall f :: f in s.files ==> f in w.files && f.place.directory != H.Active
  }

  lemma DoServed(c: Config, s: Session, step: Step, w: H.World) returns (steps: seq<H.Step>, last: H.World)
    requires Serves(c, s, w) && Enabled(s.state, step) && KeyWithinTop(step)
    ensures H.Runs(w, steps, last) && Serves(c, Acted(c, s, Do(step)), last)
  {
    NextOk(c, s.state, step);
    steps, last := StepCalls(c, s.state, step, w);
    NoLinksFiles(w, steps, last);
    H.AlwaysSound(w, steps, last);
  }

  lemma {:induction false} InSnapshotOnly(runs: seq<Run>, name: Bytes)
    ensures forall f :: f in FilesOfRuns(runs, name) ==> f.place.directory == H.SnapshotDirectory(name)
  {
    if runs != [] {
      InSnapshotOnly(runs[..|runs| - 1], name);
    }
  }

  lemma LevelsHeld(s: State)
    ensures OfRuns(Flatten(s.tree.levels)) <= Held(s)
  {
    OfFlatten(s.tree.levels);
  }

  lemma SaveServed(c: Config, s: Session, name: Bytes, w: H.World) returns (steps: seq<H.Step>, last: H.World)
    requires Serves(c, s, w) && Possible(s, Save(name))
    ensures H.Runs(w, steps, last) && Serves(c, Acted(c, s, Save(name)), last)
  {
    if name in s.names {
      return [], w;
    }
    var runs := Flatten(s.state.tree.levels);
    FlattenDistinct(s.state.tree.levels, c.maxLevel, s.state.tree.nextRun, 0);
    assert s.state.tree.levels[0..] == s.state.tree.levels;
    LevelsHeld(s.state);
    steps, last := SaveCalls(w, Held(s.state), runs, name);
    InSnapshotOnly(runs, name);
  }

  /** Every session is a sequence of calls on handles, each allowed where it comes. */
  lemma {:induction false} SessionCalls(c: Config, start: Session, acts: seq<Act>, w: H.World)
    returns (steps: seq<H.Step>, last: H.World)
    requires Serves(c, start, w) && ActsWithinTop(acts)
    ensures H.Runs(w, steps, last) && Serves(c, After(c, start, acts), last)
    decreases |acts|
  {
    if acts == [] {
      return [], w;
    }
    var init, act := acts[..|acts| - 1], acts[|acts| - 1];
    assert forall i | 0 <= i < |init| :: init[i] == acts[i];
    var first, before := SessionCalls(c, start, init, w);
    var s := After(c, start, init);
    if !Possible(s, act) {
      return first, before;
    }
    var second, after;
    match act {
      case Do(step) => second, after := DoServed(c, s, step, before);
      case Save(name) => second, after := SaveServed(c, s, name, before);
    }
    RunsAppend(w, first, before, second, after);
    return first + second, after;
  }

  // ----- From a new tree, and from an opened one -----

  ghost predicate SavedUnder(saved: set<H.File>, names: set<Bytes>) {
    forall f | f in saved :: f.place.directory != H.Active && f.place.directory.name in names
  }

  /**
   File liveness of a session of a new tree beside any persistent snapshots: the
   runs in sight of the state have their files and no other run has, and every
   file of every snapshot, found or saved on the way, is there.
   */
  lemma NewSessionLiveness(c: Config, acts: seq<Act>, names: set<Bytes>, saved: set<H.File>)
    returns (steps: seq<H.Step>, last: H.World)
    requires c.maxLevel > 0 && SavedUnder(saved, names) && ActsWithinTop(acts)
    ensures H.Runs(H.Start(saved), steps, last)
    ensures var s := After(c, Session(Init(c), names, saved), acts);
            FilesMatch(s.state, last) && saved <= s.files <= last.files
  {
    InitOk(c);
    StartHostsInit(c, saved);
    var start := Session(Init(c), names, saved);
    steps, last := SessionCalls(c, start, acts, H.Start(saved));
    HostedFilesMatch(After(c, start, acts).state, last);
    FilesOnlyGrow(c, start, acts);
  }

  lemma {:induction false} FilesOnlyGrow(c: Config, start: Session, acts: seq<Act>)
    requires Shape(c, start.state)
    ensures start.files <= After(c, start, acts).files
  {
    if acts != [] {
      FilesOnlyGrow(c, start, acts[..|acts| - 1]);
    }
  }

  /** Opening publishes each run, in a process without handles on it. */
  lemma {:induction false} PublishRuns(w: H.World, held: multiset<nat>, runs: seq<Run>)
    returns (steps: seq<H.Step>, last: H.World)
    requires Hosts(w, held) && DistinctNumbers(runs) && forall i | 0 <= i < |runs| :: runs[i].number !in held
    ensures NoLinks(steps) && H.Runs(w, steps, last) && Hosts(last, held + OfRuns(runs))
    decreases |runs|
  {
    if runs == [] {
      assert held + OfRuns(runs) == held;
      return [], w;
    }
    var init, n := runs[..|runs| - 1], runs[|runs| - 1].number;
    var first, before := PublishRuns(w, held, init);
    NotAmong(init, n);
    var second, after := PublishNext(before, held + OfRuns(init), n);
    OneMoreHeld(held, OfRuns(init), n);
    steps, last := Joined(w, first, before, second, after);
  }

  lemma PublishNext(w: H.World, held: multiset<nat>, n: nat) returns (steps: seq<H.Step>, last: H.World)
    requires Hosts(w, held) && n !in held
    ensures NoLinks(steps) && H.Runs(w, steps, last) && Hosts(last, held + multiset{n})
  {
    steps, last := PublishCalls(w, held, multiset{n}, n);
  }

  lemma OneMoreHeld(held: multiset<nat>, published: multiset<nat>, n: nat)
    ensures held + (published + multiset{n}) == held + published + multiset{n}
  {
  }

  lemma {:induction false} NotAmong(runs: seq<Run>, n: nat)
    requires forall i | 0 <= i < |runs| :: runs[i].number != n
    ensures n !in OfRuns(runs)
  {
    if runs != [] {
      NotAmong(runs[..|runs| - 1], n);
    }
  }

  lemma {:induction false} RunsBelow(runs: seq<Run>, bound: nat)
    requires forall i | 0 <= i < |runs| :: runs[i].number < bound
    ensures forall n :: n in OfRuns(runs) ==> n < bound
  {
    if runs != [] {
      RunsBelow(runs[..|runs| - 1], bound);
    }
  }

  lemma LevelsBelow(levels: seq<Level>, maxLevel: nat, bound: nat)
    requires LevelsOk(levels, maxLevel, bound)
    ensures forall n :: n in OfLevels(levels) ==> n < bound
  {
    var runs := Flatten(levels);
    OfFlatten(levels);
    forall i | 0 <= i < |runs| ensures runs[i].number < bound {
      InFlatten(levels, runs[i]);
      var l :| 0 <= l < |levels| && runs[i] in levels[l];
      assert LevelOk(levels[l], bound);
    }
    RunsBelow(runs, bound);
  }

  lemma OpenedHolds(snapshot: PersistentSnapshot, maxLevel: nat)
    requires Complete(snapshot)
    ensures Held(OpenedState(snapshot, maxLevel)) == OfRuns(Flatten(OpenedState(snapshot, maxLevel).tree.levels))
  {
    OfFlatten(OpenedState(snapshot, maxLevel).tree.levels);
  }

  /** The process that opens a snapshot: one handle on each of its runs, beside all saved files. */
  lemma OpenCalls(c: Config, snapshot: PersistentSnapshot, names: set<Bytes>, saved: set<H.File>)
    returns (steps: seq<H.Step>, last: H.World)
    requires Complete(snapshot) && StateOk(c, OpenedState(snapshot, c.maxLevel)) && SavedUnder(saved, names)
    ensures H.Runs(H.Start(saved), steps, last)
    ensures Serves(c, Session(OpenedState(snapshot, c.maxLevel), names, saved), last)
  {
    var s := OpenedState(snapshot, c.maxLevel);
    var levels := s.tree.levels;
    FlattenDistinct(levels, c.maxLevel, s.tree.nextRun, 0);
    assert levels[0..] == levels;
    H.StartSound(saved);
    assert forall n :: On(H.Start(saved), n) == {};
    steps, last := PublishRuns(H.Start(saved), multiset{}, Flatten(levels));
    assert multiset{} + OfRuns(Flatten(levels)) == OfRuns(Flatten(levels));
    OpenedHolds(snapshot, c.maxLevel);
    OfFlatten(levels);
    LevelsBelow(levels, c.maxLevel, s.tree.nextRun);
    NoLinksFiles(H.Start(saved), steps, last);
    H.AlwaysSound(H.Start(saved), steps, last);
  }

  /**
   The same for the tree opened from any snapshot that any sound state saved:
   whatever it does then, compaction and saving included, the snapshot it was
   opened from and all others stay whole.
   */
  lemma OpenedSessionLiveness(c: Config, s: State, snapshot: PersistentSnapshot, acts: seq<Act>, names: set<Bytes>,
                              saved: set<H.File>)
    returns (steps: seq<H.Step>, last: H.World)
    requires StateOk(c, s) && TagsOk(c, s, true) && s.tree.mem == map[] && s.flushing.None?
    requires Records(snapshot, Flatten(s.tree.levels)) && SavedUnder(saved, names) && ActsWithinTop(acts)
    ensures Complete(snapshot) && Shape(c, OpenedState(snapshot, c.maxLevel))
    ensures H.Runs(H.Start(saved), steps, last)
    ensures var after := After(c, Session(OpenedState(snapshot, c.maxLevel), names, saved), acts);
            FilesMatch(after.state, last) && saved <= after.files <= last.files
  {
    OpenedStateOk(c, s, View(s), snapshot);
    var start := Session(OpenedState(snapshot, c.maxLevel), names, saved);
    var first, ready := OpenCalls(c, snapshot, names, saved);
    var second, after := SessionCalls(c, start, acts, ready);
    RunsAppend(H.Start(saved), first, ready, second, after);
    HostedFilesMatch(After(c, start, acts).state, after);
    FilesOnlyGrow(c, start, acts);
    return first + second, after;
  }
}
