/**
 File liveness, for every interleaving: what the tree holds is what its process
 has handles on, and those are the runs whose files exist.
 */
module TreeLiveness {
  import opened Levels
  import opened Interleaving
  import opened TreeHandles
  import H = Handles

  // ----- A process that has the handles of a state -----

  /** The live handles on a run's files in `active/`. */
  ghost function On(w: H.World, n: nat): set<nat> {
    set id | id in w.live && w.live[id].place == H.Place(H.Active, n)
  }

  /** The process's handles are those of a state: for each run number as many, all of them its own. */
  ghost predicate Hosts(w: H.World, held: multiset<nat>) {
    && H.Sound(w)
    && (forall id :: id in w.live ==> w.live[id].loan == H.Owned)
    && forall n :: |On(w, n)| == held[n]
  }

  lemma OnGrows(w: H.World, v: H.World, n: nat)
    requires w.next !in w.live && w.next in v.live && v.live == w.live[w.next := v.live[w.next]]
    requires v.live[w.next].place == H.Place(H.Active, n)
    ensures forall m :: |On(v, m)| == |On(w, m)| + if m == n then 1 else 0
  {
    forall m ensures |On(v, m)| == |On(w, m)| + if m == n then 1 else 0 {
      assert On(v, m) == if m == n then On(w, m) + {w.next} else On(w, m);
    }
  }

  lemma OnShrinks(w: H.World, v: H.World, id: nat, n: nat)
    requires id in w.live && v.live == w.live - {id} && w.live[id].place == H.Place(H.Active, n)
    ensures forall m :: |On(w, m)| == |On(v, m)| + if m == n then 1 else 0
  {
    forall m ensures |On(w, m)| == |On(v, m)| + if m == n then 1 else 0 {
      assert On(w, m) == if m == n then On(v, m) + {id} else On(v, m);
    }
  }

  lemma NobodyOn(w: H.World, n: nat)
    requires |On(w, n)| == 0
    ensures !H.HasPlace(w, H.Place(H.Active, n))
  {
    assert forall id :: id in w.live && w.live[id].place == H.Place(H.Active, n) ==> id in On(w, n);
  }

  lemma HostPublish(w: H.World, held: multiset<nat>, n: nat)
    requires Hosts(w, held) && n !in held
    ensures H.Enabled(w, H.Publish(n)) && Hosts(H.Next(w, H.Publish(n)), held + multiset{n})
  {
    NobodyOn(w, n);
    H.NextSound(w, H.Publish(n));
    HandleAdded(w, H.Published(w, n), held, n);
  }

  lemma HolderOf(w: H.World, held: multiset<nat>, n: nat) returns (id: nat)
    requires Hosts(w, held) && n in held
    ensures id in w.live && w.live[id].place == H.Place(H.Active, n) && w.live[id].loan == H.Owned
  {
    assert |On(w, n)| > 0;
    id :| id in On(w, n);
  }

  lemma HostClone(w: H.World, held: multiset<nat>, n: nat) returns (id: nat)
    requires Hosts(w, held) && n in held
    ensures H.Enabled(w, H.Clone(id)) && Hosts(H.Next(w, H.Clone(id)), held + multiset{n})
  {
    id := HolderOf(w, held, n);
    H.NextSound(w, H.Clone(id));
    HandleAdded(w, H.Cloned(w, id), held, n);
  }

  lemma HandleAdded(w: H.World, v: H.World, held: multiset<nat>, n: nat)
    requires Hosts(w, held) && H.Sound(v) && w.next !in w.live && w.next in v.live
    requires v.live == w.live[w.next := v.live[w.next]] && v.live[w.next].loan == H.Owned
    requires v.live[w.next].place == H.Place(H.Active, n)
    ensures Hosts(v, held + multiset{n})
  {
    OnGrows(w, v, n);
  }

  lemma HostDrop(w: H.World, held: multiset<nat>, n: nat) returns (id: nat)
    requires Hosts(w, held) && n in held
    ensures H.Enabled(w, H.Drop(id)) && Hosts(H.Next(w, H.Drop(id)), held - multiset{n})
  {
    id := HolderOf(w, held, n);
    assert !H.Lends(w, id);
    H.NextSound(w, H.Drop(id));
    H.CountsItself(w, id);
    HandleGone(w, H.Dropped(w, id), held, id, n);
  }

  lemma HandleGone(w: H.World, v: H.World, held: multiset<nat>, id: nat, n: nat)
    requires Hosts(w, held) && n in held && H.Sound(v)
    requires id in w.live && v.live == w.live - {id} && w.live[id].place == H.Place(H.Active, n)
    ensures Hosts(v, held - multiset{n})
  {
    OnShrinks(w, v, id, n);
    var rest := held - multiset{n};
    forall m ensures |On(v, m)| == rest[m] {
      assert |On(w, m)| == held[m];
    }
    assert forall other :: other in v.live ==> other in w.live && v.live[other] == w.live[other];
  }

  // ----- From steps to sequences of calls -----

  /** Only saving a snapshot links files. */
  ghost predicate NoLinks(steps: seq<H.Step>) {
    forall i | 0 <= i < |steps| :: !steps[i].Link?
  }

  lemma {:induction false} RunsAppend(w: H.World, a: seq<H.Step>, v: H.World, b: seq<H.Step>, u: H.World)
    requires H.Runs(w, a, v) && H.Runs(v, b, u)
    ensures H.Runs(w, a + b, u)
    decreases |a|
  {
    if a == [] {
      assert a + b == b;
    } else {
      assert (a + b)[0] == a[0] && (a + b)[1..] == a[1..] + b;
      RunsAppend(H.Next(w, a[0]), a[1..], v, b, u);
    }
  }

  lemma RunsOne(w: H.World, step: H.Step)
    requires H.Counted(w) && H.Enabled(w, step)
    ensures H.Runs(w, [step], H.Next(w, step))
  {
    assert [step][1..] == [];
    assert H.Runs(H.Next(w, step), [], H.Next(w, step));
  }

  lemma CloneOne(w: H.World, held: multiset<nat>, n: nat) returns (steps: seq<H.Step>, last: H.World)
    requires Hosts(w, held) && n in held
    ensures H.Runs(w, steps, last) && Hosts(last, held + multiset{n})
    ensures NoLinks(steps)
  {
    var id := HostClone(w, held, n);
    RunsOne(w, H.Clone(id));
    return [H.Clone(id)], H.Next(w, H.Clone(id));
  }

  lemma DropOne(w: H.World, held: multiset<nat>, n: nat) returns (steps: seq<H.Step>, last: H.World)
    requires Hosts(w, held) && n in held
    ensures H.Runs(w, steps, last) && Hosts(last, held - multiset{n})
    ensures NoLinks(steps)
  {
    var id := HostDrop(w, held, n);
    RunsOne(w, H.Drop(id));
    return [H.Drop(id)], H.Next(w, H.Drop(id));
  }

  lemma {:induction false} Listed(m: multiset<nat>) returns (list: seq<nat>)
    ensures multiset(list) == m
    decreases |m|
  {
    if m == multiset{} {
      return [];
    }
    var n :| n in m;
    var rest := m - multiset{n};
    assert m == rest + multiset{n};
    var init := Listed(rest);
    assert multiset(init + [n]) == multiset(init) + multiset{n};
    return init + [n];
  }

  lemma LastOf(list: seq<nat>)
    requires list != []
    ensures multiset(list) == multiset(list[..|list| - 1]) + multiset{list[|list| - 1]}
  {
    assert list == list[..|list| - 1] + [list[|list| - 1]];
  }

  ghost predicate AllIn(list: seq<nat>, held: multiset<nat>) {
    forall i | 0 <= i < |list| :: list[i] in held
  }

  /** Two sequences of calls, one after the other, neither of which links. */
  lemma Joined(w: H.World, a: seq<H.Step>, v: H.World, b: seq<H.Step>, u: H.World)
    returns (steps: seq<H.Step>, last: H.World)
    requires H.Runs(w, a, v) && H.Runs(v, b, u) && NoLinks(a) && NoLinks(b)
    ensures steps == a + b && last == u && NoLinks(steps) && H.Runs(w, steps, last)
  {
    RunsAppend(w, a, v, b, u);
    return a + b, u;
  }

  lemma {:induction false} CloneList(w: H.World, held: multiset<nat>, list: seq<nat>)
    returns (steps: seq<H.Step>, last: H.World)
    requires Hosts(w, held) && AllIn(list, held)
    ensures NoLinks(steps)
    ensures H.Runs(w, steps, last) && Hosts(last, held + multiset(list))
    decreases |list|
  {
    if list == [] {
      assert held + multiset(list) == held;
      return [], w;
    }
    var init, n := list[..|list| - 1], list[|list| - 1];
    LastOf(list);
    assert held + multiset(init) + multiset{n} == held + multiset(list);
    var first, copied := CloneList(w, held, init);
    var more, after := CloneOne(copied, held + multiset(init), n);
    steps, last := Joined(w, first, copied, more, after);
  }

  lemma {:induction false} DropList(w: H.World, kept: multiset<nat>, list: seq<nat>)
    returns (steps: seq<H.Step>, last: H.World)
    requires Hosts(w, kept + multiset(list))
    ensures NoLinks(steps)
    ensures H.Runs(w, steps, last) && Hosts(last, kept)
    decreases |list|
  {
    if list == [] {
      assert kept + multiset(list) == kept;
      return [], w;
    }
    var init, n := list[..|list| - 1], list[|list| - 1];
    LastOf(list);
    assert kept + multiset(list) - multiset{n} == kept + multiset(init);
    var first, dropped := DropOne(w, kept + multiset(list), n);
    var more, after := DropList(dropped, kept, init);
    steps, last := Joined(w, first, dropped, more, after);
  }

  lemma CloneCalls(w: H.World, held: multiset<nat>, cloned: multiset<nat>) returns (steps: seq<H.Step>, last: H.World)
    requires Hosts(w, held) && forall n :: n in cloned ==> n in held
    ensures NoLinks(steps)
    ensures H.Runs(w, steps, last) && Hosts(last, held + cloned)
  {
    var list := Listed(cloned);
    assert forall i | 0 <= i < |list| :: list[i] in multiset(list);
    steps, last := CloneList(w, held, list);
  }

  lemma DropCalls(w: H.World, held: multiset<nat>, kept: multiset<nat>) returns (steps: seq<H.Step>, last: H.World)
    requires Hosts(w, held) && kept <= held
    ensures NoLinks(steps)
    ensures H.Runs(w, steps, last) && Hosts(last, kept)
  {
    var list := Listed(held - kept);
    assert kept + multiset(list) == held;
    steps, last := DropList(w, kept, list);
  }

  lemma PublishCalls(w: H.World, held: multiset<nat>, published: multiset<nat>, n: nat)
    returns (steps: seq<H.Step>, last: H.World)
    requires Hosts(w, held) && n !in held && (published == multiset{} || published == multiset{n})
    ensures H.Runs(w, steps, last) && Hosts(last, held + published)
    ensures steps == if published == multiset{} then [] else [H.Publish(n)]
  {
    if published == multiset{} {
      assert held + published == held;
      return [], w;
    }
    HostPublish(w, held, n);
    RunsOne(w, H.Publish(n));
    return [H.Publish(n)], H.Next(w, H.Publish(n));
  }

  lemma WriteAndClone(w: H.World, held: multiset<nat>, published: multiset<nat>, n: nat, cloned: multiset<nat>)
    returns (steps: seq<H.Step>, last: H.World)
    requires Hosts(w, held) && n !in held && (published == multiset{} || published == multiset{n})
    requires forall m :: m in cloned ==> m in held
    ensures NoLinks(steps)
    ensures H.Runs(w, steps, last) && Hosts(last, held + published + cloned)
  {
    var first, written := PublishCalls(w, held, published, n);
    var second, copied := CloneCalls(written, held + published, cloned);
    steps, last := Joined(w, first, written, second, copied);
  }

  /** A run written, then clones made, then handles dropped. */
  lemma ThreeKinds(w: H.World, held: multiset<nat>, published: multiset<nat>, n: nat, cloned: multiset<nat>,
                   kept: multiset<nat>)
    returns (steps: seq<H.Step>, last: H.World)
    requires Hosts(w, held) && n !in held && (published == multiset{} || published == multiset{n})
    requires (forall m :: m in cloned ==> m in held) && kept <= held + published + cloned
    ensures NoLinks(steps)
    ensures H.Runs(w, steps, last) && Hosts(last, kept)
  {
    var first, copied := WriteAndClone(w, held, published, n, cloned);
    var second, after := DropCalls(copied, held + published + cloned, kept);
    steps, last := Joined(w, first, copied, second, after);
  }

  /** Every run held has a number below the counter. */
  ghost predicate HeldBelow(s: State) {
    forall n :: n in Held(s) ==> n < s.tree.nextRun
  }

  /** The calls on handles of one step: the run it writes, then its clones, then what it lets go of. */
  lemma StepCalls(c: Config, s: State, step: Step, w: H.World) returns (steps: seq<H.Step>, last: H.World)
    requires Shape(c, s) && Enabled(s, step) && HeldBelow(s) && Hosts(w, Held(s))
    ensures NoLinks(steps)
    ensures H.Runs(w, steps, last) && Hosts(last, Held(Next(c, s, step))) && HeldBelow(Next(c, s, step))
  {
    OwnsExactly(c, s, step);
    BelowAfter(c, s, step);
    steps, last := ThreeKinds(w, Held(s), Published(c, s, step), s.tree.nextRun, Cloned(c, s, step),
                              Held(Next(c, s, step)));
  }

  lemma OwnsExactly(c: Config, s: State, step: Step)
    requires Shape(c, s) && Enabled(s, step) && HeldBelow(s)
    ensures Owns(c, s, step) && s.tree.nextRun !in Held(s)
  {
    StepOwns(c, s, step);
  }

  lemma BelowAfter(c: Config, s: State, step: Step)
    requires Shape(c, s) && Enabled(s, step) && HeldBelow(s) && Owns(c, s, step)
    ensures HeldBelow(Next(c, s, step))
  {
    forall n | n in Held(Next(c, s, step)) ensures n < Next(c, s, step).tree.nextRun {
      assert n in Held(s) + Published(c, s, step) + Cloned(c, s, step);
    }
  }

  /** Every interleaving, as a sequence of calls on handles that leaves the process with what the state holds. */
  lemma {:induction false} TraceCalls(c: Config, start: State, trace: seq<Step>, w: H.World)
    returns (steps: seq<H.Step>, last: H.World)
    requires Shape(c, start) && HeldBelow(start) && Hosts(w, Held(start))
    ensures NoLinks(steps)
    ensures H.Runs(w, steps, last)
    ensures Hosts(last, Held(Exec(c, start, trace).state)) && HeldBelow(Exec(c, start, trace).state)
  {
    if trace == [] {
      return [], w;
    }
    var init, step := trace[..|trace| - 1], trace[|trace| - 1];
    steps, last := TraceCalls(c, start, init, w);
    var s := Exec(c, start, init).state;
    if Enabled(s, step) {
      var more, after := StepCalls(c, s, step, last);
      steps, last := Joined(w, steps, last, more, after);
    }
  }

  // ----- Liveness -----

  ghost predicate HasFiles(w: H.World, run: Run) {
    H.FilesOf(H.Place(H.Active, run.number)) <= w.files
  }

  ghost predicate AllHaveFiles(w: H.World, levels: seq<Level>) {
    forall i, p | 0 <= i < |levels| && 0 <= p < |levels[i]| :: HasFiles(w, levels[i][p])
  }

  lemma HeldHasFiles(w: H.World, held: multiset<nat>, run: Run)
    requires Hosts(w, held) && run.number in held
    ensures HasFiles(w, run)
  {
    var id := HolderOf(w, held, run.number);
  }

  lemma {:induction false} InOfRuns(runs: seq<Run>, p: nat)
    requires p < |runs|
    ensures runs[p].number in OfRuns(runs)
  {
    if p < |runs| - 1 {
      InOfRuns(runs[..|runs| - 1], p);
    }
  }

  lemma InOfLevels(levels: seq<Level>, i: nat, p: nat)
    requires i < |levels| && p < |levels[i]|
    ensures levels[i][p].number in OfLevels(levels)
  {
    InOfRuns(levels[i], p);
    OfLevelsSplit(levels, i);
  }

  lemma LevelsHaveFiles(w: H.World, held: multiset<nat>, levels: seq<Level>)
    requires Hosts(w, held) && OfLevels(levels) <= held
    ensures AllHaveFiles(w, levels)
  {
    forall i, p | 0 <= i < |levels| && 0 <= p < |levels[i]| ensures HasFiles(w, levels[i][p]) {
      InOfLevels(levels, i, p);
      assert levels[i][p].number in held;
      HeldHasFiles(w, held, levels[i][p]);
    }
  }

  /** Every run in sight of the state has its files, and `active/` holds no others. */
  ghost predicate FilesMatch(s: State, w: H.World) {
    && AllHaveFiles(w, s.tree.levels)
    && (forall id | id in s.snapshots :: AllHaveFiles(w, s.snapshots[id].levels))
    && (s.flushing.Some? ==> HasFiles(w, s.flushing.value))
    && (s.round.Chosen? || s.round.Ready? ==> AllHaveFiles(w, s.round.copy))
    && (s.round.Ready? && s.round.result.output.Some? ==> HasFiles(w, s.round.result.output.value))
    && forall f :: f in w.files && f.place.directory == H.Active ==> f.place.number in Held(s)
  }

  lemma ActiveIsHeld(w: H.World, held: multiset<nat>, f: H.File)
    requires Hosts(w, held) && f in w.files && f.place.directory == H.Active
    ensures f.place.number in held
  {
    assert H.HasPlace(w, f.place);
    var id :| id in w.live && w.live[id].place == f.place;
    assert id in On(w, f.place.number);
  }

  lemma SnapshotsHaveFiles(s: State, w: H.World)
    requires Hosts(w, Held(s))
    ensures forall id | id in s.snapshots :: AllHaveFiles(w, s.snapshots[id].levels)
  {
    forall id | id in s.snapshots ensures AllHaveFiles(w, s.snapshots[id].levels) {
      OfSnapshotsWithout(s.snapshots, id);
      LevelsHaveFiles(w, Held(s), s.snapshots[id].levels);
    }
  }

  lemma RoundHasFiles(s: State, w: H.World)
    requires Hosts(w, Held(s))
    ensures s.round.Chosen? || s.round.Ready? ==> AllHaveFiles(w, s.round.copy)
    ensures s.round.Ready? && s.round.result.output.Some? ==> HasFiles(w, s.round.result.output.value)
  {
    if s.round.Chosen? || s.round.Ready? {
      LevelsHaveFiles(w, Held(s), s.round.copy);
    }
    if s.round.Ready? && s.round.result.output.Some? {
      HeldHasFiles(w, Held(s), s.round.result.output.value);
    }
  }

  /** For any process whose handles are those of the state, however it came by them. */
  lemma HostedFilesMatch(s: State, w: H.World)
    requires Hosts(w, Held(s))
    ensures FilesMatch(s, w)
  {
    LevelsHaveFiles(w, Held(s), s.tree.levels);
    SnapshotsHaveFiles(s, w);
    if s.flushing.Some? {
      HeldHasFiles(w, Held(s), s.flushing.value);
    }
    RoundHasFiles(s, w);
    forall f | f in w.files && f.place.directory == H.Active ensures f.place.number in Held(s) {
      ActiveIsHeld(w, Held(s), f);
    }
  }

  lemma StartHostsInit(c: Config, saved: set<H.File>)
    requires c.maxLevel > 0 && forall f | f in saved :: f.place.directory != H.Active
    ensures HeldBelow(Init(c)) && Hosts(H.Start(saved), Held(Init(c)))
  {
    var start := Init(c);
    assert forall i | 0 <= i < |start.tree.levels| :: start.tree.levels[i] == [];
    OfEmptyLevels(start.tree.levels);
    H.StartSound(saved);
    assert Held(start) == multiset{};
    assert forall n :: On(H.Start(saved), n) == {};
  }

  /**
   File liveness of the tree: every interleaving from a new tree, beside any
   persistent snapshots, is a sequence of calls on handles after which every run in
   the levels, an in-memory snapshot, a flush or a round under way has all its
   files, `active/` holds the files of no other run, and the files of the
   persistent snapshots are untouched.
   */
  lemma TreeLiveness(c: Config, trace: seq<Step>, saved: set<H.File>) returns (steps: seq<H.Step>, last: H.World)
    requires c.maxLevel > 0 && forall f | f in saved :: f.place.directory != H.Active
    ensures H.Runs(H.Start(saved), steps, last)
    ensures FilesMatch(Exec(c, Init(c), trace).state, last)
    ensures saved <= last.files
  {
    StartHostsInit(c, saved);
    steps, last := TraceCalls(c, Init(c), trace, H.Start(saved));
    HostedFilesMatch(Exec(c, Init(c), trace).state, last);
    H.Liveness(saved, steps, last);
  }
}
