/**
 Handles to runs on disk: the reference count handles of one run share, and
 the files that go when it reaches zero.
 */
module Handles {
  import opened ByteStrings

  datatype Directory = Active | SnapshotDirectory(name: Bytes)

  datatype Place = Place(directory: Directory, number: nat)

  datatype Component = KeyOps | Blobs | Filter | Index | Checksums

  datatype File = File(place: Place, component: Component)

  function FilesOf(place: Place): set<File> {
    {File(place, KeyOps), File(place, Blobs), File(place, Filter), File(place, Index), File(place, Checksums)}
  }

  datatype Loan = Owned | LinkedFrom(lender: nat)

  /**
   A handle: where its files are and which counter it shares. While a snapshot
   is being created, a linked handle lives inside the borrow of the handle it
   was linked from.
   */
  datatype Handle = Handle(place: Place, counter: nat, loan: Loan)

  /** All handles of a process, their counters, and the files that exist. */
  datatype World = World(live: map<nat, Handle>, counts: map<nat, nat>, files: set<File>, next: nat)

  predicate HasPlace(w: World, place: Place) {
    exists id :: id in w.live && w.live[id].place == place
  }

  predicate Lends(w: World, id: nat) {
    exists other :: other in w.live && w.live[other].loan == LinkedFrom(id)
  }

  /** The order in which the files of a run are linked. */
  const COMPONENTS: seq<Component> := [KeyOps, Blobs, Filter, Index, Checksums]

  predicate Linkable(w: World, place: Place) {
    FilesOf(place) !! w.files
  }

  /** The position of the first component, from `from` on, whose name is taken. */
  function FirstTaken(files: set<File>, place: Place, from: nat): (j: nat)
    requires from <= |COMPONENTS|
    ensures from <= j <= |COMPONENTS|
    decreases |COMPONENTS| - from
  {
    if from == |COMPONENTS| || File(place, COMPONENTS[from]) in files then from
    else FirstTaken(files, place, from + 1)
  }

  function FirstFiles(place: Place, count: nat): set<File>
    requires count <= |COMPONENTS|
  {
    if count == 0 then {} else FirstFiles(place, count - 1) + {File(place, COMPONENTS[count - 1])}
  }

  lemma AllFiles(place: Place)
    ensures FirstFiles(place, |COMPONENTS|) == FilesOf(place)
  {
    assert COMPONENTS[0] == KeyOps && COMPONENTS[1] == Blobs && COMPONENTS[2] == Filter
           && COMPONENTS[3] == Index && COMPONENTS[4] == Checksums;
    assert FirstFiles(place, 1) == {} + {File(place, KeyOps)};
    assert FirstFiles(place, 2) == FirstFiles(place, 1) + {File(place, Blobs)};
    assert FirstFiles(place, 3) == FirstFiles(place, 2) + {File(place, Filter)};
    assert FirstFiles(place, 4) == FirstFiles(place, 3) + {File(place, Index)};
    assert FirstFiles(place, 5) == FirstFiles(place, 4) + {File(place, Checksums)};
  }

  lemma {:induction false} InFirstFiles(place: Place, count: nat, f: File)
    requires count <= |COMPONENTS| && f in FirstFiles(place, count)
    ensures f.place == place
  {
    if count > 0 && f !in FirstFiles(place, count - 1) {
      assert f == File(place, COMPONENTS[count - 1]);
    } else {
      InFirstFiles(place, count - 1, f);
    }
  }

  /** All five names are free exactly when none of them is the first taken one. */
  lemma {:induction false} NoneTaken(files: set<File>, place: Place, from: nat)
    requires from <= |COMPONENTS|
    ensures FirstTaken(files, place, from) == |COMPONENTS| <==>
            forall j | from <= j < |COMPONENTS| :: File(place, COMPONENTS[j]) !in files
    decreases |COMPONENTS| - from
  {
    if from < |COMPONENTS| {
      NoneTaken(files, place, from + 1);
    }
  }

  /** A taken name ends the linking where it stands in the order keyops, blobs, filter, index, checksums. */
  lemma NamesBefore(place: Place, c: Component)
    ensures FirstFiles(place, FirstTaken({File(place, c)}, place, 0)) ==
            match c
            case KeyOps => {}
            case Blobs => {File(place, KeyOps)}
            case Filter => {File(place, KeyOps), File(place, Blobs)}
            case Index => {File(place, KeyOps), File(place, Blobs), File(place, Filter)}
            case Checksums => {File(place, KeyOps), File(place, Blobs), File(place, Filter), File(place, Index)}
  {
    var taken := {File(place, c)};
    assert COMPONENTS[0] == KeyOps && COMPONENTS[1] == Blobs && COMPONENTS[2] == Filter
           && COMPONENTS[3] == Index && COMPONENTS[4] == Checksums;
    assert FirstTaken(taken, place, 4) == if c == Checksums then 4 else 5;
    assert FirstTaken(taken, place, 3) == if c == Index then 3 else FirstTaken(taken, place, 4);
    assert FirstTaken(taken, place, 2) == if c == Filter then 2 else FirstTaken(taken, place, 3);
    assert FirstTaken(taken, place, 1) == if c == Blobs then 1 else FirstTaken(taken, place, 2);
    assert FirstFiles(place, 1) == {} + {File(place, KeyOps)};
    assert FirstFiles(place, 2) == FirstFiles(place, 1) + {File(place, Blobs)};
    assert FirstFiles(place, 3) == FirstFiles(place, 2) + {File(place, Filter)};
    assert FirstFiles(place, 4) == FirstFiles(place, 3) + {File(place, Index)};
  }

  lemma LinkableMeansFree(w: World, place: Place)
    ensures Linkable(w, place) <==> FirstTaken(w.files, place, 0) == |COMPONENTS|
  {
    NoneTaken(w.files, place, 0);
    assert COMPONENTS[0] == KeyOps && COMPONENTS[1] == Blobs && COMPONENTS[2] == Filter
           && COMPONENTS[3] == Index && COMPONENTS[4] == Checksums;
  }

  /** A run is written, or opened where its files already are: a new counter, at one. */
  function Published(w: World, number: nat): World {
    var place := Place(Active, number);
    World(w.live[w.next := Handle(place, w.next, Owned)], w.counts[w.next := 1], w.files + FilesOf(place), w.next + 1)
  }

  function Cloned(w: World, id: nat): World
    requires id in w.live && w.live[id].counter in w.counts
  {
    var handle := w.live[id];
    w.(live := w.live[w.next := handle],
       counts := w.counts[handle.counter := w.counts[handle.counter] + 1],
       next := w.next + 1)
  }

  /** `hard_link_to`: new names for the same files, and a handle on those names with the same counter. */
  function Linked(w: World, id: nat, name: Bytes): World
    requires id in w.live && w.live[id].counter in w.counts
  {
    var handle := w.live[id];
    var place := Place(SnapshotDirectory(name), handle.place.number);
    World(w.live[w.next := Handle(place, handle.counter, LinkedFrom(id))],
          w.counts[handle.counter := w.counts[handle.counter] + 1],
          w.files + FilesOf(place), w.next + 1)
  }

  /** A link that finds a name taken: no handle, but the names linked before that one stay. */
  function LinkFailed(w: World, id: nat, name: Bytes): World
    requires id in w.live
  {
    var place := Place(SnapshotDirectory(name), w.live[id].place.number);
    w.(files := w.files + FirstFiles(place, FirstTaken(w.files, place, 0)))
  }

  /** `drop`: the files at the handle's own paths go if the counter was at one. */
  function Dropped(w: World, id: nat): World
    requires id in w.live && w.live[id].counter in w.counts && w.counts[w.live[id].counter] > 0
  {
    var handle := w.live[id];
    var previous := w.counts[handle.counter];
    w.(live := w.live - {id},
       counts := w.counts[handle.counter := previous - 1],
       files := if previous == 1 then w.files - FilesOf(handle.place) else w.files)
  }

  /** The calls on handles that the tree and its snapshots make, one at a time, from any thread. */
  datatype Step = Publish(number: nat) | Clone(id: nat) | Link(id: nat, name: Bytes) | Drop(id: nat)

  /** What ownership and the run counter guarantee to each call. */
  predicate Enabled(w: World, step: Step) {
    match step
    case Publish(number) => !HasPlace(w, Place(Active, number))
    case Clone(id) => id in w.live && w.live[id].loan == Owned
    case Link(id, _) => id in w.live && w.live[id].loan == Owned
    case Drop(id) => id in w.live && !Lends(w, id)
  }

  function Sharing(w: World, counter: nat): set<nat> {
    set id | id in w.live && w.live[id].counter == counter
  }

  /** Every counter is exactly the number of live handles that share it. */
  ghost predicate Counted(w: World) {
    && (forall id :: id in w.live ==> id < w.next && w.live[id].counter in w.counts)
    && (forall c :: c in w.counts ==> c < w.next && w.counts[c] == |Sharing(w, c)|)
  }

  /** A handle of its own stands in `active/` and has all its files. */
  ghost predicate OwnedPlaced(w: World) {
    forall id :: id in w.live && w.live[id].loan == Owned ==>
      w.live[id].place.directory == Active && FilesOf(w.live[id].place) <= w.files
  }

  predicate LenderLives(w: World, link: Handle) {
    link.loan.LinkedFrom? ==>
      && link.place.directory != Active
      && link.loan.lender in w.live
      && w.live[link.loan.lender].loan == Owned
      && w.live[link.loan.lender].counter == link.counter
  }

  ghost predicate LinksPlaced(w: World) {
    forall id :: id in w.live ==> LenderLives(w, w.live[id])
  }

  predicate SameRun(a: Handle, b: Handle) {
    a.loan == Owned && b.loan == Owned ==> (a.counter == b.counter <==> a.place == b.place)
  }

  /** Handles share a counter exactly when they are on the same run. */
  ghost predicate RunsDistinct(w: World) {
    forall a, b :: a in w.live && b in w.live ==> SameRun(w.live[a], w.live[b])
  }

  ghost predicate Placed(w: World) {
    OwnedPlaced(w) && LinksPlaced(w) && RunsDistinct(w)
  }

  /** No file in `active/` outlives the last handle on its run. */
  ghost predicate NoLeak(w: World) {
    forall f :: f in w.files && f.place.directory == Active ==> HasPlace(w, f.place)
  }

  ghost predicate Sound(w: World) {
    Counted(w) && Placed(w) && NoLeak(w)
  }

  function Next(w: World, step: Step): World
    requires Counted(w) && Enabled(w, step)
  {
    match step
    case Publish(number) => Published(w, number)
    case Clone(id) => Cloned(w, id)
    case Link(id, name) =>
      if Linkable(w, Place(SnapshotDirectory(name), w.live[id].place.number)) then Linked(w, id, name)
      else LinkFailed(w, id, name)
    case Drop(id) => CountsItself(w, id); Dropped(w, id)
  }

  /** The subtraction in `drop` never goes below zero. */
  lemma CountsItself(w: World, id: nat)
    requires Counted(w) && id in w.live
    ensures w.counts[w.live[id].counter] > 0
    ensures w.counts[w.live[id].counter] == 1 ==> forall other :: other in w.live && other != id ==>
              w.live[other].counter != w.live[id].counter
  {
    var sharing := Sharing(w, w.live[id].counter);
    assert id in sharing;
    if |sharing| == 1 {
      assert |sharing - {id}| == 0;
      forall other | other in w.live && other != id ensures w.live[other].counter != w.live[id].counter {
        assert other !in sharing - {id};
      }
    }
  }

  // Counters.

  lemma SharingGrows(w: World, v: World, id: nat, c: nat)
    requires id !in w.live && id in v.live && v.live == w.live[id := v.live[id]]
    ensures Sharing(v, c) == if v.live[id].counter == c then Sharing(w, c) + {id} else Sharing(w, c)
    ensures id !in Sharing(w, c)
  {
  }

  lemma SharingShrinks(w: World, v: World, id: nat, c: nat)
    requires id in w.live && v.live == w.live - {id}
    ensures Sharing(v, c) == if w.live[id].counter == c then Sharing(w, c) - {id} else Sharing(w, c)
    ensures w.live[id].counter == c ==> id in Sharing(w, c)
  {
  }

  lemma AdditionCounted(w: World, v: World, counter: nat)
    requires Counted(w) && v.next == w.next + 1 && counter <= w.next
    requires w.next in v.live && v.live == w.live[w.next := v.live[w.next]] && v.live[w.next].counter == counter
    requires v.counts == w.counts[counter := (if counter in w.counts then w.counts[counter] else 0) + 1]
    requires counter == w.next || counter in w.counts
    ensures Counted(v)
  {
    forall c | c in v.counts ensures c < v.next && v.counts[c] == |Sharing(v, c)| {
      SharingGrows(w, v, w.next, c);
      if c !in w.counts {
        assert Sharing(w, c) == {};
      }
    }
  }

  lemma DropCounted(w: World, id: nat)
    requires Counted(w) && id in w.live
    ensures w.counts[w.live[id].counter] > 0
    ensures Counted(Dropped(w, id))
  {
    CountsItself(w, id);
    var v := Dropped(w, id);
    forall c | c in v.counts ensures c < v.next && v.counts[c] == |Sharing(v, c)| {
      SharingShrinks(w, v, id, c);
    }
  }

  // Steps.

  lemma OwnedGrows(w: World, v: World)
    requires OwnedPlaced(w) && w.files <= v.files
    requires w.next in v.live && v.live == w.live[w.next := v.live[w.next]]
    requires v.live[w.next].loan == Owned ==>
               v.live[w.next].place.directory == Active && FilesOf(v.live[w.next].place) <= v.files
    ensures OwnedPlaced(v)
  {
    forall id | id in v.live && v.live[id].loan == Owned
      ensures v.live[id].place.directory == Active && FilesOf(v.live[id].place) <= v.files
    {
      if id != w.next {
        assert id in w.live && v.live[id] == w.live[id];
        assert FilesOf(w.live[id].place) <= w.files;
      }
    }
  }

  lemma LinksGrow(w: World, v: World)
    requires LinksPlaced(w) && w.next !in w.live
    requires w.next in v.live && v.live == w.live[w.next := v.live[w.next]] && LenderLives(w, v.live[w.next])
    ensures LinksPlaced(v)
  {
    forall id | id in v.live ensures LenderLives(v, v.live[id]) {
      assert id != w.next ==> id in w.live && v.live[id] == w.live[id];
      assert LenderLives(w, v.live[id]);
    }
  }

  lemma RunsGrow(w: World, v: World)
    requires RunsDistinct(w)
    requires w.next in v.live && v.live == w.live[w.next := v.live[w.next]]
    requires forall id :: id in w.live ==> SameRun(w.live[id], v.live[w.next])
    ensures RunsDistinct(v)
  {
  }

  lemma StillPlaced(w: World, v: World, place: Place)
    requires forall id :: id in w.live ==> id in v.live && v.live[id] == w.live[id]
    ensures HasPlace(w, place) ==> HasPlace(v, place)
  {
    if HasPlace(w, place) {
      var id :| id in w.live && w.live[id].place == place;
      assert id in v.live;
    }
  }

  lemma NoLeakGrows(w: World, v: World)
    requires NoLeak(w) && w.next !in w.live
    requires w.next in v.live && v.live == w.live[w.next := v.live[w.next]]
    requires v.files <= w.files + FilesOf(v.live[w.next].place)
    ensures NoLeak(v)
  {
    forall f | f in v.files && f.place.directory == Active ensures HasPlace(v, f.place) {
      if f in w.files {
        StillPlaced(w, v, f.place);
      }
    }
  }

  lemma PublishSound(w: World, number: nat)
    requires Sound(w) && Enabled(w, Publish(number))
    ensures Sound(Published(w, number))
  {
    var v := Published(w, number);
    AdditionCounted(w, v, w.next);
    OwnedGrows(w, v);
    LinksGrow(w, v);
    forall id | id in w.live ensures SameRun(w.live[id], v.live[w.next]) {
      assert w.live[id].place != Place(Active, number);
    }
    RunsGrow(w, v);
    NoLeakGrows(w, v);
  }

  lemma CloneSound(w: World, id: nat)
    requires Sound(w) && Enabled(w, Clone(id))
    ensures Sound(Cloned(w, id))
  {
    var v := Cloned(w, id);
    AdditionCounted(w, v, w.live[id].counter);
    OwnedGrows(w, v);
    LinksGrow(w, v);
    RunsGrow(w, v);
    NoLeakGrows(w, v);
  }

  lemma LinkSound(w: World, id: nat, name: Bytes)
    requires Sound(w) && Enabled(w, Link(id, name))
    ensures Sound(Linked(w, id, name))
  {
    var v := Linked(w, id, name);
    AdditionCounted(w, v, w.live[id].counter);
    OwnedGrows(w, v);
    LinksGrow(w, v);
    RunsGrow(w, v);
    NoLeakGrows(w, v);
  }

  lemma LinkFailedSound(w: World, id: nat, name: Bytes)
    requires Sound(w) && Enabled(w, Link(id, name))
    ensures Sound(LinkFailed(w, id, name))
  {
    var place := Place(SnapshotDirectory(name), w.live[id].place.number);
    var names := FirstFiles(place, FirstTaken(w.files, place, 0));
    forall f | f in names ensures f.place == place {
      InFirstFiles(place, FirstTaken(w.files, place, 0), f);
    }
    NamesAddedSound(w, LinkFailed(w, id, name), names);
  }

  /** Names outside `active/` that no handle stands on change nothing for the handles. */
  lemma NamesAddedSound(w: World, v: World, names: set<File>)
    requires Sound(w) && v == w.(files := w.files + names)
    requires forall f | f in names :: f.place.directory != Active
    ensures Sound(v)
  {
    assert Counted(v) by {
      assert forall c :: Sharing(v, c) == Sharing(w, c);
    }
    assert LinksPlaced(v) by {
      assert forall other :: other in w.live ==> LenderLives(w, w.live[other]);
    }
    forall f | f in v.files && f.place.directory == Active ensures HasPlace(v, f.place) {
      assert HasPlace(w, f.place);
    }
  }

  /** The last handle on a run stands in `active/`; no other handle's files are at its place. */
  lemma LastIsOwned(w: World, id: nat)
    requires Counted(w) && Placed(w) && id in w.live && w.counts[w.live[id].counter] == 1
    ensures w.live[id].loan == Owned && w.live[id].place.directory == Active
    ensures forall other :: other in w.live && other != id ==> w.live[other].place != w.live[id].place
  {
    CountsItself(w, id);
    assert LenderLives(w, w.live[id]);
    forall other | other in w.live && other != id ensures w.live[other].place != w.live[id].place {
      assert SameRun(w.live[other], w.live[id]);
      assert LenderLives(w, w.live[other]);
    }
  }

  lemma OwnedShrinks(w: World, v: World, id: nat)
    requires OwnedPlaced(w) && id in w.live && v.live == w.live - {id}
    requires v.files == w.files ||
             (&& v.files == w.files - FilesOf(w.live[id].place)
              && forall other :: other in w.live && other != id ==> w.live[other].place != w.live[id].place)
    ensures OwnedPlaced(v)
  {
    forall other | other in v.live && v.live[other].loan == Owned
      ensures v.live[other].place.directory == Active && FilesOf(v.live[other].place) <= v.files
    {
      assert FilesOf(w.live[other].place) <= w.files;
      if v.files != w.files {
        assert FilesOf(w.live[other].place) !! FilesOf(w.live[id].place);
      }
    }
  }

  lemma LinksShrink(w: World, v: World, id: nat)
    requires LinksPlaced(w) && id in w.live && v.live == w.live - {id} && !Lends(w, id)
    ensures LinksPlaced(v)
  {
    forall other | other in v.live ensures LenderLives(v, v.live[other]) {
      assert LenderLives(w, w.live[other]);
      assert w.live[other].loan != LinkedFrom(id);
    }
  }

  lemma DropPlaced(w: World, id: nat)
    requires Counted(w) && Placed(w) && Enabled(w, Drop(id)) && w.counts[w.live[id].counter] > 0
    ensures Placed(Dropped(w, id))
  {
    var v := Dropped(w, id);
    if w.counts[w.live[id].counter] == 1 {
      LastIsOwned(w, id);
    }
    OwnedShrinks(w, v, id);
    LinksShrink(w, v, id);
  }

  /** A handle that is not the last one leaves another in `active/` behind it. */
  lemma AnotherRemains(w: World, id: nat)
    requires Counted(w) && Placed(w)
    requires id in w.live && w.live[id].loan == Owned && w.counts[w.live[id].counter] > 1
    requires !Lends(w, id)
    ensures exists other :: other in w.live && other != id && w.live[other].place == w.live[id].place
  {
    var sharing := Sharing(w, w.live[id].counter);
    assert id in sharing && |sharing - {id}| > 0;
    var other :| other in sharing - {id};
    assert LenderLives(w, w.live[other]);
    var owner := if w.live[other].loan == Owned then other else w.live[other].loan.lender;
    assert owner != id by {
      assert !Lends(w, id);
    }
    assert SameRun(w.live[owner], w.live[id]);
  }

  lemma DropLeaksNothing(w: World, id: nat)
    requires Sound(w) && Enabled(w, Drop(id)) && w.counts[w.live[id].counter] > 0
    ensures NoLeak(Dropped(w, id))
  {
    var v, place := Dropped(w, id), w.live[id].place;
    forall f | f in v.files && f.place.directory == Active ensures HasPlace(v, f.place) {
      assert HasPlace(w, f.place);
      var holder :| holder in w.live && w.live[holder].place == f.place;
      if holder != id {
        assert holder in v.live;
      } else {
        AllComponents(f);
        AnotherRemains(w, id);
        var other :| other in w.live && other != id && w.live[other].place == place;
        assert other in v.live;
      }
    }
  }

  lemma AllComponents(f: File)
    ensures f in FilesOf(f.place)
  {
    match f.component
    case KeyOps =>
    case Blobs =>
    case Filter =>
    case Index =>
    case Checksums =>
  }

  /** Every enabled call keeps the counters exact, held runs on disk, and no files behind. */
  lemma NextSound(w: World, step: Step)
    requires Sound(w) && Enabled(w, step)
    ensures Sound(Next(w, step))
  {
    match step
    case Publish(number) => PublishSound(w, number);
    case Clone(id) => CloneSound(w, id);
    case Link(id, name) =>
      if Linkable(w, Place(SnapshotDirectory(name), w.live[id].place.number)) {
        LinkSound(w, id, name);
      } else {
        LinkFailedSound(w, id, name);
      }
    case Drop(id) =>
      DropCounted(w, id);
      DropPlaced(w, id);
      DropLeaksNothing(w, id);
  }

  lemma DropKeepsSnapshotFiles(w: World, id: nat, f: File)
    requires Counted(w) && Placed(w) && id in w.live && w.counts[w.live[id].counter] > 0
    requires f in w.files && f.place.directory != Active
    ensures f in Dropped(w, id).files
  {
    if w.counts[w.live[id].counter] == 1 {
      LastIsOwned(w, id);
    }
  }

  /** No call removes a file of a persistent snapshot. */
  lemma NextKeepsSnapshotFiles(w: World, step: Step, f: File)
    requires Sound(w) && Enabled(w, step) && f in w.files && f.place.directory != Active
    ensures f in Next(w, step).files
  {
    match step
    case Publish(_) =>
    case Clone(_) =>
    case Link(_, _) =>
    case Drop(id) =>
      CountsItself(w, id);
      DropKeepsSnapshotFiles(w, id, f);
  }

  // Runs.

  ghost predicate Runs(w: World, steps: seq<Step>, last: World)
    decreases |steps|
  {
    if steps == [] then last == w
    else Counted(w) && Enabled(w, steps[0]) && Runs(Next(w, steps[0]), steps[1..], last)
  }

  function Start(files: set<File>): World {
    World(map[], map[], files, 0)
  }

  lemma StartSound(files: set<File>)
    requires forall f | f in files :: f.place.directory != Active
    ensures Sound(Start(files))
  {
  }

  lemma {:induction false} AlwaysSound(w: World, steps: seq<Step>, last: World)
    requires Sound(w) && Runs(w, steps, last)
    ensures Sound(last)
    ensures forall f :: f in w.files && f.place.directory != Active ==> f in last.files
    decreases |steps|
  {
    if steps != [] {
      NextSound(w, steps[0]);
      AlwaysSound(Next(w, steps[0]), steps[1..], last);
      forall f | f in w.files && f.place.directory != Active ensures f in last.files {
        NextKeepsSnapshotFiles(w, steps[0], f);
      }
    }
  }

  /**
   File liveness, for every sequence of calls from a process's start with any
   persistent snapshots: the counter of a handle is the number of handles that
   share it; the files of a run are in `active/` exactly while a handle on it
   lives; and every file of a snapshot is still there.
   */
  lemma Liveness(saved: set<File>, steps: seq<Step>, last: World)
    requires forall f | f in saved :: f.place.directory != Active
    requires Runs(Start(saved), steps, last)
    ensures forall id :: id in last.live ==>
              && last.live[id].counter in last.counts
              && last.counts[last.live[id].counter] == |Sharing(last, last.live[id].counter)|
    ensures forall f: File :: f.place.directory == Active ==> (f in last.files <==> HasPlace(last, f.place))
    ensures saved <= last.files
  {
    StartSound(saved);
    AlwaysSound(Start(saved), steps, last);
    forall f: File | f.place.directory == Active && HasPlace(last, f.place) ensures f in last.files {
      AllComponents(f);
      var id :| id in last.live && last.live[id].place == f.place;
      assert last.live[id].loan == Owned;
    }
  }

  /** The same, from any point of a run: files linked into a snapshot stay, whatever is dropped later. */
  lemma SnapshotFilesStay(saved: set<File>, before: seq<Step>, middle: World, after: seq<Step>, last: World)
    requires forall f | f in saved :: f.place.directory != Active
    requires Runs(Start(saved), before, middle) && Runs(middle, after, last)
    ensures forall f :: f in middle.files && f.place.directory != Active ==> f in last.files
  {
    StartSound(saved);
    AlwaysSound(Start(saved), before, middle);
    AlwaysSound(middle, after, last);
  }

  // Creating a snapshot.

  /** One turn of `PersistentSnapshot::create`'s loop: link, then drop the linked handle at once. */
  function LinkedOnce(w: World, id: nat, name: Bytes): World
    requires Counted(w) && id in w.live
  {
    var v := Linked(w, id, name);
    AdditionCounted(w, v, w.live[id].counter);
    CountsItself(v, w.next);
    Dropped(v, w.next)
  }

  /** It changes no handle and no counter; the new names are there to stay. */
  lemma LinkedOnceAddsFiles(w: World, id: nat, name: Bytes)
    requires Counted(w) && id in w.live
    ensures LinkedOnce(w, id, name)
         == World(w.live, w.counts,
                  w.files + FilesOf(Place(SnapshotDirectory(name), w.live[id].place.number)), w.next + 1)
  {
    var v := Linked(w, id, name);
    AdditionCounted(w, v, w.live[id].counter);
    CountsItself(w, id);
    assert v.counts[w.live[id].counter] == w.counts[w.live[id].counter] + 1 > 1;
    assert v.live - {w.next} == w.live;
    assert v.counts[w.live[id].counter := w.counts[w.live[id].counter]] == w.counts;
  }

  datatype Saving = Saving(world: World, ok: bool)

  /** The loop up to its first link that fails because a name exists already. */
  function LinkedAll(w: World, ids: seq<nat>, name: Bytes): (s: Saving)
    requires Counted(w) && forall i | 0 <= i < |ids| :: ids[i] in w.live
    ensures s.world.live == w.live && s.world.counts == w.counts && s.world.next >= w.next && Counted(s.world)
  {
    if ids == [] then Saving(w, true)
    else
      var s := LinkedAll(w, ids[..|ids| - 1], name);
      var id := ids[|ids| - 1];
      if s.ok && Linkable(s.world, Place(SnapshotDirectory(name), w.live[id].place.number)) then
        LinkedOnceAddsFiles(s.world, id, name);
        SameCounted(s.world, LinkedOnce(s.world, id, name));
        Saving(LinkedOnce(s.world, id, name), true)
      else if s.ok then
        SameCounted(s.world, LinkFailed(s.world, id, name));
        Saving(LinkFailed(s.world, id, name), false)
      else s
  }

  lemma SameCounted(w: World, v: World)
    requires Counted(w) && v.live == w.live && v.counts == w.counts && v.next >= w.next
    ensures Counted(v)
  {
    assert forall c :: Sharing(v, c) == Sharing(w, c);
  }

  function SavedFiles(w: World, ids: seq<nat>, name: Bytes): set<File>
    requires forall i | 0 <= i < |ids| :: ids[i] in w.live
  {
    if ids == [] then {}
    else
      SavedFiles(w, ids[..|ids| - 1], name)
      + FilesOf(Place(SnapshotDirectory(name), w.live[ids[|ids| - 1]].place.number))
  }

  lemma {:induction false} InSavedFiles(w: World, ids: seq<nat>, name: Bytes, f: File)
    requires forall i | 0 <= i < |ids| :: ids[i] in w.live
    ensures f in SavedFiles(w, ids, name) <==>
              exists i :: 0 <= i < |ids| && f.place == Place(SnapshotDirectory(name), w.live[ids[i]].place.number)
  {
    if ids != [] {
      var front := ids[..|ids| - 1];
      InSavedFiles(w, front, name, f);
      AllComponents(f);
      assert forall i | 0 <= i < |front| :: ids[i] == front[i];
      if exists i :: 0 <= i < |ids| && f.place == Place(SnapshotDirectory(name), w.live[ids[i]].place.number) {
        var i :| 0 <= i < |ids| && f.place == Place(SnapshotDirectory(name), w.live[ids[i]].place.number);
        if i < |front| {
          assert f.place == Place(SnapshotDirectory(name), w.live[front[i]].place.number);
        }
      }
      if exists i :: 0 <= i < |front| && f.place == Place(SnapshotDirectory(name), w.live[front[i]].place.number) {
        var i :| 0 <= i < |front| && f.place == Place(SnapshotDirectory(name), w.live[front[i]].place.number);
        assert f.place == Place(SnapshotDirectory(name), w.live[ids[i]].place.number);
      }
    }
  }

  predicate DistinctNumbers(w: World, ids: seq<nat>)
    requires forall i | 0 <= i < |ids| :: ids[i] in w.live
  {
    forall i, j | 0 <= i < j < |ids| :: w.live[ids[i]].place.number != w.live[ids[j]].place.number
  }

  lemma DistinctUpToLast(w: World, front: seq<nat>, last: nat)
    requires last in w.live && forall i | 0 <= i < |front| :: front[i] in w.live
    ensures forall i {:trigger (front + [last])[i]} | 0 <= i < |front + [last]| :: (front + [last])[i] in w.live
    ensures DistinctNumbers(w, front + [last]) <==>
              DistinctNumbers(w, front)
              && forall i | 0 <= i < |front| :: w.live[front[i]].place.number != w.live[last].place.number
  {
    var ids := front + [last];
    assert forall i | 0 <= i < |front| :: ids[i] == front[i];
    assert ids[|front|] == last;
  }

  /**
   Saving into a new directory succeeds exactly when no two runs have the same
   number, and then adds precisely the five files of every run.
   */
  lemma {:induction false} SaveLinksEveryRun(w: World, ids: seq<nat>, name: Bytes)
    requires Counted(w) && forall i | 0 <= i < |ids| :: ids[i] in w.live
    requires forall f | f in w.files :: f.place.directory != SnapshotDirectory(name)
    ensures LinkedAll(w, ids, name).ok <==> DistinctNumbers(w, ids)
    ensures LinkedAll(w, ids, name).ok ==>
              LinkedAll(w, ids, name).world.files == w.files + SavedFiles(w, ids, name)
  {
    if ids != [] {
      var front, last := ids[..|ids| - 1], ids[|ids| - 1];
      assert ids == front + [last];
      DistinctUpToLast(w, front, last);
      SaveLinksEveryRun(w, front, name);
      var s := LinkedAll(w, front, name);
      if s.ok {
        LinkedOnceAddsFiles(s.world, last, name);
        FreeName(w, front, name, w.live[last].place.number);
      }
    }
  }

  lemma FreeName(w: World, ids: seq<nat>, name: Bytes, number: nat)
    requires forall i | 0 <= i < |ids| :: ids[i] in w.live
    requires forall f | f in w.files :: f.place.directory != SnapshotDirectory(name)
    ensures FilesOf(Place(SnapshotDirectory(name), number)) !! w.files + SavedFiles(w, ids, name) <==>
              forall i | 0 <= i < |ids| :: w.live[ids[i]].place.number != number
  {
    var place := Place(SnapshotDirectory(name), number);
    var all := w.files + SavedFiles(w, ids, name);
    forall f | f in FilesOf(place)
      ensures f in all <==> exists i :: 0 <= i < |ids| && w.live[ids[i]].place.number == number
    {
      assert f.place == place;
      InSavedFiles(w, ids, name, f);
      if exists i :: 0 <= i < |ids| && w.live[ids[i]].place.number == number {
        var i :| 0 <= i < |ids| && w.live[ids[i]].place.number == number;
        assert f.place == Place(SnapshotDirectory(name), w.live[ids[i]].place.number);
      }
    }
    assert File(place, KeyOps) in FilesOf(place);
  }

  // Why the linked handle must go first.

  /**
   Linked handles outside a borrow are not protected: drop the original, then
   the linked handle, and the files of the snapshot go while those of the
   original stay behind.
   */
  lemma LinkOutlivesLender(name: Bytes)
    ensures
      var w := Published(Start({}), 7);
      var v := Linked(w, 0, name);
      var gone := Dropped(Dropped(v, 0), 1);
      && gone.live == map[]
      && gone.files == FilesOf(Place(Active, 7))
      && FilesOf(Place(SnapshotDirectory(name), 7)) <= v.files
      && FilesOf(Place(SnapshotDirectory(name), 7)) !! gone.files
  {
    var w := Published(Start({}), 7);
    var v := Linked(w, 0, name);
    var u := Dropped(v, 0);
    assert v.counts[0] == 2 && u.counts[0] == 1;
    assert FilesOf(Place(Active, 7)) !! FilesOf(Place(SnapshotDirectory(name), 7));
  }

  /** The handles of a process, as the calls on them update it. */
  class HandleTable {
    var live: map<nat, Handle>
    var counts: map<nat, nat>
    var files: set<File>
    var next: nat

    function Value(): World
      reads this
    {
      World(live, counts, files, next)
    }

    constructor (saved: set<File>)
      ensures Value() == Start(saved)
    {
      live, counts, files, next := map[], map[], saved, 0;
    }

    method Publish(number: nat) returns (id: nat)
      modifies this
      ensures id == old(next) && Value() == Published(old(Value()), number)
    {
      var place := Place(Active, number);
      id := next;
      files := files + FilesOf(place);
      live, counts := live[id := Handle(place, id, Owned)], counts[id := 1];
      next := next + 1;
    }

    method Clone(id: nat) returns (copy: nat)
      requires Counted(Value()) && id in live
      modifies this
      ensures copy == old(next) && Value() == Cloned(old(Value()), id)
      ensures Counted(Value())
    {
      var handle := live[id];
      counts := counts[handle.counter := counts[handle.counter] + 1];
      copy := next;
      live, next := live[copy := handle], next + 1;
      AdditionCounted(old(Value()), Value(), handle.counter);
    }

    /** Links the five files one by one; the first name that is taken ends it, leaving the names before. */
    method LinkNames(target: Place) returns (ok: bool)
      modifies this`files
      ensures ok <==> FirstTaken(old(files), target, 0) == |COMPONENTS|
      ensures files == old(files) + FirstFiles(target, FirstTaken(old(files), target, 0))
    {
      for j := 0 to |COMPONENTS|
        invariant files == old(files) + FirstFiles(target, j)
        invariant FirstTaken(old(files), target, 0) == FirstTaken(old(files), target, j)
      {
        StillFree(old(files), target, j);
        if File(target, COMPONENTS[j]) in files {
          return false;
        }
        files := files + {File(target, COMPONENTS[j])};
      }
      return true;
    }

    /** A handle on the linked names, sharing the counter of the one they were linked from. */
    method AddLinked(id: nat, target: Place) returns (linked: nat)
      requires Counted(Value()) && id in live
      modifies this`live, this`counts, this`next
      ensures linked == old(next) && Counted(Value())
      ensures var counter := old(live)[id].counter;
              Value() == World(old(live)[old(next) := Handle(target, counter, LinkedFrom(id))],
                               old(counts)[counter := old(counts)[counter] + 1], old(files), old(next) + 1)
    {
      var handle := live[id];
      linked := next;
      counts := counts[handle.counter := counts[handle.counter] + 1];
      live, next := live[linked := Handle(target, handle.counter, LinkedFrom(id))], next + 1;
      AdditionCounted(old(Value()), Value(), handle.counter);
    }

    method HardLinkTo(id: nat, name: Bytes) returns (linked: nat, ok: bool)
      requires Counted(Value()) && id in live
      modifies this
      ensures ok <==> Linkable(old(Value()), Place(SnapshotDirectory(name), old(live)[id].place.number))
      ensures Value() == if ok then Linked(old(Value()), id, name) else LinkFailed(old(Value()), id, name)
      ensures Counted(Value()) && (ok ==> linked == old(next))
    {
      var target := Place(SnapshotDirectory(name), live[id].place.number);
      LinkableMeansFree(Value(), target);
      linked, ok := next, false;
      ok := LinkNames(target);
      SameCounted(old(Value()), Value());
      if ok {
        AllFiles(target);
        linked := AddLinked(id, target);
      }
    }

    method Drop(id: nat)
      requires Counted(Value()) && id in live
      modifies this
      ensures old(counts)[old(live)[id].counter] > 0
      ensures Value() == Dropped(old(Value()), id) && Counted(Value())
    {
      DropCounted(Value(), id);
      var handle := live[id];
      var previous := counts[handle.counter];
      counts := counts[handle.counter := previous - 1];
      live := live - {id};
      if previous == 1 {
        files := files - FilesOf(handle.place);
      }
    }

    /** The loop of `PersistentSnapshot::create` over the runs of the tree. */
    method LinkAll(ids: seq<nat>, name: Bytes) returns (ok: bool)
      requires Counted(Value()) && forall i | 0 <= i < |ids| :: ids[i] in live
      modifies this
      ensures Value() == LinkedAll(old(Value()), ids, name).world
      ensures ok == LinkedAll(old(Value()), ids, name).ok
    {
      ghost var before := Value();
      for i := 0 to |ids|
        invariant LinkedAll(before, ids[..i], name) == Saving(Value(), true)
      {
        assert ids[..i + 1][..i] == ids[..i];
        var linked;
        linked, ok := HardLinkTo(ids[i], name);
        if !ok {
          FirstFailureStays(before, ids, i + 1, name);
          return;
        }
        Drop(linked);
      }
      assert ids[..|ids|] == ids;
      ok := true;
    }
  }

  /** The names linked so far are not the next one. */
  lemma StillFree(files: set<File>, place: Place, j: nat)
    requires j < |COMPONENTS|
    ensures File(place, COMPONENTS[j]) in files + FirstFiles(place, j) <==> File(place, COMPONENTS[j]) in files
  {
    NotAmongFirst(place, j, j);
  }

  lemma {:induction false} NotAmongFirst(place: Place, j: nat, count: nat)
    requires count <= j < |COMPONENTS|
    ensures File(place, COMPONENTS[j]) !in FirstFiles(place, count)
  {
    if count > 0 {
      NotAmongFirst(place, j, count - 1);
      assert COMPONENTS[0] == KeyOps && COMPONENTS[1] == Blobs && COMPONENTS[2] == Filter
             && COMPONENTS[3] == Index && COMPONENTS[4] == Checksums;
    }
  }

  lemma {:induction false} FirstFailureStays(w: World, ids: seq<nat>, n: nat, name: Bytes)
    requires Counted(w) && n <= |ids| && forall i | 0 <= i < |ids| :: ids[i] in w.live
    requires !LinkedAll(w, ids[..n], name).ok
    ensures LinkedAll(w, ids, name) == LinkedAll(w, ids[..n], name)
    decreases |ids|
  {
    if n == |ids| {
      assert ids[..n] == ids;
    } else {
      assert ids[..|ids| - 1][..n] == ids[..n];
      FirstFailureStays(w, ids[..|ids| - 1], n, name);
    }
  }
}
