/**
 Proofs of membership over whole runs of a tree: which are accepted, what an
 accepted one means, and what a difference of two trees means.
 */
module MerkleProofs {
  import opened Wrappers
  import opened ByteStrings
  import opened Merkle
  import opened MerkleRebuild

  // What the two key tables hold.

  /** A key is found at its last insertion, with the value given there. */
  lemma {:induction false} LastInsertion(leaves: seq<Leaf>, key: Bytes)
    ensures key in LastIndexes(leaves) <==> exists i: nat :: i < |leaves| && leaves[i].key == key
    ensures key in LastValues(leaves) <==> key in LastIndexes(leaves)
    ensures key in LastIndexes(leaves) ==>
              var i := LastIndexes(leaves)[key];
              i < |leaves| && leaves[i] == Leaf(key, LastValues(leaves)[key])
              && forall j: nat :: i < j < |leaves| ==> leaves[j].key != key
  {
    if leaves != [] {
      var front, last := leaves[..|leaves| - 1], leaves[|leaves| - 1];
      LastInsertion(front, key);
      assert leaves[|leaves| - 1] == last && last == Leaf(last.key, last.value);
      forall i: nat | i < |front| ensures leaves[i] == front[i] {
      }
    }
  }

  // Completeness.

  /** An occupied node and its sibling hash to the node above. */
  lemma ParentOf(h: Hasher, height: nat, leaves: seq<Leaf>, level: nat, index: nat)
    requires level < height && index < Width(|leaves|, level)
    ensures index / 2 < Width(|leaves|, level + 1)
    ensures Combine(h, Node(h, leaves, level, index), SiblingOf(Nodes(h, height, leaves), level, index))
         == Node(h, leaves, level + 1, index / 2)
  {
    InNodes(h, height, leaves, NodePath(level, Flip(index)));
  }

  /** One level more, for a leaf's ancestor that is known up to there. */
  lemma FoldStep(h: Hasher, height: nat, leaves: seq<Leaf>, index: nat, level: nat, start: Digest,
                 siblings: seq<Sibling>)
    requires level < height && index < Width(|leaves|, level)
    requires Fold(h, start, siblings) == Node(h, leaves, level, index)
    ensures Fold(h, start, siblings + [SiblingOf(Nodes(h, height, leaves), level, index)])
         == Node(h, leaves, level + 1, index / 2)
    ensures index / 2 < Width(|leaves|, level + 1)
  {
    ParentOf(h, height, leaves, level, index);
    FoldOne(h, start, siblings, SiblingOf(Nodes(h, height, leaves), level, index));
  }

  lemma SiblingsOneMore(nodes: map<NodePath, Digest>, index: nat, levels: nat)
    ensures SiblingsOf(nodes, index, levels + 1) ==
            SiblingsOf(nodes, index, levels) + [SiblingOf(nodes, levels, Up(index, levels))]
  {
  }

  /** Folding the siblings of the lowest levels gives the ancestor there. */
  ghost predicate ClimbsTo(h: Hasher, height: nat, leaves: seq<Leaf>, index: nat, levels: nat)
    requires index < |leaves|
  {
    var siblings := SiblingsOf(Nodes(h, height, leaves), index, levels);
    && Up(index, levels) < Width(|leaves|, levels)
    && |siblings| == levels
    && Fold(h, HashLeaf(h, leaves[index]), siblings) == Node(h, leaves, levels, Up(index, levels))
  }

  lemma ClimbsFurther(h: Hasher, height: nat, leaves: seq<Leaf>, index: nat, levels: nat)
    requires index < |leaves| && levels < height && ClimbsTo(h, height, leaves, index, levels)
    ensures ClimbsTo(h, height, leaves, index, levels + 1)
  {
    var nodes, start, at := Nodes(h, height, leaves), HashLeaf(h, leaves[index]), Up(index, levels);
    SiblingsOneMore(nodes, index, levels);
    FoldStep(h, height, leaves, at, levels, start, SiblingsOf(nodes, index, levels));
  }

  /** Hashing up a leaf's siblings gives the ancestors of the leaf. */
  lemma {:induction false} FoldClimbs(h: Hasher, height: nat, leaves: seq<Leaf>, index: nat, levels: nat)
    requires index < |leaves| && levels <= height
    ensures ClimbsTo(h, height, leaves, index, levels)
  {
    if levels > 0 {
      FoldClimbs(h, height, leaves, index, levels - 1);
      ClimbsFurther(h, height, leaves, index, levels - 1);
    }
  }

  /**
   What stands in a proof, in terms of the leaves: on every level the node beside
   the leaf's ancestor, to the left of it exactly if the ancestor is a right child.
   */
  lemma SiblingsAre(h: Hasher, height: nat, leaves: seq<Leaf>, index: nat, levels: nat, level: nat)
    requires level < levels <= height + 1
    ensures |SiblingsOf(Nodes(h, height, leaves), index, levels)| == levels
    ensures var at := Up(index, level);
            SiblingsOf(Nodes(h, height, leaves), index, levels)[level] ==
            if at % 2 == 1 then Sibling(Left, Node(h, leaves, level, at - 1))
            else Sibling(Right, Node(h, leaves, level, at + 1))
  {
    SiblingCount(Nodes(h, height, leaves), index, levels);
    SiblingAtLevel(Nodes(h, height, leaves), index, levels, level);
    SiblingIs(h, height, leaves, level, Up(index, level));
  }

  lemma {:induction false} SiblingAtLevel(nodes: map<NodePath, Digest>, index: nat, levels: nat, level: nat)
    requires level < levels
    ensures |SiblingsOf(nodes, index, levels)| == levels
    ensures SiblingsOf(nodes, index, levels)[level] == SiblingOf(nodes, level, Up(index, level))
  {
    SiblingCount(nodes, index, levels);
    SiblingCount(nodes, index, levels - 1);
    if level < levels - 1 {
      SiblingAtLevel(nodes, index, levels - 1, level);
    }
  }

  lemma SiblingIs(h: Hasher, height: nat, leaves: seq<Leaf>, level: nat, at: nat)
    requires level <= height
    ensures SiblingOf(Nodes(h, height, leaves), level, at) ==
            if at % 2 == 1 then Sibling(Left, Node(h, leaves, level, at - 1))
            else Sibling(Right, Node(h, leaves, level, at + 1))
  {
    InNodes(h, height, leaves, NodePath(level, Flip(at)));
  }

  lemma {:induction false} SiblingCount(nodes: map<NodePath, Digest>, index: nat, levels: nat)
    ensures |SiblingsOf(nodes, index, levels)| == levels
  {
    if levels > 0 {
      SiblingCount(nodes, index, levels - 1);
    }
  }

  /** Two leaves: the root, and both proofs. */
  lemma TwoLeaves(h: Hasher, x: Leaf, y: Leaf)
    requires x.key != y.key
    ensures var t := Run(h, 1, [Add(x), Add(y)]).tree;
            var left, right := h(LeafBytes(x.key, x.value)), h(LeafBytes(y.key, y.value));
            && t.root == h(NodeBytes(left, right))
            && Proved(t, x.key) == Some(MerkleProof(x, [Sibling(Right, right)]))
            && Proved(t, y.key) == Some(MerkleProof(y, [Sibling(Left, left)]))
  {
    BuiltOfTwo(h, x, y);
    LastOfTwo(x, y);
    TwoNodes(h, [x, y]);
    OneSibling(h, [x, y], 0);
    OneSibling(h, [x, y], 1);
  }

  lemma BuiltOfTwo(h: Hasher, x: Leaf, y: Leaf)
    ensures Run(h, 1, [Add(x), Add(y)]).tree == Build(h, 1, [x, y])
  {
    var steps := [Add(x), Add(y)];
    assert steps[..1] == [Add(x)] && [Add(x)][..0] == [];
    assert HistoryOf([Add(x)]).leaves == [] + [x];
    assert HistoryOf(steps).leaves == [x] + [y] == [x, y];
    RunIsRebuild(h, 1, steps);
  }

  lemma LastOfTwo(x: Leaf, y: Leaf)
    requires x.key != y.key
    ensures LastIndexes([x, y]) == map[x.key := 0, y.key := 1]
    ensures LastValues([x, y]) == map[x.key := x.value, y.key := y.value]
  {
    assert [x, y][..1] == [x] && [x][..0] == [];
    assert LastIndexes([x]) == map[x.key := 0] && LastValues([x]) == map[x.key := x.value];
  }

  lemma OneSibling(h: Hasher, leaves: seq<Leaf>, index: nat)
    ensures SiblingsOf(Nodes(h, 1, leaves), index, 1) ==
            [Sibling(if index % 2 == 1 then Left else Right,
                     Node(h, leaves, 0, if index % 2 == 1 then index - 1 else index + 1))]
  {
    SiblingsAre(h, 1, leaves, index, 1, 0);
  }

  lemma TwoNodes(h: Hasher, leaves: seq<Leaf>)
    requires |leaves| == 2
    ensures Node(h, leaves, 0, 0) == HashLeaf(h, leaves[0]) && Node(h, leaves, 0, 1) == HashLeaf(h, leaves[1])
    ensures Up(1, 1) == 0 && Node(h, leaves, 1, 0) == HashNode(h, HashLeaf(h, leaves[0]), HashLeaf(h, leaves[1]))
  {
  }

  lemma FoldOne(h: Hasher, start: Digest, siblings: seq<Sibling>, last: Sibling)
    ensures Fold(h, start, siblings + [last]) == Combine(h, Fold(h, start, siblings), last)
  {
    assert (siblings + [last])[..|siblings|] == siblings;
  }

  /**
   A key has a proof exactly when it was inserted, the proof carries the last
   value, and it is accepted exactly when the leaf's topmost ancestor hashes to
   the root.
   */
  lemma ProofOfMember(h: Hasher, height: nat, leaves: seq<Leaf>, key: Bytes)
    ensures
      var t := Build(h, height, leaves);
      Proved(t, key).Some? <==> exists i: nat :: i < |leaves| && leaves[i].key == key
    ensures
      var t := Build(h, height, leaves);
      Proved(t, key).Some? ==>
        var i, proof := LastIndexes(leaves)[key], Proved(t, key).value;
        && i < |leaves| && proof.leaf == leaves[i] == Leaf(key, LastValues(leaves)[key])
        && |proof.siblings| == height
        && (Verifies(h, t.root, key, proof.leaf.value, proof) <==> Node(h, leaves, height, Up(i, height)) == t.root)
  {
    LastInsertion(leaves, key);
    if key in LastIndexes(leaves) {
      FoldClimbs(h, height, leaves, LastIndexes(leaves)[key], height);
    }
  }

  /** Within the tree's capacity every inserted key has a proof, and the proof is accepted. */
  lemma EveryMemberVerifies(h: Hasher, height: nat, leaves: seq<Leaf>, index: nat)
    requires index < |leaves| <= PowerOfTwo(height)
    ensures
      var t, key := Build(h, height, leaves), leaves[index].key;
      Proved(t, key).Some? && Verifies(h, t.root, key, Proved(t, key).value.leaf.value, Proved(t, key).value)
  {
    var key := leaves[index].key;
    ProofOfMember(h, height, leaves, key);
    assert leaves[index].key == key;
    TopIsZero(LastIndexes(leaves)[key], height);
    TopIsZero(|leaves| - 1, height);
  }

  /** `insert` hands out the proof `prove` would give right after it; it is accepted even past capacity. */
  lemma InsertProves(h: Hasher, height: nat, leaves: seq<Leaf>, leaf: Leaf)
    ensures
      var t := Build(h, height, leaves);
      var proof := MerkleProof(leaf, ClimbFromLeaf(h, t, leaf).siblings);
      && Proved(Inserted(h, t, leaf), leaf.key) == Some(proof)
      && Verifies(h, Inserted(h, t, leaf).root, leaf.key, leaf.value, proof)
  {
    InsertIsRebuild(h, height, leaves, leaf);
    FoldClimbs(h, height, leaves + [leaf], |leaves|, height);
  }

  // Runs.

  datatype MerkleStep = Add(leaf: Leaf) | Save | Restore(snapshot: nat)

  datatype MerkleState = MerkleState(tree: MerkleTree, snapshots: seq<MerkleTree>)

  datatype History = History(leaves: seq<Leaf>, saved: seq<seq<Leaf>>)

  /** One call on a tree whose earlier snapshots are kept; restoring one that was never made does nothing. */
  function Perform(h: Hasher, s: MerkleState, step: MerkleStep): MerkleState {
    match step
    case Add(leaf) => s.(tree := Inserted(h, s.tree, leaf))
    case Save => s.(snapshots := s.snapshots + [s.tree])
    case Restore(i) => if i < |s.snapshots| then s.(tree := s.snapshots[i]) else s
  }

  function Run(h: Hasher, height: nat, steps: seq<MerkleStep>): MerkleState {
    if steps == [] then MerkleState(EmptyTree(height), [])
    else Perform(h, Run(h, height, steps[..|steps| - 1]), steps[|steps| - 1])
  }

  /** What the same run does to the list of leaves. */
  function Record(y: History, step: MerkleStep): History {
    match step
    case Add(leaf) => y.(leaves := y.leaves + [leaf])
    case Save => y.(saved := y.saved + [y.leaves])
    case Restore(i) => if i < |y.saved| then y.(leaves := y.saved[i]) else y
  }

  function HistoryOf(steps: seq<MerkleStep>): History {
    if steps == [] then History([], [])
    else Record(HistoryOf(steps[..|steps| - 1]), steps[|steps| - 1])
  }

  ghost predicate Tracks(h: Hasher, height: nat, s: MerkleState, y: History) {
    && s.tree == Build(h, height, y.leaves)
    && |s.snapshots| == |y.saved|
    && forall i: nat :: i < |y.saved| ==> s.snapshots[i] == Build(h, height, y.saved[i])
  }

  lemma StepTracks(h: Hasher, height: nat, s: MerkleState, y: History, step: MerkleStep)
    requires Tracks(h, height, s, y)
    ensures Tracks(h, height, Perform(h, s, step), Record(y, step))
  {
    match step
    case Add(leaf) => InsertIsRebuild(h, height, y.leaves, leaf);
    case Save =>
    case Restore(i) =>
  }

  /** After any run, the tree and every snapshot are rebuilds of the leaves then current. */
  lemma {:induction false} RunIsRebuild(h: Hasher, height: nat, steps: seq<MerkleStep>)
    ensures Tracks(h, height, Run(h, height, steps), HistoryOf(steps))
  {
    if steps == [] {
      EmptyIsRebuild(h, height);
    } else {
      RunIsRebuild(h, height, steps[..|steps| - 1]);
      StepTracks(h, height, Run(h, height, steps[..|steps| - 1]), HistoryOf(steps[..|steps| - 1]), steps[|steps| - 1]);
    }
  }

  /** Completeness over runs: every key of the current history has an accepted proof of its last value. */
  lemma CompleteOverRuns(h: Hasher, height: nat, steps: seq<MerkleStep>, index: nat)
    requires index < |HistoryOf(steps).leaves| <= PowerOfTwo(height)
    ensures
      var t, leaves := Run(h, height, steps).tree, HistoryOf(steps).leaves;
      var key := leaves[index].key;
      && Proved(t, key).Some? && key in LastValues(leaves)
      && Proved(t, key).value.leaf == Leaf(key, LastValues(leaves)[key])
      && Verifies(h, t.root, key, Proved(t, key).value.leaf.value, Proved(t, key).value)
  {
    RunIsRebuild(h, height, steps);
    var leaves := HistoryOf(steps).leaves;
    EveryMemberVerifies(h, height, leaves, index);
    ProofOfMember(h, height, leaves, leaves[index].key);
  }

  // Differences.

  lemma NoDifferenceMeansSameNodes(a: MerkleTree, b: MerkleTree)
    requires a.root != b.root && Different(a, b) == {}
    ensures a.nodes == b.nodes
  {
    forall p: NodePath
      ensures p in a.nodes <==> p in b.nodes
      ensures p in a.nodes && p in b.nodes ==> a.nodes[p] == b.nodes[p]
    {
      assert p !in Different(a, b);
    }
    assert a.nodes.Keys == b.nodes.Keys;
  }

  /** The stored nodes determine the root, whatever the heights. */
  lemma NodesDetermineRoot(h: Hasher, n: nat, a: seq<Leaf>, m: nat, b: seq<Leaf>)
    requires Nodes(h, n, a) == Nodes(h, m, b)
    ensures Root(h, n, a) == Root(h, m, b)
  {
    if a == [] {
      if b != [] {
        InNodes(h, n, a, NodePath(0, 0));
        InNodes(h, m, b, NodePath(0, 0));
      }
    } else {
      var top := NodePath(n, Up(|a| - 1, n));
      InNodes(h, n, a, top);
      InNodes(h, m, b, top);
      InNodes(h, n, a, NodePath(n + 1, 0));
      InNodes(h, m, b, NodePath(n + 1, 0));
      assert m <= n;
      SameTop(h, n, a, b);
    }
  }

  lemma SameTop(h: Hasher, n: nat, a: seq<Leaf>, b: seq<Leaf>)
    requires a != [] && b != [] && Nodes(h, n, a) == Nodes(h, n, b)
    ensures Root(h, n, a) == Root(h, n, b)
  {
    var x, y := NodePath(n, Up(|a| - 1, n)), NodePath(n, Up(|b| - 1, n));
    InNodes(h, n, a, x);
    InNodes(h, n, b, x);
    InNodes(h, n, a, y);
    InNodes(h, n, b, y);
  }

  /** For trees reached by any two runs, `diff` is empty exactly when the roots are equal. */
  lemma DiffDecidesEquality(h: Hasher, n: nat, stepsA: seq<MerkleStep>, m: nat, stepsB: seq<MerkleStep>)
    ensures
      var a, b := Run(h, n, stepsA).tree, Run(h, m, stepsB).tree;
      Different(a, b) == {} <==> a.root == b.root
  {
    var a, b := Run(h, n, stepsA).tree, Run(h, m, stepsB).tree;
    RunIsRebuild(h, n, stepsA);
    RunIsRebuild(h, m, stepsB);
    if a.root != b.root && Different(a, b) == {} {
      NoDifferenceMeansSameNodes(a, b);
      NodesDetermineRoot(h, n, HistoryOf(stepsA).leaves, m, HistoryOf(stepsB).leaves);
    }
  }

  // Soundness, as a reduction to the hash function.

  datatype Evidence = Collision(a: Bytes, b: Bytes) | EmptyPreimage(a: Bytes)

  /** Something that should be infeasible to find for the hash function. */
  predicate Genuine(h: Hasher, e: Evidence) {
    match e
    case Collision(a, b) => a != b && h(a) == h(b)
    case EmptyPreimage(a) => h(a) == EMPTY
  }

  /** The child of node `index` that a step of a proof came from: a left sibling belongs to a right child. */
  function Child(index: nat, sibling: Sibling): nat {
    2 * index + (if sibling.direction == Left then 1 else 0)
  }

  /** The leaf under node `index` that the directions lead to, read from the top down. */
  function LeafIndex(index: nat, siblings: seq<Sibling>): nat
    decreases |siblings|
  {
    if siblings == [] then index
    else
      LeafIndex(Child(index, siblings[|siblings| - 1]), siblings[..|siblings| - 1])
  }

  /** The bytes hashed last when folding `siblings` onto a leaf. */
  function LastHashed(h: Hasher, leaf: Leaf, siblings: seq<Sibling>): Bytes {
    if siblings == [] then LeafBytes(leaf.key, leaf.value)
    else
      var below := Fold(h, HashLeaf(h, leaf), siblings[..|siblings| - 1]);
      var sibling := siblings[|siblings| - 1];
      match sibling.direction
      case Left => NodeBytes(sibling.hash, below)
      case Right => NodeBytes(below, sibling.hash)
  }

  /** The bytes hashed for an occupied node of the tree. */
  function Hashed(h: Hasher, leaves: seq<Leaf>, level: nat, index: nat): Bytes
    requires index < Width(|leaves|, level)
  {
    if level == 0 then LeafBytes(leaves[index].key, leaves[index].value)
    else NodeBytes(Node(h, leaves, level - 1, 2 * index), Node(h, leaves, level - 1, 2 * index + 1))
  }

  /** Walks an accepted proof and the tree down together, to where they part. */
  function Extract(h: Hasher, leaves: seq<Leaf>, level: nat, index: nat, leaf: Leaf, siblings: seq<Sibling>):
    Option<Evidence>
    requires index < Width(|leaves|, level)
  {
    var ours, theirs := Hashed(h, leaves, level, index), LastHashed(h, leaf, siblings);
    if ours != theirs then Some(Collision(ours, theirs))
    else if siblings == [] || level == 0 then None
    else
      var front := siblings[..|siblings| - 1];
      var child := Child(index, siblings[|siblings| - 1]);
      if child < Width(|leaves|, level - 1) then Extract(h, leaves, level - 1, child, leaf, front)
      else Some(EmptyPreimage(LastHashed(h, leaf, front)))
  }

  lemma FoldIsLastHashed(h: Hasher, leaf: Leaf, siblings: seq<Sibling>)
    ensures Fold(h, HashLeaf(h, leaf), siblings) == h(LastHashed(h, leaf, siblings))
  {
  }

  lemma LeafIsNotNode(key: Bytes, value: Bytes, left: Bytes, right: Bytes)
    ensures LeafBytes(key, value) != NodeBytes(left, right)
  {
    assert LeafBytes(key, value)[0] == 'l' as int as byte;
    assert NodeBytes(left, right)[0] == 'n' as int as byte;
  }

  /** Equal node bytes have equal parts as soon as one of the parts is a digest on both sides. */
  lemma NodeBytesInjective(a: Bytes, b: Bytes, c: Bytes, d: Bytes)
    requires NodeBytes(a, b) == NodeBytes(c, d)
    requires |a| == |c| || |b| == |d|
    ensures a == c && b == d
  {
    var p := Ascii("node:");
    var ab, cd := NodeBytes(a, b), NodeBytes(c, d);
    assert |p| == 5;
    assert ab[5..5 + |a|] == a && cd[5..5 + |c|] == c;
    assert ab[|ab| - |b|..] == b && cd[|cd| - |d|..] == d;
  }

  /** The proof is as long as the node is high, and its leaf has the bytes of the leaf its directions spell. */
  predicate Shows(leaves: seq<Leaf>, level: nat, index: nat, leaf: Leaf, siblings: seq<Sibling>) {
    var i := LeafIndex(index, siblings);
    |siblings| == level && i < |leaves| && LeafBytes(leaf.key, leaf.value) == LeafBytes(leaves[i].key, leaves[i].value)
  }

  /**
   If a fold onto a leaf gives an occupied node, either the walk produces a
   genuine collision or empty preimage, or the proof shows its leaf.
   */
  lemma {:induction false} ExtractIsGenuine(h: Hasher, leaves: seq<Leaf>, level: nat, index: nat, leaf: Leaf,
                                            siblings: seq<Sibling>)
    requires index < Width(|leaves|, level)
    requires Fold(h, HashLeaf(h, leaf), siblings) == Node(h, leaves, level, index)
    ensures
      match Extract(h, leaves, level, index, leaf, siblings)
      case Some(e) => Genuine(h, e)
      case None => Shows(leaves, level, index, leaf, siblings)
    decreases level
  {
    FoldIsLastHashed(h, leaf, siblings);
    assert Node(h, leaves, level, index) == h(Hashed(h, leaves, level, index));
    if Hashed(h, leaves, level, index) == LastHashed(h, leaf, siblings) {
      EqualBytes(h, leaves, level, index, leaf, siblings);
      if siblings != [] {
        var front := siblings[..|siblings| - 1];
        var child := Child(index, siblings[|siblings| - 1]);
        ChildAgrees(h, leaves, level, index, leaf, siblings);
        if child < Width(|leaves|, level - 1) {
          ExtractIsGenuine(h, leaves, level - 1, child, leaf, front);
        } else {
          FoldIsLastHashed(h, leaf, front);
        }
      }
    }
  }

  /** Bytes of a leaf never equal bytes of a node, so both walks end together. */
  lemma EqualBytes(h: Hasher, leaves: seq<Leaf>, level: nat, index: nat, leaf: Leaf, siblings: seq<Sibling>)
    requires index < Width(|leaves|, level)
    requires Hashed(h, leaves, level, index) == LastHashed(h, leaf, siblings)
    ensures siblings == [] <==> level == 0
  {
    if siblings == [] && level > 0 {
      LeafIsNotNode(leaf.key, leaf.value,
                    Node(h, leaves, level - 1, 2 * index), Node(h, leaves, level - 1, 2 * index + 1));
    } else if siblings != [] && level == 0 {
      PartsOfLast(h, leaf, siblings, leaves[index]);
    }
  }

  lemma PartsOfLast(h: Hasher, leaf: Leaf, siblings: seq<Sibling>, other: Leaf)
    requires siblings != []
    ensures LastHashed(h, leaf, siblings) != LeafBytes(other.key, other.value)
  {
    var below := Fold(h, HashLeaf(h, leaf), siblings[..|siblings| - 1]);
    var sibling := siblings[|siblings| - 1];
    LeafIsNotNode(other.key, other.value, sibling.hash, below);
    LeafIsNotNode(other.key, other.value, below, sibling.hash);
  }

  lemma ChildAgrees(h: Hasher, leaves: seq<Leaf>, level: nat, index: nat, leaf: Leaf, siblings: seq<Sibling>)
    requires level > 0 && siblings != [] && index < Width(|leaves|, level)
    requires Hashed(h, leaves, level, index) == LastHashed(h, leaf, siblings)
    ensures
      var child := Child(index, siblings[|siblings| - 1]);
      Fold(h, HashLeaf(h, leaf), siblings[..|siblings| - 1]) == Node(h, leaves, level - 1, child)
  {
    var below := Fold(h, HashLeaf(h, leaf), siblings[..|siblings| - 1]);
    var sibling := siblings[|siblings| - 1];
    var left, right := Node(h, leaves, level - 1, 2 * index), Node(h, leaves, level - 1, 2 * index + 1);
    match sibling.direction
    case Left => NodeBytesInjective(left, right, sibling.hash, below);
    case Right => NodeBytesInjective(left, right, below, sibling.hash);
  }

  /**
   Soundness: a proof accepted against the root of a non-empty tree reached by
   any run shows the leaf its directions spell, or yields genuine evidence
   against the hash function.
   */
  lemma Sound(h: Hasher, height: nat, steps: seq<MerkleStep>, key: Bytes, value: Bytes, proof: MerkleProof)
    requires HistoryOf(steps).leaves != []
    requires Verifies(h, Run(h, height, steps).tree.root, key, value, proof)
    ensures
      var leaves := HistoryOf(steps).leaves;
      var top := Up(|leaves| - 1, height);
      match Extract(h, leaves, height, top, Leaf(key, value), proof.siblings)
      case Some(e) => Genuine(h, e)
      case None => Shows(leaves, height, top, Leaf(key, value), proof.siblings)
  {
    RunIsRebuild(h, height, steps);
    var leaves := HistoryOf(steps).leaves;
    ExtractIsGenuine(h, leaves, height, Up(|leaves| - 1, height), Leaf(key, value), proof.siblings);
  }

  // What the bytes of a leaf say about the leaf.

  /** Equal leaf bytes mean the same pair exactly when the keys are equally long. */
  lemma LeafBytesInjective(a: Leaf, b: Leaf)
    requires LeafBytes(a.key, a.value) == LeafBytes(b.key, b.value)
    ensures a == b <==> |a.key| == |b.key|
  {
    var p := Ascii("leaf:");
    assert |p| == 5;
    if |a.key| == |b.key| {
      var x, y := LeafBytes(a.key, a.value), LeafBytes(b.key, b.value);
      assert x[5..5 + |a.key|] == a.key && y[5..5 + |b.key|] == b.key;
      assert x[6 + |a.key|..] == a.value && y[6 + |b.key|..] == b.value;
    }
  }

  lemma ShorterPlainKey(a: Leaf, b: Leaf)
    requires |a.key| < |b.key| && b.key[|a.key|] != ':' as int as byte
    ensures LeafBytes(a.key, a.value) != LeafBytes(b.key, b.value)
  {
    assert LeafBytes(a.key, a.value)[5 + |a.key|] == ':' as int as byte;
    assert LeafBytes(b.key, b.value)[5 + |a.key|] == b.key[|a.key|];
  }

  /** For keys without a colon, the bytes determine the leaf. */
  lemma PlainKeysInjective(a: Leaf, b: Leaf)
    requires forall i :: 0 <= i < |a.key| ==> a.key[i] != ':' as int as byte
    requires forall i :: 0 <= i < |b.key| ==> b.key[i] != ':' as int as byte
    ensures LeafBytes(a.key, a.value) == LeafBytes(b.key, b.value) <==> a == b
  {
    if |a.key| < |b.key| {
      ShorterPlainKey(a, b);
    } else if |b.key| < |a.key| {
      ShorterPlainKey(b, a);
    } else if LeafBytes(a.key, a.value) == LeafBytes(b.key, b.value) {
      LeafBytesInjective(a, b);
    }
  }

  /** A colon in a key can move the boundary: two pairs with the same bytes. */
  lemma ColonMovesBoundary()
    ensures
      var a, b := Leaf(Ascii("a"), Ascii("b:c")), Leaf(Ascii("a:b"), Ascii("c"));
      a != b && LeafBytes(a.key, a.value) == LeafBytes(b.key, b.value)
  {
    var a, b := Leaf(Ascii("a"), Ascii("b:c")), Leaf(Ascii("a:b"), Ascii("c"));
    assert |a.key| == 1 && |b.key| == 3;
    assert LeafBytes(a.key, a.value) == Ascii("leaf:a:b:c") == LeafBytes(b.key, b.value);
  }
}
