/**
 The path-only update against a rebuild from all the leaves: which nodes are
 stored, what each of them is, and that proofs, differences, snapshots and
 rollbacks follow from that.
 */
module MerkleRebuild {
  import opened ByteStrings
  import opened Merkle

  function PowerOfTwo(n: nat): (p: nat)
    ensures p > 0
  {
    if n == 0 then 1 else 2 * PowerOfTwo(n - 1)
  }

  /** The number of nodes on a level that have a leaf below them. */
  function Width(count: nat, level: nat): nat {
    if count == 0 then 0 else Up(count - 1, level) + 1
  }

  /** What a node must be, from the leaves alone. */
  function Node(h: Hasher, leaves: seq<Leaf>, level: nat, index: nat): Digest {
    if index >= Width(|leaves|, level) then EMPTY
    else if level == 0 then HashLeaf(h, leaves[index])
    else HashNode(h, Node(h, leaves, level - 1, 2 * index), Node(h, leaves, level - 1, 2 * index + 1))
  }

  function Row(count: nat, level: nat): set<NodePath> {
    set i: nat | i < Width(count, level) :: NodePath(level, i)
  }

  /** The paths on the levels below `levels` that have a leaf below them. */
  function Rows(count: nat, levels: nat): set<NodePath> {
    if levels == 0 then {} else Rows(count, levels - 1) + Row(count, levels - 1)
  }

  function Nodes(h: Hasher, height: nat, leaves: seq<Leaf>): map<NodePath, Digest> {
    map p | p in Rows(|leaves|, height + 1) :: Node(h, leaves, p.level, p.index)
  }

  function Root(h: Hasher, height: nat, leaves: seq<Leaf>): Digest {
    if leaves == [] then EMPTY else Node(h, leaves, height, Up(|leaves| - 1, height))
  }

  function LastIndexes(leaves: seq<Leaf>): map<Bytes, nat> {
    if leaves == [] then map[]
    else LastIndexes(leaves[..|leaves| - 1])[leaves[|leaves| - 1].key := |leaves| - 1]
  }

  function LastValues(leaves: seq<Leaf>): map<Bytes, Bytes> {
    if leaves == [] then map[]
    else LastValues(leaves[..|leaves| - 1])[leaves[|leaves| - 1].key := leaves[|leaves| - 1].value]
  }

  /** The whole tree, computed from nothing but its leaves. */
  function Build(h: Hasher, height: nat, leaves: seq<Leaf>): MerkleTree {
    MerkleTree(Nodes(h, height, leaves), Root(h, height, leaves), height, |leaves|,
               LastIndexes(leaves), LastValues(leaves))
  }

  // Positions.

  lemma {:induction false} UpIsMonotone(i: nat, j: nat, level: nat)
    requires i <= j
    ensures Up(i, level) <= Up(j, level)
  {
    if level > 0 {
      UpIsMonotone(i, j, level - 1);
    }
  }

  lemma {:induction false} UpOfNext(i: nat, level: nat)
    ensures Up(i, level) <= Up(i + 1, level) <= Up(i, level) + 1
  {
    if level > 0 {
      UpOfNext(i, level - 1);
    }
  }

  /** One more leaf adds at most the nodes of its own path. */
  lemma WidthGrows(count: nat, level: nat)
    ensures Up(count, level) <= Width(count, level)
    ensures Width(count, level) <= Width(count + 1, level) == Up(count, level) + 1
  {
    if count == 0 {
      UpOfZero(level);
    } else {
      UpOfNext(count - 1, level);
    }
  }

  lemma {:induction false} UpOfZero(level: nat)
    ensures Up(0, level) == 0
  {
    if level > 0 {
      UpOfZero(level - 1);
    }
  }

  lemma HalveMultiple(low: nat, half: nat, p: nat, i: nat)
    requires low == 2 * half || low == 2 * half + 1
    requires low * p <= i < (low + 1) * p
    ensures half * (2 * p) <= i < (half + 1) * (2 * p)
  {
    assert half * (2 * p) == (2 * half) * p && (half + 1) * (2 * p) == (2 * half) * p + p + p;
    assert (2 * half + 1) * p == (2 * half) * p + p;
    assert (2 * half + 2) * p == (2 * half) * p + p + p;
  }

  /** `Up` shifts right: it divides by a power of two. */
  lemma {:induction false} UpIsShift(i: nat, level: nat)
    ensures Up(i, level) * PowerOfTwo(level) <= i < (Up(i, level) + 1) * PowerOfTwo(level)
  {
    if level > 0 {
      UpIsShift(i, level - 1);
      HalveMultiple(Up(i, level - 1), Up(i, level), PowerOfTwo(level - 1), i);
    }
  }

  lemma Scale(a: nat, b: nat, p: nat)
    requires a <= b
    ensures a * p <= b * p
  {
  }

  lemma AtMostOneMultiple(a: nat, b: nat, i: nat, p: nat)
    requires p > 0 && a * p <= i < (b + 1) * p
    ensures a <= b
  {
    if a > b {
      Scale(b + 1, a, p);
    }
  }

  /** A level of a tree over `count` leaves is `count / 2^level` nodes wide, rounded up. */
  lemma WidthRoundsUp(count: nat, level: nat)
    ensures (Width(count, level) as int - 1) * PowerOfTwo(level) < count <= Width(count, level) * PowerOfTwo(level)
            || (count == 0 && Width(count, level) == 0)
  {
    if count > 0 {
      UpIsShift(count - 1, level);
    }
  }

  /** A path is stored exactly when its subtree has a leaf. */
  lemma OccupiedExactly(count: nat, level: nat, index: nat)
    ensures index < Width(count, level) <==> exists i: nat :: i < count && Up(i, level) == index
  {
    if index < Width(count, level) {
      var i := index * PowerOfTwo(level);
      UpIsShift(i, level);
      AtMostOneMultiple(index, Up(i, level), i, PowerOfTwo(level));
      AtMostOneMultiple(Up(i, level), index, i, PowerOfTwo(level));
      UpIsShift(count - 1, level);
      Scale(index, Up(count - 1, level), PowerOfTwo(level));
      assert i < count && Up(i, level) == index;
    }
    forall i: nat | i < count && Up(i, level) == index
      ensures index < Width(count, level)
    {
      UpIsMonotone(i, count - 1, level);
    }
  }

  /** Within its capacity, the whole tree hangs from the node (height, 0). */
  lemma TopIsZero(i: nat, height: nat)
    requires i < PowerOfTwo(height)
    ensures Up(i, height) == 0
  {
    UpIsShift(i, height);
    if Up(i, height) > 0 {
      Scale(1, Up(i, height), PowerOfTwo(height));
    }
  }

  lemma {:induction false} InRows(count: nat, levels: nat, p: NodePath)
    ensures p in Rows(count, levels) <==> p.level < levels && p.index < Width(count, p.level)
  {
    if levels > 0 {
      InRows(count, levels - 1, p);
      assert p in Row(count, levels - 1) <==> p == NodePath(levels - 1, p.index) && p.index < Width(count, levels - 1);
    }
  }

  lemma InNodes(h: Hasher, height: nat, leaves: seq<Leaf>, p: NodePath)
    ensures p in Nodes(h, height, leaves) <==> p.level <= height && p.index < Width(|leaves|, p.level)
    ensures p in Nodes(h, height, leaves) ==> Nodes(h, height, leaves)[p] == Node(h, leaves, p.level, p.index)
    ensures p.level <= height ==>
              NodeOrEmpty(Nodes(h, height, leaves), p.level, p.index) == Node(h, leaves, p.level, p.index)
  {
    InRows(|leaves|, height + 1, p);
  }

  /** A stored node is the root of a tree within its capacity, and the root is that node. */
  lemma RootIsTopNode(h: Hasher, height: nat, leaves: seq<Leaf>)
    requires 0 < |leaves| <= PowerOfTwo(height)
    ensures NodePath(height, 0) in Build(h, height, leaves).nodes
    ensures Build(h, height, leaves).root == Build(h, height, leaves).nodes[NodePath(height, 0)]
  {
    TopIsZero(|leaves| - 1, height);
    InNodes(h, height, leaves, NodePath(height, 0));
  }

  // Counting nodes.

  function Total(count: nat, levels: nat): nat {
    if levels == 0 then 0 else Total(count, levels - 1) + Width(count, levels - 1)
  }

  lemma {:induction false} RowSize(level: nat, width: nat, row: set<NodePath>)
    requires forall p :: p in row <==> p.level == level && p.index < width
    ensures |row| == width
  {
    if width == 0 {
      assert row == {};
    } else {
      RowSize(level, width - 1, row - {NodePath(level, width - 1)});
    }
  }

  lemma {:induction false} RowsSize(count: nat, levels: nat)
    ensures |Rows(count, levels)| == Total(count, levels)
  {
    if levels > 0 {
      RowsSize(count, levels - 1);
      forall p ensures p in Rows(count, levels - 1) <==> p.level < levels - 1 && p.index < Width(count, p.level) {
        InRows(count, levels - 1, p);
      }
      forall p ensures p in Row(count, levels - 1) <==> p.level == levels - 1 && p.index < Width(count, levels - 1) {
        assert p in Row(count, levels - 1) <==>
               p == NodePath(levels - 1, p.index) && p.index < Width(count, levels - 1);
      }
      RowSize(levels - 1, Width(count, levels - 1), Row(count, levels - 1));
      assert Rows(count, levels - 1) !! Row(count, levels - 1);
    }
  }

  /** The number of stored nodes is the sum of the widths of levels 0 to `height`. */
  lemma NodeCount(h: Hasher, height: nat, leaves: seq<Leaf>)
    ensures |Build(h, height, leaves).nodes| == Total(|leaves|, height + 1)
  {
    RowsSize(|leaves|, height + 1);
    var nodes := Nodes(h, height, leaves);
    assert nodes.Keys == Rows(|leaves|, height + 1);
    assert |nodes| == |nodes.Keys|;
  }

  // One insert.

  /** A leaf changes no node off its own path. */
  lemma {:induction false} OffThePath(h: Hasher, leaves: seq<Leaf>, leaf: Leaf, level: nat, index: nat)
    requires index != Up(|leaves|, level)
    ensures Node(h, leaves + [leaf], level, index) == Node(h, leaves, level, index)
  {
    WidthGrows(|leaves|, level);
    if level > 0 {
      OffThePath(h, leaves, leaf, level - 1, 2 * index);
      OffThePath(h, leaves, leaf, level - 1, 2 * index + 1);
    }
  }

  predicate PathMidway(h: Hasher, height: nat, leaves: seq<Leaf>, leaf: Leaf, level: nat,
                       nodes: map<NodePath, Digest>, p: NodePath)
  {
    && (p in nodes <==>
          || (p.level <= height && p.index < Width(|leaves|, p.level))
          || (p.level <= level && p.index == Up(|leaves|, p.level)))
    && (p in nodes ==>
          nodes[p] == if p.level <= level then Node(h, leaves + [leaf], p.level, p.index)
                      else Node(h, leaves, p.level, p.index))
  }

  ghost predicate NodesMidway(h: Hasher, height: nat, leaves: seq<Leaf>, leaf: Leaf, level: nat,
                              nodes: map<NodePath, Digest>)
  {
    forall p: NodePath :: PathMidway(h, height, leaves, leaf, level, nodes, p)
  }

  /** The climb after `level` turns: the new tree up to there, the earlier one above. */
  ghost predicate Midway(h: Hasher, height: nat, leaves: seq<Leaf>, leaf: Leaf, level: nat, c: Climber) {
    && c.index == Up(|leaves|, level)
    && c.hash == Node(h, leaves + [leaf], level, c.index)
    && c.siblings == SiblingsOf(Nodes(h, height, leaves + [leaf]), |leaves|, level)
    && NodesMidway(h, height, leaves, leaf, level, c.nodes)
  }

  lemma ClimbStarts(h: Hasher, height: nat, leaves: seq<Leaf>, leaf: Leaf)
    ensures
      var hash := HashLeaf(h, leaf);
      Midway(h, height, leaves, leaf, 0,
             Climber(Nodes(h, height, leaves)[NodePath(0, |leaves|) := hash], hash, |leaves|, []))
  {
    var more := leaves + [leaf];
    var nodes := Nodes(h, height, leaves)[NodePath(0, |leaves|) := HashLeaf(h, leaf)];
    assert Node(h, more, 0, |leaves|) == HashLeaf(h, leaf);
    forall p: NodePath ensures PathMidway(h, height, leaves, leaf, 0, nodes, p) {
      InNodes(h, height, leaves, p);
      assert p == NodePath(p.level, p.index);
      if p.level == 0 && p.index != |leaves| {
        OffThePath(h, leaves, leaf, 0, p.index);
      }
    }
  }

  /** The sibling found on the way up is the one the finished tree has. */
  lemma SiblingMidway(h: Hasher, height: nat, leaves: seq<Leaf>, leaf: Leaf, level: nat, nodes: map<NodePath, Digest>)
    requires level < height && NodesMidway(h, height, leaves, leaf, level, nodes)
    ensures NodeOrEmpty(nodes, level, Flip(Up(|leaves|, level)))
         == Node(h, leaves + [leaf], level, Flip(Up(|leaves|, level)))
    ensures SiblingOf(nodes, level, Up(|leaves|, level))
         == SiblingOf(Nodes(h, height, leaves + [leaf]), level, Up(|leaves|, level))
  {
    var at := NodePath(level, Flip(Up(|leaves|, level)));
    assert PathMidway(h, height, leaves, leaf, level, nodes, at);
    WidthGrows(|leaves|, level);
    InNodes(h, height, leaves + [leaf], at);
  }

  lemma ParentMidway(h: Hasher, leaves: seq<Leaf>, leaf: Leaf, level: nat)
    ensures
      var index := Up(|leaves|, level);
      Combine(h, Node(h, leaves + [leaf], level, index),
              Sibling(if index % 2 == 0 then Right else Left, Node(h, leaves + [leaf], level, Flip(index))))
      == Node(h, leaves + [leaf], level + 1, Up(|leaves|, level + 1))
  {
    WidthGrows(|leaves|, level + 1);
  }

  lemma NodesStep(h: Hasher, height: nat, leaves: seq<Leaf>, leaf: Leaf, level: nat, nodes: map<NodePath, Digest>)
    requires level < height && NodesMidway(h, height, leaves, leaf, level, nodes)
    ensures NodesMidway(h, height, leaves, leaf, level + 1,
              nodes[NodePath(level + 1, Up(|leaves|, level + 1)) :=
                      Node(h, leaves + [leaf], level + 1, Up(|leaves|, level + 1))])
  {
    var here := NodePath(level + 1, Up(|leaves|, level + 1));
    var next := nodes[here := Node(h, leaves + [leaf], here.level, here.index)];
    var above := level + 1;
    forall p: NodePath ensures PathMidway(h, height, leaves, leaf, above, next, p) {
      assert PathMidway(h, height, leaves, leaf, level, nodes, p);
      assert p == NodePath(p.level, p.index);
      if p.level == level + 1 && p.index != here.index {
        OffThePath(h, leaves, leaf, p.level, p.index);
      }
    }
  }

  lemma ClimbStep(h: Hasher, height: nat, leaves: seq<Leaf>, leaf: Leaf, level: nat, c: Climber)
    requires level < height && Midway(h, height, leaves, leaf, level, c)
    ensures Midway(h, height, leaves, leaf, level + 1, ClimbOne(h, c, level))
  {
    SiblingMidway(h, height, leaves, leaf, level, c.nodes);
    ParentMidway(h, leaves, leaf, level);
    NodesStep(h, height, leaves, leaf, level, c.nodes);
    var parent := Node(h, leaves + [leaf], level + 1, Up(|leaves|, level + 1));
    assert Combine(h, c.hash, SiblingOf(c.nodes, level, c.index)) == parent;
  }

  lemma {:induction false} ClimbContinues(h: Hasher, height: nat, leaves: seq<Leaf>, leaf: Leaf, level: nat,
                                          start: Climber)
    requires level <= height && Midway(h, height, leaves, leaf, 0, start)
    ensures Midway(h, height, leaves, leaf, level, Climb(h, start, level))
  {
    if level > 0 {
      ClimbContinues(h, height, leaves, leaf, level - 1, start);
      ClimbStep(h, height, leaves, leaf, level - 1, Climb(h, start, level - 1));
    }
  }

  lemma ClimbEnds(h: Hasher, height: nat, leaves: seq<Leaf>, leaf: Leaf, nodes: map<NodePath, Digest>)
    requires NodesMidway(h, height, leaves, leaf, height, nodes)
    ensures nodes == Nodes(h, height, leaves + [leaf])
  {
    var more := leaves + [leaf];
    var all := Nodes(h, height, more);
    forall p: NodePath
      ensures p in nodes.Keys <==> p in all.Keys
      ensures p in nodes.Keys && p in all.Keys ==> nodes[p] == all[p]
    {
      assert PathMidway(h, height, leaves, leaf, height, nodes, p);
      InNodes(h, height, more, p);
      WidthGrows(|leaves|, p.level);
    }
    assert nodes.Keys == all.Keys;
  }

  /** Updating one path gives the tree a rebuild from all the leaves would give. */
  lemma InsertIsRebuild(h: Hasher, height: nat, leaves: seq<Leaf>, leaf: Leaf)
    ensures Inserted(h, Build(h, height, leaves), leaf) == Build(h, height, leaves + [leaf])
    ensures ClimbFromLeaf(h, Build(h, height, leaves), leaf).siblings
         == SiblingsOf(Nodes(h, height, leaves + [leaf]), |leaves|, height)
  {
    var hash := HashLeaf(h, leaf);
    var start := Climber(Nodes(h, height, leaves)[NodePath(0, |leaves|) := hash], hash, |leaves|, []);
    ClimbStarts(h, height, leaves, leaf);
    ClimbContinues(h, height, leaves, leaf, height, start);
    ClimbEnds(h, height, leaves, leaf, Climb(h, start, height).nodes);
    assert (leaves + [leaf])[..|leaves|] == leaves;
  }

  lemma EmptyIsRebuild(h: Hasher, height: nat)
    ensures EmptyTree(height) == Build(h, height, [])
  {
    forall p ensures p !in Nodes(h, height, []) {
      InNodes(h, height, [], p);
    }
    assert Nodes(h, height, []) == map[];
  }
}
