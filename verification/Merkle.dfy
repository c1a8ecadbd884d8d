/**
 The incremental Merkle tree. The hash function is a parameter: any function
 from byte strings to 32-byte digests.
 */
module Merkle {
  import opened Wrappers
  import opened ByteStrings

  const DIGEST_SIZE: nat := 32

  function Zeros(n: nat): (zeros: Bytes)
    ensures |zeros| == n
  {
    if n == 0 then [] else [0] + Zeros(n - 1)
  }

  type Digest = d: Bytes | |d| == DIGEST_SIZE witness Zeros(DIGEST_SIZE)

  type Hasher = Bytes -> Digest

  /** `Hash::empty()`: 32 zero bytes stand for every subtree without leaves. */
  const EMPTY: Digest := Zeros(DIGEST_SIZE)

  datatype Leaf = Leaf(key: Bytes, value: Bytes)

  function LeafBytes(key: Bytes, value: Bytes): Bytes {
    Ascii("leaf:") + key + Ascii(":") + value
  }

  function NodeBytes(left: Bytes, right: Bytes): Bytes {
    Ascii("node:") + left + Ascii(":") + right
  }

  function HashLeaf(h: Hasher, leaf: Leaf): Digest {
    h(LeafBytes(leaf.key, leaf.value))
  }

  function HashNode(h: Hasher, left: Bytes, right: Bytes): Digest {
    h(NodeBytes(left, right))
  }

  datatype NodePath = NodePath(level: nat, index: nat)

  datatype Direction = Left | Right

  /** A sibling in a proof may be any bytes: proofs come from elsewhere. */
  datatype Sibling = Sibling(direction: Direction, hash: Bytes)

  datatype MerkleProof = MerkleProof(leaf: Leaf, siblings: seq<Sibling>)

  /** The fields of a tree; also what a snapshot of it holds. */
  datatype MerkleTree = MerkleTree(
    nodes: map<NodePath, Digest>,
    root: Digest,
    height: nat,
    leafCount: nat,
    keyToIndex: map<Bytes, nat>,
    leafData: map<Bytes, Bytes>)

  function EmptyTree(height: nat): MerkleTree {
    MerkleTree(map[], EMPTY, height, 0, map[], map[])
  }

  /** `index ^ 1` */
  function Flip(index: nat): nat {
    if index % 2 == 0 then index + 1 else index - 1
  }

  function NodeOrEmpty(nodes: map<NodePath, Digest>, level: nat, index: nat): Digest {
    if NodePath(level, index) in nodes then nodes[NodePath(level, index)] else EMPTY
  }

  /** The sibling of a node, with the side it stands on. */
  function SiblingOf(nodes: map<NodePath, Digest>, level: nat, index: nat): Sibling {
    Sibling(if index % 2 == 0 then Right else Left, NodeOrEmpty(nodes, level, Flip(index)))
  }

  function Combine(h: Hasher, current: Bytes, sibling: Sibling): Digest {
    match sibling.direction
    case Left => HashNode(h, sibling.hash, current)
    case Right => HashNode(h, current, sibling.hash)
  }

  /** The locals of `insert`'s loop. */
  datatype Climber = Climber(nodes: map<NodePath, Digest>, hash: Digest, index: nat, siblings: seq<Sibling>)

  /** One turn of the loop: take the sibling, hash the parent, store it. */
  function ClimbOne(h: Hasher, c: Climber, level: nat): Climber {
    var sibling := SiblingOf(c.nodes, level, c.index);
    var parent := Combine(h, c.hash, sibling);
    Climber(c.nodes[NodePath(level + 1, c.index / 2) := parent], parent, c.index / 2, c.siblings + [sibling])
  }

  function Climb(h: Hasher, start: Climber, levels: nat): Climber {
    if levels == 0 then start else ClimbOne(h, Climb(h, start, levels - 1), levels - 1)
  }

  function ClimbFromLeaf(h: Hasher, t: MerkleTree, leaf: Leaf): Climber {
    var hash := HashLeaf(h, leaf);
    Climb(h, Climber(t.nodes[NodePath(0, t.leafCount) := hash], hash, t.leafCount, []), t.height)
  }

  function Inserted(h: Hasher, t: MerkleTree, leaf: Leaf): MerkleTree {
    var c := ClimbFromLeaf(h, t, leaf);
    MerkleTree(c.nodes, c.hash, t.height, t.leafCount + 1,
               t.keyToIndex[leaf.key := t.leafCount], t.leafData[leaf.key := leaf.value])
  }

  /** The siblings of a leaf's path, from the leaf up. */
  function SiblingsOf(nodes: map<NodePath, Digest>, index: nat, levels: nat): seq<Sibling> {
    if levels == 0 then []
    else SiblingsOf(nodes, index, levels - 1) + [SiblingOf(nodes, levels - 1, Up(index, levels - 1))]
  }

  /** `index >> level`: the ancestor of leaf `index` on a level. */
  function Up(index: nat, level: nat): nat {
    if level == 0 then index else Up(index, level - 1) / 2
  }

  function Proved(t: MerkleTree, key: Bytes): Option<MerkleProof> {
    if key in t.keyToIndex && key in t.leafData
    then Some(MerkleProof(Leaf(key, t.leafData[key]), SiblingsOf(t.nodes, t.keyToIndex[key], t.height)))
    else None
  }

  function Fold(h: Hasher, start: Digest, siblings: seq<Sibling>): Digest {
    if siblings == [] then start
    else Combine(h, Fold(h, start, siblings[..|siblings| - 1]), siblings[|siblings| - 1])
  }

  predicate Verifies(h: Hasher, root: Digest, key: Bytes, value: Bytes, proof: MerkleProof) {
    Fold(h, HashLeaf(h, Leaf(key, value)), proof.siblings) == root
  }

  predicate Changed(here: map<NodePath, Digest>, there: map<NodePath, Digest>, p: NodePath) {
    p in here && (p !in there || here[p] != there[p])
  }

  /** The path is stored in one of the trees only, or with another hash. */
  predicate Differs(a: map<NodePath, Digest>, b: map<NodePath, Digest>, p: NodePath) {
    p in a.Keys + b.Keys && !(p in a && p in b && a[p] == b[p])
  }

  /** The paths at which two trees differ; none are looked for if the roots agree. */
  function Different(a: MerkleTree, b: MerkleTree): set<NodePath> {
    if a.root == b.root then {}
    else
      (set p | p in a.nodes.Keys && Changed(a.nodes, b.nodes, p)) +
      (set p | p in b.nodes.Keys && p !in a.nodes)
  }

  /** With different roots, every path at which the trees differ, and no other. */
  lemma DifferentExactly(a: MerkleTree, b: MerkleTree)
    requires a.root != b.root
    ensures forall p :: p in Different(a, b) <==> Differs(a.nodes, b.nodes, p)
  {
  }

  // What is hashed.

  /** `leaf:`, the key, a colon, the value. */
  lemma LeafLayout(key: Bytes, value: Bytes)
    ensures LeafBytes(key, value)[..5] == [108, 101, 97, 102, 58]
    ensures LeafBytes(key, value)[5..5 + |key|] == key
    ensures LeafBytes(key, value)[5 + |key|] == 58
    ensures LeafBytes(key, value)[6 + |key|..] == value
  {
    var p := Ascii("leaf:");
    assert p == [108, 101, 97, 102, 58] && Ascii(":") == [58];
    assert LeafBytes(key, value) == p + key + [58] + value;
  }

  /** `node:`, the left hash, a colon, the right hash. */
  lemma NodeLayout(left: Bytes, right: Bytes)
    ensures NodeBytes(left, right)[..5] == [110, 111, 100, 101, 58]
    ensures NodeBytes(left, right)[5..5 + |left|] == left
    ensures NodeBytes(left, right)[5 + |left|] == 58
    ensures NodeBytes(left, right)[6 + |left|..] == right
  {
    var p := Ascii("node:");
    assert p == [110, 111, 100, 101, 58] && Ascii(":") == [58];
    assert NodeBytes(left, right) == p + left + [58] + right;
  }

  lemma {:induction false} ZerosAreZero(n: nat)
    ensures forall i | 0 <= i < n :: Zeros(n)[i] == 0
  {
    if n > 0 {
      ZerosAreZero(n - 1);
    }
  }

  /** The empty hash is 32 zero bytes. */
  lemma EmptyIsZero()
    ensures |EMPTY| == 32 && forall i | 0 <= i < 32 :: EMPTY[i] == 0
  {
    ZerosAreZero(32);
  }

  class IncrementalMerkleTree {
    const hasher: Hasher
    var nodes: map<NodePath, Digest>
    var root: Digest
    var height: nat
    var leafCount: nat
    var keyToIndex: map<Bytes, nat>
    var leafData: map<Bytes, Bytes>

    function Value(): MerkleTree
      reads this
    {
      MerkleTree(nodes, root, height, leafCount, keyToIndex, leafData)
    }

    constructor (hasher: Hasher, height: nat)
      ensures this.hasher == hasher && Value() == EmptyTree(height)
    {
      this.hasher := hasher;
      this.nodes, this.root, this.height, this.leafCount := map[], EMPTY, height, 0;
      this.keyToIndex, this.leafData := map[], map[];
    }

    method Insert(key: Bytes, value: Bytes) returns (proof: MerkleProof)
      modifies this
      ensures Value() == Inserted(hasher, old(Value()), Leaf(key, value))
      ensures proof == MerkleProof(Leaf(key, value), ClimbFromLeaf(hasher, old(Value()), Leaf(key, value)).siblings)
    {
      var leafHash := HashLeaf(hasher, Leaf(key, value));
      var leafIndex := leafCount;
      leafCount := leafCount + 1;
      keyToIndex := keyToIndex[key := leafIndex];
      leafData := leafData[key := value];
      nodes := nodes[NodePath(0, leafIndex) := leafHash];
      ghost var start := Climber(nodes, leafHash, leafIndex, []);
      var currentHash: Digest, currentIndex := leafHash, leafIndex;
      var siblings: seq<Sibling> := [];
      for level := 0 to height
        invariant Climber(nodes, currentHash, currentIndex, siblings) == Climb(hasher, start, level)
        invariant Value() == old(Value()).(nodes := nodes, leafCount := leafCount,
                                           keyToIndex := keyToIndex, leafData := leafData)
        invariant leafCount == old(leafCount) + 1
        invariant keyToIndex == old(keyToIndex)[key := leafIndex] && leafData == old(leafData)[key := value]
      {
        var siblingIndex := Flip(currentIndex);
        var siblingHash := NodeOrEmpty(nodes, level, siblingIndex);
        var direction := if currentIndex % 2 == 0 then Right else Left;
        siblings := siblings + [Sibling(direction, siblingHash)];
        currentHash := if currentIndex % 2 == 0 then HashNode(hasher, currentHash, siblingHash)
                       else HashNode(hasher, siblingHash, currentHash);
        nodes := nodes[NodePath(level + 1, currentIndex / 2) := currentHash];
        currentIndex := currentIndex / 2;
      }
      root := currentHash;
      return MerkleProof(Leaf(key, value), siblings);
    }

    method Prove(key: Bytes) returns (proof: Option<MerkleProof>)
      ensures proof == Proved(Value(), key)
    {
      if key !in keyToIndex || key !in leafData {
        return None;
      }
      var currentIndex := keyToIndex[key];
      var siblings: seq<Sibling> := [];
      for level := 0 to height
        invariant currentIndex == Up(keyToIndex[key], level)
        invariant siblings == SiblingsOf(nodes, keyToIndex[key], level)
      {
        var siblingHash := NodeOrEmpty(nodes, level, Flip(currentIndex));
        siblings := siblings + [Sibling(if currentIndex % 2 == 0 then Right else Left, siblingHash)];
        currentIndex := currentIndex / 2;
      }
      return Some(MerkleProof(Leaf(key, leafData[key]), siblings));
    }

    static method VerifyProof(hasher: Hasher, root: Digest, key: Bytes, value: Bytes, proof: MerkleProof)
      returns (ok: bool)
      ensures ok <==> Verifies(hasher, root, key, value, proof)
    {
      var siblings := proof.siblings;
      var currentHash: Digest := HashLeaf(hasher, Leaf(key, value));
      for i := 0 to |siblings|
        invariant currentHash == Fold(hasher, HashLeaf(hasher, Leaf(key, value)), siblings[..i])
      {
        assert siblings[..i + 1][..i] == siblings[..i];
        currentHash := match siblings[i].direction
          case Left => HashNode(hasher, siblings[i].hash, currentHash)
          case Right => HashNode(hasher, currentHash, siblings[i].hash);
      }
      assert siblings[..|siblings|] == siblings;
      return currentHash == root;
    }

    /** Checks a proof against this tree's root, for the leaf the proof carries. */
    method Verify(proof: MerkleProof) returns (ok: bool)
      ensures ok <==> Verifies(hasher, root, proof.leaf.key, proof.leaf.value, proof)
    {
      ok := VerifyProof(hasher, root, proof.leaf.key, proof.leaf.value, proof);
    }

    method Diff(other: IncrementalMerkleTree) returns (different: set<NodePath>)
      ensures different == Different(Value(), other.Value())
      ensures root == other.root ==> different == {}
      ensures root != other.root ==> forall p :: p in different <==> Differs(nodes, other.nodes, p)
    {
      different := {};
      if root == other.root {
        return;
      }
      var todo := nodes.Keys;
      while todo != {}
        invariant todo <= nodes.Keys
        invariant forall p :: p in different <==> p !in todo && Changed(nodes, other.nodes, p)
        decreases |todo|
      {
        var path :| path in todo;
        todo := todo - {path};
        if path in other.nodes {
          if nodes[path] != other.nodes[path] {
            different := different + {path};
          }
        } else {
          different := different + {path};
        }
      }
      todo := other.nodes.Keys;
      while todo != {}
        invariant todo <= other.nodes.Keys
        invariant forall p :: p in different <==>
          Changed(nodes, other.nodes, p) || (p in other.nodes && p !in todo && p !in nodes)
        decreases |todo|
      {
        var path :| path in todo;
        todo := todo - {path};
        if path !in nodes {
          different := different + {path};
        }
      }
    }

    method Snapshot() returns (s: MerkleTree)
      ensures s == Value()
    {
      return MerkleTree(nodes, root, height, leafCount, keyToIndex, leafData);
    }

    method Rollback(snapshot: MerkleTree)
      modifies this
      ensures Value() == snapshot
    {
      root := snapshot.root;
      nodes := snapshot.nodes;
      leafCount := snapshot.leafCount;
      keyToIndex := snapshot.keyToIndex;
      leafData := snapshot.leafData;
      height := snapshot.height;
    }
  }
}
