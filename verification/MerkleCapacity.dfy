/**
 A tree past its capacity, which `insert` does not check: the root covers only
 the newest subtree, and the proof of an older member need not be accepted.
 */
module MerkleCapacity {
  import opened Wrappers
  import opened ByteStrings
  import opened Merkle
  import opened MerkleRebuild
  import opened MerkleProofs

  /** A member whose leaf lies under the same topmost node as the last leaf has an accepted proof. */
  lemma AcceptedUnderTop(h: Hasher, height: nat, leaves: seq<Leaf>, key: Bytes)
    requires key in LastIndexes(leaves)
    requires leaves != [] && Up(LastIndexes(leaves)[key], height) == Up(|leaves| - 1, height)
    ensures var t := Build(h, height, leaves);
            && Proved(t, key).Some?
            && Verifies(h, t.root, key, Proved(t, key).value.leaf.value, Proved(t, key).value)
  {
    LastInsertion(leaves, key);
    ProofOfMember(h, height, leaves, key);
  }

  /** Two nodes above the same leaf bytes, place by place. */
  predicate SameSubtrees(leaves: seq<Leaf>, level: nat, a: nat, b: nat) {
    var width := Width(|leaves|, level);
    && (a < width <==> b < width)
    && (a < width && b < width ==>
          if level == 0 then
            LeafBytes(leaves[a].key, leaves[a].value) == LeafBytes(leaves[b].key, leaves[b].value)
          else
            SameSubtrees(leaves, level - 1, 2 * a, 2 * b) && SameSubtrees(leaves, level - 1, 2 * a + 1, 2 * b + 1))
  }

  /** Walks two nodes of a tree down together, to where the bytes hashed for them part. */
  function Compare(h: Hasher, leaves: seq<Leaf>, level: nat, a: nat, b: nat): Option<Evidence> {
    var width := Width(|leaves|, level);
    if a >= width && b >= width then None
    else if a >= width then Some(EmptyPreimage(Hashed(h, leaves, level, b)))
    else if b >= width then Some(EmptyPreimage(Hashed(h, leaves, level, a)))
    else if Hashed(h, leaves, level, a) != Hashed(h, leaves, level, b) then
      Some(Collision(Hashed(h, leaves, level, a), Hashed(h, leaves, level, b)))
    else if level == 0 then None
    else
      var left := Compare(h, leaves, level - 1, 2 * a, 2 * b);
      if left.Some? then left else Compare(h, leaves, level - 1, 2 * a + 1, 2 * b + 1)
  }

  lemma NodeIsHashed(h: Hasher, leaves: seq<Leaf>, level: nat, index: nat)
    requires index < Width(|leaves|, level)
    ensures Node(h, leaves, level, index) == h(Hashed(h, leaves, level, index))
  {
  }

  /** Equal nodes have equal subtrees, or yield genuine evidence against the hash function. */
  lemma {:induction false} CompareIsGenuine(h: Hasher, leaves: seq<Leaf>, level: nat, a: nat, b: nat)
    requires Node(h, leaves, level, a) == Node(h, leaves, level, b)
    ensures match Compare(h, leaves, level, a, b)
            case Some(e) => Genuine(h, e)
            case None => SameSubtrees(leaves, level, a, b)
    decreases level
  {
    var width := Width(|leaves|, level);
    if a < width {
      NodeIsHashed(h, leaves, level, a);
    }
    if b < width {
      NodeIsHashed(h, leaves, level, b);
    }
    if a < width && b < width && level > 0 && Hashed(h, leaves, level, a) == Hashed(h, leaves, level, b) {
      NodeBytesInjective(Node(h, leaves, level - 1, 2 * a), Node(h, leaves, level - 1, 2 * a + 1),
                         Node(h, leaves, level - 1, 2 * b), Node(h, leaves, level - 1, 2 * b + 1));
      CompareIsGenuine(h, leaves, level - 1, 2 * a, 2 * b);
      CompareIsGenuine(h, leaves, level - 1, 2 * a + 1, 2 * b + 1);
    }
  }

  /** Equal subtrees have equal nodes, for any hash function. */
  lemma {:induction false} SameSubtreesHash(h: Hasher, leaves: seq<Leaf>, level: nat, a: nat, b: nat)
    requires SameSubtrees(leaves, level, a, b)
    ensures Node(h, leaves, level, a) == Node(h, leaves, level, b)
    decreases level
  {
    if a < Width(|leaves|, level) && level > 0 {
      SameSubtreesHash(h, leaves, level - 1, 2 * a, 2 * b);
      SameSubtreesHash(h, leaves, level - 1, 2 * a + 1, 2 * b + 1);
    }
  }

  /**
   A member under an older topmost node than the last leaf: if the two nodes stand
   above the same leaf bytes, its proof is accepted; and if its proof is accepted
   they do, or there is genuine evidence against the hash function.
   */
  lemma AcceptedElsewhere(h: Hasher, height: nat, leaves: seq<Leaf>, key: Bytes)
    requires leaves != [] && key in LastIndexes(leaves)
    ensures var t, a, b := Build(h, height, leaves), Up(LastIndexes(leaves)[key], height), Up(|leaves| - 1, height);
            && Proved(t, key).Some?
            && var accepted := Verifies(h, t.root, key, Proved(t, key).value.leaf.value, Proved(t, key).value);
               && (SameSubtrees(leaves, height, a, b) ==> accepted)
               && (accepted ==>
                     match Compare(h, leaves, height, a, b)
                     case Some(e) => Genuine(h, e)
                     case None => SameSubtrees(leaves, height, a, b))
  {
    var a, b := Up(LastIndexes(leaves)[key], height), Up(|leaves| - 1, height);
    LastInsertion(leaves, key);
    ProofOfMember(h, height, leaves, key);
    if SameSubtrees(leaves, height, a, b) {
      SameSubtreesHash(h, leaves, height, a, b);
    }
    if Node(h, leaves, height, a) == Node(h, leaves, height, b) {
      CompareIsGenuine(h, leaves, height, a, b);
    }
  }

  /** What equal subtrees are, leaf by leaf. */
  lemma {:induction false} SameLeaves(leaves: seq<Leaf>, level: nat, a: nat, b: nat, j: nat)
    requires SameSubtrees(leaves, level, a, b) && j < PowerOfTwo(level)
    ensures var x, y := a * PowerOfTwo(level) + j, b * PowerOfTwo(level) + j;
            && (x < |leaves| <==> y < |leaves|)
            && (x < |leaves| ==> LeafBytes(leaves[x].key, leaves[x].value) == LeafBytes(leaves[y].key, leaves[y].value))
    decreases level
  {
    var width := Width(|leaves|, level);
    if a >= width {
      BeyondWidth(|leaves|, level, a, j);
      BeyondWidth(|leaves|, level, b, j);
    } else if level > 0 {
      var half := PowerOfTwo(level - 1);
      Halves(a, half);
      Halves(b, half);
      if j < half {
        SameLeaves(leaves, level - 1, 2 * a, 2 * b, j);
      } else {
        SameLeaves(leaves, level - 1, 2 * a + 1, 2 * b + 1, j - half);
      }
    }
  }

  lemma Halves(a: nat, half: nat)
    ensures a * (2 * half) == 2 * a * half
    ensures (2 * a + 1) * half == 2 * a * half + half
  {
  }

  lemma BeyondWidth(count: nat, level: nat, index: nat, j: nat)
    requires index >= Width(count, level)
    ensures index * PowerOfTwo(level) + j >= count
  {
    WidthRoundsUp(count, level);
    Scale(Width(count, level), index, PowerOfTwo(level));
  }

  // A member that is rejected.

  /** A hash function that keeps the first 32 bytes. */
  function FirstBytes(bytes: Bytes): Digest {
    (bytes + Zeros(DIGEST_SIZE))[..DIGEST_SIZE]
  }

  lemma FirstBytesDiffer(a: byte, b: byte)
    requires a != b
    ensures HashLeaf(FirstBytes, Leaf([a], [])) != HashLeaf(FirstBytes, Leaf([b], []))
  {
    var x, y := LeafBytes([a], []), LeafBytes([b], []);
    assert |Ascii("leaf:")| == 5 && |Ascii(":")| == 1;
    assert x[5] == a && y[5] == b;
    assert FirstBytes(x)[5] == x[5] && FirstBytes(y)[5] == y[5];
  }

  /** A tree of height 0 holds one leaf. After a second insert the proof of the first member is rejected. */
  lemma RejectedMember()
    ensures var t := Run(FirstBytes, 0, [Add(Leaf([1], [])), Add(Leaf([2], []))]).tree;
            && Proved(t, [1]).Some? && Proved(t, [1]).value.leaf == Leaf([1], [])
            && !Verifies(FirstBytes, t.root, [1], [], Proved(t, [1]).value)
  {
    var first, second := Leaf([1], []), Leaf([2], []);
    var steps := [Add(first), Add(second)];
    assert steps[..1] == [Add(first)] && [Add(first)][..0] == [];
    assert HistoryOf([Add(first)]).leaves == [] + [first];
    assert HistoryOf(steps).leaves == [first] + [second] == [first, second];
    RunIsRebuild(FirstBytes, 0, steps);
    var leaves := [first, second];
    assert leaves[..1] == [first] && [first][..0] == [];
    assert LastIndexes([first]) == map[[1] := 0];
    assert LastIndexes(leaves)[[1]] == 0;
    ProofOfMember(FirstBytes, 0, leaves, [1]);
    FirstBytesDiffer(1, 2);
  }
}
