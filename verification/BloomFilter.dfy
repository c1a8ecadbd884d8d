/**
 The bloom filter beside every run. The CRC-32 function it hashes with is a
 parameter: nothing below depends on which function it is.
 */
module BloomFilter {
  import opened ByteStrings
  import opened Keys

  const BITS_PER_KEY: nat := 10
  const NUM_HASHES: nat := 7

  type Crc = Bytes -> nat

  datatype Filter = Filter(bits: seq<bv8>, numBits: nat, numHashes: nat)

  /** `1 << bit` in a byte. */
  function Mask(bit: nat): bv8
    requires bit < 8
  {
    match bit
    case 0 => 1
    case 1 => 2
    case 2 => 4
    case 3 => 8
    case 4 => 16
    case 5 => 32
    case 6 => 64
    case _ => 128
  }

  lemma MaskTest(b: bv8, i: nat, j: nat)
    requires i < 8 && j < 8
    ensures ((b | Mask(i)) & Mask(j)) != 0 <==> i == j || (b & Mask(j)) != 0
    ensures (0 as bv8 & Mask(j)) == 0
  {
  }

  /** Whether bit `pos` is set in an array of bytes. */
  predicate BitSet(bits: seq<bv8>, pos: nat)
    requires pos / 8 < |bits|
  {
    (bits[pos / 8] & Mask(pos % 8)) != 0
  }

  /** The bit that hash number `seed` picks for `key`. */
  function BitFor(crc: Crc, key: Key, seed: nat, numBits: nat): (pos: nat)
    requires numBits > 0
    ensures pos < numBits
  {
    crc(LittleEndian(seed, 4) + key) % numBits
  }

  function ByteCount(numBits: nat): nat {
    (numBits + 7) / 8
  }

  ghost predicate Marked(crc: Crc, keys: seq<Key>, seeds: nat, numBits: nat, pos: nat)
    requires numBits > 0
  {
    exists k, i :: 0 <= k < |keys| && 0 <= i < seeds && BitFor(crc, keys[k], i, numBits) == pos
  }

  /** The filter holds exactly the bits its keys hash to. */
  ghost predicate Covers(crc: Crc, f: Filter, keys: seq<Key>) {
    && f.numHashes == NUM_HASHES
    && f.numBits == |keys| * BITS_PER_KEY
    && |f.bits| == ByteCount(f.numBits)
    && (f.numBits > 0 ==>
          forall pos: nat | pos < f.numBits ::
            BitSet(f.bits, pos) <==> Marked(crc, keys, NUM_HASHES, f.numBits, pos))
  }

  method SetBit(bits: array<bv8>, pos: nat)
    requires pos / 8 < bits.Length
    modifies bits
    ensures forall p: nat | p / 8 < bits.Length ::
              BitSet(bits[..], p) <==> p == pos || BitSet(old(bits[..]), p)
  {
    ghost var before := bits[..];
    bits[pos / 8] := bits[pos / 8] | Mask(pos % 8);
    forall p: nat | p / 8 < bits.Length
      ensures BitSet(bits[..], p) <==> p == pos || BitSet(before, p)
    {
      OneMoreBit(before, bits[..], pos, p);
    }
  }

  lemma OneMoreBit(before: seq<bv8>, after: seq<bv8>, pos: nat, p: nat)
    requires pos / 8 < |before| == |after| && p / 8 < |before|
    requires after[pos / 8] == before[pos / 8] | Mask(pos % 8)
    requires p / 8 != pos / 8 ==> after[p / 8] == before[p / 8]
    ensures BitSet(after, p) <==> p == pos || BitSet(before, p)
  {
    if p / 8 == pos / 8 {
      MaskTest(before[p / 8], pos % 8, p % 8);
    }
  }

  method FromKeys(crc: Crc, keys: seq<Key>) returns (f: Filter)
    ensures Covers(crc, f, keys)
  {
    var numBits := |keys| * BITS_PER_KEY;
    var bits := new bv8[ByteCount(numBits)](_ => 0);
    assert forall p: nat | p < numBits :: !BitSet(bits[..], p);
    for k := 0 to |keys|
      invariant numBits > 0 ==> forall p: nat | p < numBits ::
        BitSet(bits[..], p) <==> Marked(crc, keys[..k], NUM_HASHES, numBits, p)
    {
      ghost var before := bits[..];
      for i := 0 to NUM_HASHES
        invariant forall p: nat | p < numBits ::
          BitSet(bits[..], p) <==> BitSet(before, p) || Marked(crc, [keys[k]], i, numBits, p)
      {
        ghost var earlier := bits[..];
        var pos := BitFor(crc, keys[k], i, numBits);
        SetBit(bits, pos);
        forall p: nat | p < numBits
          ensures BitSet(bits[..], p) <==> BitSet(before, p) || Marked(crc, [keys[k]], i + 1, numBits, p)
        {
          MarkedBySeed(crc, keys[k], i, numBits, p);
        }
      }
      forall p: nat | p < numBits
        ensures BitSet(bits[..], p) <==> Marked(crc, keys[..k + 1], NUM_HASHES, numBits, p)
      {
        MarkedByKey(crc, keys, k, numBits, p);
      }
    }
    assert keys[..|keys|] == keys;
    f := Filter(bits[..], numBits, NUM_HASHES);
  }

  lemma MarkedBySeed(crc: Crc, key: Key, i: nat, numBits: nat, pos: nat)
    requires numBits > 0
    ensures Marked(crc, [key], i + 1, numBits, pos) <==>
            Marked(crc, [key], i, numBits, pos) || BitFor(crc, key, i, numBits) == pos
  {
    if BitFor(crc, key, i, numBits) == pos {
      assert BitFor(crc, [key][0], i, numBits) == pos;
    }
  }

  lemma MarkedByKey(crc: Crc, keys: seq<Key>, k: nat, numBits: nat, pos: nat)
    requires numBits > 0 && k < |keys|
    ensures Marked(crc, keys[..k + 1], NUM_HASHES, numBits, pos) <==>
            Marked(crc, keys[..k], NUM_HASHES, numBits, pos) || Marked(crc, [keys[k]], NUM_HASHES, numBits, pos)
  {
    if Marked(crc, keys[..k + 1], NUM_HASHES, numBits, pos) {
      var j, i :| 0 <= j < k + 1 && 0 <= i < NUM_HASHES && BitFor(crc, keys[..k + 1][j], i, numBits) == pos;
      if j < k {
        assert BitFor(crc, keys[..k][j], i, numBits) == pos;
      } else {
        assert BitFor(crc, [keys[k]][0], i, numBits) == pos;
      }
    }
    if Marked(crc, keys[..k], NUM_HASHES, numBits, pos) {
      var j, i :| 0 <= j < k && 0 <= i < NUM_HASHES && BitFor(crc, keys[..k][j], i, numBits) == pos;
      assert BitFor(crc, keys[..k + 1][j], i, numBits) == pos;
    }
    if Marked(crc, [keys[k]], NUM_HASHES, numBits, pos) {
      var j, i :| 0 <= j < 1 && 0 <= i < NUM_HASHES && BitFor(crc, [keys[k]][j], i, numBits) == pos;
      assert BitFor(crc, keys[..k + 1][k], i, numBits) == pos;
    }
  }

  /** All bits picked for `key` are set. */
  predicate MightContain(crc: Crc, f: Filter, key: Key)
    requires f.numBits > 0 && |f.bits| == ByteCount(f.numBits)
  {
    forall i | 0 <= i < f.numHashes :: BitSet(f.bits, BitFor(crc, key, i, f.numBits))
  }

  /** The early-exit loop over the hashes. */
  method MightContainLoop(crc: Crc, f: Filter, key: Key) returns (found: bool)
    requires f.numBits > 0 && |f.bits| == ByteCount(f.numBits)
    ensures found <==> MightContain(crc, f, key)
  {
    for i := 0 to f.numHashes
      invariant forall j | 0 <= j < i :: BitSet(f.bits, BitFor(crc, key, j, f.numBits))
    {
      if !BitSet(f.bits, BitFor(crc, key, i, f.numBits)) {
        return false;
      }
    }
    return true;
  }

  /** No false negatives. */
  lemma NoFalseNegatives(crc: Crc, f: Filter, keys: seq<Key>, key: Key)
    requires Covers(crc, f, keys) && key in keys
    ensures f.numBits > 0 && MightContain(crc, f, key)
  {
    var k :| 0 <= k < |keys| && keys[k] == key;
    forall i | 0 <= i < f.numHashes ensures BitSet(f.bits, BitFor(crc, key, i, f.numBits)) {
      assert Marked(crc, keys, NUM_HASHES, f.numBits, BitFor(crc, keys[k], i, f.numBits));
    }
  }

  // ----- What the filter is made of -----

  /** Bits are counted from the low end of each byte. */
  lemma BitSetIsShift(bits: seq<bv8>, pos: nat)
    requires pos / 8 < |bits|
    ensures BitSet(bits, pos) <==> (bits[pos / 8] >> (pos % 8)) & 1 == 1
  {
    ShiftedBit(bits[pos / 8], pos % 8);
  }

  lemma ShiftedBit(b: bv8, i: nat)
    requires i < 8
    ensures (b & Mask(i)) != 0 <==> (b >> i) & 1 == 1
  {
  }

  /** What is hashed: the seed in four bytes, then the key. */
  lemma HashedBytes(crc: Crc, key: Key, seed: nat, numBits: nat)
    requires numBits > 0 && seed < 256
    ensures BitFor(crc, key, seed, numBits) == crc([seed as byte, 0, 0, 0] + key) % numBits
  {
    var zeros := LittleEndian(0, 3);
    assert LittleEndian(0, 2) == [0] + LittleEndian(0, 1) == [0, 0];
    assert zeros == [0] + LittleEndian(0, 2) == [0, 0, 0];
    assert LittleEndian(seed, 4) == [seed as byte] + zeros == [seed as byte, 0, 0, 0];
  }

  /** Ten bits a key, seven hashes, and as many bytes as the bits need. */
  lemma FilterSize(crc: Crc, f: Filter, keys: seq<Key>)
    requires Covers(crc, f, keys)
    ensures f.numBits == 10 * |keys| && f.numHashes == 7
    ensures 8 * |f.bits| - 8 < f.numBits <= 8 * |f.bits|
  {
  }

  /** Bit number `i` of the key is one that a key of the filter hashes to. */
  ghost predicate SharesBit(crc: Crc, keys: seq<Key>, key: Key, i: nat, numBits: nat)
    requires numBits > 0
  {
    exists k, j :: 0 <= k < |keys| && 0 <= j < 7 && BitFor(crc, keys[k], j, numBits) == BitFor(crc, key, i, numBits)
  }

  /** A key is reported present exactly when each of its seven bits is one that some key of the filter hashes to. */
  lemma ReportedExactly(crc: Crc, f: Filter, keys: seq<Key>, key: Key)
    requires Covers(crc, f, keys) && f.numBits > 0
    ensures MightContain(crc, f, key) <==> forall i: nat | i < 7 :: SharesBit(crc, keys, key, i, f.numBits)
  {
    forall i: nat | i < 7
      ensures BitSet(f.bits, BitFor(crc, key, i, f.numBits)) <==> SharesBit(crc, keys, key, i, f.numBits)
    {
      assert BitSet(f.bits, BitFor(crc, key, i, f.numBits)) <==>
             Marked(crc, keys, NUM_HASHES, f.numBits, BitFor(crc, key, i, f.numBits));
    }
    if forall i: nat | i < 7 :: SharesBit(crc, keys, key, i, f.numBits) {
      forall i | 0 <= i < f.numHashes ensures BitSet(f.bits, BitFor(crc, key, i, f.numBits)) {
        assert SharesBit(crc, keys, key, i, f.numBits);
      }
    }
  }
}
