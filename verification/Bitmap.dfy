// The in-use bitmap of 5/xv6/fs.c:52-96 and 5/xv6/mkfs.c:310-325: bit b of the flattened
// bitmap blocks says whether disk block b is in use.
module Bitmap {

  const BLOCK_BITS := 4096       // BPB, the bits of one bitmap block
  const BLOCK_BYTES := 512       // BSIZE

  /** 1 << k */
  function Mask(k: nat): bv8
    requires k < 8
  {
    if k == 0 then 1 else if k == 1 then 2 else if k == 2 then 4 else if k == 3 then 8
    else if k == 4 then 16 else if k == 5 then 32 else if k == 6 then 64 else 128
  }

  predicate InUse(bits: seq<bv8>, b: nat) {
    b / 8 < |bits| && bits[b / 8] & Mask(b % 8) != 0
  }

  /** The first n blocks are all in use. */
  ghost predicate AllInUse(bits: seq<bv8>, n: nat) {
    forall c :: 0 <= c < n ==> InUse(bits, c)
  }

  function Marked(bits: seq<bv8>, b: nat): seq<bv8>
    requires b / 8 < |bits|
  {
    bits[b / 8 := bits[b / 8] | Mask(b % 8)]
  }

  function Cleared(bits: seq<bv8>, b: nat): seq<bv8>
    requires b / 8 < |bits|
  {
    bits[b / 8 := bits[b / 8] & !Mask(b % 8)]
  }

  lemma MaskApart(x: bv8, i: nat, j: nat)
    requires i < 8 && j < 8
    ensures (x | Mask(i)) & Mask(i) != 0
    ensures (x & !Mask(i)) & Mask(i) == 0
    ensures i != j ==> (x | Mask(i)) & Mask(j) == x & Mask(j)
    ensures i != j ==> (x & !Mask(i)) & Mask(j) == x & Mask(j)
  {
    if i != j {
      assert Mask(i) & Mask(j) == 0;
      MaskFacts(x, Mask(i), Mask(j));
    }
  }

  lemma MaskFacts(x: bv8, m: bv8, n: bv8)
    requires m & n == 0
    ensures (x | m) & n == x & n
    ensures (x & !m) & n == x & n
  {
  }

  /** Marking a block changes that block's bit and no other. */
  lemma MarkedOnly(bits: seq<bv8>, b: nat, c: nat)
    requires b / 8 < |bits| && c / 8 < |bits|
    ensures InUse(Marked(bits, b), c) <==> c == b || InUse(bits, c)
  {
    hide Mask;
    MaskApart(bits[b / 8], b % 8, c % 8);
  }

  lemma ClearedOnly(bits: seq<bv8>, b: nat, c: nat)
    requires b / 8 < |bits| && c / 8 < |bits|
    ensures InUse(Cleared(bits, b), c) <==> c != b && InUse(bits, c)
  {
    hide Mask;
    MaskApart(bits[b / 8], b % 8, c % 8);
  }

  lemma BitOf(bits: seq<bv8>, b: nat, bi: nat)
    requires b % BLOCK_BITS == 0 && b / 8 + BLOCK_BYTES <= |bits| && bi < BLOCK_BITS
    ensures InUse(bits, b + bi) <==> bits[b / 8 + bi / 8] & Mask(bi % 8) != 0
    ensures (b + bi) / 8 < |bits|
  {
    hide Mask;
    ByteOf(b, bi);
  }

  lemma ByteOf(b: nat, bi: nat)
    requires b % BLOCK_BITS == 0 && bi < BLOCK_BITS
    ensures (b + bi) / 8 == b / 8 + bi / 8 < b / 8 + BLOCK_BYTES && (b + bi) % 8 == bi % 8
  {
    var q := b / BLOCK_BITS * BLOCK_BYTES;
    assert b == 8 * q;
    AddEights(q, bi);
  }

  lemma AddEights(q: nat, x: nat)
    ensures (8 * q) / 8 == q && (8 * q + x) / 8 == q + x / 8 && (8 * q + x) % 8 == x % 8
  {
  }

  /** The inner loop of balloc: bitmap block b / BPB. */
  method ScanBlock(bits: seq<bv8>, b: nat) returns (found: bool, r: nat)
    requires b % BLOCK_BITS == 0 && b / 8 + BLOCK_BYTES <= |bits| && AllInUse(bits, b)
    ensures found ==> r / 8 < |bits| && !InUse(bits, r) && AllInUse(bits, r)
    ensures !found ==> AllInUse(bits, b + BLOCK_BITS)
  {
    hide Mask, InUse;
    var bi := 0;
    while bi < BLOCK_BITS
      invariant 0 <= bi <= BLOCK_BITS && AllInUse(bits, b + bi)
    {
      BitOf(bits, b, bi);
      if bits[b / 8 + bi / 8] & Mask(bi % 8) == 0 {
        return true, b + bi;
      }
      bi := bi + 1;
    }
    return false, 0;
  }

  /** The scan of balloc over the bitmap blocks that cover size blocks: the lowest clear bit, if any.
      It lies on the disk exactly if some block of the disk is free. */
  method FirstClear(bits: seq<bv8>, size: nat) returns (found: bool, r: nat)
    requires |bits| >= BLOCK_BYTES * (size / BLOCK_BITS + 1)
    ensures found ==> r / 8 < |bits| && !InUse(bits, r) && AllInUse(bits, r)
    ensures !found ==> AllInUse(bits, size)
    ensures found && r < size <==> !AllInUse(bits, size)
  {
    hide InUse;
    var b := 0;
    while b < size
      invariant b % BLOCK_BITS == 0 && AllInUse(bits, b)
    {
      InRange(b, size, |bits|);
      found, r := ScanBlock(bits, b);
      if found {
        return;
      }
      b := b + BLOCK_BITS;
    }
    return false, 0;
  }

  lemma InRange(b: nat, size: nat, n: nat)
    requires b < size && b % BLOCK_BITS == 0 && n >= BLOCK_BYTES * (size / BLOCK_BITS + 1)
    ensures b / 8 + BLOCK_BYTES <= n
  {
    assert b / 8 == b / BLOCK_BITS * BLOCK_BYTES;
  }
}
