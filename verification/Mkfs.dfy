// The image builder of 5/xv6/mkfs.c: blocks are handed out in order and the bitmap is written
// last. It establishes the invariant that the file system of 5/xv6/fs.c keeps.
module Mkfs {
  import opened Bitmap
  import opened Common
  import opened Fs

  const INODES_PER_BLOCK := 8    // IPB

  /** Everything before the data blocks: boot block, super block, inodes, bitmap. */
  function Reserved(ninodes: nat, size: nat): nat {
    ninodes / INODES_PER_BLOCK + 3 + size / BLOCK_BITS + 1
  }

  /** The inode's block and the bit's block, as the file system finds them, lie behind the super block and
      before the data, inodes before bits; and no more is reserved than holds every bit. */
  lemma ReservedHolds(ninodes: nat, size: nat, i: nat, b: nat)
    requires i < ninodes && b < size
    ensures 1 < i / 8 + 2 < b / 4096 + ninodes / 8 + 3 < Reserved(ninodes, size)
    ensures Reserved(ninodes, size) == size / 4096 + ninodes / 8 + 4
  {
    assert i / 8 <= ninodes / 8 && b / 4096 <= size / 4096;
  }

  /** Blocks from n on are free, and only those. */
  ghost predicate FreeFrom(role: seq<Role>, n: nat) {
    forall b :: 0 <= b < |role| ==> (role[b].Free? <==> b >= n)
  }

  class Builder {
    var disk: seq<seq<byte>>
    var inodes: seq<Inode>
    var freeblock: nat           // the source's usedblocks counts the same
    ghost var role: seq<Role>

    ghost function S(): State
      reads this
    {
      State(disk, inodes, role)
    }

    ghost predicate Building()
      reads this
    {
      Valid(S()) && TailZero(S()) && FreeFrom(role, freeblock)
    }

    /** mkfs: an image of zeros */
    constructor (ninodes: nat, size: nat)
      requires Reserved(ninodes, size) <= size < MAX_BLOCKS
      ensures Building() && |disk| == size && |inodes| == ninodes && freeblock == Reserved(ninodes, size)
      ensures forall i :: 0 <= i < ninodes ==> HasInode(S(), i) && Contents(S(), i) == []
      ensures |role| == size && forall b :: 0 <= b < size ==> role[b] == if b < freeblock then Meta else Free
    {
      freeblock := Reserved(ninodes, size);
      disk := seq(size, _ => ZeroBlock());
      inodes := seq(ninodes, _ => EmptyInode(false));
      role := seq(size, b => if b < Reserved(ninodes, size) then Meta else Free);
      new;
      EmptyImage(S());
    }

    /** The block of iappend for file block fbn, taking the next free blocks if needed; no room is reported. */
    method Block(i: nat, fbn: nat) returns (ok: bool, b: nat)
      requires Valid(S()) && FreeFrom(role, freeblock) && HasInode(S(), i) && !inodes[i].extent
      modifies this
      ensures Valid(S()) && FreeFrom(role, freeblock)
      ensures ok <==> old(BlockHalt(S(), i, fbn)) == Never
      ensures ok ==> Grew(old(S()), S(), i, fbn, b) && fbn < MAXFILE && freeblock <= old(freeblock) + 2
      ensures !ok ==> SameBytes(old(S()), S()) && (fbn >= MAXFILE || freeblock >= |disk|)
    {
      hide Valid, Grew, SameBytes, Lookup, BlockHalt, FreeBlocks;
      ghost var s0 := S();
      Shape(s0);
      SameSelf(s0);
      FreeCount(role, freeblock);
      assert fbn >= NDIRECT && inodes[i].addrs[NDIRECT] == 0 ==> Lookup(s0, i, fbn) == 0 by {
        if fbn >= NDIRECT && inodes[i].addrs[NDIRECT] == 0 { NoPointers(s0, i, fbn); }
      }
      BlockHaltPlain(s0, i, fbn);
      if fbn >= MAXFILE {
        return false, 0;
      }
      if fbn < NDIRECT {
        DirectLookup(s0, i, fbn);
        if inodes[i].addrs[fbn] != 0 {
          GrewSelf(s0, i, fbn);
          return true, inodes[i].addrs[fbn];
        }
        if freeblock >= |disk| {
          return false, 0;
        }
        b := freeblock;
        DirectMapped(s0, i, fbn, b);
        inodes := inodes[i := inodes[i].(addrs := inodes[i].addrs[fbn := b])];
        role := role[b := Data(i, fbn)];
        freeblock := freeblock + 1;
        GrewMapped(s0, S(), i, fbn, b);
        return true, b;
      }
      if inodes[i].addrs[NDIRECT] == 0 {
        if freeblock >= |disk| {
          return false, 0;
        }
        var x := freeblock;
        NoPointers(s0, i, fbn);
        IndirectTaken(s0, i, x);
        IndirectSame(s0, i, x);
        inodes := inodes[i := inodes[i].(addrs := inodes[i].addrs[NDIRECT := x])];
        role := role[x := Indirect(i)];
        freeblock := freeblock + 1;
        FreeCount(role, freeblock);
        ghost var m := S();
        ok, b := PointerBlock(i, fbn);
        if ok {
          GrewBoth(s0, m, S(), i, fbn, x, b);
        } else {
          SameStep(s0, m, S());
        }
        return;
      }
      ok, b := PointerBlock(i, fbn);
    }

    method PointerBlock(i: nat, fbn: nat) returns (ok: bool, b: nat)
      requires Valid(S()) && FreeFrom(role, freeblock) && HasInode(S(), i) && !inodes[i].extent
      requires NDIRECT <= fbn < MAXFILE && inodes[i].addrs[NDIRECT] != 0
      modifies this
      ensures Valid(S()) && FreeFrom(role, freeblock) && |disk| == |old(disk)|
      ensures ok <==> old(Lookup(S(), i, fbn)) != 0 || old(freeblock) < |old(disk)|
      ensures ok ==> Grew(old(S()), S(), i, fbn, b) && freeblock <= old(freeblock) + 1
      ensures !ok ==> SameBytes(old(S()), S()) && freeblock >= |disk|
    {
      hide Valid, Grew, SameBytes, Lookup;
      ghost var s0 := S();
      Shape(s0);
      SameSelf(s0);
      PointerLookup(s0, i, fbn);
      var x := inodes[i].addrs[NDIRECT];
      b := GetWord(disk[x], fbn - NDIRECT);
      if b != 0 {
        GrewSelf(s0, i, fbn);
        return true, b;
      }
      if freeblock >= |disk| {
        return false, 0;
      }
      b := freeblock;
      PointerMapped(s0, i, fbn, b);
      disk := disk[x := PutWord(disk[x], fbn - NDIRECT, b)];
      role := role[b := Data(i, fbn)];
      freeblock := freeblock + 1;
      GrewMapped(s0, S(), i, fbn, b);
      return true, b;
    }

    /** The loop of iappend */
    method AppendBlocks(i: nat, src: seq<byte>, start: nat) returns (ok: bool)
      requires Valid(S()) && FreeFrom(role, freeblock) && HasInode(S(), i) && !inodes[i].extent
      modifies this
      ensures ok <==> old(RangeHalt(S(), i, start / BSIZE, SpanEnd(start, |src|))) == Never
      ensures ok ==>
        && Valid(S()) && FreeFrom(role, freeblock) && HasInode(S(), i) && Overwritten(old(S()), S(), i, start, src, |src|)
        && (src != [] ==> start + |src| <= MAXFILE * BSIZE)
    {
      hide Valid, Grew, SameBytes, Lookup, At, Overwritten, Onward, RangeHalt, BlockHalt, ExtMap, FreeFrom, FreeBlocks, PlainMap;
      ghost var s0 := S();
      var n, tot := |src|, 0;
      ghost var blk, end := start / BSIZE, SpanEnd(start, n);
      WroteNothing(s0, i, start, src);
      OnwardStart(s0, i, blk, end);
      while tot < n
        invariant 0 <= tot <= n && Valid(S()) && FreeFrom(role, freeblock) && HasInode(S(), i)
        invariant Overwritten(s0, S(), i, start, src, tot)
        invariant tot > 0 ==> start + tot <= MAXFILE * BSIZE
        invariant (if tot < n then blk == (start + tot) / BSIZE else blk == end) && Onward(s0, S(), i, start / BSIZE, blk, end)
      {
        ghost var s1 := S();
        var off := start + tot;
        OverwriteSizes(s0, s1, i, start, src, tot);
        var m := Min(n - tot, (off / BSIZE + 1) * BSIZE - off);
        NextBlock(off, n - tot, m);
        SpanTail(start, n, tot);
        var b;
        ok, b := Block(i, off / BSIZE);
        if !ok {
          OnwardStops(s0, s1, i, start / BSIZE, blk, end);
          return false;
        }
        GrewFacts(s1, S(), i, off / BSIZE, b);
        OnwardStep(s0, s1, S(), i, start / BSIZE, blk, end, b);
        WithinPointers(off, m);
        ghost var s2 := S();
        PatchOverwrites(s2, i, off, src[tot..tot + m], b);
        disk := disk[b := Patched(disk[b], off - off / BSIZE * BSIZE, src[tot..tot + m])];
        OnwardPatched(s0, s2, i, start / BSIZE, blk + 1, end, off / BSIZE, b, disk[b]);
        OverwriteMore(s0, s1, s2, S(), i, start, src, tot, m);
        tot := tot + m;
        blk := blk + 1;
      }
      OnwardEnd(s0, S(), i, start / BSIZE, end);
      return true;
    }

    /** iappend: the bytes go to the end of the file; it aborts exactly if the blocks cannot be had */
    method Iappend(i: nat, src: seq<byte>) returns (ok: bool)
      requires Building() && HasInode(S(), i) && !inodes[i].extent
      modifies this
      ensures ok <==> old(RangeHalt(S(), i, inodes[i].size / BSIZE, SpanEnd(inodes[i].size, |src|))) == Never
      ensures ok ==> Building() && |inodes| == |old(inodes)| && OneFile(old(S()), S(), i, old(Contents(S(), i)) + src)
    {
      hide Valid, TailZero, At, Overwritten, Contents, Wrote, OneFile, RangeHalt, FreeFrom;
      ghost var s0 := S();
      var start, n := inodes[i].size, |src|;
      TailSize(s0, i);
      ok := AppendBlocks(i, src, start);
      if !ok {
        return;
      }
      ghost var s3 := S();
      OverwriteSizes(s0, s3, i, start, src, n);
      WroteSize(s0, s3, i, start, src);
      inodes := inodes[i := inodes[i].(size := start + n)];
      WroteTail(s0, S(), i, start, src);
      WroteFile(s0, S(), i, start, src);
      AppendSplice(Contents(s0, i), src);
      OneFileShape(s0, S(), i, Contents(s0, i) + src);
    }

    /** add_dir rounds the size of a directory up to the next whole block. */
    method RoundSize(i: nat)
      requires Building() && HasInode(S(), i) && !inodes[i].extent
      modifies this`inodes
      ensures Building() <==> old(inodes)[i].size < MAXFILE * BSIZE
      ensures HasInode(S(), i) &&
        ((exists off :: 0 <= off < inodes[i].size && Unreadable(S(), i, off)) <==> old(inodes)[i].size >= MAXFILE * BSIZE)
      ensures OneFile(old(S()), S(), i, old(Contents(S(), i)) + seq(BSIZE - old(inodes)[i].size % BSIZE, _ => 0))
    {
      hide Valid, At, OneFile, TailZero, Unreadable;
      var off := (inodes[i].size / BSIZE + 1) * BSIZE;
      TailSize(S(), i);
      SeekContents(S(), i, off);
      SeekReadable(S(), i, off);
      inodes := inodes[i := inodes[i].(size := off)];
    }

    /** balloc(usedblocks): the bitmap of everything handed out so far; the image is complete. */
    method Finish() returns (fs: FileSystem)
      requires Building() && freeblock < BLOCK_BITS                  // the source asserts this
      ensures fresh(fs) && fs.Good() && fs.S() == S()
    {
      hide Valid, TailZero, InUse;
      Shape(S());
      var bits: seq<bv8> := seq(BLOCK_BYTES * (|disk| / BLOCK_BITS + 1), _ => 0);
      var i := 0;
      NothingInUse(bits);
      while i < freeblock
        invariant 0 <= i <= freeblock && |bits| == BLOCK_BYTES * (|disk| / BLOCK_BITS + 1)
        invariant forall c: nat :: c < 8 * |bits| ==> (InUse(bits, c) <==> c < i)
      {
        forall c: nat | c < 8 * |bits| ensures InUse(Marked(bits, i), c) <==> c == i || InUse(bits, c) {
          MarkedOnly(bits, i, c);
        }
        bits := Marked(bits, i);
        i := i + 1;
      }
      assert BitsOk(bits, role) by {
        forall b | 0 <= b < |role| ensures InUse(bits, b) <==> !role[b].Free? {
          BitInside(b, |role|);
        }
      }
      fs := new FileSystem(bits, disk, inodes, role);
    }
  }

  /** An image of zeros with empty inodes is in order. */
  lemma EmptyImage(s: State)
    requires 0 < |s.role| == |s.disk| < MAX_BLOCKS && s.role[0] == Meta
    requires forall b :: 0 <= b < |s.role| ==> (s.role[b] == Meta || s.role[b] == Free) && s.disk[b] == ZeroBlock()
    requires forall i :: 0 <= i < |s.inodes| ==> s.inodes[i] == EmptyInode(false)
    ensures Valid(s) && TailZero(s)
  {
    forall i, m: nat | 0 <= i < |s.inodes| ensures Lookup(s, i, m) == 0 {
    }
    forall i | 0 <= i < |s.inodes| ensures InodeOk(s, i) {
      forall m | 0 <= m ensures MappedOk(s, i, m) {
        assert Lookup(s, i, m) == 0;
      }
    }
    forall b | 0 <= b < |s.role| ensures BlockOk(s, b) {
    }
  }

  /** While blocks are handed out in order, counting the free ones is a subtraction. */
  lemma FreeCount(role: seq<Role>, n: nat)
    requires FreeFrom(role, n)
    ensures |FreeBlocks(role)| == if n <= |role| then |role| - n else 0
  {
    assert FreeBlocks(role) == Between(n, |role|);
  }

  lemma NothingInUse(bits: seq<bv8>)
    requires forall x :: 0 <= x < |bits| ==> bits[x] == 0
    ensures forall c: nat :: !InUse(bits, c)
  {
    hide Mask;
  }

  lemma WithinPointers(off: nat, m: nat)
    requires off / BSIZE < MAXFILE && m <= (off / BSIZE + 1) * BSIZE - off
    ensures off - off / BSIZE * BSIZE == off % BSIZE && off % BSIZE + m <= BSIZE && off + m <= MAXFILE * BSIZE
  {
  }

  lemma AppendSplice(c: seq<byte>, src: seq<byte>)
    ensures Splice(c, |c|, src) == c + src
  {
  }

  lemma OneFileShape(s: State, s': State, i: nat, c: seq<byte>)
    requires OneFile(s, s', i, c)
    ensures |s'.inodes| == |s.inodes|
  {
  }

  lemma FreeRun(role: seq<Role>, n: nat)
    requires FreeFrom(role, n) && 1 <= n && n + 256 <= |role|
    ensures LongRun(role)
  {
    assert role[n].Free? && !role[n - 1].Free?;
    assert FirstFree(role, 0) == n;
  }

  lemma NothingOwned(s: State, role': seq<Role>, i: nat)
    requires Released(s.role, role', i) && forall b :: 0 <= b < |s.role| ==> !OwnedBy(s.role[b], i)
    ensures role' == s.role
  {
  }

  /** From a new image to the carry: an inode is made an extent file and written once. */
  method CarryFromImage(ninodes: nat, size: nat, i: nat, src: seq<byte>) returns (fs: FileSystem, r: WriteResult)
    requires i < ninodes && Reserved(ninodes, size) < BLOCK_BITS
    requires Reserved(ninodes, size) + 256 <= size < MAX_BLOCKS && 255 * BSIZE < |src| < WORD
    ensures r == WriteHalt(Carry) && !Valid(fs.S())
  {
    hide Valid, TailZero, BitsOk, RangeHalt, Laid, LongRun, FirstFree, Contents, AbsOf, Apply, FreeBlocks, NeedRange, OneFile, Overwritten;
    var builder := new Builder(ninodes, size);
    fs := builder.Finish();
    FreeRun(fs.role, builder.freeblock);
    ghost var s := fs.S();
    fs.Recreate(i, true);
    NothingOwned(s, fs.role, i);
    CarryIsReal(fs.S(), i, src);
    r := fs.Writei(i, src, 0);
  }
}
