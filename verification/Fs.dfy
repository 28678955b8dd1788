// The block layer and inode contents of 5/xv6/fs.c:52-96, 320-575, run sequentially. Both inode
// layouts, direct plus indirect and packed extents, are shown to hold one byte sequence per file.
// Every disk block has one role, and the invariant ties that role to the pointers on disk.
module Fs {
  import opened Bitmap
  import opened Common

  const BSIZE := 512
  const NDIRECT := 12
  const NINDIRECT := 128
  const MAXFILE := 140
  const SLOTS := 6               // extents in an inode: pairs (address and length, first block)
  const WORD := 0x1_0000_0000
  const MAX_BLOCKS := 0x100_0000 // an extent address has 24 bits

  type byte = x: int | 0 <= x < 256

  datatype Inode = Inode(extent: bool, addrs: seq<nat>, size: nat)

  datatype Role =
    | Free
    | Meta                       // boot block, super block, inodes, bitmap
    | Data(inum: nat, bn: nat)   // block bn of file inum
    | Indirect(inum: nat)        // the block of pointers of file inum

  datatype State = State(disk: seq<seq<byte>>, inodes: seq<Inode>, role: seq<Role>)

  // ------------------------------------------------------- pointers in a block

  function ZeroBlock(): seq<byte> {
    seq(BSIZE, _ => 0)
  }

  /** Word k of a block, low byte first. */
  function GetWord(b: seq<byte>, k: nat): nat
    requires |b| == BSIZE && k < NINDIRECT
  {
    b[4 * k] as int + 0x100 * b[4 * k + 1] as int + 0x1_0000 * b[4 * k + 2] as int + 0x100_0000 * b[4 * k + 3] as int
  }

  function PutWord(b: seq<byte>, k: nat, w: nat): seq<byte>
    requires |b| == BSIZE && k < NINDIRECT && w < WORD
  {
    b[4 * k := w % 0x100][4 * k + 1 := w / 0x100 % 0x100][4 * k + 2 := w / 0x1_0000 % 0x100][4 * k + 3 := w / 0x100_0000]
  }

  lemma PutGet(b: seq<byte>, k: nat, w: nat, j: nat)
    requires |b| == BSIZE && k < NINDIRECT && j < NINDIRECT && w < WORD
    ensures |PutWord(b, k, w)| == BSIZE
    ensures GetWord(PutWord(b, k, w), j) == if j == k then w else GetWord(b, j)
  {
    Digits(w);
  }

  lemma Digits(w: nat)
    requires w < WORD
    ensures w % 0x100 + 0x100 * (w / 0x100 % 0x100) + 0x1_0000 * (w / 0x1_0000 % 0x100) + 0x100_0000 * (w / 0x100_0000) == w
  {
    assert w / 0x1_0000 == w / 0x100 / 0x100;
    assert w / 0x100_0000 == w / 0x1_0000 / 0x100;
  }

  lemma ZeroWord(k: nat)
    requires k < NINDIRECT
    ensures GetWord(ZeroBlock(), k) == 0
  {
  }

  // ----------------------------------------------------------------- extents

  function Base(a: nat): nat {
    a / 256
  }

  function Length(a: nat): nat {
    a % 256
  }

  /** Extent k of the inode covers block bn of the file. */
  predicate Covers(addrs: seq<nat>, k: nat, bn: nat)
    requires |addrs| == NDIRECT + 1 && k < SLOTS
  {
    addrs[2 * k + 1] <= bn < addrs[2 * k + 1] + Length(addrs[2 * k])
  }

  /** The first extent from k on that covers bn, or SLOTS. */
  function SlotOf(addrs: seq<nat>, bn: nat, k: nat): (r: nat)
    requires |addrs| == NDIRECT + 1 && k <= SLOTS
    ensures k <= r <= SLOTS && (r < SLOTS ==> Covers(addrs, r, bn))
    ensures forall j :: k <= j < r ==> !Covers(addrs, j, bn)
    decreases SLOTS - k
  {
    if k == SLOTS || Covers(addrs, k, bn) then k else SlotOf(addrs, bn, k + 1)
  }

  // -------------------------------------------------------------- the mapping

  predicate HasInode(s: State, i: nat) {
    i < |s.inodes| && |s.inodes[i].addrs| == NDIRECT + 1
  }

  /** The disk block that holds block bn of file i, or 0. */
  function Lookup(s: State, i: nat, bn: nat): nat
    requires HasInode(s, i)
  {
    var a := s.inodes[i].addrs;
    if s.inodes[i].extent then
      var k := SlotOf(a, bn, 0);
      if k < SLOTS then Base(a[2 * k]) + (bn - a[2 * k + 1]) else 0
    else if bn < NDIRECT then a[bn]
    else if bn < MAXFILE && a[NDIRECT] != 0 && a[NDIRECT] < |s.disk| && |s.disk[a[NDIRECT]]| == BSIZE then
      GetWord(s.disk[a[NDIRECT]], bn - NDIRECT)
    else 0
  }

  predicate MappedOk(s: State, i: nat, bn: nat)
    requires HasInode(s, i)
  {
    var b := Lookup(s, i, bn);
    b != 0 ==> b < |s.role| && s.role[b] == Data(i, bn)
  }

  /** Block j of an extent (a, first) belongs to file i at the place the extent says. */
  predicate InPlace(role: seq<Role>, i: nat, a: nat, first: nat, j: nat) {
    Base(a) + j < |role| && role[Base(a) + j] == Data(i, first + j)
  }

  /** Extent k is empty, or all its blocks belong to the file at the places it says. */
  ghost predicate SlotOk(s: State, i: nat, k: nat)
    requires HasInode(s, i) && k < SLOTS
  {
    var a, first := s.inodes[i].addrs[2 * k], s.inodes[i].addrs[2 * k + 1];
    if a == 0 then first == 0
    else
      && Length(a) > 0 && 0 < Base(a)
      && (forall j {:trigger InPlace(s.role, i, a, first, j)} :: 0 <= j < Length(a) ==> InPlace(s.role, i, a, first, j))
  }

  /** Extents j and k have no file block in common. */
  predicate SlotsApart(addrs: seq<nat>, j: nat, k: nat)
    requires |addrs| == NDIRECT + 1 && j < SLOTS && k < SLOTS
  {
    || addrs[2 * j + 1] + Length(addrs[2 * j]) <= addrs[2 * k + 1]
    || addrs[2 * k + 1] + Length(addrs[2 * k]) <= addrs[2 * j + 1]
  }

  ghost predicate AllApart(addrs: seq<nat>)
    requires |addrs| == NDIRECT + 1
  {
    forall j, k :: 0 <= j < k < SLOTS ==> SlotsApart(addrs, j, k)
  }

  ghost predicate InodeOk(s: State, i: nat) {
    && HasInode(s, i)
    && (forall bn {:trigger Lookup(s, i, bn)} :: 0 <= bn ==> MappedOk(s, i, bn))
    && var a := s.inodes[i].addrs;
       if s.inodes[i].extent then
         (forall k :: 0 <= k < SLOTS ==> SlotOk(s, i, k)) && AllApart(a)
       else
         a[NDIRECT] != 0 ==> a[NDIRECT] < |s.role| && s.role[a[NDIRECT]] == Indirect(i)
  }

  predicate BlockOk(s: State, b: nat)
    requires b < |s.role| == |s.disk|
  {
    && |s.disk[b]| == BSIZE
    && match s.role[b]
       case Free => s.disk[b] == ZeroBlock()
       case Meta => true
       case Data(i, bn) => HasInode(s, i) && Lookup(s, i, bn) == b
       case Indirect(i) => HasInode(s, i) && !s.inodes[i].extent && s.inodes[i].addrs[NDIRECT] == b
  }

  ghost predicate Valid(s: State) {
    && 0 < |s.role| == |s.disk| < MAX_BLOCKS && s.role[0] == Meta
    && (forall i {:trigger InodeOk(s, i)} :: 0 <= i < |s.inodes| ==> InodeOk(s, i))
    && (forall b {:trigger BlockOk(s, b)} :: 0 <= b < |s.role| ==> BlockOk(s, b))
  }

  /** Byte off of file i; blocks the file does not have read as zero. */
  function At(s: State, i: nat, off: nat): byte
    requires HasInode(s, i)
  {
    var b := Lookup(s, i, off / BSIZE);
    if b != 0 && b < |s.disk| && |s.disk[b]| == BSIZE then s.disk[b][off % BSIZE] else 0
  }

  // ----------------------------------------------------- adding one file block

  /** Only inode i and its own block of pointers may differ. */
  ghost predicate Frame(s: State, s': State, i: nat) {
    && |s'.disk| == |s.disk| && |s'.inodes| == |s.inodes| && |s'.role| == |s.role|
    && HasInode(s, i) && HasInode(s', i) && s'.inodes[i].extent == s.inodes[i].extent && s'.inodes[i].size == s.inodes[i].size
    && (forall j :: 0 <= j < |s.inodes| && j != i ==> s'.inodes[j] == s.inodes[j])
    && (forall b :: 0 <= b < |s.disk| ==>
          s'.disk[b] == s.disk[b] || (!s.inodes[i].extent && b == s.inodes[i].addrs[NDIRECT] != 0 && |s'.disk[b]| == |s.disk[b]|))
  }

  /** The block of pointers of one file is not that of another. */
  lemma OtherLookups(s: State, s': State, i: nat, j: nat, bn: nat)
    requires Valid(s) && Frame(s, s', i) && j < |s.inodes| && j != i
    ensures HasInode(s, j) && HasInode(s', j) && Lookup(s', j, bn) == Lookup(s, j, bn)
  {
    assert InodeOk(s, j);
    assert InodeOk(s, i);
  }

  /** Block bn of file i now lives in b, which was free; every other mapping is as before. */
  ghost predicate Mapped(s: State, s': State, i: nat, bn: nat, b: nat) {
    && Frame(s, s', i) && 0 < b < |s.role| && s.role[b] == Free
    && s'.role == s.role[b := Data(i, bn)]
    && (!s.inodes[i].extent ==> s'.inodes[i].addrs[NDIRECT] == s.inodes[i].addrs[NDIRECT])
    && Lookup(s, i, bn) == 0 && Lookup(s', i, bn) == b
    && (forall m :: 0 <= m && m != bn ==> Lookup(s', i, m) == Lookup(s, i, m))
  }

  /** What the extents of i must still satisfy. */
  ghost predicate ExtentsOk(s: State, i: nat)
    requires HasInode(s, i)
  {
    (forall k :: 0 <= k < SLOTS ==> SlotOk(s, i, k)) && AllApart(s.inodes[i].addrs)
  }

  predicate OwnedBy(r: Role, i: nat) {
    match r
    case Data(j, _) => j == i
    case Indirect(j) => j == i
    case _ => false
  }

  /** An inode stays in order if its pointers and its blocks keep their places. */
  lemma InodeKept(s: State, s': State, j: nat)
    requires InodeOk(s, j) && HasInode(s', j) && |s'.role| == |s.role|
    requires s'.inodes[j].addrs == s.inodes[j].addrs && s'.inodes[j].extent == s.inodes[j].extent
    requires forall m: nat :: Lookup(s', j, m) == Lookup(s, j, m)
    requires forall c :: 0 <= c < |s.role| && OwnedBy(s.role[c], j) ==> s'.role[c] == s.role[c]
    ensures InodeOk(s', j)
  {
    hide Lookup;
    forall m | 0 <= m ensures MappedOk(s', j, m) {
      assert Lookup(s', j, m) == Lookup(s, j, m);
      assert MappedOk(s, j, m);
    }
    if s.inodes[j].extent {
      forall k | 0 <= k < SLOTS ensures SlotOk(s', j, k) {
        assert SlotOk(s, j, k);
        var a, first := s.inodes[j].addrs[2 * k], s.inodes[j].addrs[2 * k + 1];
        if a != 0 {
          forall l | 0 <= l < Length(a) ensures InPlace(s'.role, j, a, first, l) {
            assert InPlace(s.role, j, a, first, l);
          }
        }
      }
    }
  }

  lemma MappedInodes(s: State, s': State, i: nat, bn: nat, b: nat, j: nat)
    requires Valid(s) && Mapped(s, s', i, bn, b) && j < |s.inodes|
    requires s.inodes[i].extent ==> ExtentsOk(s', i)
    ensures InodeOk(s', j)
  {
    assert InodeOk(s, j);
    if j != i {
      forall m: nat ensures Lookup(s', j, m) == Lookup(s, j, m) {
        OtherLookups(s, s', i, j, m);
      }
      InodeKept(s, s', j);
    } else {
      forall m | 0 <= m ensures MappedOk(s', i, m) {
        assert Lookup(s, i, m) == Lookup(s, i, m);
        assert MappedOk(s, i, m);
      }
    }
  }

  lemma MappedBlocks(s: State, s': State, i: nat, bn: nat, b: nat, c: nat)
    requires Valid(s) && Mapped(s, s', i, bn, b) && c < |s.role|
    ensures BlockOk(s', c)
  {
    assert BlockOk(s, c);
    assert InodeOk(s, i);
    if c != b {
      match s.role[c]
      case Data(j, m) =>
        if j != i { OtherLookups(s, s', i, j, m); }
      case _ =>
    }
  }

  lemma MappedValid(s: State, s': State, i: nat, bn: nat, b: nat)
    requires Valid(s) && Mapped(s, s', i, bn, b)
    requires s.inodes[i].extent ==> ExtentsOk(s', i)
    ensures Valid(s')
  {
    forall j | 0 <= j < |s'.inodes| ensures InodeOk(s', j) {
      MappedInodes(s, s', i, bn, b, j);
    }
    forall c | 0 <= c < |s'.role| ensures BlockOk(s', c) {
      MappedBlocks(s, s', i, bn, b, c);
    }
  }

  /** Because a free block is all zero, giving it to a file changes no byte of any file. */
  lemma MappedBytes(s: State, s': State, i: nat, bn: nat, b: nat, j: nat, off: nat)
    requires Valid(s) && Mapped(s, s', i, bn, b) && j < |s.inodes|
    ensures HasInode(s, j) && HasInode(s', j) && At(s', j, off) == At(s, j, off)
  {
    assert InodeOk(s, j);
    assert InodeOk(s, i);
    var m := off / BSIZE;
    if j != i {
      OtherLookups(s, s', i, j, m);
    }
    var c := Lookup(s, j, m);
    assert MappedOk(s, j, m);
    if c != 0 {
      assert BlockOk(s, c);
    } else if Lookup(s', j, m) != 0 {
      assert BlockOk(s, b);
    }
  }

  function WithAddr(s: State, i: nat, k: nat, a: nat): State
    requires HasInode(s, i) && k < NDIRECT + 1
  {
    s.(inodes := s.inodes[i := s.inodes[i].(addrs := s.inodes[i].addrs[k := a])])
  }

  /** bmap gives a direct block to file i. */
  lemma DirectMapped(s: State, i: nat, bn: nat, b: nat)
    requires Valid(s) && HasInode(s, i) && !s.inodes[i].extent && bn < NDIRECT && Lookup(s, i, bn) == 0
    requires b < |s.role| && s.role[b] == Free
    ensures var s' := WithAddr(s, i, bn, b).(role := s.role[b := Data(i, bn)]);
      Mapped(s, s', i, bn, b) && Valid(s')
  {
    var s' := WithAddr(s, i, bn, b).(role := s.role[b := Data(i, bn)]);
    assert InodeOk(s, i);
    assert Mapped(s, s', i, bn, b);
    MappedValid(s, s', i, bn, b);
  }

  /** bmap gives file i its block of pointers: a free block is all zero, so it holds no stale pointer. */
  lemma IndirectTaken(s: State, i: nat, b: nat)
    requires Valid(s) && HasInode(s, i) && !s.inodes[i].extent && s.inodes[i].addrs[NDIRECT] == 0
    requires b < |s.role| && s.role[b] == Free
    ensures var s' := WithAddr(s, i, NDIRECT, b).(role := s.role[b := Indirect(i)]);
      && Valid(s') && Frame(s, s', i) && (forall bn: nat :: Lookup(s', i, bn) == Lookup(s, i, bn))
  {
    var s' := WithAddr(s, i, NDIRECT, b).(role := s.role[b := Indirect(i)]);
    assert InodeOk(s, i);
    assert BlockOk(s, b);
    forall bn: nat ensures Lookup(s', i, bn) == Lookup(s, i, bn) {
      if NDIRECT <= bn < MAXFILE {
        ZeroWord(bn - NDIRECT);
      }
    }
    forall j | 0 <= j < |s'.inodes| ensures InodeOk(s', j) {
      IndirectInodes(s, s', i, b, j);
    }
    forall c | 0 <= c < |s'.role| ensures BlockOk(s', c) {
      assert BlockOk(s, c);
      if c != b && s.role[c].Data? && s.role[c].inum != i {
        OtherLookups(s, s', i, s.role[c].inum, s.role[c].bn);
      }
    }
  }

  lemma IndirectInodes(s: State, s': State, i: nat, b: nat, j: nat)
    requires Valid(s) && Frame(s, s', i) && j < |s.inodes| && b < |s.role| && s.role[b] == Free
    requires s'.role == s.role[b := Indirect(i)] && !s.inodes[i].extent && s'.inodes[i].addrs[NDIRECT] == b
    requires forall bn: nat :: Lookup(s', i, bn) == Lookup(s, i, bn)
    ensures InodeOk(s', j)
  {
    assert InodeOk(s, j);
    if j != i {
      forall m: nat ensures Lookup(s', j, m) == Lookup(s, j, m) {
        OtherLookups(s, s', i, j, m);
      }
      InodeKept(s, s', j);
    } else {
      forall m | 0 <= m ensures MappedOk(s', i, m) {
        assert Lookup(s', i, m) == Lookup(s, i, m);
        assert MappedOk(s, i, m);
      }
    }
  }

  /** bmap gives file i a block through its block of pointers. */
  lemma PointerMapped(s: State, i: nat, bn: nat, b: nat)
    requires Valid(s) && HasInode(s, i) && !s.inodes[i].extent && NDIRECT <= bn < MAXFILE && Lookup(s, i, bn) == 0
    requires b < |s.role| && s.role[b] == Free && s.inodes[i].addrs[NDIRECT] != 0
    ensures var x := s.inodes[i].addrs[NDIRECT];
      && x < |s.disk| && |s.disk[x]| == BSIZE
      && var s' := s.(disk := s.disk[x := PutWord(s.disk[x], bn - NDIRECT, b)], role := s.role[b := Data(i, bn)]);
         Mapped(s, s', i, bn, b) && Valid(s')
  {
    assert InodeOk(s, i);
    var x := s.inodes[i].addrs[NDIRECT];
    assert BlockOk(s, x);
    var s' := s.(disk := s.disk[x := PutWord(s.disk[x], bn - NDIRECT, b)], role := s.role[b := Data(i, bn)]);
    forall m: nat | NDIRECT <= m < MAXFILE ensures Lookup(s', i, m) == if m == bn then b else Lookup(s, i, m) {
      PutGet(s.disk[x], bn - NDIRECT, b, m - NDIRECT);
    }
    PutGet(s.disk[x], bn - NDIRECT, b, 0);
    assert Mapped(s, s', i, bn, b);
    MappedValid(s, s', i, bn, b);
  }

  /** With extents apart, whichever extent covers a block is the one that is found. */
  lemma OneCover(addrs: seq<nat>, k: nat, bn: nat)
    requires |addrs| == NDIRECT + 1 && AllApart(addrs) && k < SLOTS && Covers(addrs, k, bn)
    ensures SlotOf(addrs, bn, 0) == k
  {
    var r := SlotOf(addrs, bn, 0);
    assert SlotsApart(addrs, r, k) || SlotsApart(addrs, k, r) || r == k;
  }

  lemma ExtentAbsent(s: State, i: nat, bn: nat)
    requires Valid(s) && HasInode(s, i) && s.inodes[i].extent
    ensures Lookup(s, i, bn) == 0 <==> SlotOf(s.inodes[i].addrs, bn, 0) == SLOTS
  {
    assert InodeOk(s, i);
    var k := SlotOf(s.inodes[i].addrs, bn, 0);
    if k < SLOTS {
      assert SlotOk(s, i, k);
    }
  }

  /** The two words of every slot but k are the same. */
  ghost predicate SameButSlot(a: seq<nat>, a': seq<nat>, k: nat) {
    && |a| == |a'| == NDIRECT + 1
    && (forall j {:trigger a'[2 * j]} {:trigger a'[2 * j + 1]} :: 0 <= j < SLOTS && j != k ==>
          a'[2 * j] == a[2 * j] && a'[2 * j + 1] == a[2 * j + 1])
  }

  /** A block that slot k covers as before is still found in the slot it was found in. */
  lemma SlotKept(a: seq<nat>, a': seq<nat>, k: nat, m: nat)
    requires SameButSlot(a, a', k) && k < SLOTS
    requires Covers(a', k, m) <==> Covers(a, k, m)
    ensures SlotOf(a', m, 0) == SlotOf(a, m, 0)
  {
    forall j | 0 <= j < SLOTS ensures Covers(a', j, m) <==> Covers(a, j, m) {
      assert j != k ==> a'[2 * j] == a[2 * j];
    }
  }

  /** Slot k gains block bn at disk block b, which continues what it held before. */
  ghost predicate SlotGains(a: seq<nat>, a': seq<nat>, k: nat, bn: nat, b: nat) {
    && SameButSlot(a, a', k) && k < SLOTS
    && a'[2 * k + 1] + Length(a'[2 * k]) == bn + 1 && Length(a'[2 * k]) == Length(a[2 * k]) + 1
    && Base(a'[2 * k]) + Length(a[2 * k]) == b
    && (Length(a[2 * k]) > 0 ==> a'[2 * k + 1] == a[2 * k + 1] && Base(a'[2 * k]) == Base(a[2 * k]))
  }

  lemma GainApart(s: State, i: nat, a': seq<nat>, k: nat, bn: nat, b: nat)
    requires Valid(s) && HasInode(s, i) && s.inodes[i].extent && Lookup(s, i, bn) == 0
    requires SlotGains(s.inodes[i].addrs, a', k, bn, b)
    ensures AllApart(a')
  {
    var a := s.inodes[i].addrs;
    assert InodeOk(s, i);
    ExtentAbsent(s, i, bn);
    assert AllApart(a);
    forall j, l | 0 <= j < l < SLOTS ensures SlotsApart(a', j, l) {
      assert SlotsApart(a, j, l);
      assert SlotOk(s, i, j) && SlotOk(s, i, l);
      assert !Covers(a, j, bn) && !Covers(a, l, bn);
      assert j != k ==> a'[2 * j] == a[2 * j];
      assert l != k ==> a'[2 * l] == a[2 * l];
    }
  }

  lemma GainLookups(s: State, s': State, i: nat, k: nat, bn: nat, b: nat)
    requires Valid(s) && HasInode(s, i) && HasInode(s', i) && s.inodes[i].extent && s'.inodes[i].extent && Lookup(s, i, bn) == 0
    requires SlotGains(s.inodes[i].addrs, s'.inodes[i].addrs, k, bn, b)
    ensures forall m: nat :: Lookup(s', i, m) == if m == bn then b else Lookup(s, i, m)
  {
    var a, a' := s.inodes[i].addrs, s'.inodes[i].addrs;
    assert InodeOk(s, i);
    GainApart(s, i, a', k, bn, b);
    assert Covers(a', k, bn);
    OneCover(a', k, bn);
    hide Valid, InodeOk;
    forall m: nat | m != bn ensures Lookup(s', i, m) == Lookup(s, i, m) {
      GainOther(a, a', k, bn, b, m);
    }
  }

  lemma GainOther(a: seq<nat>, a': seq<nat>, k: nat, bn: nat, b: nat, m: nat)
    requires SlotGains(a, a', k, bn, b) && m != bn
    ensures var r := SlotOf(a, m, 0);
      SlotOf(a', m, 0) == r && (r < SLOTS ==> Base(a'[2 * r]) == Base(a[2 * r]) && a'[2 * r + 1] == a[2 * r + 1])
  {
    SlotKept(a, a', k, m);
    var r := SlotOf(a, m, 0);
    if r < SLOTS && r != k {
      assert a'[2 * r] == a[2 * r] && a'[2 * r + 1] == a[2 * r + 1];
    }
  }

  lemma GainSlots(s: State, s': State, i: nat, k: nat, bn: nat, b: nat)
    requires Valid(s) && HasInode(s, i) && HasInode(s', i) && s.inodes[i].extent && b < |s.role| && s.role[b] == Free
    requires SlotGains(s.inodes[i].addrs, s'.inodes[i].addrs, k, bn, b) && s'.role == s.role[b := Data(i, bn)]
    requires Base(s'.inodes[i].addrs[2 * k]) > 0
    ensures forall j :: 0 <= j < SLOTS ==> SlotOk(s', i, j)
  {
    var a, a' := s.inodes[i].addrs, s'.inodes[i].addrs;
    assert InodeOk(s, i);
    forall j | 0 <= j < SLOTS ensures SlotOk(s', i, j) {
      assert SlotOk(s, i, j);
      if j != k {
        assert a'[2 * j] == a[2 * j] && a'[2 * j + 1] == a[2 * j + 1];
      }
      var x, first := a'[2 * j], a'[2 * j + 1];
      forall l | 0 <= l < Length(x) ensures InPlace(s'.role, i, x, first, l) {
        assert l < Length(a[2 * j]) ==> InPlace(s.role, i, a[2 * j], a[2 * j + 1], l);
      }
    }
  }

  lemma SlotGained(s: State, s': State, i: nat, k: nat, bn: nat, b: nat)
    requires Valid(s) && HasInode(s, i) && s.inodes[i].extent && Lookup(s, i, bn) == 0 && b < |s.role| && s.role[b] == Free
    requires HasInode(s', i) && SlotGains(s.inodes[i].addrs, s'.inodes[i].addrs, k, bn, b)
    requires Base(s'.inodes[i].addrs[2 * k]) > 0
    requires s' == s.(inodes := s.inodes[i := s.inodes[i].(addrs := s'.inodes[i].addrs)], role := s.role[b := Data(i, bn)])
    ensures Mapped(s, s', i, bn, b) && Valid(s')
  {
    GainApart(s, i, s'.inodes[i].addrs, k, bn, b);
    GainLookups(s, s', i, k, bn, b);
    GainSlots(s, s', i, k, bn, b);
    hide Lookup, Valid, SlotGains, SlotOk;
    assert s.role[0] == Meta by { ZeroIsMeta(s); }
    assert Mapped(s, s', i, bn, b);
    MappedValid(s, s', i, bn, b);
  }

  lemma ZeroIsMeta(s: State)
    requires Valid(s)
    ensures 0 < |s.role| && s.role[0] == Meta
  {
  }

  /** bmap opens a new extent of one block in the empty slot k. */
  lemma ExtentOpened(s: State, i: nat, k: nat, bn: nat, b: nat)
    requires Valid(s) && HasInode(s, i) && s.inodes[i].extent && Lookup(s, i, bn) == 0
    requires k < SLOTS && s.inodes[i].addrs[2 * k] == 0 && b < |s.role| && s.role[b] == Free
    ensures var s' := WithAddr(WithAddr(s, i, 2 * k, b * 256 + 1), i, 2 * k + 1, bn).(role := s.role[b := Data(i, bn)]);
      Mapped(s, s', i, bn, b) && Valid(s')
  {
    var s' := WithAddr(WithAddr(s, i, 2 * k, b * 256 + 1), i, 2 * k + 1, bn).(role := s.role[b := Data(i, bn)]);
    ZeroIsMeta(s);
    hide Valid, Lookup;
    assert SlotGains(s.inodes[i].addrs, s'.inodes[i].addrs, k, bn, b);
    SlotGained(s, s', i, k, bn, b);
  }

  lemma NoCarry(a: nat)
    requires Length(a) < 255
    ensures Base(a + 1) == Base(a) && Length(a + 1) == Length(a) + 1
  {
  }

  /** bmap extends the extent in slot k by the block that follows it on the disk and in the file. */
  lemma ExtentExtended(s: State, i: nat, k: nat, bn: nat, b: nat)
    requires Valid(s) && HasInode(s, i) && s.inodes[i].extent && Lookup(s, i, bn) == 0
    requires k < SLOTS && b < |s.role| && s.role[b] == Free
    requires var a := s.inodes[i].addrs; a[2 * k] != 0 && bn == a[2 * k + 1] + Length(a[2 * k]) && b == Base(a[2 * k]) + Length(a[2 * k])
    requires Length(s.inodes[i].addrs[2 * k]) < 255
    ensures var s' := WithAddr(s, i, 2 * k, s.inodes[i].addrs[2 * k] + 1).(role := s.role[b := Data(i, bn)]);
      Mapped(s, s', i, bn, b) && Valid(s')
  {
    var a := s.inodes[i].addrs;
    var s' := WithAddr(s, i, 2 * k, a[2 * k] + 1).(role := s.role[b := Data(i, bn)]);
    SlotInUse(s, i, k);
    ExtendGains(a, k, bn, b);
    hide Valid, Lookup, SlotGains;
    assert s'.inodes[i].addrs == a[2 * k := a[2 * k] + 1];
    SlotGained(s, s', i, k, bn, b);
  }

  lemma SlotInUse(s: State, i: nat, k: nat)
    requires Valid(s) && HasInode(s, i) && s.inodes[i].extent && k < SLOTS && s.inodes[i].addrs[2 * k] != 0
    ensures 0 < Length(s.inodes[i].addrs[2 * k]) && 0 < Base(s.inodes[i].addrs[2 * k])
  {
    assert InodeOk(s, i);
    assert SlotOk(s, i, k);
  }

  lemma ExtendGains(a: seq<nat>, k: nat, bn: nat, b: nat)
    requires |a| == NDIRECT + 1 && k < SLOTS && 0 < Length(a[2 * k]) < 255 && 0 < Base(a[2 * k])
    requires bn == a[2 * k + 1] + Length(a[2 * k]) && b == Base(a[2 * k]) + Length(a[2 * k])
    ensures SlotGains(a, a[2 * k := a[2 * k] + 1], k, bn, b) && Base(a[2 * k] + 1) > 0
  {
    NoCarry(a[2 * k]);
    hide Base, Length;
    var a' := a[2 * k := a[2 * k] + 1];
    forall j | 0 <= j < SLOTS && j != k ensures a'[2 * j] == a[2 * j] && a'[2 * j + 1] == a[2 * j + 1] {
    }
  }

  /** An extent of 255 blocks cannot be extended: the length byte carries into the address,
      and the file loses every block of the extent. */
  lemma ExtendExact(s: State, i: nat, k: nat, bn: nat, b: nat)
    requires Valid(s) && HasInode(s, i) && s.inodes[i].extent && Lookup(s, i, bn) == 0
    requires k < SLOTS && b < |s.role| && s.role[b] == Free
    requires var a := s.inodes[i].addrs; a[2 * k] != 0 && bn == a[2 * k + 1] + Length(a[2 * k]) && b == Base(a[2 * k]) + Length(a[2 * k])
    ensures var s' := WithAddr(s, i, 2 * k, s.inodes[i].addrs[2 * k] + 1).(role := s.role[b := Data(i, bn)]);
      && (Valid(s') <==> Length(s.inodes[i].addrs[2 * k]) < 255)
      && (!Valid(s') ==> forall m :: bn - 255 <= m < bn ==> 0 <= m && Lookup(s, i, m) != 0 && Lookup(s', i, m) == 0)
  {
    var a := s.inodes[i].addrs;
    var s' := WithAddr(s, i, 2 * k, a[2 * k] + 1).(role := s.role[b := Data(i, bn)]);
    assert InodeOk(s, i);
    assert AllApart(a);
    if Length(a[2 * k]) < 255 {
      ExtentExtended(s, i, k, bn, b);
    } else {
      assert Length(a[2 * k] + 1) == 0;
      assert !SlotOk(s', i, k);
      assert !InodeOk(s', i);
      forall m | bn - 255 <= m < bn ensures 0 <= m && Lookup(s, i, m) != 0 && Lookup(s', i, m) == 0 {
        assert Covers(a, k, m);
        OneCover(a, k, m);
        ExtentAbsent(s, i, m);
        CarryUncovers(a, k, m);
      }
    }
  }

  lemma CarryUncovers(a: seq<nat>, k: nat, m: nat)
    requires |a| == NDIRECT + 1 && AllApart(a) && k < SLOTS && Length(a[2 * k]) == 255 && Covers(a, k, m)
    ensures SlotOf(a[2 * k := a[2 * k] + 1], m, 0) == SLOTS
  {
    var a' := a[2 * k := a[2 * k] + 1];
    forall j | 0 <= j < SLOTS ensures !Covers(a', j, m) {
      assert Length(a[2 * k] + 1) == 0;
      if j < k { assert SlotsApart(a, j, k); } else if j > k { assert SlotsApart(a, k, j); }
    }
  }

  // ------------------------------------------------------------ writing bytes

  lemma WrittenLookup(s: State, i: nat, bn: nat, b: nat, data: seq<byte>, j: nat, m: nat)
    requires Valid(s) && b < |s.role| && s.role[b] == Data(i, bn) && |data| == BSIZE && j < |s.inodes|
    ensures HasInode(s, j) && Lookup(s.(disk := s.disk[b := data]), j, m) == Lookup(s, j, m)
  {
    assert InodeOk(s, j);
  }

  lemma DataWritten(s: State, i: nat, bn: nat, b: nat, data: seq<byte>)
    requires Valid(s) && b < |s.role| && s.role[b] == Data(i, bn) && |data| == BSIZE
    ensures Valid(s.(disk := s.disk[b := data]))
  {
    var s' := s.(disk := s.disk[b := data]);
    forall j: nat | j < |s.inodes| ensures InodeOk(s', j) {
      assert InodeOk(s, j);
      forall m: nat ensures Lookup(s', j, m) == Lookup(s, j, m) {
        WrittenLookup(s, i, bn, b, data, j, m);
      }
      InodeKept(s, s', j);
    }
    forall c: nat | c < |s.role| ensures BlockOk(s', c) {
      assert BlockOk(s, c);
      if s.role[c].Data? {
        WrittenLookup(s, i, bn, b, data, s.role[c].inum, s.role[c].bn);
      }
    }
  }

  /** Writing a data block changes those bytes of that file and nothing else. */
  lemma WrittenBytes(s: State, i: nat, bn: nat, b: nat, data: seq<byte>, j: nat, off: nat)
    requires Valid(s) && b < |s.role| && s.role[b] == Data(i, bn) && |data| == BSIZE && j < |s.inodes|
    ensures HasInode(s, j)
    ensures At(s.(disk := s.disk[b := data]), j, off) == if j == i && off / BSIZE == bn then data[off % BSIZE] else At(s, j, off)
  {
    assert InodeOk(s, j);
    assert BlockOk(s, b);
    WrittenLookup(s, i, bn, b, data, j, off / BSIZE);
    assert MappedOk(s, j, off / BSIZE);
  }

  // ---------------------------------------------------------- giving blocks back

  /** Blocks lo..hi of file i, and its block of pointers if all says so. */
  predicate Doomed(r: Role, i: nat, lo: nat, hi: nat, all: bool) {
    match r
    case Data(j, bn) => j == i && lo <= bn < hi
    case Indirect(j) => j == i && all
    case _ => false
  }

  /** Those blocks are free and zero; inodes are as before. */
  ghost predicate Freed(s: State, disk: seq<seq<byte>>, role: seq<Role>, i: nat, lo: nat, hi: nat, all: bool) {
    && |disk| == |role| == |s.disk| == |s.role|
    && (forall b :: 0 <= b < |s.role| ==> role[b] == if Doomed(s.role[b], i, lo, hi, all) then Free else s.role[b])
    && (forall b :: 0 <= b < |s.role| ==> disk[b] == if Doomed(s.role[b], i, lo, hi, all) then ZeroBlock() else s.disk[b])
  }

  /** The file no longer maps them either. */
  ghost predicate Unmapped(s: State, s': State, i: nat, lo: nat, hi: nat, all: bool) {
    && Freed(s, s'.disk, s'.role, i, lo, hi, all)
    && |s'.inodes| == |s.inodes| && HasInode(s, i) && HasInode(s', i) && s'.inodes[i].extent == s.inodes[i].extent
    && (forall j :: 0 <= j < |s.inodes| && j != i ==> s'.inodes[j] == s.inodes[j])
    && (forall m: nat :: Lookup(s', i, m) == if lo <= m < hi then 0 else Lookup(s, i, m))
    && (!s.inodes[i].extent ==> s'.inodes[i].addrs[NDIRECT] == if all then 0 else s.inodes[i].addrs[NDIRECT])
  }

  lemma UnmappedOthers(s: State, s': State, i: nat, lo: nat, hi: nat, all: bool, j: nat, m: nat)
    requires Valid(s) && Unmapped(s, s', i, lo, hi, all) && j < |s.inodes| && j != i
    ensures HasInode(s, j) && HasInode(s', j) && Lookup(s', j, m) == Lookup(s, j, m)
  {
    assert InodeOk(s, j);
  }

  lemma UnmappedInodes(s: State, s': State, i: nat, lo: nat, hi: nat, all: bool, j: nat)
    requires Valid(s) && Unmapped(s, s', i, lo, hi, all) && j < |s.inodes|
    requires s.inodes[i].extent ==> ExtentsOk(s', i)
    ensures InodeOk(s', j)
  {
    assert InodeOk(s, j);
    if j != i {
      forall m: nat ensures Lookup(s', j, m) == Lookup(s, j, m) {
        UnmappedOthers(s, s', i, lo, hi, all, j, m);
      }
      InodeKept(s, s', j);
    } else {
      forall m | 0 <= m ensures MappedOk(s', i, m) {
        assert Lookup(s', i, m) == if lo <= m < hi then 0 else Lookup(s, i, m);
        assert MappedOk(s, i, m);
      }
    }
  }

  lemma UnmappedValid(s: State, s': State, i: nat, lo: nat, hi: nat, all: bool)
    requires Valid(s) && Unmapped(s, s', i, lo, hi, all)
    requires s.inodes[i].extent ==> ExtentsOk(s', i)
    ensures Valid(s')
  {
    forall j | 0 <= j < |s'.inodes| ensures InodeOk(s', j) {
      UnmappedInodes(s, s', i, lo, hi, all, j);
    }
    forall c | 0 <= c < |s'.role| ensures BlockOk(s', c) {
      assert BlockOk(s, c);
      if s.role[c].Data? && s.role[c].inum != i {
        UnmappedOthers(s, s', i, lo, hi, all, s.role[c].inum, s.role[c].bn);
      }
    }
  }

  // ------------------------------------------------------------------ contents

  /** No byte of any file differs. */
  ghost predicate SameBytes(s: State, s': State) {
    && |s'.inodes| == |s.inodes|
    && (forall j :: 0 <= j < |s.inodes| ==>
          HasInode(s, j) && HasInode(s', j) && s'.inodes[j].size == s.inodes[j].size && s'.inodes[j].extent == s.inodes[j].extent)
    && (forall j, off {:trigger At(s', j, off)} :: 0 <= j < |s.inodes| && 0 <= off ==> At(s', j, off) == At(s, j, off))
  }

  lemma SameSelf(s: State)
    requires Valid(s)
    ensures SameBytes(s, s)
  {
    forall j | 0 <= j < |s.inodes| ensures HasInode(s, j) {
      assert InodeOk(s, j);
    }
  }

  lemma SameStep(s: State, m: State, s': State)
    requires SameBytes(s, m) && SameBytes(m, s')
    ensures SameBytes(s, s')
  {
    forall j, off | 0 <= j < |s.inodes| && 0 <= off ensures At(s', j, off) == At(s, j, off) {
      assert At(m, j, off) == At(s, j, off);
    }
  }

  lemma MappedSame(s: State, s': State, i: nat, bn: nat, b: nat)
    requires Valid(s) && Mapped(s, s', i, bn, b)
    ensures SameBytes(s, s')
  {
    forall j | 0 <= j < |s.inodes| ensures HasInode(s, j) && HasInode(s', j) && s'.inodes[j].size == s.inodes[j].size {
      MappedBytes(s, s', i, bn, b, j, 0);
    }
    forall j, off | 0 <= j < |s.inodes| && 0 <= off ensures At(s', j, off) == At(s, j, off) {
      MappedBytes(s, s', i, bn, b, j, off);
    }
  }

  lemma IndirectSame(s: State, i: nat, b: nat)
    requires Valid(s) && HasInode(s, i) && !s.inodes[i].extent && s.inodes[i].addrs[NDIRECT] == 0
    requires b < |s.role| && s.role[b] == Free
    ensures SameBytes(s, WithAddr(s, i, NDIRECT, b).(role := s.role[b := Indirect(i)]))
  {
    var s' := WithAddr(s, i, NDIRECT, b).(role := s.role[b := Indirect(i)]);
    IndirectTaken(s, i, b);
    forall j | 0 <= j < |s.inodes| ensures HasInode(s, j) && HasInode(s', j) {
      assert InodeOk(s, j);
    }
    forall j, off | 0 <= j < |s.inodes| && 0 <= off ensures At(s', j, off) == At(s, j, off) {
      if j != i { OtherLookups(s, s', i, j, off / BSIZE); }
    }
  }

  // --------------------------------------------------------------------- bmap

  /** The bitmap agrees with the roles. */
  ghost predicate BitsOk(bits: seq<bv8>, role: seq<Role>) {
    && |bits| == BLOCK_BYTES * (|role| / BLOCK_BITS + 1)
    && (forall b :: 0 <= b < |role| ==> (InUse(bits, b) <==> !role[b].Free?))
  }

  lemma BitsMarked(bits: seq<bv8>, role: seq<Role>, b: nat, r: Role)
    requires BitsOk(bits, role) && b / 8 < |bits| && !r.Free?
    ensures BitsOk(Marked(bits, b), if b < |role| then role[b := r] else role)
  {
    hide InUse;
    forall c | 0 <= c < |role| ensures InUse(Marked(bits, b), c) <==> c == b || InUse(bits, c) {
      MarkedOnly(bits, b, c);
    }
  }

  lemma BitsCleared(bits: seq<bv8>, role: seq<Role>, b: nat)
    requires BitsOk(bits, role) && b < |role|
    ensures b / 8 < |bits| && BitsOk(Cleared(bits, b), role[b := Free])
  {
    hide InUse;
    assert b / 8 < |bits| by { BitInside(b, |role|); }
    forall c | 0 <= c < |role| ensures InUse(Cleared(bits, b), c) <==> c != b && InUse(bits, c) {
      BitInside(c, |role|);
      ClearedOnly(bits, b, c);
    }
  }

  lemma BitInside(b: nat, n: nat)
    requires b < n
    ensures b / 8 < BLOCK_BYTES * (n / BLOCK_BITS + 1)
  {
  }

  ghost function FreeBlocks(role: seq<Role>): set<nat> {
    set b | 0 <= b < |role| && role[b].Free?
  }

  lemma OneTaken(role: seq<Role>, b: nat, r: Role)
    requires b < |role| && role[b].Free? && !r.Free?
    ensures |FreeBlocks(role[b := r])| == |FreeBlocks(role)| - 1
  {
    assert FreeBlocks(role) == FreeBlocks(role[b := r]) + {b};
  }

  lemma NoneFree(role: seq<Role>)
    ensures |FreeBlocks(role)| == 0 <==> forall c :: 0 <= c < |role| ==> !role[c].Free?
  {
    if |FreeBlocks(role)| == 0 {
      forall c | 0 <= c < |role| ensures !role[c].Free? {
        assert c !in FreeBlocks(role);
      }
    } else {
      var b :| b in FreeBlocks(role);
    }
  }

  /** How many free blocks bmap takes: none for a mapped block, two if the block of pointers is missing. */
  function Needed(s: State, i: nat, bn: nat): nat
    requires HasInode(s, i)
  {
    if Lookup(s, i, bn) != 0 then 0
    else if s.inodes[i].extent || bn < NDIRECT || s.inodes[i].addrs[NDIRECT] != 0 then 1
    else 2
  }

  datatype Halt =
    | Full                       // no block of the disk is free
    | OutOfRange                 // the panic of bmap
    | Carry                      // a 255-block extent was extended

  datatype BmapResult = Found(addr: nat) | Stop(why: Halt)

  /** The lowest free block from k on, or the size of the disk. */
  function FirstFree(role: seq<Role>, k: nat): (r: nat)
    requires k <= |role|
    ensures k <= r <= |role| && (r < |role| ==> role[r].Free?) && forall c :: k <= c < r ==> !role[c].Free?
    decreases |role| - k
  {
    if k == |role| || role[k].Free? then k else FirstFree(role, k + 1)
  }

  /** The lowest free block gets a role. */
  function TakeLowest(role: seq<Role>, r: Role): seq<Role> {
    var b := FirstFree(role, 0);
    if b < |role| then role[b := r] else role
  }

  /** The roles after bmap on a file without extents: first the block of pointers, then the block. */
  function PlainMap(role: seq<Role>, i: nat, bn: nat): seq<Role> {
    if Data(i, bn) in role then role
    else
      var role' := if bn >= NDIRECT && Indirect(i) !in role then TakeLowest(role, Indirect(i)) else role;
      TakeLowest(role', Data(i, bn))
  }

  /** What a bmap that returns b does: at most one file block is added, no other mapping moves, no byte changes. */
  ghost predicate Grew(s: State, s': State, i: nat, bn: nat, b: nat) {
    && SameBytes(s, s') && i < |s.inodes| && |s'.role| == |s.role| && |s'.disk| == |s.disk|
    && 0 < b < |s'.role| && s'.role[b] == Data(i, bn) && Lookup(s', i, bn) == b
    && (Lookup(s, i, bn) != 0 ==> s' == s)
    && (forall j, m {:trigger Lookup(s', j, m)} :: 0 <= j < |s.inodes| && 0 <= m && !(j == i && m == bn) ==> Lookup(s', j, m) == Lookup(s, j, m))
    && (forall c :: 0 <= c < |s.role| && s'.role[c] != s.role[c] ==> s.role[c].Free? && (c == b || s'.role[c] == Indirect(i)))
    && |FreeBlocks(s'.role)| == |FreeBlocks(s.role)| - Needed(s, i, bn)
    && (forall j :: 0 <= j < |s.inodes| && j != i ==> s'.inodes[j] == s.inodes[j])
    && (!s.inodes[i].extent ==> s'.role == PlainMap(s.role, i, bn))
    && (!s.inodes[i].extent ==>
          if bn < NDIRECT then s'.inodes[i].addrs[NDIRECT] == s.inodes[i].addrs[NDIRECT] else s'.inodes[i].addrs[NDIRECT] != 0)
  }

  lemma GrewSelf(s: State, i: nat, bn: nat)
    requires Valid(s) && HasInode(s, i) && Lookup(s, i, bn) != 0
    ensures Grew(s, s, i, bn, Lookup(s, i, bn))
  {
    SameSelf(s);
    assert InodeOk(s, i);
    assert MappedOk(s, i, bn);
    assert s.role[Lookup(s, i, bn)] == Data(i, bn);
  }

  /** A file has the blocks and the block of pointers that the roles say it has. */
  lemma RolesTell(s: State, i: nat, bn: nat)
    requires Valid(s) && HasInode(s, i) && !s.inodes[i].extent
    ensures Lookup(s, i, bn) == 0 <==> Data(i, bn) !in s.role
    ensures Indirect(i) in s.role <==> s.inodes[i].addrs[NDIRECT] != 0
  {
    forall c | 0 <= c < |s.role| ensures s.role[c] == Data(i, bn) ==> Lookup(s, i, bn) == c > 0
      ensures s.role[c] == Indirect(i) ==> s.inodes[i].addrs[NDIRECT] == c > 0
    {
      assert BlockOk(s, c);
    }
    assert InodeOk(s, i) && MappedOk(s, i, bn);
    if Lookup(s, i, bn) != 0 {
      assert s.role[Lookup(s, i, bn)] == Data(i, bn);
    }
    if s.inodes[i].addrs[NDIRECT] != 0 {
      assert s.role[s.inodes[i].addrs[NDIRECT]] == Indirect(i);
    }
  }

  lemma GrewMapped(s: State, s': State, i: nat, bn: nat, b: nat)
    requires Valid(s) && Mapped(s, s', i, bn, b) && b == FirstFree(s.role, 0)
    requires !s.inodes[i].extent && bn >= NDIRECT ==> s.inodes[i].addrs[NDIRECT] != 0
    ensures Grew(s, s', i, bn, b)
  {
    MappedSame(s, s', i, bn, b);
    if !s.inodes[i].extent {
      RolesTell(s, i, bn);
    }
    OneTaken(s.role, b, Data(i, bn));
    forall j, m | 0 <= j < |s.inodes| && 0 <= m && !(j == i && m == bn) ensures Lookup(s', j, m) == Lookup(s, j, m) {
      if j != i { OtherLookups(s, s', i, j, m); }
    }
  }

  /** First the block of pointers, then the block itself. */
  lemma GrewBoth(s: State, m: State, s': State, i: nat, bn: nat, x: nat, b: nat)
    requires Valid(s) && HasInode(s, i) && !s.inodes[i].extent && s.inodes[i].addrs[NDIRECT] == 0 && Lookup(s, i, bn) == 0
    requires x == FirstFree(s.role, 0) < |s.role| && m == WithAddr(s, i, NDIRECT, x).(role := s.role[x := Indirect(i)])
    requires Grew(m, s', i, bn, b) && bn >= NDIRECT
    ensures Grew(s, s', i, bn, b)
  {
    IndirectTaken(s, i, x);
    IndirectSame(s, i, x);
    SameStep(s, m, s');
    OneTaken(s.role, x, Indirect(i));
    RolesTell(s, i, bn);
    assert m.role[x] == Indirect(i) && Data(i, bn) !in m.role;
    forall j, n | 0 <= j < |s.inodes| && 0 <= n && !(j == i && n == bn) ensures Lookup(s', j, n) == Lookup(s, j, n) {
      assert Lookup(s', j, n) == Lookup(m, j, n);
      if j != i { OtherLookups(s, m, i, j, n); }
    }
  }

  predicate EmptySlot(a: seq<nat>, k: nat)
    requires |a| == NDIRECT + 1 && k < SLOTS
  {
    a[2 * k] == 0
  }

  /** Block bn comes right after extent k. */
  predicate Continues(a: seq<nat>, k: nat, bn: nat)
    requires |a| == NDIRECT + 1 && k < SLOTS
  {
    bn == a[2 * k + 1] + Length(a[2 * k])
  }

  /** The first empty slot below k, or -1. */
  function EmptyBefore(a: seq<nat>, k: nat): (r: int)
    requires |a| == NDIRECT + 1 && k <= SLOTS
    ensures -1 <= r < k && (r >= 0 ==> EmptySlot(a, r))
    ensures forall j :: 0 <= j < k && (j < r || r < 0) ==> !EmptySlot(a, j)
  {
    if k == 0 then -1
    else if EmptyBefore(a, k - 1) >= 0 then EmptyBefore(a, k - 1)
    else if EmptySlot(a, k - 1) then k - 1 else -1
  }

  /** The last extent below slot k that block bn continues, or -1. */
  function LastContinued(a: seq<nat>, bn: nat, k: nat): (r: int)
    requires |a| == NDIRECT + 1 && k <= SLOTS
    ensures -1 <= r < k && (r >= 0 ==> Continues(a, r, bn))
    ensures forall j :: r < j < k ==> !Continues(a, j, bn)
  {
    if k == 0 then -1 else if Continues(a, k - 1, bn) then k - 1 else LastContinued(a, bn, k - 1)
  }

  /** The loop of bmap over the extents: the one that covers bn, or else the first empty slot and the extent that bn continues. */
  method FindExtent(a: seq<nat>, bn: nat) returns (k: nat, fill: int, neighbor: int)
    requires |a| == NDIRECT + 1
    ensures k == SlotOf(a, bn, 0)
    ensures k == SLOTS ==> fill == EmptyBefore(a, SLOTS) && neighbor == LastContinued(a, bn, SLOTS)
  {
    hide Covers, EmptySlot, Continues;
    fill, neighbor, k := -1, -1, 0;
    while k < SLOTS
      invariant 0 <= k <= SLOTS && SlotOf(a, bn, 0) == SlotOf(a, bn, k)
      invariant fill == EmptyBefore(a, k) && neighbor == LastContinued(a, bn, k)
    {
      if fill == -1 && EmptySlot(a, k) {
        fill := k;
      }
      if Covers(a, k, bn) {
        return;
      } else if Continues(a, k, bn) {
        neighbor := k;
      }
      k := k + 1;
    }
  }

  datatype ExtResult = ExtOk(addrs: seq<nat>, role: seq<Role>) | ExtStop(why: Halt)

  /** What bmap does to the extents of inode i and to the roles of the blocks, or why it does not return. */
  function ExtMap(a: seq<nat>, role: seq<Role>, i: nat, bn: nat): (t: ExtResult)
    requires |a| == NDIRECT + 1
    ensures t.ExtOk? ==> |t.addrs| == NDIRECT + 1
  {
    var b, n, f := FirstFree(role, 0), LastContinued(a, bn, SLOTS), EmptyBefore(a, SLOTS);
    if SlotOf(a, bn, 0) < SLOTS then ExtOk(a, role)
    else if b == |role| then ExtStop(Full)
    else if n >= 0 && b == Base(a[2 * n]) + Length(a[2 * n]) then
      if Length(a[2 * n]) == 255 then ExtStop(Carry)
      else ExtOk(a[2 * n := a[2 * n] + 1], role[b := Data(i, bn)])
    else if f >= 0 then ExtOk(a[2 * f := b * 256 + 1][2 * f + 1 := bn], role[b := Data(i, bn)])
    else ExtStop(OutOfRange)
  }

  datatype Halting = Never | Because(why: Halt)

  /** Why mapping blocks lo..hi of an extent file in turn stops, if it does. */
  function ExtRange(a: seq<nat>, role: seq<Role>, i: nat, lo: nat, hi: nat): Halting
    requires |a| == NDIRECT + 1
    decreases hi - lo
  {
    if lo >= hi then Never
    else
      match ExtMap(a, role, i, lo)
      case ExtStop(why) => Because(why)
      case ExtOk(a', role') => ExtRange(a', role', i, lo + 1, hi)
  }

  /** The extents and roles after mapping blocks lo..hi of an extent file in turn. */
  function ExtAfter(a: seq<nat>, role: seq<Role>, i: nat, lo: nat, hi: nat): (t: ExtResult)
    requires |a| == NDIRECT + 1
    ensures t.ExtOk? ==> |t.addrs| == NDIRECT + 1
    decreases hi - lo
  {
    if lo >= hi then ExtOk(a, role)
    else
      match ExtAfter(a, role, i, lo, hi - 1)
      case ExtStop(why) => ExtStop(why)
      case ExtOk(a', role') => ExtMap(a', role', i, hi - 1)
  }

  /** The roles after mapping blocks lo..hi of a file without extents in turn. */
  function PlainAfter(role: seq<Role>, i: nat, lo: nat, hi: nat): seq<Role>
    decreases hi - lo
  {
    if lo >= hi then role else PlainMap(PlainAfter(role, i, lo, hi - 1), i, hi - 1)
  }

  /** The second state has the layout that mapping blocks lo..hi of file i in turn gives the first. */
  ghost predicate Laid(s: State, s': State, i: nat, lo: nat, hi: nat) {
    && HasInode(s, i) && HasInode(s', i) && |s'.inodes| == |s.inodes| && s'.inodes[i].extent == s.inodes[i].extent
    && (forall j :: 0 <= j < |s.inodes| && j != i ==> s'.inodes[j] == s.inodes[j])
    && if s.inodes[i].extent then ExtAfter(s.inodes[i].addrs, s.role, i, lo, hi) == ExtOk(s'.inodes[i].addrs, s'.role)
       else s'.role == PlainAfter(s.role, i, lo, hi)
  }

  lemma LaidStart(s: State, i: nat, lo: nat)
    requires HasInode(s, i)
    ensures Laid(s, s, i, lo, lo)
  {
  }

  lemma LaidStep(s0: State, s: State, s': State, i: nat, lo: nat, blk: nat, b: nat)
    requires Laid(s0, s, i, lo, blk) && HasInode(s', i) && Grew(s, s', i, blk, b) && lo <= blk
    requires s.inodes[i].extent ==> ExtMap(s.inodes[i].addrs, s.role, i, blk) == ExtOk(s'.inodes[i].addrs, s'.role)
    ensures Laid(s0, s', i, lo, blk + 1)
  {
    hide ExtMap, PlainMap, Lookup, FreeBlocks;
  }

  lemma LaidAlso(s0: State, s: State, s': State, i: nat, lo: nat, blk: nat)
    requires Laid(s0, s, i, lo, blk) && s'.role == s.role && |s'.inodes| == |s.inodes| && HasInode(s', i)
    requires s'.inodes == s.inodes[i := s'.inodes[i]]
    requires s'.inodes[i].addrs == s.inodes[i].addrs && s'.inodes[i].extent == s.inodes[i].extent
    ensures Laid(s0, s', i, lo, blk)
  {
    hide ExtMap, PlainMap;
  }

  /** How many of the blocks lo..hi the file does not have. */
  function Missing(s: State, i: nat, lo: nat, hi: nat): nat
    requires HasInode(s, i)
    decreases hi - lo
  {
    if lo >= hi then 0 else (if Lookup(s, i, lo) == 0 then 1 else 0) + Missing(s, i, lo + 1, hi)
  }

  /** How many free blocks it takes to have blocks lo..hi, the block of pointers included. */
  function NeedRange(s: State, i: nat, lo: nat, hi: nat): nat
    requires HasInode(s, i)
  {
    Missing(s, i, lo, hi) + if lo < hi && hi > NDIRECT && s.inodes[i].addrs[NDIRECT] == 0 then 1 else 0
  }

  /** Why a call that maps blocks lo..hi of file i in turn does not return, if it does not: a file without
      extents needs enough free blocks and no block beyond its pointers. */
  ghost function RangeHalt(s: State, i: nat, lo: nat, hi: nat): Halting
    requires HasInode(s, i)
  {
    if lo >= hi then Never
    else if s.inodes[i].extent then ExtRange(s.inodes[i].addrs, s.role, i, lo, hi)
    else if |FreeBlocks(s.role)| < NeedRange(s, i, lo, Min(hi, MAXFILE)) then Because(Full)
    else if hi > MAXFILE then Because(OutOfRange)
    else Never
  }

  function Min(a: nat, b: nat): nat {
    if a < b then a else b
  }

  function Max(a: nat, b: nat): nat {
    if a > b then a else b
  }

  /** Why bmap does not return, if it does not. */
  ghost function BlockHalt(s: State, i: nat, bn: nat): Halting
    requires HasInode(s, i)
  {
    RangeHalt(s, i, bn, bn + 1)
  }

  /** The missing blocks depend on the mapping only. */
  lemma {:induction false} MissingSame(s: State, s': State, i: nat, lo: nat, hi: nat)
    requires HasInode(s, i) && HasInode(s', i) && forall m: nat :: lo <= m < hi ==> Lookup(s', i, m) == Lookup(s, i, m)
    ensures Missing(s', i, lo, hi) == Missing(s, i, lo, hi)
    decreases hi - lo
  {
    if lo < hi {
      MissingSame(s, s', i, lo + 1, hi);
    }
  }

  /** A call that gets block bn goes on as a call for the blocks after it. */
  lemma RangeStep(s: State, s': State, i: nat, bn: nat, b: nat, hi: nat)
    requires HasInode(s, i) && HasInode(s', i) && Grew(s, s', i, bn, b) && bn < hi
    requires s.inodes[i].extent ==> ExtMap(s.inodes[i].addrs, s.role, i, bn) == ExtOk(s'.inodes[i].addrs, s'.role)
    requires !s.inodes[i].extent ==> bn < MAXFILE
    ensures RangeHalt(s, i, bn, hi) == RangeHalt(s', i, bn + 1, hi)
  {
    hide Lookup, FreeBlocks, ExtMap;
    if !s.inodes[i].extent {
      MissingSame(s, s', i, bn + 1, Min(hi, MAXFILE));
    }
  }

  /** Mapping one file's blocks does not depend on any block's contents. */
  lemma RangeSame(s: State, s': State, i: nat, lo: nat, hi: nat)
    requires HasInode(s, i) && HasInode(s', i) && s'.inodes[i].addrs == s.inodes[i].addrs && s'.inodes[i].extent == s.inodes[i].extent
    requires s'.role == s.role && forall m: nat :: Lookup(s', i, m) == Lookup(s, i, m)
    ensures RangeHalt(s', i, lo, hi) == RangeHalt(s, i, lo, hi)
  {
    hide Lookup, FreeBlocks, ExtRange;
    MissingSame(s, s', i, lo, Min(hi, MAXFILE));
  }

  /** A range stops where its first block stops. */
  lemma RangeStops(s: State, i: nat, bn: nat, hi: nat)
    requires HasInode(s, i) && bn < hi && BlockHalt(s, i, bn) != Never
    ensures RangeHalt(s, i, bn, hi) == BlockHalt(s, i, bn)
  {
    hide Lookup, FreeBlocks, ExtMap;
    assert Missing(s, i, bn + 1, bn + 1) == 0;
    var t := ExtMap(s.inodes[i].addrs, s.role, i, bn);
    assert t.ExtOk? ==> ExtRange(t.addrs, t.role, i, bn + 1, bn + 1) == Never;
  }

  /** ExtMap case by case, and when it runs into a carry. */
  lemma ExtCases(s: State, i: nat, bn: nat)
    requires HasInode(s, i) && s.inodes[i].extent
    ensures var a := s.inodes[i].addrs;
      var b, n, f, t := FirstFree(s.role, 0), LastContinued(a, bn, SLOTS), EmptyBefore(a, SLOTS), ExtMap(a, s.role, i, bn);
      && (t == ExtStop(Carry) <==> CarryDue(s, i, bn))
      && if SlotOf(a, bn, 0) < SLOTS then t == ExtOk(a, s.role)
         else if b == |s.role| then t == ExtStop(Full)
         else if n >= 0 && b == Base(a[2 * n]) + Length(a[2 * n]) then
           t == if Length(a[2 * n]) == 255 then ExtStop(Carry) else ExtOk(a[2 * n := a[2 * n] + 1], s.role[b := Data(i, bn)])
         else if f >= 0 then t == ExtOk(a[2 * f := b * 256 + 1][2 * f + 1 := bn], s.role[b := Data(i, bn)])
         else t == ExtStop(OutOfRange)
  {
  }

  lemma BlockHaltExtent(s: State, i: nat, bn: nat)
    requires HasInode(s, i) && s.inodes[i].extent
    ensures var t := ExtMap(s.inodes[i].addrs, s.role, i, bn);
      BlockHalt(s, i, bn) == if t.ExtStop? then Because(t.why) else Never
  {
    hide ExtMap;
    var t := ExtMap(s.inodes[i].addrs, s.role, i, bn);
    assert t.ExtOk? ==> ExtRange(t.addrs, t.role, i, bn + 1, bn + 1) == Never;
  }

  /** The result of bmap and why it may not return. */
  ghost predicate HaltsAs(h: Halting, r: BmapResult) {
    if r.Stop? then h == Because(r.why) else h == Never
  }

  /** The state before a carry: block bn is not mapped, the last extent it continues has 255 blocks, and
      the lowest free block is the one after them. */
  ghost predicate CarryDue(s: State, i: nat, bn: nat)
    requires HasInode(s, i)
  {
    var a, b := s.inodes[i].addrs, FirstFree(s.role, 0);
    && s.inodes[i].extent && SlotOf(a, bn, 0) == SLOTS && b < |s.role|
    && var n := LastContinued(a, bn, SLOTS);
       n >= 0 && Length(a[2 * n]) == 255 && b == Base(a[2 * n]) + 255
  }

  /** The block after the last byte of a range of n bytes. */
  function SpanEnd(start: nat, n: nat): nat {
    if n == 0 then start / BSIZE else (start + n - 1) / BSIZE + 1
  }

  /** Copying m bytes from off on finishes the block or the range. */
  lemma NextBlock(off: nat, left: nat, m: nat)
    requires left > 0 && m == Min(left, BSIZE - off % BSIZE)
    ensures m > 0 && off / BSIZE < SpanEnd(off, left)
    ensures m < left ==> (off + m) / BSIZE == off / BSIZE + 1
    ensures m == left ==> SpanEnd(off, left) == off / BSIZE + 1
  {
  }

  lemma SpanTail(start: nat, n: nat, tot: nat)
    requires tot < n
    ensures SpanEnd(start + tot, n - tot) == SpanEnd(start, n)
  {
  }

  /** For one block the condition is the one on a single call of bmap. */
  lemma BlockHaltPlain(s: State, i: nat, bn: nat)
    requires HasInode(s, i) && !s.inodes[i].extent && (bn >= NDIRECT && s.inodes[i].addrs[NDIRECT] == 0 ==> Lookup(s, i, bn) == 0)
    ensures BlockHalt(s, i, bn) ==
      if bn >= MAXFILE then Because(OutOfRange) else if |FreeBlocks(s.role)| < Needed(s, i, bn) then Because(Full) else Never
  {
    hide Lookup, FreeBlocks;
    assert Missing(s, i, bn + 1, bn + 1) == 0;
  }

  lemma Shape(s: State)
    requires Valid(s)
    ensures 0 < |s.role| == |s.disk| < MAX_BLOCKS && s.role[0] == Meta
  {
  }

  lemma DirectLookup(s: State, i: nat, bn: nat)
    requires HasInode(s, i) && !s.inodes[i].extent && bn < NDIRECT
    ensures Lookup(s, i, bn) == s.inodes[i].addrs[bn]
  {
  }

  lemma NoPointers(s: State, i: nat, bn: nat)
    requires HasInode(s, i) && !s.inodes[i].extent && NDIRECT <= bn && s.inodes[i].addrs[NDIRECT] == 0
    ensures Lookup(s, i, bn) == 0
  {
  }

  lemma PointerLookup(s: State, i: nat, bn: nat)
    requires Valid(s) && HasInode(s, i) && !s.inodes[i].extent && NDIRECT <= bn < MAXFILE && s.inodes[i].addrs[NDIRECT] != 0
    ensures var x := s.inodes[i].addrs[NDIRECT];
      x < |s.disk| && |s.disk[x]| == BSIZE && Lookup(s, i, bn) == GetWord(s.disk[x], bn - NDIRECT)
  {
    assert InodeOk(s, i);
    assert BlockOk(s, s.inodes[i].addrs[NDIRECT]);
  }

  lemma ExtentLookup(s: State, i: nat, bn: nat)
    requires Valid(s) && HasInode(s, i) && s.inodes[i].extent
    ensures var a := s.inodes[i].addrs;
      var k := SlotOf(a, bn, 0);
      if k < SLOTS then Lookup(s, i, bn) == Base(a[2 * k]) + (bn - a[2 * k + 1]) != 0 else Lookup(s, i, bn) == 0
  {
    ExtentAbsent(s, i, bn);
  }

  /** A block that balloc marked gets its real role. */
  lemma Retake(role: seq<Role>, bits: seq<bv8>, b: nat, r: Role)
    requires b < |role| && BitsOk(bits, role[b := Meta]) && !r.Free?
    ensures role[b := Meta][b := r] == role[b := r] && BitsOk(bits, role[b := r])
  {
    hide InUse;
  }

  lemma HeldValid(s: State, b: nat)
    requires Valid(s) && b < |s.role| && s.role[b] == Free
    ensures Valid(s.(role := s.role[b := Meta]))
  {
    var s' := s.(role := s.role[b := Meta]);
    forall j: nat | j < |s.inodes| ensures InodeOk(s', j) {
      assert InodeOk(s, j);
      InodeKept(s, s', j);
    }
    forall c: nat | c < |s.role| ensures BlockOk(s', c) {
      assert BlockOk(s, c);
    }
  }

  lemma BlockZeroTaken(s: State, b: nat)
    requires Valid(s) && b < |s.role| && s.role[b].Free?
    ensures b > 0
  {
  }

  lemma HeldSame(s: State, b: nat)
    requires Valid(s) && b < |s.role| && s.role[b] == Free
    ensures SameBytes(s, s.(role := s.role[b := Meta]))
  {
    SameSelf(s);
  }

  // --------------------------------------------------------- files as sequences

  /** The bytes of file i. */
  ghost function Contents(s: State, i: nat): (c: seq<byte>)
    requires HasInode(s, i)
    ensures |c| == s.inodes[i].size
  {
    seq(s.inodes[i].size, off requires 0 <= off < s.inodes[i].size => At(s, i, off))
  }

  ghost predicate AllInodes(s: State) {
    forall j :: 0 <= j < |s.inodes| ==> HasInode(s, j)
  }

  /** File i now reads c; every other file reads as before. */
  ghost predicate OneFile(s: State, s': State, i: nat, c: seq<byte>) {
    && |s'.inodes| == |s.inodes| && i < |s.inodes| && AllInodes(s) && AllInodes(s')
    && (forall j :: 0 <= j < |s.inodes| ==> s'.inodes[j].extent == s.inodes[j].extent)
    && Contents(s', i) == c
    && (forall j :: 0 <= j < |s.inodes| && j != i ==> Contents(s', j) == Contents(s, j))
  }

  /** Beyond its size a file holds zeros, and a file without extents fits its pointers. */
  ghost predicate TailZero(s: State) {
    forall j :: 0 <= j < |s.inodes| ==>
      && HasInode(s, j)
      && (!s.inodes[j].extent ==> s.inodes[j].size <= MAXFILE * BSIZE)
      && (forall off {:trigger At(s, j, off)} :: s.inodes[j].size <= off ==> At(s, j, off) == 0)
  }

  /** n bytes of file i from off on are now those of src; nothing else changed. */
  ghost predicate Overwritten(s: State, s': State, i: nat, off: nat, src: seq<byte>, n: nat) {
    && n <= |src| && |s'.inodes| == |s.inodes| && i < |s.inodes|
    && (forall j :: 0 <= j < |s.inodes| ==>
          HasInode(s, j) && HasInode(s', j) && s'.inodes[j].size == s.inodes[j].size && s'.inodes[j].extent == s.inodes[j].extent)
    && (forall j, x {:trigger At(s', j, x)} :: 0 <= j < |s.inodes| && 0 <= x ==>
          At(s', j, x) == if j == i && off <= x < off + n then src[x - off] else At(s, j, x))
  }

  function Splice(c: seq<byte>, off: nat, src: seq<byte>): seq<byte>
    requires off <= |c|
  {
    if off + |src| <= |c| then c[..off] + src + c[off + |src|..] else c[..off] + src
  }

  function WithSize(s: State, i: nat, size: nat): State
    requires HasInode(s, i)
  {
    s.(inodes := s.inodes[i := s.inodes[i].(size := size)])
  }

  lemma WithSizeValid(s: State, i: nat, size: nat)
    requires Valid(s) && HasInode(s, i)
    ensures Valid(WithSize(s, i, size))
    ensures forall j: nat :: j < |s.inodes| ==> HasInode(s, j) && HasInode(WithSize(s, i, size), j)
    ensures forall j: nat, x: nat {:trigger At(WithSize(s, i, size), j, x)} :: j < |s.inodes| && HasInode(s, j) ==>
      At(WithSize(s, i, size), j, x) == At(s, j, x)
  {
    var s' := WithSize(s, i, size);
    forall j: nat | j < |s.inodes| ensures InodeOk(s', j) && HasInode(s, j) {
      assert InodeOk(s, j);
      InodeKept(s, s', j);
    }
    forall c: nat | c < |s.role| ensures BlockOk(s', c) {
      assert BlockOk(s, c);
    }
  }

  /** The bytes of src were written to file i and its size covers them. */
  ghost predicate Wrote(s: State, s': State, i: nat, off: nat, src: seq<byte>) {
    && |s'.inodes| == |s.inodes| && i < |s.inodes|
    && (forall j :: 0 <= j < |s.inodes| ==>
          && HasInode(s, j) && HasInode(s', j) && s'.inodes[j].extent == s.inodes[j].extent
          && s'.inodes[j].size == if j == i && off + |src| > s.inodes[j].size then off + |src| else s.inodes[j].size)
    && (forall j: nat, x: nat {:trigger At(s', j, x)} :: j < |s.inodes| ==>
          At(s', j, x) == if j == i && off <= x < off + |src| then src[x - off] else At(s, j, x))
  }

  /** Only the size of i is stale: writei then grows it to cover what was written. */
  lemma WroteSize(s: State, m: State, i: nat, off: nat, src: seq<byte>)
    requires Valid(m) && Overwritten(s, m, i, off, src, |src|)
    ensures var s' := WithSize(m, i, if off + |src| > m.inodes[i].size then off + |src| else m.inodes[i].size);
      Valid(s') && Wrote(s, s', i, off, src)
  {
    var size := if off + |src| > m.inodes[i].size then off + |src| else m.inodes[i].size;
    WithSizeValid(m, i, size);
    hide Valid, At;
    var s' := WithSize(m, i, size);
    forall j: nat, x: nat | j < |s.inodes|
      ensures At(s', j, x) == if j == i && off <= x < off + |src| then src[x - off] else At(s, j, x)
    {
      assert At(s', j, x) == At(m, j, x);
    }
  }

  lemma WroteTail(s: State, s': State, i: nat, off: nat, src: seq<byte>)
    requires TailZero(s) && Wrote(s, s', i, off, src)
    requires !s.inodes[i].extent ==> off + |src| <= MAXFILE * BSIZE
    ensures TailZero(s')
  {
    hide At;
    forall j: nat, x: nat | j < |s'.inodes| && s'.inodes[j].size <= x ensures At(s', j, x) == 0 {
      assert At(s', j, x) == At(s, j, x);
    }
  }

  lemma WroteFile(s: State, s': State, i: nat, off: nat, src: seq<byte>)
    requires Wrote(s, s', i, off, src) && HasInode(s, i) && off <= s.inodes[i].size
    ensures OneFile(s, s', i, Splice(Contents(s, i), off, src))
  {
    hide At, Contents, Splice;
    SplicedContents(s, s', i, off, src);
    forall j: nat | j < |s.inodes| && j != i ensures Contents(s', j) == Contents(s, j) {
      EqualContents(s, s', j);
    }
  }

  lemma SplicedContents(s: State, s': State, i: nat, off: nat, src: seq<byte>)
    requires HasInode(s, i) && HasInode(s', i) && off <= s.inodes[i].size
    requires s'.inodes[i].size == if off + |src| > s.inodes[i].size then off + |src| else s.inodes[i].size
    requires forall x: nat {:trigger At(s', i, x)} :: At(s', i, x) == if off <= x < off + |src| then src[x - off] else At(s, i, x)
    ensures Contents(s', i) == Splice(Contents(s, i), off, src)
  {
    hide At;
    var c, c' := Splice(Contents(s, i), off, src), Contents(s', i);
    forall x | 0 <= x < |c| ensures c[x] == c'[x] {
      assert c'[x] == At(s', i, x);
    }
  }

  lemma EqualContents(s: State, s': State, j: nat)
    requires HasInode(s, j) && HasInode(s', j) && s'.inodes[j].size == s.inodes[j].size
    requires forall x: nat {:trigger At(s', j, x)} :: At(s', j, x) == At(s, j, x)
    ensures Contents(s', j) == Contents(s, j)
  {
    hide At;
    forall x | 0 <= x < s.inodes[j].size ensures Contents(s', j)[x] == Contents(s, j)[x] {
      assert Contents(s', j)[x] == At(s', j, x);
    }
  }

  /** Equal bytes and sizes are equal contents. */
  lemma SameContents(s: State, s': State, j: nat)
    requires SameBytes(s, s') && j < |s.inodes|
    ensures HasInode(s, j) && HasInode(s', j) && Contents(s', j) == Contents(s, j)
  {
    forall x | 0 <= x < s.inodes[j].size ensures Contents(s', j)[x] == Contents(s, j)[x] {
      assert Contents(s', j)[x] == At(s', j, x);
    }
  }

  lemma SameTail(s: State, s': State)
    requires SameBytes(s, s') && TailZero(s)
    ensures TailZero(s')
  {
    forall j, x | 0 <= j < |s'.inodes| && s'.inodes[j].size <= x ensures At(s', j, x) == 0 {
      assert At(s', j, x) == At(s, j, x);
    }
  }

  /** m bytes of file i from off on. */
  ghost function Window(s: State, i: nat, off: nat, m: nat): (w: seq<byte>)
    requires HasInode(s, i)
    ensures |w| == m && forall t :: 0 <= t < m ==> w[t] == At(s, i, off + t)
  {
    if m == 0 then [] else Window(s, i, off, m - 1) + [At(s, i, off + m - 1)]
  }

  lemma WindowSplit(s: State, i: nat, off: nat, m: nat, k: nat)
    requires HasInode(s, i)
    ensures Window(s, i, off, m) + Window(s, i, off + m, k) == Window(s, i, off, m + k)
  {
  }

  lemma WindowContents(s: State, i: nat, off: nat, m: nat)
    requires HasInode(s, i) && off + m <= s.inodes[i].size
    ensures Window(s, i, off, m) == Contents(s, i)[off..off + m]
  {
  }

  lemma SameWindow(s: State, s': State, i: nat, off: nat, m: nat)
    requires SameBytes(s, s') && i < |s.inodes|
    ensures HasInode(s, i) && HasInode(s', i) && Window(s', i, off, m) == Window(s, i, off, m)
  {
  }

  /** The part of a block that memmove copies is the file's bytes at that offset. */
  lemma BlockBytes(s: State, i: nat, off: nat, b: nat, m: nat)
    requires Valid(s) && HasInode(s, i) && Lookup(s, i, off / BSIZE) == b && b != 0 && off % BSIZE + m <= BSIZE
    ensures b < |s.disk| && |s.disk[b]| == BSIZE
    ensures s.disk[b][off % BSIZE..off % BSIZE + m] == Window(s, i, off, m)
  {
    assert InodeOk(s, i);
    assert MappedOk(s, i, off / BSIZE);
    assert BlockOk(s, b);
    var w := s.disk[b][off % BSIZE..off % BSIZE + m];
    forall t | 0 <= t < m ensures w[t] == Window(s, i, off, m)[t] {
      SameBlock(off, t, m);
    }
  }

  lemma SameBlock(off: nat, t: nat, m: nat)
    requires off % BSIZE + m <= BSIZE && t < m
    ensures (off + t) / BSIZE == off / BSIZE && (off + t) % BSIZE == off % BSIZE + t
  {
  }

  /** memmove into the buffer of one block. */
  function Patched(block: seq<byte>, at: nat, src: seq<byte>): seq<byte>
    requires at + |src| <= |block|
  {
    block[..at] + src + block[at + |src|..]
  }

  /** One round of the writei loop after bmap. */
  lemma PatchOverwrites(s: State, i: nat, off: nat, src: seq<byte>, b: nat)
    requires Valid(s) && HasInode(s, i) && b < |s.role| && s.role[b] == Data(i, off / BSIZE) && off % BSIZE + |src| <= BSIZE && |src| > 0
    ensures |s.disk[b]| == BSIZE
    ensures var s' := s.(disk := s.disk[b := Patched(s.disk[b], off % BSIZE, src)]);
      Valid(s') && Overwritten(s, s', i, off, src, |src|)
  {
    assert BlockOk(s, b);
    var data := Patched(s.disk[b], off % BSIZE, src);
    var s' := s.(disk := s.disk[b := data]);
    DataWritten(s, i, off / BSIZE, b, data);
    forall j | 0 <= j < |s.inodes| ensures HasInode(s, j) && HasInode(s', j) {
      assert InodeOk(s, j);
    }
    forall j, x | 0 <= j < |s.inodes| && 0 <= x
      ensures At(s', j, x) == if j == i && off <= x < off + |src| then src[x - off] else At(s, j, x)
    {
      PatchByte(s, i, off, src, b, j, x);
    }
  }

  lemma PatchByte(s: State, i: nat, off: nat, src: seq<byte>, b: nat, j: nat, x: nat)
    requires Valid(s) && HasInode(s, i) && b < |s.role| && s.role[b] == Data(i, off / BSIZE) && off % BSIZE + |src| <= BSIZE && |src| > 0
    requires j < |s.inodes| && HasInode(s, j) && |s.disk[b]| == BSIZE
    ensures At(s.(disk := s.disk[b := Patched(s.disk[b], off % BSIZE, src)]), j, x) ==
      if j == i && off <= x < off + |src| then src[x - off] else At(s, j, x)
  {
    var data := Patched(s.disk[b], off % BSIZE, src);
    WrittenBytes(s, i, off / BSIZE, b, data, j, x);
    if off <= x < off + |src| {
      SameBlock(off, x - off, |src|);
    }
    if j == i && x / BSIZE == off / BSIZE {
      assert BlockOk(s, b);
      assert At(s, i, x) == s.disk[b][x % BSIZE];
      assert x - off == x % BSIZE - off % BSIZE;
    }
  }

  /** A write of the first tot bytes, then of the next few, possibly with a block added in between. */
  lemma OverwriteMore(s0: State, s: State, m: State, s': State, i: nat, off: nat, src: seq<byte>, tot: nat, n: nat)
    requires Overwritten(s0, s, i, off, src, tot) && SameBytes(s, m) && tot + n <= |src|
    requires Overwritten(m, s', i, off + tot, src[tot..tot + n], n)
    ensures Overwritten(s0, s', i, off, src, tot + n)
  {
    forall j, x | 0 <= j < |s0.inodes| && 0 <= x
      ensures At(s', j, x) == if j == i && off <= x < off + tot + n then src[x - off] else At(s0, j, x)
    {
      assert At(m, j, x) == At(s, j, x);
    }
  }

  datatype ReadResult = Got(data: seq<byte>) | ReadError | ReadHalt(why: Halt)

  datatype WriteResult = Put(n: nat) | WriteError | WriteHalt(why: Halt)

  lemma GrewFacts(s: State, s': State, i: nat, bn: nat, b: nat)
    requires Valid(s') && Grew(s, s', i, bn, b) && HasInode(s, i)
    ensures SameBytes(s, s') && HasInode(s', i) && 0 < b < |s'.role| == |s'.disk| && s'.role[b] == Data(i, bn) && Lookup(s', i, bn) == b
  {
  }

  lemma TailSize(s: State, i: nat)
    requires TailZero(s) && i < |s.inodes|
    ensures HasInode(s, i) && (!s.inodes[i].extent ==> s.inodes[i].size <= MAXFILE * BSIZE)
  {
  }

  lemma WroteNothing(s: State, i: nat, off: nat, src: seq<byte>)
    requires Valid(s) && i < |s.inodes|
    ensures Overwritten(s, s, i, off, src, 0)
  {
    SameSelf(s);
  }

  lemma OverwriteSizes(s: State, s': State, i: nat, off: nat, src: seq<byte>, n: nat)
    requires Overwritten(s, s', i, off, src, n)
    ensures HasInode(s, i) && HasInode(s', i) && s'.inodes[i].size == s.inodes[i].size && s'.inodes[i].extent == s.inodes[i].extent
    ensures |s'.inodes| == |s.inodes| && forall j :: 0 <= j < |s.inodes| ==> HasInode(s, j)
  {
  }

  // ------------------------------------------------------------------ itrunc

  lemma FreedNothing(s: State, i: nat, lo: nat)
    requires |s.disk| == |s.role|
    ensures Freed(s, s.disk, s.role, i, lo, lo, false)
  {
  }

  /** One more block of the file goes back; no other block holds that part of the file. */
  lemma FreedOne(s: State, disk: seq<seq<byte>>, role: seq<Role>, i: nat, lo: nat, n: nat, b: nat)
    requires Valid(s) && Freed(s, disk, role, i, lo, n, false) && lo <= n
    requires HasInode(s, i) && Lookup(s, i, n) == b && b != 0
    ensures b < |role| && !role[b].Free? && Freed(s, disk[b := ZeroBlock()], role[b := Free], i, lo, n + 1, false)
  {
    assert InodeOk(s, i);
    assert MappedOk(s, i, n);
    forall c: nat | c < |s.role| && s.role[c] == Data(i, n) ensures c == b {
      assert BlockOk(s, c);
    }
  }

  lemma FreedNone(s: State, disk: seq<seq<byte>>, role: seq<Role>, i: nat, lo: nat, n: nat)
    requires Valid(s) && Freed(s, disk, role, i, lo, n, false) && HasInode(s, i) && Lookup(s, i, n) == 0 && lo <= n
    ensures Freed(s, disk, role, i, lo, n + 1, false)
  {
    forall c: nat | c < |s.role| ensures s.role[c] != Data(i, n) {
      assert BlockOk(s, c);
    }
  }

  /** itrunc on direct block n. */
  lemma DirectUnmapped(s: State, i: nat, n: nat)
    requires Valid(s) && HasInode(s, i) && !s.inodes[i].extent && n < NDIRECT && s.inodes[i].addrs[n] != 0
    ensures var b := s.inodes[i].addrs[n];
      && b < |s.role| && !s.role[b].Free?
      && var s' := WithAddr(s, i, n, 0).(disk := s.disk[b := ZeroBlock()], role := s.role[b := Free]);
         Valid(s') && Unmapped(s, s', i, n, n + 1, false)
  {
    var b := s.inodes[i].addrs[n];
    DirectLookup(s, i, n);
    FreedNothing(s, i, n);
    FreedOne(s, s.disk, s.role, i, n, n, b);
    var s' := WithAddr(s, i, n, 0).(disk := s.disk[b := ZeroBlock()], role := s.role[b := Free]);
    assert InodeOk(s, i);
    UnmappedValid(s, s', i, n, n + 1, false);
  }

  /** itrunc on the block of pointers, all blocks behind it being free already. */
  lemma PointersUnmapped(s: State, disk: seq<seq<byte>>, role: seq<Role>, i: nat)
    requires Valid(s) && HasInode(s, i) && !s.inodes[i].extent && s.inodes[i].addrs[NDIRECT] != 0
    requires Freed(s, disk, role, i, NDIRECT, MAXFILE, false)
    ensures var x := s.inodes[i].addrs[NDIRECT];
      && x < |role| && !role[x].Free?
      && var s' := State(disk[x := ZeroBlock()], WithAddr(s, i, NDIRECT, 0).inodes, role[x := Free]);
         Valid(s') && Unmapped(s, s', i, NDIRECT, MAXFILE, true)
  {
    assert InodeOk(s, i);
    var x := s.inodes[i].addrs[NDIRECT];
    var s' := State(disk[x := ZeroBlock()], WithAddr(s, i, NDIRECT, 0).inodes, role[x := Free]);
    forall c: nat | c < |s.role| && s.role[c] == Indirect(i) ensures c == x {
      assert BlockOk(s, c);
    }
    UnmappedValid(s, s', i, NDIRECT, MAXFILE, true);
  }

  /** itrunc on extent k, all its blocks being free already. */
  lemma ExtentUnmapped(s: State, disk: seq<seq<byte>>, role: seq<Role>, i: nat, k: nat)
    requires Valid(s) && HasInode(s, i) && s.inodes[i].extent && k < SLOTS
    requires var a := s.inodes[i].addrs; Freed(s, disk, role, i, a[2 * k + 1], a[2 * k + 1] + Length(a[2 * k]), false)
    ensures var a := s.inodes[i].addrs;
      var s' := State(disk, WithAddr(WithAddr(s, i, 2 * k, 0), i, 2 * k + 1, 0).inodes, role);
      Valid(s') && Unmapped(s, s', i, a[2 * k + 1], a[2 * k + 1] + Length(a[2 * k]), false)
  {
    var a := s.inodes[i].addrs;
    var s' := State(disk, WithAddr(WithAddr(s, i, 2 * k, 0), i, 2 * k + 1, 0).inodes, role);
    var a' := s'.inodes[i].addrs;
    assert InodeOk(s, i);
    assert AllApart(a);
    assert SameButSlot(a, a', k);
    forall m: nat ensures Lookup(s', i, m) == if Covers(a, k, m) then 0 else Lookup(s, i, m) {
      DropSlot(s, s', i, k, m);
    }
    forall j | 0 <= j < SLOTS ensures SlotOk(s', i, j) {
      KeepSlot(s, s', i, k, j);
    }
    forall j, l | 0 <= j < l < SLOTS ensures SlotsApart(a', j, l) {
      assert SlotsApart(a, j, l);
    }
    UnmappedValid(s, s', i, a[2 * k + 1], a[2 * k + 1] + Length(a[2 * k]), false);
  }

  lemma DropSlot(s: State, s': State, i: nat, k: nat, m: nat)
    requires HasInode(s, i) && HasInode(s', i) && s.inodes[i].extent && s'.inodes[i].extent && k < SLOTS
    requires AllApart(s.inodes[i].addrs) && SameButSlot(s.inodes[i].addrs, s'.inodes[i].addrs, k)
    requires s'.inodes[i].addrs[2 * k] == 0
    ensures Lookup(s', i, m) == if Covers(s.inodes[i].addrs, k, m) then 0 else Lookup(s, i, m)
  {
    var a, a' := s.inodes[i].addrs, s'.inodes[i].addrs;
    if Covers(a, k, m) {
      forall j | 0 <= j < SLOTS ensures !Covers(a', j, m) {
        assert j < k ==> SlotsApart(a, j, k);
        assert j > k ==> SlotsApart(a, k, j);
        assert j != k ==> a'[2 * j] == a[2 * j];
      }
    } else {
      SlotKept(a, a', k, m);
      var r := SlotOf(a, m, 0);
      assert r < SLOTS && r != k ==> a'[2 * r] == a[2 * r] && a'[2 * r + 1] == a[2 * r + 1];
    }
  }

  lemma KeepSlot(s: State, s': State, i: nat, k: nat, j: nat)
    requires Valid(s) && HasInode(s, i) && HasInode(s', i) && s.inodes[i].extent && k < SLOTS && j < SLOTS
    requires var a, a' := s.inodes[i].addrs, s'.inodes[i].addrs;
      && SameButSlot(a, a', k) && a'[2 * k] == a'[2 * k + 1] == 0
      && Freed(s, s'.disk, s'.role, i, a[2 * k + 1], a[2 * k + 1] + Length(a[2 * k]), false)
    ensures SlotOk(s', i, j)
  {
    var a, a' := s.inodes[i].addrs, s'.inodes[i].addrs;
    assert InodeOk(s, i);
    assert AllApart(a) && SlotOk(s, i, j);
    if j != k {
      assert a'[2 * j] == a[2 * j] && a'[2 * j + 1] == a[2 * j + 1];
      if j < k { assert SlotsApart(a, j, k); } else { assert SlotsApart(a, k, j); }
      var x, first := a[2 * j], a[2 * j + 1];
      forall l | 0 <= l < Length(x) ensures InPlace(s'.role, i, x, first, l) {
        assert InPlace(s.role, i, x, first, l);
      }
    }
  }

  /** Some blocks of file i were freed, and nothing else happened to the blocks or to the other inodes. */
  ghost predicate Thinned(s: State, s': State, i: nat) {
    && |s'.disk| == |s.disk| == |s'.role| == |s.role| && |s'.inodes| == |s.inodes|
    && HasInode(s, i) && HasInode(s', i) && s'.inodes[i].extent == s.inodes[i].extent
    && (forall j :: 0 <= j < |s.inodes| && j != i ==> s'.inodes[j] == s.inodes[j])
    && (forall c :: 0 <= c < |s.role| ==>
          (s'.role[c] == s.role[c] && s'.disk[c] == s.disk[c]) || (OwnedBy(s.role[c], i) && s'.role[c] == Free))
  }

  lemma UnmappedThins(s: State, m: State, s': State, i: nat, lo: nat, hi: nat, all: bool)
    requires Thinned(s, m, i) && Unmapped(m, s', i, lo, hi, all)
    ensures Thinned(s, s', i)
  {
    hide Lookup;
  }

  /** All blocks of file i are free, and only those; every other file has its bytes. */
  ghost predicate Truncated(s: State, s': State, i: nat) {
    && |s'.role| == |s.role| && OneFile(s, s', i, [])
    && (forall c :: 0 <= c < |s.role| ==> s'.role[c] == if OwnedBy(s.role[c], i) then Free else s.role[c])
  }

  /** Inode i has no pointers left, and the other inodes are as they were. */
  ghost predicate Emptied(s: State, s': State, i: nat) {
    && |s'.inodes| == |s.inodes| && HasInode(s, i) && HasInode(s', i) && s'.inodes[i].size == 0
    && (forall k :: 0 <= k <= NDIRECT ==>
          s'.inodes[i].addrs[k] == if k == NDIRECT && s.inodes[i].extent then s.inodes[i].addrs[k] else 0)
    && (forall j :: 0 <= j < |s.inodes| && j != i ==> s'.inodes[j] == s.inodes[j])
  }

  lemma EmptyOwnsNothing(s: State, i: nat)
    requires Valid(s) && HasInode(s, i) && forall k :: 0 <= k <= NDIRECT && (k < NDIRECT || !s.inodes[i].extent) ==> s.inodes[i].addrs[k] == 0
    ensures forall c :: 0 <= c < |s.role| ==> !OwnedBy(s.role[c], i)
    ensures forall off: nat :: At(s, i, off) == 0
  {
    forall m: nat ensures Lookup(s, i, m) == 0 {
      if s.inodes[i].extent {
        forall j | 0 <= j < SLOTS ensures !Covers(s.inodes[i].addrs, j, m) {
          assert s.inodes[i].addrs[2 * j] == 0;
        }
      }
    }
    forall c: nat | c < |s.role| ensures !OwnedBy(s.role[c], i) {
      assert BlockOk(s, c);
      assert InodeOk(s, i);
    }
  }

  lemma ThinnedBytes(s: State, s': State, i: nat, j: nat, x: nat)
    requires Valid(s) && Valid(s') && Thinned(s, s', i) && j < |s.inodes| && j != i
    ensures HasInode(s, j) && HasInode(s', j) && At(s', j, x) == At(s, j, x)
  {
    assert InodeOk(s, j);
    assert MappedOk(s, j, x / BSIZE);
    assert Lookup(s', j, x / BSIZE) == Lookup(s, j, x / BSIZE);
  }

  /** What itrunc achieves once all pointers of the inode are cleared. */
  lemma TruncateDone(s: State, s': State, i: nat)
    requires Valid(s) && TailZero(s) && Valid(s') && Thinned(s, s', i)
    requires forall k :: 0 <= k <= NDIRECT && (k < NDIRECT || !s'.inodes[i].extent) ==> s'.inodes[i].addrs[k] == 0
    ensures var f := WithSize(s', i, 0); Valid(f) && TailZero(f) && Truncated(s, f, i)
  {
    var f := WithSize(s', i, 0);
    EmptyOwnsNothing(s', i);
    WithSizeValid(s', i, 0);
    forall j: nat | j < |s.inodes| && j != i ensures HasInode(s, j) && HasInode(f, j) && Contents(f, j) == Contents(s, j) {
      assert InodeOk(s, j);
      forall x: nat ensures At(f, j, x) == At(s, j, x) {
        ThinnedBytes(s, s', i, j, x);
        assert At(f, j, x) == At(s', j, x);
      }
    }
    forall j: nat, x: nat | j < |f.inodes| && f.inodes[j].size <= x ensures HasInode(f, j) && At(f, j, x) == 0 {
      if j != i { ThinnedBytes(s, s', i, j, x); }
      assert At(f, j, x) == At(s', j, x);
    }
    forall c | 0 <= c < |s.role| ensures f.role[c] == if OwnedBy(s.role[c], i) then Free else s.role[c] {
      assert !OwnedBy(s'.role[c], i);
    }
  }

  lemma ThinnedSelf(s: State, i: nat)
    requires Valid(s) && HasInode(s, i)
    ensures Thinned(s, s, i)
  {
  }

  lemma ThinnedShape(s: State, s': State, i: nat)
    requires Thinned(s, s', i)
    ensures HasInode(s', i) && s'.inodes[i].extent == s.inodes[i].extent && |s'.inodes| == |s.inodes|
    ensures forall j :: 0 <= j < |s.inodes| && j != i ==> s'.inodes[j] == s.inodes[j]
  {
  }

  lemma FreedShape(s: State, disk: seq<seq<byte>>, role: seq<Role>, i: nat, lo: nat, hi: nat, all: bool)
    requires Freed(s, disk, role, i, lo, hi, all)
    ensures |disk| == |role|
  {
  }

  lemma SlotLookup(s: State, i: nat, k: nat, j: nat)
    requires Valid(s) && HasInode(s, i) && s.inodes[i].extent && k < SLOTS && j < Length(s.inodes[i].addrs[2 * k])
    ensures Lookup(s, i, s.inodes[i].addrs[2 * k + 1] + j) == Base(s.inodes[i].addrs[2 * k]) + j != 0
  {
    var a := s.inodes[i].addrs;
    assert InodeOk(s, i);
    assert AllApart(a) && SlotOk(s, i, k);
    assert Covers(a, k, a[2 * k + 1] + j);
    OneCover(a, k, a[2 * k + 1] + j);
  }

  lemma SeekContents(s: State, i: nat, size: nat)
    requires Valid(s) && TailZero(s) && HasInode(s, i) && size >= s.inodes[i].size
    ensures var s' := WithSize(s, i, size);
      && Valid(s') && (TailZero(s') <==> s.inodes[i].extent || size <= MAXFILE * BSIZE)
      && OneFile(s, s', i, Contents(s, i) + seq(size - s.inodes[i].size, _ => 0))
  {
    var s' := WithSize(s, i, size);
    WithSizeValid(s, i, size);
    hide Valid, At;
    forall x | 0 <= x < size ensures Contents(s', i)[x] == (Contents(s, i) + seq(size - s.inodes[i].size, _ => 0))[x] {
      assert Contents(s', i)[x] == At(s', i, x) == At(s, i, x);
    }
    forall j: nat | j < |s.inodes| && j != i ensures Contents(s', j) == Contents(s, j) {
      forall x | 0 <= x < s.inodes[j].size ensures Contents(s', j)[x] == Contents(s, j)[x] {
        assert Contents(s', j)[x] == At(s', j, x);
      }
    }
    forall j: nat, x: nat | j < |s.inodes| && s'.inodes[j].size <= x ensures At(s', j, x) == 0 {
      assert At(s', j, x) == At(s, j, x);
    }
  }

  // -------------------------------------------------------------------- runs

  datatype Op =
    | Read(inum: nat, off: nat, n: nat)
    | Write(inum: nat, src: seq<byte>, off: nat)
    | Seek(inum: nat, off: nat)
    | Trunc(inum: nat)
    | Create(inum: nat, extent: bool)      // the inode is freed and allocated anew with that layout

  /** The file system as its users see it: the bytes of each file, and which files have extents. */
  datatype Abs = Abs(files: seq<seq<byte>>, extents: seq<bool>)

  ghost function AbsOf(s: State): (x: Abs)
    requires AllInodes(s)
    ensures |x.files| == |x.extents| == |s.inodes|
    ensures forall j :: 0 <= j < |s.inodes| ==> x.files[j] == Contents(s, j) && x.extents[j] == s.inodes[j].extent
  {
    Abs(seq(|s.inodes|, j requires 0 <= j < |s.inodes| => Contents(s, j)),
        seq(|s.inodes|, j requires 0 <= j < |s.inodes| => s.inodes[j].extent))
  }

  predicate Applies(x: Abs, op: Op) {
    op.inum < |x.files| == |x.extents|
  }

  /** filelseek does not keep a file without extents within its pointers. */
  predicate OpOk(x: Abs, op: Op) {
    Applies(x, op) && (op.Seek? && !x.extents[op.inum] ==> op.off <= MAXFILE * BSIZE)
  }

  /** The operations on plain byte sequences, one for each file. */
  function Apply(x: Abs, op: Op): (y: Abs)
    requires Applies(x, op)
    ensures |y.files| == |y.extents| == |x.files|
  {
    var c := x.files[op.inum];
    match op
    case Read(_, _, _) => x
    case Write(i, src, off) =>
      if off > |c| || off + |src| >= WORD then x
      else x.(files := x.files[i := Splice(c, off, src[..WriteCount(x.extents[i], off, |src|)])])
    case Seek(i, off) => x.(files := x.files[i := c + seq(if off > |c| then off - |c| else 0, _ => 0)])
    case Trunc(i) => x.(files := x.files[i := []])
    case Create(i, extent) => Abs(x.files[i := []], x.extents[i := extent])
  }

  function Output(x: Abs, op: Op): seq<byte>
    requires Applies(x, op)
  {
    var c := x.files[op.inum];
    if op.Read? && op.off <= |c| && op.off + op.n < WORD then c[op.off..Min(op.off + op.n, |c|)] else []
  }

  /** Why a call does not return, if it does not. */
  ghost function OpHalt(s: State, op: Op): Halting
    requires HasInode(s, op.inum)
  {
    var size, extent := s.inodes[op.inum].size, s.inodes[op.inum].extent;
    match op
    case Read(i, off, n) =>
      if off > size || off + n >= WORD then Never
      else RangeHalt(s, i, off / BSIZE, SpanEnd(off, Min(n, size - off)))
    case Write(i, src, off) =>
      if off > size || off + |src| >= WORD then Never
      else RangeHalt(s, i, off / BSIZE, SpanEnd(off, WriteCount(extent, off, |src|)))
    case _ => Never
  }

  /** The blocks of file i go back, all others keep their roles. */
  ghost predicate Released(role: seq<Role>, role': seq<Role>, i: nat) {
    |role'| == |role| && forall c :: 0 <= c < |role| ==> role'[c] == if OwnedBy(role[c], i) then Free else role[c]
  }

  /** The inodes and the roles of all blocks after a call that returns: together with the bytes of the
      files they are the whole state. */
  ghost predicate LaidBy(s: State, op: Op, s': State)
    requires HasInode(s, op.inum)
  {
    var i, size, extent := op.inum, s.inodes[op.inum].size, s.inodes[op.inum].extent;
    match op
    case Read(_, off, n) =>
      if off > size || off + n >= WORD then s' == s
      else Laid(s, s', i, off / BSIZE, SpanEnd(off, Min(n, size - off)))
    case Write(_, src, off) =>
      if off > size || off + |src| >= WORD then s' == s
      else Laid(s, s', i, off / BSIZE, SpanEnd(off, WriteCount(extent, off, |src|)))
    case Seek(_, off) => s' == WithSize(s, i, Max(off, size))
    case Trunc(_) => Released(s.role, s'.role, i) && Emptied(s, s', i) && s'.inodes[i].extent == extent
    case Create(_, layout) => Released(s.role, s'.role, i) && s'.inodes == s.inodes[i := EmptyInode(layout)]
  }

  /** A file of bytes c after a write of src at off: nothing if off is past its end or the range passes 2^32;
      else as much of src as there is, or, without extents, as fits into 140 blocks of 512 bytes. */
  ghost predicate WroteInto(c: seq<byte>, extent: bool, src: seq<byte>, off: nat, c': seq<byte>) {
    if off > |c| || off + |src| >= 0x1_0000_0000 then c' == c
    else
      exists n :: 0 <= n <= |src| && WroteCount(extent, off, |src|, n) && WroteBytes(c, src, off, n, c')
  }

  ghost predicate WroteCount(extent: bool, off: nat, len: nat, n: nat) {
    if extent then n == len else off + n <= 140 * 512 && (n < len ==> off + n == 140 * 512)
  }

  ghost predicate WroteBytes(c: seq<byte>, src: seq<byte>, off: nat, n: nat, c': seq<byte>)
    requires n <= |src|
  {
    && |c'| == (if off + n > |c| then off + n else |c|)
    && (forall x :: 0 <= x < |c'| ==>
          if off <= x < off + n then c'[x] == src[x - off] else x < |c| && c'[x] == c[x])
  }

  /** A call changes the bytes of its own file only, and those as its name says. */
  ghost predicate ActsOn(x: Abs, op: Op, y: Abs, out: seq<byte>)
    requires Applies(x, op)
  {
    var i := op.inum;
    && |y.files| == |x.files| && |y.extents| == |x.extents|
    && (forall j :: 0 <= j < |x.files| && j != i ==> y.files[j] == x.files[j])
    && (forall j :: 0 <= j < |x.extents| && j != i ==> y.extents[j] == x.extents[j])
    && y.extents[i] == (if op.Create? then op.extent else x.extents[i])
    && match op
       case Read(_, off, n) =>
         && y.files[i] == x.files[i]
         && out == if off > |x.files[i]| || off + n >= 0x1_0000_0000 then []
                   else if off + n > |x.files[i]| then x.files[i][off..] else x.files[i][off..off + n]
       case Write(_, src, off) => out == [] && WroteInto(x.files[i], x.extents[i], src, off, y.files[i])
       case Seek(_, off) =>
         && out == [] && |y.files[i]| == (if off > |x.files[i]| then off else |x.files[i]|)
         && (forall k :: 0 <= k < |y.files[i]| ==> y.files[i][k] == if k < |x.files[i]| then x.files[i][k] else 0)
       case Trunc(_) => out == [] && y.files[i] == []
       case Create(_, _) => out == [] && y.files[i] == []
  }

  lemma ApplyActs(x: Abs, op: Op)
    requires Applies(x, op) && (op.Write? && !x.extents[op.inum] ==> |x.files[op.inum]| <= 140 * 512)
    ensures ActsOn(x, op, Apply(x, op), Output(x, op))
  {
    var i, y := op.inum, Apply(x, op);
    if op.Write? && op.off <= |x.files[i]| && op.off + |op.src| < WORD {
      var c, n := x.files[i], WriteCount(x.extents[i], op.off, |op.src|);
      assert WroteCount(x.extents[i], op.off, |op.src|, n);
      assert WroteBytes(c, op.src, op.off, n, y.files[i]);
    }
  }

  lemma PlainLimit(s: State, op: Op)
    requires TailZero(s) && AllInodes(s) && Applies(AbsOf(s), op)
    ensures !AbsOf(s).extents[op.inum] ==> |AbsOf(s).files[op.inum]| <= 140 * 512
  {
  }

  /** A call that returns: the files, what it delivers, and the layout. */
  ghost predicate ServedBy(s: State, op: Op, s': State, out: seq<byte>) {
    && AllInodes(s) && AllInodes(s') && Applies(AbsOf(s), op) && OpHalt(s, op) == Never
    && AbsOf(s') == Apply(AbsOf(s), op) && out == Output(AbsOf(s), op) && LaidBy(s, op, s')
    && ActsOn(AbsOf(s), op, AbsOf(s'), out)
  }

  /** The states of a run of calls, each of which returns. */
  ghost predicate IsRun(ops: seq<Op>, states: seq<State>, outs: seq<seq<byte>>) {
    && |states| == |outs| + 1 <= |ops| + 1
    && (forall k :: 0 <= k < |states| ==> Valid(states[k]) && TailZero(states[k]))
    && (forall k :: 0 <= k < |outs| ==> ServedBy(states[k], ops[k], states[k + 1], outs[k]))
  }

  lemma RunStarts(ops: seq<Op>, s: State)
    requires Valid(s) && TailZero(s)
    ensures IsRun(ops, [s], [])
  {
  }

  lemma RunGoesOn(ops: seq<Op>, states: seq<State>, outs: seq<seq<byte>>, s: State, out: seq<byte>)
    requires IsRun(ops, states, outs) && |outs| < |ops| && Valid(s) && TailZero(s)
    requires ServedBy(states[|outs|], ops[|outs|], s, out)
    ensures IsRun(ops, states + [s], outs + [out])
  {
    hide ServedBy, Valid, TailZero;
    var states', outs' := states + [s], outs + [out];
    forall k | 0 <= k < |outs'| ensures ServedBy(states'[k], ops[k], states'[k + 1], outs'[k]) {
      if k < |outs| {
        assert ServedBy(states[k], ops[k], states[k + 1], outs[k]);
      }
    }
  }

  /** Nothing that decides where a call stops differs between the two states. */
  ghost predicate Alike(s: State, t: State) {
    && s.role == t.role && |s.inodes| == |t.inodes| && AllInodes(s) && AllInodes(t) && AbsOf(s) == AbsOf(t)
    && (forall j :: 0 <= j < |s.inodes| ==> s.inodes[j].size == t.inodes[j].size && s.inodes[j].extent == t.inodes[j].extent)
    && (forall j :: 0 <= j < |s.inodes| && s.inodes[j].extent ==> s.inodes[j].addrs == t.inodes[j].addrs)
  }

  lemma {:induction false} MissingByRole(s: State, t: State, i: nat, lo: nat, hi: nat)
    requires Valid(s) && Valid(t) && s.role == t.role && HasInode(s, i) && HasInode(t, i)
    requires !s.inodes[i].extent && !t.inodes[i].extent
    ensures Missing(s, i, lo, hi) == Missing(t, i, lo, hi)
    decreases hi - lo
  {
    hide Lookup, Valid;
    if lo < hi {
      MissingByRole(s, t, i, lo + 1, hi);
      RolesTell(s, i, lo);
      RolesTell(t, i, lo);
    }
  }

  lemma RangeAlike(s: State, t: State, i: nat, lo: nat, hi: nat)
    requires Valid(s) && Valid(t) && HasInode(s, i) && HasInode(t, i) && s.role == t.role
    requires s.inodes[i].extent == t.inodes[i].extent && (s.inodes[i].extent ==> s.inodes[i].addrs == t.inodes[i].addrs)
    ensures RangeHalt(s, i, lo, hi) == RangeHalt(t, i, lo, hi)
  {
    hide Valid, FreeBlocks, Lookup, ExtRange;
    if !s.inodes[i].extent {
      MissingByRole(s, t, i, lo, Min(hi, MAXFILE));
      RolesTell(s, i, 0);
      RolesTell(t, i, 0);
    }
  }

  lemma AlikeHalts(s: State, t: State, op: Op)
    requires Valid(s) && Valid(t) && Alike(s, t) && op.inum < |s.inodes|
    ensures HasInode(s, op.inum) && HasInode(t, op.inum) && OpHalt(s, op) == OpHalt(t, op)
  {
    hide AbsOf, Valid, RangeHalt;
    var i := op.inum;
    var size, extent := s.inodes[i].size, s.inodes[i].extent;
    assert HasInode(s, i) && HasInode(t, i) && t.inodes[i].size == size && t.inodes[i].extent == extent;
    match op
    case Read(_, off, n) =>
      if off <= size {
        RangeAlike(s, t, i, off / BSIZE, SpanEnd(off, Min(n, size - off)));
      }
    case Write(_, src, off) =>
      RangeAlike(s, t, i, off / BSIZE, SpanEnd(off, WriteCount(extent, off, |src|)));
    case _ =>
  }

  /** Equal layouts lead to equal layouts. */
  lemma AlikeLaid(s: State, t: State, op: Op, s': State, t': State, j: nat)
    requires HasInode(s, op.inum) && HasInode(t, op.inum) && s.role == t.role && |s.inodes| == |t.inodes|
    requires forall k :: 0 <= k < |s.inodes| ==> s.inodes[k].size == t.inodes[k].size && s.inodes[k].extent == t.inodes[k].extent
    requires forall k :: 0 <= k < |s.inodes| && s.inodes[k].extent ==> s.inodes[k].addrs == t.inodes[k].addrs
    requires LaidBy(s, op, s') && LaidBy(t, op, t') && j < |s.inodes|
    ensures s'.role == t'.role && |s'.inodes| == |t'.inodes| == |s.inodes|
    ensures s'.inodes[j].extent && t'.inodes[j].extent ==> s'.inodes[j].addrs == t'.inodes[j].addrs
  {
    hide ExtAfter, PlainAfter, SpanEnd, WriteCount;
  }

  lemma AbsInode(s: State, j: nat)
    requires AllInodes(s) && j < |s.inodes|
    ensures |AbsOf(s).files| == |AbsOf(s).extents| == |s.inodes|
    ensures |AbsOf(s).files[j]| == s.inodes[j].size && AbsOf(s).extents[j] == s.inodes[j].extent
  {
  }

  lemma AlikeServed(s: State, t: State, op: Op, s': State, t': State, out: seq<byte>, out': seq<byte>)
    requires Alike(s, t) && ServedBy(s, op, s', out) && ServedBy(t, op, t', out')
    ensures Alike(s', t') && out == out'
  {
    assert HasInode(s, op.inum) && HasInode(t, op.inum);
    hide AbsOf, AllInodes, Apply, Output, OpHalt, LaidBy;
    AlikeLaid(s, t, op, s', t', op.inum);
    forall j | 0 <= j < |s'.inodes|
      ensures s'.inodes[j].size == t'.inodes[j].size && s'.inodes[j].extent == t'.inodes[j].extent
      ensures s'.inodes[j].extent ==> s'.inodes[j].addrs == t'.inodes[j].addrs
    {
      AbsInode(s', j);
      AbsInode(t', j);
      AlikeLaid(s, t, op, s', t', j);
    }
  }

  /** What a run does, and where and why it stops, is settled by the state it starts in. */
  lemma {:induction false} RunDetermined(ops: seq<Op>, a: seq<State>, outs: seq<seq<byte>>, b: seq<State>, outs': seq<seq<byte>>, k: nat)
    requires IsRun(ops, a, outs) && IsRun(ops, b, outs') && a[0] == b[0] && AllInodes(a[0]) && k <= |outs| && k <= |outs'|
    ensures Alike(a[k], b[k]) && outs[..k] == outs'[..k]
    ensures k == |outs| < |outs'| ==> HasInode(a[k], ops[k].inum) && OpHalt(a[k], ops[k]) == Never
  {
    hide Alike, ServedBy, Valid, TailZero, AllInodes;
    if k > 0 {
      RunDetermined(ops, a, outs, b, outs', k - 1);
      assert ServedBy(a[k - 1], ops[k - 1], a[k], outs[k - 1]) && ServedBy(b[k - 1], ops[k - 1], b[k], outs'[k - 1]);
      AlikeServed(a[k - 1], b[k - 1], ops[k - 1], a[k], b[k], outs[k - 1], outs'[k - 1]);
    } else {
      AlikeSelf(a[0]);
    }
    if k == |outs| < |outs'| {
      assert ServedBy(b[k], ops[k], b[k + 1], outs'[k]);
      ServedHalts(a[k], b[k], ops[k], b[k + 1], outs'[k]);
    }
  }

  lemma AlikeSelf(s: State)
    requires AllInodes(s)
    ensures Alike(s, s)
  {
  }

  lemma ServedHalts(s: State, t: State, op: Op, t': State, out: seq<byte>)
    requires Valid(s) && Valid(t) && Alike(s, t) && ServedBy(t, op, t', out)
    ensures HasInode(s, op.inum) && OpHalt(s, op) == Never
  {
    hide Valid;
    AlikeHalts(s, t, op);
  }

  /** More free blocks than the call can need if its file has no extents. */
  function Budget(op: Op): nat {
    match op
    case Read(_, off, n) => SpanEnd(off, n) - off / BSIZE + 1
    case Write(_, src, off) => SpanEnd(off, |src|) - off / BSIZE + 1
    case _ => 0
  }

  lemma EveryInode(s: State)
    requires TailZero(s)
    ensures AllInodes(s)
  {
  }

  lemma SameAbs(s: State, s': State)
    requires SameBytes(s, s')
    ensures AllInodes(s) && AllInodes(s') && AbsOf(s') == AbsOf(s)
  {
    forall j: nat | j < |s.inodes| ensures Contents(s', j) == Contents(s, j) {
      SameContents(s, s', j);
    }
  }

  lemma OneFileUpdate(s: State, s': State, i: nat, c: seq<byte>)
    requires OneFile(s, s', i, c)
    ensures AbsOf(s') == AbsOf(s).(files := AbsOf(s).files[i := c])
  {
    hide Contents;
  }

  lemma TruncatedFile(s: State, s': State, i: nat)
    requires Truncated(s, s', i)
    ensures OneFile(s, s', i, []) && |FreeBlocks(s'.role)| >= |FreeBlocks(s.role)|
    ensures i < |s'.inodes| && forall c :: 0 <= c < |s'.role| ==> !OwnedBy(s'.role[c], i)
    ensures Released(s.role, s'.role, i) && s'.inodes[i].extent == s.inodes[i].extent
  {
    FreeGrows(s.role, s'.role);
  }

  lemma FreeGrows(role: seq<Role>, role': seq<Role>)
    requires |role| == |role'| && forall c :: 0 <= c < |role| && role[c].Free? ==> role'[c].Free?
    ensures |FreeBlocks(role')| >= |FreeBlocks(role)|
  {
    SubsetSize(FreeBlocks(role), FreeBlocks(role'));
  }

  function EmptyInode(extent: bool): Inode {
    Inode(extent, seq(NDIRECT + 1, _ => 0), 0)
  }

  /** An inode that owns no block may be allocated anew, with either layout. */
  lemma CreatedValid(s: State, i: nat, extent: bool)
    requires Valid(s) && TailZero(s) && i < |s.inodes| && forall c :: 0 <= c < |s.role| ==> !OwnedBy(s.role[c], i)
    ensures var s' := s.(inodes := s.inodes[i := EmptyInode(extent)]);
      && Valid(s') && TailZero(s') && AllInodes(s) && AllInodes(s')
      && Contents(s', i) == [] && (forall j :: 0 <= j < |s.inodes| && j != i ==> Contents(s', j) == Contents(s, j))
  {
    var s' := s.(inodes := s.inodes[i := EmptyInode(extent)]);
    forall m: nat ensures Lookup(s', i, m) == 0 {
      EmptyLookup(s', i, m);
    }
    forall j: nat | j < |s.inodes| ensures InodeOk(s', j) && HasInode(s, j) {
      assert InodeOk(s, j);
      if j != i {
        InodeKept(s, s', j);
      } else {
        EmptyInodeOk(s', i);
      }
    }
    forall c: nat | c < |s.role| ensures BlockOk(s', c) {
      assert BlockOk(s, c);
    }
    forall j: nat, x: nat | j < |s.inodes| ensures At(s', j, x) == if j == i then 0 else At(s, j, x) {
    }
  }

  lemma EmptyLookup(s: State, i: nat, m: nat)
    requires HasInode(s, i) && s.inodes[i].addrs == seq(NDIRECT + 1, _ => 0)
    ensures Lookup(s, i, m) == 0
  {
    forall j | 0 <= j < SLOTS ensures !Covers(s.inodes[i].addrs, j, m) {
    }
  }

  lemma EmptyInodeOk(s: State, i: nat)
    requires HasInode(s, i) && s.inodes[i].addrs == seq(NDIRECT + 1, _ => 0) && forall m: nat :: Lookup(s, i, m) == 0
    ensures InodeOk(s, i)
  {
    forall m | 0 <= m ensures MappedOk(s, i, m) {
      assert Lookup(s, i, m) == 0;
    }
  }

  lemma CreatedAbs(s: State, m: State, i: nat, extent: bool)
    requires OneFile(s, m, i, []) && AllInodes(m)
    requires var s' := m.(inodes := m.inodes[i := EmptyInode(extent)]);
      AllInodes(s') && Contents(s', i) == [] && (forall j :: 0 <= j < |m.inodes| && j != i ==> Contents(s', j) == Contents(m, j))
    ensures var s' := m.(inodes := m.inodes[i := EmptyInode(extent)]);
      AbsOf(s') == Apply(AbsOf(s), Create(i, extent))
  {
    hide Contents;
  }

  /** The files after some calls, and what the reads among them deliver. */
  function ApplyAll(x: Abs, ops: seq<Op>): (y: Abs)
    requires forall k :: 0 <= k < |ops| ==> Applies(x, ops[k])
    ensures |y.files| == |x.files| && (|x.files| == |x.extents| ==> |y.extents| == |x.extents|)
  {
    if ops == [] then x
    else
      assert Applies(x, ops[|ops| - 1]);
      Apply(ApplyAll(x, ops[..|ops| - 1]), ops[|ops| - 1])
  }

  function Outputs(x: Abs, ops: seq<Op>): seq<seq<byte>>
    requires forall k :: 0 <= k < |ops| ==> Applies(x, ops[k])
  {
    if ops == [] then []
    else
      assert Applies(x, ops[|ops| - 1]);
      Outputs(x, ops[..|ops| - 1]) + [Output(ApplyAll(x, ops[..|ops| - 1]), ops[|ops| - 1])]
  }

  /** Every call is made on a state in which it is sound. */
  ghost predicate RunOk(x: Abs, ops: seq<Op>) {
    && (forall k :: 0 <= k < |ops| ==> Applies(x, ops[k]))
    && (forall k :: 0 <= k < |ops| ==> OpOk(ApplyAll(x, ops[..k]), ops[k]))
  }

  function TotalBudget(ops: seq<Op>): nat {
    if ops == [] then 0 else Budget(ops[0]) + TotalBudget(ops[1..])
  }

  /** No file has extents, now or later. */
  ghost predicate AllPlain(x: Abs, ops: seq<Op>) {
    (forall j :: 0 <= j < |x.extents| ==> !x.extents[j]) && forall k :: 0 <= k < |ops| && ops[k].Create? ==> !ops[k].extent
  }

  /** A call within its budget returns. */
  lemma BudgetReturns(s: State, op: Op)
    requires TailZero(s) && HasInode(s, op.inum) && !s.inodes[op.inum].extent && |FreeBlocks(s.role)| >= Budget(op)
    ensures OpHalt(s, op) == Never
    ensures (op.Read? || op.Write?) && op.off <= s.inodes[op.inum].size ==>
      var n := if op.Read? then Min(op.n, s.inodes[op.inum].size - op.off) else WriteCount(false, op.off, |op.src|);
      NeedRange(s, op.inum, op.off / BSIZE, SpanEnd(op.off, n)) <= Budget(op)
  {
    hide Lookup;
    var i, size := op.inum, s.inodes[op.inum].size;
    if (op.Read? || op.Write?) && op.off <= size {
      var n := if op.Read? then Min(op.n, size - op.off) else WriteCount(false, op.off, |op.src|);
      var lo, hi := op.off / BSIZE, SpanEnd(op.off, n);
      assert hi <= SpanEnd(op.off, if op.Read? then op.n else |op.src|);
      assert op.off + n <= MAXFILE * BSIZE;
      assert hi <= MAXFILE || n == 0;
      MissingBound(s, i, lo, hi);
      if n > 0 {
        RoomReturns(s, i, lo, hi);
      }
    }
  }

  /** How many bytes writei writes. */
  function WriteCount(extent: bool, start: nat, n: nat): nat {
    if extent then n else if start > MAXFILE * BSIZE then 0 else Min(n, MAXFILE * BSIZE - start)
  }

  lemma OverwritePrefix(s: State, s': State, i: nat, start: nat, bytes: seq<byte>, src: seq<byte>, t: nat)
    requires Overwritten(s, s', i, start, bytes, t) && bytes <= src
    ensures Overwritten(s, s', i, start, src, t)
  {
    hide At;
  }

  lemma TailAfter(s: State, s': State)
    requires SameBytes(s, s')
    ensures TailZero(s) ==> TailZero(s')
  {
    if TailZero(s) {
      SameTail(s, s');
    }
  }

  lemma OverwriteKept(s: State, m: State, s': State, i: nat, start: nat, bytes: seq<byte>, src: seq<byte>, tot: nat)
    requires Overwritten(s, m, i, start, bytes, tot) && SameBytes(m, s') && bytes <= src
    ensures Overwritten(s, s', i, start, src, tot)
  {
    hide At;
    forall j, x | 0 <= j < |s.inodes| && 0 <= x
      ensures At(s', j, x) == if j == i && start <= x < start + tot then src[x - start] else At(s, j, x)
    {
      assert At(s', j, x) == At(m, j, x);
    }
  }

  // ------------------------------------------------- when calls are sure to return

  function EmptyCount(a: seq<nat>, k: nat): (n: nat)
    requires |a| == NDIRECT + 1 && k <= SLOTS
  {
    if k == 0 then 0 else EmptyCount(a, k - 1) + if EmptySlot(a, k - 1) then 1 else 0
  }

  lemma {:induction false} FilledSlot(a: seq<nat>, a': seq<nat>, f: nat, k: nat)
    requires |a| == |a'| == NDIRECT + 1 && k <= SLOTS && f < SLOTS && EmptySlot(a, f) && !EmptySlot(a', f)
    requires forall j :: 0 <= j < SLOTS && j != f ==> (EmptySlot(a', j) <==> EmptySlot(a, j))
    ensures EmptyCount(a', k) == EmptyCount(a, k) - if f < k then 1 else 0
  {
    if k > 0 {
      FilledSlot(a, a', f, k - 1);
    }
  }

  lemma {:induction false} SameSlots(a: seq<nat>, a': seq<nat>, k: nat)
    requires |a| == |a'| == NDIRECT + 1 && k <= SLOTS && forall j :: 0 <= j < SLOTS ==> (EmptySlot(a', j) <==> EmptySlot(a, j))
    ensures EmptyCount(a', k) == EmptyCount(a, k)
  {
    if k > 0 {
      SameSlots(a, a', k - 1);
    }
  }

  lemma {:induction false} SomeEmpty(a: seq<nat>, k: nat)
    requires |a| == NDIRECT + 1 && k <= SLOTS && EmptyCount(a, k) > 0
    ensures EmptyBefore(a, k) >= 0
  {
    if !EmptySlot(a, k - 1) {
      SomeEmpty(a, k - 1);
    }
  }

  predicate Short(a: seq<nat>, n: nat)
    requires |a| == NDIRECT + 1
  {
    forall k :: 0 <= k < SLOTS ==> SlotLength(a, k) + n <= 255
  }

  function SlotLength(a: seq<nat>, k: nat): nat
    requires |a| == NDIRECT + 1 && k < SLOTS
  {
    Length(a[2 * k])
  }

  /** Room for n more blocks in an extent file: free blocks, empty slots and length bytes. */
  ghost predicate ExtRoom(a: seq<nat>, role: seq<Role>, n: nat)
    requires |a| == NDIRECT + 1
  {
    |FreeBlocks(role)| >= n && EmptyCount(a, SLOTS) >= n && Short(a, n)
  }

  lemma ExtRoomStep(a: seq<nat>, role: seq<Role>, i: nat, bn: nat, n: nat)
    requires |a| == NDIRECT + 1 && ExtRoom(a, role, n) && n > 0
    ensures var t := ExtMap(a, role, i, bn); t.ExtOk? && ExtRoom(t.addrs, t.role, n - 1)
  {
    NoneFree(role);
    SomeEmpty(a, SLOTS);
    var t := ExtMap(a, role, i, bn);
    var b, m, f := FirstFree(role, 0), LastContinued(a, bn, SLOTS), EmptyBefore(a, SLOTS);
    if SlotOf(a, bn, 0) == SLOTS {
      OneTaken(role, b, Data(i, bn));
      if m >= 0 && b == Base(a[2 * m]) + Length(a[2 * m]) {
        assert SlotLength(a, m) + n <= 255;
        NoCarry(a[2 * m]);
        ExtendedRoom(a, m, n);
      } else {
        OpenedRoom(a, f, b, bn, n);
      }
    }
  }

  lemma ExtendedRoom(a: seq<nat>, m: nat, n: nat)
    requires |a| == NDIRECT + 1 && m < SLOTS && n > 0 && Short(a, n) && EmptyCount(a, SLOTS) >= n
    ensures var a' := a[2 * m := a[2 * m] + 1]; Short(a', n - 1) && EmptyCount(a', SLOTS) >= n - 1
  {
    var a' := a[2 * m := a[2 * m] + 1];
    assert SlotLength(a, m) + n <= 255;
    NoCarry(a[2 * m]);
    forall k | 0 <= k < SLOTS ensures SlotLength(a', k) + (n - 1) <= 255 {
      assert SlotLength(a, k) + n <= 255;
    }
    if EmptySlot(a, m) {
      FilledSlot(a, a', m, SLOTS);
    } else {
      SameSlots(a, a', SLOTS);
    }
  }

  lemma OpenedRoom(a: seq<nat>, f: nat, b: nat, bn: nat, n: nat)
    requires |a| == NDIRECT + 1 && f < SLOTS && n > 0 && Short(a, n) && EmptyCount(a, SLOTS) >= n && EmptySlot(a, f)
    ensures var a' := a[2 * f := b * 256 + 1][2 * f + 1 := bn]; Short(a', n - 1) && EmptyCount(a', SLOTS) >= n - 1
  {
    var a' := a[2 * f := b * 256 + 1][2 * f + 1 := bn];
    assert SlotLength(a, f) + n <= 255;
    forall k | 0 <= k < SLOTS ensures SlotLength(a', k) + (n - 1) <= 255 {
      assert SlotLength(a, k) + n <= 255;
      assert k != f ==> a'[2 * k] == a[2 * k];
    }
    forall j | 0 <= j < SLOTS && j != f ensures EmptySlot(a', j) <==> EmptySlot(a, j) {
    }
    FilledSlot(a, a', f, SLOTS);
  }

  /** With room for all of them, mapping blocks lo..hi of an extent file returns. */
  lemma {:induction false} ExtRangeReturns(a: seq<nat>, role: seq<Role>, i: nat, lo: nat, hi: nat)
    requires |a| == NDIRECT + 1 && lo <= hi && ExtRoom(a, role, hi - lo)
    ensures ExtRange(a, role, i, lo, hi) == Never
    decreases hi - lo
  {
    hide ExtMap, ExtRoom;
    if lo < hi {
      ExtRoomStep(a, role, i, lo, hi - lo);
      var t := ExtMap(a, role, i, lo);
      ExtRangeReturns(t.addrs, t.role, i, lo + 1, hi);
    }
  }

  lemma {:induction false} MissingBound(s: State, i: nat, lo: nat, hi: nat)
    requires HasInode(s, i)
    ensures Missing(s, i, lo, hi) <= if lo < hi then hi - lo else 0
    decreases hi - lo
  {
    if lo < hi {
      MissingBound(s, i, lo + 1, hi);
    }
  }

  /** Room for n more blocks of file i, wherever they go. */
  ghost predicate Room(s: State, i: nat, n: nat)
    requires HasInode(s, i)
  {
    if s.inodes[i].extent then ExtRoom(s.inodes[i].addrs, s.role, n) else |FreeBlocks(s.role)| > n
  }

  lemma RoomReturns(s: State, i: nat, lo: nat, hi: nat)
    requires HasInode(s, i) && (lo < hi ==> Room(s, i, hi - lo)) && (!s.inodes[i].extent ==> hi <= MAXFILE)
    ensures RangeHalt(s, i, lo, hi) == Never
  {
    if lo < hi {
      if s.inodes[i].extent {
        ExtRangeReturns(s.inodes[i].addrs, s.role, i, lo, hi);
      } else {
        MissingBound(s, i, lo, hi);
      }
    }
  }

  /** In a file without extents, exactly the bytes beyond its pointers cannot be read one by one. */
  lemma UnreadableBytes(s: State, i: nat, off: nat)
    requires Valid(s) && HasInode(s, i) && !s.inodes[i].extent
    ensures RangeHalt(s, i, off / BSIZE, SpanEnd(off, 1)) == Because(OutOfRange) <==> off >= MAXFILE * BSIZE
  {
    var bn := off / BSIZE;
    assert SpanEnd(off, 1) == bn + 1;
    if bn >= NDIRECT && s.inodes[i].addrs[NDIRECT] == 0 {
      NoPointers(s, i, bn);
    }
    BlockHaltPlain(s, i, bn);
  }

  /** So a seek leaves such a file with unreadable bytes if and only if it goes past 140 blocks. */
  lemma SeekReadable(s: State, i: nat, size: nat)
    requires Valid(s) && HasInode(s, i) && !s.inodes[i].extent
    ensures var s' := WithSize(s, i, size);
      HasInode(s', i) && ((exists off :: 0 <= off < size && Unreadable(s', i, off)) <==> size > MAXFILE * BSIZE)
  {
    WithSizeValid(s, i, size);
    var s' := WithSize(s, i, size);
    forall off | 0 <= off < size ensures Unreadable(s', i, off) <==> off >= MAXFILE * BSIZE {
      UnreadableBytes(s', i, off);
    }
    if size > MAXFILE * BSIZE {
      assert Unreadable(s', i, MAXFILE * BSIZE);
    }
  }

  /** A read of this one byte ends in the panic of bmap. */
  ghost predicate Unreadable(s: State, i: nat, off: nat)
    requires HasInode(s, i)
  {
    RangeHalt(s, i, off / BSIZE, SpanEnd(off, 1)) == Because(OutOfRange)
  }

  /** From the lowest free block on, 256 blocks are free. */
  predicate LongRun(role: seq<Role>) {
    var r := FirstFree(role, 0);
    1 <= r && r + 256 <= |role| && forall c :: r <= c < r + 256 ==> role[c].Free?
  }

  function Filled(role: seq<Role>, i: nat, r: nat, h: nat): (role': seq<Role>)
    ensures |role'| == |role| && forall c :: 0 <= c < |role| ==> role'[c] == if r <= c < r + h then Data(i, c - r) else role[c]
  {
    seq(|role|, c requires 0 <= c < |role| => if r <= c < r + h then Data(i, c - r) else role[c])
  }

  /** Up to 255 blocks of an empty file go into one extent. */
  lemma {:induction false} FillExtent(role: seq<Role>, i: nat, h: nat)
    requires LongRun(role) && 1 <= h <= 255
    ensures var r, a := FirstFree(role, 0), EmptyInode(true).addrs;
      ExtAfter(a, role, i, 0, h) == ExtOk(a[0 := r * 256 + h], Filled(role, i, r, h))
    decreases h
  {
    hide ExtMap, Filled, LongRun, FirstFree;
    if h == 1 {
      FillFirst(role, i);
    } else {
      FillExtent(role, i, h - 1);
      FillNext(role, i, h - 1);
    }
  }

  lemma FillFirst(role: seq<Role>, i: nat)
    requires LongRun(role)
    ensures var r, a := FirstFree(role, 0), EmptyInode(true).addrs;
      ExtAfter(a, role, i, 0, 1) == ExtOk(a[0 := r * 256 + 1], Filled(role, i, r, 1))
  {
    hide Filled;
    var r, a := FirstFree(role, 0), EmptyInode(true).addrs;
    assert forall k :: 0 <= k < SLOTS ==> EmptySlot(a, k);
    NoSlotCovers(a, 0);
    assert EmptyBefore(a, SLOTS) == 0;
    assert ExtAfter(a, role, i, 0, 0) == ExtOk(a, role);
    assert a[0 := r * 256 + 1][1 := 0] == a[0 := r * 256 + 1];
    assert role[r := Data(i, 0)] == Filled(role, i, r, 1);
  }

  lemma {:induction false} NoSlotCovers(a: seq<nat>, bn: nat)
    requires |a| == NDIRECT + 1 && forall k :: 0 <= k < SLOTS ==> !Covers(a, k, bn)
    ensures SlotOf(a, bn, 0) == SLOTS
  {
  }

  lemma FilledSlots(a: seq<nat>, r: nat, h: nat)
    requires |a| == NDIRECT + 1 && a[0] == r * 256 + h && 1 <= h <= 255 && forall k :: 1 <= k < |a| ==> a[k] == 0
    ensures Base(a[0]) == r && Length(a[0]) == h
    ensures SlotOf(a, h, 0) == SLOTS && LastContinued(a, h, SLOTS) == 0
  {
    forall k | 1 <= k < SLOTS ensures !Covers(a, k, h) && !Continues(a, k, h) {
      assert a[2 * k] == 0 && a[2 * k + 1] == 0;
    }
    NoSlotCovers(a, h);
    assert Continues(a, 0, h);
  }

  lemma LowestIs(role: seq<Role>, b: nat)
    requires b < |role| && role[b].Free? && forall c :: 0 <= c < b ==> !role[c].Free?
    ensures FirstFree(role, 0) == b
  {
  }

  lemma FilledMore(role: seq<Role>, i: nat, r: nat, h: nat)
    requires r + h < |role|
    ensures Filled(role, i, r, h)[r + h := Data(i, h)] == Filled(role, i, r, h + 1)
  {
    hide FirstFree, LongRun, Filled;
    assert Filled(role, i, r, h)[r + h := Data(i, h)] == Filled(role, i, r, h + 1);
  }

  lemma FilledFree(role: seq<Role>, i: nat, r: nat, h: nat)
    requires r == FirstFree(role, 0) && LongRun(role) && 1 <= h <= 255
    ensures FirstFree(Filled(role, i, r, h), 0) == r + h < |role|
    ensures Filled(role, i, r, h)[r + h := Data(i, h)] == Filled(role, i, r, h + 1)
  {
    assert role[r + h].Free?;
    hide LongRun, FirstFree, Filled;
    LowestIs(Filled(role, i, r, h), r + h);
    FilledMore(role, i, r, h);
  }

  lemma FillNext(role: seq<Role>, i: nat, h: nat)
    requires LongRun(role) && 1 <= h <= 255
    ensures var r, a := FirstFree(role, 0), EmptyInode(true).addrs;
      ExtMap(a[0 := r * 256 + h], Filled(role, i, r, h), i, h) ==
        if h == 255 then ExtStop(Carry) else ExtOk(a[0 := r * 256 + h + 1], Filled(role, i, r, h + 1))
  {
    hide Base, Length, FirstFree, LastContinued, EmptyBefore, SlotOf, Filled, LongRun;
    var r, a := FirstFree(role, 0), EmptyInode(true).addrs;
    FilledSlots(a[0 := r * 256 + h], r, h);
    FilledFree(role, i, r, h);
  }

  /** Mapping a range is mapping its beginning and then, in the layout that leaves, the rest. */
  lemma {:induction false} RangeAfter(a: seq<nat>, role: seq<Role>, i: nat, lo: nat, mid: nat, hi: nat)
    requires |a| == NDIRECT + 1 && lo <= mid <= hi && ExtAfter(a, role, i, lo, mid).ExtOk?
    ensures var t := ExtAfter(a, role, i, lo, mid); ExtRange(a, role, i, lo, hi) == ExtRange(t.addrs, t.role, i, mid, hi)
    decreases mid
  {
    hide ExtMap;
    if lo < mid {
      RangeAfter(a, role, i, lo, mid - 1, hi);
    }
  }

  /** The carry is real: it stops the first write of more than 255 blocks to an empty extent file, wherever
      256 blocks are free from the lowest free one on. */
  lemma CarryIsReal(s: State, i: nat, src: seq<byte>)
    requires HasInode(s, i) && s.inodes[i] == EmptyInode(true) && LongRun(s.role) && 255 * BSIZE < |src| < WORD
    ensures OpHalt(s, Write(i, src, 0)) == Because(Carry)
  {
    hide ExtMap, ExtAfter, Filled, LongRun, FirstFree, FreeBlocks, NeedRange;
    var a, hi := EmptyInode(true).addrs, SpanEnd(0, |src|);
    assert hi >= 256;
    FillExtent(s.role, i, 255);
    FillNext(s.role, i, 255);
    RangeAfter(a, s.role, i, 0, 255, hi);
  }

  // ------------------------------------------------------------ loops over blocks

  /** State s is where a call that set out in s0 to map blocks lo..end stands before block blk: it stops for
      the same reason, and a file without extents has taken the blocks it needed so far. */
  ghost predicate Onward(s0: State, s: State, i: nat, lo: nat, blk: nat, end: nat) {
    && HasInode(s0, i) && HasInode(s, i) && s.inodes[i].extent == s0.inodes[i].extent
    && RangeHalt(s, i, blk, end) == RangeHalt(s0, i, lo, end)
    && (!s0.inodes[i].extent ==>
          |FreeBlocks(s.role)| - NeedRange(s, i, blk, end) == |FreeBlocks(s0.role)| - NeedRange(s0, i, lo, end))
  }

  /** The file has all the blocks lo..hi. */
  ghost predicate AllMapped(s: State, i: nat, lo: nat, hi: nat)
    requires HasInode(s, i)
  {
    forall m: nat :: lo <= m < hi ==> Lookup(s, i, m) != 0
  }

  lemma MappedStays(s: State, s': State, i: nat, bn: nat, b: nat, lo: nat, hi: nat)
    requires HasInode(s, i) && Grew(s, s', i, bn, b) && lo <= bn < hi
    ensures AllMapped(s, i, lo, hi) ==> s' == s
  {
    hide Lookup;
  }

  lemma MappedReturns(s: State, i: nat, bn: nat, lo: nat, hi: nat)
    requires HasInode(s, i) && lo <= bn < hi && Valid(s)
    ensures AllMapped(s, i, lo, hi) ==> BlockHalt(s, i, bn) == Never
  {
    if AllMapped(s, i, lo, hi) {
      assert Lookup(s, i, bn) != 0;
      if s.inodes[i].extent {
        ExtentAbsent(s, i, bn);
        BlockHaltExtent(s, i, bn);
      } else {
        BlockHaltPlain(s, i, bn);
      }
    }
  }

  lemma OnwardStart(s: State, i: nat, lo: nat, end: nat)
    requires HasInode(s, i)
    ensures Onward(s, s, i, lo, lo, end)
  {
  }

  lemma OnwardStep(s0: State, s: State, s': State, i: nat, lo: nat, blk: nat, end: nat, b: nat)
    requires Onward(s0, s, i, lo, blk, end) && HasInode(s', i) && Grew(s, s', i, blk, b) && blk < end
    requires s.inodes[i].extent ==> ExtMap(s.inodes[i].addrs, s.role, i, blk) == ExtOk(s'.inodes[i].addrs, s'.role)
    requires !s.inodes[i].extent ==> blk < MAXFILE
    ensures Onward(s0, s', i, lo, blk + 1, end)
  {
    hide Lookup, FreeBlocks, ExtMap, RangeHalt;
    RangeStep(s, s', i, blk, b, end);
    if !s.inodes[i].extent {
      MissingSame(s, s', i, blk + 1, end);
    }
  }

  lemma OnwardPatched(s0: State, s: State, i: nat, lo: nat, blk: nat, end: nat, bn: nat, b: nat, data: seq<byte>)
    requires Onward(s0, s, i, lo, blk, end) && Valid(s) && b < |s.role| && s.role[b] == Data(i, bn) && |data| == BSIZE
    ensures Onward(s0, s.(disk := s.disk[b := data]), i, lo, blk, end)
  {
    var s' := s.(disk := s.disk[b := data]);
    forall m: nat ensures Lookup(s', i, m) == Lookup(s, i, m) {
      WrittenLookup(s, i, bn, b, data, i, m);
    }
    hide Lookup, RangeHalt, Valid;
    RangeSame(s, s', i, blk, end);
    MissingSame(s, s', i, blk, end);
  }

  lemma OnwardStops(s0: State, s: State, i: nat, lo: nat, blk: nat, end: nat)
    requires Onward(s0, s, i, lo, blk, end) && blk < end && BlockHalt(s, i, blk) != Never
    ensures RangeHalt(s0, i, lo, end) == BlockHalt(s, i, blk)
  {
    hide RangeHalt, BlockHalt;
    RangeStops(s, i, blk, end);
  }

  lemma OnwardEnd(s0: State, s: State, i: nat, lo: nat, end: nat)
    requires Onward(s0, s, i, lo, end, end)
    ensures RangeHalt(s0, i, lo, end) == Never
    ensures !s0.inodes[i].extent ==> |FreeBlocks(s.role)| == |FreeBlocks(s0.role)| - NeedRange(s0, i, lo, end)
  {
  }

  lemma AbsShape(s: State, op: Op)
    requires AllInodes(s) && OpOk(AbsOf(s), op)
    ensures HasInode(s, op.inum) && Applies(AbsOf(s), op) && AbsOf(s).extents[op.inum] == s.inodes[op.inum].extent
  {
  }

  lemma NoOps(x: Abs, ops: seq<Op>)
    ensures ApplyAll(x, ops[..0]) == x && Outputs(x, ops[..0]) == [] && TotalBudget(ops[0..]) == TotalBudget(ops)
  {
    assert ops[0..] == ops;
  }

  lemma OneMoreOp(x: Abs, ops: seq<Op>, k: nat)
    requires k < |ops| && RunOk(x, ops)
    ensures var y := ApplyAll(x, ops[..k]);
      && Applies(y, ops[k]) && ApplyAll(x, ops[..k + 1]) == Apply(y, ops[k])
      && Outputs(x, ops[..k + 1]) == Outputs(x, ops[..k]) + [Output(y, ops[k])]
    ensures TotalBudget(ops[k..]) == Budget(ops[k]) + TotalBudget(ops[k + 1..])
  {
    hide Apply, Output, Budget;
    assert Applies(x, ops[k]);
    assert ops[..k + 1][..k] == ops[..k] && ops[k..][1..] == ops[k + 1..];
  }

  lemma PlainStays(x: Abs, ops: seq<Op>, k: nat)
    requires k < |ops| && Applies(x, ops[k])
    ensures AllPlain(x, ops) ==> AllPlain(Apply(x, ops[k]), ops) && !x.extents[ops[k].inum]
  {
  }

  class FileSystem {
    var bits: seq<bv8>
    var disk: seq<seq<byte>>
    var inodes: seq<Inode>
    ghost var role: seq<Role>

    ghost function S(): State
      reads this
    {
      State(disk, inodes, role)
    }

    /** A file system on a finished image. */
    constructor (bits: seq<bv8>, disk: seq<seq<byte>>, inodes: seq<Inode>, ghost role: seq<Role>)
      requires Valid(State(disk, inodes, role)) && BitsOk(bits, role) && TailZero(State(disk, inodes, role))
      ensures Good() && S() == State(disk, inodes, role)
    {
      this.bits := bits;
      this.disk := disk;
      this.inodes := inodes;
      this.role := role;
    }

    /** balloc. A scan that leaves the disk is reported like one that finds nothing. */
    method Balloc() returns (ok: bool, b: nat)
      requires BitsOk(bits, role) && |role| == |disk|
      modifies this`bits, this`role
      ensures ok <==> exists c :: 0 <= c < |old(role)| && old(role)[c].Free?
      ensures ok ==> b < |old(role)| && old(role)[b].Free? && role == old(role)[b := Meta]
      ensures ok ==> b == FirstFree(old(role), 0)
      ensures !ok ==> role == old(role)
      ensures BitsOk(bits, role)
    {
      hide InUse;
      ok, b := FirstClear(bits, |disk|);
      assert AllInUse(bits, |role|) <==> forall c :: 0 <= c < |role| ==> !role[c].Free?;
      if ok {
        BitsMarked(bits, role, b, Meta);
        bits := Marked(bits, b);
        if b < |disk| {
          role := role[b := Meta];
        } else {
          ok := false;
        }
      }
    }

    /** bfree; the panic on a free block cannot happen. */
    method Bfree(b: nat)
      requires BitsOk(bits, role) && |role| == |disk| && b < |role| && !role[b].Free?
      modifies this`bits, this`role, this`disk
      ensures BitsOk(bits, role) && role == old(role)[b := Free] && disk == old(disk)[b := ZeroBlock()]
    {
      hide InUse;
      disk := disk[b := ZeroBlock()];
      BitsCleared(bits, role, b);
      assert InUse(bits, b);
      bits := Cleared(bits, b);
      role := role[b := Free];
    }

    /** bmap on an inode with direct and indirect blocks */
    method BmapPlain(i: nat, bn: nat) returns (r: BmapResult)
      requires Valid(S()) && BitsOk(bits, role) && HasInode(S(), i) && !inodes[i].extent
      modifies this
      ensures BitsOk(bits, role)
      ensures r.Found? ==> Valid(S()) && Grew(old(S()), S(), i, bn, r.addr)
      ensures r.Stop? ==> Valid(S()) && SameBytes(old(S()), S())
      ensures r == Stop(OutOfRange) <==> bn >= MAXFILE
      ensures r == Stop(Full) <==> bn < MAXFILE && |FreeBlocks(old(role))| < old(Needed(S(), i, bn))
      ensures r != Stop(Carry) && HaltsAs(old(BlockHalt(S(), i, bn)), r)
    {
      hide Valid, BitsOk, Grew, SameBytes, Lookup, FreeBlocks, BlockHalt;
      ghost var s0 := S();
      Shape(s0);
      SameSelf(s0);
      NoneFree(s0.role);
      assert bn >= NDIRECT && inodes[i].addrs[NDIRECT] == 0 ==> Lookup(s0, i, bn) == 0 by {
        if bn >= NDIRECT && inodes[i].addrs[NDIRECT] == 0 { NoPointers(s0, i, bn); }
      }
      BlockHaltPlain(s0, i, bn);
      if bn < NDIRECT {
        DirectLookup(s0, i, bn);
        if inodes[i].addrs[bn] != 0 {
          GrewSelf(s0, i, bn);
          return Found(inodes[i].addrs[bn]);
        }
        var ok, b := Balloc();
        if !ok {
          return Stop(Full);
        }
        DirectMapped(s0, i, bn, b);
        inodes := inodes[i := inodes[i].(addrs := inodes[i].addrs[bn := b])];
        Retake(s0.role, bits, b, Data(i, bn));
        role := role[b := Data(i, bn)];
        GrewMapped(s0, S(), i, bn, b);
        return Found(b);
      }
      if bn < MAXFILE {
        if inodes[i].addrs[NDIRECT] == 0 {
          NoPointers(s0, i, bn);
          var ok, x := Balloc();
          if !ok {
            return Stop(Full);
          }
          IndirectTaken(s0, i, x);
          IndirectSame(s0, i, x);
          inodes := inodes[i := inodes[i].(addrs := inodes[i].addrs[NDIRECT := x])];
          Retake(s0.role, bits, x, Indirect(i));
          OneTaken(s0.role, x, Indirect(i));
          role := role[x := Indirect(i)];
          ghost var m := S();
          assert m == WithAddr(s0, i, NDIRECT, x).(role := s0.role[x := Indirect(i)]);
          r := BmapPointer(i, bn);
          if r.Found? {
            GrewBoth(s0, m, S(), i, bn, x, r.addr);
          } else {
            SameStep(s0, m, S());
          }
          return;
        }
        r := BmapPointer(i, bn);
        return;
      }
      return Stop(OutOfRange);
    }

    /** bmap through the block of pointers */
    method BmapPointer(i: nat, bn: nat) returns (r: BmapResult)
      requires Valid(S()) && BitsOk(bits, role) && HasInode(S(), i) && !inodes[i].extent
      requires NDIRECT <= bn < MAXFILE && inodes[i].addrs[NDIRECT] != 0
      modifies this
      ensures BitsOk(bits, role)
      ensures r.Found? ==> Valid(S()) && Grew(old(S()), S(), i, bn, r.addr)
      ensures r.Stop? ==> r.why == Full && Valid(S()) && SameBytes(old(S()), S())
      ensures r.Stop? <==> |FreeBlocks(old(role))| == 0 && old(Lookup(S(), i, bn)) == 0
    {
      hide Valid, BitsOk, Grew, SameBytes, Lookup, FreeBlocks;
      ghost var s0 := S();
      Shape(s0);
      SameSelf(s0);
      NoneFree(s0.role);
      PointerLookup(s0, i, bn);
      var x := inodes[i].addrs[NDIRECT];
      var addr := GetWord(disk[x], bn - NDIRECT);
      if addr != 0 {
        GrewSelf(s0, i, bn);
        return Found(addr);
      }
      var ok, b := Balloc();
      if !ok {
        return Stop(Full);
      }
      PointerMapped(s0, i, bn, b);
      disk := disk[x := PutWord(disk[x], bn - NDIRECT, b)];
      Retake(s0.role, bits, b, Data(i, bn));
      role := role[b := Data(i, bn)];
      GrewMapped(s0, S(), i, bn, b);
      return Found(b);
    }

    /** bmap on an inode with extents */
    method BmapExtent(i: nat, bn: nat) returns (r: BmapResult)
      requires Valid(S()) && BitsOk(bits, role) && HasInode(S(), i) && inodes[i].extent
      modifies this
      ensures r.Found? ==> Valid(S()) && BitsOk(bits, role) && Grew(old(S()), S(), i, bn, r.addr)
      ensures r.Found? ==> ExtMap(old(inodes)[i].addrs, old(role), i, bn) == ExtOk(inodes[i].addrs, role)
      ensures r.Stop? && r.why != Carry ==> Valid(S()) && BitsOk(bits, role) && SameBytes(old(S()), S())
      ensures r == Stop(Full) <==> |FreeBlocks(old(role))| < old(Needed(S(), i, bn))
      ensures r == Stop(OutOfRange) ==> forall k :: 0 <= k < SLOTS ==> !EmptySlot(old(inodes)[i].addrs, k)
      ensures r == Stop(Carry) <==> old(CarryDue(S(), i, bn))
      ensures r == Stop(Carry) <==> !Valid(S())
      ensures HaltsAs(old(BlockHalt(S(), i, bn)), r)
    {
      hide Valid, BitsOk, Grew, SameBytes, Lookup, FreeBlocks, BlockHalt;
      ghost var s0 := S();
      Shape(s0);
      SameSelf(s0);
      NoneFree(s0.role);
      BlockHaltExtent(s0, i, bn);
      ExtCases(s0, i, bn);
      hide ExtMap, CarryDue, EmptyBefore, SlotOf;
      var a := inodes[i].addrs;
      var k, fill, neighbor := FindExtent(a, bn);
      ExtentLookup(s0, i, bn);
      if k < SLOTS {
        GrewSelf(s0, i, bn);
        return Found(Base(a[2 * k]) + (bn - a[2 * k + 1]));
      }
      var ok, b := Balloc();
      if !ok {
        return Stop(Full);
      }
      r := PlaceBlock(s0, i, bn, b, fill, neighbor);
    }

    /** The second half of bmap on extents: the block b that balloc took is put into an extent. */
    method PlaceBlock(ghost s0: State, i: nat, bn: nat, b: nat, fill: int, neighbor: int) returns (r: BmapResult)
      requires Valid(s0) && HasInode(s0, i) && s0.inodes[i].extent && SlotOf(s0.inodes[i].addrs, bn, 0) == SLOTS
      requires b == FirstFree(s0.role, 0) < |s0.role| && S() == s0.(role := s0.role[b := Meta]) && BitsOk(bits, role)
      requires fill == EmptyBefore(inodes[i].addrs, SLOTS) && neighbor == LastContinued(inodes[i].addrs, bn, SLOTS)
      modifies this
      ensures r.Found? ==> Valid(S()) && BitsOk(bits, role) && Grew(s0, S(), i, bn, r.addr)
      ensures r.Found? ==> ExtMap(s0.inodes[i].addrs, s0.role, i, bn) == ExtOk(inodes[i].addrs, role)
      ensures r.Stop? ==> ExtMap(s0.inodes[i].addrs, s0.role, i, bn) == ExtStop(r.why) && r.why != Full
      ensures r.Stop? && r.why != Carry ==> Valid(S()) && BitsOk(bits, role) && SameBytes(s0, S())
      ensures r == Stop(Carry) <==> !Valid(S())
    {
      hide Valid, BitsOk, Grew, SameBytes, FreeBlocks, FirstFree, EmptyBefore, LastContinued, SlotOf, ExtMap;
      ExtentLookup(s0, i, bn);
      ExtCases(s0, i, bn);
      hide Lookup;
      var a := inodes[i].addrs;
      assert s0.role[b].Free? && (fill >= 0 ==> EmptySlot(a, fill)) && (neighbor >= 0 ==> Continues(a, neighbor, bn));
      if neighbor >= 0 && b == Base(a[2 * neighbor]) + Length(a[2 * neighbor]) {
        BlockZeroTaken(s0, b);
        ExtendExact(s0, i, neighbor, bn, b);
        inodes := inodes[i := inodes[i].(addrs := a[2 * neighbor := a[2 * neighbor] + 1])];
        Retake(s0.role, bits, b, Data(i, bn));
        role := role[b := Data(i, bn)];
        if Length(a[2 * neighbor]) == 255 {
          return Stop(Carry);
        }
        ExtentExtended(s0, i, neighbor, bn, b);
        GrewMapped(s0, S(), i, bn, b);
        return Found(b);
      }
      if fill >= 0 {
        ExtentOpened(s0, i, fill, bn, b);
        inodes := inodes[i := inodes[i].(addrs := a[2 * fill := b * 256 + 1][2 * fill + 1 := bn])];
        Retake(s0.role, bits, b, Data(i, bn));
        role := role[b := Data(i, bn)];
        assert S() == WithAddr(WithAddr(s0, i, 2 * fill, b * 256 + 1), i, 2 * fill + 1, bn).(role := s0.role[b := Data(i, bn)]);
        GrewMapped(s0, S(), i, bn, b);
        return Found(b);
      }
      HeldValid(s0, b);
      HeldSame(s0, b);
      return Stop(OutOfRange);
    }

    /** Everything the file system operations rely on and keep. */
    ghost predicate Good()
      reads this
    {
      Valid(S()) && BitsOk(bits, role) && TailZero(S())
    }

    /** bmap */
    method Bmap(i: nat, bn: nat) returns (r: BmapResult)
      requires Valid(S()) && BitsOk(bits, role) && HasInode(S(), i)
      modifies this
      ensures r.Found? ==> Valid(S()) && BitsOk(bits, role) && Grew(old(S()), S(), i, bn, r.addr)
      ensures r.Found? && old(inodes)[i].extent ==> ExtMap(old(inodes)[i].addrs, old(role), i, bn) == ExtOk(inodes[i].addrs, role)
      ensures HaltsAs(old(BlockHalt(S(), i, bn)), r)
      ensures r.Stop? && r.why != Carry ==> Valid(S()) && BitsOk(bits, role) && SameBytes(old(S()), S())
      ensures r == Stop(Full) <==>
        (old(inodes)[i].extent || bn < MAXFILE) && |FreeBlocks(old(role))| < old(Needed(S(), i, bn))
      ensures r == Stop(OutOfRange) ==>
        if old(inodes)[i].extent then forall k :: 0 <= k < SLOTS ==> !EmptySlot(old(inodes)[i].addrs, k) else bn >= MAXFILE
      ensures !old(inodes)[i].extent && bn >= MAXFILE ==> r == Stop(OutOfRange)
      ensures r == Stop(Carry) <==> old(CarryDue(S(), i, bn))
      ensures r == Stop(Carry) <==> !Valid(S())
    {
      hide Valid, BitsOk, Grew, SameBytes, Lookup, FreeBlocks, BlockHalt, ExtMap;
      if inodes[i].extent {
        r := BmapExtent(i, bn);
      } else {
        r := BmapPlain(i, bn);
      }
    }

    /** The loop of readi over n bytes of the file; halt says why it stops early. */
    method ReadBlocks(i: nat, start: nat, n: nat) returns (halt: Halting, data: seq<byte>)
      requires Valid(S()) && BitsOk(bits, role) && HasInode(S(), i)
      modifies this
      ensures halt == old(RangeHalt(S(), i, start / BSIZE, SpanEnd(start, n)))
      ensures halt != Because(Carry) ==> Valid(S()) && BitsOk(bits, role) && SameBytes(old(S()), S())
      ensures halt == Because(Carry) ==> !Valid(S())
      ensures halt == Never ==> data == old(Window(S(), i, start, n))
      ensures halt == Never ==> Laid(old(S()), S(), i, start / BSIZE, SpanEnd(start, n))
      ensures halt == Never && !old(inodes)[i].extent ==>
        |FreeBlocks(role)| == |FreeBlocks(old(role))| - old(NeedRange(S(), i, start / BSIZE, SpanEnd(start, n)))
      ensures old(AllMapped(S(), i, start / BSIZE, SpanEnd(start, n))) ==> S() == old(S())
    {
      hide Valid, BitsOk, Grew, Lookup, At, SameBytes, RangeHalt, ExtMap, BlockHalt, Onward, Laid, FreeBlocks, NeedRange, Window;
      ghost var s0 := S();
      var tot := 0;
      data := [];
      ghost var blk, end := start / BSIZE, SpanEnd(start, n);
      SameSelf(s0);
      OnwardStart(s0, i, blk, end);
      LaidStart(s0, i, blk);
      while tot < n
        invariant 0 <= tot <= n && start / BSIZE <= blk
        invariant Valid(S()) && BitsOk(bits, role) && SameBytes(s0, S()) && HasInode(S(), i)
        invariant data == Window(s0, i, start, tot)
        invariant AllMapped(s0, i, start / BSIZE, end) ==> S() == s0
        invariant (if tot < n then blk == (start + tot) / BSIZE else blk == end) && Onward(s0, S(), i, start / BSIZE, blk, end)
        invariant Laid(s0, S(), i, start / BSIZE, blk)
      {
        ghost var s1 := S();
        var off := start + tot;
        var m := Min(n - tot, BSIZE - off % BSIZE);
        NextBlock(off, n - tot, m);
        SpanTail(start, n, tot);
        var b := Bmap(i, off / BSIZE);
        if b.Stop? {
          OnwardStops(s0, s1, i, start / BSIZE, blk, end);
          MappedReturns(s1, i, blk, start / BSIZE, end);
          if b.why != Carry {
            SameStep(s0, s1, S());
          }
          return Because(b.why), data;
        }
        GrewFacts(s1, S(), i, off / BSIZE, b.addr);
        OnwardStep(s0, s1, S(), i, start / BSIZE, blk, end, b.addr);
        LaidStep(s0, s1, S(), i, start / BSIZE, blk, b.addr);
        SameStep(s0, s1, S());
        MappedStays(s1, S(), i, blk, b.addr, start / BSIZE, end);
        BlockBytes(S(), i, off, b.addr, m);
        SameWindow(s0, S(), i, off, m);
        WindowSplit(s0, i, start, tot, m);
        data := data + disk[b.addr][off % BSIZE..off % BSIZE + m];
        tot := tot + m;
        blk := blk + 1;
      }
      OnwardEnd(s0, S(), i, start / BSIZE, end);
      return Never, data;
    }

    /** readi */
    method Readi(i: nat, start: nat, count: nat) returns (r: ReadResult)
      requires Valid(S()) && BitsOk(bits, role) && HasInode(S(), i)
      modifies this
      ensures r.ReadError? <==> start > old(inodes)[i].size || start + count >= WORD
      ensures r.ReadError? ==> S() == old(S()) && BitsOk(bits, role)
      ensures !r.ReadError? ==>
        var n := Min(count, old(inodes)[i].size - start);
        && old(RangeHalt(S(), i, start / BSIZE, SpanEnd(start, n))) == (if r.ReadHalt? then Because(r.why) else Never)
        && (r.Got? ==> Laid(old(S()), S(), i, start / BSIZE, SpanEnd(start, n)))
        && (r.Got? && !old(inodes)[i].extent ==>
              |FreeBlocks(role)| == |FreeBlocks(old(role))| - old(NeedRange(S(), i, start / BSIZE, SpanEnd(start, n))))
      ensures r.Got? || (r.ReadHalt? && r.why != Carry) ==>
        && Valid(S()) && BitsOk(bits, role) && SameBytes(old(S()), S())
        && (old(TailZero(S())) ==> TailZero(S()))
      ensures r == ReadHalt(Carry) ==> !Valid(S())
      ensures r.Got? ==> r.data == old(Contents(S(), i))[start..Min(start + count, old(inodes)[i].size)]
      ensures start <= old(inodes)[i].size && old(AllMapped(S(), i, start / BSIZE, SpanEnd(start, Min(count, inodes[i].size - start)))) ==>
        S() == old(S())
    {
      hide AllMapped, Valid, BitsOk, SameBytes, TailZero, RangeHalt, Laid, Contents, FreeBlocks, NeedRange, Window;
      ghost var s0 := S();
      if start > inodes[i].size || start + count >= WORD {
        return ReadError;
      }
      var n := if start + count > inodes[i].size then inodes[i].size - start else count;
      var halt, data := ReadBlocks(i, start, n);
      if halt != Because(Carry) {
        TailAfter(s0, S());
      }
      if halt != Never {
        return ReadHalt(halt.why);
      }
      WindowContents(s0, i, start, n);
      return Got(data);
    }

    /** The loop of writei; halt says why it stops early, and t how much was written. */
    method WriteBlocks(i: nat, bytes: seq<byte>, start: nat) returns (halt: Halting, t: nat)
      requires Valid(S()) && BitsOk(bits, role) && HasInode(S(), i)
      modifies this
      ensures halt == old(RangeHalt(S(), i, start / BSIZE, SpanEnd(start, |bytes|)))
      ensures halt != Because(Carry) ==>
        Valid(S()) && BitsOk(bits, role) && t <= |bytes| && Overwritten(old(S()), S(), i, start, bytes, t)
      ensures halt == Because(Carry) ==> !Valid(S())
      ensures halt == Never ==>
        && t == |bytes| && HasInode(S(), i) && Laid(old(S()), S(), i, start / BSIZE, SpanEnd(start, |bytes|))
        && (!old(inodes)[i].extent ==>
              |FreeBlocks(role)| == |FreeBlocks(old(role))| - old(NeedRange(S(), i, start / BSIZE, SpanEnd(start, |bytes|))))
    {
      hide Valid, BitsOk, Grew, Lookup, At, SameBytes, Overwritten, RangeHalt, ExtMap, BlockHalt, Onward, Laid, FreeBlocks, NeedRange;
      ghost var s0 := S();
      var n := |bytes|;
      t := 0;
      ghost var blk, end := start / BSIZE, SpanEnd(start, n);
      WroteNothing(s0, i, start, bytes);
      OnwardStart(s0, i, blk, end);
      LaidStart(s0, i, blk);
      while t < n
        invariant 0 <= t <= n && start / BSIZE <= blk && Laid(s0, S(), i, start / BSIZE, blk)
        invariant Valid(S()) && BitsOk(bits, role) && HasInode(S(), i) && Overwritten(s0, S(), i, start, bytes, t)
        invariant (if t < n then blk == (start + t) / BSIZE else blk == end) && Onward(s0, S(), i, start / BSIZE, blk, end)
      {
        ghost var s1 := S();
        var off := start + t;
        var m := Min(n - t, BSIZE - off % BSIZE);
        NextBlock(off, n - t, m);
        SpanTail(start, n, t);
        var b := Bmap(i, off / BSIZE);
        if b.Stop? {
          OnwardStops(s0, s1, i, start / BSIZE, blk, end);
          if b.why != Carry {
            OverwriteKept(s0, s1, S(), i, start, bytes, bytes, t);
          }
          return Because(b.why), t;
        }
        GrewFacts(s1, S(), i, off / BSIZE, b.addr);
        OnwardStep(s0, s1, S(), i, start / BSIZE, blk, end, b.addr);
        LaidStep(s0, s1, S(), i, start / BSIZE, blk, b.addr);
        ghost var s2 := S();
        PatchOverwrites(s2, i, off, bytes[t..t + m], b.addr);
        disk := disk[b.addr := Patched(disk[b.addr], off % BSIZE, bytes[t..t + m])];
        OnwardPatched(s0, s2, i, start / BSIZE, blk + 1, end, off / BSIZE, b.addr, disk[b.addr]);
        LaidAlso(s0, s2, S(), i, start / BSIZE, blk + 1);
        OverwriteMore(s0, s1, s2, S(), i, start, bytes, t, m);
        t := t + m;
        blk := blk + 1;
      }
      OnwardEnd(s0, S(), i, start / BSIZE, end);
      return Never, t;
    }

    /** writei */
    method Writei(i: nat, src: seq<byte>, start: nat) returns (r: WriteResult)
      requires Good() && HasInode(S(), i)
      modifies this
      ensures r.WriteError? <==> start > old(inodes)[i].size || start + |src| >= WORD
      ensures r.WriteError? ==> S() == old(S()) && Good()
      ensures !r.WriteError? ==>
        var n := WriteCount(old(inodes)[i].extent, start, |src|);
        && old(RangeHalt(S(), i, start / BSIZE, SpanEnd(start, n))) == (if r.WriteHalt? then Because(r.why) else Never)
        && (r.Put? ==> r.n == n && Laid(old(S()), S(), i, start / BSIZE, SpanEnd(start, n)))
        && (r.Put? && !old(inodes)[i].extent ==>
              |FreeBlocks(role)| == |FreeBlocks(old(role))| - old(NeedRange(S(), i, start / BSIZE, SpanEnd(start, n))))
      ensures r == WriteHalt(Carry) ==> !Valid(S())
      ensures r.Put? ==> r.n <= |src| && (old(inodes)[i].extent ==> r.n == |src|)
      ensures r.Put? && !old(inodes)[i].extent ==> start + r.n <= 140 * 512 && (r.n < |src| ==> start + r.n == 140 * 512)
      ensures r.Put? ==> Good() && OneFile(old(S()), S(), i, Splice(old(Contents(S(), i)), start, src[..r.n]))
      ensures r.WriteHalt? && r.why != Carry ==>
        Valid(S()) && BitsOk(bits, role) && exists t :: 0 <= t <= |src| && Overwritten(old(S()), S(), i, start, src, t)
    {
      hide Valid, BitsOk, Lookup, At, TailZero, Overwritten, Contents, Wrote, OneFile, RangeHalt, Laid, FreeBlocks, NeedRange;
      ghost var s0 := S();
      if start > inodes[i].size || start + |src| >= WORD {
        return WriteError;
      }
      TailSize(s0, i);
      var n := if start + |src| > MAXFILE * BSIZE && !inodes[i].extent then MAXFILE * BSIZE - start else |src|;
      var bytes := src[..n];
      var halt, t := WriteBlocks(i, bytes, start);
      if halt != Never {
        if halt != Because(Carry) {
          OverwritePrefix(s0, S(), i, start, bytes, src, t);
        }
        return WriteHalt(halt.why);
      }
      ghost var s3 := S();
      OverwriteSizes(s0, s3, i, start, bytes, n);
      WroteSize(s0, s3, i, start, bytes);
      if n > 0 && start + n > inodes[i].size {
        inodes := inodes[i := inodes[i].(size := start + n)];
      }
      assert S() == WithSize(s3, i, if start + n > s3.inodes[i].size then start + n else s3.inodes[i].size);
      WroteTail(s0, S(), i, start, bytes);
      WroteFile(s0, S(), i, start, bytes);
      LaidAlso(s0, s3, S(), i, start / BSIZE, SpanEnd(start, n));
      return Put(n);
    }

    /** filelseek, for an offset that is not negative */
    method Lseek(i: nat, offset: nat)
      requires Good() && HasInode(S(), i)
      modifies this`inodes
      ensures Valid(S()) && BitsOk(bits, role)
      ensures S() == WithSize(old(S()), i, Max(offset, old(inodes)[i].size))
      ensures Good() <==> old(inodes)[i].extent || offset <= MAXFILE * BSIZE
      ensures HasInode(S(), i) && (!old(inodes)[i].extent ==>
        ((exists off :: 0 <= off < inodes[i].size && Unreadable(S(), i, off)) <==> offset > MAXFILE * BSIZE))
      ensures OneFile(old(S()), S(), i,
                old(Contents(S(), i)) + seq(if offset > old(inodes)[i].size then offset - old(inodes)[i].size else 0, _ => 0))
    {
      hide Valid, BitsOk, At, TailZero, OneFile, Unreadable;
      ghost var s0 := S();
      ghost var size := if offset > inodes[i].size then offset else inodes[i].size;
      TailSize(s0, i);
      SeekContents(s0, i, size);
      if !inodes[i].extent {
        SeekReadable(s0, i, size);
      }
      if offset > inodes[i].size {
        inodes := inodes[i := inodes[i].(size := offset)];
      }
      assert S() == WithSize(s0, i, if offset > s0.inodes[i].size then offset else s0.inodes[i].size);
    }

    /** itrunc on an inode with extents */
    method TruncExtents(i: nat)
      requires Valid(S()) && BitsOk(bits, role) && HasInode(S(), i) && inodes[i].extent
      modifies this
      ensures Valid(S()) && BitsOk(bits, role) && Thinned(old(S()), S(), i)
      ensures HasInode(S(), i) && forall k :: 0 <= k < NDIRECT ==> inodes[i].addrs[k] == 0
      ensures inodes[i].addrs[NDIRECT] == old(inodes)[i].addrs[NDIRECT]
    {
      hide Valid, BitsOk, Freed, Unmapped, Thinned, Lookup;
      ghost var s0 := S();
      ThinnedSelf(s0, i);
      var k := 0;
      while k < SLOTS
        invariant 0 <= k <= SLOTS && Valid(S()) && BitsOk(bits, role) && Thinned(s0, S(), i)
        invariant HasInode(S(), i) && inodes[i].extent
        invariant inodes[i].addrs[NDIRECT] == s0.inodes[i].addrs[NDIRECT]
        invariant forall n :: 0 <= n < 2 * k ==> inodes[i].addrs[n] == 0
      {
        ghost var m := S();
        TruncExtent(i, k);
        ExtentUnmapped(m, disk, role, i, k);
        inodes := inodes[i := inodes[i].(addrs := inodes[i].addrs[2 * k := 0][2 * k + 1 := 0])];
        assert inodes == WithAddr(WithAddr(m, i, 2 * k, 0), i, 2 * k + 1, 0).inodes;
        UnmappedThins(s0, m, S(), i, m.inodes[i].addrs[2 * k + 1], m.inodes[i].addrs[2 * k + 1] + Length(m.inodes[i].addrs[2 * k]), false);
        k := k + 1;
      }
    }

    /** The inner loop of itrunc: the blocks of extent k */
    method TruncExtent(i: nat, k: nat)
      requires Valid(S()) && BitsOk(bits, role) && HasInode(S(), i) && inodes[i].extent && k < SLOTS
      modifies this`bits, this`disk, this`role
      ensures BitsOk(bits, role)
      ensures var a := inodes[i].addrs; Freed(old(S()), disk, role, i, a[2 * k + 1], a[2 * k + 1] + Length(a[2 * k]), false)
    {
      hide Valid, BitsOk, Freed, Lookup;
      ghost var m := S();
      Shape(m);
      var a, first := inodes[i].addrs[2 * k], inodes[i].addrs[2 * k + 1];
      FreedNothing(m, i, first);
      var j := 0;
      while j < Length(a)
        invariant 0 <= j <= Length(a) && BitsOk(bits, role) && |role| == |disk| && Freed(m, disk, role, i, first, first + j, false)
      {
        SlotLookup(m, i, k, j);
        FreedOne(m, disk, role, i, first, first + j, Base(a) + j);
        Bfree(Base(a) + j);
        j := j + 1;
      }
    }

    /** itrunc on an inode with direct and indirect blocks */
    method TruncPlain(i: nat)
      requires Valid(S()) && BitsOk(bits, role) && HasInode(S(), i) && !inodes[i].extent
      modifies this
      ensures Valid(S()) && BitsOk(bits, role) && Thinned(old(S()), S(), i)
      ensures forall k :: 0 <= k <= NDIRECT ==> inodes[i].addrs[k] == 0
    {
      hide Valid, BitsOk, Freed, Unmapped, Thinned, Lookup;
      ghost var s0 := S();
      ThinnedSelf(s0, i);
      var n := 0;
      while n < NDIRECT
        invariant 0 <= n <= NDIRECT && Valid(S()) && BitsOk(bits, role) && Thinned(s0, S(), i)
        invariant HasInode(S(), i) && !inodes[i].extent
        invariant forall k :: 0 <= k < n ==> inodes[i].addrs[k] == 0
      {
        if inodes[i].addrs[n] != 0 {
          ghost var m := S();
          Shape(m);
          DirectUnmapped(m, i, n);
          Bfree(inodes[i].addrs[n]);
          inodes := inodes[i := inodes[i].(addrs := inodes[i].addrs[n := 0])];
          UnmappedThins(s0, m, S(), i, n, n + 1, false);
        }
        n := n + 1;
      }
      if inodes[i].addrs[NDIRECT] != 0 {
        ghost var m := S();
        TruncPointers(i);
        PointersUnmapped(m, disk, role, i);
        FreedShape(m, disk, role, i, NDIRECT, MAXFILE, false);
        Bfree(inodes[i].addrs[NDIRECT]);
        inodes := inodes[i := inodes[i].(addrs := inodes[i].addrs[NDIRECT := 0])];
        UnmappedThins(s0, m, S(), i, NDIRECT, MAXFILE, true);
      }
    }

    /** The loop of itrunc over the block of pointers */
    method TruncPointers(i: nat)
      requires Valid(S()) && BitsOk(bits, role) && HasInode(S(), i) && !inodes[i].extent && inodes[i].addrs[NDIRECT] != 0
      modifies this`bits, this`disk, this`role
      ensures BitsOk(bits, role) && Freed(old(S()), disk, role, i, NDIRECT, MAXFILE, false)
    {
      hide Valid, BitsOk, Freed, Lookup;
      ghost var m := S();
      Shape(m);
      PointerLookup(m, i, NDIRECT);
      var block := disk[inodes[i].addrs[NDIRECT]];
      FreedNothing(m, i, NDIRECT);
      var j := 0;
      while j < NINDIRECT
        invariant 0 <= j <= NINDIRECT && BitsOk(bits, role) && |role| == |disk|
        invariant Freed(m, disk, role, i, NDIRECT, NDIRECT + j, false)
      {
        PointerLookup(m, i, NDIRECT + j);
        var addr := GetWord(block, j);
        if addr != 0 {
          FreedOne(m, disk, role, i, NDIRECT, NDIRECT + j, addr);
          Bfree(addr);
        } else {
          FreedNone(m, disk, role, i, NDIRECT, NDIRECT + j);
        }
        j := j + 1;
      }
    }

    /** itrunc */
    method Itrunc(i: nat)
      requires Good() && HasInode(S(), i)
      modifies this
      ensures Good() && Truncated(old(S()), S(), i) && Emptied(old(S()), S(), i)
    {
      hide Valid, BitsOk, Thinned, Truncated, TailZero;
      ghost var s0 := S();
      if inodes[i].extent {
        TruncExtents(i);
      } else {
        TruncPlain(i);
      }
      ThinnedShape(s0, S(), i);
      TruncateDone(s0, S(), i);
      inodes := inodes[i := inodes[i].(size := 0)];
    }

    /** iput of the last reference and ialloc: the inode's blocks are freed and it starts anew. */
    method Recreate(i: nat, extent: bool)
      requires Good() && HasInode(S(), i)
      modifies this
      ensures Good() && old(AllInodes(S())) && AllInodes(S()) && AbsOf(S()) == Apply(old(AbsOf(S())), Create(i, extent))
      ensures |FreeBlocks(role)| >= |FreeBlocks(old(role))| && LaidBy(old(S()), Create(i, extent), S())
    {
      hide Valid, BitsOk, Truncated, TailZero, Contents, At, OneFile, FreeBlocks, Apply;
      ghost var s0 := S();
      EveryInode(s0);
      Itrunc(i);
      ghost var m := S();
      EveryInode(m);
      TruncatedFile(s0, m, i);
      CreatedValid(m, i, extent);
      CreatedAbs(s0, m, i, extent);
      inodes := inodes[i := EmptyInode(extent)];
    }

    /** A read or a write as a call on the byte sequences. */
    method ServeData(op: Op) returns (halt: Halting, out: seq<byte>)
      requires Good() && AllInodes(S()) && OpOk(AbsOf(S()), op) && (op.Read? || op.Write?)
      modifies this
      ensures halt == old(OpHalt(S(), op))
      ensures halt == Never ==>
        Good() && ServedBy(old(S()), op, S(), out)
      ensures halt != Because(Carry) ==> Valid(S()) && BitsOk(bits, role)
      ensures !old(inodes)[op.inum].extent && |FreeBlocks(old(role))| >= Budget(op) ==>
        halt == Never && |FreeBlocks(role)| >= |FreeBlocks(old(role))| - Budget(op)
    {
      hide Valid, BitsOk, TailZero, SameBytes, Contents, OneFile, RangeHalt, Laid, FreeBlocks, NeedRange, AllMapped, Overwritten;
      ghost var s0 := S();
      PlainLimit(s0, op);
      ApplyActs(AbsOf(s0), op);
      hide ActsOn;
      TailSize(s0, op.inum);
      if !s0.inodes[op.inum].extent && |FreeBlocks(s0.role)| >= Budget(op) {
        BudgetReturns(s0, op);
      }
      out := [];
      if op.Read? {
        var r := Readi(op.inum, op.off, op.n);
        if r.ReadHalt? { return Because(r.why), []; }
        if r.Got? {
          SameAbs(s0, S());
          out := r.data;
        }
      } else {
        var r := Writei(op.inum, op.src, op.off);
        if r.WriteHalt? { return Because(r.why), []; }
        if r.Put? {
          OneFileUpdate(s0, S(), op.inum, Splice(Contents(s0, op.inum), op.off, op.src[..r.n]));
        }
      }
      EveryInode(S());
      return Never, out;
    }

    /** One call: why it does not return, if it does not, and what a read delivers. */
    method Serve(op: Op) returns (halt: Halting, out: seq<byte>)
      requires Good() && AllInodes(S()) && OpOk(AbsOf(S()), op)
      modifies this
      ensures halt == old(OpHalt(S(), op))
      ensures halt == Never ==>
        Good() && ServedBy(old(S()), op, S(), out)
      ensures halt != Because(Carry) ==> Valid(S()) && BitsOk(bits, role)
      ensures !old(inodes)[op.inum].extent && |FreeBlocks(old(role))| >= Budget(op) ==>
        halt == Never && |FreeBlocks(role)| >= |FreeBlocks(old(role))| - Budget(op)
    {
      hide Valid, BitsOk, TailZero, Truncated, Contents, OneFile, FreeBlocks, RangeHalt, Unreadable, ActsOn;
      ghost var s0 := S();
      PlainLimit(s0, op);
      ApplyActs(AbsOf(s0), op);
      match op {
        case Read(_, _, _) =>
          halt, out := ServeData(op);
          return;
        case Write(_, _, _) =>
          halt, out := ServeData(op);
          return;
        case Seek(i, off) =>
          Lseek(i, off);
          OneFileUpdate(s0, S(), i, Contents(s0, i) + seq(if off > s0.inodes[i].size then off - s0.inodes[i].size else 0, _ => 0));
        case Trunc(i) =>
          Itrunc(i);
          TruncatedFile(s0, S(), i);
          OneFileUpdate(s0, S(), i, []);
        case Create(i, extent) =>
          Recreate(i, extent);
      }
      EveryInode(S());
      return Never, [];
    }

    /** Any sequence of calls on any files, until one does not return: the states on the way, each from the
        one before by its call, and why the first call that does not return does not. */
    method Run(ops: seq<Op>) returns (done: nat, halt: Halting, outs: seq<seq<byte>>, ghost states: seq<State>)
      requires Good() && AllInodes(S()) && RunOk(AbsOf(S()), ops)
      modifies this
      ensures done == |outs| <= |ops| && IsRun(ops, states, outs) && states[0] == old(S())
      ensures AllInodes(states[done]) && AbsOf(states[done]) == ApplyAll(old(AbsOf(S())), ops[..done])
      ensures outs == Outputs(old(AbsOf(S())), ops[..done])
      ensures done == |ops| ==> halt == Never && states[done] == S() && Good()
      ensures done < |ops| ==> HasInode(states[done], ops[done].inum) && halt == OpHalt(states[done], ops[done]) != Never
      ensures halt != Because(Carry) ==> Valid(S()) && BitsOk(bits, role)
      ensures AllPlain(old(AbsOf(S())), ops) && TotalBudget(ops) <= |FreeBlocks(old(role))| ==> done == |ops|
    {
      hide Valid, BitsOk, TailZero, AbsOf, Apply, Output, OpHalt, FreeBlocks, Budget, OpOk, ApplyAll, Outputs, TotalBudget;
      hide AllPlain, AllInodes, Applies, LaidBy, IsRun;
      ghost var x := AbsOf(S());
      outs, states := [], [S()];
      done := 0;
      NoOps(x, ops);
      RunStarts(ops, S());
      while done < |ops|
        invariant 0 <= done == |outs| <= |ops| && Good() && AllInodes(S())
        invariant |states| == done + 1 && states[0] == old(S()) && states[done] == S() && IsRun(ops, states, outs)
        invariant AbsOf(S()) == ApplyAll(x, ops[..done]) && outs == Outputs(x, ops[..done])
        invariant AllPlain(x, ops) && TotalBudget(ops) <= |FreeBlocks(old(role))| ==>
          AllPlain(AbsOf(S()), ops) && TotalBudget(ops[done..]) <= |FreeBlocks(role)|
      {
        AbsShape(S(), ops[done]);
        OneMoreOp(x, ops, done);
        PlainStays(AbsOf(S()), ops, done);
        var out;
        halt, out := Serve(ops[done]);
        if halt != Never {
          return;
        }
        RunGoesOn(ops, states, outs, S(), out);
        outs := outs + [out];
        states := states + [S()];
        done := done + 1;
      }
      assert ops[..done] == ops;
      halt := Never;
    }
  }
}
