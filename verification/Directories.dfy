// Directories of 5/xv6/fs.c:505-575: files of 16-byte entries, an inode number and a name of
// at most DIRSIZ bytes. An entry with inode number zero is empty.
module Directories {
  import opened Fs

  const DIRSIZ := 14
  const ENTRY := 16
  const PER_BLOCK := 32

  /** Byte x of a byte string that is followed by zeros. */
  function ByteAt(c: seq<byte>, x: nat): byte {
    if x < |c| then c[x] else 0
  }

  /** n bytes of it from x on. */
  function Slice(c: seq<byte>, x: nat, n: nat): (r: seq<byte>)
    ensures |r| == n && forall t :: 0 <= t < n ==> r[t] == ByteAt(c, x + t)
    decreases n
  {
    if n == 0 then [] else [ByteAt(c, x)] + Slice(c, x + 1, n - 1)
  }

  /** The string at c[x..] as strncmp and strncpy see it: up to a zero byte, at most n bytes. */
  function Name(c: seq<byte>, x: nat, n: nat): seq<byte>
    decreases n
  {
    if n == 0 || ByteAt(c, x) == 0 then [] else [ByteAt(c, x)] + Name(c, x + 1, n - 1)
  }

  function Inum(c: seq<byte>, k: nat): nat {
    ByteAt(c, ENTRY * k) as int + 0x100 * ByteAt(c, ENTRY * k + 1) as int
  }

  function EntryName(c: seq<byte>, k: nat): seq<byte> {
    Name(c, ENTRY * k + 2, DIRSIZ)
  }

  /** Entry k is in use and has that name. */
  predicate Matches(c: seq<byte>, k: nat, name: seq<byte>) {
    Inum(c, k) != 0 && EntryName(c, k) == Name(name, 0, DIRSIZ)
  }

  /** One step of strncmp. */
  lemma SameNameStep(a: seq<byte>, x: nat, b: seq<byte>, y: nat, n: nat)
    requires n > 0
    ensures Name(a, x, n) == Name(b, y, n) <==>
      ByteAt(a, x) == ByteAt(b, y) && (ByteAt(a, x) == 0 || Name(a, x + 1, n - 1) == Name(b, y + 1, n - 1))
  {
    var p, q := Name(a, x, n), Name(b, y, n);
    assert ByteAt(a, x) != 0 ==> p[0] == ByteAt(a, x) && p[1..] == Name(a, x + 1, n - 1);
    assert ByteAt(b, y) != 0 ==> q[0] == ByteAt(b, y) && q[1..] == Name(b, y + 1, n - 1);
  }

  /** namecmp, that is strncmp with DIRSIZ. */
  method Namecmp(name: seq<byte>, c: seq<byte>, x: nat) returns (same: bool)
    ensures same <==> Name(c, x, DIRSIZ) == Name(name, 0, DIRSIZ)
  {
    hide Name;
    var t := 0;
    while t < DIRSIZ && ByteAt(name, t) != 0 && ByteAt(name, t) == ByteAt(c, x + t)
      invariant 0 <= t <= DIRSIZ
      invariant Name(c, x, DIRSIZ) == Name(name, 0, DIRSIZ) <==> Name(c, x + t, DIRSIZ - t) == Name(name, t, DIRSIZ - t)
    {
      SameNameStep(c, x + t, name, t, DIRSIZ - t);
      t := t + 1;
    }
    if t == DIRSIZ {
      EmptyNames(c, x + t, name, t);
    } else {
      SameNameStep(c, x + t, name, t, DIRSIZ - t);
    }
    same := t == DIRSIZ || ByteAt(name, t) == ByteAt(c, x + t);
  }

  lemma EmptyNames(a: seq<byte>, x: nat, b: seq<byte>, y: nat)
    ensures Name(a, x, 0) == Name(b, y, 0)
  {
  }

  /** Equal bytes give equal names. */
  lemma {:induction false} NameCopied(a: seq<byte>, x: nat, b: seq<byte>, y: nat, n: nat)
    requires Slice(a, x, n) == Slice(b, y, n)
    ensures Name(a, x, n) == Name(b, y, n)
    decreases n
  {
    if n > 0 {
      assert Slice(a, x, n)[0] == Slice(b, y, n)[0];
      assert Slice(a, x, n)[1..] == Slice(a, x + 1, n - 1) && Slice(b, y, n)[1..] == Slice(b, y + 1, n - 1);
      NameCopied(a, x + 1, b, y + 1, n - 1);
    }
  }

  lemma EntryCopied(a: seq<byte>, j: nat, b: seq<byte>, k: nat, name: seq<byte>)
    requires Slice(a, ENTRY * j, ENTRY) == Slice(b, ENTRY * k, ENTRY)
    ensures Inum(a, j) == Inum(b, k) && EntryName(a, j) == EntryName(b, k)
    ensures Matches(a, j, name) <==> Matches(b, k, name)
  {
    var p, q := Slice(a, ENTRY * j, ENTRY), Slice(b, ENTRY * k, ENTRY);
    assert p[0] == q[0] && p[1] == q[1];
    assert p[2..] == Slice(a, ENTRY * j + 2, DIRSIZ);
    assert q[2..] == Slice(b, ENTRY * k + 2, DIRSIZ);
    NameCopied(a, ENTRY * j + 2, b, ENTRY * k + 2, DIRSIZ);
  }

  // ---------------------------------------------------------------- dirlookup

  /** The loop over the entries of one block: the first that matches, or PER_BLOCK. */
  method ScanBlock(block: seq<byte>, name: seq<byte>) returns (k: nat)
    requires |block| == BSIZE
    ensures k <= PER_BLOCK && (k < PER_BLOCK ==> Matches(block, k, name))
    ensures forall j :: 0 <= j < k ==> !Matches(block, j, name)
  {
    hide Name;
    k := 0;
    while k < PER_BLOCK
      invariant 0 <= k <= PER_BLOCK && forall j :: 0 <= j < k ==> !Matches(block, j, name)
    {
      if Inum(block, k) != 0 {
        var same := Namecmp(name, block, ENTRY * k + 2);
        if same {
          return;
        }
      }
      k := k + 1;
    }
  }

  /** Block b of a directory shows its entries. */
  lemma BlockEntry(c: seq<byte>, block: seq<byte>, b: nat, k: nat, name: seq<byte>)
    requires |block| == BSIZE && k < PER_BLOCK && forall t :: 0 <= t < BSIZE ==> block[t] == ByteAt(c, b * BSIZE + t)
    ensures Inum(block, k) == Inum(c, PER_BLOCK * b + k)
    ensures Matches(block, k, name) <==> Matches(c, PER_BLOCK * b + k, name)
  {
    hide Slice, Matches, Inum, EntryName;
    var K := PER_BLOCK * b + k;
    var p, q := Slice(block, ENTRY * k, ENTRY), Slice(c, ENTRY * K, ENTRY);
    forall t | 0 <= t < ENTRY ensures p[t] == q[t] {
      var u := ENTRY * k + t;
      assert p[t] == ByteAt(block, u) == block[u] == ByteAt(c, b * BSIZE + u);
      assert b * BSIZE + u == ENTRY * K + t;
    }
    EntryCopied(block, k, c, K, name);
  }

  /** Past the size of a directory every entry is empty: the bytes there are zero. */
  lemma NothingBeyond(c: seq<byte>, k: nat, name: seq<byte>)
    requires ENTRY * k >= |c|
    ensures Inum(c, k) == 0 && !Matches(c, k, name)
  {
  }

  /** Entry k is the first with that name. */
  ghost predicate FirstMatch(c: seq<byte>, name: seq<byte>, k: nat) {
    Matches(c, k, name) && forall j :: 0 <= j < k ==> !Matches(c, j, name)
  }

  ghost predicate NoMatch(c: seq<byte>, name: seq<byte>, n: nat) {
    forall j :: 0 <= j < n ==> !Matches(c, j, name)
  }

  /** One whole block without a match. */
  lemma NoMatchBlock(c: seq<byte>, block: seq<byte>, b: nat, name: seq<byte>, k: nat)
    requires |block| == BSIZE && k <= PER_BLOCK && forall t :: 0 <= t < BSIZE ==> block[t] == ByteAt(c, b * BSIZE + t)
    requires NoMatch(c, name, PER_BLOCK * b) && forall j :: 0 <= j < k ==> !Matches(block, j, name)
    ensures NoMatch(c, name, PER_BLOCK * b + k)
  {
    hide Matches;
    forall j | 0 <= j < PER_BLOCK * b + k ensures !Matches(c, j, name) {
      if j >= PER_BLOCK * b {
        BlockEntry(c, block, b, j - PER_BLOCK * b, name);
      }
    }
  }

  datatype LookupResult = Hit(inum: nat, off: nat) | Miss | LookupHalt(why: Halt)

  /** Byte x of a file, in a state where bytes past the size are zero. */
  lemma ContentsByte(s: State, i: nat, x: nat)
    requires TailZero(s) && i < |s.inodes|
    ensures HasInode(s, i) && At(s, i, x) == ByteAt(Contents(s, i), x)
  {
  }

  lemma BlockStart(b: nat)
    ensures (b * BSIZE) / BSIZE == b && (b * BSIZE) % BSIZE == 0
  {
  }

  lemma BlockOfDirectory(s: State, i: nat, b: nat, addr: nat)
    requires Valid(s) && TailZero(s) && HasInode(s, i) && Lookup(s, i, b) == addr && addr != 0
    ensures addr < |s.disk| && |s.disk[addr]| == BSIZE
    ensures forall t :: 0 <= t < BSIZE ==> s.disk[addr][t] == ByteAt(Contents(s, i), b * BSIZE + t)
  {
    hide Valid, TailZero, Lookup, Window, Contents;
    BlockStart(b);
    BlockBytes(s, i, b * BSIZE, addr, BSIZE);
    var w := Window(s, i, b * BSIZE, BSIZE);
    assert s.disk[addr] == s.disk[addr][0..BSIZE] == w;
    forall t | 0 <= t < BSIZE ensures w[t] == ByteAt(Contents(s, i), b * BSIZE + t) {
      ContentsByte(s, i, b * BSIZE + t);
    }
  }

  /** How many blocks dirlookup looks at: up to the one with the first match, or all of them. */
  ghost predicate ScansTo(c: seq<byte>, name: seq<byte>, e: nat) {
    || (e > 0 && exists k: nat :: FirstMatch(c, name, k) && e == k / PER_BLOCK + 1)
    || ((forall k: nat :: !Matches(c, k, name)) && e == SpanEnd(0, |c|))
  }

  lemma {:induction false} FirstOf(c: seq<byte>, name: seq<byte>, n: nat)
    requires Matches(c, n, name)
    ensures exists k: nat :: k <= n && FirstMatch(c, name, k)
  {
    if j: nat :| j < n && Matches(c, j, name) {
      FirstOf(c, name, j);
    } else {
      assert FirstMatch(c, name, n);
    }
  }

  lemma ScanExists(c: seq<byte>, name: seq<byte>) returns (e: nat)
    ensures ScansTo(c, name, e) && forall d :: ScansTo(c, name, d) ==> d == e
  {
    if n: nat :| Matches(c, n, name) {
      FirstOf(c, name, n);
      var k: nat :| FirstMatch(c, name, k);
      e := k / PER_BLOCK + 1;
      forall d | ScansTo(c, name, d) ensures d == e {
        var j: nat :| FirstMatch(c, name, j) && d == j / PER_BLOCK + 1;
        assert j == k;
      }
    } else {
      e := SpanEnd(0, |c|);
    }
  }

  /** With no match so far there is another block to look at, as long as there is one. */
  lemma ScanGoesOn(c: seq<byte>, name: seq<byte>, e: nat, b: nat)
    requires ScansTo(c, name, e) && NoMatch(c, name, PER_BLOCK * b) && b * BSIZE < |c|
    ensures b < e
  {
    if k: nat :| FirstMatch(c, name, k) && e == k / PER_BLOCK + 1 {
      assert k >= PER_BLOCK * b;
    }
  }

  lemma ScanHit(c: seq<byte>, name: seq<byte>, e: nat, b: nat, k: nat)
    requires ScansTo(c, name, e) && FirstMatch(c, name, PER_BLOCK * b + k) && k < PER_BLOCK
    ensures e == b + 1
  {
    var j: nat :| FirstMatch(c, name, j) && e == j / PER_BLOCK + 1;
    assert j == PER_BLOCK * b + k;
  }

  lemma BlockOfByte(b: nat, n: nat)
    ensures b * BSIZE < n ==> b < SpanEnd(0, n)
    ensures b * BSIZE >= n ==> b >= SpanEnd(0, n)
  {
  }

  /** dirlookup: the first entry of the directory's contents with that name, wherever its blocks lie. It does not
      return exactly if the blocks it has to look at cannot all be had; what is said of hi serves the caller. */
  method Dirlookup(fs: FileSystem, i: nat, name: seq<byte>, ghost hi: nat) returns (r: LookupResult)
    requires fs.Good() && HasInode(fs.S(), i) && !fs.inodes[i].extent
    requires SpanEnd(0, fs.inodes[i].size) <= hi
    modifies fs
    ensures forall e :: ScansTo(old(Contents(fs.S(), i)), name, e) ==>
      old(RangeHalt(fs.S(), i, 0, e)) == if r.LookupHalt? then Because(r.why) else Never
    ensures fs.Good() && SameBytes(old(fs.S()), fs.S())
    ensures r.LookupHalt? ==> r.why == Full
    ensures r.Hit? ==>
      && r.off % ENTRY == 0 && FirstMatch(old(Contents(fs.S(), i)), name, r.off / ENTRY)
      && r.inum == Inum(old(Contents(fs.S(), i)), r.off / ENTRY)
    ensures r.Miss? ==>
      && (forall k: nat :: !Matches(old(Contents(fs.S(), i)), k, name))
      && HasInode(fs.S(), i) && AllMapped(fs.S(), i, 0, SpanEnd(0, old(fs.inodes[i].size)))
      && Onward(old(fs.S()), fs.S(), i, 0, SpanEnd(0, old(fs.inodes[i].size)), hi)
  {
    hide Valid, BitsOk, TailZero, SameBytes, Grew, Contents, Lookup, At, Matches, Inum, Onward, RangeHalt, BlockHalt, ExtMap, ScansTo, AllMapped;
    ghost var s0 := fs.S();
    ghost var c := Contents(s0, i);
    TailSize(s0, i);
    ghost var e := ScanExists(c, name);
    SameSelf(s0);
    OnwardStart(s0, i, 0, e);
    OnwardStart(s0, i, 0, hi);
    NoneMapped(s0, i);
    var b := 0;
    while b * BSIZE < fs.inodes[i].size
      invariant fs.Good() && SameBytes(s0, fs.S()) && HasInode(fs.S(), i) && !fs.inodes[i].extent
      invariant fs.inodes[i].size == |c| && Contents(fs.S(), i) == c && b <= SpanEnd(0, |c|)
      invariant NoMatch(c, name, PER_BLOCK * b)
      invariant Onward(s0, fs.S(), i, 0, b, e) && Onward(s0, fs.S(), i, 0, b, hi) && AllMapped(fs.S(), i, 0, b)
      decreases |c| - b * BSIZE
    {
      ghost var s1 := fs.S();
      ScanGoesOn(c, name, e, b);
      BlockOfByte(b, |c|);
      var a := fs.Bmap(i, b);
      if a.Stop? {
        OnwardStops(s0, s1, i, 0, b, e);
        SameStep(s0, s1, fs.S());
        SameTail(s1, fs.S());
        return LookupHalt(a.why);
      }
      GrewFacts(s1, fs.S(), i, b, a.addr);
      OnwardStep(s0, s1, fs.S(), i, 0, b, e, a.addr);
      OnwardStep(s0, s1, fs.S(), i, 0, b, hi, a.addr);
      MappedMore(s1, fs.S(), i, b, a.addr);
      SameStep(s0, s1, fs.S());
      SameTail(s1, fs.S());
      SameContents(s1, fs.S(), i);
      SameLayout(s1, fs.S(), i);
      BlockOfDirectory(fs.S(), i, b, a.addr);
      var block := fs.disk[a.addr];
      var k := ScanBlock(block, name);
      NoMatchBlock(c, block, b, name, k);
      if k < PER_BLOCK {
        BlockEntry(c, block, b, k, name);
        OffsetOf(b, k);
        ScanHit(c, name, e, b, k);
        OnwardEnd(s0, fs.S(), i, 0, e);
        return Hit(Inum(block, k), b * BSIZE + ENTRY * k);
      }
      b := b + 1;
      BlockOfByte(b, |c|);
    }
    BlockOfByte(b, |c|);
    forall k: nat ensures !Matches(c, k, name) {
      if k >= PER_BLOCK * b {
        NothingBeyond(c, k, name);
      }
    }
    MissScan(c, name, e);
    OnwardEnd(s0, fs.S(), i, 0, e);
    return Miss;
  }

  lemma MissScan(c: seq<byte>, name: seq<byte>, e: nat)
    requires ScansTo(c, name, e) && forall k: nat :: !Matches(c, k, name)
    ensures e == SpanEnd(0, |c|)
  {
  }

  lemma NoneMapped(s: State, i: nat)
    requires HasInode(s, i)
    ensures AllMapped(s, i, 0, 0)
  {
  }

  lemma MappedMore(s: State, s': State, i: nat, b: nat, addr: nat)
    requires HasInode(s, i) && HasInode(s', i) && Grew(s, s', i, b, addr) && AllMapped(s, i, 0, b)
    ensures AllMapped(s', i, 0, b + 1)
  {
    hide Lookup;
  }

  lemma SameLayout(s: State, s': State, i: nat)
    requires SameBytes(s, s') && i < |s.inodes|
    ensures i < |s'.inodes| && s'.inodes[i].extent == s.inodes[i].extent && s'.inodes[i].size == s.inodes[i].size
  {
  }

  lemma OffsetOf(b: nat, k: nat)
    ensures (b * BSIZE + ENTRY * k) / ENTRY == PER_BLOCK * b + k && (b * BSIZE + ENTRY * k) % ENTRY == 0
  {
    assert b * BSIZE + ENTRY * k == ENTRY * (PER_BLOCK * b + k);
  }

  // ------------------------------------------------------------------ dirlink

  /** What strncpy leaves in n bytes: the string, then zeros. */
  function Padded(name: seq<byte>, x: nat, n: nat): (r: seq<byte>)
    ensures |r| == n
    decreases n
  {
    if n == 0 then [] else if ByteAt(name, x) == 0 then seq(n, _ => 0) else [ByteAt(name, x)] + Padded(name, x + 1, n - 1)
  }

  lemma {:induction false} NamePadded(name: seq<byte>, x: nat, c: seq<byte>, y: nat, n: nat)
    requires Slice(c, y, n) == Padded(name, x, n)
    ensures Name(c, y, n) == Name(name, x, n)
    decreases n
  {
    if n > 0 {
      assert Slice(c, y, n)[0] == Padded(name, x, n)[0] == ByteAt(name, x);
      if ByteAt(name, x) != 0 {
        assert Slice(c, y, n)[1..] == Slice(c, y + 1, n - 1) && Padded(name, x, n)[1..] == Padded(name, x + 1, n - 1);
        NamePadded(name, x + 1, c, y + 1, n - 1);
      }
    }
  }

  /** The entry as it is written: a 16-bit inode number and the padded name. */
  function Entry(name: seq<byte>, inum: nat): (r: seq<byte>)
    ensures |r| == ENTRY
  {
    var low: byte, high: byte := inum % 0x100, inum / 0x100 % 0x100;
    [low, high] + Padded(name, 0, DIRSIZ)
  }

  /** Slot k is the first empty one, or comes right after the last entry. */
  ghost predicate FirstEmpty(c: seq<byte>, k: nat) {
    ENTRY * k <= |c| && Inum(c, k) == 0 && forall j :: 0 <= j < k ==> Inum(c, j) != 0
  }

  /** Writing an entry changes that entry only. */
  lemma LinkedEntry(c: seq<byte>, k: nat, name: seq<byte>, inum: nat, j: nat, other: seq<byte>)
    requires |c| % ENTRY == 0 && ENTRY * k <= |c|
    ensures var c' := Splice(c, ENTRY * k, Entry(name, inum));
      && (j == k ==> Inum(c', j) == inum % 0x1_0000 && EntryName(c', j) == Name(name, 0, DIRSIZ))
      && (j != k ==> Inum(c', j) == Inum(c, j) && (Matches(c', j, other) <==> Matches(c, j, other)))
  {
    hide Slice, Name, Matches, Inum, EntryName, Splice, Entry;
    if j == k {
      LinkedInum(c, k, name, inum);
      LinkedName(c, k, name, inum);
    } else {
      SplicedSlice(c, k, Entry(name, inum), j);
      EntryCopied(Splice(c, ENTRY * k, Entry(name, inum)), j, c, j, other);
    }
  }

  lemma LinkedInum(c: seq<byte>, k: nat, name: seq<byte>, inum: nat)
    requires ENTRY * k <= |c|
    ensures Inum(Splice(c, ENTRY * k, Entry(name, inum)), k) == inum % 0x1_0000
  {
    var e := Entry(name, inum);
    var c' := Splice(c, ENTRY * k, e);
    assert ByteAt(c', ENTRY * k) == e[0] && ByteAt(c', ENTRY * k + 1) == e[1];
    assert e[0] == inum % 0x100 && e[1] == inum / 0x100 % 0x100;
  }

  lemma LinkedName(c: seq<byte>, k: nat, name: seq<byte>, inum: nat)
    requires ENTRY * k <= |c|
    ensures EntryName(Splice(c, ENTRY * k, Entry(name, inum)), k) == Name(name, 0, DIRSIZ)
  {
    var e := Entry(name, inum);
    var c' := Splice(c, ENTRY * k, e);
    var p := Slice(c', ENTRY * k + 2, DIRSIZ);
    forall t | 0 <= t < DIRSIZ ensures p[t] == Padded(name, 0, DIRSIZ)[t] {
      assert p[t] == ByteAt(c', ENTRY * k + 2 + t) == e[t + 2];
    }
    NamePadded(name, 0, c', ENTRY * k + 2, DIRSIZ);
  }

  lemma SplicedSlice(c: seq<byte>, k: nat, e: seq<byte>, j: nat)
    requires |c| % ENTRY == 0 && ENTRY * k <= |c| && |e| == ENTRY && j != k
    ensures Slice(Splice(c, ENTRY * k, e), ENTRY * j, ENTRY) == Slice(c, ENTRY * j, ENTRY)
  {
    hide Slice;
    var c' := Splice(c, ENTRY * k, e);
    var p, q := Slice(c', ENTRY * j, ENTRY), Slice(c, ENTRY * j, ENTRY);
    forall t | 0 <= t < ENTRY ensures p[t] == q[t] {
      var x := ENTRY * j + t;
      assert x < ENTRY * k || x >= ENTRY * k + ENTRY;
      assert ByteAt(c', x) == ByteAt(c, x);
    }
  }

  /** After a link the new name is found at its entry, and every other name where it was. */
  lemma LinkedLookup(c: seq<byte>, k: nat, name: seq<byte>, inum: nat, other: seq<byte>, j: nat)
    requires |c| % ENTRY == 0 && FirstEmpty(c, k) && inum % 0x1_0000 != 0 && forall n: nat :: !Matches(c, n, name)
    ensures var c' := Splice(c, ENTRY * k, Entry(name, inum));
      && FirstMatch(c', name, k)
      && (Name(other, 0, DIRSIZ) != Name(name, 0, DIRSIZ) ==> (FirstMatch(c', other, j) <==> FirstMatch(c, other, j)))
  {
    hide Slice, Splice, Entry, Name, Inum, EntryName;
    var c' := Splice(c, ENTRY * k, Entry(name, inum));
    forall n: nat ensures n != k ==> (Matches(c', n, name) <==> Matches(c, n, name)) {
      LinkedEntry(c, k, name, inum, n, name);
    }
    LinkedEntry(c, k, name, inum, k, name);
    if Name(other, 0, DIRSIZ) != Name(name, 0, DIRSIZ) {
      forall n: nat ensures Matches(c', n, other) <==> Matches(c, n, other) {
        LinkedEntry(c, k, name, inum, n, other);
      }
    }
  }

  datatype LinkResult = Linked(slot: nat) | Exists | LinkPanic | LinkHalt(why: Halt)

  /** The loop of dirlink that looks for an empty entry; the blocks are all there, so it returns. */
  method FindEmpty(fs: FileSystem, i: nat) returns (k: nat)
    requires fs.Good() && HasInode(fs.S(), i) && !fs.inodes[i].extent && fs.inodes[i].size % ENTRY == 0
    requires AllMapped(fs.S(), i, 0, SpanEnd(0, fs.inodes[i].size))
    modifies fs
    ensures fs.Good() && fs.S() == old(fs.S()) && FirstEmpty(Contents(fs.S(), i), k)
  {
    hide Valid, BitsOk, TailZero, SameBytes, Contents, At, Inum, AllMapped, RangeHalt;
    ghost var s0 := fs.S();
    ghost var c := Contents(s0, i);
    TailSize(s0, i);
    k := 0;
    while k * ENTRY < fs.inodes[i].size
      invariant fs.Good() && fs.S() == s0 && ENTRY * k <= |c|
      invariant forall j :: 0 <= j < k ==> Inum(c, j) != 0
      decreases |c| - k * ENTRY
    {
      EntryMapped(s0, i, k);
      var d := fs.Readi(i, k * ENTRY, ENTRY);
      assert d.Got?;
      SliceInum(c, k, d.data);
      if Inum(d.data, 0) == 0 {
        return;
      }
      k := k + 1;
    }
    NothingBeyond(c, k, []);
  }

  /** An entry within the size lies in a block that is there, so reading it returns. */
  lemma EntryMapped(s: State, i: nat, k: nat)
    requires Valid(s) && HasInode(s, i) && s.inodes[i].size % ENTRY == 0 && k * ENTRY < s.inodes[i].size
    requires AllMapped(s, i, 0, SpanEnd(0, s.inodes[i].size))
    ensures var lo, hi := k * ENTRY / BSIZE, SpanEnd(k * ENTRY, ENTRY);
      AllMapped(s, i, lo, hi) && hi == lo + 1 && RangeHalt(s, i, lo, hi) == Never && k * ENTRY + ENTRY <= s.inodes[i].size
  {
    hide Valid, Lookup, RangeHalt;
    var size := s.inodes[i].size;
    var lo := k * ENTRY / BSIZE;
    OneBlock(k, size);
    MappedReturns(s, i, lo, 0, SpanEnd(0, size));
    assert BlockHalt(s, i, lo) == RangeHalt(s, i, lo, lo + 1);
  }

  lemma OneBlock(k: nat, size: nat)
    requires size % ENTRY == 0 && k * ENTRY < size
    ensures var lo := k * ENTRY / BSIZE;
      SpanEnd(k * ENTRY, ENTRY) == lo + 1 && lo < SpanEnd(0, size) && k * ENTRY + ENTRY <= size
  {
  }

  lemma SliceInum(c: seq<byte>, k: nat, d: seq<byte>)
    requires k * ENTRY + ENTRY <= |c| && d == c[k * ENTRY..k * ENTRY + ENTRY]
    ensures Inum(d, 0) == Inum(c, k)
  {
  }

  /** How many blocks of the directory dirlink needs to add an entry in that slot. */
  function LinkBlocks(size: nat, slot: nat): nat {
    if ENTRY * slot >= MAXFILE * BSIZE || ENTRY * slot / BSIZE < SpanEnd(0, size) then SpanEnd(0, size)
    else ENTRY * slot / BSIZE + 1
  }

  /** dirlink; it does not return exactly if it cannot have the blocks it needs, and panics exactly if the
      directory is as long as a file can be and full. */
  method Dirlink(fs: FileSystem, i: nat, name: seq<byte>, inum: nat) returns (r: LinkResult)
    requires fs.Good() && HasInode(fs.S(), i) && !fs.inodes[i].extent && fs.inodes[i].size % ENTRY == 0
    modifies fs
    ensures var c := old(Contents(fs.S(), i));
      forall k: nat :: FirstMatch(c, name, k) ==>
        && (r.Exists? || r.LinkHalt?)
        && old(RangeHalt(fs.S(), i, 0, k / PER_BLOCK + 1)) == if r.LinkHalt? then Because(r.why) else Never
    ensures var c := old(Contents(fs.S(), i));
      forall slot :: FirstEmpty(c, slot) && (forall k: nat :: !Matches(c, k, name)) ==>
        && !r.Exists?
        && old(RangeHalt(fs.S(), i, 0, LinkBlocks(|c|, slot))) == (if r.LinkHalt? then Because(r.why) else Never)
        && (r.LinkPanic? <==> !r.LinkHalt? && ENTRY * slot >= MAXFILE * BSIZE)
    ensures r.Exists? ==> fs.Good() && SameBytes(old(fs.S()), fs.S()) && exists k: nat :: Matches(old(Contents(fs.S(), i)), k, name)
    ensures r.LinkHalt? ==> r.why == Full && Valid(fs.S()) && BitsOk(fs.bits, fs.role)
    ensures r.Linked? ==>
      var c := old(Contents(fs.S(), i));
      && fs.Good() && (forall k: nat :: !Matches(c, k, name)) && FirstEmpty(c, r.slot)
      && OneFile(old(fs.S()), fs.S(), i, Splice(c, ENTRY * r.slot, Entry(name, inum)))
  {
    hide Valid, BitsOk, TailZero, SameBytes, Contents, At, Inum, Matches, Entry, OneFile, Onward, RangeHalt, AllMapped, FirstEmpty, FirstMatch;
    ghost var s0 := fs.S();
    ghost var c := Contents(s0, i);
    TailSize(s0, i);
    ghost var slot := EmptyExists(c);
    ghost var hi := LinkBlocks(|c|, slot);
    var f := Dirlookup(fs, i, name, hi);
    MatchScans(c, name);
    if f.LookupHalt? {
      LookupHaltIsLinkHalt(s0, i, c, name, slot);
      return LinkHalt(f.why);
    }
    if f.Hit? {
      return Exists;
    }
    ghost var s1 := fs.S();
    SameContents(s0, s1, i);
    SameLayout(s0, s1, i);
    var k := FindEmpty(fs, i);
    assert k == slot;
    ghost var s2 := fs.S();
    LinkWrites(s0, s2, i, |c|, slot);
    var w := fs.Writei(i, Entry(name, inum), ENTRY * k);
    if w.WriteHalt? {
      return LinkHalt(w.why);
    }
    if w.WriteError? || w.n != ENTRY {
      return LinkPanic;
    }
    assert Entry(name, inum)[..ENTRY] == Entry(name, inum);
    OneFileAfter(s0, s2, fs.S(), i, Splice(c, ENTRY * k, Entry(name, inum)));
    return Linked(k);
  }

  lemma {:induction false} FirstEmptyFrom(c: seq<byte>, k: nat) returns (slot: nat)
    requires |c| % ENTRY == 0 && ENTRY * k <= |c| && forall j :: 0 <= j < k ==> Inum(c, j) != 0
    ensures FirstEmpty(c, slot)
    decreases |c| - ENTRY * k
  {
    if Inum(c, k) == 0 {
      slot := k;
    } else {
      if ENTRY * k == |c| {
        NothingBeyond(c, k, []);
      }
      slot := FirstEmptyFrom(c, k + 1);
    }
  }

  lemma EmptyExists(c: seq<byte>) returns (slot: nat)
    requires |c| % ENTRY == 0
    ensures FirstEmpty(c, slot) && forall k :: FirstEmpty(c, k) ==> k == slot
  {
    slot := FirstEmptyFrom(c, 0);
  }

  /** What the caller of dirlookup can tell of the blocks it looks at. */
  lemma MatchScans(c: seq<byte>, name: seq<byte>)
    ensures forall k: nat :: FirstMatch(c, name, k) ==> ScansTo(c, name, k / PER_BLOCK + 1) && Matches(c, k, name)
    ensures (forall k: nat :: !Matches(c, k, name)) ==> ScansTo(c, name, SpanEnd(0, |c|))
    ensures forall k: nat :: Matches(c, k, name) ==> exists j: nat :: FirstMatch(c, name, j)
  {
    forall k: nat | Matches(c, k, name) ensures exists j: nat :: FirstMatch(c, name, j) {
      FirstOf(c, name, k);
    }
  }

  /** A range that stops early stops a longer one. */
  lemma LookupHaltIsLinkHalt(s: State, i: nat, c: seq<byte>, name: seq<byte>, slot: nat)
    requires HasInode(s, i) && !s.inodes[i].extent && |c| <= MAXFILE * BSIZE
    ensures (forall k: nat :: !Matches(c, k, name)) && RangeHalt(s, i, 0, SpanEnd(0, |c|)) != Never ==>
      RangeHalt(s, i, 0, LinkBlocks(|c|, slot)) == RangeHalt(s, i, 0, SpanEnd(0, |c|)) == Because(Full)
  {
    hide Lookup, FreeBlocks, Matches;
    MissingGrows(s, i, 0, SpanEnd(0, |c|), LinkBlocks(|c|, slot));
  }

  lemma {:induction false} MissingGrows(s: State, i: nat, lo: nat, mid: nat, hi: nat)
    requires HasInode(s, i) && mid <= hi
    ensures Missing(s, i, lo, mid) <= Missing(s, i, lo, hi)
    decreases mid - lo
  {
    if lo < mid {
      MissingGrows(s, i, lo + 1, mid, hi);
    }
  }

  /** The write of dirlink stops exactly if the last block it needs cannot be had. */
  lemma LinkWrites(s0: State, s: State, i: nat, size: nat, slot: nat)
    requires Valid(s) && TailZero(s) && HasInode(s, i) && !s.inodes[i].extent && s.inodes[i].size == size && size % ENTRY == 0
    requires ENTRY * slot <= size <= MAXFILE * BSIZE && AllMapped(s, i, 0, SpanEnd(0, size))
    requires Onward(s0, s, i, 0, SpanEnd(0, size), LinkBlocks(size, slot))
    ensures var n := WriteCount(false, ENTRY * slot, ENTRY);
      && RangeHalt(s, i, ENTRY * slot / BSIZE, SpanEnd(ENTRY * slot, n)) == RangeHalt(s0, i, 0, LinkBlocks(size, slot))
      && (n == ENTRY <==> ENTRY * slot < MAXFILE * BSIZE)
      && (RangeHalt(s, i, ENTRY * slot / BSIZE, SpanEnd(ENTRY * slot, n)) in {Never, Because(Full)})
  {
    PlainHalts(s, i, ENTRY * slot / BSIZE, SpanEnd(ENTRY * slot, WriteCount(false, ENTRY * slot, ENTRY)));
    hide Valid, TailZero, Lookup, RangeHalt;
    var n, lo, end := WriteCount(false, ENTRY * slot, ENTRY), ENTRY * slot / BSIZE, SpanEnd(0, size);
    SlotBlock(slot, size);
    if n == 0 {
      EmptyRange(s, i, lo, end);
    } else if lo < end {
      MappedReturns(s, i, lo, 0, end);
      assert BlockHalt(s, i, lo) == RangeHalt(s, i, lo, lo + 1);
      EmptyRange(s, i, end, end);
    }
  }

  lemma PlainHalts(s: State, i: nat, lo: nat, hi: nat)
    requires HasInode(s, i) && !s.inodes[i].extent
    ensures lo >= hi || hi <= MAXFILE ==> RangeHalt(s, i, lo, hi) == Never || RangeHalt(s, i, lo, hi) == Because(Full)
  {
    hide Lookup, FreeBlocks;
  }

  lemma EmptyRange(s: State, i: nat, a: nat, b: nat)
    requires HasInode(s, i)
    ensures RangeHalt(s, i, a, a) == Never && RangeHalt(s, i, b, b) == Never
  {
  }

  lemma SlotBlock(slot: nat, size: nat)
    requires size % ENTRY == 0 && ENTRY * slot <= size <= MAXFILE * BSIZE
    ensures var n, lo := WriteCount(false, ENTRY * slot, ENTRY), ENTRY * slot / BSIZE;
      && (n == ENTRY || n == 0) && (n == ENTRY <==> ENTRY * slot < MAXFILE * BSIZE)
      && SpanEnd(ENTRY * slot, n) == (if n == 0 then lo else lo + 1)
      && lo <= SpanEnd(0, size)
  {
    var x := ENTRY * slot;
    assert x % ENTRY == 0 && (MAXFILE * BSIZE) % ENTRY == 0;
    assert x < MAXFILE * BSIZE ==> x + ENTRY <= MAXFILE * BSIZE;
    assert x % BSIZE + ENTRY <= BSIZE;
  }

  lemma OneFileAfter(s: State, m: State, s': State, i: nat, c: seq<byte>)
    requires SameBytes(s, m) && OneFile(m, s', i, c)
    ensures OneFile(s, s', i, c)
  {
    hide Contents;
    forall j | 0 <= j < |s.inodes| && j != i ensures HasInode(s, j) && Contents(s', j) == Contents(s, j) {
      SameContents(s, m, j);
    }
  }
}
