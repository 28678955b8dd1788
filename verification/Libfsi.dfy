// The log-structured file server of 6/libfsi.c.  Everything it stores is an
// array of ints, so the image is a sequence of words and every offset counts
// words: a block is 1024, an inode 16, an inode-map chunk 16, the checkpoint
// region 257.
module Libfsi {

  const BLOCK := 1024
  const INODE := 16
  const CHUNK := 16
  const NCHUNKS := 256
  const NINODES := 4096
  const CR := 257
  const NDIRECT := 14
  const BLOCK_BYTES := 4096
  const DIRECTORY := 0
  const REGULAR := 1

  type Words = seq<int>

  datatype Checkpoint = Checkpoint(end: int, chunks: Words)

  datatype Inode = Inode(size: int, kind: int, direct: Words)

  function EncodeInode(n: Inode): Words {
    [n.size, n.kind] + n.direct
  }

  function DecodeInode(ws: Words): Inode
    requires |ws| == INODE
  {
    Inode(ws[0], ws[1], ws[2..])
  }

  function EncodeCheckpoint(cr: Checkpoint): Words {
    [cr.end] + cr.chunks
  }

  function DecodeCheckpoint(ws: Words): Checkpoint
    requires |ws| == CR
  {
    Checkpoint(ws[0], ws[1..])
  }

  function Repeat(n: nat, w: int): (r: Words)
    ensures |r| == n && forall i :: 0 <= i < n ==> r[i] == w
  {
    seq(n, i => w)
  }

  // ------------------------------------------------------------ the image

  /** `lseek` to off and `write`: overwrites, and extends the file when it reaches past its end. */
  function WriteAt(f: Words, off: nat, ws: Words): (r: Words)
    requires off <= |f|
    ensures |r| == if off + |ws| > |f| then off + |ws| else |f|
    ensures r[off..off + |ws|] == ws
    ensures forall i :: 0 <= i < |f| && (i < off || off + |ws| <= i) ==> r[i] == f[i]
  {
    if off + |ws| > |f| then f[..off] + ws else f[..off] + ws + f[off + |ws|..]
  }

  /** A record that lies between the checkpoint region and the end of the log. */
  predicate InLog(off: int, n: int, end: int) {
    CR <= off && off + n <= end
  }

  function Record(f: Words, off: int, n: nat): (r: Words)
    requires 0 <= off && off + n <= |f|
    ensures |r| == n
  {
    f[off..off + n]
  }

  lemma RecordKept(f: Words, g: Words, off: int, n: nat)
    requires 0 <= off && off + n <= |f| && off + n <= |g|
    requires forall i :: off <= i < off + n ==> g[i] == f[i]
    ensures Record(g, off, n) == Record(f, off, n)
  {
  }

  // ------------------------------------------------- consistency and recovery

  ghost predicate InodeOk(f: Words, end: int, off: int)
    requires end <= |f|
  {
    InLog(off, INODE, end)
    && forall b :: 0 <= b < NDIRECT ==>
         var d := DecodeInode(Record(f, off, INODE)).direct[b];
         d == -1 || InLog(d, BLOCK, end)
  }

  ghost predicate ChunkOk(f: Words, cr: Checkpoint, inodes: Words, c: int)
    requires 0 <= c < NCHUNKS == |cr.chunks| && |inodes| == NINODES && cr.end <= |f|
  {
    if cr.chunks[c] == -1 then inodes[c * CHUNK..c * CHUNK + CHUNK] == Repeat(CHUNK, -1)
    else InLog(cr.chunks[c], CHUNK, cr.end)
         && Record(f, cr.chunks[c], CHUNK) == inodes[c * CHUNK..c * CHUNK + CHUNK]
  }

  /** The in-memory checkpoint and inode map agree with the image and point into the log. */
  ghost predicate Consistent(f: Words, cr: Checkpoint, inodes: Words) {
    && |cr.chunks| == NCHUNKS && |inodes| == NINODES
    && CR <= cr.end <= |f|
    && Record(f, 0, CR) == EncodeCheckpoint(cr)
    && (forall c :: 0 <= c < NCHUNKS ==> ChunkOk(f, cr, inodes, c))
    && (forall i :: 0 <= i < NINODES && inodes[i] != -1 ==> InodeOk(f, cr.end, inodes[i]))
  }

  /** Every map chunk the checkpoint names can be read in full. */
  predicate Readable(f: Words, cr: Checkpoint) {
    |cr.chunks| == NCHUNKS
    && forall c :: 0 <= c < NCHUNKS ==> cr.chunks[c] == -1 || (0 <= cr.chunks[c] && cr.chunks[c] + CHUNK <= |f|)
  }

  /** What `fsi_init` reads back for inode i. */
  function RecoverInode(f: Words, cr: Checkpoint, i: nat): int
    requires Readable(f, cr) && i < NINODES
  {
    var c := cr.chunks[i / CHUNK];
    if c == -1 then -1 else f[c + i % CHUNK]
  }

  lemma ConsistentReadable(f: Words, cr: Checkpoint, inodes: Words)
    requires Consistent(f, cr, inodes)
    ensures Readable(f, cr)
  {
    forall c | 0 <= c < NCHUNKS
      ensures cr.chunks[c] == -1 || (0 <= cr.chunks[c] && cr.chunks[c] + CHUNK <= |f|)
    {
      assert ChunkOk(f, cr, inodes, c);
    }
  }

  /** Recovery: reading the image back gives exactly the state in memory. */
  lemma ConsistentRecovers(f: Words, cr: Checkpoint, inodes: Words)
    requires Consistent(f, cr, inodes)
    ensures DecodeCheckpoint(Record(f, 0, CR)) == cr && Readable(f, cr)
    ensures forall i :: 0 <= i < NINODES ==> RecoverInode(f, cr, i) == inodes[i]
  {
    ConsistentReadable(f, cr, inodes);
    forall i | 0 <= i < NINODES ensures RecoverInode(f, cr, i) == inodes[i] {
      var c := i / CHUNK;
      assert ChunkOk(f, cr, inodes, c);
      assert inodes[i] == inodes[c * CHUNK..c * CHUNK + CHUNK][i % CHUNK];
      if cr.chunks[c] != -1 {
        assert Record(f, cr.chunks[c], CHUNK)[i % CHUNK] == f[cr.chunks[c] + i % CHUNK];
      }
    }
  }

  /** Whatever a crash leaves past the end of the log, the state before it is recovered. */
  lemma DebrisIsHarmless(f: Words, g: Words, cr: Checkpoint, inodes: Words)
    requires Consistent(f, cr, inodes) && cr.end <= |g|
    requires forall i :: 0 <= i < cr.end ==> g[i] == f[i]
    ensures Consistent(g, cr, inodes)
  {
    RecordKept(f, g, 0, CR);
    forall c | 0 <= c < NCHUNKS ensures ChunkOk(g, cr, inodes, c) {
      assert ChunkOk(f, cr, inodes, c);
      if cr.chunks[c] != -1 {
        RecordKept(f, g, cr.chunks[c], CHUNK);
      }
    }
    forall i | 0 <= i < NINODES && inodes[i] != -1 ensures InodeOk(g, cr.end, inodes[i]) {
      assert InodeOk(f, cr.end, inodes[i]);
      RecordKept(f, g, inodes[i], INODE);
    }
  }

  lemma Sizes(f: Words, cr: Checkpoint, inodes: Words)
    requires Consistent(f, cr, inodes)
    ensures |cr.chunks| == NCHUNKS && |inodes| == NINODES && CR <= cr.end <= |f|
  {
  }

  // ---------------------------------------------------------------- commits

  /** Appending records that concern one inode-map chunk, and then the checkpoint, keeps consistency. */
  lemma Commit(f: Words, cr: Checkpoint, inodes: Words, g: Words, cr': Checkpoint, inodes': Words, c: nat)
    requires Consistent(f, cr, inodes) && c < NCHUNKS
    requires |inodes'| == NINODES && cr.end <= cr'.end <= |g|
    requires |cr'.chunks| == NCHUNKS && InLog(cr'.chunks[c], CHUNK, cr'.end)
    requires forall d :: 0 <= d < NCHUNKS && d != c ==> cr'.chunks[d] == cr.chunks[d]
    requires Record(g, 0, CR) == EncodeCheckpoint(cr')
    requires forall i :: CR <= i < cr.end ==> g[i] == f[i]
    requires Record(g, cr'.chunks[c], CHUNK) == inodes'[c * CHUNK..c * CHUNK + CHUNK]
    requires forall i :: 0 <= i < NINODES && i / CHUNK != c ==> inodes'[i] == inodes[i]
    requires forall i :: 0 <= i < NINODES && inodes'[i] != inodes[i] && inodes'[i] != -1 ==>
      InodeOk(g, cr'.end, inodes'[i])
    ensures Consistent(g, cr', inodes')
  {
    forall d | 0 <= d < NCHUNKS ensures ChunkOk(g, cr', inodes', d) {
      if d != c {
        assert ChunkOk(f, cr, inodes, d);
        SameChunk(inodes, inodes', c, d);
        if cr.chunks[d] != -1 {
          RecordKept(f, g, cr.chunks[d], CHUNK);
        }
      }
    }
    forall i | 0 <= i < NINODES && inodes'[i] != -1 ensures InodeOk(g, cr'.end, inodes'[i]) {
      if inodes'[i] == inodes[i] {
        InodeKept(f, g, cr.end, cr'.end, inodes[i]);
      }
    }
  }

  lemma SameChunk(inodes: Words, inodes': Words, c: nat, d: nat)
    requires |inodes| == |inodes'| == NINODES && d < NCHUNKS && c != d
    requires forall i :: 0 <= i < NINODES && i / CHUNK != c ==> inodes'[i] == inodes[i]
    ensures inodes'[d * CHUNK..d * CHUNK + CHUNK] == inodes[d * CHUNK..d * CHUNK + CHUNK]
  {
    forall i | d * CHUNK <= i < d * CHUNK + CHUNK ensures inodes'[i] == inodes[i] {
      assert i / CHUNK == d;
    }
  }

  lemma InodeKept(f: Words, g: Words, end: int, end': int, off: int)
    requires end <= |f| && end <= end' <= |g| && InodeOk(f, end, off)
    requires forall i :: CR <= i < end ==> g[i] == f[i]
    ensures InodeOk(g, end', off) && Record(g, off, INODE) == Record(f, off, INODE)
  {
    RecordKept(f, g, off, INODE);
    assert forall b :: 0 <= b < NDIRECT ==>
      var d := DecodeInode(Record(f, off, INODE)).direct[b]; d == -1 || InLog(d, BLOCK, end);
  }

  // ------------------------------------------------------------------ files

  ghost predicate Exists(inodes: Words, i: int) {
    0 <= i < |inodes| && inodes[i] != -1
  }

  ghost function InodeOf(f: Words, cr: Checkpoint, inodes: Words, i: int): (n: Inode)
    requires Consistent(f, cr, inodes) && Exists(inodes, i)
    ensures |n.direct| == NDIRECT
  {
    assert InodeOk(f, cr.end, inodes[i]);
    DecodeInode(Record(f, inodes[i], INODE))
  }

  /** Block b of inode i has been written. */
  ghost predicate Stored(f: Words, cr: Checkpoint, inodes: Words, i: int, b: int)
    requires Consistent(f, cr, inodes)
  {
    Exists(inodes, i) && 0 <= b < NDIRECT && InodeOf(f, cr, inodes, i).direct[b] != -1
  }

  ghost function Data(f: Words, cr: Checkpoint, inodes: Words, i: int, b: int): (d: Words)
    requires Consistent(f, cr, inodes) && Stored(f, cr, inodes, i, b)
    ensures |d| == BLOCK
  {
    assert InodeOk(f, cr.end, inodes[i]);
    var off := InodeOf(f, cr, inodes, i).direct[b];
    Record(f, off, BLOCK)
  }

  /** Nothing about inode j differs between the two states. */
  ghost predicate SameFile(f: Words, cr: Checkpoint, inodes: Words,
                           g: Words, cr': Checkpoint, inodes': Words, j: int)
    requires Consistent(f, cr, inodes) && Consistent(g, cr', inodes')
  {
    && (Exists(inodes', j) <==> Exists(inodes, j))
    && (Exists(inodes, j) ==> InodeOf(g, cr', inodes', j) == InodeOf(f, cr, inodes, j))
    && (forall b :: Stored(f, cr, inodes, j, b) ==>
          Stored(g, cr', inodes', j, b) && Data(g, cr', inodes', j, b) == Data(f, cr, inodes, j, b))
  }

  lemma OthersSame(f: Words, cr: Checkpoint, inodes: Words, g: Words, cr': Checkpoint, inodes': Words, j: int)
    requires Consistent(f, cr, inodes) && Consistent(g, cr', inodes')
    requires cr.end <= cr'.end && forall i :: CR <= i < cr.end ==> g[i] == f[i]
    requires 0 <= j < NINODES ==> inodes'[j] == inodes[j]
    ensures SameFile(f, cr, inodes, g, cr', inodes', j)
  {
    if Exists(inodes, j) {
      assert InodeOk(f, cr.end, inodes[j]);
      InodeKept(f, g, cr.end, cr'.end, inodes[j]);
      forall b | Stored(f, cr, inodes, j, b)
        ensures Stored(g, cr', inodes', j, b) && Data(g, cr', inodes', j, b) == Data(f, cr, inodes, j, b)
      {
        RecordKept(f, g, InodeOf(f, cr, inodes, j).direct[b], BLOCK);
      }
    }
  }

  // ------------------------------------------------------- appended records

  /** Consecutive writes are one write. */
  lemma WriteTwice(f: Words, off: nat, a: Words, b: Words)
    requires off <= |f|
    ensures WriteAt(WriteAt(f, off, a), off + |a|, b) == WriteAt(f, off, a + b)
  {
    var g, h := WriteAt(WriteAt(f, off, a), off + |a|, b), WriteAt(f, off, a + b);
    assert |g| == |h|;
    forall i | 0 <= i < |g| ensures g[i] == h[i] {
      if off <= i < off + |a| {
        assert WriteAt(f, off, a)[off..off + |a|][i - off] == a[i - off];
        assert h[off..off + |a + b|][i - off] == (a + b)[i - off];
      } else if off + |a| <= i < off + |a| + |b| {
        assert g[off + |a|..off + |a| + |b|][i - off - |a|] == b[i - off - |a|];
        assert h[off..off + |a + b|][i - off] == (a + b)[i - off];
      }
    }
  }

  /** Records appended at the end of the log, and then the checkpoint. */
  ghost function Appended(f: Words, end: nat, ws: Words, head: Words): (g: Words)
    requires end <= |f|
  {
    WriteAt(WriteAt(f, end, ws), 0, head)
  }

  lemma AppendedLayout(f: Words, end: nat, ws: Words, head: Words)
    requires CR <= end <= |f| && |head| == CR
    ensures var g := Appended(f, end, ws, head);
      && |g| >= end + |ws|
      && Record(g, 0, CR) == head
      && Record(g, end, |ws|) == ws
      && forall i :: CR <= i < end ==> g[i] == f[i]
  {
    RecordKept(WriteAt(f, end, ws), Appended(f, end, ws, head), end, |ws|);
  }

  lemma AppendedPart(f: Words, end: nat, a: Words, r: Words, c: Words, head: Words)
    requires CR <= end <= |f| && |head| == CR
    ensures var g := Appended(f, end, a + r + c, head);
      |g| >= end + |a| + |r| && Record(g, end + |a|, |r|) == r
  {
    hide Appended;
    var ws := a + r + c;
    AppendedLayout(f, end, ws, head);
    var g := Appended(f, end, ws, head);
    assert g[end + |a|..end + |a| + |r|] == g[end..end + |ws|][|a|..|a| + |r|];
    assert ws[|a|..|a| + |r|] == r;
  }

  /** The inode `fsi_write` stores. */
  function WrittenInode(n: Inode, block: nat, at: int): Inode
    requires |n.direct| == NDIRECT && block < NDIRECT
  {
    Inode(if n.direct[block] == -1 && n.size < block * BLOCK_BYTES then block * BLOCK_BYTES else n.size,
          n.kind, n.direct[block := at])
  }

  /** The chunk of the inode map that holds inode i. */
  function MapChunk(inodes: Words, i: nat): (c: Words)
    requires |inodes| == NINODES && i < NINODES
    ensures |c| == CHUNK
  {
    inodes[i / CHUNK * CHUNK..i / CHUNK * CHUNK + CHUNK]
  }

  lemma CommitOne(f: Words, cr: Checkpoint, inodes: Words, g: Words, cr': Checkpoint, i: nat, off: int)
    requires Consistent(f, cr, inodes) && i < NINODES && cr.end <= cr'.end <= |g|
    requires |cr'.chunks| == NCHUNKS
    requires cr'.chunks == cr.chunks[i / CHUNK := cr'.chunks[i / CHUNK]]
    requires InLog(cr'.chunks[i / CHUNK], CHUNK, cr'.end)
    requires Record(g, 0, CR) == EncodeCheckpoint(cr')
    requires forall k :: CR <= k < cr.end ==> g[k] == f[k]
    requires Record(g, cr'.chunks[i / CHUNK], CHUNK) == MapChunk(inodes[i := off], i)
    requires InodeOk(g, cr'.end, off)
    ensures Consistent(g, cr', inodes[i := off])
  {
    hide InodeOk, ChunkOk;
    var inodes' := inodes[i := off];
    forall k | 0 <= k < NINODES && k / CHUNK != i / CHUNK ensures inodes'[k] == inodes[k] {
      assert k != i;
    }
    Commit(f, cr, inodes, g, cr', inodes', i / CHUNK);
  }

  lemma DecodeEncode(n: Inode)
    requires |n.direct| == NDIRECT
    ensures |EncodeInode(n)| == INODE && DecodeInode(EncodeInode(n)) == n
  {
  }

  ghost function WrittenImage(f: Words, cr: Checkpoint, inodes: Words, i: nat, buffer: Words, block: nat): Words
    requires Consistent(f, cr, inodes) && Exists(inodes, i) && block < NDIRECT && |buffer| == BLOCK
  {
    StoredImage(f, cr, inodes, i, InodeOf(f, cr, inodes, i), buffer, block)
  }

  /** Sizes, and an end that lies in the image: all that the writes of `fsi_write` rely on. */
  predicate Shaped(f: Words, cr: Checkpoint, inodes: Words) {
    |cr.chunks| == NCHUNKS && |inodes| == NINODES && CR <= cr.end <= |f|
  }

  /** What `fsi_write` leaves on the image if all of its writes succeed, n being the inode it read. */
  ghost function StoredImage(f: Words, cr: Checkpoint, inodes: Words, i: nat, n: Inode, buffer: Words, block: nat): Words
    requires Shaped(f, cr, inodes) && i < NINODES && block < NDIRECT && |n.direct| == NDIRECT
  {
    var m := EncodeInode(WrittenInode(n, block, cr.end));
    var chunk := MapChunk(inodes[i := cr.end + BLOCK], i);
    Appended(f, cr.end, buffer + m + chunk, EncodeCheckpoint(WrittenCheckpoint(cr, i)))
  }

  /** The inode the map points at can be read in full. */
  predicate Loaded(f: Words, inodes: Words, i: int) {
    |inodes| == NINODES && i < NINODES && (0 <= i && inodes[i] != -1 ==> 0 <= inodes[i] && inodes[i] + INODE <= |f|)
  }

  function NodeAt(f: Words, inodes: Words, i: int): (n: Inode)
    requires Loaded(f, inodes, i) && 0 <= i && inodes[i] != -1
    ensures |n.direct| == NDIRECT
  {
    DecodeInode(Record(f, inodes[i], INODE))
  }

  /** The tests of `fsi_write`. */
  predicate Accepts(f: Words, inodes: Words, i: int, block: nat)
    requires Loaded(f, inodes, i)
  {
    0 <= i && inodes[i] != -1 && NodeAt(f, inodes, i).kind == REGULAR && block < NDIRECT
  }

  lemma ConsistentLoaded(f: Words, cr: Checkpoint, inodes: Words, i: int)
    requires Consistent(f, cr, inodes) && i < NINODES
    ensures Shaped(f, cr, inodes) && Loaded(f, inodes, i)
    ensures Exists(inodes, i) <==> 0 <= i && inodes[i] != -1
    ensures Exists(inodes, i) ==> NodeAt(f, inodes, i) == InodeOf(f, cr, inodes, i)
  {
    if 0 <= i && inodes[i] != -1 {
      assert InodeOk(f, cr.end, inodes[i]);
    }
  }

  /** What `fsi_write` leaves in memory when only so many of its writes succeed. */
  function PartialInodes(cr: Checkpoint, inodes: Words, i: nat, writes: nat): Words
    requires |inodes| == NINODES && i < NINODES
  {
    if writes == 0 then inodes else inodes[i := cr.end + BLOCK]
  }

  function PartialCheckpoint(cr: Checkpoint, i: nat, writes: nat): Checkpoint
    requires |cr.chunks| == NCHUNKS && i < NINODES
  {
    if writes <= 1 then cr
    else if writes == 2 then cr.(chunks := cr.chunks[i / CHUNK := cr.end + BLOCK + INODE])
    else WrittenCheckpoint(cr, i)
  }

  /** After a write that fails, memory disagrees with the image, whatever lies past the end of the log. */
  lemma FailedWriteSplits(f: Words, cr: Checkpoint, inodes: Words, g: Words, i: nat, writes: nat)
    requires Consistent(f, cr, inodes) && Exists(inodes, i) && LogKept(f, cr, g) && 1 <= writes <= 3
    ensures !Consistent(g, PartialCheckpoint(cr, i, writes), PartialInodes(cr, inodes, i, writes))
  {
    var c, k := i / CHUNK, i % CHUNK;
    var inodes' := PartialInodes(cr, inodes, i, writes);
    assert ChunkOk(f, cr, inodes, c) && InodeOk(f, cr.end, inodes[i]);
    assert inodes[c * CHUNK..c * CHUNK + CHUNK][k] == inodes[i] && inodes'[c * CHUNK..c * CHUNK + CHUNK][k] == inodes'[i];
    if writes == 1 {
      assert Record(f, cr.chunks[c], CHUNK)[k] == f[cr.chunks[c] + k];
      RecordKept(f, g, cr.chunks[c], CHUNK);
      assert !ChunkOk(g, cr, inodes', c);
    } else {
      var cr' := PartialCheckpoint(cr, i, writes);
      RecordKept(f, g, 0, CR);
      assert EncodeCheckpoint(cr)[1 + c] == cr.chunks[c] && EncodeCheckpoint(cr')[1 + c] == cr'.chunks[c];
    }
  }

  function WrittenCheckpoint(cr: Checkpoint, i: nat): (cr': Checkpoint)
    requires |cr.chunks| == NCHUNKS && i < NINODES
    ensures |cr'.chunks| == NCHUNKS
  {
    Checkpoint(cr.end + BLOCK + INODE + CHUNK, cr.chunks[i / CHUNK := cr.end + BLOCK + INODE])
  }

  lemma NewInodeOk(f: Words, end: nat, prior: int, g: Words, end': nat, block: nat)
    requires end <= |f| && CR <= end && InodeOk(f, end, prior) && block < NDIRECT
    requires end + BLOCK + INODE <= end' <= |g|
    requires Record(g, end + BLOCK, INODE)
          == EncodeInode(WrittenInode(DecodeInode(Record(f, prior, INODE)), block, end))
    ensures InodeOk(g, end', end + BLOCK)
  {
    var n := DecodeInode(Record(f, prior, INODE));
    DecodeEncode(WrittenInode(n, block, end));
    var n' := DecodeInode(Record(g, end + BLOCK, INODE));
    forall b | 0 <= b < NDIRECT ensures n'.direct[b] == -1 || InLog(n'.direct[b], BLOCK, end') {
      assert n.direct[b] == -1 || InLog(n.direct[b], BLOCK, end);
    }
  }

  /** The records of `fsi_write` on the image. */
  lemma StoredParts(f: Words, cr: Checkpoint, inodes: Words, i: nat, n: Inode, buffer: Words, block: nat)
    requires Shaped(f, cr, inodes) && i < NINODES && block < NDIRECT && |n.direct| == NDIRECT && |buffer| == BLOCK
    ensures var g, cr' := StoredImage(f, cr, inodes, i, n, buffer, block), WrittenCheckpoint(cr, i);
      && cr'.end <= |g| && Record(g, 0, CR) == EncodeCheckpoint(cr') && Record(g, cr.end, BLOCK) == buffer
      && Record(g, cr.end + BLOCK, INODE) == EncodeInode(WrittenInode(n, block, cr.end))
      && Record(g, cr.end + BLOCK + INODE, CHUNK) == MapChunk(inodes[i := cr.end + BLOCK], i)
      && forall k :: CR <= k < cr.end ==> g[k] == f[k]
  {
    hide Appended, Record;
    var n' := WrittenInode(n, block, cr.end);
    DecodeEncode(n');
    hide EncodeInode, DecodeInode;
    var m, chunk, head := EncodeInode(n'), MapChunk(inodes[i := cr.end + BLOCK], i), EncodeCheckpoint(WrittenCheckpoint(cr, i));
    assert buffer + m + chunk == [] + buffer + (m + chunk) == (buffer + m) + chunk + [];
    AppendedLayout(f, cr.end, buffer + m + chunk, head);
    AppendedPart(f, cr.end, [], buffer, m + chunk, head);
    AppendedPart(f, cr.end, buffer, m, chunk, head);
    AppendedPart(f, cr.end, buffer + m, chunk, [], head);
  }

  lemma InodeInPlace(f: Words, cr: Checkpoint, inodes: Words, i: nat)
    requires Consistent(f, cr, inodes) && i < NINODES && Exists(inodes, i)
    ensures Shaped(f, cr, inodes) && InodeOk(f, cr.end, inodes[i])
    ensures InodeOf(f, cr, inodes, i) == DecodeInode(Record(f, inodes[i], INODE))
  {
  }

  /** `fsi_write` commits a consistent state. */
  lemma WriteConsistent(f: Words, cr: Checkpoint, inodes: Words, i: nat, buffer: Words, block: nat)
    requires Consistent(f, cr, inodes) && Exists(inodes, i) && block < NDIRECT && |buffer| == BLOCK
    ensures var g := WrittenImage(f, cr, inodes, i, buffer, block);
      && Consistent(g, WrittenCheckpoint(cr, i), inodes[i := cr.end + BLOCK])
      && |g| >= cr.end + BLOCK + INODE && Record(g, cr.end, BLOCK) == buffer
      && Record(g, cr.end + BLOCK, INODE) == EncodeInode(WrittenInode(InodeOf(f, cr, inodes, i), block, cr.end))
      && forall k :: CR <= k < cr.end ==> g[k] == f[k]
  {
    hide StoredImage, ChunkOk, InodeOk, Consistent, InodeOf, MapChunk, EncodeInode, DecodeInode, Record;
    Sizes(f, cr, inodes);
    InodeInPlace(f, cr, inodes, i);
    var n, g, cr' := InodeOf(f, cr, inodes, i), WrittenImage(f, cr, inodes, i, buffer, block), WrittenCheckpoint(cr, i);
    StoredParts(f, cr, inodes, i, n, buffer, block);
    NewInodeOk(f, cr.end, inodes[i], g, cr'.end, block);
    CommitOne(f, cr, inodes, g, cr', i, cr.end + BLOCK);
  }

  lemma LogKeptSelf(f: Words, cr: Checkpoint)
    requires cr.end <= |f|
    ensures LogKept(f, cr, f)
  {
  }

  lemma LogRecovers(f: Words, cr: Checkpoint, inodes: Words, g: Words)
    requires Consistent(f, cr, inodes) && LogKept(f, cr, g)
    ensures Consistent(g, cr, inodes)
  {
    DebrisIsHarmless(f, g, cr, inodes);
  }

  lemma SameNode(f: Words, cr: Checkpoint, inodes: Words, g: Words, j: nat)
    requires Consistent(f, cr, inodes) && LogKept(f, cr, g) && j < NINODES && Exists(inodes, j)
    ensures Loaded(f, inodes, j) && Loaded(g, inodes, j) && NodeAt(g, inodes, j) == NodeAt(f, inodes, j)
  {
    assert InodeOk(f, cr.end, inodes[j]);
    RecordKept(f, g, inodes[j], INODE);
  }

  /** A write to j with the entry of i left over from a write that failed commits both entries. */
  lemma BothCommitted(g: Words, cr: Checkpoint, inodes: Words, i: nat, j: nat, buffer: Words, block: nat)
    requires Consistent(g, cr, inodes) && i < NINODES && j < NINODES && i != j && i / CHUNK == j / CHUNK
    requires Exists(inodes, j) && block < NDIRECT && |buffer| == BLOCK
    requires Shaped(g, cr, inodes) && Loaded(g, inodes, j)
    ensures var inodes1 := inodes[i := cr.end + BLOCK];
      var h := StoredImage(g, cr, inodes1, j, NodeAt(g, inodes, j), buffer, block);
      && Consistent(h, WrittenCheckpoint(cr, j), inodes1[j := cr.end + BLOCK])
      && |h| >= cr.end + BLOCK + INODE && Record(h, cr.end, BLOCK) == buffer
      && Record(h, cr.end + BLOCK, INODE) == EncodeInode(WrittenInode(NodeAt(g, inodes, j), block, cr.end))
  {
    hide StoredImage, ChunkOk, InodeOk, Consistent, InodeOf, MapChunk, EncodeInode, DecodeInode, Record;
    InodeInPlace(g, cr, inodes, j);
    var inodes1, cr' := inodes[i := cr.end + BLOCK], WrittenCheckpoint(cr, j);
    var h := StoredImage(g, cr, inodes1, j, NodeAt(g, inodes, j), buffer, block);
    StoredParts(g, cr, inodes1, j, NodeAt(g, inodes, j), buffer, block);
    NewInodeOk(g, cr.end, inodes[j], h, cr'.end, block);
    CommitTwo(g, cr, inodes, h, cr', i, j, cr.end + BLOCK, cr.end + BLOCK);
  }

  /** So both entries lead to the inode of j. */
  lemma DamageCommitted(g: Words, cr: Checkpoint, inodes: Words, i: nat, j: nat, buffer: Words, block: nat)
    requires Consistent(g, cr, inodes) && i < NINODES && j < NINODES && i != j && i / CHUNK == j / CHUNK
    requires Exists(inodes, j) && block < NDIRECT && |buffer| == BLOCK
    requires Shaped(g, cr, inodes) && Loaded(g, inodes, j)
    ensures var inodes1 := inodes[i := cr.end + BLOCK];
      var h, cr', inodes' := StoredImage(g, cr, inodes1, j, NodeAt(g, inodes, j), buffer, block), WrittenCheckpoint(cr, j), inodes1[j := cr.end + BLOCK];
      && Consistent(h, cr', inodes') && Exists(inodes', i) && Exists(inodes', j)
      && InodeOf(h, cr', inodes', i) == InodeOf(h, cr', inodes', j)
      && Stored(h, cr', inodes', i, block) && Data(h, cr', inodes', i, block) == buffer
  {
    hide Consistent, StoredImage, EncodeInode, DecodeInode;
    BothCommitted(g, cr, inodes, i, j, buffer, block);
    DecodeEncode(WrittenInode(NodeAt(g, inodes, j), block, cr.end));
  }

  /** `fsi_write` replaces one block of one file and nothing else. */
  lemma WriteEffect(f: Words, cr: Checkpoint, inodes: Words, i: nat, buffer: Words, block: nat)
    requires Consistent(f, cr, inodes) && Exists(inodes, i) && block < NDIRECT && |buffer| == BLOCK
    ensures var g, cr', inodes' := WrittenImage(f, cr, inodes, i, buffer, block), WrittenCheckpoint(cr, i), inodes[i := cr.end + BLOCK];
      && Consistent(g, cr', inodes')
      && (forall j :: j != i ==> SameFile(f, cr, inodes, g, cr', inodes', j))
      && Stored(g, cr', inodes', i, block) && Data(g, cr', inodes', i, block) == buffer
      && InodeOf(g, cr', inodes', i) == WrittenInode(InodeOf(f, cr, inodes, i), block, cr.end)
      && (var n, n' := InodeOf(f, cr, inodes, i), InodeOf(g, cr', inodes', i);
          && n'.kind == n.kind
          && n'.size == if Stored(f, cr, inodes, i, block) || n.size >= block * 4096 then n.size else block * 4096)
      && (forall b :: b != block ==> (Stored(g, cr', inodes', i, b) <==> Stored(f, cr, inodes, i, b)))
      && (forall b :: b != block && Stored(f, cr, inodes, i, b) ==>
            Stored(g, cr', inodes', i, b) && Data(g, cr', inodes', i, b) == Data(f, cr, inodes, i, b))
  {
    hide StoredImage, WrittenImage, EncodeInode, DecodeInode, ChunkOk, SameFile;
    var g, cr', inodes' := WrittenImage(f, cr, inodes, i, buffer, block), WrittenCheckpoint(cr, i), inodes[i := cr.end + BLOCK];
    WriteConsistent(f, cr, inodes, i, buffer, block);
    forall j | j != i ensures SameFile(f, cr, inodes, g, cr', inodes', j) {
      OthersSame(f, cr, inodes, g, cr', inodes', j);
    }
    var n := InodeOf(f, cr, inodes, i);
    DecodeEncode(WrittenInode(n, block, cr.end));
    assert InodeOk(f, cr.end, inodes[i]);
    forall b | b != block && Stored(f, cr, inodes, i, b)
      ensures Stored(g, cr', inodes', i, b) && Data(g, cr', inodes', i, b) == Data(f, cr, inodes, i, b)
    {
      RecordKept(f, g, n.direct[b], BLOCK);
    }
  }

  // ----------------------------------------------------- creating a file

  function ParentInode(n: Inode, found: nat, at: int): Inode
    requires |n.direct| == NDIRECT && found < NDIRECT
  {
    Inode(if n.size < found * BLOCK_BYTES then found * BLOCK_BYTES else n.size, n.kind, n.direct[found := at])
  }

  function NewFile(): Inode {
    Inode(0, REGULAR, Repeat(NDIRECT, -1))
  }

  function CreatedInodes(inodes: Words, end: int, pinum: nat, inum: nat): Words
    requires |inodes| == NINODES && pinum < NINODES && inum < NINODES
  {
    inodes[pinum := end + BLOCK][inum := end + BLOCK + INODE]
  }

  function CreatedCheckpoint(cr: Checkpoint, pinum: nat, inum: nat): (cr': Checkpoint)
    requires |cr.chunks| == NCHUNKS && pinum < NINODES && inum < NINODES
    ensures |cr'.chunks| == NCHUNKS
  {
    var p := cr.end + BLOCK + INODE;
    Checkpoint(p + INODE + CHUNK, cr.chunks[pinum / CHUNK := p][inum / CHUNK := p + INODE])
  }

  /** The words `fsi_creat` appends for a regular file, given the directory block with its new entry.
      When parent and child lie in different map chunks, one more chunk is written than the
      recorded positions account for. */
  ghost function CreatedWords(f: Words, cr: Checkpoint, inodes: Words, pinum: nat, inum: nat,
                              dir: Words, found: nat): Words
    requires Consistent(f, cr, inodes) && Exists(inodes, pinum) && inum < NINODES
    requires |dir| == BLOCK && found < NDIRECT
  {
    var n := EncodeInode(ParentInode(InodeOf(f, cr, inodes, pinum), found, cr.end));
    var extra := if pinum / CHUNK == inum / CHUNK then [] else MapChunk(inodes[pinum := cr.end + BLOCK], pinum);
    dir + n + extra + EncodeInode(NewFile()) + MapChunk(CreatedInodes(inodes, cr.end, pinum, inum), inum)
  }

  ghost function CreatedImage(f: Words, cr: Checkpoint, inodes: Words, pinum: nat, inum: nat,
                              dir: Words, found: nat): Words
    requires Consistent(f, cr, inodes) && Exists(inodes, pinum) && inum < NINODES
    requires |dir| == BLOCK && found < NDIRECT
  {
    Appended(f, cr.end, CreatedWords(f, cr, inodes, pinum, inum, dir, found),
             EncodeCheckpoint(CreatedCheckpoint(cr, pinum, inum)))
  }

  lemma NewFileWords()
    ensures |EncodeInode(NewFile())| == INODE && DecodeInode(EncodeInode(NewFile())) == NewFile()
    ensures forall k :: 0 <= k < INODE ==> EncodeInode(NewFile())[k] == if k == 0 then 0 else if k == 1 then REGULAR else -1
  {
    DecodeEncode(NewFile());
  }

  lemma CreatedSameChunk(f: Words, cr: Checkpoint, inodes: Words, pinum: nat, inum: nat, dir: Words, found: nat)
    requires Consistent(f, cr, inodes) && Exists(inodes, pinum) && inum < NINODES && inodes[inum] == -1
    requires |dir| == BLOCK && found < NDIRECT && pinum / CHUNK == inum / CHUNK
    ensures Consistent(CreatedImage(f, cr, inodes, pinum, inum, dir, found),
                       CreatedCheckpoint(cr, pinum, inum), CreatedInodes(inodes, cr.end, pinum, inum))
  {
    hide ChunkOk, InodeOk, Appended;
    var g := CreatedImage(f, cr, inodes, pinum, inum, dir, found);
    var cr', inodes' := CreatedCheckpoint(cr, pinum, inum), CreatedInodes(inodes, cr.end, pinum, inum);
    var n' := ParentInode(InodeOf(f, cr, inodes, pinum), found, cr.end);
    DecodeEncode(n');
    NewFileWords();
    var m, child, chunk, head := EncodeInode(n'), EncodeInode(NewFile()), MapChunk(inodes', inum), EncodeCheckpoint(cr');
    var ws := CreatedWords(f, cr, inodes, pinum, inum, dir, found);
    assert ws == dir + m + (child + chunk) == (dir + m) + child + chunk == (dir + m + child) + chunk + [];
    AppendedLayout(f, cr.end, ws, head);
    AppendedPart(f, cr.end, dir, m, child + chunk, head);
    AppendedPart(f, cr.end, dir + m, child, chunk, head);
    AppendedPart(f, cr.end, dir + m + child, chunk, [], head);
    ParentInodeOk(f, cr.end, inodes[pinum], g, cr'.end, found);
    ChildInodeOk(g, cr'.end, cr.end + BLOCK + INODE);
    CommitTwo(f, cr, inodes, g, cr', pinum, inum, cr.end + BLOCK, cr.end + BLOCK + INODE);
  }

  /** Creation within a chunk makes an empty file and changes no other file but the directory. */
  lemma CreatedEffect(f: Words, cr: Checkpoint, inodes: Words, pinum: nat, inum: nat, dir: Words, found: nat)
    requires Consistent(f, cr, inodes) && Exists(inodes, pinum) && inum < NINODES && inodes[inum] == -1
    requires |dir| == BLOCK && found < NDIRECT && pinum / CHUNK == inum / CHUNK
    ensures var g := CreatedImage(f, cr, inodes, pinum, inum, dir, found);
      var cr', inodes' := CreatedCheckpoint(cr, pinum, inum), CreatedInodes(inodes, cr.end, pinum, inum);
      && Consistent(g, cr', inodes') && Exists(inodes', inum) && InodeOf(g, cr', inodes', inum) == NewFile()
      && InodeOf(g, cr', inodes', inum).size == 0 && InodeOf(g, cr', inodes', inum).kind == 1
      && (forall b :: !Stored(g, cr', inodes', inum, b))
      && Exists(inodes', pinum)
      && (var n, n' := InodeOf(f, cr, inodes, pinum), InodeOf(g, cr', inodes', pinum);
          n'.kind == n.kind && n'.size == (if n.size < found * 4096 then found * 4096 else n.size)
          && forall b :: 0 <= b < NDIRECT && b != found ==> n'.direct[b] == n.direct[b])
      && InodeOf(g, cr', inodes', pinum) == ParentInode(InodeOf(f, cr, inodes, pinum), found, cr.end)
      && Stored(g, cr', inodes', pinum, found) && Data(g, cr', inodes', pinum, found) == dir
      && (forall j :: j != pinum && j != inum ==> SameFile(f, cr, inodes, g, cr', inodes', j))
  {
    hide ChunkOk, InodeOk, Appended, SameFile;
    CreatedSameChunk(f, cr, inodes, pinum, inum, dir, found);
    var g := CreatedImage(f, cr, inodes, pinum, inum, dir, found);
    var cr', inodes' := CreatedCheckpoint(cr, pinum, inum), CreatedInodes(inodes, cr.end, pinum, inum);
    var n' := ParentInode(InodeOf(f, cr, inodes, pinum), found, cr.end);
    DecodeEncode(n');
    NewFileWords();
    var m, child, chunk, head := EncodeInode(n'), EncodeInode(NewFile()), MapChunk(inodes', inum), EncodeCheckpoint(cr');
    var ws := CreatedWords(f, cr, inodes, pinum, inum, dir, found);
    assert ws == [] + dir + (m + (child + chunk)) == dir + m + (child + chunk) == (dir + m) + child + chunk;
    AppendedLayout(f, cr.end, ws, head);
    AppendedPart(f, cr.end, [], dir, m + (child + chunk), head);
    AppendedPart(f, cr.end, dir, m, child + chunk, head);
    AppendedPart(f, cr.end, dir + m, child, chunk, head);
    forall j | j != pinum && j != inum ensures SameFile(f, cr, inodes, g, cr', inodes', j) {
      OthersSame(f, cr, inodes, g, cr', inodes', j);
    }
  }

  lemma CommitTwo(f: Words, cr: Checkpoint, inodes: Words, g: Words, cr': Checkpoint,
                  i: nat, j: nat, off: int, off': int)
    requires Consistent(f, cr, inodes) && i < NINODES && j < NINODES && cr.end <= cr'.end <= |g|
    requires i / CHUNK == j / CHUNK && |cr'.chunks| == NCHUNKS
    requires cr'.chunks == cr.chunks[j / CHUNK := cr'.chunks[j / CHUNK]]
    requires InLog(cr'.chunks[j / CHUNK], CHUNK, cr'.end)
    requires Record(g, 0, CR) == EncodeCheckpoint(cr')
    requires forall k :: CR <= k < cr.end ==> g[k] == f[k]
    requires Record(g, cr'.chunks[j / CHUNK], CHUNK) == MapChunk(inodes[i := off][j := off'], j)
    requires InodeOk(g, cr'.end, off) && InodeOk(g, cr'.end, off')
    ensures Consistent(g, cr', inodes[i := off][j := off'])
  {
    hide InodeOk, ChunkOk;
    var inodes' := inodes[i := off][j := off'];
    forall k | 0 <= k < NINODES && k / CHUNK != j / CHUNK ensures inodes'[k] == inodes[k] {
      assert k != i && k != j;
    }
    Commit(f, cr, inodes, g, cr', inodes', j / CHUNK);
  }

  lemma ParentInodeOk(f: Words, end: nat, prior: int, g: Words, end': nat, found: nat)
    requires end <= |f| && CR <= end && InodeOk(f, end, prior) && found < NDIRECT
    requires end + BLOCK + INODE <= end' <= |g|
    requires Record(g, end + BLOCK, INODE)
          == EncodeInode(ParentInode(DecodeInode(Record(f, prior, INODE)), found, end))
    ensures InodeOk(g, end', end + BLOCK)
  {
    var n := DecodeInode(Record(f, prior, INODE));
    DecodeEncode(ParentInode(n, found, end));
    var n' := DecodeInode(Record(g, end + BLOCK, INODE));
    forall b | 0 <= b < NDIRECT ensures n'.direct[b] == -1 || InLog(n'.direct[b], BLOCK, end') {
      assert n.direct[b] == -1 || InLog(n.direct[b], BLOCK, end);
    }
  }

  lemma ChildInodeOk(g: Words, end: nat, off: nat)
    requires InLog(off, INODE, end) && end <= |g| && Record(g, off, INODE) == EncodeInode(NewFile())
    ensures InodeOk(g, end, off)
  {
    NewFileWords();
  }

  /** In the other case the map chunk of the new file is read back from where its inode lies. */
  lemma CreatedOtherChunk(f: Words, cr: Checkpoint, inodes: Words, pinum: nat, inum: nat, dir: Words, found: nat)
    requires Consistent(f, cr, inodes) && Exists(inodes, pinum) && inum < NINODES && inodes[inum] == -1
    requires |dir| == BLOCK && found < NDIRECT && pinum / CHUNK != inum / CHUNK
    ensures !Consistent(CreatedImage(f, cr, inodes, pinum, inum, dir, found),
                        CreatedCheckpoint(cr, pinum, inum), CreatedInodes(inodes, cr.end, pinum, inum))
  {
    hide InodeOk, Appended;
    var g := CreatedImage(f, cr, inodes, pinum, inum, dir, found);
    var cr', inodes' := CreatedCheckpoint(cr, pinum, inum), CreatedInodes(inodes, cr.end, pinum, inum);
    var n' := ParentInode(InodeOf(f, cr, inodes, pinum), found, cr.end);
    DecodeEncode(n');
    NewFileWords();
    var m, extra, child := EncodeInode(n'), MapChunk(inodes[pinum := cr.end + BLOCK], pinum), EncodeInode(NewFile());
    var chunk, head := MapChunk(inodes', inum), EncodeCheckpoint(cr');
    AppendedPart(f, cr.end, dir + m + extra, child, chunk, head);
    MisreadChunk(g, cr', inodes', inum, cr.end + BLOCK + INODE + CHUNK, cr.end + BLOCK + INODE);
  }

  /** A map chunk that reads as the inode of a new file is not the one in memory. */
  lemma MisreadChunk(g: Words, cr: Checkpoint, inodes: Words, i: nat, at: nat, off: int)
    requires |cr.chunks| == NCHUNKS && |inodes| == NINODES && i < NINODES
    requires cr.chunks[i / CHUNK] == at && at + CHUNK <= |g| && Record(g, at, CHUNK) == EncodeInode(NewFile())
    requires inodes[i] == off && off > REGULAR
    ensures !Consistent(g, cr, inodes)
  {
    NewFileWords();
    var c, k := i / CHUNK, i % CHUNK;
    assert inodes[c * CHUNK..c * CHUNK + CHUNK][k] == inodes[i];
    assert cr.end <= |g| ==> !ChunkOk(g, cr, inodes, c);
  }

  /** `fsi_creat` keeps memory and image together exactly when parent and child share a map chunk. */
  lemma CreateExact(f: Words, cr: Checkpoint, inodes: Words, pinum: nat, inum: nat, dir: Words, found: nat)
    requires Consistent(f, cr, inodes) && Exists(inodes, pinum) && inum < NINODES && inodes[inum] == -1
    requires |dir| == BLOCK && found < NDIRECT
    ensures Consistent(CreatedImage(f, cr, inodes, pinum, inum, dir, found),
                       CreatedCheckpoint(cr, pinum, inum), CreatedInodes(inodes, cr.end, pinum, inum))
       <==> pinum / CHUNK == inum / CHUNK
  {
    if pinum / CHUNK == inum / CHUNK {
      CreatedSameChunk(f, cr, inodes, pinum, inum, dir, found);
    } else {
      CreatedOtherChunk(f, cr, inodes, pinum, inum, dir, found);
    }
  }

  ghost predicate IsFirstFree(inodes: Words, i: nat) {
    i < |inodes| && inodes[i] == -1 && forall k :: 0 <= k < i ==> inodes[k] != -1
  }

  // ----------------------------------------------------- removing a file

  /** The directory's inode after an entry of block `found` is gone; the block itself is dropped if that
      entry was its first. */
  function UnlinkedParent(n: Inode, found: nat, at: int, first: bool): Inode
    requires |n.direct| == NDIRECT && found < NDIRECT
  {
    Inode(n.size, n.kind, n.direct[found := if first then -1 else at])
  }

  function UnlinkedInodes(inodes: Words, end: int, pinum: nat, cinum: nat): Words
    requires |inodes| == NINODES && pinum < NINODES && cinum < NINODES
  {
    inodes[pinum := end + BLOCK][cinum := -1]
  }

  function UnlinkedCheckpoint(cr: Checkpoint, pinum: nat, cinum: nat): (cr': Checkpoint)
    requires |cr.chunks| == NCHUNKS && pinum < NINODES && cinum < NINODES
    ensures |cr'.chunks| == NCHUNKS
  {
    var p := cr.end + BLOCK + INODE;
    Checkpoint(p + CHUNK, cr.chunks[pinum / CHUNK := p][cinum / CHUNK := p])
  }

  /** The words `fsi_unlink` appends for a regular file; across map chunks there is again one chunk more
      than the recorded positions account for. */
  ghost function UnlinkedWords(f: Words, cr: Checkpoint, inodes: Words, pinum: nat, cinum: nat,
                               dir: Words, found: nat, first: bool): Words
    requires Consistent(f, cr, inodes) && Exists(inodes, pinum) && cinum < NINODES
    requires |dir| == BLOCK && found < NDIRECT
  {
    var n := EncodeInode(UnlinkedParent(InodeOf(f, cr, inodes, pinum), found, cr.end, first));
    var inodes' := UnlinkedInodes(inodes, cr.end, pinum, cinum);
    var extra := if pinum / CHUNK == cinum / CHUNK then [] else MapChunk(inodes', pinum);
    dir + n + extra + MapChunk(inodes', cinum)
  }

  ghost function UnlinkedImage(f: Words, cr: Checkpoint, inodes: Words, pinum: nat, cinum: nat,
                               dir: Words, found: nat, first: bool): Words
    requires Consistent(f, cr, inodes) && Exists(inodes, pinum) && cinum < NINODES
    requires |dir| == BLOCK && found < NDIRECT
  {
    Appended(f, cr.end, UnlinkedWords(f, cr, inodes, pinum, cinum, dir, found, first),
             EncodeCheckpoint(UnlinkedCheckpoint(cr, pinum, cinum)))
  }

  lemma UnlinkedInodeOk(f: Words, end: nat, prior: int, g: Words, end': nat, found: nat, first: bool)
    requires end <= |f| && CR <= end && InodeOk(f, end, prior) && found < NDIRECT
    requires end + BLOCK + INODE <= end' <= |g|
    requires Record(g, end + BLOCK, INODE)
          == EncodeInode(UnlinkedParent(DecodeInode(Record(f, prior, INODE)), found, end, first))
    ensures InodeOk(g, end', end + BLOCK)
  {
    var n := DecodeInode(Record(f, prior, INODE));
    DecodeEncode(UnlinkedParent(n, found, end, first));
    var n' := DecodeInode(Record(g, end + BLOCK, INODE));
    forall b | 0 <= b < NDIRECT ensures n'.direct[b] == -1 || InLog(n'.direct[b], BLOCK, end') {
      assert n.direct[b] == -1 || InLog(n.direct[b], BLOCK, end);
    }
  }

  lemma UnlinkedSameChunk(f: Words, cr: Checkpoint, inodes: Words, pinum: nat, cinum: nat, dir: Words, found: nat, first: bool)
    requires Consistent(f, cr, inodes) && Exists(inodes, pinum) && cinum < NINODES && cinum != pinum
    requires |dir| == BLOCK && found < NDIRECT && pinum / CHUNK == cinum / CHUNK
    ensures Consistent(UnlinkedImage(f, cr, inodes, pinum, cinum, dir, found, first),
                       UnlinkedCheckpoint(cr, pinum, cinum), UnlinkedInodes(inodes, cr.end, pinum, cinum))
  {
    hide ChunkOk, InodeOk, Appended;
    var g := UnlinkedImage(f, cr, inodes, pinum, cinum, dir, found, first);
    var cr', inodes' := UnlinkedCheckpoint(cr, pinum, cinum), UnlinkedInodes(inodes, cr.end, pinum, cinum);
    var n' := UnlinkedParent(InodeOf(f, cr, inodes, pinum), found, cr.end, first);
    DecodeEncode(n');
    var m, chunk, head := EncodeInode(n'), MapChunk(inodes', cinum), EncodeCheckpoint(cr');
    var ws := UnlinkedWords(f, cr, inodes, pinum, cinum, dir, found, first);
    assert ws == dir + m + chunk == (dir + m) + chunk + [];
    AppendedLayout(f, cr.end, ws, head);
    AppendedPart(f, cr.end, dir, m, chunk, head);
    AppendedPart(f, cr.end, dir + m, chunk, [], head);
    UnlinkedInodeOk(f, cr.end, inodes[pinum], g, cr'.end, found, first);
    Commit(f, cr, inodes, g, cr', inodes', cinum / CHUNK);
  }

  /** Removal within a chunk: the file is gone, the directory has its new block or, if the entry was the first
      of the block, none there, and no other file changes. */
  lemma UnlinkedEffect(f: Words, cr: Checkpoint, inodes: Words, pinum: nat, cinum: nat, dir: Words, found: nat, first: bool)
    requires Consistent(f, cr, inodes) && Exists(inodes, pinum) && cinum < NINODES && cinum != pinum
    requires |dir| == BLOCK && found < NDIRECT && pinum / CHUNK == cinum / CHUNK
    ensures var g := UnlinkedImage(f, cr, inodes, pinum, cinum, dir, found, first);
      var cr', inodes' := UnlinkedCheckpoint(cr, pinum, cinum), UnlinkedInodes(inodes, cr.end, pinum, cinum);
      && Consistent(g, cr', inodes') && !Exists(inodes', cinum) && Exists(inodes', pinum)
      && (var n, n' := InodeOf(f, cr, inodes, pinum), InodeOf(g, cr', inodes', pinum);
          n'.kind == n.kind && n'.size == n.size
          && forall b :: 0 <= b < NDIRECT && b != found ==> n'.direct[b] == n.direct[b])
      && (Stored(g, cr', inodes', pinum, found) <==> !first)
      && (!first ==> Data(g, cr', inodes', pinum, found) == dir)
      && (forall j :: j != pinum && j != cinum ==> SameFile(f, cr, inodes, g, cr', inodes', j))
  {
    hide ChunkOk, InodeOk, Appended, SameFile;
    UnlinkedSameChunk(f, cr, inodes, pinum, cinum, dir, found, first);
    var g := UnlinkedImage(f, cr, inodes, pinum, cinum, dir, found, first);
    var cr', inodes' := UnlinkedCheckpoint(cr, pinum, cinum), UnlinkedInodes(inodes, cr.end, pinum, cinum);
    var n' := UnlinkedParent(InodeOf(f, cr, inodes, pinum), found, cr.end, first);
    DecodeEncode(n');
    var m, chunk, head := EncodeInode(n'), MapChunk(inodes', cinum), EncodeCheckpoint(cr');
    var ws := UnlinkedWords(f, cr, inodes, pinum, cinum, dir, found, first);
    assert ws == [] + dir + (m + chunk) == dir + m + chunk;
    AppendedLayout(f, cr.end, ws, head);
    AppendedPart(f, cr.end, [], dir, m + chunk, head);
    AppendedPart(f, cr.end, dir, m, chunk, head);
    forall j | j != pinum && j != cinum ensures SameFile(f, cr, inodes, g, cr', inodes', j) {
      OthersSame(f, cr, inodes, g, cr', inodes', j);
    }
  }

  /** In the other case the map chunk of the removed file is read back as the directory's. */
  lemma UnlinkedOtherChunk(f: Words, cr: Checkpoint, inodes: Words, pinum: nat, cinum: nat, dir: Words, found: nat, first: bool)
    requires Consistent(f, cr, inodes) && Exists(inodes, pinum) && cinum < NINODES
    requires |dir| == BLOCK && found < NDIRECT && pinum / CHUNK != cinum / CHUNK
    ensures !Consistent(UnlinkedImage(f, cr, inodes, pinum, cinum, dir, found, first),
                        UnlinkedCheckpoint(cr, pinum, cinum), UnlinkedInodes(inodes, cr.end, pinum, cinum))
  {
    hide InodeOk, Appended, Consistent, MapChunk, EncodeInode;
    Sizes(f, cr, inodes);
    var g := UnlinkedImage(f, cr, inodes, pinum, cinum, dir, found, first);
    var cr', inodes' := UnlinkedCheckpoint(cr, pinum, cinum), UnlinkedInodes(inodes, cr.end, pinum, cinum);
    var n' := UnlinkedParent(InodeOf(f, cr, inodes, pinum), found, cr.end, first);
    DecodeEncode(n');
    var m, extra, chunk, head := EncodeInode(n'), MapChunk(inodes', pinum), MapChunk(inodes', cinum), EncodeCheckpoint(cr');
    AppendedPart(f, cr.end, dir + m, extra, chunk, head);
    ChunkEntry(inodes', pinum);
    EntryBelow(f, cr, inodes, cinum / CHUNK * CHUNK + pinum % CHUNK);
    Misplaced(g, cr', inodes', cinum / CHUNK, pinum % CHUNK, cr.end + BLOCK + INODE);
  }

  lemma ChunkEntry(inodes: Words, i: nat)
    requires |inodes| == NINODES && i < NINODES
    ensures MapChunk(inodes, i)[i % CHUNK] == inodes[i]
  {
  }

  lemma EntryBelow(f: Words, cr: Checkpoint, inodes: Words, j: nat)
    requires Consistent(f, cr, inodes) && j < NINODES
    ensures inodes[j] < cr.end
  {
    if inodes[j] != -1 {
      assert InodeOk(f, cr.end, inodes[j]);
    }
  }

  /** A map chunk that differs in one entry from the one in memory. */
  lemma Misplaced(g: Words, cr: Checkpoint, inodes: Words, c: nat, k: nat, at: nat)
    requires |cr.chunks| == NCHUNKS && |inodes| == NINODES && c < NCHUNKS && k < CHUNK
    requires cr.chunks[c] == at && at + CHUNK <= |g| && Record(g, at, CHUNK)[k] != inodes[c * CHUNK + k]
    ensures !Consistent(g, cr, inodes)
  {
    assert inodes[c * CHUNK..c * CHUNK + CHUNK][k] == inodes[c * CHUNK + k];
    assert cr.end <= |g| ==> !ChunkOk(g, cr, inodes, c);
  }

  /** `fsi_unlink` of a regular file keeps memory and image together exactly when it shares a map chunk
      with its directory. */
  lemma UnlinkExact(f: Words, cr: Checkpoint, inodes: Words, pinum: nat, cinum: nat, dir: Words, found: nat, first: bool)
    requires Consistent(f, cr, inodes) && Exists(inodes, pinum) && cinum < NINODES && cinum != pinum
    requires |dir| == BLOCK && found < NDIRECT
    ensures Consistent(UnlinkedImage(f, cr, inodes, pinum, cinum, dir, found, first),
                       UnlinkedCheckpoint(cr, pinum, cinum), UnlinkedInodes(inodes, cr.end, pinum, cinum))
       <==> pinum / CHUNK == cinum / CHUNK
  {
    if pinum / CHUNK == cinum / CHUNK {
      UnlinkedSameChunk(f, cr, inodes, pinum, cinum, dir, found, first);
    } else {
      UnlinkedOtherChunk(f, cr, inodes, pinum, cinum, dir, found, first);
    }
  }

  // ------------------------------------------------------------- the server

  /** The loop of `fsi_init` over the checkpoint's chunks. */
  method LoadMap(f: Words, cr: Checkpoint) returns (found: Words)
    requires Readable(f, cr)
    ensures |found| == NINODES && forall i :: 0 <= i < NINODES ==> found[i] == RecoverInode(f, cr, i)
  {
    found := [];
    for c := 0 to NCHUNKS
      invariant |found| == c * CHUNK
      invariant forall i :: 0 <= i < |found| ==> found[i] == RecoverInode(f, cr, i)
    {
      ghost var before := found;
      if cr.chunks[c] != -1 {
        found := found + f[cr.chunks[c]..cr.chunks[c] + CHUNK];
      } else {
        found := found + Repeat(CHUNK, -1);
      }
      forall i | 0 <= i < |found| ensures found[i] == RecoverInode(f, cr, i) {
        if i >= |before| {
          assert i / CHUNK == c && i % CHUNK == i - |before|;
        }
      }
    }
  }

  lemma BuiltChunk(g: Words, cr: Checkpoint, inodes: Words, c: nat)
    requires |cr.chunks| == NCHUNKS && |inodes| == NINODES && cr.end <= |g| && c < NCHUNKS
    requires InLog(cr.chunks[0], CHUNK, cr.end) && Record(g, cr.chunks[0], CHUNK) == inodes[..CHUNK]
    requires forall d :: 0 < d < NCHUNKS ==> cr.chunks[d] == -1
    requires forall i :: 0 < i < NINODES ==> inodes[i] == -1
    ensures ChunkOk(g, cr, inodes, c)
  {
    if c > 0 {
      assert inodes[c * CHUNK..c * CHUNK + CHUNK] == Repeat(CHUNK, -1);
    }
  }

  function RootInode(): Inode {
    Inode(BLOCK_BYTES, DIRECTORY, [CR] + Repeat(NDIRECT - 1, -1))
  }

  function BuiltInodes(): (inodes: Words)
    ensures |inodes| == NINODES && inodes[0] == CR + BLOCK && forall i :: 0 < i < NINODES ==> inodes[i] == -1
  {
    [CR + BLOCK] + Repeat(NINODES - 1, -1)
  }

  function BuiltCheckpoint(): (cr: Checkpoint)
    ensures |cr.chunks| == NCHUNKS && cr.chunks[0] == CR + BLOCK + INODE && forall d :: 0 < d < NCHUNKS ==> cr.chunks[d] == -1
    ensures cr.end == CR + BLOCK + INODE + CHUNK
  {
    Checkpoint(CR + BLOCK + INODE + CHUNK, [CR + BLOCK + INODE] + Repeat(NCHUNKS - 1, -1))
  }

  ghost function BuiltImage(dir: Words): Words {
    Appended(Repeat(CR, 0), CR, dir + EncodeInode(RootInode()) + BuiltInodes()[..CHUNK], EncodeCheckpoint(BuiltCheckpoint()))
  }

  lemma BuiltParts(dir: Words)
    requires |dir| == BLOCK
    ensures var g := BuiltImage(dir);
      && |g| >= BuiltCheckpoint().end && Record(g, 0, CR) == EncodeCheckpoint(BuiltCheckpoint())
      && Record(g, CR, BLOCK) == dir && Record(g, CR + BLOCK, INODE) == EncodeInode(RootInode())
      && Record(g, CR + BLOCK + INODE, CHUNK) == BuiltInodes()[..CHUNK]
  {
    hide Appended, Record, BuiltInodes, BuiltCheckpoint;
    DecodeEncode(RootInode());
    hide EncodeInode, RootInode;
    var m, chunk, head := EncodeInode(RootInode()), BuiltInodes()[..CHUNK], EncodeCheckpoint(BuiltCheckpoint());
    assert dir + m + chunk == (dir + m) + chunk + [] == [] + dir + (m + chunk);
    AppendedLayout(Repeat(CR, 0), CR, dir + m + chunk, head);
    AppendedPart(Repeat(CR, 0), CR, [], dir, m + chunk, head);
    AppendedPart(Repeat(CR, 0), CR, dir, m, chunk, head);
    AppendedPart(Repeat(CR, 0), CR, dir + m, chunk, [], head);
  }

  lemma RootOk(g: Words)
    requires |g| >= BuiltCheckpoint().end && Record(g, CR + BLOCK, INODE) == EncodeInode(RootInode())
    ensures InodeOk(g, BuiltCheckpoint().end, CR + BLOCK)
  {
    hide BuiltCheckpoint;
    DecodeEncode(RootInode());
  }

  /** The root directory of a new image: one block, the one given. */
  lemma BuiltRoot(dir: Words)
    requires |dir| == BLOCK
    ensures var g, cr, inodes := BuiltImage(dir), BuiltCheckpoint(), BuiltInodes();
      && Consistent(g, cr, inodes) && Exists(inodes, 0)
      && InodeOf(g, cr, inodes, 0).kind == 0 && InodeOf(g, cr, inodes, 0).size == 4096
      && (forall b :: Stored(g, cr, inodes, 0, b) <==> b == 0) && Data(g, cr, inodes, 0, 0) == dir
  {
    hide BuiltImage, BuiltCheckpoint, BuiltInodes, ChunkOk, InodeOk, Record;
    BuiltConsistent(dir);
    BuiltParts(dir);
    DecodeEncode(RootInode());
  }

  lemma BuiltConsistent(dir: Words)
    requires |dir| == BLOCK
    ensures Consistent(BuiltImage(dir), BuiltCheckpoint(), BuiltInodes())
  {
    hide BuiltImage, BuiltCheckpoint, BuiltInodes, RootInode, EncodeInode, EncodeCheckpoint, Record, ChunkOk, InodeOk;
    var g := BuiltImage(dir);
    BuiltParts(dir);
    RootOk(g);
    forall c | 0 <= c < NCHUNKS ensures ChunkOk(g, BuiltCheckpoint(), BuiltInodes(), c) {
      BuiltChunk(g, BuiltCheckpoint(), BuiltInodes(), c);
    }
  }

  ghost predicate LogKept(f: Words, cr: Checkpoint, g: Words) {
    cr.end <= |f| && cr.end <= |g| && forall k :: 0 <= k < cr.end ==> g[k] == f[k]
  }

  // ------------------------------------------------------------------- runs

  /** A call of `fsi_write` of which so many writes succeed, followed by a crash and a restart or not. */
  datatype WriteRequest = WriteRequest(inum: int, buffer: Words, block: nat, writes: nat, crash: bool)

  ghost function RegularFiles(f: Words, cr: Checkpoint, inodes: Words): set<int>
    requires Consistent(f, cr, inodes)
  {
    set i | 0 <= i < NINODES && Exists(inodes, i) && InodeOf(f, cr, inodes, i).kind == REGULAR
  }

  /** The request names a regular file and one of its blocks, and no write of it fails. */
  predicate TakesEffect(q: WriteRequest, regular: set<int>) {
    q.inum in regular && q.block < NDIRECT && q.writes >= 4
  }

  /** The request is accepted, one of its writes after the first fails, and the server goes on. */
  predicate Damages(q: WriteRequest, regular: set<int>) {
    q.inum in regular && q.block < NDIRECT && 1 <= q.writes <= 3 && !q.crash
  }

  /** What the requests leave in each block they wrote: the last buffer. */
  function LastWrites(requests: seq<WriteRequest>, regular: set<int>): map<(int, int), Words> {
    if requests == [] then map[]
    else
      var n := |requests| - 1;
      var m, q := LastWrites(requests[..n], regular), requests[n];
      if TakesEffect(q, regular) then m[(q.inum, q.block as int) := q.buffer] else m
  }

  ghost predicate SameKind(f: Words, cr: Checkpoint, inodes: Words, g: Words, cr': Checkpoint, inodes': Words, j: int)
    requires Consistent(f, cr, inodes) && Consistent(g, cr', inodes')
  {
    && (Exists(inodes', j) <==> Exists(inodes, j))
    && (Exists(inodes, j) ==> InodeOf(g, cr', inodes', j).kind == InodeOf(f, cr, inodes, j).kind)
  }

  /** Block b of inode j holds what `last` says, and where that says nothing what it held before. */
  ghost predicate BlockAfter(f: Words, cr: Checkpoint, inodes: Words, g: Words, cr': Checkpoint, inodes': Words,
                             last: map<(int, int), Words>, j: int, b: int)
    requires Consistent(f, cr, inodes) && Consistent(g, cr', inodes')
  {
    && (Stored(g, cr', inodes', j, b) <==> (j, b) in last || Stored(f, cr, inodes, j, b))
    && (Stored(g, cr', inodes', j, b) ==>
          Data(g, cr', inodes', j, b) == if (j, b) in last then last[(j, b)] else Data(f, cr, inodes, j, b))
  }

  /** A block of file j that the writes of `last` put where there was none. */
  ghost predicate Added(f: Words, cr: Checkpoint, inodes: Words, last: map<(int, int), Words>, j: int, b: int)
    requires Consistent(f, cr, inodes)
  {
    (j, b) in last && !Stored(f, cr, inodes, j, b)
  }

  /** The size of file j is the larger of what it was and where its last new block starts, in bytes. */
  ghost predicate SizeAfter(f: Words, cr: Checkpoint, inodes: Words, g: Words, cr': Checkpoint, inodes': Words,
                            last: map<(int, int), Words>, j: int)
    requires Consistent(f, cr, inodes) && Consistent(g, cr', inodes')
  {
    Exists(inodes, j) && Exists(inodes', j) ==>
      var n, n' := InodeOf(f, cr, inodes, j).size, InodeOf(g, cr', inodes', j).size;
      && n' >= n
      && (forall b :: Added(f, cr, inodes, last, j, b) ==> n' >= b * 4096)
      && (n' == n || exists b :: Added(f, cr, inodes, last, j, b) && n' == b * 4096)
  }

  lemma SizeStays(f: Words, cr: Checkpoint, inodes: Words, g: Words, cr1: Checkpoint, inodes1: Words,
                  h: Words, cr2: Checkpoint, inodes2: Words, last: map<(int, int), Words>, j: int)
    requires Consistent(f, cr, inodes) && Consistent(g, cr1, inodes1) && Consistent(h, cr2, inodes2)
    requires SameFile(g, cr1, inodes1, h, cr2, inodes2, j) && SizeAfter(f, cr, inodes, g, cr1, inodes1, last, j)
    ensures SizeAfter(f, cr, inodes, h, cr2, inodes2, last, j)
  {
    hide Consistent, Added;
  }

  lemma SizeOther(f: Words, cr: Checkpoint, inodes: Words, h: Words, cr2: Checkpoint, inodes2: Words,
                  last: map<(int, int), Words>, i: nat, block: nat, buffer: Words, j: int)
    requires Consistent(f, cr, inodes) && Consistent(h, cr2, inodes2) && j != i
    requires SizeAfter(f, cr, inodes, h, cr2, inodes2, last, j)
    ensures SizeAfter(f, cr, inodes, h, cr2, inodes2, last[(i, block as int) := buffer], j)
  {
    hide Consistent, Stored, InodeOf;
    var last' := last[(i, block as int) := buffer];
    forall b: int ensures Added(f, cr, inodes, last', j, b) <==> Added(f, cr, inodes, last, j, b) {
    }
    hide Added;
  }

  lemma SizeWritten(f: Words, cr: Checkpoint, inodes: Words, g: Words, cr1: Checkpoint, inodes1: Words,
                    h: Words, cr2: Checkpoint, inodes2: Words, last: map<(int, int), Words>, i: nat, buffer: Words, block: nat)
    requires Consistent(f, cr, inodes) && Consistent(g, cr1, inodes1) && Consistent(h, cr2, inodes2)
    requires Exists(inodes, i) && Exists(inodes1, i) && Exists(inodes2, i) && block < NDIRECT
    requires SizeAfter(f, cr, inodes, g, cr1, inodes1, last, i)
    requires BlockAfter(f, cr, inodes, g, cr1, inodes1, last, i, block)
    requires InodeOf(h, cr2, inodes2, i).size ==
      if Stored(g, cr1, inodes1, i, block) || InodeOf(g, cr1, inodes1, i).size >= block * 4096
      then InodeOf(g, cr1, inodes1, i).size else block * 4096
    ensures SizeAfter(f, cr, inodes, h, cr2, inodes2, last[(i, block as int) := buffer], i)
  {
    hide Consistent, InodeOf, Data;
    var last' := last[(i, block as int) := buffer];
    forall b: int ensures Added(f, cr, inodes, last', i, b) <==>
      Added(f, cr, inodes, last, i, b) || (b == block && !Stored(f, cr, inodes, i, b)) {
    }
    assert Stored(g, cr1, inodes1, i, block) <==> (i, block as int) in last || Stored(f, cr, inodes, i, block);
    var n1, n2 := InodeOf(g, cr1, inodes1, i).size, InodeOf(h, cr2, inodes2, i).size;
    assert Stored(g, cr1, inodes1, i, block) && !Stored(f, cr, inodes, i, block) ==> Added(f, cr, inodes, last, i, block);
    hide Stored;
    forall b | Added(f, cr, inodes, last', i, b) ensures n2 >= b * 4096 {
      if Added(f, cr, inodes, last, i, b) {
        assert n1 >= b * 4096;
      }
    }
    hide Added;
    if n2 != n1 {
      assert Added(f, cr, inodes, last', i, block);
    } else if n1 != InodeOf(f, cr, inodes, i).size {
      var b :| Added(f, cr, inodes, last, i, b) && n1 == b * 4096;
      assert Added(f, cr, inodes, last', i, b);
    }
  }

  ghost predicate Untouched(last: map<(int, int), Words>, j: int) {
    forall k :: k in last ==> k.0 != j
  }

  /** The second state is the first with the writes of `last`: no inode comes, goes or changes its kind,
      every block and every size is as it should be, and files without writes are the same in every respect. */
  ghost predicate Updated(f: Words, cr: Checkpoint, inodes: Words, g: Words, cr': Checkpoint, inodes': Words,
                          last: map<(int, int), Words>)
    requires Consistent(f, cr, inodes) && Consistent(g, cr', inodes')
  {
    && (forall j :: SameKind(f, cr, inodes, g, cr', inodes', j))
    && (forall j, b :: BlockAfter(f, cr, inodes, g, cr', inodes', last, j, b))
    && (forall j :: Untouched(last, j) ==> SameFile(f, cr, inodes, g, cr', inodes', j))
    && (forall j :: SizeAfter(f, cr, inodes, g, cr', inodes', last, j))
  }

  lemma UpdatedNothing(f: Words, cr: Checkpoint, inodes: Words)
    requires Consistent(f, cr, inodes)
    ensures Updated(f, cr, inodes, f, cr, inodes, map[])
  {
  }

  lemma SameFileStep(f: Words, cr: Checkpoint, inodes: Words, g: Words, cr1: Checkpoint, inodes1: Words,
                     h: Words, cr2: Checkpoint, inodes2: Words, last: map<(int, int), Words>, j: int, b: int)
    requires Consistent(f, cr, inodes) && Consistent(g, cr1, inodes1) && Consistent(h, cr2, inodes2)
    requires SameFile(g, cr1, inodes1, h, cr2, inodes2, j)
    requires SameKind(f, cr, inodes, g, cr1, inodes1, j) && BlockAfter(f, cr, inodes, g, cr1, inodes1, last, j, b)
    ensures SameKind(f, cr, inodes, h, cr2, inodes2, j) && BlockAfter(f, cr, inodes, h, cr2, inodes2, last, j, b)
    ensures SameFile(f, cr, inodes, g, cr1, inodes1, j) ==> SameFile(f, cr, inodes, h, cr2, inodes2, j)
  {
    hide Consistent, InodeOf, Data;
  }

  /** What a refused write, or one cut short, leaves on the image changes no block of the old state. */
  lemma UpdatedDebris(f: Words, cr: Checkpoint, inodes: Words, g: Words, h: Words, cr1: Checkpoint, inodes1: Words,
                      last: map<(int, int), Words>)
    requires Consistent(f, cr, inodes) && Consistent(g, cr1, inodes1) && Consistent(h, cr1, inodes1)
    requires LogKept(g, cr1, h) && Updated(f, cr, inodes, g, cr1, inodes1, last)
    ensures Updated(f, cr, inodes, h, cr1, inodes1, last)
  {
    hide Consistent, SameFile, SameKind, BlockAfter, SizeAfter;
    forall j ensures SizeAfter(f, cr, inodes, h, cr1, inodes1, last, j) {
      OthersSame(g, cr1, inodes1, h, cr1, inodes1, j);
      SizeStays(f, cr, inodes, g, cr1, inodes1, h, cr1, inodes1, last, j);
    }
    forall j, b
      ensures BlockAfter(f, cr, inodes, h, cr1, inodes1, last, j, b)
      ensures SameKind(f, cr, inodes, h, cr1, inodes1, j) && (Untouched(last, j) ==> SameFile(f, cr, inodes, h, cr1, inodes1, j))
    {
      assert SameKind(f, cr, inodes, g, cr1, inodes1, j) && BlockAfter(f, cr, inodes, g, cr1, inodes1, last, j, b);
      OthersSame(g, cr1, inodes1, h, cr1, inodes1, j);
      SameFileStep(f, cr, inodes, g, cr1, inodes1, h, cr1, inodes1, last, j, b);
    }
    forall j ensures SameKind(f, cr, inodes, h, cr1, inodes1, j) && (Untouched(last, j) ==> SameFile(f, cr, inodes, h, cr1, inodes1, j)) {
      assert BlockAfter(f, cr, inodes, h, cr1, inodes1, last, j, 0);
    }
  }

  /** A write that takes effect adds its block to those written. */
  lemma UpdatedWrite(f: Words, cr: Checkpoint, inodes: Words, g: Words, cr1: Checkpoint, inodes1: Words,
                     last: map<(int, int), Words>, i: nat, buffer: Words, block: nat)
    requires Consistent(f, cr, inodes) && Consistent(g, cr1, inodes1) && Updated(f, cr, inodes, g, cr1, inodes1, last)
    requires Exists(inodes1, i) && block < NDIRECT && |buffer| == BLOCK
    ensures var h, cr2, inodes2 := WrittenImage(g, cr1, inodes1, i, buffer, block), WrittenCheckpoint(cr1, i), inodes1[i := cr1.end + BLOCK];
      Consistent(h, cr2, inodes2) && Updated(f, cr, inodes, h, cr2, inodes2, last[(i, block as int) := buffer])
  {
    hide Consistent, SameFile, SameKind, BlockAfter, WrittenImage, WrittenCheckpoint, WrittenInode, SizeAfter;
    Sizes(g, cr1, inodes1);
    WriteEffect(g, cr1, inodes1, i, buffer, block);
    var h, cr2, inodes2 := WrittenImage(g, cr1, inodes1, i, buffer, block), WrittenCheckpoint(cr1, i), inodes1[i := cr1.end + BLOCK];
    var last' := last[(i, block as int) := buffer];
    KindExists(f, cr, inodes, g, cr1, inodes1, i);
    forall j ensures SizeAfter(f, cr, inodes, h, cr2, inodes2, last', j) {
      if j != i {
        SizeStays(f, cr, inodes, g, cr1, inodes1, h, cr2, inodes2, last, j);
        SizeOther(f, cr, inodes, h, cr2, inodes2, last, i, block, buffer, j);
      } else {
        SizeWritten(f, cr, inodes, g, cr1, inodes1, h, cr2, inodes2, last, i, buffer, block);
      }
    }
    forall j, b
      ensures BlockAfter(f, cr, inodes, h, cr2, inodes2, last', j, b)
      ensures SameKind(f, cr, inodes, h, cr2, inodes2, j) && (Untouched(last', j) ==> SameFile(f, cr, inodes, h, cr2, inodes2, j))
    {
      assert SameKind(f, cr, inodes, g, cr1, inodes1, j) && BlockAfter(f, cr, inodes, g, cr1, inodes1, last, j, b);
      if j != i {
        SameFileStep(f, cr, inodes, g, cr1, inodes1, h, cr2, inodes2, last, j, b);
        OtherKey(f, cr, inodes, h, cr2, inodes2, last, i, block, buffer, j, b);
      } else {
        WrittenKey(f, cr, inodes, g, cr1, inodes1, last, i, buffer, block, b);
        assert (i, block as int) in last';
      }
    }
    forall j ensures SameKind(f, cr, inodes, h, cr2, inodes2, j) && (Untouched(last', j) ==> SameFile(f, cr, inodes, h, cr2, inodes2, j)) {
      assert BlockAfter(f, cr, inodes, h, cr2, inodes2, last', j, 0);
    }
  }

  /** What the tests of a request mean for a run. */
  lemma Judged(q: WriteRequest, regular: set<int>, accepted: bool)
    requires accepted <==> q.inum in regular && q.block < NDIRECT
    ensures TakesEffect(q, regular) <==> accepted && q.writes >= 4
    ensures Damages(q, regular) <==> accepted && 1 <= q.writes <= 3 && !q.crash
  {
  }

  lemma WrittenIs(f: Words, cr: Checkpoint, inodes: Words, i: nat, buffer: Words, block: nat, writes: nat)
    requires Consistent(f, cr, inodes) && i < NINODES && Exists(inodes, i) && block < NDIRECT && |buffer| == BLOCK && writes >= 4
    ensures Shaped(f, cr, inodes) && Loaded(f, inodes, i)
    ensures PartialCheckpoint(cr, i, writes) == WrittenCheckpoint(cr, i)
    ensures PartialInodes(cr, inodes, i, writes) == inodes[i := cr.end + BLOCK]
    ensures WrittenImage(f, cr, inodes, i, buffer, block) == StoredImage(f, cr, inodes, i, NodeAt(f, inodes, i), buffer, block)
  {
    ConsistentLoaded(f, cr, inodes, i);
  }

  lemma KindExists(f: Words, cr: Checkpoint, inodes: Words, g: Words, cr': Checkpoint, inodes': Words, j: int)
    requires Consistent(f, cr, inodes) && Consistent(g, cr', inodes') && SameKind(f, cr, inodes, g, cr', inodes', j)
    ensures Exists(inodes, j) <==> Exists(inodes', j)
  {
  }

  lemma OtherKey(f: Words, cr: Checkpoint, inodes: Words, h: Words, cr2: Checkpoint, inodes2: Words,
                 last: map<(int, int), Words>, i: nat, block: nat, buffer: Words, j: int, b: int)
    requires Consistent(f, cr, inodes) && Consistent(h, cr2, inodes2) && j != i
    requires BlockAfter(f, cr, inodes, h, cr2, inodes2, last, j, b)
    ensures BlockAfter(f, cr, inodes, h, cr2, inodes2, last[(i, block as int) := buffer], j, b)
    ensures Untouched(last[(i, block as int) := buffer], j) ==> Untouched(last, j)
  {
    hide Consistent, Stored, Data;
    var last' := last[(i, block as int) := buffer];
    if Untouched(last', j) {
      forall k | k in last ensures k.0 != j {
        assert k in last';
      }
    }
  }

  lemma WrittenKey(f: Words, cr: Checkpoint, inodes: Words, g: Words, cr1: Checkpoint, inodes1: Words,
                   last: map<(int, int), Words>, i: nat, buffer: Words, block: nat, b: int)
    requires Consistent(f, cr, inodes) && Consistent(g, cr1, inodes1)
    requires Exists(inodes1, i) && block < NDIRECT && |buffer| == BLOCK
    requires SameKind(f, cr, inodes, g, cr1, inodes1, i) && BlockAfter(f, cr, inodes, g, cr1, inodes1, last, i, b)
    ensures var h, cr2, inodes2 := WrittenImage(g, cr1, inodes1, i, buffer, block), WrittenCheckpoint(cr1, i), inodes1[i := cr1.end + BLOCK];
      && Consistent(h, cr2, inodes2) && SameKind(f, cr, inodes, h, cr2, inodes2, i)
      && BlockAfter(f, cr, inodes, h, cr2, inodes2, last[(i, block as int) := buffer], i, b)
  {
    hide Consistent, WrittenImage, WrittenCheckpoint, InodeOf, Data;
    Sizes(g, cr1, inodes1);
    WriteEffect(g, cr1, inodes1, i, buffer, block);
    var h, cr2, inodes2 := WrittenImage(g, cr1, inodes1, i, buffer, block), WrittenCheckpoint(cr1, i), inodes1[i := cr1.end + BLOCK];
    if b != block {
      assert Stored(h, cr2, inodes2, i, b) <==> Stored(g, cr1, inodes1, i, b);
    }
  }

  /** Whether a request takes effect can be told from the first state. */
  lemma SameRegular(f: Words, cr: Checkpoint, inodes: Words, g: Words, cr': Checkpoint, inodes': Words,
                    last: map<(int, int), Words>, i: int)
    requires Consistent(f, cr, inodes) && Consistent(g, cr', inodes') && Updated(f, cr, inodes, g, cr', inodes', last)
    requires i < NINODES
    ensures i in RegularFiles(f, cr, inodes) <==> Exists(inodes', i) && InodeOf(g, cr', inodes', i).kind == REGULAR
  {
    hide InodeOf;
    Sizes(f, cr, inodes);
    assert SameKind(f, cr, inodes, g, cr', inodes', i);
  }

  class Server {
    var image: Words
    var off: nat            // file offset of fsid
    var cr: Checkpoint
    var inodes: Words

    ghost predicate Valid()
      reads this
    {
      Consistent(image, cr, inodes)
    }

    /** `write`, at the current file offset. */
    method Put(ws: Words)
      requires off <= |image|
      modifies this`image, this`off
      ensures image == WriteAt(old(image), old(off), ws) && off == old(off) + |ws|
    {
      image := WriteAt(image, off, ws);
      off := off + |ws|;
    }

    /** The image is f with ws appended at end, and the next write continues there. */
    ghost predicate Logged(f: Words, end: nat, ws: Words)
      reads this
    {
      end <= |f| && image == WriteAt(f, end, ws) && off == end + |ws|
    }

    method SeekEnd()
      requires 0 <= cr.end <= |image|
      modifies this`off
      ensures Logged(image, cr.end, [])
    {
      off := cr.end;
      assert WriteAt(image, cr.end, []) == image;
    }

    method Append(more: Words, ghost f: Words, ghost end: nat, ghost ws: Words)
      requires Logged(f, end, ws)
      modifies this`image, this`off
      ensures Logged(f, end, ws + more)
    {
      WriteTwice(f, end, ws, more);
      Put(more);
    }

    method PutCheckpoint(ghost f: Words, ghost end: nat, ghost ws: Words)
      requires Logged(f, end, ws)
      modifies this`image, this`off
      ensures end <= |f| && image == Appended(f, end, ws, EncodeCheckpoint(cr))
    {
      off := 0;
      Put(EncodeCheckpoint(cr));
    }

    /** `fsi_build`: an empty file system whose root directory block is `dir`. */
    constructor Build(dir: Words)
      requires |dir| == BLOCK
      ensures Valid()
      ensures forall i :: Exists(inodes, i) <==> i == 0
      ensures InodeOf(image, cr, inodes, 0).kind == 0 && InodeOf(image, cr, inodes, 0).size == 4096
      ensures (forall b :: Stored(image, cr, inodes, 0, b) <==> b == 0) && Data(image, cr, inodes, 0, 0) == dir
    {
      var root, map_, head := RootInode(), BuiltInodes(), BuiltCheckpoint();
      DecodeEncode(root);
      var f := WriteAt(Repeat(CR, 0), CR, dir);
      f := WriteAt(f, CR + BLOCK, EncodeInode(root));
      f := WriteAt(f, CR + BLOCK + INODE, map_[..CHUNK]);
      f := WriteAt(f, 0, EncodeCheckpoint(head));
      BuiltRoot(dir);
      WriteTwice(Repeat(CR, 0), CR, dir, EncodeInode(root));
      WriteTwice(Repeat(CR, 0), CR, dir + EncodeInode(root), map_[..CHUNK]);
      image, off, cr, inodes := f, CR, head, map_;
    }

    /** `fsi_init` on an existing image. */
    constructor Init(f: Words)
      requires |f| >= CR && Readable(f, DecodeCheckpoint(Record(f, 0, CR)))
      ensures image == f && cr == DecodeCheckpoint(Record(f, 0, CR)) && |inodes| == NINODES
      ensures forall i :: 0 <= i < NINODES ==> inodes[i] == RecoverInode(f, cr, i)
    {
      var head := DecodeCheckpoint(f[0..CR]);
      var found := LoadMap(f, head);
      image, off, cr, inodes := f, 0, head, found;
    }

    /** `fsi_init` again, after the process was lost: memory is rebuilt from the image alone. */
    method Restart(ghost cr0: Checkpoint, ghost inodes0: Words)
      requires Consistent(image, cr0, inodes0)
      modifies this`off, this`cr, this`inodes
      ensures Valid() && cr == cr0 && inodes == inodes0
    {
      ConsistentRecovers(image, cr0, inodes0);
      cr := DecodeCheckpoint(image[0..CR]);
      inodes := LoadMap(image, cr);
      assert inodes == inodes0;
      off := 0;
    }

    /** `get_inode`; an inode number of 4096 or more would read past the inode map. */
    method GetInode(inum: int) returns (rc: int, node: Inode)
      requires Loaded(image, inodes, inum)
      modifies this`off
      ensures rc == -1 <==> !Exists(inodes, inum)
      ensures rc == -1 || rc == INODE * 4
      ensures rc != -1 ==> node == NodeAt(image, inodes, inum) && off == inodes[inum] + INODE
    {
      node := Inode(0, 0, []);
      if inum < 0 || inodes[inum] == -1 {
        return -1, node;
      }
      off := inodes[inum];
      node := DecodeInode(image[off..off + INODE]);
      off := off + INODE;
      rc := INODE * 4;
    }

    /** `fsi_read`; of a block never written it returns what follows the inode in the log. */
    method FsiRead(inum: int, block: nat) returns (rc: int, buffer: Words)
      requires Valid() && inum < NINODES
      modifies this`off
      ensures rc == 0 <==> Exists(inodes, inum) && block < NDIRECT
      ensures rc == 0 || rc == -1
      ensures Stored(image, cr, inodes, inum, block) ==> rc == 0 && buffer == Data(image, cr, inodes, inum, block)
      ensures rc == 0 && !Stored(image, cr, inodes, inum, block) ==>
        var p := inodes[inum] + INODE;
        0 <= p <= |image| && buffer == image[p..if p + BLOCK <= |image| then p + BLOCK else |image|]
    {
      buffer := [];
      ConsistentLoaded(image, cr, inodes, inum);
      var r, node := GetInode(inum);
      if r < 0 {
        return -1, buffer;
      }
      assert InodeOk(image, cr.end, inodes[inum]);
      if block > 13 {
        return -1, buffer;
      }
      if node.direct[block] != -1 {
        off := node.direct[block];
      }
      var stop := if off + BLOCK <= |image| then off + BLOCK else |image|;
      buffer := image[off..stop];
      off := stop;
      rc := 0;
    }

    /** The four file writes of `fsi_write`, of which only the first `writes` are carried out: fewer than
        four is a crash or a write that fails. Memory has then been changed as far as it got. */
    method WriteRecords(inum: nat, n: Inode, buffer: Words, block: nat, writes: nat) returns (rc: int)
      requires Shaped(image, cr, inodes) && inum < NINODES && |buffer| == BLOCK && block < NDIRECT && |n.direct| == NDIRECT
      modifies this
      ensures rc == if writes >= 4 then 0 else -1
      ensures cr == old(PartialCheckpoint(cr, inum, writes)) && inodes == old(PartialInodes(cr, inodes, inum, writes))
      ensures rc == 0 ==> image == old(StoredImage(image, cr, inodes, inum, n, buffer, block))
      ensures rc != 0 ==> LogKept(old(image), old(cr), image)
    {
      hide Logged, Appended, LogKept, EncodeInode, MapChunk;
      ghost var f, end, ws := image, cr.end, [];
      ghost var cr0 := cr;
      var node := n;
      rc := -1;
      SeekEnd();
      var pos := cr.end;
      LogStands(f, cr0, ws);
      if writes == 0 { return; }
      Append(buffer, f, end, ws);
      ws := ws + buffer;
      pos := pos + BLOCK;
      if node.direct[block] == -1 && node.size < block * BLOCK_BYTES {
        node := Inode(block * BLOCK_BYTES, node.kind, node.direct);
      }
      inodes := inodes[inum := pos];
      node := Inode(node.size, node.kind, node.direct[block := cr.end]);
      LogStands(f, cr0, ws);
      if writes == 1 { return; }
      Append(EncodeInode(node), f, end, ws);
      ws := ws + EncodeInode(node);
      pos := pos + INODE;
      cr := Checkpoint(cr.end, cr.chunks[inum / CHUNK := pos]);
      LogStands(f, cr0, ws);
      if writes == 2 { return; }
      Append(MapChunk(inodes, inum), f, end, ws);
      ws := ws + MapChunk(inodes, inum);
      pos := pos + CHUNK;
      cr := Checkpoint(pos, cr.chunks);
      LogStands(f, cr0, ws);
      if writes == 3 { return; }
      PutCheckpoint(f, end, ws);
      assert [] + buffer == buffer;
      rc := 0;
    }

    /** Nothing is lost while only the end of the log is written. */
    lemma LogStands(f: Words, cr0: Checkpoint, ws: Words)
      requires 0 <= cr0.end <= |f| && Logged(f, cr0.end, ws)
      ensures LogKept(f, cr0, image)
    {
    }

    /** A write that is accepted and fails after its first record leaves memory and image apart; the image
        alone still holds the old state. */
    method FsiWrite(inum: int, buffer: Words, block: nat, writes: nat) returns (rc: int)
      requires Shaped(image, cr, inodes) && Loaded(image, inodes, inum) && |buffer| == BLOCK
      modifies this
      ensures rc == 0 || rc == -1
      ensures rc == 0 <==> old(Accepts(image, inodes, inum, block)) && writes >= 4
      ensures old(Accepts(image, inodes, inum, block)) ==>
        && cr == old(PartialCheckpoint(cr, inum, writes)) && inodes == old(PartialInodes(cr, inodes, inum, writes))
        && (rc == 0 ==> image == old(StoredImage(image, cr, inodes, inum, NodeAt(image, inodes, inum), buffer, block)))
        && (rc != 0 ==> LogKept(old(image), old(cr), image))
      ensures !old(Accepts(image, inodes, inum, block)) ==> image == old(image)
      ensures !old(Accepts(image, inodes, inum, block)) || writes == 0 ==> cr == old(cr) && inodes == old(inodes)
      ensures old(Valid()) ==> (Valid() <==> !old(Accepts(image, inodes, inum, block)) || writes == 0 || writes >= 4)
      ensures old(Valid()) && rc != 0 ==> Consistent(image, old(cr), old(inodes)) && LogKept(old(image), old(cr), image)
      ensures old(Valid()) && rc == 0 ==>
        && old(Exists(inodes, inum)) && Exists(inodes, inum)
        && Stored(image, cr, inodes, inum, block) && Data(image, cr, inodes, inum, block) == buffer
        && InodeOf(image, cr, inodes, inum).size ==
             (if old(Stored(image, cr, inodes, inum, block) || InodeOf(image, cr, inodes, inum).size >= block * 4096)
              then old(InodeOf(image, cr, inodes, inum).size) else block * 4096)
        && (forall j :: j != inum ==> SameFile(old(image), old(cr), old(inodes), image, cr, inodes, j))
    {
      hide Consistent, InodeOf, StoredImage, LogKept, Stored, Data, SameFile, WrittenImage;
      ghost var f, cr0, inodes0 := image, cr, inodes;
      var r, node := GetInode(inum);
      LogKeptSelf(f, cr0);
      if r < 0 || node.kind != REGULAR || block > 13 {
        return -1;
      }
      rc := WriteRecords(inum, node, buffer, block, writes);
      if Consistent(f, cr0, inodes0) {
        ConsistentLoaded(f, cr0, inodes0, inum);
        WriteEffect(f, cr0, inodes0, inum, buffer, block);
        if rc == 0 {
          WrittenIs(f, cr0, inodes0, inum, buffer, block, writes);
        } else {
          LogRecovers(f, cr0, inodes0, image);
          if writes > 0 {
            FailedWriteSplits(f, cr0, inodes0, image, inum, writes);
          }
        }
      }
    }

    /** The damage of a failed write spreads: the next write in the same map chunk commits it, and from then
        on the first file is the second, in memory and on the image. */
    method FailThenWrite(i: nat, buffer: Words, block: nat, j: nat, buffer': Words, block': nat) returns (rc: int, rc': int)
      requires Valid() && i < NINODES && j < NINODES && i != j && i / CHUNK == j / CHUNK
      requires Exists(inodes, i) && InodeOf(image, cr, inodes, i).kind == REGULAR && block < NDIRECT && |buffer| == BLOCK
      requires Exists(inodes, j) && InodeOf(image, cr, inodes, j).kind == REGULAR && block' < NDIRECT && |buffer'| == BLOCK
      modifies this
      ensures rc == -1 && rc' == 0 && Valid()
      ensures Exists(inodes, i) && Exists(inodes, j)
      ensures InodeOf(image, cr, inodes, i) == InodeOf(image, cr, inodes, j)
      ensures Stored(image, cr, inodes, i, block') && Data(image, cr, inodes, i, block') == buffer'
    {
      hide Consistent, InodeOf, StoredImage, LogKept, Stored, Data;
      ghost var f, cr0, inodes0 := image, cr, inodes;
      ConsistentLoaded(f, cr0, inodes0, i);
      ConsistentLoaded(f, cr0, inodes0, j);
      rc := FsiWrite(i, buffer, block, 1);
      ghost var g := image;
      ConsistentLoaded(g, cr0, inodes0, j);
      SameNode(f, cr0, inodes0, g, j);
      rc' := FsiWrite(j, buffer', block', 4);
      DamageCommitted(g, cr0, inodes0, i, j, buffer', block');
    }

    /** Lines 264-320 of `fsi_creat` for a regular file. */
    method CreateRecords(pinum: nat, n: Inode, inum: nat, dir: Words, found: nat)
      requires Valid() && Exists(inodes, pinum) && inum < NINODES && inodes[inum] == -1
      requires n == InodeOf(image, cr, inodes, pinum) && |dir| == BLOCK && found < NDIRECT
      modifies this
      ensures image == old(CreatedImage(image, cr, inodes, pinum, inum, dir, found))
      ensures cr == old(CreatedCheckpoint(cr, pinum, inum))
      ensures inodes == old(CreatedInodes(inodes, cr.end, pinum, inum))
      ensures Valid() <==> pinum / CHUNK == inum / CHUNK
    {
      hide Consistent, InodeOf, EncodeInode, MapChunk, NewFile, Logged, Appended;
      CreateExact(image, cr, inodes, pinum, inum, dir, found);
      Sizes(image, cr, inodes);
      ghost var f, end, ws := image, cr.end, [];
      SeekEnd();
      var pos := cr.end;
      Append(dir, f, end, ws);
      ws := ws + dir;
      pos := pos + BLOCK;
      var pnode := n;
      if pnode.size < found * BLOCK_BYTES {
        pnode := Inode(found * BLOCK_BYTES, pnode.kind, pnode.direct);
      }
      inodes := inodes[pinum := pos];
      pnode := Inode(pnode.size, pnode.kind, pnode.direct[found := cr.end]);
      Append(EncodeInode(pnode), f, end, ws);
      ws := ws + EncodeInode(pnode);
      pos := pos + INODE;
      ghost var extra := [];
      if pinum / CHUNK != inum / CHUNK {
        cr := Checkpoint(cr.end, cr.chunks[pinum / CHUNK := pos]);
        extra := MapChunk(inodes, pinum);
        Append(MapChunk(inodes, pinum), f, end, ws);
      } else {
        assert ws == ws + extra;
      }
      ws := ws + extra;
      inodes := inodes[inum := pos];
      Append(EncodeInode(NewFile()), f, end, ws);
      ws := ws + EncodeInode(NewFile());
      pos := pos + INODE;
      cr := Checkpoint(cr.end, cr.chunks[inum / CHUNK := pos]);
      Append(MapChunk(inodes, inum), f, end, ws);
      ws := ws + MapChunk(inodes, inum);
      pos := pos + CHUNK;
      cr := Checkpoint(pos, cr.chunks);
      PutCheckpoint(f, end, ws);
      assert [] + dir == dir;
      assert pnode == ParentInode(n, found, end);
      assert ws == old(CreatedWords(image, cr, inodes, pinum, inum, dir, found));
      assert cr == old(CreatedCheckpoint(cr, pinum, inum));
    }

    /** `fsi_creat` of a regular file under a new name: the first free inode, and the block of the directory
        in which the search for an empty entry ended, with the entry filled in. */
    method FsiCreat(pinum: int, dir: Words, found: nat) returns (rc: int, inum: nat)
      requires Valid() && pinum < NINODES && |dir| == BLOCK && found < NDIRECT
      modifies this
      ensures rc == 0 || rc == -1
      ensures rc == 0 <==> old(Exists(inodes, pinum)) && exists i :: 0 <= i < NINODES && old(inodes)[i] == -1
      ensures rc != 0 ==> Valid() && image == old(image) && cr == old(cr) && inodes == old(inodes)
      ensures rc == 0 ==>
        && IsFirstFree(old(inodes), inum)
        && image == old(CreatedImage(image, cr, inodes, pinum, inum, dir, found))
        && cr == old(CreatedCheckpoint(cr, pinum, inum)) && inodes == old(CreatedInodes(inodes, cr.end, pinum, inum))
        && (Valid() <==> pinum / CHUNK == inum / CHUNK)
    {
      hide Consistent, InodeOf, CreatedImage, CreatedCheckpoint, CreatedInodes;
      inum := 0;
      ConsistentLoaded(image, cr, inodes, pinum);
      var r, node := GetInode(pinum);
      if r < 0 {
        return -1, inum;
      }
      while inum < NINODES && inodes[inum] != -1
        invariant 0 <= inum <= NINODES && forall k :: 0 <= k < inum ==> inodes[k] != -1
      {
        inum := inum + 1;
      }
      if inum == NINODES {
        return -1, inum;
      }
      CreateRecords(pinum, node, inum, dir, found);
      rc := 0;
    }

    /** Lines 370-399 of `fsi_unlink` for a regular file. */
    method UnlinkRecords(pinum: nat, n: Inode, cinum: nat, dir: Words, found: nat, first: bool)
      requires Valid() && Exists(inodes, pinum) && cinum < NINODES && cinum != pinum
      requires n == InodeOf(image, cr, inodes, pinum) && |dir| == BLOCK && found < NDIRECT
      modifies this
      ensures image == old(UnlinkedImage(image, cr, inodes, pinum, cinum, dir, found, first))
      ensures cr == old(UnlinkedCheckpoint(cr, pinum, cinum))
      ensures inodes == old(UnlinkedInodes(inodes, cr.end, pinum, cinum))
      ensures Valid() <==> pinum / CHUNK == cinum / CHUNK
    {
      hide Consistent, InodeOf, EncodeInode, MapChunk, Logged, Appended;
      UnlinkExact(image, cr, inodes, pinum, cinum, dir, found, first);
      Sizes(image, cr, inodes);
      ghost var f, end, ws := image, cr.end, [];
      var pos := cr.end;
      SeekEnd();
      Append(dir, f, end, ws);
      ws := ws + dir;
      var pnode := Inode(n.size, n.kind, n.direct[found := if first then -1 else pos]);
      pos := pos + BLOCK;
      Append(EncodeInode(pnode), f, end, ws);
      ws := ws + EncodeInode(pnode);
      inodes := inodes[pinum := pos];
      inodes := inodes[cinum := -1];
      pos := pos + INODE;
      ghost var extra := [];
      if pinum / CHUNK != cinum / CHUNK {
        cr := Checkpoint(cr.end, cr.chunks[pinum / CHUNK := pos]);
        extra := MapChunk(inodes, pinum);
        Append(MapChunk(inodes, pinum), f, end, ws);
      } else {
        assert ws == ws + extra;
      }
      ws := ws + extra;
      cr := Checkpoint(cr.end, cr.chunks[cinum / CHUNK := pos]);
      Append(MapChunk(inodes, cinum), f, end, ws);
      ws := ws + MapChunk(inodes, cinum);
      pos := pos + CHUNK;
      cr := Checkpoint(pos, cr.chunks);
      PutCheckpoint(f, end, ws);
      assert [] + dir == dir;
      assert ws == old(UnlinkedWords(image, cr, inodes, pinum, cinum, dir, found, first));
      assert cr == old(UnlinkedCheckpoint(cr, pinum, cinum));
    }

    /** Any sequence of writes, each of which may be cut short by a failing write or by a crash and a restart,
        up to the first failure that leaves memory and image apart: until then they stay together, every
        block written holds what was last written to it and everything else is as it was at the start; after
        it the image alone still holds that state. */
    method RunWrites(requests: seq<WriteRequest>) returns (rcs: seq<int>, ghost cr1: Checkpoint, ghost inodes1: Words)
      requires Valid()
      requires forall q :: q in requests ==> q.inum < NINODES && |q.buffer| == BLOCK
      modifies this
      ensures old(Valid()) && Consistent(image, cr1, inodes1)
      ensures var regular := old(RegularFiles(image, cr, inodes));
        && |rcs| <= |requests|
        && (forall i :: 0 <= i < |rcs| ==> (rcs[i] == 0 <==> TakesEffect(requests[i], regular)))
        && (forall i :: 0 <= i < |rcs| - 1 ==> !Damages(requests[i], regular))
        && Updated(old(image), old(cr), old(inodes), image, cr1, inodes1, LastWrites(requests[..|rcs|], regular))
        && (if |rcs| > 0 && Damages(requests[|rcs| - 1], regular) then !Valid()
            else |rcs| == |requests| && Valid() && cr == cr1 && inodes == inodes1)
    {
      hide Consistent, InodeOf, StoredImage, WrittenImage, WrittenCheckpoint, PartialCheckpoint, PartialInodes, Updated;
      hide RegularFiles, LogKept, NodeAt, TakesEffect, Damages;
      ghost var f0, c0, n0 := image, cr, inodes;
      ghost var regular := RegularFiles(f0, c0, n0);
      UpdatedNothing(f0, c0, n0);
      rcs, cr1, inodes1 := [], cr, inodes;
      for i := 0 to |requests|
        invariant Valid() && |rcs| == i && cr == cr1 && inodes == inodes1
        invariant forall k :: 0 <= k < i ==> (rcs[k] == 0 <==> TakesEffect(requests[k], regular))
        invariant forall k :: 0 <= k < i ==> !Damages(requests[k], regular)
        invariant Updated(f0, c0, n0, image, cr, inodes, LastWrites(requests[..i], regular))
      {
        var q := requests[i];
        ghost var f, last := image, LastWrites(requests[..i], regular);
        SameRegular(f0, c0, n0, f, cr1, inodes1, last, q.inum);
        ConsistentLoaded(f, cr1, inodes1, q.inum);
        assert requests[..i + 1][..i] == requests[..i];
        var accepted := Accepts(image, inodes, q.inum, q.block);
        Judged(q, regular, accepted);
        var rc := FsiWrite(q.inum, q.buffer, q.block, q.writes);
        rcs := rcs + [rc];
        if rc == 0 {
          UpdatedWrite(f0, c0, n0, f, cr1, inodes1, last, q.inum, q.buffer, q.block);
          WrittenIs(f, cr1, inodes1, q.inum, q.buffer, q.block, q.writes);
          cr1, inodes1 := cr, inodes;
        } else {
          UpdatedDebris(f0, c0, n0, f, image, cr1, inodes1, last);
        }
        if q.crash {
          Restart(cr1, inodes1);
        } else if accepted && 1 <= q.writes <= 3 {
          return;
        }
      }
      assert requests[..|requests|] == requests;
    }
  }

  // ------------------------------------------------- runs from a new image

  ghost predicate IsNewFile(f: Words, cr: Checkpoint, inodes: Words, i: nat) {
    Consistent(f, cr, inodes) && Exists(inodes, i) && InodeOf(f, cr, inodes, i) == NewFile()
  }

  /** The root and k - 1 files created in it. */
  ghost predicate Populated(f: Words, cr: Checkpoint, inodes: Words, k: nat) {
    && Consistent(f, cr, inodes)
    && (forall i :: 0 <= i < NINODES ==> (Exists(inodes, i) <==> i < k))
    && (forall i :: 1 <= i < k ==> IsNewFile(f, cr, inodes, i))
  }

  lemma PopulatedFree(f: Words, cr: Checkpoint, inodes: Words, k: nat, inum: nat)
    requires Populated(f, cr, inodes, k) && 1 <= k < NINODES
    ensures |inodes| == NINODES && Exists(inodes, 0) && inodes[k] == -1
    ensures IsFirstFree(inodes, inum) ==> inum == k
  {
    assert !Exists(inodes, k) && (inum < k ==> Exists(inodes, inum));
  }

  lemma PopulatedMore(f: Words, cr: Checkpoint, inodes: Words, k: nat, dir: Words)
    requires Populated(f, cr, inodes, k) && 1 <= k < CHUNK && |dir| == BLOCK && Exists(inodes, 0)
    ensures Populated(CreatedImage(f, cr, inodes, 0, k, dir, 0), CreatedCheckpoint(cr, 0, k), CreatedInodes(inodes, cr.end, 0, k), k + 1)
  {
    hide Consistent, InodeOf, CreatedImage, CreatedCheckpoint, SameFile, NewFile;
    Sizes(f, cr, inodes);
    PopulatedFree(f, cr, inodes, k, k);
    CreatedEffect(f, cr, inodes, 0, k, dir, 0);
    var g, cr', inodes' := CreatedImage(f, cr, inodes, 0, k, dir, 0), CreatedCheckpoint(cr, 0, k), CreatedInodes(inodes, cr.end, 0, k);
    forall i | 0 <= i < NINODES ensures Exists(inodes', i) <==> i < k + 1 {
      assert Exists(inodes, i) <==> i < k;
    }
    forall i | 1 <= i < k + 1 ensures IsNewFile(g, cr', inodes', i) {
      if i < k {
        assert IsNewFile(f, cr, inodes, i);
        SameNewFile(f, cr, inodes, g, cr', inodes', i);
      }
    }
  }

  lemma SameNewFile(f: Words, cr: Checkpoint, inodes: Words, g: Words, cr': Checkpoint, inodes': Words, i: nat)
    requires Consistent(f, cr, inodes) && Consistent(g, cr', inodes') && SameFile(f, cr, inodes, g, cr', inodes', i)
    requires IsNewFile(f, cr, inodes, i)
    ensures IsNewFile(g, cr', inodes', i)
  {
  }

  /** Fifteen files in the root of a new image, as many as its map chunk has room for: all is well. */
  method FifteenFiles(root: Words, dirs: seq<Words>) returns (server: Server)
    requires |root| == BLOCK && |dirs| >= 15 && forall k :: 0 <= k < |dirs| ==> |dirs[k]| == BLOCK
    ensures fresh(server) && server.Valid() && Populated(server.image, server.cr, server.inodes, CHUNK)
  {
    hide Consistent, InodeOf, CreatedImage, CreatedCheckpoint, CreatedInodes, SameFile, NewFile;
    server := new Server.Build(root);
    for k := 1 to CHUNK
      invariant fresh(server) && server.Valid() && Populated(server.image, server.cr, server.inodes, k)
    {
      ghost var f, cr, inodes := server.image, server.cr, server.inodes;
      PopulatedFree(f, cr, inodes, k, k);
      var rc, inum := server.FsiCreat(0, dirs[k - 1], 0);
      PopulatedFree(f, cr, inodes, k, inum);
      PopulatedMore(f, cr, inodes, k, dirs[k - 1]);
    }
  }

  /** The sixteenth file gets inode 16, in the next map chunk: memory and image part. */
  method SixteenthFile(root: Words, dirs: seq<Words>) returns (server: Server, rc: int, inum: nat)
    requires |root| == BLOCK && |dirs| >= 16 && forall k :: 0 <= k < |dirs| ==> |dirs[k]| == BLOCK
    ensures fresh(server) && rc == 0 && inum == 16 && !server.Valid()
  {
    hide Consistent, CreatedImage, CreatedCheckpoint, CreatedInodes;
    server := FifteenFiles(root, dirs);
    ghost var f, cr, inodes := server.image, server.cr, server.inodes;
    PopulatedFree(f, cr, inodes, CHUNK, CHUNK);
    rc, inum := server.FsiCreat(0, dirs[15], 0);
    PopulatedFree(f, cr, inodes, CHUNK, inum);
  }

  /** A write to file 1 fails, one to file 2 succeeds, and then file 1 reads as file 2, now and after any restart. */
  method FirstReadsAsSecond(root: Words, dirs: seq<Words>, lost: Words, buffer: Words) returns (server: Server, data: Words)
    requires |root| == |lost| == |buffer| == BLOCK && |dirs| >= 15 && forall k :: 0 <= k < |dirs| ==> |dirs[k]| == BLOCK
    ensures fresh(server) && server.Valid() && data == buffer
    ensures Exists(server.inodes, 1) && Exists(server.inodes, 2)
    ensures InodeOf(server.image, server.cr, server.inodes, 1) == InodeOf(server.image, server.cr, server.inodes, 2)
  {
    hide Consistent, InodeOf, Data, Stored;
    server := FifteenFiles(root, dirs);
    assert IsNewFile(server.image, server.cr, server.inodes, 1) && IsNewFile(server.image, server.cr, server.inodes, 2);
    var _, _ := server.FailThenWrite(1, lost, 0, 2, buffer, 0);
    var _, read := server.FsiRead(1, 0);
    data := read;
  }
}
