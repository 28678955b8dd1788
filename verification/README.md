# Verified models of a set of xv6 and allocator projects

Models, in Dafny, of the algorithms and protocols of a family of operating system projects: three variants of the
xv6 kernel, a worst-fit allocator and a log-structured file server. Code that updates state in place is a class
with methods proved against functions or relations on values; concurrent code is a state machine whose steps are the
stretches of code between two lock operations. Every main result is about all inputs or all runs.

| file | models |
|---|---|
| `FreeBlocks.dfy` | blocks that tile a region: counting, cutting, joining, canonical form (used by both allocators) |
| `Common.dfy` | what several models share |
| `Umalloc.dfy` | `malloc` and `free` over the circular address-ordered free list |
| `Libmem.dfy` | the worst-fit allocator over an unordered list |
| `Bitmap.dfy`, `Fs.dfy`, `Directories.dfy`, `Mkfs.dfy` | block bitmap, both inode layouts, file contents, directories, and the image builder |
| `BufferCache.dfy` | the buffer cache and the disk driver's request queue, under interleaving |
| `Libfsi.dfy` | the log, inode map and checkpoint of the file server, with crashes |
| `Processes.dfy`, `SleepWakeup.dfy` | fork, clone, exit, wait, kill, sleep and wakeup |
| `Stride.dfy` | the stride scheduler |
| `Pipe.dfy` | the blocking ring buffer |
| `Vm.dfy` | two-level page tables over the page free list |
| `Shell.dfy` | the shell's recursive-descent parser |
| `Grep.dfy` | the regular expression matcher |

What the code does not do. Each of these is proved as an exact condition, or with a counterexample beside the
condition under which the property holds:

- `malloc` serves a request correctly if and only if it asks for at most 0x7FFFFFF0 bytes (`Umalloc.RequestExact`).
- `Mem_Alloc` leaves a region that some free list makes sound if and only if the largest chunk leaves room for a header
  (`Libmem.Region.MemAlloc`); an exact fit writes an empty header over the next live chunk or outside the region, and
  forgets the list if the chunk was first. A region where that happens: `Libmem.ExactFitDestroys`.
- `fsi_creat` and `fsi_unlink` of a regular file keep memory and image together if and only if the file and its
  directory share an inode map chunk (`Libfsi.CreateExact`, `Libfsi.UnlinkExact`). The sixteenth file in the root of a
  new image is the first that does not (`Libfsi.FifteenFiles`, `Libfsi.SixteenthFile`).
- `fsi_write` leaves memory and image together if and only if it refuses the request, its first write fails, or all its
  writes succeed (`Libfsi.Server.FsiWrite`). Otherwise the next write in the same map chunk commits the damage, and one
  file reads as another (`Libfsi.Server.FailThenWrite`; a run from a new image: `Libfsi.FirstReadsAsSecond`).
- `bmap` breaks a file's extents if and only if the last extent the block continues has 255 blocks and the lowest free
  block follows it on the disk (`Fs.FileSystem.Bmap`, `Fs.ExtendExact`). The first write of more than 255 blocks to an
  extent file of a new image gets there (`Fs.CarryIsReal`, `Mkfs.CarryFromImage`).
- `filelseek` leaves a file without extents with a byte that cannot be read if and only if it goes past the file's
  140 blocks (`Fs.FileSystem.Lseek`, `Fs.SeekReadable`).
- `readi`, `writei`, `dirlookup`, `dirlink` and `iappend` fail to return exactly if the blocks they need, counted in the
  state before the call, cannot be had (`Fs.FileSystem.Readi`, `Fs.FileSystem.Writei`, `Directories.Dirlookup`,
  `Directories.Dirlink`, `Mkfs.Builder.Iappend`).
- `setupkvm` fails if and only if fewer than 13 pages are free, and then everything that was free is lost
  (`Vm.Memory.Setupkvm`, `Vm.KernelMap`).
- A write loses a wakeup if and only if the writer has been killed, has more left than a pipe that is not full has room
  for, and a reader is asleep (`Pipe.RingBuffer.WriteStep`). A run from an empty pipe in which it does:
  `Pipe.KilledWriterStrandsReader`.
- An `exit` is harmless, whatever follows, if and only if it hands no thread of its own directory to init, unless init
  runs in that directory too (`Processes.ExitExact`). A run in which a thread loses its directory: `Processes.OrphanRun`.
- A new process starts at pass zero: fairness survives its arrival if and only if nobody's pass exceeds their own stride,
  and otherwise it keeps the CPU until it has caught up (`Stride.Cpu.Arrive`, `Stride.LateArrivalMonopolises`).

## Model

| member | source | states |
|---|---|---|
| FreeBlocks.TilesCount | 5/xv6/umalloc.c:24-90 | the sizes of non-overlapping blocks that cover a region add up to the size of the region |
| FreeBlocks.FreeIsCanonical | 5/xv6/umalloc.c:24-44 | free blocks of which no two touch are determined by the live blocks and the region alone |
| Umalloc.GapExists | 5/xv6/umalloc.c:30-32 | in every ordered free list there is exactly one place for a block that is not on it |
| Umalloc.FindGap | 5/xv6/umalloc.c:30-32 | started at any block of the list, the search of `free` finds that one place in fewer steps than the list has blocks |
| Umalloc.InsertKeeps | 5/xv6/umalloc.c:33-43 | joining a live block with whichever neighbours it touches keeps the list in address order with no two blocks touching, and free plus live blocks still tile the heap |
| Umalloc.ListIsCanonical | 5/xv6/umalloc.c:24-44 | two ordered lists over the same free units are equal block by block |
| Umalloc.InsertIsCanonical | 5/xv6/umalloc.c:24-44 | what `free` builds is the only ordered list that covers the old free units and the freed block |
| Umalloc.LinkKeeps | 5/xv6/umalloc.c:33-43 | the pointer writes of `free` turn memory that holds the old circular list into memory that holds the new one |
| Umalloc.CarveKeeps | 5/xv6/umalloc.c:76-83 | the piece `malloc` cuts off was not live, and with it the blocks still tile the heap |
| Umalloc.TakeKeeps | 5/xv6/umalloc.c:76-84 | the header writes of `malloc` keep memory a circular list without the piece |
| Umalloc.RequestExact | 5/xv6/umalloc.c:52-69 | the unit count is large enough and `sbrk` is asked for all of it if and only if the request is at most 0x7FFFFFF0 bytes; then the count is the least that holds the request, and core is asked for in at least 4096 units and no more than needed beyond that |
| Umalloc.FreeKeeps | 5/xv6/umalloc.c:24-44 | `free` keeps the whole-heap invariant and leaves every word of every other live block alone |
| Umalloc.MallocKeeps | 5/xv6/umalloc.c:74-85 | so does taking a block |
| Umalloc.GrowKeeps | 5/xv6/umalloc.c:46-61 | so does adding core that `sbrk` returned, as a live block about to be freed |
| Umalloc.InsertFits | 5/xv6/umalloc.c:46-61 | after new core is freed, `freep` or the next block is large enough even when the core was joined into another block |
| Umalloc.FullLap | 5/xv6/umalloc.c:86-88 | coming back to `freep` means that no free block is large enough, and cannot happen after a successful `morecore` |
| Umalloc.Heap.constructor | 5/xv6/umalloc.c:21-22 | the heap before the first call satisfies the invariant |
| Umalloc.Heap.Free | 5/xv6/umalloc.c:24-44 | the block leaves the live set, the list gains it in place, other live contents are untouched |
| Umalloc.Heap.Morecore | 5/xv6/umalloc.c:46-61 | one `sbrk`; on success a large enough block is at most one step from the returned `freep`, on failure nothing changes |
| Umalloc.Heap.Search | 5/xv6/umalloc.c:74-89 | terminates; calls `sbrk` at most once, and exactly if no free block fits; fails only then |
| Umalloc.Heap.Malloc | 5/xv6/umalloc.c:63-90 | returns a block that was not live and holds the request with less than one unit to spare, or 0 only if nothing fits and `sbrk` refused |
| Umalloc.Heap.UserWrite | 5/xv6/umalloc.c:63-90 | whatever the program stores in its blocks, the heap stays in order |
| Umalloc.Heap.Conservation | 5/xv6/umalloc.c:24-90 | free units plus live units equal the units obtained from `sbrk` |
| Umalloc.IntactUntouched | 5/xv6/umalloc.c:24-90 | what the program stored in its blocks survives any operation that leaves live blocks alone |
| Umalloc.IntactStore | 5/xv6/umalloc.c:63-90 | a store into one block changes no unit of another |
| Umalloc.RunGrows | 5/xv6/umalloc.c:24-90 | along every run memory is only gained and `sbrk` is called at most once for each request |
| Umalloc.Heap.Serve | 5/xv6/umalloc.c:24-90 | one request and the state it leaves: a get is refused only if nothing fits and `sbrk` refused, and takes new core exactly if nothing fits; what was stored stays |
| Umalloc.Heap.Run | 5/xv6/umalloc.c:24-90 | in any run of requests and stores and any behaviour of `sbrk`, the recorded states follow one from the other by the requests, all satisfy the invariant, and at the end every block held has in it what was last stored there |
| Libmem.FrontLinked | 3a/libmem.c:120-204 | moving one node to the head with the writes of the first merge leaves a well-linked list |
| Libmem.AbsorbLinked | 3a/libmem.c:120-204 | so does joining a second neighbour into the head |
| Libmem.JoinFirst | 3a/libmem.c:120-204 | the branches of the first merge, for either neighbour and for the head, put the union at the head and write nothing else |
| Libmem.JoinSecond | 3a/libmem.c:120-204 | the branches of the second merge extend the head by the other neighbour |
| Libmem.FindNeighborNode | 3a/libmem.c:120-204 | for any order of the list, one pass leaves no two free chunks touching, the freed bytes in the head, the region tiled and everything stored in live chunks alone |
| Libmem.GetWorstFit | 3a/libmem.c:90-107 | a largest chunk and its predecessor, and 0 exactly if it fails the fit test |
| Libmem.FitTestSuffices | 3a/libmem.c:54-107 | with sizes in multiples of 8 the unrounded fit test holds exactly when the rounded split fits |
| Libmem.ChunkNode | 3a/libmem.c:54-88 | the chunk gets its header and the remainder takes its place in the list; an empty remainder still gets a header, leaves the list without the chunk, and drops the whole list if the chunk was first |
| Libmem.AllocKeeps | 3a/libmem.c:54-88 | a split whose remainder holds a header keeps the region's invariant |
| Libmem.NextIsLive | 3a/libmem.c:54-88 | the byte after a free chunk is outside the region or starts a live chunk |
| Libmem.ExactFitHeader | 3a/libmem.c:67-75 | no list makes a region sound in which an exact fit wrote an empty header |
| Libmem.RemainderListed | 3a/libmem.c:64-80 | a region is sound after a split only if the remainder can hold a header, since it must be on the list |
| Libmem.AllocExact | 3a/libmem.c:54-88 | the cut is recorded soundly by some list only if the remainder can hold a header |
| Libmem.ExactFitDestroys | 3a/libmem.c:54-117 | a region where taking back a freed chunk empties the header of the live chunk behind it and the list |
| Libmem.Region.MemAlloc | 3a/libmem.c:109-117 | succeeds exactly if some chunk passes the fit test; afterwards some list makes the region sound if and only if the largest chunk leaves room for a header; then live contents are kept, and an exact fit empties the header of a live chunk or one outside the region |
| Libmem.Region.MemFree | 3a/libmem.c:207-214 | the chunk leaves the live set and its bytes are in the head of a list with no two chunks touching, everything stored in live chunks stays; freeing 0 does nothing |
| Libmem.Region.Conservation | 3a/libmem.c:54-214 | free bytes plus live bytes equal the region |
| Libmem.FreeChunksAreCanonical | 3a/libmem.c:120-214 | in whatever order requests came, the free chunks are determined by the live ones and the region |
| Libmem.Region.Serve | 3a/libmem.c:54-214 | one request is served exactly if there is a list and the largest chunk does not fit or leaves room for a header; then the state it leaves |
| Libmem.Region.Run | 3a/libmem.c:54-214 | the recorded states follow one from the other by the requests and all satisfy the invariant; the run stops exactly at the first request that finds no list or leaves no room for a header |
| Fs.PutGet | 5/xv6/fs.c:376-379 | a block pointer written to a block is read back, and no other pointer of the block changes |
| Bitmap.MarkedOnly | 5/xv6/fs.c:64-66 | marking a block sets that bit and no other |
| Bitmap.ClearedOnly | 5/xv6/fs.c:89-93 | freeing a block clears that bit and no other |
| Bitmap.FirstClear | 5/xv6/fs.c:61-73 | the scan returns the lowest clear bit, which lies on the disk if and only if some block of the disk is free |
| Fs.MappedValid | 5/xv6/fs.c:320-387 | adding one mapping through a free block keeps the invariant that every block in use has exactly one owner, in either layout |
| Fs.MappedBytes | 5/xv6/fs.c:52-75 | since free blocks are zero, giving one to a file changes no byte of any file |
| Fs.DirectMapped | 5/xv6/fs.c:364-367 | bmap's direct case adds that mapping and no other |
| Fs.IndirectTaken | 5/xv6/fs.c:373-374 | a new block of pointers maps nothing: it holds no stale pointer |
| Fs.PointerMapped | 5/xv6/fs.c:375-380 | bmap's indirect case adds that mapping and no other |
| Fs.FindExtent | 5/xv6/fs.c:331-344 | the first extent that covers the block, or else the first empty slot and the last extent the block continues |
| Fs.ExtentOpened | 5/xv6/fs.c:355-361 | a new extent adds that mapping and no other, and overlaps no extent |
| Fs.ExtentExtended | 5/xv6/fs.c:350-353 | so does extending an extent of fewer than 255 blocks |
| Fs.ExtendExact | 5/xv6/fs.c:350-353 | the extension keeps the invariant if and only if the extent is shorter than 255 blocks; otherwise all 255 blocks drop out of the file |
| Fs.FillExtent | 5/xv6/fs.c:326-361 | the first 255 blocks of an empty extent file go into one extent where so many are free in a row |
| Fs.RangeAfter | 5/xv6/fs.c:320-361 | mapping a range of an extent file is mapping its beginning and then, in the layout that leaves, the rest |
| Fs.CarryIsReal | 5/xv6/fs.c:350-353 | the first write of more than 255 blocks to an empty extent file runs into the carry wherever 256 blocks are free from the lowest free one on |
| Fs.RangeStep | 5/xv6/fs.c:320-387 | mapping a range of blocks is mapping the first and then, in the state that leaves, the others |
| Fs.RangeStops | 5/xv6/fs.c:320-387 | a range fails for the reason its first failing block does |
| Fs.ExtRangeReturns | 5/xv6/fs.c:320-361 | a range of an extent file can be mapped whenever there is a free block and an empty slot for each block |
| Fs.RoomReturns | 5/xv6/fs.c:320-387 | so for either layout |
| Fs.WrittenBytes | 5/xv6/fs.c:490-496 | a write to a data block changes those bytes of that file only |
| Fs.FileSystem.Balloc | 5/xv6/fs.c:52-75 | takes the lowest free block if there is one |
| Fs.FileSystem.Bfree | 5/xv6/fs.c:78-96 | clears the block and its bit; the double-free panic is unreachable |
| Fs.FileSystem.BmapPlain | 5/xv6/fs.c:364-383 | at most one file block is added, no other mapping of any file moves, no byte changes; out of range exactly from block 140 on, out of blocks exactly if fewer are free than it needs |
| Fs.FileSystem.BmapExtent | 5/xv6/fs.c:326-361 | the same for extents, with the extents it leaves; every way it can fail has its exact condition on the state before, and the invariant is lost exactly when the extent to extend has 255 blocks and the lowest free block follows it |
| Fs.FileSystem.Bmap | 5/xv6/fs.c:320-387 | the same for any inode |
| Fs.FileSystem.Readi | 5/xv6/fs.c:447-470 | fails exactly outside the file or on wrap-around, and stops exactly if a block of the range cannot be had; otherwise delivers that slice of the file's contents, whatever its layout and holes, and changes no file |
| Fs.FileSystem.Writei | 5/xv6/fs.c:474-503 | the same conditions; splices the bytes into that file's contents, growing it; every byte with extents, and without them as many as stay within 140 * 512, fewer than asked for only if that limit is reached; every other file keeps its contents, also when it stops |
| Fs.UnreadableBytes | 5/xv6/fs.c:320-387 | in a file without extents a read of one byte is out of range exactly from block 140 on |
| Fs.SeekReadable | 5/xv6/file.c:127-138 | a size leaves such a file with an unreadable byte if and only if it exceeds 140 blocks |
| Fs.FileSystem.Lseek | 5/xv6/file.c:127-138 | seeking past the end appends zeros; a file without extents gets an unreadable byte exactly beyond 140 blocks |
| Fs.FileSystem.Itrunc | 5/xv6/fs.c:393-430 | exactly the blocks the inode owned become free and zero, the file is empty, other files keep their contents |
| Fs.UnmappedValid | 5/xv6/fs.c:393-430 | unmapping and freeing the same blocks keeps the invariant |
| Fs.TruncateDone | 5/xv6/fs.c:393-430 | once all pointers are cleared the inode owns no block at all |
| Fs.CreatedValid | 5/xv6/fs.c:146-167 | an inode that owns no block may be allocated anew with either layout: every file keeps its contents and the new one is empty |
| Fs.FileSystem.Recreate | 5/xv6/fs.c:281-305 | a removed file gives its blocks back and its inode starts anew with either layout |
| Fs.BudgetReturns | 5/xv6/fs.c:447-503 | a call on a file without extents returns if as many blocks are free as its range spans, and one for pointers |
| Fs.ApplyActs | 5/xv6/fs.c:447-503 | what a call does to the byte sequences, position by position: the bytes of each file before, inside and behind the range, its size, how many bytes went in under the 140-block limit, and what a read delivers |
| Fs.FileSystem.Serve | 5/xv6/fs.c:393-503 | one call acts on that file's byte sequence as stated position by position, and leaves exactly the inodes and block roles that mapping its range in turn gives, or stops exactly for the reason found in the state before |
| Fs.AlikeHalts | 5/xv6/fs.c:320-387 | where a call stops depends on block roles, sizes and extents only |
| Fs.RunDetermined | 5/xv6/fs.c:393-503 | two runs of the same calls from one state have the same files, outputs and layouts as far as both go, and neither stops where the other goes on |
| Fs.FileSystem.Run | 5/xv6/fs.c:393-503 | any sequence of reads, writes, seeks, truncations and creations acts as on independent byte sequences: the recorded states follow one from the other by the calls, each read delivers what the files hold, and the run stops exactly at the first call that cannot have its blocks; on files without extents never if the calls' budgets are free |
| Directories.Namecmp | 5/xv6/fs.c:507-511 | true exactly if the names agree up to their first zero byte or 14 bytes |
| Directories.NothingBeyond | 5/xv6/fs.c:526-541 | entries past the size of a directory are empty, so scanning whole blocks finds no stale entry |
| Directories.Dirlookup | 5/xv6/fs.c:516-545 | the first matching entry of the directory's contents, or a miss exactly if there is none; does not return exactly if a block it scans cannot be had |
| Directories.Dirlink | 5/xv6/fs.c:548-575 | refuses a name exactly if it is present; otherwise writes the entry over the first empty one or at the end, and changes nothing else; stops and panics under exact conditions |
| Directories.LinkedLookup | 5/xv6/fs.c:548-575 | afterwards the new name is found at its entry and every other name where it was |
| Directories.LinkWrites | 5/xv6/fs.c:566-572 | the write of a link stops exactly if the last block it needs cannot be had |
| Mkfs.EmptyImage | 5/xv6/mkfs.c:67-91 | an image of zeros satisfies the file system's invariant |
| Mkfs.ReservedHolds | 5/xv6/mkfs.c:77-79 | inode blocks, then bitmap blocks, all behind the super block and before the data |
| Mkfs.Builder.constructor | 5/xv6/mkfs.c:67-91 | all files empty, all data blocks free and zero |
| Mkfs.Builder.Block | 5/xv6/mkfs.c:341-362 | a block for the file block, from the next free ones, under the same exact condition and with the same guarantees as bmap |
| Mkfs.Builder.Iappend | 5/xv6/mkfs.c:329-375 | succeeds exactly if the blocks can be had; then the bytes are appended to that file, every other file keeps its contents, and blocks from `freeblock` on stay free and zero |
| Mkfs.Builder.RoundSize | 5/xv6/mkfs.c:188-193 | rounding a directory's size up appends zeros, and makes a byte unreadable exactly if the file had no room |
| Mkfs.Builder.Finish | 5/xv6/mkfs.c:311-325 | the bitmap written last makes the image a good file system with the same files |
| Mkfs.CarryFromImage | 5/xv6/mkfs.c:67-91 | a new image, one inode made an extent file, one write of more than 255 blocks: the carry, and the invariant is lost |
| BufferCache.StepInv | 5/xv6/bio.c:60-137 | every step of every process, and every interrupt, keeps the cache invariant |
| BufferCache.CacheIsTransparent | 5/xv6/bio.c:39-137 | in every interleaving each sector has at most one buffer and one holder, valid buffers nobody holds equal the disk, and `bread` returns what was last written |
| BufferCache.StepRefines | 5/xv6/bio.c:60-137 | every step does to the cache what it does to a plain array of sectors, or nothing to the array |
| BufferCache.CacheRefinesArray | 5/xv6/bio.c:39-137 | in every interleaving a holder has the sector it asked for last and exactly the bytes that a plain array of sectors, driven by the same steps, gave it and it has changed since |
| BufferCache.VictimIsOldest | 5/xv6/bio.c:83-91 | a recycled buffer is the unheld one released longest ago |
| BufferCache.StepWaiters | 5/xv6/bio.c:60-137 | no step leaves a process asleep in `bget` for a buffer nobody holds or of another sector |
| BufferCache.StepTransfers | 5/xv6/ide.c:89-154 | no step leaves a process asleep in `iderw` for a buffer that is not in the queue |
| BufferCache.NoLostWakeup | 5/xv6/ide.c:89-154 | in every interleaving nobody sleeps for a buffer that is free or a transfer that is done |
| BufferCache.PushRing | 5/xv6/bio.c:46-55 | the four pointer writes put a buffer at the front of the doubly linked ring |
| BufferCache.UnlinkRing | 5/xv6/bio.c:126-127 | the two pointer writes take a buffer out of the ring wherever it is |
| BufferCache.BufList.constructor | 5/xv6/bio.c:39-56 | `binit` links all buffers, in reverse order |
| BufferCache.BufList.Release | 5/xv6/bio.c:126-131 | the buffer moves to the front, the others keep their order |
| BufferCache.BufList.FindCached | 5/xv6/bio.c:70-80 | the first buffer with the sector, or none exactly if there is none |
| BufferCache.BufList.FindVictim | 5/xv6/bio.c:83-91 | the last buffer that is not busy, or none exactly if all are |
| BufferCache.WithoutAt | 5/xv6/bio.c:119-137 | what the list operation does is what a release does in the interleaved model |
| Libfsi.ConsistentRecovers | 6/libfsi.c:95-124 | reading a consistent image back gives exactly the checkpoint and the inode map in memory |
| Libfsi.DebrisIsHarmless | 6/libfsi.c:163-206 | whatever lies past the end of the log, the old state is recovered |
| Libfsi.Commit | 6/libfsi.c:163-206 | records of one map chunk appended and then the checkpoint: the new state is consistent |
| Libfsi.WriteConsistent | 6/libfsi.c:163-206 | the four records of `fsi_write` commit a consistent state |
| Libfsi.WriteEffect | 6/libfsi.c:163-206 | one block of one file is replaced; the size is the larger of the old one and the block's offset if the block is new, and otherwise the old one; the kind, every other block and every other file stay |
| Libfsi.CreatedSameChunk | 6/libfsi.c:264-320 | creation within one map chunk is consistent |
| Libfsi.CreatedEffect | 6/libfsi.c:264-320 | it makes an empty regular file without blocks, puts the directory block in place with the directory's size, and changes no other block and no other file |
| Libfsi.CreatedOtherChunk | 6/libfsi.c:283-284 | creation across map chunks is never consistent |
| Libfsi.CreateExact | 6/libfsi.c:264-320 | the exact condition: parent and child share a map chunk |
| Libfsi.UnlinkedSameChunk | 6/libfsi.c:370-399 | removal within one map chunk is consistent |
| Libfsi.UnlinkedEffect | 6/libfsi.c:370-399 | the file is gone, the directory has its new block or none there, and no other file changes |
| Libfsi.UnlinkedOtherChunk | 6/libfsi.c:386-387 | removal across map chunks never is: the file's chunk reads as the directory's |
| Libfsi.UnlinkExact | 6/libfsi.c:370-399 | the same exact condition |
| Libfsi.FailedWriteSplits | 6/libfsi.c:179-200 | after a write that fails behind the first, memory agrees with no image that keeps the log |
| Libfsi.DamageCommitted | 6/libfsi.c:179-200 | the next write in that map chunk commits the stale entry, which then leads to the other file's inode |
| Libfsi.LoadMap | 6/libfsi.c:104-121 | the loop of `fsi_init` rebuilds the inode map the image stands for |
| Libfsi.BuiltConsistent | 6/libfsi.c:36-93 | the image `fsi_build` writes is consistent |
| Libfsi.BuiltRoot | 6/libfsi.c:36-93 | the root is a directory of 4096 bytes with the given block and no other |
| Libfsi.Server.Build | 6/libfsi.c:36-93 | a valid server on which only the root exists, a directory of 4096 bytes with that one block |
| Libfsi.Server.Init | 6/libfsi.c:95-124 | memory equals what the image stands for |
| Libfsi.Server.Restart | 6/libfsi.c:95-124 | a restart on a consistent image gives back exactly the lost memory |
| Libfsi.Server.GetInode | 6/libfsi.c:16-24 | the inode the log holds, or -1 exactly if there is none |
| Libfsi.Server.FsiRead | 6/libfsi.c:208-214 | the block's contents; of a block never written, what follows the inode in the log |
| Libfsi.Server.WriteRecords | 6/libfsi.c:175-206 | memory and image after any number of the four writes; short of four the log is untouched |
| Libfsi.Server.FsiWrite | 6/libfsi.c:163-206 | succeeds exactly on an existing regular file and a block in range with no failing write, and then the block reads as the buffer, the size is the larger of the old one and the block's offset for a new block, and other files are the same; memory and image stay together if and only if it refuses, its first write fails or it succeeds; otherwise the image still holds the old state |
| Libfsi.Server.FailThenWrite | 6/libfsi.c:163-206 | a failed write and then one that succeeds make the first file the second, in memory and on the image |
| Libfsi.Server.CreateRecords | 6/libfsi.c:264-320 | the server stays valid if and only if parent and child share a map chunk |
| Libfsi.Server.FsiCreat | 6/libfsi.c:216-320 | takes the first free inode, and fails exactly if the parent is missing or no inode is free |
| Libfsi.Server.UnlinkRecords | 6/libfsi.c:370-399 | the server stays valid if and only if file and directory share a map chunk |
| Libfsi.FifteenFiles | 6/libfsi.c:216-320 | fifteen files created in the root of a new image, whatever its directory blocks: all empty, all consistent |
| Libfsi.SixteenthFile | 6/libfsi.c:216-320 | the next one gets inode 16 and memory and image part |
| Libfsi.FirstReadsAsSecond | 6/libfsi.c:163-214 | on such an image a failed write to file 1 and a write to file 2 make a read of file 1 return file 2 |
| Libfsi.UpdatedWrite | 6/libfsi.c:163-206 | a write that takes effect adds its block to those that read as last written |
| Libfsi.UpdatedDebris | 6/libfsi.c:163-206 | what a refused or interrupted write leaves on the image changes no block of the old state |
| Libfsi.SizeWritten | 6/libfsi.c:181-183 | after any number of writes a file's size is its first one or the offset of the furthest block added, whichever is larger |
| Libfsi.Server.RunWrites | 6/libfsi.c:163-214 | for any sequence of writes, failing writes, crashes and restarts up to the first failure that damages memory: exactly the writes to regular files within range succeed, memory equals the image, each block reads as the last of them, each size is what the blocks added make it, and every other block and file as at the start; after that failure the image alone still holds that state |
| Processes.StepTree | 4/xv6/change/proc.c:32-289 | every step keeps parents valid and embryos in one maker's hands |
| Processes.StepSleep | 4/xv6/change/proc.c:206-289 | no step leaves a process asleep in `wait` over a zombie child |
| Processes.StepPids | 4/xv6/change/proc.c:32-48 | pids stay unique, also against those already reaped |
| Processes.StepCreators | 4/xv6/change/proc.c:206-244 | a process's parent is its creator or init |
| Processes.WaitIsSound | 4/xv6/change/proc.c:206-289 | in every run a process whose own last step was to sleep in `wait`, and which still sleeps, has no zombie child and has not been killed; each exited child is reaped at most once, and only by its creator or init |
| Processes.ExitWakes | 4/xv6/change/proc.c:206-244 | in every run an exit makes the parent that sleeps in `wait` runnable, and init if it inherits a zombie |
| Processes.WakeupWakes | 4/xv6/change/proc.c:411-428 | in every run `wakeup` makes exactly those runnable whose own last step was to sleep on that channel |
| Processes.KillWakes | 4/xv6/change/proc.c:433-451 | in every run a process is awake after it has been killed |
| Processes.OnlyUser | 4/xv6/change/proc.c:258-278 | a process that owns its directory and has no threads left is the only one in it |
| Processes.OrphanLeads | 4/xv6/change/proc.c:206-244 | a thread an unsafe exit leaves behind leads its directory beside the leader it had |
| Processes.Advance | 4/xv6/change/proc.c:206-289 | while two processes lead one directory, some step without an unsafe exit frees it in use or brings that nearer |
| Processes.DisputedIsMisused | 4/xv6/change/proc.c:206-289 | so some run with safe exits only frees a directory that is in use |
| Processes.ExitExact | 4/xv6/change/proc.c:206-244 | an exit is safe if and only if no run that follows, itself with safe exits only, frees a directory some process refers to |
| Processes.OrphanRun | 4/xv6/change/proc.c:125-278 | the run: init forks, the child clones and exits, init reaps it, and the thread's directory is freed |
| Processes.StepDirs | 4/xv6/change/proc.c:125-289 | with safe exits every step keeps the directories in order |
| Processes.DirectoriesFreedOnce | 4/xv6/change/proc.c:125-278 | in every run with safe exits no directory is freed twice or while in use, and none is left behind when nobody runs in it |
| Processes.ProcTable.Wakeup1 | 4/xv6/change/proc.c:411-419 | the scan wakes exactly the sleepers on the channel |
| Processes.ProcTable.AllocProc | 4/xv6/change/proc.c:32-48 | fails exactly if no slot is unused; otherwise it is a step of the protocol |
| Processes.ProcTable.ExitCurrent | 4/xv6/change/proc.c:206-244 | the scans of `exit` together are one step of the protocol |
| Processes.ProcTable.WaitOnce | 4/xv6/change/proc.c:248-289 | one pass of `wait` is a reaping exactly if there is a zombie child, a failure exactly if there is none and no child at all or the caller has been killed, and otherwise a sleep of the protocol |
| Processes.ProcTable.KillPid | 4/xv6/change/proc.c:433-451 | finds a process exactly if one has the pid, marks it and leaves it awake |
| SleepWakeup.LocksKept | 4/xv6/change/proc.c:374-428 | lock ownership agrees with where each process is |
| SleepWakeup.WakeupKept | 4/xv6/change/proc.c:374-428 | no step lets a wakeup fall between a sleeper's test and its sleep |
| SleepWakeup.NobodySleepsOverTheCondition | 4/xv6/change/proc.c:374-428 | in every run a process sleeps after a waker has set the condition and nobody has taken it since only until the `wakeup` in progress has scanned |
| SleepWakeup.CondTold | 4/xv6/change/proc.c:374-428 | the condition holds exactly if the moves so far say that it was set and not taken since |
| SleepWakeup.TestsAndScans | 4/xv6/change/proc.c:374-428 | in every run a test takes the condition if it was set and goes to sleep otherwise, and after a scan nobody is asleep |
| SleepWakeup.FallsAsleep | 4/xv6/change/proc.c:374-405 | a sleeper left alone is asleep after five moves with both locks free |
| SleepWakeup.WakesEverybody | 4/xv6/change/proc.c:411-428 | a waker left alone has set the condition and woken everybody after five moves, with both locks free |
| Stride.Select | 2b/proc.c:269-280 | the loop with its sentinel finds a runnable process of least pass, the first of them |
| Stride.ArrivalLevel | 2b/proc.c:46-51 | a process that becomes runnable at pass zero keeps the passes level if and only if every runnable pass is within its own stride |
| Stride.Cpu.Arrive | 2b/proc.c:46-51 | passes stay level after an arrival exactly if nobody's exceeds their own stride; a newcomer whom all have outrun by n strides gets the next n turns |
| Stride.Cpu.SetTickets | 2b/sysproc.c:92-99 | the stride is 10000 divided by the tickets, rounded towards zero, and positive exactly for 1 to 10000 tickets |
| Stride.Cpu.Round | 2b/proc.c:266-291 | one round charges and serves the chosen process |
| Stride.TurnsCharged | 2b/proc.c:266-285 | in every run passes stay within a stride of each other, and each pass is usage times stride |
| Stride.FairPair | 2b/proc.c:266-285 | after any number of turns usage times stride of two processes differs by at most one of their strides |
| Stride.NoStarvation | 2b/proc.c:266-285 | every process is served within a bound computed from the strides |
| Stride.ServedCounts | 2b/proc.c:266-285 | n turns give n units of service |
| Stride.ProportionalShare | 2b/proc.c:266-285 | after n turns a process has had its share of n, in weights inverse to the strides, to within one turn for each process |
| Stride.LateArrivalMonopolises | 2b/proc.c:49-51 | a process that is n strides behind all others gets the next n turns |
| Pipe.CountersDecide | 5/xv6/pipe.c:80-103 | the tests on wrapped 32-bit counters mean empty and full |
| Pipe.PutKeeps | 5/xv6/pipe.c:88-89 | storing a byte keeps the unread bytes in the ring in order, also across the wrap |
| Pipe.TakeKeeps | 5/xv6/pipe.c:110-113 | the byte taken is the next one sent |
| Pipe.OwnMore | 5/xv6/pipe.c:75-95 | bytes appended to the stream for one write are added to that write's bytes and to no other's |
| Pipe.StepFlow | 5/xv6/pipe.c:57-118 | every step keeps the history: the stream is made up of the writes' bytes, each in order, and of the reads' results |
| Pipe.StreamKept | 5/xv6/pipe.c:57-118 | in every run of a new pipe the bytes got are a prefix of those sent, at most 512 are pending, the reads return them in turn, and each write, also one that has returned, has sent a beginning of its source in order, all of it exactly if it did not fail |
| Pipe.WritesAsBegun | 5/xv6/pipe.c:75-95 | in every run the writes are those that were begun, in that order and with those bytes |
| Pipe.CallsAsAsked | 5/xv6/pipe.c:75-118 | in every run a call in progress is the one its process asked for last |
| Pipe.ReadResult | 5/xv6/pipe.c:97-118 | in every run a read with bytes there or the write end closed returns as many as it asks for and there are; otherwise it sleeps, or returns -1 if it has been killed |
| Pipe.WriteResult | 5/xv6/pipe.c:75-95 | in every run a write that fits is sent whole; otherwise it fills the pipe and sleeps, or returns -1 if the read end is closed or it has been killed |
| Pipe.ZeroMeansEnd | 5/xv6/pipe.c:97-118 | a read of at least one byte returns 0 only after the write end was closed |
| Pipe.NobodyWaitsAfterClose | 5/xv6/pipe.c:57-118 | after the write end is closed no read sleeps in any continuation and on a drained pipe it returns 0; after the read end is closed no write sleeps and what does not fit returns -1 |
| Pipe.AfterWriteOk | 5/xv6/pipe.c:75-95 | a write step loses a wakeup if and only if the writer was killed, has more left than the room of a pipe that is not full, and a reader sleeps |
| Pipe.AfterReadOk | 5/xv6/pipe.c:97-118 | a read step never loses a wakeup |
| Pipe.StepWakes | 5/xv6/pipe.c:57-118 | so for every step |
| Pipe.NobodySleepsInVain | 5/xv6/pipe.c:57-118 | in every interleaving without such a step no reader sleeps on data or a closed pipe and no writer on room |
| Pipe.WithoutKill | 5/xv6/pipe.c:57-118 | in particular in every interleaving without kill |
| Pipe.KilledWriterStrandsReader | 5/xv6/pipe.c:75-118 | a run from an empty pipe: a reader waits, a killed writer fills the pipe and leaves, and the reader stays asleep on a full pipe |
| Pipe.RingBuffer.constructor | 5/xv6/pipe.c:23-46 | an empty pipe, both ends open |
| Pipe.RingBuffer.WriteStep | 5/xv6/pipe.c:75-95 | the bytes copied are the next of the writer's, as many as fit; returns, fails or sleeps exactly as stated, and loses a wakeup under that condition |
| Pipe.RingBuffer.ReadStep | 5/xv6/pipe.c:97-118 | the bytes read are the next of those sent, at most n; sleeps only on an empty pipe with the write end open |
| Pipe.RingBuffer.CloseEnd | 5/xv6/pipe.c:57-73 | closing an end wakes the other side: a step of the protocol |
| Pipe.RingBuffer.KillProcess | 4/xv6/change/proc.c:433-451 | a kill marks and wakes the process: a step of the protocol |
| Pipe.RingBuffer.Run | 5/xv6/pipe.c:57-118 | the ring with its wrapping counters does, in every interleaving, what the steps do to the history, one after the other |
| Vm.TakenValid | 5/xv6/kalloc.c:59-70 | kalloc keeps each page in exactly one role |
| Vm.FreedValid | 5/xv6/kalloc.c:38-54 | so does kfree of a page nobody refers to |
| Vm.NewTableValid | 5/xv6/vm.c:61-70 | hanging a cleared page below a directory makes it that directory's page table and nothing else's |
| Vm.AttachedValid | 5/xv6/vm.c:86-91 | mapping a page in hand makes it user memory of one directory at one address |
| Vm.DetachedValid | 5/xv6/vm.c:268-275 | clearing its entry takes it out again |
| Vm.Isolation | 5/xv6/vm.c:229-326 | an operation on one directory changes no mapping and no byte of any other |
| Vm.NoSharing | 5/xv6/vm.c:300-326 | no physical page is user memory at two addresses or in two address spaces |
| Vm.GrowThenDrop | 5/xv6/vm.c:240-249 | a growth cut short and then undone leaves every page in its old role with its old contents |
| Vm.GrownMaps | 5/xv6/vm.c:229-251 | growing maps the new pages with the given bytes and leaves old mappings and bytes alone |
| Vm.BuildThenFree | 5/xv6/vm.c:300-326 | building a directory, filling it and freeing it returns every page |
| Vm.KernelMap | 5/xv6/vm.c:122-131 | the kernel's map covers 640K to PHYSTOP and the device window, and needs twelve page tables |
| Vm.SameFree | 5/xv6/kalloc.c:38-70 | equal roles mean equal free lists, up to order, each page listed once |
| Vm.Memory.constructor | 5/xv6/kalloc.c:23-32 | kinit leaves every page of the pool free, once |
| Vm.Memory.Kalloc | 5/xv6/kalloc.c:59-70 | takes the head of the free list, or fails exactly if it is empty |
| Vm.Memory.Kfree | 5/xv6/kalloc.c:38-54 | fills the page with junk and puts it first |
| Vm.Memory.Walkpgdir | 5/xv6/vm.c:52-72 | finds the page table; creating one changes no mapping; fails exactly if it may not or cannot |
| Vm.Memory.Mappages | 5/xv6/vm.c:77-98 | maps exactly the range; succeeds exactly if there are free pages for the missing page tables |
| Vm.Memory.Setupkvm | 5/xv6/vm.c:134-149 | the kernel map and nothing else; succeeds exactly if there are pages for the directory and its tables; otherwise all free pages are lost below an unreachable directory |
| Vm.Memory.MapUser | 5/xv6/vm.c:77-98 | after setupkvm, mapping a page below USERTOP cannot fail and takes no page |
| Vm.Memory.Deallocuvm | 5/xv6/vm.c:258-278 | exactly the user pages in the range become free |
| Vm.Memory.Allocuvm | 5/xv6/vm.c:229-251 | succeeds exactly if enough pages are free, with zeroed pages; otherwise every page has its old role and contents back |
| Vm.Memory.Freevm | 5/xv6/vm.c:283-295 | exactly the directory's pages go back to the free list |
| Vm.Memory.Copyuvm | 5/xv6/vm.c:300-326 | the child has the parent's bytes in pages of its own and the kernel map; failure in the loop restores everything, failure in setupkvm leaks |
| Vm.Memory.Resize | 5/xv6/vm.c:229-278 | growing or shrinking gives the exact new size, keeps the pages below both sizes with their bytes, gives new pages of which every byte is 0, and leaves every other process alone |
| Vm.Memory.Serve | 5/xv6/vm.c:134-326 | one creation, growth, fork or exit: the table that follows, the pages and bytes of the process concerned, and the same for all others |
| Vm.ServedTable | 5/xv6/vm.c:134-326 | the table after a request, in pages of 4096 bytes: a new directory takes 13 pages, memory ends at 640K, a failed request changes nothing |
| Vm.Undisturbed | 5/xv6/vm.c:134-326 | in every run a process that no resize or exit names keeps its size, its mappings and every byte |
| Vm.Memory.Run | 5/xv6/vm.c:134-326 | in every run of creation, growth, fork and exit each page has one role, each process has exactly the pages below its size, and each step is the one stated |
| Shell.NextTok | 5/xv6/sh.c:265-307 | every token but the end shortens the input |
| Shell.ParseLine | 5/xv6/sh.c:344-358 | the mutually recursive grammar terminates by remaining input and rank, and never lengthens the rest |
| Shell.ParsePrint | 5/xv6/sh.c:344-445 | every command tree with legal words and at most nine of them to a command, printed with parentheses only where needed, parses back to itself |
| Shell.ReparseSame | 5/xv6/sh.c:327-341 | whatever input the shell accepts, printing its tree and parsing again gives the same tree |
| Shell.SpacesDoNotMatter | 5/xv6/sh.c:261-319 | replacing each space of an input by any run of the five white space characters changes nothing: same tree or same failure |
| Shell.PrintedAnyhow | 5/xv6/sh.c:327-445 | so every tree printed with any white space between the words parses back to itself |
| Shell.TooManyWords | 5/xv6/sh.c:438-439 | a command of ten words or more is refused |
| Shell.AppendIsOut | 5/xv6/sh.c:382-393 | `>>` is read as `>` |
| Shell.Peek | 5/xv6/sh.c:310-319 | skips white space and looks at one character |
| Shell.Gettoken | 5/xv6/sh.c:265-307 | the token of the grammar, the rest of the input, and for a word its exact bounds |
| Shell.Parseredirs | 5/xv6/sh.c:374-396 | the redirections of the grammar, each with its file's bounds; fails exactly when the grammar does |
| Shell.Parseblock | 5/xv6/sh.c:399-412 | the block of the grammar |
| Shell.Parseexec | 5/xv6/sh.c:415-445 | the command of the grammar, including the argument limit |
| Shell.Parsepipe | 5/xv6/sh.c:361-371 | the pipeline of the grammar |
| Shell.Parseline | 5/xv6/sh.c:344-358 | the line of the grammar |
| Shell.Nulterminate | 5/xv6/sh.c:449-492 | zeros are written at the ends of the tree's words and nowhere else |
| Shell.WordReads | 5/xv6/sh.c:449-492 | after those writes each word reads as itself: no cut falls inside any word |
| Shell.Parsecmd | 5/xv6/sh.c:327-341 | fails exactly when the grammar does; otherwise the tree is the grammar's, and every argument and file name in the buffer is a C string equal to its token |
| Grep.DescribesOne | 5/xv6/grep.c:84-95 | the meaning of a literal or a dot |
| Grep.DescribesStar | 5/xv6/grep.c:98-105 | the meaning of a repetition |
| Grep.DescribesEnd | 5/xv6/grep.c:90-91 | the meaning of a final dollar |
| Grep.MatchHere | 5/xv6/grep.c:84-95 | true exactly if a beginning of the text is described by the pattern; terminates |
| Grep.MatchStar | 5/xv6/grep.c:98-105 | true exactly if some number of repetitions leaves such a text; terminates |
| Grep.Match | 5/xv6/grep.c:71-81 | true exactly if that holds at some position, or at the start for a leading caret |

## Left out

- Umalloc.Heap.Malloc: takes requests up to 0x7FFFFFF0 bytes, the exact bound of Umalloc.RequestExact; alignment of what `sbrk` returns is taken as whole units.
- Umalloc.Heap.Run: takes the same requests.
- Libmem.Region.MemAlloc: takes a non-empty free list, since `getWorstFit` dereferences the head, and sizes that are not negative.
- Libmem.Region.Run: stops before a request that finds no list, where the source would follow a null pointer, or whose remainder could not hold a header.
- Libmem.ChunkNode: `Mem_Init`'s page rounding and mmap are not part of this model; the region is any multiple of 8 bytes.
- Stride.Select: takes passes that are not negative and some runnable process; overflow of `pass` is not modelled.
- Stride.Cpu.SetTickets: zero tickets, a division fault, is excluded.
- Pipe.RingBuffer.CloseEnd: an end is closed when no call is in progress on it.
- Libfsi.Server.GetInode: inode numbers from 4096 on, which read past the map, are excluded; so they are in FsiRead and FsiWrite.
- Libfsi.Server.FsiRead: negative block numbers, which the source lets through (6/libfsi.c:29 and 170), are excluded here and in FsiWrite.
- Libfsi.Server.FsiWrite: the image is addressed in words; the inode the map names can be read in full; stat is not modelled; the checkpoint write is atomic.
- Libfsi.Server.CreateRecords: the search for the directory slot is replaced by its result, here, in FsiCreat and in UnlinkRecords; their writes all succeed.
- Libfsi.Server.FsiCreat: the name is new; an existing one would be unlinked first.
- Libfsi.Server.RunWrites: ends after a failure that leaves memory and image apart; what a later write then does is Libfsi.Server.FailThenWrite.
- Processes.DirectoriesFreedOnce: takes runs without exec whose exits are safe, the exact condition of Processes.ExitExact; kernel stacks, trap frames and pid overflow are not modelled.
- SleepWakeup.WakeupKept: the sleeper's way back through ptable.lock after it is woken is not a separate step.
- BufferCache.CacheIsTransparent: a holder that modifies data calls bwrite before brelse; the disk reports no error; port I/O is an abstract disk; the request queue is a sequence; the early wakeups of `kill`, after which `bget` and `iderw` test again and sleep, are not steps.
- Fs.FileSystem.Balloc: a scan that leaves the disk is reported as a full disk; the source would go on with a block beyond the end.
- Fs.FileSystem.Run: ends at a call that panics for want of blocks or range, or whose extent length carries; after a carry the source returns with the extent broken (5/xv6/fs.c:351-352). Seeks on files without extents stay within 140 blocks.
- Fs.FileSystem.Recreate: the inode to reuse is given; the search of `ialloc` and the file type beyond the layout are not modelled.
- Fs.FileSystem.Writei: the in-core inode is the authority: iupdate, the inode blocks and the inode cache are not modelled, nor are device files, locking and path walking.
- Fs.FileSystem.Lseek: negative offsets, which the unsigned comparison turns into huge sizes, are excluded.
- Directories.Dirlink: directory sizes are multiples of 16, else the source panics; reference counts are not modelled.
- Mkfs.Builder.Iappend: running out of disk is reported, where the source would write past the image; the walk over the host's directories is not modelled; inode numbers are chosen by the caller.
- Vm.Memory.Mappages: splits in two: kernel ranges here, one user page in MapUser, which is how the source calls it; the kernel's data start is page-aligned.
- Vm.Memory.Deallocuvm: sizes are at most USERTOP, as in all its callers; beyond that it would free pages the kernel maps.
- Vm.Memory.Kalloc: the link stored in a free page is not modelled, the free list is a sequence; locking of the list is left out.
- Vm.Memory.Run: exec, loaduvm, inituvm and copyout are not modelled.
- Shell.Parseexec: redirections are collected and wrapped at the end, which gives the tree the source builds by filling the innermost node in place.
- Shell.Parsecmd: runcmd, messages and the memory of the nodes are not modelled.
- Grep.Match: the buffer loop of `grep` is not modelled.
- Hardware, boot code, console output, user utilities, sockets and scripts are not modelled.
