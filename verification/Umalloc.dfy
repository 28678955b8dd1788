// The Kernighan and Ritchie allocator of 5/xv6/umalloc.c.  Addresses count
// headers (eight bytes each), as pointer arithmetic on Header* does.
module Umalloc {
  import opened Common
  import opened FreeBlocks

  const HEADER_BYTES := 8
  const UINT_LIMIT := 0x1_0000_0000
  const MIN_CORE := 4096

  /** The circular free list in address order: element 0 is the static header `base`. */
  ghost predicate Ordered(f: seq<Block>) {
    && |f| >= 1
    && f[0].size == 0
    && (forall i :: 1 <= i < |f| ==> f[i].size >= 1)
    && (forall i, j :: 0 <= i < j < |f| ==> f[i].addr + f[i].size < f[j].addr)
  }

  /** The free blocks proper, without the header `base`, which owns no memory. */
  ghost function Pool(f: seq<Block>): (s: set<Block>)
    ensures forall b :: b in s <==> exists i :: 1 <= i < |f| && f[i] == b
  {
    set i | 1 <= i < |f| :: f[i]
  }

  function Next(i: nat, n: nat): nat {
    if i + 1 >= n then 0 else i + 1
  }

  ghost predicate IsGap(f: seq<Block>, g: nat, a: int) {
    g < |f| && f[g].addr < a && (g + 1 < |f| ==> a < f[g + 1].addr)
  }

  lemma {:induction false} GapExists(f: seq<Block>, a: int) returns (g: nat)
    requires Ordered(f) && f[0].addr < a
    requires forall i :: 0 <= i < |f| ==> f[i].addr != a
    ensures IsGap(f, g, a)
    ensures forall h :: IsGap(f, h, a) ==> h == g
  {
    g := 0;
    while g + 1 < |f| && f[g + 1].addr < a
      invariant g < |f| && f[g].addr < a
    {
      g := g + 1;
    }
  }

  /** Elements lo..hi replaced by the single block c. */
  ghost function Splice(f: seq<Block>, lo: nat, hi: nat, c: Block): (r: seq<Block>)
    requires lo <= hi <= |f|
    ensures |r| == |f| - (hi - lo) + 1 && r[lo] == c
    ensures forall i :: 0 <= i < lo ==> r[i] == f[i]
    ensures forall i :: lo < i < |r| ==> r[i] == f[i - lo - 1 + hi]
  {
    f[..lo] + [c] + f[hi..]
  }

  ghost function Between(f: seq<Block>, lo: nat, hi: nat): (s: set<Block>)
    requires lo <= hi <= |f|
    ensures forall b :: b in s <==> exists i :: lo <= i < hi && f[i] == b
  {
    set i | lo <= i < hi :: f[i]
  }

  lemma SpliceOrdered(f: seq<Block>, lo: nat, hi: nat, c: Block)
    requires Ordered(f) && 1 <= lo <= hi <= |f| && c.size >= 1
    requires f[lo - 1].addr + f[lo - 1].size < c.addr
    requires hi < |f| ==> c.addr + c.size < f[hi].addr
    ensures Ordered(Splice(f, lo, hi, c))
  {
    var r := Splice(f, lo, hi, c);
    forall i, j | 0 <= i < j < |r| ensures r[i].addr + r[i].size < r[j].addr {
      assert r[i] == if i < lo then f[i] else if i == lo then c else f[i - lo - 1 + hi];
      assert r[j] == if j < lo then f[j] else if j == lo then c else f[j - lo - 1 + hi];
    }
  }

  lemma SplicePool(f: seq<Block>, lo: nat, hi: nat, c: Block)
    requires Ordered(f) && 1 <= lo <= hi <= |f|
    ensures Pool(Splice(f, lo, hi, c)) == Pool(f) - Between(f, lo, hi) + {c}
  {
    var r := Splice(f, lo, hi, c);
    forall x | x in Pool(r) ensures x in Pool(f) - Between(f, lo, hi) + {c} {
      var i :| 1 <= i < |r| && r[i] == x;
      if i != lo {
        var k := if i < lo then i else i - lo - 1 + hi;
        assert f[k] == x;
        NotBetween(f, lo, hi, k);
      }
    }
    forall x | x in Pool(f) - Between(f, lo, hi) ensures x in Pool(r) {
      var i :| 1 <= i < |f| && f[i] == x;
      var k := if i < lo then i else i - hi + lo + 1;
      assert r[k] == x;
    }
    assert r[lo] in Pool(r);
  }

  lemma NotBetween(f: seq<Block>, lo: nat, hi: nat, k: nat)
    requires Ordered(f) && lo <= hi <= |f| && k < |f| && (k < lo || hi <= k)
    ensures f[k] !in Between(f, lo, hi)
  {
    forall i | lo <= i < hi ensures f[i] != f[k] {
      assert if k < i then f[k].addr + f[k].size < f[i].addr else f[i].addr + f[i].size < f[k].addr;
    }
  }

  predicate JoinsUp(f: seq<Block>, g: nat, b: Block)
    requires g < |f|
  {
    g + 1 < |f| && b.addr + b.size == f[g + 1].addr
  }

  predicate JoinsDown(f: seq<Block>, g: nat, b: Block)
    requires g < |f|
  {
    f[g].addr + f[g].size == b.addr
  }

  /** `b` together with the free neighbours of gap `g` that it touches. */
  function Grown(f: seq<Block>, g: nat, b: Block): Block
    requires g < |f|
  {
    var start := if JoinsDown(f, g, b) then f[g].addr else b.addr;
    var end := if JoinsUp(f, g, b) then f[g + 1].addr + f[g + 1].size else b.addr + b.size;
    Block(start, end - start)
  }

  function Lo(f: seq<Block>, g: nat, b: Block): nat
    requires g < |f|
  {
    if JoinsDown(f, g, b) then g else g + 1
  }

  function Hi(f: seq<Block>, g: nat, b: Block): (h: nat)
    requires g < |f|
    ensures Lo(f, g, b) <= h <= |f|
  {
    if JoinsUp(f, g, b) then g + 2 else g + 1
  }

  /** The list after `free` links `b` in at gap `g`. */
  ghost function Insert(f: seq<Block>, g: nat, b: Block): seq<Block>
    requires g < |f|
  {
    Splice(f, Lo(f, g, b), Hi(f, g, b), Grown(f, g, b))
  }

  ghost predicate Fits(f: seq<Block>, g: nat, b: Block) {
    && IsGap(f, g, b.addr)
    && b.size >= 1
    && f[g].addr + f[g].size <= b.addr
    && (g + 1 < |f| ==> b.addr + b.size <= f[g + 1].addr)
  }

  lemma GrownCovers(f: seq<Block>, g: nat, b: Block, u: int)
    requires Ordered(f) && Fits(f, g, b)
    ensures InBlock(Grown(f, g, b), u)
       <==> InSome(Between(f, Lo(f, g, b), Hi(f, g, b)) + {b}, u)
  {
    var olds := Between(f, Lo(f, g, b), Hi(f, g, b)) + {b};
    assert InBlock(b, u) ==> b in olds && InSome(olds, u);
    if JoinsDown(f, g, b) {
      assert f[g] in olds;
    }
    if JoinsUp(f, g, b) {
      assert f[g + 1] in olds;
    }
  }

  lemma InsertKeeps(f: seq<Block>, g: nat, b: Block, live: set<Block>, core: set<int>)
    requires Ordered(f) && IsGap(f, g, b.addr) && b in live
    requires Pool(f) !! live && Tiles(Pool(f) + live, core)
    ensures Fits(f, g, b)
    ensures Ordered(Insert(f, g, b))
    ensures Pool(Insert(f, g, b)) !! (live - {b})
    ensures Tiles(Pool(Insert(f, g, b)) + (live - {b}), core)
  {
    assert g > 0 ==> f[g] in Pool(f) && Apart(f[g], b);
    assert g + 1 < |f| ==> f[g + 1] in Pool(f) && Apart(f[g + 1], b);
    var lo, hi, c := Lo(f, g, b), Hi(f, g, b), Grown(f, g, b);
    SpliceOrdered(f, lo, hi, c);
    SplicePool(f, lo, hi, c);
    InsertTiles(f, g, b, live, core);
  }

  lemma InsertTiles(f: seq<Block>, g: nat, b: Block, live: set<Block>, core: set<int>)
    requires Ordered(f) && Fits(f, g, b) && b in live
    requires Pool(f) !! live && Tiles(Pool(f) + live, core)
    ensures var lo, hi, c := Lo(f, g, b), Hi(f, g, b), Grown(f, g, b);
      var pool := Pool(f) - Between(f, lo, hi) + {c};
      pool !! (live - {b}) && Tiles(pool + (live - {b}), core)
  {
    var lo, hi, c := Lo(f, g, b), Hi(f, g, b), Grown(f, g, b);
    var olds := Between(f, lo, hi) + {b};
    assert lo >= 1;
    forall u ensures InSome({c}, u) <==> InSome(olds, u) {
      GrownCovers(f, g, b, u);
      assert InSome({c}, u) <==> InBlock(c, u);
    }
    assert Between(f, lo, hi) <= Pool(f);
    TilesReplace(Pool(f) + live, core, olds, {c});
    assert Pool(f) - Between(f, lo, hi) + {c} + (live - {b}) == Pool(f) + live - olds + {c};
  }

  ghost predicate SameUnits(f: seq<Block>, g: seq<Block>) {
    forall u :: InSome(Pool(f), u) <==> InSome(Pool(g), u)
  }

  /** An ordered list reaches no further than its last block. */
  lemma LastBlock(f: seq<Block>, u: int)
    requires Ordered(f) && |f| > 1
    ensures var z := f[|f| - 1];
      && (InSome(Pool(f), u) ==> u < z.addr + z.size)
      && (InBlock(z, u) ==> InSome(Pool(f), u))
      && !InSome(Pool(f), z.addr - 1)
      && (InSome(Pool(f), u) && u >= z.addr ==> InBlock(z, u))
  {
    var z := f[|f| - 1];
    assert z in Pool(f);
    forall b | b in Pool(f) ensures b == z || b.addr + b.size < z.addr {
      var i :| 1 <= i < |f| && f[i] == b;
      assert i < |f| - 1 ==> f[i].addr + f[i].size < z.addr;
    }
  }

  lemma LastPositive(f: seq<Block>)
    requires Ordered(f) && |f| > 1
    ensures f[|f| - 1].size >= 1
  {
  }

  lemma LastBlockSame(f: seq<Block>, g: seq<Block>)
    requires Ordered(f) && Ordered(g) && |f| > 1 && |g| > 1 && SameUnits(f, g)
    ensures f[|f| - 1] == g[|g| - 1]
  {
    hide Ordered, InSome, Pool;
    var y, z := f[|f| - 1], g[|g| - 1];
    LastPositive(f);
    LastPositive(g);
    LastBlock(f, y.addr + y.size - 1);
    LastBlock(g, y.addr + y.size - 1);
    LastBlock(f, z.addr + z.size - 1);
    LastBlock(g, z.addr + z.size - 1);
    LastBlock(f, z.addr);
    LastBlock(g, y.addr);
    assert InBlock(y, y.addr + y.size - 1) && InBlock(z, z.addr + z.size - 1);
    LastBlock(f, y.addr);
    LastBlock(g, z.addr);
    LastBlock(g, y.addr - 1);
    LastBlock(f, z.addr - 1);
  }

  ghost function ButLast(f: seq<Block>): (h: seq<Block>)
    requires |f| >= 1
    ensures |h| == |f| - 1 && f == h + [f[|f| - 1]]
    ensures forall i :: 0 <= i < |h| ==> h[i] == f[i]
  {
    f[..|f| - 1]
  }

  lemma ButLastUnits(f: seq<Block>, u: int)
    requires Ordered(f) && |f| > 1
    ensures InSome(Pool(ButLast(f)), u) <==> InSome(Pool(f), u) && !InBlock(f[|f| - 1], u)
  {
    var z, h := f[|f| - 1], ButLast(f);
    if InSome(Pool(h), u) {
      var b :| b in Pool(h) && InBlock(b, u);
      var i :| 1 <= i < |h| && h[i] == b;
      assert f[i] == b && b in Pool(f) && f[i].addr + f[i].size < z.addr;
    }
    if InSome(Pool(f), u) && !InBlock(z, u) {
      var b :| b in Pool(f) && InBlock(b, u);
      var i :| 1 <= i < |f| && f[i] == b;
      assert h[i] == b && b in Pool(h);
    }
  }

  lemma NoUnits(f: seq<Block>, g: seq<Block>)
    requires Ordered(f) && Ordered(g) && SameUnits(f, g) && |g| == 1
    ensures |f| == 1
  {
    forall u ensures !InSome(Pool(f), u) {
      assert !InSome(Pool(g), u);
    }
    if |f| > 1 {
      LastBlock(f, f[|f| - 1].addr);
    }
  }

  /** The free list is canonical: the free units alone determine every block and its place. */
  lemma {:induction false} ListIsCanonical(f: seq<Block>, g: seq<Block>)
    requires Ordered(f) && Ordered(g) && f[0] == g[0] && SameUnits(f, g)
    ensures f == g
    decreases |f|
  {
    if |g| == 1 {
      NoUnits(f, g);
    } else if |f| == 1 {
      NoUnits(g, f);
    } else {
      LastBlockSame(f, g);
      var f', g' := ButLast(f), ButLast(g);
      forall u ensures InSome(Pool(f'), u) <==> InSome(Pool(g'), u) {
        ButLastUnits(f, u);
        ButLastUnits(g, u);
      }
      ListIsCanonical(f', g');
    }
  }

  /** `free` yields the only ordered list that covers the old free units and the block freed. */
  lemma InsertIsCanonical(f: seq<Block>, g: nat, b: Block, h: seq<Block>)
    requires Ordered(f) && Fits(f, g, b) && Ordered(h) && h[0] == f[0]
    requires forall u :: InSome(Pool(h), u) <==> InSome(Pool(f), u) || InBlock(b, u)
    ensures h == Insert(f, g, b)
  {
    var r := Insert(f, g, b);
    var lo, hi, c := Lo(f, g, b), Hi(f, g, b), Grown(f, g, b);
    SpliceOrdered(f, lo, hi, c);
    SplicePool(f, lo, hi, c);
    forall u ensures InSome(Pool(r), u) <==> InSome(Pool(h), u) {
      GrownCovers(f, g, b, u);
      InsertUnits(Pool(f), Between(f, lo, hi), b, c, u);
    }
    ListIsCanonical(h, r);
  }

  lemma InsertUnits(pool: set<Block>, joined: set<Block>, b: Block, c: Block, u: int)
    requires joined <= pool && (InBlock(c, u) <==> InSome(joined + {b}, u))
    ensures InSome(pool - joined + {c}, u) <==> InSome(pool, u) || InBlock(b, u)
  {
    if InSome(pool, u) {
      var x :| x in pool && InBlock(x, u);
      if x in joined {
        assert x in joined + {b} && c in pool - joined + {c};
      } else {
        assert x in pool - joined + {c};
      }
    }
    if InBlock(b, u) {
      assert b in joined + {b} && c in pool - joined + {c};
    }
    if InSome(pool - joined + {c}, u) && !InBlock(b, u) {
      var x :| x in pool - joined + {c} && InBlock(x, u);
      if x == c {
        var y :| y in joined + {b} && InBlock(y, u);
        assert y in pool;
      } else {
        assert x in pool;
      }
    }
  }

  // ------------------------------------------------------------- headers

  datatype Header = Header(ptr: int, size: int)

  type Memory = map<int, Header>

  ghost predicate LinkAt(f: seq<Block>, mem: Memory, i: int)
    requires 0 <= i < |f|
  {
    f[i].addr in mem && mem[f[i].addr] == Header(f[Next(i, |f|)].addr, f[i].size)
  }

  ghost predicate Linked(f: seq<Block>, mem: Memory) {
    forall i {:trigger LinkAt(f, mem, i)} :: 0 <= i < |f| ==> LinkAt(f, mem, i)
  }

  /** The header writes of `free` once the gap is known: first upwards, then downwards. */
  function Link(mem: Memory, p: int, bp: int): Memory
    requires p in mem && bp in mem && mem[p].ptr in mem
  {
    var q := mem[p].ptr;
    var m1 := if bp + mem[bp].size == q
              then mem[bp := Header(mem[q].ptr, mem[bp].size + mem[q].size)]
              else mem[bp := Header(q, mem[bp].size)];
    if p + m1[p].size == bp
    then m1[p := Header(m1[bp].ptr, m1[p].size + m1[bp].size)]
    else m1[p := Header(bp, m1[p].size)]
  }

  /** Where a list that loses lo..hi continues after the hole. */
  function After(f: seq<Block>, hi: nat): int
    requires 1 <= |f|
  {
    if hi < |f| then f[hi].addr else f[0].addr
  }

  lemma LinkedSplice(f: seq<Block>, mem: Memory, m: Memory, lo: nat, hi: nat, c: Block)
    requires Ordered(f) && Linked(f, mem) && 1 <= lo <= hi <= |f|
    requires c.addr in m && m[c.addr] == Header(After(f, hi), c.size)
    requires f[lo - 1].addr in m && m[f[lo - 1].addr] == Header(c.addr, f[lo - 1].size)
    requires forall i :: 0 <= i < |f| && (i < lo - 1 || hi <= i) ==>
      f[i].addr in mem && f[i].addr in m && m[f[i].addr] == mem[f[i].addr]
    ensures Linked(Splice(f, lo, hi, c), m)
  {
    var r := Splice(f, lo, hi, c);
    forall i | 0 <= i < |r| ensures LinkAt(r, m, i) {
      if i < lo - 1 {
        assert LinkAt(f, mem, i);
        assert r[i] == f[i] && r[i + 1] == f[i + 1];
      } else if i == lo - 1 {
        assert r[i] == f[i] && r[i + 1] == c;
      } else if i == lo {
        assert hi < |f| ==> r[lo + 1] == f[hi];
      } else {
        var k := i - lo - 1 + hi;
        assert LinkAt(f, mem, k);
        assert r[i] == f[k];
        assert k + 1 < |f| ==> r[i + 1] == f[k + 1];
      }
    }
  }

  lemma LinkEntries(f: seq<Block>, mem: Memory, g: nat, b: Block)
    requires Ordered(f) && Linked(f, mem) && Fits(f, g, b)
    requires b.addr in mem && mem[b.addr].size == b.size
    ensures f[g].addr in mem && mem[f[g].addr].ptr in mem
    ensures var m, c := Link(mem, f[g].addr, b.addr), Grown(f, g, b);
      && (forall a :: a in mem ==> a in m)
      && (forall a :: a in mem && a != f[g].addr && a != b.addr ==> m[a] == mem[a])
      && c.addr in m
      && m[c.addr] == Header(After(f, Hi(f, g, b)), c.size)
      && (!JoinsDown(f, g, b) ==> m[f[g].addr] == Header(b.addr, f[g].size))
  {
    var q := Next(g, |f|);
    assert LinkAt(f, mem, g) && LinkAt(f, mem, q);
    assert q > 0 ==> Next(q, |f|) == if g + 2 < |f| then g + 2 else 0;
    assert JoinsUp(f, g, b) <==> b.addr + b.size == f[q].addr;
  }

  lemma LinkKeeps(f: seq<Block>, mem: Memory, g: nat, b: Block)
    requires Ordered(f) && Linked(f, mem) && Fits(f, g, b)
    requires b.addr in mem && mem[b.addr].size == b.size
    ensures f[g].addr in mem && mem[f[g].addr].ptr in mem
    ensures Linked(Insert(f, g, b), Link(mem, f[g].addr, b.addr))
  {
    LinkEntries(f, mem, g, b);
    var lo, hi, c := Lo(f, g, b), Hi(f, g, b), Grown(f, g, b);
    var m := Link(mem, f[g].addr, b.addr);
    forall i | 0 <= i < |f| && (i < g || hi <= i)
      ensures f[i].addr in mem && f[i].addr in m && m[f[i].addr] == mem[f[i].addr]
    {
      assert LinkAt(f, mem, i);
      assert f[i].addr != b.addr by {
        if i < g {
          assert f[i].addr + f[i].size < f[g].addr;
        }
      }
    }
    if JoinsDown(f, g, b) {
      assert LinkAt(f, mem, g - 1);
    }
    LinkedSplice(f, mem, m, lo, hi, c);
  }

  // ------------------------------------------------- taking memory from a block

  ghost function Drop(f: seq<Block>, k: nat): (r: seq<Block>)
    requires k < |f|
    ensures |r| == |f| - 1
    ensures forall i :: 0 <= i < k ==> r[i] == f[i]
    ensures forall i :: k <= i < |r| ==> r[i] == f[i + 1]
  {
    f[..k] + f[k + 1..]
  }

  /** The list after `malloc` takes the last n units of block k. */
  ghost function Carve(f: seq<Block>, k: nat, n: int): seq<Block>
    requires k < |f|
  {
    if f[k].size == n then Drop(f, k)
    else Splice(f, k, k + 1, Block(f[k].addr, f[k].size - n))
  }

  function Piece(b: Block, n: int): Block {
    Block(b.addr + b.size - n, n)
  }

  lemma DropOrdered(f: seq<Block>, k: nat)
    requires Ordered(f) && 1 <= k < |f|
    ensures Ordered(Drop(f, k))
  {
    var r := Drop(f, k);
    forall i, j | 0 <= i < j < |r| ensures r[i].addr + r[i].size < r[j].addr {
      var i', j' := if i < k then i else i + 1, if j < k then j else j + 1;
      assert r[i] == f[i'] && r[j] == f[j'];
    }
  }

  lemma DropKeepsOthers(f: seq<Block>, k: nat, x: Block)
    requires 1 <= k < |f| && x in Pool(f) && x != f[k]
    ensures x in Pool(Drop(f, k))
  {
    var r := Drop(f, k);
    var i :| 1 <= i < |f| && f[i] == x;
    var i' := if i < k then i else i - 1;
    assert r[i'] == x;
  }

  lemma DropTakesOne(f: seq<Block>, k: nat, x: Block)
    requires Ordered(f) && 1 <= k < |f| && x in Pool(Drop(f, k))
    ensures x in Pool(f) && x != f[k]
  {
    var r := Drop(f, k);
    var i :| 1 <= i < |r| && r[i] == x;
    var i' := if i < k then i else i + 1;
    assert f[i'] == x && (i' < k || k < i');
    assert if i' < k then f[i'].addr + f[i'].size < f[k].addr else f[k].addr + f[k].size < f[i'].addr;
  }

  lemma DropPool(f: seq<Block>, k: nat)
    requires Ordered(f) && 1 <= k < |f|
    ensures Pool(Drop(f, k)) == Pool(f) - {f[k]}
  {
    hide Pool, Drop, Ordered;
    forall x | x in Pool(f) - {f[k]} ensures x in Pool(Drop(f, k)) {
      DropKeepsOthers(f, k, x);
    }
    forall x | x in Pool(Drop(f, k)) ensures x in Pool(f) - {f[k]} {
      DropTakesOne(f, k, x);
    }
  }

  lemma CarveOrdered(f: seq<Block>, k: nat, n: int)
    requires Ordered(f) && 1 <= k < |f| && 1 <= n <= f[k].size
    ensures Ordered(Carve(f, k, n))
  {
    if f[k].size == n {
      DropOrdered(f, k);
    } else {
      assert k + 1 < |f| ==> f[k].addr + f[k].size < f[k + 1].addr;
      SpliceOrdered(f, k, k + 1, Block(f[k].addr, f[k].size - n));
    }
  }

  lemma CarvePool(f: seq<Block>, k: nat, n: int)
    requires Ordered(f) && 1 <= k < |f| && 1 <= n <= f[k].size
    ensures Pool(Carve(f, k, n))
         == Pool(f) - {f[k]} + (if f[k].size == n then {} else {Block(f[k].addr, f[k].size - n)})
  {
    if f[k].size == n {
      DropPool(f, k);
    } else {
      SplicePool(f, k, k + 1, Block(f[k].addr, f[k].size - n));
      assert Between(f, k, k + 1) == {f[k]} by {
        assert f[k] in Between(f, k, k + 1);
      }
    }
  }

  lemma CarveKeeps(f: seq<Block>, k: nat, n: int, live: set<Block>, core: set<int>)
    requires Ordered(f) && 1 <= k < |f| && 1 <= n <= f[k].size
    requires Pool(f) !! live && Tiles(Pool(f) + live, core)
    ensures var p := Piece(f[k], n);
      && p !in live
      && Ordered(Carve(f, k, n))
      && Pool(Carve(f, k, n)) !! (live + {p})
      && Tiles(Pool(Carve(f, k, n)) + (live + {p}), core)
  {
    CarveOrdered(f, k, n);
    CarvePool(f, k, n);
    var p, b := Piece(f[k], n), f[k];
    var rest := if b.size == n then {} else {Block(b.addr, b.size - n)};
    assert b in Pool(f);
    forall u ensures InSome(rest + {p}, u) <==> InSome({b}, u) {
      assert InSome({b}, u) <==> InBlock(b, u);
      assert p in rest + {p};
      assert b.size != n ==> Block(b.addr, b.size - n) in rest + {p};
    }
    TilesReplace(Pool(f) + live, core, {b}, rest + {p});
    assert Pool(f) + live - {b} + (rest + {p}) == (Pool(f) - {b} + rest) + (live + {p});
  }

  /** The header writes of `malloc` when block p, found after prevp, is large enough. */
  function Take(mem: Memory, prevp: int, p: int, n: int): Memory
    requires p in mem && prevp in mem
  {
    if mem[p].size == n then mem[prevp := Header(mem[p].ptr, mem[prevp].size)]
    else
      var m := mem[p := Header(mem[p].ptr, mem[p].size - n)];
      var q := p + m[p].size;
      m[q := Header(if q in m then m[q].ptr else 0, n)]
  }

  lemma DropLinked(f: seq<Block>, mem: Memory, m: Memory, k: nat)
    requires Ordered(f) && Linked(f, mem) && 1 <= k < |f|
    requires f[k - 1].addr in m && m[f[k - 1].addr] == Header(After(f, k + 1), f[k - 1].size)
    requires forall i :: 0 <= i < |f| && (i < k - 1 || k + 1 <= i) ==>
      f[i].addr in mem && f[i].addr in m && m[f[i].addr] == mem[f[i].addr]
    ensures Linked(Drop(f, k), m)
  {
    var r := Drop(f, k);
    forall i | 0 <= i < |r| ensures LinkAt(r, m, i) {
      if i < k - 1 {
        assert LinkAt(f, mem, i);
        assert r[i] == f[i] && r[i + 1] == f[i + 1];
      } else if i == k - 1 {
        assert i + 1 < |r| ==> r[i + 1] == f[k + 1];
      } else {
        assert LinkAt(f, mem, i + 1);
        assert r[i] == f[i + 1];
        assert i + 1 < |r| ==> r[i + 1] == f[i + 2];
      }
    }
  }

  lemma TakeFrame(mem: Memory, prevp: int, p: int, n: int)
    requires p in mem && prevp in mem && prevp != p && 1 <= n <= mem[p].size
    ensures var m, q := Take(mem, prevp, p, n), Piece(Block(p, mem[p].size), n);
      && q.addr in m && m[q.addr].size == n
      && forall a :: a in mem && a != prevp && !InBlock(Block(p, mem[p].size), a) ==> a in m && m[a] == mem[a]
  {
  }

  lemma TakeKeeps(f: seq<Block>, mem: Memory, k: nat, n: int)
    requires Ordered(f) && Linked(f, mem) && 1 <= k < |f| && 1 <= n <= f[k].size
    ensures f[k - 1].addr in mem && f[k].addr in mem
    ensures Linked(Carve(f, k, n), Take(mem, f[k - 1].addr, f[k].addr, n))
  {
    assert LinkAt(f, mem, k - 1) && LinkAt(f, mem, k);
    var m := Take(mem, f[k - 1].addr, f[k].addr, n);
    forall i | 0 <= i < |f| && (i < k - 1 || k + 1 <= i)
      ensures f[i].addr in mem && f[i].addr in m && m[f[i].addr] == mem[f[i].addr]
    {
      assert LinkAt(f, mem, i);
      TakeFrame(mem, f[k - 1].addr, f[k].addr, n);
      if i < k - 1 {
        assert f[i].addr + f[i].size < f[k - 1].addr;
      } else {
        assert f[k].addr + f[k].size < f[i].addr;
      }
    }
    if f[k].size == n {
      DropLinked(f, mem, m, k);
    } else {
      LinkedSplice(f, mem, m, k, k + 1, Block(f[k].addr, f[k].size - n));
    }
  }

  // ------------------------------------------------------ sizes in 32 bits

  /** umalloc.c line 69 in unsigned 32-bit arithmetic. */
  function Nunits(nbytes: nat): nat {
    (nbytes + HEADER_BYTES - 1) % UINT_LIMIT / HEADER_BYTES + 1
  }

  function CoreUnits(nu: nat): nat {
    if nu < MIN_CORE then MIN_CORE else nu
  }

  /** The int that sbrk receives for `nu * sizeof(Header)`. */
  function SbrkArgument(nu: nat): int {
    var x := nu * HEADER_BYTES % UINT_LIMIT;
    if x < UINT_LIMIT / 2 then x else x - UINT_LIMIT
  }

  const MAX_REQUEST := 0x7FFF_FFF0

  /** The unit count holds the request and sbrk is asked for all of it, exactly up to MAX_REQUEST. */
  lemma RequestExact(nbytes: nat)
    requires nbytes < UINT_LIMIT
    ensures nbytes <= MAX_REQUEST ==> nbytes <= (Nunits(nbytes) - 1) * 8 < nbytes + 8
    ensures CoreUnits(Nunits(nbytes)) >= 4096 && (CoreUnits(Nunits(nbytes)) > 4096 ==> CoreUnits(Nunits(nbytes)) == Nunits(nbytes))
    ensures (&& (Nunits(nbytes) - 1) * HEADER_BYTES >= nbytes
             && SbrkArgument(CoreUnits(Nunits(nbytes))) == CoreUnits(Nunits(nbytes)) * HEADER_BYTES)
       <==> nbytes <= MAX_REQUEST
  {
    if nbytes <= MAX_REQUEST {
      assert Nunits(nbytes) < 0x1000_0000;
    } else if nbytes + HEADER_BYTES - 1 < UINT_LIMIT {
      assert Nunits(nbytes) >= 0x1000_0000;
    }
  }

  // ---------------------------------------------------------- the allocator

  /** Position t steps after s on a circular list of length n. */
  function Around(s: nat, t: nat, n: nat): nat
    requires s < n && t <= n
  {
    if s + t < n then s + t else s + t - n
  }

  /** The whole-heap invariant; `freep == 0` is the state before the first `malloc`. */
  ghost predicate HeapOk(base: int, brk: int, mem: Memory, freep: int,
                         f: seq<Block>, live: set<Block>, core: set<int>)
  {
    && 0 < base < brk
    && (freep == 0 ==> f == [] && live == {} && core == {})
    && (freep != 0 ==> Ordered(f) && f[0].addr == base && Linked(f, mem) && OnList(f, freep))
    && Pool(f) !! live
    && Tiles(Pool(f) + live, core)
    && (forall b :: b in live ==> b.addr in mem && mem[b.addr].size == b.size)
    && (forall u :: u in core ==> base < u < brk)
  }

  ghost predicate OnList(f: seq<Block>, a: int) {
    exists i :: 0 <= i < |f| && f[i].addr == a
  }

  lemma LiveBlock(base: int, brk: int, mem: Memory, freep: int,
                  f: seq<Block>, live: set<Block>, core: set<int>, b: Block)
    requires HeapOk(base, brk, mem, freep, f, live, core) && b in live
    ensures freep != 0 && b.size >= 1 && base < b.addr && b.addr + b.size <= brk
    ensures forall i :: 0 <= i < |f| ==> f[i].addr != b.addr
    ensures forall c :: c in live && c != b ==> c.addr != b.addr
  {
    assert InBlock(b, b.addr) && InBlock(b, b.addr + b.size - 1);
    assert InSome(Pool(f) + live, b.addr) && InSome(Pool(f) + live, b.addr + b.size - 1);
    forall i | 1 <= i < |f| ensures f[i].addr != b.addr {
      assert f[i] in Pool(f) && Apart(f[i], b);
    }
  }

  /** The two tests of the search loop of `free` together recognise the gap. */
  lemma GapTest(f: seq<Block>, mem: Memory, i: nat, bp: int)
    requires Ordered(f) && Linked(f, mem) && f[0].addr < bp && i < |f| && f[i].addr != bp
    ensures var p := f[i].addr;
      && p in mem
      && mem[p].ptr == f[Next(i, |f|)].addr
      && (IsGap(f, i, bp) <==>
            (bp > p && bp < mem[p].ptr) || (p >= mem[p].ptr && (bp > p || bp < mem[p].ptr)))
  {
    assert LinkAt(f, mem, i);
    assert i + 1 < |f| ==> f[i].addr + f[i].size < f[i + 1].addr;
    assert i > 0 ==> f[0].addr + f[0].size < f[i].addr;
  }

  /** The search loop of `free`: it finds the one gap for bp within a single lap. */
  method FindGap(ghost f: seq<Block>, mem: Memory, freep: int, bp: int)
    returns (p: int, ghost g: nat, ghost steps: nat)
    requires Ordered(f) && Linked(f, mem) && OnList(f, freep)
    requires f[0].addr < bp && forall i :: 0 <= i < |f| ==> f[i].addr != bp
    ensures IsGap(f, g, bp) && p == f[g].addr && steps < |f|
  {
    g := GapExists(f, bp);
    p, steps := freep, 0;
    ghost var i :| 0 <= i < |f| && f[i].addr == freep;
    GapTest(f, mem, i, bp);
    while !(bp > p && bp < mem[p].ptr)
      invariant 0 <= i < |f| && p == f[i].addr && p in mem
      invariant mem[p].ptr == f[Next(i, |f|)].addr
      invariant IsGap(f, i, bp) <==>
            (bp > p && bp < mem[p].ptr) || (p >= mem[p].ptr && (bp > p || bp < mem[p].ptr))
      invariant steps + (if i <= g then g - i else g - i + |f|) < |f|
      decreases if i <= g then g - i else g - i + |f|
    {
      if p >= mem[p].ptr && (bp > p || bp < mem[p].ptr) {
        break;
      }
      p := mem[p].ptr;
      i := Next(i, |f|);
      steps := steps + 1;
      GapTest(f, mem, i, bp);
    }
    assert i == g;
  }

  lemma FreeKeeps(base: int, brk: int, mem: Memory, freep: int,
                  f: seq<Block>, live: set<Block>, core: set<int>, g: nat, b: Block)
    requires HeapOk(base, brk, mem, freep, f, live, core) && b in live
    requires IsGap(f, g, b.addr)
    ensures freep != 0 && f[g].addr in mem && mem[f[g].addr].ptr in mem
    ensures HeapOk(base, brk, Link(mem, f[g].addr, b.addr), f[g].addr, Insert(f, g, b), live - {b}, core)
    ensures g < |Insert(f, g, b)| && Insert(f, g, b)[g].addr == f[g].addr
    ensures Untouched(live - {b}, mem, Link(mem, f[g].addr, b.addr))
  {
    LiveBlock(base, brk, mem, freep, f, live, core, b);
    InsertKeeps(f, g, b, live, core);
    LinkKeeps(f, mem, g, b);
    LinkEntries(f, mem, g, b);
    var m := Link(mem, f[g].addr, b.addr);
    forall c | c in live - {b} ensures c.addr in m && m[c.addr].size == c.size {
      LiveBlock(base, brk, mem, freep, f, live, core, c);
    }
    assert Insert(f, g, b)[0] == f[0];
    FreeUntouched(base, brk, mem, freep, f, live, core, g, b);
  }

  method LinkIn(mem: Memory, p: int, bp: int) returns (m: Memory)
    requires p in mem && bp in mem && mem[p].ptr in mem
    ensures m == Link(mem, p, bp)
  {
    m := mem;
    if bp + m[bp].size == m[p].ptr {
      m := m[bp := Header(m[m[p].ptr].ptr, m[bp].size + m[m[p].ptr].size)];
    } else {
      m := m[bp := Header(m[p].ptr, m[bp].size)];
    }
    if p + m[p].size == bp {
      m := m[p := Header(m[bp].ptr, m[p].size + m[bp].size)];
    } else {
      m := m[p := Header(bp, m[p].size)];
    }
  }

  /** What is stored anywhere in the given blocks is the same in m and m'. */
  ghost predicate Untouched(bs: set<Block>, m: Memory, m': Memory) {
    forall b, u :: b in bs && InBlock(b, u) ==>
      (u in m <==> u in m') && (u in m ==> m'[u] == m[u])
  }

  lemma UntouchedTwice(bs: set<Block>, m0: Memory, m1: Memory, m2: Memory)
    requires Untouched(bs, m0, m1) && Untouched(bs, m1, m2)
    ensures Untouched(bs, m0, m2)
  {
  }

  /** A unit inside a live block is no free block's header and lies in no free block. */
  lemma LiveUnit(base: int, brk: int, mem: Memory, freep: int,
                 f: seq<Block>, live: set<Block>, core: set<int>, b: Block, u: int)
    requires HeapOk(base, brk, mem, freep, f, live, core) && b in live && InBlock(b, u)
    ensures base < u < brk
    ensures forall i :: 0 <= i < |f| ==> f[i].addr != u && !InBlock(f[i], u)
    ensures forall c :: c in live && c != b ==> !InBlock(c, u)
  {
    assert InSome(Pool(f) + live, u);
    forall i | 1 <= i < |f| ensures f[i].addr != u && !InBlock(f[i], u) {
      assert f[i] in Pool(f) && Apart(f[i], b);
    }
    forall c | c in live && c != b ensures !InBlock(c, u) {
      assert Apart(c, b);
    }
  }

  lemma TakeUntouched(base: int, brk: int, mem: Memory, freep: int,
                      f: seq<Block>, live: set<Block>, core: set<int>, k: nat, n: int)
    requires HeapOk(base, brk, mem, freep, f, live, core) && freep != 0
    requires 1 <= k < |f| && 1 <= n <= f[k].size
    requires f[k - 1].addr in mem && f[k].addr in mem && mem[f[k].addr].size == f[k].size
    ensures Untouched(live, mem, Take(mem, f[k - 1].addr, f[k].addr, n))
  {
    forall b, u | b in live && InBlock(b, u)
      ensures u != f[k - 1].addr && !InBlock(f[k], u)
    {
      LiveUnit(base, brk, mem, freep, f, live, core, b, u);
    }
  }

  lemma FreeUntouched(base: int, brk: int, mem: Memory, freep: int,
                      f: seq<Block>, live: set<Block>, core: set<int>, g: nat, b: Block)
    requires HeapOk(base, brk, mem, freep, f, live, core) && b in live
    requires g < |f| && f[g].addr in mem && b.addr in mem && mem[f[g].addr].ptr in mem
    ensures Untouched(live - {b}, mem, Link(mem, f[g].addr, b.addr))
  {
    forall c, u | c in live - {b} && InBlock(c, u)
      ensures u != f[g].addr && u != b.addr
    {
      LiveUnit(base, brk, mem, freep, f, live, core, c, u);
      assert b.size >= 1 && InBlock(b, b.addr);
    }
  }

  lemma MallocKeeps(base: int, brk: int, mem: Memory, freep: int,
                    f: seq<Block>, live: set<Block>, core: set<int>, k: nat, n: int)
    requires HeapOk(base, brk, mem, freep, f, live, core) && freep != 0
    requires 1 <= k < |f| && 1 <= n <= f[k].size
    ensures f[k - 1].addr in mem && f[k].addr in mem && f[k - 1].addr != 0
    ensures HeapOk(base, brk, Take(mem, f[k - 1].addr, f[k].addr, n), f[k - 1].addr,
                   Carve(f, k, n), live + {Piece(f[k], n)}, core)
    ensures Piece(f[k], n) !in live && Piece(f[k], n).addr > 0
    ensures Untouched(live, mem, Take(mem, f[k - 1].addr, f[k].addr, n))
  {
    CarveKeeps(f, k, n, live, core);
    TakeKeeps(f, mem, k, n);
    assert LinkAt(f, mem, k);
    TakeFrame(mem, f[k - 1].addr, f[k].addr, n);
    var m := Take(mem, f[k - 1].addr, f[k].addr, n);
    assert f[k] in Pool(f);
    forall c | c in live ensures c.addr in m && m[c.addr].size == c.size {
      LiveBlock(base, brk, mem, freep, f, live, core, c);
      assert Apart(f[k], c);
    }
    assert Carve(f, k, n)[k - 1] == f[k - 1] && Carve(f, k, n)[0] == f[0];
    TakeUntouched(base, brk, mem, freep, f, live, core, k, n);
    assert k > 1 ==> f[0].addr + f[0].size < f[k - 1].addr;
    assert f[0].addr + f[0].size < f[k].addr;
  }

  lemma GrowLinked(base: int, brk: int, mem: Memory, freep: int,
                   f: seq<Block>, live: set<Block>, core: set<int>, a: int, h: Header)
    requires HeapOk(base, brk, mem, freep, f, live, core) && freep != 0 && brk <= a
    ensures Linked(f, mem[a := h])
    ensures Untouched(live, mem, mem[a := h])
  {
    var m := mem[a := h];
    forall i | 0 <= i < |f| ensures LinkAt(f, m, i) {
      assert LinkAt(f, mem, i);
      if i > 0 {
        assert f[i] in Pool(f) && InBlock(f[i], f[i].addr);
        assert InSome(Pool(f) + live, f[i].addr);
      }
    }
    forall c, u | c in live && InBlock(c, u) ensures u < brk {
      LiveUnit(base, brk, mem, freep, f, live, core, c, u);
    }
  }

  lemma GrowKeeps(base: int, brk: int, mem: Memory, freep: int,
                  f: seq<Block>, live: set<Block>, core: set<int>, nb: Block, h: Header)
    requires HeapOk(base, brk, mem, freep, f, live, core) && freep != 0
    requires brk <= nb.addr && nb.size >= 1 && h.size == nb.size
    ensures HeapOk(base, nb.addr + nb.size, mem[nb.addr := h], freep, f, live + {nb}, core + Interval(nb))
    ensures nb !in live && Untouched(live, mem, mem[nb.addr := h])
  {
    hide Linked, Ordered, Pool, Untouched, InSome, Tiles;
    assert Tiles(Pool(f) + live, core);
    GrowLinked(base, brk, mem, freep, f, live, core, nb.addr, h);
    TilesExtend(Pool(f) + live, core, nb);
    assert Pool(f) + live + {nb} == Pool(f) + (live + {nb});
    forall c | c in live ensures c.addr < brk {
      LiveBlock(base, brk, mem, freep, f, live, core, c);
    }
  }

  /** Some block at distance d..n from position s holds at least `size` units. */
  ghost predicate FitAhead(f: seq<Block>, s: nat, d: nat, size: int)
    requires s < |f|
  {
    exists t :: d <= t <= |f| && f[Around(s, t, |f|)].size >= size
  }

  /** No block at distance less than d from position s holds `size` units. */
  ghost predicate NoneBehind(f: seq<Block>, s: nat, d: nat, size: int)
    requires s < |f| && d <= |f| + 1
  {
    forall t :: 1 <= t < d ==> f[Around(s, t, |f|)].size < size
  }

  /** After new core is freed, `freep` or the block it links to is large enough. */
  lemma InsertFits(f: seq<Block>, g: nat, b: Block, size: int)
    requires Ordered(f) && Fits(f, g, b) && size <= b.size
    ensures g < |Insert(f, g, b)| && FitAhead(Insert(f, g, b), g, 1, size)
  {
    var r := Insert(f, g, b);
    assert r[Lo(f, g, b)] == Grown(f, g, b);
    if JoinsDown(f, g, b) {
      assert Around(g, |r|, |r|) == g;
    } else {
      assert Around(g, 1, |r|) == g + 1;
    }
  }

  ghost predicate NoFit(pool: set<Block>, size: int) {
    forall b :: b in pool ==> b.size < size
  }

  lemma NoneYet(f: seq<Block>, s: nat, size: int)
    requires s < |f|
    ensures NoneBehind(f, s, 1, size)
  {
  }

  lemma StepOn(f: seq<Block>, s: nat, d: nat, size: int)
    requires s < |f| && d < |f| && f[Around(s, d, |f|)].size < size
    ensures NoneBehind(f, s, d, size) ==> NoneBehind(f, s, d + 1, size)
    ensures FitAhead(f, s, d, size) ==> FitAhead(f, s, d + 1, size)
  {
    if FitAhead(f, s, d, size) {
      var t :| d <= t <= |f| && f[Around(s, t, |f|)].size >= size;
      assert t != d;
    }
  }

  lemma FullLap(f: seq<Block>, s: nat, d: nat, size: int)
    requires s < |f| && d == |f| && f[s].size < size
    ensures NoneBehind(f, s, d, size) ==> NoFit(Pool(f), size)
    ensures !FitAhead(f, s, d, size)
  {
    assert Around(s, d, |f|) == s;
    if NoneBehind(f, s, d, size) {
      forall i | 1 <= i < |f| ensures f[i].size < size {
        var t := if i >= s then i - s else i - s + |f|;
        assert Around(s, t, |f|) == i;
      }
    }
  }

  lemma FitFound(f: seq<Block>, k: nat, size: int)
    requires 1 <= k < |f| && f[k].size >= size
    ensures !NoFit(Pool(f), size)
  {
    assert f[k] in Pool(f);
  }

  lemma InitKeeps(base: int, brk: int, mem: Memory, f: seq<Block>, live: set<Block>, core: set<int>)
    requires HeapOk(base, brk, mem, 0, f, live, core)
    ensures HeapOk(base, brk, mem[base := Header(base, 0)], base, [Block(base, 0)], live, core)
    ensures Pool([Block(base, 0)]) == Pool(f) == {}
    ensures live == {}
  {
    var g := [Block(base, 0)];
    assert LinkAt(g, mem[base := Header(base, 0)], 0);
    assert Pool(g) == {} && Pool(f) == {};
    assert g[0].addr == base;
  }

  lemma ListIndex(base: int, brk: int, mem: Memory, freep: int,
                  f: seq<Block>, live: set<Block>, core: set<int>) returns (s: nat)
    requires HeapOk(base, brk, mem, freep, f, live, core) && freep != 0
    ensures s < |f| && f[s].addr == freep && Ordered(f)
  {
    s :| s < |f| && f[s].addr == freep;
  }

  lemma LinkFacts(base: int, brk: int, mem: Memory, freep: int,
                  f: seq<Block>, live: set<Block>, core: set<int>, i: nat)
    requires HeapOk(base, brk, mem, freep, f, live, core) && freep != 0 && i < |f|
    ensures f[i].addr in mem && mem[f[i].addr] == Header(f[Next(i, |f|)].addr, f[i].size)
    ensures f[i].size >= 1 ==> i >= 1
  {
    assert LinkAt(f, mem, i);
  }

  lemma SamePlace(base: int, brk: int, mem: Memory, freep: int,
                  f: seq<Block>, live: set<Block>, core: set<int>, i: nat, j: nat)
    requires HeapOk(base, brk, mem, freep, f, live, core) && freep != 0 && i < |f| && j < |f|
    requires f[i].addr == f[j].addr
    ensures i == j
  {
  }

  /** The program gets a block, gives back the k-th block it holds, or stores into a unit of it. */
  datatype Request = Get(nbytes: nat) | Put(k: nat) | Store(k: nat, at: nat, h: Header)

  /** What the program has stored, by unit, in a block of so many units. */
  datatype Cell = Cell(units: int, data: map<nat, Header>)

  /** What each block held after the requests has had stored in it, if these gets were granted. */
  function Stored(requests: seq<Request>, granted: seq<bool>): (cells: seq<Cell>)
    requires |granted| == |requests|
  {
    if requests == [] then []
    else
      var n := |requests| - 1;
      Answered(Stored(requests[..n], granted[..n]), requests[n], granted[n])
  }

  function Answered(cells: seq<Cell>, q: Request, granted: bool): seq<Cell> {
    match q
    case Get(nbytes) => if granted then cells + [Cell(Nunits(nbytes), map[])] else cells
    case Put(k) => if k < |cells| then Without(cells, k) else cells
    case Store(k, at, h) =>
      if k < |cells| && at + 1 < cells[k].units
      then cells[k := cells[k].(data := cells[k].data[at := h])]
      else cells
  }

  /** The heap, the pointers and blocks the program holds, and how often `sbrk` has been called. */
  datatype HeapState = HeapState(mem: Memory, freep: int, brk: int, free: seq<Block>, live: set<Block>, core: set<int>,
                                 sbrks: nat, held: seq<int>, blocks: seq<Block>)

  ghost predicate StateOk(base: int, s: HeapState) {
    HeapOk(base, s.brk, s.mem, s.freep, s.free, s.live, s.core) && Held(s.held, s.blocks, s.live, 1)
  }

  /** A block that was not live is granted, with new core exactly if nothing fits; or nothing fits and
      `sbrk` has refused. */
  ghost predicate GotBy(s: HeapState, n: nat, granted: bool, s': HeapState) {
    && Untouched(s.live, s.mem, s'.mem)
    && (granted ==>
          && |s'.held| == |s.held| + 1 && s'.held == s.held + [s'.held[|s.held|]]
          && var b := Block(s'.held[|s.held|] - 1, n);
             b !in s.live && s'.live == s.live + {b} && s'.blocks == s.blocks + [b])
    && (!granted ==> NoFit(Pool(s.free), n) && s'.live == s.live && s'.core == s.core && s'.held == s.held && s'.blocks == s.blocks)
    && (if NoFit(Pool(s.free), n) then s'.sbrks == s.sbrks + 1 && s'.core >= s.core
        else granted && s'.sbrks == s.sbrks && s'.core == s.core)
  }

  ghost predicate PutBy(s: HeapState, k: nat, s': HeapState) {
    if k < |s.held| && k < |s.blocks| then
      && s'.held == Without(s.held, k) && s'.blocks == Without(s.blocks, k) && s'.live == s.live - {s.blocks[k]}
      && s'.core == s.core && s'.sbrks == s.sbrks && Untouched(s'.live, s.mem, s'.mem)
    else s' == s
  }

  ghost predicate StoredBy(s: HeapState, k: nat, at: nat, h: Header, s': HeapState) {
    if k < |s.held| && k < |s.blocks| && at + 1 < s.blocks[k].size then s' == s.(mem := s.mem[s.held[k] + at := h])
    else s' == s
  }

  ghost predicate ServedBy(s: HeapState, q: Request, granted: bool, s': HeapState) {
    match q
    case Get(nbytes) => Nunits(nbytes) >= 0 && GotBy(s, Nunits(nbytes), granted, s')
    case Put(k) => !granted && PutBy(s, k, s')
    case Store(k, at, h) => !granted && StoredBy(s, k, at, h, s')
  }

  /** The states of a run, each from the one before by its request. */
  ghost predicate IsRun(base: int, requests: seq<Request>, granted: seq<bool>, states: seq<HeapState>) {
    && |states| == |granted| + 1 <= |requests| + 1
    && (forall k :: 0 <= k < |states| ==> StateOk(base, states[k]))
    && (forall k :: 0 <= k < |granted| ==> ServedBy(states[k], requests[k], granted[k], states[k + 1]))
  }

  lemma RunStarts(base: int, requests: seq<Request>, s: HeapState)
    requires StateOk(base, s)
    ensures IsRun(base, requests, [], [s])
  {
  }

  lemma RunGoesOn(base: int, requests: seq<Request>, granted: seq<bool>, states: seq<HeapState>, g: bool, s: HeapState)
    requires IsRun(base, requests, granted, states) && |granted| < |requests| && StateOk(base, s)
    requires ServedBy(states[|granted|], requests[|granted|], g, s)
    ensures IsRun(base, requests, granted + [g], states + [s])
  {
    hide StateOk, ServedBy;
    var granted', states' := granted + [g], states + [s];
    forall k | 0 <= k < |granted'| ensures ServedBy(states'[k], requests[k], granted'[k], states'[k + 1]) {
      assert k < |granted| ==> ServedBy(states[k], requests[k], granted[k], states[k + 1]);
    }
  }

  /** In every run memory is only gained, and `sbrk` called at most once for each request. */
  lemma {:induction false} RunGrows(base: int, requests: seq<Request>, granted: seq<bool>, states: seq<HeapState>, k: nat)
    requires IsRun(base, requests, granted, states) && k < |states|
    ensures states[k].core >= states[0].core && states[k].sbrks <= states[0].sbrks + k
  {
    hide StateOk;
    if k > 0 {
      RunGrows(base, requests, granted, states, k - 1);
      assert ServedBy(states[k - 1], requests[k - 1], granted[k - 1], states[k]);
    }
  }

  ghost predicate CellIntact(c: Cell, b: Block, mem: Memory) {
    && c.units == b.size
    && (forall at :: at in c.data ==>
          at + 1 < b.size && b.addr + 1 + at in mem && mem[b.addr + 1 + at] == c.data[at])
  }

  /** Every block holds what was stored in it. */
  ghost predicate Intact(cells: seq<Cell>, blocks: seq<Block>, mem: Memory) {
    |cells| == |blocks| && forall j :: 0 <= j < |cells| ==> CellIntact(cells[j], blocks[j], mem)
  }

  lemma UnitsPositive(nbytes: nat)
    ensures Nunits(nbytes) >= 0
  {
  }

  lemma StoredNone(requests: seq<Request>, mem: Memory)
    ensures Stored(requests[..0], []) == [] && Intact([], [], mem)
  {
  }

  lemma StoredMore(requests: seq<Request>, granted: seq<bool>, i: nat, g: bool)
    requires i < |requests| && |granted| == i
    ensures Stored(requests[..i + 1], granted + [g]) == Answered(Stored(requests[..i], granted), requests[i], g)
  {
    assert requests[..i + 1][..i] == requests[..i] && (granted + [g])[..i] == granted;
  }

  lemma HeldSize(cells: seq<Cell>, held: seq<int>, blocks: seq<Block>, live: set<Block>, mem: Memory)
    requires Held(held, blocks, live, 1) && Intact(cells, blocks, mem)
    ensures |cells| == |held| == |blocks| && forall j :: 0 <= j < |held| ==> cells[j].units == blocks[j].size
  {
    assert forall j :: 0 <= j < |cells| ==> CellIntact(cells[j], blocks[j], mem);
  }

  lemma IntactMore(cells: seq<Cell>, blocks: seq<Block>, mem: Memory, b: Block)
    requires Intact(cells, blocks, mem)
    ensures Intact(cells + [Cell(b.size, map[])], blocks + [b], mem)
  {
  }

  lemma IntactUntouched(cells: seq<Cell>, held: seq<int>, blocks: seq<Block>, live: set<Block>, mem: Memory, m: Memory)
    requires Intact(cells, blocks, mem) && Untouched(live, mem, m) && Held(held, blocks, live, 1)
    ensures Intact(cells, blocks, m)
  {
    forall j | 0 <= j < |cells| ensures CellIntact(cells[j], blocks[j], m) {
      var c, b := cells[j], blocks[j];
      assert CellIntact(c, b, mem);
      forall at | at in c.data ensures b.addr + 1 + at in m && m[b.addr + 1 + at] == c.data[at] {
        assert InBlock(b, b.addr + 1 + at);
      }
    }
  }

  lemma IntactLess(cells: seq<Cell>, blocks: seq<Block>, mem: Memory, k: nat)
    requires Intact(cells, blocks, mem) && k < |cells|
    ensures k < |blocks| && Intact(Without(cells, k), Without(blocks, k), mem)
  {
  }

  lemma IntactStore(base: int, brk: int, mem: Memory, freep: int, f: seq<Block>, live: set<Block>, core: set<int>,
                    cells: seq<Cell>, held: seq<int>, blocks: seq<Block>, k: nat, at: nat, h: Header)
    requires HeapOk(base, brk, mem, freep, f, live, core) && Held(held, blocks, live, 1)
    requires Intact(cells, blocks, mem) && k < |cells| && at + 1 < cells[k].units
    ensures Intact(cells[k := cells[k].(data := cells[k].data[at := h])], blocks, mem[held[k] + at := h])
  {
    var u := held[k] + at;
    var cells' := cells[k := cells[k].(data := cells[k].data[at := h])];
    assert CellIntact(cells[k], blocks[k], mem);
    LiveUnit(base, brk, mem, freep, f, live, core, blocks[k], u);
    forall j | 0 <= j < |cells| ensures CellIntact(cells'[j], blocks[j], mem[u := h]) {
      assert CellIntact(cells[j], blocks[j], mem);
      assert j < k ==> blocks[j] != blocks[k];
      if j != k {
        assert !InBlock(blocks[j], u);
      }
    }
  }

  lemma WriteKeeps(base: int, brk: int, mem: Memory, freep: int,
                   f: seq<Block>, live: set<Block>, core: set<int>, b: Block, u: int, h: Header)
    requires HeapOk(base, brk, mem, freep, f, live, core)
    requires b in live && InBlock(b, u) && u != b.addr
    ensures HeapOk(base, brk, mem[u := h], freep, f, live, core)
  {
    LiveUnit(base, brk, mem, freep, f, live, core, b, u);
    var m := mem[u := h];
    if freep != 0 {
      forall i | 0 <= i < |f| ensures LinkAt(f, m, i) {
        assert LinkAt(f, mem, i);
      }
    }
    forall c | c in live ensures m[c.addr].size == c.size {
      assert c.size >= 1 && InBlock(c, c.addr);
    }
  }

  class Heap {
    const base: int        // address of the static header
    var mem: Memory        // header words, by address
    var freep: int         // 0 until the first call of Malloc
    var brk: int           // end of the memory obtained so far
    ghost var free: seq<Block>
    ghost var live: set<Block>
    ghost var core: set<int>
    ghost var sbrks: nat   // calls of sbrk so far

    ghost predicate Valid()
      reads this
    {
      HeapOk(base, brk, mem, freep, free, live, core)
    }

    constructor (base: int, brk: int)
      requires 0 < base < brk
      ensures Valid() && this.base == base && this.brk == brk
      ensures freep == 0 && live == {} && core == {} && sbrks == 0
    {
      this.base, this.brk, this.freep, this.mem := base, brk, 0, map[];
      free, live, core, sbrks := [], {}, {}, 0;
    }

    method Free(ap: int) returns (ghost g: nat)
      requires Valid()
      requires ap - 1 in mem && Block(ap - 1, mem[ap - 1].size) in live
      modifies this
      ensures Valid()
      ensures freep != 0
      ensures live == old(live) - {Block(ap - 1, old(mem)[ap - 1].size)}
      ensures core == old(core) && brk == old(brk) && sbrks == old(sbrks)
      ensures Fits(old(free), g, Block(ap - 1, old(mem)[ap - 1].size))
      ensures free == Insert(old(free), g, Block(ap - 1, old(mem)[ap - 1].size))
      ensures g < |free| && freep == free[g].addr
      ensures Untouched(live, old(mem), mem)
    {
      var bp := ap - 1;
      ghost var b := Block(bp, mem[bp].size);
      LiveBlock(base, brk, mem, freep, free, live, core, b);
      var p: int;
      ghost var steps: nat;
      p, g, steps := FindGap(free, mem, freep, bp);
      InsertKeeps(free, g, b, live, core);
      FreeKeeps(base, brk, mem, freep, free, live, core, g, b);
      mem := LinkIn(mem, p, bp);
      freep := p;
      free := Insert(free, g, b);
      live := live - {b};
    }

    /** Grants nu units somewhere above the break, or refuses: both for any reason. */
    method Sbrk(nu: nat) returns (r: Option<int>)
      modifies this`brk, this`sbrks
      ensures sbrks == old(sbrks) + 1
      ensures r.None? ==> brk == old(brk)
      ensures r.Some? ==> old(brk) <= r.value && brk == r.value + nu
    {
      sbrks := sbrks + 1;
      var granted: bool := *;
      var gap: int :| gap >= 0;
      if !granted {
        return None;
      }
      r := Some(brk + gap);
      brk := brk + gap + nu;
    }

    method Morecore(nu: nat) returns (r: int, ghost nb: Block, ghost s: nat)
      requires Valid() && freep != 0
      modifies this
      ensures Valid()
      ensures sbrks == old(sbrks) + 1 && live == old(live)
      ensures Untouched(live, old(mem), mem)
      ensures r == 0 ==>
        && mem == old(mem) && freep == old(freep) && brk == old(brk)
        && free == old(free) && core == old(core)
      ensures r != 0 ==>
        && r == freep
        && nb.size == CoreUnits(nu) && nb.addr >= old(brk)
        && core == old(core) + Interval(nb)
        && s < |free| && free[s].addr == freep
        && FitAhead(free, s, 1, nu)
    {
      hide HeapOk, Ordered, Fits, FitAhead;
      var n := if nu < MIN_CORE then MIN_CORE else nu;
      var got := Sbrk(n);
      if got.None? {
        nb, s := Block(0, 0), 0;
        return 0, nb, s;
      }
      var hp := got.value;
      nb := Block(hp, n);
      var h := Header(if hp in mem then mem[hp].ptr else 0, n);
      GrowKeeps(base, old(brk), mem, freep, free, live, core, nb, h);
      mem := mem[hp := h];
      live := live + {nb};
      core := core + Interval(nb);
      label grown:
      ghost var _ := ListIndex(base, brk, mem, freep, free, live, core);
      s := Free(hp + 1);
      UntouchedTwice(live, old(mem), old@grown(mem), mem);
      InsertFits(old@grown(free), s, nb, nu);
      r := freep;
    }

    /** The allocation branch of the search loop: block p, which follows prevp, is large enough. */
    method TakeFrom(prevp: int, p: int, nunits: int, ghost k: nat) returns (r: int)
      requires Valid() && freep != 0
      requires 1 <= k < |free| && 1 <= nunits <= free[k].size
      requires p == free[k].addr && prevp == free[k - 1].addr
      modifies this`mem, this`freep, this`free, this`live
      ensures Valid()
      ensures r != 0 && Block(r - 1, nunits) !in old(live)
      ensures live == old(live) + {Block(r - 1, nunits)}
      ensures Untouched(old(live), old(mem), mem)
    {
      hide HeapOk, Ordered;
      LinkFacts(base, brk, mem, freep, free, live, core, k);
      MallocKeeps(base, brk, mem, freep, free, live, core, k, nunits);
      var q := p;
      if mem[q].size == nunits {
        mem := mem[prevp := Header(mem[q].ptr, mem[prevp].size)];
      } else {
        mem := mem[q := Header(mem[q].ptr, mem[q].size - nunits)];
        q := q + mem[q].size;
        mem := mem[q := Header(if q in mem then mem[q].ptr else 0, nunits)];
      }
      freep := prevp;
      live := live + {Piece(free[k], nunits)};
      free := Carve(free, k, nunits);
      r := q + 1;
    }

    /** The search loop of `malloc`, from freep onwards. */
    method Search(nunits: nat) returns (r: int, ghost nb: Block)
      requires Valid() && freep != 0 && nunits >= 1
      modifies this
      ensures Valid()
      ensures r == 0 ==> live == old(live) && core == old(core) && sbrks == old(sbrks) + 1
      ensures r == 0 ==> NoFit(Pool(old(free)), nunits)
      ensures r != 0 ==> Block(r - 1, nunits) !in old(live) && live == old(live) + {Block(r - 1, nunits)}
      ensures !NoFit(Pool(old(free)), nunits) ==> r != 0 && core == old(core) && sbrks == old(sbrks)
      ensures r != 0 && NoFit(Pool(old(free)), nunits) ==>
        && sbrks == old(sbrks) + 1
        && nb.addr >= old(brk) && nb.size == CoreUnits(nunits)
        && core == old(core) + Interval(nb)
      ensures Untouched(old(live), old(mem), mem)
    {
      hide HeapOk, Ordered, Untouched, NoFit, NoneBehind, FitAhead, Pool, Interval, CoreUnits;
      var prevp := freep;
      ghost var s: nat := ListIndex(base, brk, mem, freep, free, live, core);
      ghost var d: nat, grown := 1, false;
      nb := Block(0, 0);
      LinkFacts(base, brk, mem, freep, free, live, core, s);
      NoneYet(free, s, nunits);
      var p := mem[prevp].ptr;
      while true
        invariant Valid() && freep != 0
        invariant s < |free| && freep == free[s].addr
        invariant 1 <= d <= |free|
        invariant prevp == free[Around(s, d - 1, |free|)].addr
        invariant p == free[Around(s, d, |free|)].addr
        invariant live == old(live)
        invariant if grown then Untouched(live, old(mem), mem) else mem == old(mem)
        invariant !grown ==> core == old(core) && sbrks == old(sbrks) && free == old(free) && brk == old(brk)
        invariant !grown ==> NoneBehind(free, s, d, nunits)
        invariant grown ==>
          && sbrks == old(sbrks) + 1
          && nb.size == CoreUnits(nunits) && nb.addr >= old(brk)
          && core == old(core) + Interval(nb)
          && NoFit(Pool(old(free)), nunits)
          && FitAhead(free, s, d, nunits)
        decreases !grown, |free| - d
      {
        ghost var k := Around(s, d, |free|);
        LinkFacts(base, brk, mem, freep, free, live, core, k);
        if mem[p].size >= nunits {
          FitFound(free, k, nunits);
          ghost var m := mem;
          r := TakeFrom(prevp, p, nunits, k);
          if grown {
            UntouchedTwice(old(live), old(mem), m, mem);
          }
          return;
        }
        if p == freep {
          SamePlace(base, brk, mem, freep, free, live, core, s, k);
          FullLap(free, s, d, nunits);
          p, nb, s := Morecore(nunits);
          if p == 0 {
            r := 0;
            return;
          }
          grown, d := true, 0;
        } else {
          StepOn(free, s, d, nunits);
        }
        LinkFacts(base, brk, mem, freep, free, live, core, Around(s, d, |free|));
        prevp := p;
        p := mem[p].ptr;
        d := d + 1;
      }
    }

    /** r == 0 is failure; nb is the new core, when sbrk had to be called and granted it. */
    method Malloc(nbytes: nat) returns (r: int, ghost nb: Block)
      requires Valid() && nbytes <= MAX_REQUEST
      modifies this
      ensures Valid()
      ensures r == 0 ==> live == old(live) && core == old(core) && sbrks == old(sbrks) + 1
      ensures r == 0 ==> NoFit(Pool(old(free)), Nunits(nbytes))
      ensures r != 0 ==>
        && Block(r - 1, Nunits(nbytes)) !in old(live)
        && live == old(live) + {Block(r - 1, Nunits(nbytes))}
        && nbytes <= (Nunits(nbytes) - 1) * 8 < nbytes + 8
      ensures !NoFit(Pool(old(free)), Nunits(nbytes)) ==>
        r != 0 && core == old(core) && sbrks == old(sbrks)
      ensures r != 0 && NoFit(Pool(old(free)), Nunits(nbytes)) ==>
        && sbrks == old(sbrks) + 1
        && nb.addr >= old(brk) && nb.size == CoreUnits(Nunits(nbytes))
        && core == old(core) + Interval(nb)
      ensures Untouched(old(live), old(mem), mem)
    {
      hide HeapOk, NoFit, Pool, Interval, CoreUnits;
      RequestExact(nbytes);
      if freep == 0 {
        InitKeeps(base, brk, mem, free, live, core);
        mem := mem[base := Header(base, 0)];
        freep := base;
        free := [Block(base, 0)];
      }
      ghost var m := mem;
      r, nb := Search(Nunits(nbytes));
      UntouchedTwice(old(live), old(mem), m, mem);
    }

    /** The program may store anything in the units it was given. */
    method UserWrite(ghost b: Block, u: int, h: Header)
      requires Valid() && b in live && InBlock(b, u) && u != b.addr
      modifies this`mem
      ensures Valid() && mem == old(mem)[u := h]
    {
      WriteKeeps(base, brk, mem, freep, free, live, core, b, u, h);
      mem := mem[u := h];
    }

    lemma Conservation()
      requires Valid()
      ensures Total(Pool(free)) + Total(live) == |core|
    {
      TotalUnion(Pool(free), live);
      TilesCount(Pool(free) + live, core);
    }

    ghost function Snapshot(held: seq<int>, blocks: seq<Block>): HeapState
      reads this
    {
      HeapState(mem, freep, brk, free, live, core, sbrks, held, blocks)
    }

    /** `malloc` for the program, which keeps the pointer. */
    method ServeGet(nbytes: nat, held: seq<int>, ghost blocks: seq<Block>, ghost cells: seq<Cell>)
      returns (granted: bool, held': seq<int>, ghost blocks': seq<Block>)
      requires Valid() && Held(held, blocks, live, 1) && Intact(cells, blocks, mem) && nbytes <= MAX_REQUEST
      modifies this
      ensures Valid() && Held(held', blocks', live, 1)
      ensures Nunits(nbytes) >= 0 && GotBy(old(Snapshot(held, blocks)), Nunits(nbytes), granted, Snapshot(held', blocks'))
      ensures Intact(Answered(cells, Get(nbytes), granted), blocks', mem)
    {
      hide HeapOk, Held, Intact, NoFit, Untouched, Nunits, CoreUnits, Interval, Pool;
      ghost var s := Snapshot(held, blocks);
      held', blocks' := held, blocks;
      UnitsPositive(nbytes);
      var a, _ := Malloc(nbytes);
      granted := a != 0;
      IntactUntouched(cells, held, blocks, s.live, s.mem, mem);
      if granted {
        ghost var b := Block(a - 1, Nunits(nbytes));
        HeldMore(held, blocks, s.live, 1, b);
        IntactMore(cells, blocks, mem, b);
        held', blocks' := held + [a], blocks + [b];
      }
    }

    /** One request, whatever sbrk answers. */
    method Serve(q: Request, held: seq<int>, ghost blocks: seq<Block>, ghost cells: seq<Cell>)
      returns (granted: bool, held': seq<int>, ghost blocks': seq<Block>)
      requires Valid() && Held(held, blocks, live, 1) && Intact(cells, blocks, mem)
      requires q.Get? ==> q.nbytes <= MAX_REQUEST
      modifies this
      ensures Valid() && Held(held', blocks', live, 1)
      ensures ServedBy(old(Snapshot(held, blocks)), q, granted, Snapshot(held', blocks'))
      ensures Intact(Answered(cells, q, granted), blocks', mem)
    {
      hide HeapOk, Held, Intact, NoFit, Untouched, Nunits, CoreUnits, Interval, Pool, GotBy;
      ghost var s := Snapshot(held, blocks);
      granted, held', blocks' := false, held, blocks;
      HeldSize(cells, held, blocks, live, mem);
      match q
      case Get(nbytes) =>
        granted, held', blocks' := ServeGet(nbytes, held, blocks, cells);
      case Put(k) =>
        if k < |held| {
          HeldLess(held, blocks, live, 1, k);
          LiveHeader(blocks[k]);
          var _ := Free(held[k]);
          held', blocks' := Without(held, k), Without(blocks, k);
          IntactLess(cells, blocks, s.mem, k);
          IntactUntouched(Without(cells, k), held', blocks', live, s.mem, mem);
        }
      case Store(k, at, h) =>
        if k < |held| {
          HeldLess(held, blocks, live, 1, k);
          LiveHeader(blocks[k]);
          if at + 1 < mem[held[k] - 1].size {
            IntactStore(base, brk, mem, freep, free, live, core, cells, held, blocks, k, at, h);
            UserWrite(blocks[k], held[k] + at, h);
          }
        }
    }

    /** Any run of requests, each answered by any behaviour of sbrk: the states on the way, each from the
        one before by its request, and what was stored is there. */
    method Run(requests: seq<Request>) returns (held: seq<int>, granted: seq<bool>, ghost states: seq<HeapState>)
      requires Valid() && forall q :: q in requests && q.Get? ==> q.nbytes <= MAX_REQUEST
      modifies this
      ensures Valid() && Total(Pool(free)) + Total(live) == |core|
      ensures |granted| == |requests| && |states| == |requests| + 1 && IsRun(base, requests, granted, states)
      ensures states[0] == old(Snapshot([], [])) && states[|requests|] == Snapshot(held, states[|requests|].blocks)
      ensures Intact(Stored(requests, granted), states[|requests|].blocks, mem)
      ensures core >= old(core) && sbrks <= old(sbrks) + |requests|
    {
      hide HeapOk, Held, Intact, Stored, Answered, ServedBy, IsRun, Total, Pool;
      held, granted := [], [];
      ghost var blocks: seq<Block> := [];
      HeldNone(live, 1);
      StoredNone(requests, mem);
      states := [Snapshot(held, blocks)];
      RunStarts(base, requests, states[0]);
      for i := 0 to |requests|
        invariant Valid() && Held(held, blocks, live, 1)
        invariant |granted| == i && |states| == i + 1 && IsRun(base, requests, granted, states)
        invariant states[0] == old(Snapshot([], [])) && states[i] == Snapshot(held, blocks)
        invariant Intact(Stored(requests[..i], granted), blocks, mem)
      {
        ghost var cells := Stored(requests[..i], granted);
        var got;
        got, held, blocks := Serve(requests[i], held, blocks, cells);
        StoredMore(requests, granted, i, got);
        RunGoesOn(base, requests, granted, states, got, Snapshot(held, blocks));
        granted := granted + [got];
        states := states + [Snapshot(held, blocks)];
      }
      assert requests[..|requests|] == requests;
      RunGrows(base, requests, granted, states, |requests|);
      Conservation();
    }

    lemma LiveHeader(b: Block)
      requires Valid() && b in live
      ensures b.addr in mem && mem[b.addr].size == b.size
    {
    }
  }
}
