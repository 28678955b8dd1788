// Blocks of allocation units, and what it means for a collection of blocks to
// tile the memory obtained from the system.  Shared by the two allocators.
module FreeBlocks {

  datatype Block = Block(addr: int, size: int)

  predicate InBlock(b: Block, u: int) {
    b.addr <= u < b.addr + b.size
  }

  predicate Apart(b: Block, c: Block) {
    b.addr + b.size <= c.addr || c.addr + c.size <= b.addr
  }

  ghost predicate InSome(bs: set<Block>, u: int) {
    exists b :: b in bs && InBlock(b, u)
  }

  lemma InSomeUnion(bs: set<Block>, cs: set<Block>, u: int)
    ensures InSome(bs + cs, u) <==> InSome(bs, u) || InSome(cs, u)
  {
    if InSome(bs, u) {
      var b :| b in bs && InBlock(b, u);
      assert b in bs + cs;
    }
    if InSome(cs, u) {
      var b :| b in cs && InBlock(b, u);
      assert b in bs + cs;
    }
  }

  lemma InSomeOne(b: Block, u: int)
    ensures InSome({b}, u) <==> InBlock(b, u)
  {
    assert b in {b};
  }

  /** Every unit of `core` lies in exactly one block of `all`, and in nothing else. */
  ghost predicate Tiles(all: set<Block>, core: set<int>) {
    && (forall b :: b in all ==> b.size >= 1)
    && (forall b, c :: b in all && c in all && b != c ==> Apart(b, c))
    && (forall u :: u in core <==> InSome(all, u))
  }

  lemma ApartIfNothingShared(b: Block, c: Block)
    requires b.size >= 1 && c.size >= 1
    requires forall u :: InBlock(b, u) ==> !InBlock(c, u)
    ensures Apart(b, c)
  {
    var u := if b.addr < c.addr then c.addr else b.addr;
    assert InBlock(b, u) ==> !InBlock(c, u);
  }

  ghost function Interval(b: Block): (s: set<int>)
    ensures forall u :: u in s <==> InBlock(b, u)
    ensures b.size >= 0 ==> |s| == b.size
    decreases if b.size < 0 then 0 else b.size
  {
    if b.size <= 0 then {} else {b.addr + b.size - 1} + Interval(Block(b.addr, b.size - 1))
  }

  ghost function Total(bs: set<Block>): (t: int)
    ensures (forall b :: b in bs ==> b.size >= 0) ==> t >= 0
  {
    if bs == {} then 0 else
      var b :| b in bs;
      b.size + Total(bs - {b})
  }

  lemma {:induction false} TotalRemove(bs: set<Block>, b: Block)
    requires b in bs
    ensures Total(bs) == b.size + Total(bs - {b})
    decreases |bs|
  {
    var c :| c in bs && Total(bs) == c.size + Total(bs - {c});
    if c != b {
      TotalRemove(bs - {c}, b);
      assert bs - {c} - {b} == bs - {b} - {c};
      TotalRemove(bs - {b}, c);
    }
  }

  lemma {:induction false} TotalUnion(bs: set<Block>, cs: set<Block>)
    requires bs !! cs
    ensures Total(bs + cs) == Total(bs) + Total(cs)
    decreases |bs|
  {
    if bs == {} {
      assert bs + cs == cs;
    } else {
      var b :| b in bs;
      TotalRemove(bs + cs, b);
      TotalRemove(bs, b);
      assert bs + cs - {b} == (bs - {b}) + cs;
      TotalUnion(bs - {b}, cs);
    }
  }

  lemma UnitsWithout(all: set<Block>, b: Block, u: int)
    requires b in all && forall c :: c in all && c != b ==> Apart(b, c)
    ensures InSome(all - {b}, u) <==> InSome(all, u) && !InBlock(b, u)
  {
    if InSome(all - {b}, u) {
      var c :| c in all - {b} && InBlock(c, u);
      assert c in all && Apart(b, c);
    }
    if InSome(all, u) && !InBlock(b, u) {
      var c :| c in all && InBlock(c, u);
      assert c in all - {b};
    }
  }

  lemma TilesWithout(all: set<Block>, core: set<int>, b: Block)
    requires Tiles(all, core) && b in all
    ensures Tiles(all - {b}, core - Interval(b))
    ensures Interval(b) <= core
  {
    forall u | u in Interval(b) ensures u in core {
      assert InSome(all, u);
    }
    hide InSome;
    forall u ensures u in core - Interval(b) <==> InSome(all - {b}, u) {
      UnitsWithout(all, b, u);
    }
  }

  /** Conservation: the sizes of a tiling add up to the size of what it tiles. */
  lemma {:induction false} TilesCount(all: set<Block>, core: set<int>)
    requires Tiles(all, core)
    ensures Total(all) == |core|
    decreases |all|
  {
    if all == {} {
      forall u ensures u !in core {
        assert !InSome(all, u);
      }
      assert core == {};
    } else {
      hide InSome;
      var b :| b in all;
      TotalRemove(all, b);
      TilesWithout(all, core, b);
      TilesCount(all - {b}, core - Interval(b));
    }
  }

  /** Cutting and joining blocks: pieces that cover the same units keep the tiling. */
  lemma TilesReplace(all: set<Block>, core: set<int>, olds: set<Block>, news: set<Block>)
    requires Tiles(all, core) && olds <= all
    requires forall b :: b in news ==> b.size >= 1
    requires forall b, c :: b in news && c in news && b != c ==> Apart(b, c)
    requires forall u :: InSome(news, u) <==> InSome(olds, u)
    ensures Tiles(all - olds + news, core)
    ensures (all - olds) !! news
  {
    var all' := all - olds + news;
    forall n, c | n in news && c in all - olds ensures Apart(n, c) {
      forall u | InBlock(n, u) ensures !InBlock(c, u) {
        assert InSome(news, u);
        var o :| o in olds && InBlock(o, u);
        assert Apart(o, c);
      }
      ApartIfNothingShared(n, c);
    }
    forall u ensures u in core <==> InSome(all', u) {
      if InSome(all, u) {
        var b :| b in all && InBlock(b, u);
        if b in olds {
          assert InSome(olds, u);
          var n :| n in news && InBlock(n, u);
          assert n in all';
        } else {
          assert b in all';
        }
      }
      if InSome(all', u) {
        var b :| b in all' && InBlock(b, u);
        if b in news {
          assert InSome(news, u);
          var o :| o in olds && InBlock(o, u);
          assert o in all;
        }
      }
    }
    forall n | n in news ensures n !in all - olds {
      assert n.size >= 1 && !Apart(n, n);
    }
  }

  lemma ApartFromNew(all: set<Block>, core: set<int>, b: Block)
    requires Tiles(all, core) && b.size >= 1
    requires forall u :: InBlock(b, u) ==> u !in core
    ensures forall c :: c in all ==> Apart(b, c)
  {
    forall c | c in all ensures Apart(b, c) {
      forall u | InBlock(c, u) ensures !InBlock(b, u) {
        assert InSome(all, u);
      }
      ApartIfNothingShared(c, b);
    }
  }

  /** New memory that overlaps nothing extends the tiling by one block. */
  lemma TilesExtend(all: set<Block>, core: set<int>, b: Block)
    requires Tiles(all, core) && b.size >= 1
    requires forall u :: InBlock(b, u) ==> u !in core
    ensures Tiles(all + {b}, core + Interval(b))
    ensures b !in all
  {
    hide InSome, Apart;
    ApartFromNew(all, core, b);
    var all', core' := all + {b}, core + Interval(b);
    forall c, d | c in all' && d in all' && c != d ensures Apart(c, d) {
      ApartSymmetric(c, d);
    }
    forall u ensures u in core' <==> InSome(all', u) {
      InSomeUnion(all, {b}, u);
      InSomeOne(b, u);
    }
    NotApartFromSelf(b);
  }

  lemma ApartSymmetric(b: Block, c: Block)
    ensures Apart(b, c) <==> Apart(c, b)
  {
  }

  lemma NotApartFromSelf(b: Block)
    requires b.size >= 1
    ensures !Apart(b, b)
  {
  }

  predicate Separated(b: Block, c: Block) {
    b.addr + b.size < c.addr || c.addr + c.size < b.addr
  }

  /** Blocks with room between any two of them. */
  ghost predicate AllSeparated(s: set<Block>) {
    && (forall b :: b in s ==> b.size >= 1)
    && (forall b, c :: b in s && c in s && b != c ==> Separated(b, c))
  }

  lemma EdgesFree(s: set<Block>, b: Block)
    requires AllSeparated(s) && b in s
    ensures !InSome(s, b.addr - 1) && !InSome(s, b.addr + b.size)
  {
    forall c | c in s ensures !InBlock(c, b.addr - 1) && !InBlock(c, b.addr + b.size) {
      assert c == b || Separated(b, c);
    }
  }

  lemma SameStart(s: set<Block>, t: set<Block>, b: Block, c: Block)
    requires AllSeparated(s) && b in s && c in t && InBlock(c, b.addr)
    requires forall u :: InSome(t, u) ==> InSome(s, u)
    ensures c.addr == b.addr
  {
    EdgesFree(s, b);
    assert InBlock(c, b.addr - 1) ==> InSome(t, b.addr - 1);
  }

  lemma SameEnd(s: set<Block>, t: set<Block>, b: Block, c: Block)
    requires AllSeparated(s) && b in s && c in t && c.addr == b.addr
    requires forall u :: InSome(t, u) ==> InSome(s, u)
    ensures c.size <= b.size
  {
    EdgesFree(s, b);
    assert InBlock(c, b.addr + b.size) ==> InSome(t, b.addr + b.size);
  }

  /** Separated blocks are determined by the units they cover. */
  lemma SeparatedIsCanonical(s: set<Block>, t: set<Block>)
    requires AllSeparated(s) && AllSeparated(t)
    requires forall u :: InSome(s, u) <==> InSome(t, u)
    ensures s == t
  {
    SeparatedWithin(s, t);
    SeparatedWithin(t, s);
  }

  lemma SeparatedWithin(s: set<Block>, t: set<Block>)
    requires AllSeparated(s) && AllSeparated(t)
    requires forall u :: InSome(s, u) <==> InSome(t, u)
    ensures s <= t
  {
    forall b | b in s ensures b in t {
      assert InBlock(b, b.addr) && InSome(s, b.addr);
      var c :| c in t && InBlock(c, b.addr);
      SameStart(s, t, b, c);
      SameEnd(s, t, b, c);
      SameEnd(t, s, c, b);
    }
  }

  /** The pointers a program holds are those of distinct live blocks, past their headers. */
  ghost predicate Held(held: seq<int>, blocks: seq<Block>, live: set<Block>, header: int) {
    && |blocks| == |held|
    && (forall j :: 0 <= j < |held| ==> blocks[j] in live && held[j] == blocks[j].addr + header)
    && (forall j, k :: 0 <= j < k < |held| ==> blocks[j] != blocks[k])
  }

  lemma HeldNone(live: set<Block>, header: int)
    ensures Held([], [], live, header)
  {
  }

  lemma HeldLength(held: seq<int>, blocks: seq<Block>, live: set<Block>, header: int)
    requires Held(held, blocks, live, header)
    ensures |blocks| == |held|
  {
  }

  lemma HeldMore(held: seq<int>, blocks: seq<Block>, live: set<Block>, header: int, b: Block)
    requires Held(held, blocks, live, header) && b !in live
    ensures Held(held + [b.addr + header], blocks + [b], live + {b}, header)
  {
  }

  lemma HeldLess(held: seq<int>, blocks: seq<Block>, live: set<Block>, header: int, k: nat)
    requires Held(held, blocks, live, header) && k < |held|
    ensures k < |blocks| && blocks[k] in live && held[k] == blocks[k].addr + header
    ensures Held(held[..k] + held[k + 1..], blocks[..k] + blocks[k + 1..], live - {blocks[k]}, header)
  {
  }

  lemma UnitsBeside(s: set<Block>, rest: set<Block>, core: set<int>, u: int)
    requires Tiles(s + rest, core) && s !! rest
    ensures InSome(s, u) <==> u in core && !InSome(rest, u)
  {
    InSomeUnion(s, rest, u);
    if InSome(s, u) {
      var b :| b in s && InBlock(b, u);
      forall c | c in rest ensures !InBlock(c, u) {
        assert b in s + rest && c in s + rest && Apart(b, c);
      }
    }
  }

  /** Separated free blocks are determined by the live ones and by what both tile. */
  lemma FreeIsCanonical(s: set<Block>, t: set<Block>, live: set<Block>, core: set<int>)
    requires AllSeparated(s) && Tiles(s + live, core) && s !! live
    requires AllSeparated(t) && Tiles(t + live, core) && t !! live
    ensures s == t
  {
    hide Tiles, InSome, AllSeparated;
    forall u ensures InSome(s, u) <==> InSome(t, u) {
      UnitsBeside(s, live, core, u);
      UnitsBeside(t, live, core, u);
    }
    SeparatedIsCanonical(s, t);
  }
}
