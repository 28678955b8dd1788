// The worst-fit allocator of 3a/libmem.c.  Addresses and sizes count bytes;
// `header` is sizeof(struct Node), eight or sixteen depending on the machine.
module Libmem {
  import opened Common
  import opened FreeBlocks

  datatype Node = Node(size: int, next: int)

  type Memory = map<int, Node>

  /** The address at place i of the list; 0 past its end. */
  function At(l: seq<Block>, i: nat): int {
    if i < |l| then l[i].addr else 0
  }

  ghost predicate NodeAt(l: seq<Block>, mem: Memory, i: int)
    requires 0 <= i < |l|
  {
    l[i].addr in mem && mem[l[i].addr] == Node(l[i].size, At(l, i + 1))
  }

  /** head leads through exactly the blocks of l, in order, each once. */
  ghost predicate Linked(l: seq<Block>, mem: Memory, head: int) {
    && head == At(l, 0)
    && (forall i {:trigger NodeAt(l, mem, i)} :: 0 <= i < |l| ==> NodeAt(l, mem, i))
    && (forall i, j :: 0 <= i < j < |l| ==> l[i].addr != l[j].addr)
    && (forall i :: 0 <= i < |l| ==> l[i].addr != 0)
  }

  ghost function Elements(l: seq<Block>): (s: set<Block>)
    ensures forall b :: b in s <==> exists i :: 0 <= i < |l| && l[i] == b
  {
    set i | 0 <= i < |l| :: l[i]
  }

  // ------------------------------------------------- the list operations

  /** Block j taken out of l, and c put in front. */
  ghost function Front(l: seq<Block>, j: nat, c: Block): (r: seq<Block>)
    requires j < |l|
    ensures |r| == |l| && r[0] == c
    ensures forall i :: 1 <= i <= j ==> r[i] == l[i - 1]
    ensures forall i :: j < i < |l| ==> r[i] == l[i]
  {
    [c] + l[..j] + l[j + 1..]
  }

  /** Block j taken out of l, and the first block replaced by c. */
  ghost function Absorb(l: seq<Block>, j: nat, c: Block): (r: seq<Block>)
    requires 1 <= j < |l|
    ensures |r| == |l| - 1 && r[0] == c
    ensures forall i :: 1 <= i < j ==> r[i] == l[i]
    ensures forall i :: j <= i < |r| ==> r[i] == l[i + 1]
  {
    [c] + l[1..j] + l[j + 1..]
  }

  /** One block moved to the front, with its header's writes, keeps a list. */
  lemma FrontLinked(l: seq<Block>, mem: Memory, m: Memory, head: int, j: nat, c: Block)
    requires Linked(l, mem, head) && j < |l|
    requires c.addr != 0 && forall i :: 0 <= i < |l| && i != j ==> l[i].addr != c.addr
    requires c.addr in m && m[c.addr] == Node(c.size, if j == 0 then At(l, 1) else head)
    requires j > 0 ==> l[j - 1].addr in m && m[l[j - 1].addr] == Node(l[j - 1].size, At(l, j + 1))
    requires forall i :: 0 <= i < |l| && i != j && i != j - 1 ==>
      l[i].addr in mem && l[i].addr in m && m[l[i].addr] == mem[l[i].addr]
    ensures Linked(Front(l, j, c), m, c.addr)
  {
    var r := Front(l, j, c);
    forall i | 0 <= i < |r| ensures NodeAt(r, m, i) {
      if i == 0 {
      } else if i < j {
        assert NodeAt(l, mem, i - 1);
      } else if i > j {
        assert NodeAt(l, mem, i);
      }
    }
    forall i, k | 0 <= i < k < |r| ensures r[i].addr != r[k].addr {
      var k' := if k <= j then k - 1 else k;
      assert r[k] == l[k'] && k' != j;
      if i > 0 {
        var i' := if i <= j then i - 1 else i;
        assert r[i] == l[i'] && i' < k';
      }
    }
  }

  lemma AbsorbLinked(l: seq<Block>, mem: Memory, m: Memory, head: int, j: nat, c: Block)
    requires Linked(l, mem, head) && 1 <= j < |l|
    requires c.addr == l[0].addr || c.addr == l[j].addr
    requires c.addr in m && m[c.addr] == Node(c.size, if j == 1 then At(l, 2) else At(l, 1))
    requires j > 1 ==> l[j - 1].addr in m && m[l[j - 1].addr] == Node(l[j - 1].size, At(l, j + 1))
    requires forall i :: 1 <= i < |l| && i != j && i != j - 1 ==>
      l[i].addr in mem && l[i].addr in m && m[l[i].addr] == mem[l[i].addr]
    ensures Linked(Absorb(l, j, c), m, c.addr)
  {
    var r := Absorb(l, j, c);
    forall i | 0 <= i < |r| ensures NodeAt(r, m, i) {
      if i == 0 {
      } else if i < j - 1 {
        assert NodeAt(l, mem, i);
      } else if i >= j {
        assert NodeAt(l, mem, i + 1);
      }
    }
    forall i, k | 0 <= i < k < |r| ensures r[i].addr != r[k].addr {
      var k' := if k < j then k else k + 1;
      assert r[k] == l[k'] && k' != j;
      if i > 0 {
        var i' := if i < j then i else i + 1;
        assert r[i] == l[i'] && i' < k';
      }
    }
  }

  lemma FrontElements(l: seq<Block>, j: nat, c: Block)
    requires j < |l| && forall i :: 0 <= i < |l| && i != j ==> l[i] != l[j]
    ensures Elements(Front(l, j, c)) == Elements(l) - {l[j]} + {c}
  {
    var r := Front(l, j, c);
    forall x | x in Elements(r) ensures x in Elements(l) - {l[j]} + {c} {
      var i :| 0 <= i < |r| && r[i] == x;
      if i > 0 {
        var i' := if i <= j then i - 1 else i;
        assert l[i'] == x;
      }
    }
    forall x | x in Elements(l) - {l[j]} ensures x in Elements(r) {
      var i :| 0 <= i < |l| && l[i] == x;
      var i' := if i < j then i + 1 else i;
      assert r[i'] == x;
    }
    assert r[0] in Elements(r);
  }

  lemma AbsorbElements(l: seq<Block>, j: nat, c: Block)
    requires 1 <= j < |l| && forall i, k :: 0 <= i < k < |l| ==> l[i] != l[k]
    ensures Elements(Absorb(l, j, c)) == Elements(l) - {l[0], l[j]} + {c}
  {
    var r := Absorb(l, j, c);
    forall x | x in Elements(r) ensures x in Elements(l) - {l[0], l[j]} + {c} {
      var i :| 0 <= i < |r| && r[i] == x;
      if i > 0 {
        var i' := if i < j then i else i + 1;
        assert l[i'] == x;
      }
    }
    forall x | x in Elements(l) - {l[0], l[j]} ensures x in Elements(r) {
      var i :| 0 <= i < |l| && l[i] == x;
      var i' := if i < j then i else i - 1;
      assert r[i'] == x;
    }
    assert r[0] in Elements(r);
  }

  // ------------------------------------------------ merging a freed chunk

  predicate Below(c: Block, m: Block) {
    c.addr + c.size == m.addr
  }

  predicate Touching(c: Block, m: Block) {
    Below(c, m) || Below(m, c)
  }

  /** Two chunks that touch, as one. */
  function Joined(c: Block, m: Block): Block {
    Block(if Below(c, m) then c.addr else m.addr, c.size + m.size)
  }

  /** The first merge: the neighbour leaves its place and the union goes to the head. */
  method JoinFirst(mem: Memory, head: int, prev: int, curr: int, node: int, ghost l: seq<Block>, ghost j: nat)
    returns (mem': Memory, head': int, node': int, curr': int)
    requires Linked(l, mem, head) && j < |l| && node in mem && node != 0
    requires curr == l[j].addr && prev == if j == 0 then 0 else l[j - 1].addr
    requires Touching(l[j], Block(node, mem[node].size))
    requires forall i :: 0 <= i < |l| ==> l[i].addr != node
    requires l[j].size >= 1
    ensures var m := Joined(l[j], Block(node, mem[node].size));
      && node' == m.addr && node' in mem' && mem'[node'].size == m.size
      && Linked(Front(l, j, m), mem', head')
      && curr' == Front(l, j, m)[j].addr
    ensures mem'.Keys == mem.Keys
    ensures forall a :: a in mem && a != node && (forall i :: 0 <= i < |l| ==> a != l[i].addr) ==> mem'[a] == mem[a]
  {
    ghost var m := Joined(l[j], Block(node, mem[node].size));
    assert NodeAt(l, mem, j);
    assert j > 0 ==> NodeAt(l, mem, j - 1);
    mem', head', node', curr' := mem, head, node, curr;
    if node == curr + mem[curr].size {
      mem' := mem'[curr := Node(mem[curr].size + mem[node].size, mem[curr].next)];
      if curr != head {
        mem' := mem'[prev := Node(mem[prev].size, mem'[curr].next)];
        mem' := mem'[curr := Node(mem'[curr].size, head)];
        head' := curr;
        node' := curr;
        curr' := prev;
      } else {
        node' := curr;
      }
    } else {
      mem' := mem'[node := Node(mem[node].size + mem[curr].size, mem[node].next)];
      if curr != head {
        mem' := mem'[prev := Node(mem[prev].size, mem[curr].next)];
        mem' := mem'[node := Node(mem'[node].size, head)];
        curr' := prev;
        head' := node;
      } else {
        mem' := mem'[node := Node(mem'[node].size, mem[curr].next)];
        curr' := node;
        head' := node;
      }
    }
    forall i | 0 <= i < |l| && i != j && i != j - 1
      ensures l[i].addr in mem && l[i].addr in mem' && mem'[l[i].addr] == mem[l[i].addr]
    {
      assert NodeAt(l, mem, i);
    }
    FrontLinked(l, mem, mem', head, j, m);
  }

  /** The second merge: the head, already a union, takes in the other neighbour. */
  method JoinSecond(mem: Memory, head: int, prev: int, curr: int, node: int, ghost l: seq<Block>, ghost j: nat)
    returns (mem': Memory, head': int)
    requires Linked(l, mem, head) && 1 <= j < |l| && node == l[0].addr == head
    requires curr == l[j].addr && prev == l[j - 1].addr
    requires Touching(l[j], l[0]) && l[j].size >= 1 && l[0].size >= 1
    ensures var m := Joined(l[j], l[0]); Linked(Absorb(l, j, m), mem', head') && head' == m.addr
    ensures mem'.Keys == mem.Keys
    ensures forall a :: a in mem && (forall i :: 0 <= i < |l| ==> a != l[i].addr) ==> mem'[a] == mem[a]
  {
    ghost var m := Joined(l[j], l[0]);
    assert NodeAt(l, mem, 0) && NodeAt(l, mem, j) && NodeAt(l, mem, j - 1);
    mem', head' := mem, head;
    if node == curr + mem[curr].size {
      mem' := mem'[curr := Node(mem[curr].size + mem[node].size, mem[curr].next)];
      mem' := mem'[prev := Node(mem[prev].size, mem'[curr].next)];
      mem' := mem'[curr := Node(mem'[curr].size, mem'[node].next)];
      head' := curr;
    } else {
      mem' := mem'[node := Node(mem[node].size + mem[curr].size, mem[node].next)];
      mem' := mem'[prev := Node(mem'[prev].size, mem[curr].next)];
    }
    forall i | 1 <= i < |l| && i != j && i != j - 1
      ensures l[i].addr in mem && l[i].addr in mem' && mem'[l[i].addr] == mem[l[i].addr]
    {
      assert NodeAt(l, mem, i);
    }
    AbsorbLinked(l, mem, mem', head, j, m);
  }

  /** From place `first` on, no two chunks of the list touch or overlap. */
  ghost predicate Spread(l: seq<Block>, first: nat) {
    && (forall i :: first <= i < |l| ==> l[i].size >= 1)
    && (forall i, k :: first <= i < k < |l| ==> Separated(l[i], l[k]))
  }

  /** Chunks before place j are clear of m; the others at least on the sides already joined. */
  ghost predicate Scanned(l: seq<Block>, first: nat, j: nat, m: Block, down: bool, up: bool) {
    && (forall i :: first <= i < j && i < |l| ==> Separated(l[i], m))
    && (forall i :: first <= i < |l| ==> (down ==> !Below(l[i], m)) && (up ==> !Below(m, l[i])))
  }

  lemma JoinClear(d: Block, c: Block, m: Block)
    requires Touching(c, m) && Separated(d, c) && c.size >= 1 && m.size >= 1 && d.size >= 1
    ensures Separated(d, m) ==> Separated(d, Joined(c, m))
    ensures Below(c, m) ==> !Below(d, Joined(c, m))
    ensures Below(m, c) ==> !Below(Joined(c, m), d)
    ensures Apart(d, m) && !Touching(d, m) ==> Separated(d, m)
  {
  }

  lemma FrontScanned(l: seq<Block>, j: nat, m: Block)
    requires Spread(l, 0) && Scanned(l, 0, j, m, false, false) && j < |l| && m.size >= 1
    requires Touching(l[j], m)
    ensures var m' := Joined(l[j], m); var r := Front(l, j, m');
      Spread(r, 1) && Scanned(r, 1, j + 1, m', Below(l[j], m), Below(m, l[j]))
  {
    var m' := Joined(l[j], m);
    var r := Front(l, j, m');
    forall i, k | 1 <= i < k < |r| ensures Separated(r[i], r[k]) {
      var i', k' := if i <= j then i - 1 else i, if k <= j then k - 1 else k;
      assert r[i] == l[i'] && r[k] == l[k'];
    }
    forall i | 1 <= i < |r|
      ensures (i < j + 1 ==> Separated(r[i], m'))
      ensures (Below(l[j], m) ==> !Below(r[i], m')) && (Below(m, l[j]) ==> !Below(m', r[i]))
    {
      var i' := if i <= j then i - 1 else i;
      assert r[i] == l[i'] && (i' < j || i' > j);
      JoinClear(l[i'], l[j], m);
    }
  }

  lemma AbsorbSpread(l: seq<Block>, j: nat, down: bool, up: bool)
    requires Spread(l, 1) && 1 <= j < |l| && l[0].size >= 1 && (down || up)
    requires Scanned(l, 1, j, l[0], down, up) && Touching(l[j], l[0])
    requires forall i :: 1 <= i < |l| ==> Apart(l[i], l[0])
    ensures Spread(Absorb(l, j, Joined(l[j], l[0])), 0)
  {
    var m' := Joined(l[j], l[0]);
    var r := Absorb(l, j, m');
    forall i | 1 <= i < |r| ensures Separated(r[0], r[i]) {
      var i' := if i < j then i else i + 1;
      assert r[i] == l[i'] && i' != j;
      JoinClear(l[i'], l[j], l[0]);
    }
    forall i, k | 1 <= i < k < |r| ensures Separated(r[i], r[k]) {
      var i', k' := if i < j then i else i + 1, if k < j then k else k + 1;
      assert r[i] == l[i'] && r[k] == l[k'];
    }
  }

  lemma SpreadSet(l: seq<Block>)
    requires Spread(l, 0)
    ensures AllSeparated(Elements(l))
  {
    forall b, c | b in Elements(l) && c in Elements(l) && b != c ensures Separated(b, c) {
      var i :| 0 <= i < |l| && l[i] == b;
      var k :| 0 <= k < |l| && l[k] == c;
    }
  }

  /** Free chunks and the chunk being freed, beside the live ones. */
  ghost predicate Beside(l: seq<Block>, m: Block, rest: set<Block>, core: set<int>) {
    && Tiles(Elements(l) + {m} + rest, core)
    && (Elements(l) + {m}) !! rest
  }

  lemma JoinTiles(l: seq<Block>, m: Block, rest: set<Block>, core: set<int>, c: Block, free': set<Block>)
    requires Beside(l, m, rest, core) && c in Elements(l) && c != m && Touching(c, m)
    requires free' == Elements(l) - {c, m} + {Joined(c, m)}
    ensures Tiles(free' + rest, core) && free' !! rest
  {
    var all := Elements(l) + {m} + rest;
    assert c.size >= 1 && m.size >= 1;
    forall u ensures InSome({Joined(c, m)}, u) <==> InSome({c, m}, u) {
      InSomeOne(Joined(c, m), u);
      assert {c, m} == {c} + {m};
      InSomeUnion({c}, {m}, u);
      InSomeOne(c, u);
      InSomeOne(m, u);
    }
    TilesReplace(all, core, {c, m}, {Joined(c, m)});
    assert free' + rest == all - {c, m} + {Joined(c, m)};
  }

  /** What is stored anywhere in the given chunks is the same in m and m'. */
  ghost predicate Kept(rest: set<Block>, m: Memory, m': Memory) {
    forall r, u :: r in rest && InBlock(r, u) ==>
      (u in m <==> u in m') && (u in m ==> m'[u] == m[u])
  }

  /** Every address inside a live chunk is clear of what the list operations write. */
  lemma OthersElsewhere(l: seq<Block>, m: Block, rest: set<Block>, core: set<int>, r: Block, u: int)
    requires Beside(l, m, rest, core) && r in rest && InBlock(r, u)
    ensures u != m.addr && forall i :: 0 <= i < |l| ==> u != l[i].addr
  {
    var all := Elements(l) + {m} + rest;
    assert m in all && r in all && Apart(m, r);
    forall i | 0 <= i < |l| ensures u != l[i].addr {
      assert l[i] in Elements(l) && l[i] in all && Apart(l[i], r);
    }
  }

  lemma ListApart(l: seq<Block>, m: Block, rest: set<Block>, core: set<int>, i: nat)
    requires Beside(l, m, rest, core) && i < |l|
    ensures l[i].size >= 1 && m.size >= 1
    ensures l[i] != m ==> Apart(l[i], m) && l[i].addr != m.addr
  {
    assert l[i] in Elements(l) && m in Elements(l) + {m} + rest;
  }

  predicate Sized(b: Block, header: int) {
    b.addr > 0 && b.size % 8 == 0 && b.size >= header
  }

  ghost predicate AllSized(l: seq<Block>, header: int) {
    forall i :: 0 <= i < |l| ==> Sized(l[i], header)
  }

  lemma JoinedSized(l: seq<Block>, j: nat, m: Block, header: int)
    requires AllSized(l, header) && Sized(m, header) && j < |l| && header >= 0
    ensures Sized(Joined(l[j], m), header)
    ensures AllSized(Front(l, j, Joined(l[j], m)), header)
    ensures j > 0 ==> AllSized(Absorb(l, j, Joined(l[j], m)), header)
  {
    var r := Front(l, j, Joined(l[j], m));
    forall i | 0 <= i < |r| ensures Sized(r[i], header) {
      if 0 < i {
        var i' := if i <= j then i - 1 else i;
        assert r[i] == l[i'];
      }
    }
    if j > 0 {
      var q := Absorb(l, j, Joined(l[j], m));
      forall i | 0 <= i < |q| ensures Sized(q[i], header) {
        if 0 < i {
          var i' := if i < j then i else i + 1;
          assert q[i] == l[i'];
        }
      }
    }
  }

  /** `findNeighborNode`: one pass over a list in any order. */
  method FindNeighborNode(mem: Memory, head: int, node: int,
                          ghost l: seq<Block>, ghost b: Block, ghost rest: set<Block>, ghost core: set<int>,
                          ghost header: nat)
    returns (mem': Memory, head': int, ghost l': seq<Block>)
    requires Linked(l, mem, head) && Spread(l, 0)
    requires node != 0 && node in mem && b == Block(node, mem[node].size)
    requires Beside(l, b, rest, core) && b !in Elements(l)
    requires AllSized(l, header) && Sized(b, header)
    ensures Linked(l', mem', head') && Spread(l', 0) && AllSized(l', header)
    ensures Tiles(Elements(l') + rest, core) && Elements(l') !! rest
    ensures |l'| >= 1 && forall u :: InBlock(b, u) ==> InBlock(l'[0], u)
    ensures Kept(rest, mem, mem') && mem'.Keys == mem.Keys
  {
    hide Linked, Spread, Scanned, Beside, Kept, Tiles, InSome, Elements, AllSized, Sized;
    StartScan(l, mem, head, b, rest, core);
    mem', head', l' := mem, head, l;
    var n, curr, prev, coalesced := node, head, 0, false;
    ghost var m, j, down, up := b, 0, false, false;
    while curr != 0
      invariant 0 <= j <= |l'| && curr == At(l', j)
      invariant prev == if j == 0 then 0 else l'[j - 1].addr
      invariant Linked(l', mem', head') && n == m.addr && n != 0 && m.size >= 1
      invariant n in mem' && mem'[n].size == m.size
      invariant Beside(l', m, rest, core) && Kept(rest, mem, mem') && mem'.Keys == mem.Keys
      invariant AllSized(l', header) && Sized(m, header)
      invariant forall u :: InBlock(b, u) ==> InBlock(m, u)
      invariant coalesced == (down || up)
      invariant if coalesced then 1 <= j && l'[0] == m else l' == l && m == b && mem' == mem
      invariant Spread(l', if coalesced then 1 else 0)
      invariant Scanned(l', if coalesced then 1 else 0, j, m, down, up)
      decreases |l'| - j
    {
      ListNode(l', mem', head', j);
      InElements(l', j);
      ListApart(l', m, rest, core, j);
      if n == curr + mem'[curr].size || curr == n + mem'[n].size {
        JoinedSized(l', j, m, header);
        if !coalesced {
          JoinFirstKeeps(l', m, rest, core, j);
          ghost var before := mem';
          mem', head', n, curr := JoinFirst(mem', head', prev, curr, n, l', j);
          JoinFrame(l', m, rest, core, mem, before, mem');
          down, up := Below(l'[j], m), Below(m, l'[j]);
          m, l' := Joined(l'[j], m), Front(l', j, Joined(l'[j], m));
          coalesced := true;
          ListNode(l', mem', head', j);
        } else {
          JoinSecondKeeps(l', mem', head', m, rest, core, j, down, up);
          ghost var before := mem';
          mem', head' := JoinSecond(mem', head', prev, curr, n, l', j);
          JoinFrame(l', m, rest, core, mem, before, mem');
          l' := Absorb(l', j, Joined(l'[j], m));
          return;
        }
      } else {
        ScannedMore(l', if coalesced then 1 else 0, j, m, down, up);
      }
      prev := curr;
      curr := mem'[curr].next;
      j := j + 1;
    }
    ListEnd(l', mem', head', j);
    if !coalesced {
      PushKeeps(l, mem', head', b, rest, core);
      mem' := mem'[n := Node(mem'[n].size, head')];
      head' := n;
      l' := [b] + l;
      PushSized(l, b, header);
    } else {
      HeadSpread(l', m, rest, core, down, up);
    }
  }

  lemma ListNode(l: seq<Block>, mem: Memory, head: int, j: nat)
    requires Linked(l, mem, head) && j < |l|
    ensures NodeAt(l, mem, j) && l[j].addr != 0 && head == l[0].addr
    ensures j > 0 ==> l[j] != l[0]
  {
  }

  lemma InElements(l: seq<Block>, j: nat)
    requires j < |l|
    ensures l[j] in Elements(l)
  {
  }

  lemma PushSized(l: seq<Block>, b: Block, header: int)
    requires AllSized(l, header) && Sized(b, header)
    ensures AllSized([b] + l, header)
  {
  }

  lemma ListEnd(l: seq<Block>, mem: Memory, head: int, j: nat)
    requires Linked(l, mem, head) && j <= |l| && At(l, j) == 0
    ensures j == |l|
  {
  }

  lemma ScannedMore(l: seq<Block>, first: nat, j: nat, m: Block, down: bool, up: bool)
    requires Scanned(l, first, j, m, down, up) && j < |l| && Apart(l[j], m) && !Touching(l[j], m)
    ensures Scanned(l, first, j + 1, m, down, up)
  {
  }

  lemma HeadSpread(l: seq<Block>, m: Block, rest: set<Block>, core: set<int>, down: bool, up: bool)
    requires |l| >= 1 && l[0] == m && m.size >= 1 && Spread(l, 1) && Scanned(l, 1, |l|, m, down, up)
    requires Beside(l, m, rest, core)
    ensures Spread(l, 0) && Tiles(Elements(l) + rest, core) && Elements(l) !! rest
  {
    assert m in Elements(l);
    assert Elements(l) + {m} == Elements(l);
  }

  lemma JoinFirstKeeps(l: seq<Block>, m: Block, rest: set<Block>, core: set<int>, j: nat)
    requires Spread(l, 0) && Scanned(l, 0, j, m, false, false) && j < |l|
    requires Beside(l, m, rest, core) && m !in Elements(l) && Touching(l[j], m)
    ensures var m' := Joined(l[j], m); var r := Front(l, j, m');
      && Spread(r, 1) && Scanned(r, 1, j + 1, m', Below(l[j], m), Below(m, l[j]))
      && Beside(r, m', rest, core)
      && m'.size >= 1 && forall u :: InBlock(m, u) ==> InBlock(m', u)
    ensures forall i :: 0 <= i < |l| ==> l[i].addr != m.addr
  {
    var m' := Joined(l[j], m);
    ListApart(l, m, rest, core, j);
    FrontScanned(l, j, m);
    FrontElements(l, j, m');
    assert l[j] in Elements(l);
    JoinTiles(l, m, rest, core, l[j], Elements(Front(l, j, m')));
    assert Elements(Front(l, j, m')) + {m'} == Elements(Front(l, j, m'));
    forall i | 0 <= i < |l| ensures l[i].addr != m.addr {
      ListApart(l, m, rest, core, i);
      assert l[i] in Elements(l);
    }
  }

  lemma JoinSecondKeeps(l: seq<Block>, mem: Memory, head: int, m: Block, rest: set<Block>, core: set<int>, j: nat, down: bool, up: bool)
    requires 1 <= j < |l| && l[0] == m && Spread(l, 1) && Scanned(l, 1, j, m, down, up) && (down || up)
    requires Beside(l, m, rest, core) && Touching(l[j], m)
    requires Linked(l, mem, head)
    ensures var m' := Joined(l[j], m); var r := Absorb(l, j, m');
      && Spread(r, 0)
      && Tiles(Elements(r) + rest, core) && Elements(r) !! rest
      && forall u :: InBlock(m, u) ==> InBlock(m', u)
  {
    var m' := Joined(l[j], m);
    forall i | 1 <= i < |l| ensures Apart(l[i], l[0]) {
      ListApart(l, m, rest, core, i);
    }
    ListApart(l, m, rest, core, j);
    AbsorbSpread(l, j, down, up);
    AbsorbElements(l, j, m');
    assert l[j] in Elements(l);
    JoinTiles(l, m, rest, core, l[j], Elements(Absorb(l, j, m')));
  }

  lemma JoinFrame(l: seq<Block>, m: Block, rest: set<Block>, core: set<int>, m0: Memory, m1: Memory, m2: Memory)
    requires Beside(l, m, rest, core) && Kept(rest, m0, m1) && m1.Keys == m2.Keys
    requires forall a :: a in m1 && a != m.addr && (forall i :: 0 <= i < |l| ==> a != l[i].addr) ==> m2[a] == m1[a]
    ensures Kept(rest, m0, m2)
  {
    forall r, u | r in rest && InBlock(r, u) ensures (u in m0 <==> u in m2) && (u in m0 ==> m2[u] == m0[u]) {
      OthersElsewhere(l, m, rest, core, r, u);
    }
  }

  lemma PushLinked(l: seq<Block>, mem: Memory, head: int, b: Block)
    requires Linked(l, mem, head) && b.addr != 0 && forall i :: 0 <= i < |l| ==> l[i].addr != b.addr
    ensures Linked([b] + l, mem[b.addr := Node(b.size, head)], b.addr)
  {
    var r, m := [b] + l, mem[b.addr := Node(b.size, head)];
    forall i | 0 <= i < |r| ensures NodeAt(r, m, i) {
      if i > 0 {
        assert r[i] == l[i - 1] && NodeAt(l, mem, i - 1);
      }
    }
  }

  lemma PushKeeps(l: seq<Block>, mem: Memory, head: int, b: Block, rest: set<Block>, core: set<int>)
    requires Linked(l, mem, head) && Spread(l, 0) && Scanned(l, 0, |l|, b, false, false)
    requires Beside(l, b, rest, core) && b !in Elements(l) && b.addr != 0
    ensures var m := mem[b.addr := Node(b.size, head)]; var r := [b] + l;
      && Linked(r, m, b.addr) && Spread(r, 0)
      && Tiles(Elements(r) + rest, core) && Elements(r) !! rest
      && Kept(rest, mem, m)
  {
    hide Tiles, InSome, Linked, NodeAt;
    forall i | 0 <= i < |l| ensures l[i].addr != b.addr {
      ListApart(l, b, rest, core, i);
      assert l[i] in Elements(l);
    }
    PushLinked(l, mem, head, b);
    var r := [b] + l;
    ElementsPush(l, b);
    assert Elements(r) + rest == Elements(l) + {b} + rest;
    BesidePositive(l, b, rest, core);
    forall c, u | c in rest && InBlock(c, u) ensures u != b.addr {
      OthersElsewhere(l, b, rest, core, c, u);
    }
  }

  lemma BesidePositive(l: seq<Block>, b: Block, rest: set<Block>, core: set<int>)
    requires Beside(l, b, rest, core)
    ensures b.size >= 1
  {
    assert b in Elements(l) + {b} + rest;
  }

  lemma ElementsPush(l: seq<Block>, b: Block)
    ensures Elements([b] + l) == Elements(l) + {b}
  {
    var r := [b] + l;
    forall x | x in Elements(l) ensures x in Elements(r) {
      var i :| 0 <= i < |l| && l[i] == x;
      assert r[i + 1] == x;
    }
    assert r[0] in Elements(r);
  }

  lemma StartScan(l: seq<Block>, mem: Memory, head: int, b: Block, rest: set<Block>, core: set<int>)
    requires Linked(l, mem, head) && Beside(l, b, rest, core)
    ensures head == At(l, 0) && b.size >= 1
    ensures Scanned(l, 0, 0, b, false, false) && Kept(rest, mem, mem)
  {
    BesidePositive(l, b, rest, core);
  }

  // ------------------------------------------------------------ worst fit

  /** Place k holds the largest chunk, and the first of that size. */
  ghost predicate IsWorst(l: seq<Block>, k: int) {
    && 0 <= k < |l|
    && (forall i :: 0 <= i < |l| ==> l[i].size <= l[k].size)
    && (forall i :: 0 <= i < k ==> l[i].size < l[k].size)
  }

  method GetWorstFit(mem: Memory, head: int, header: int, size: int, ghost l: seq<Block>)
    returns (worst: int, listPrev: int, ghost k: nat)
    requires Linked(l, mem, head) && |l| >= 1
    ensures IsWorst(l, k)
    ensures listPrev == if k == 0 then 0 else l[k - 1].addr
    ensures worst == if l[k].size >= size + header then l[k].addr else 0
  {
    worst, listPrev, k := 0, 0, 0;
    var node, prev := head, 0;
    ghost var j := 0;
    while node != 0
      invariant 0 <= j <= |l| && node == At(l, j)
      invariant prev == if j == 0 then 0 else l[j - 1].addr
      invariant worst == 0 <==> j == 0
      invariant j > 0 ==> k < j && worst == l[k].addr && IsWorst(l[..j], k)
      invariant j > 0 ==> listPrev == if k == 0 then 0 else l[k - 1].addr
      decreases |l| - j
    {
      assert NodeAt(l, mem, j);
      assert worst != 0 ==> NodeAt(l, mem, k);
      if worst == 0 || mem[node].size > mem[worst].size {
        worst := node;
        listPrev := prev;
        k := j;
      }
      prev := node;
      node := mem[node].next;
      j := j + 1;
    }
    assert l[..j] == l;
    assert NodeAt(l, mem, k);
    if mem[worst].size < size + header {
      worst := 0;
    }
  }

  /** The chunk `Mem_Alloc` cuts for a request: the size rounded up, and a header. */
  function Need(size: nat, header: int): int {
    if size % 8 == 0 then size + header else (size / 8 + 1) * 8 + header
  }

  /** The fit test ignores the rounding; on sizes that are multiples of eight it does not matter. */
  lemma FitTestSuffices(chunk: int, size: nat, header: int)
    requires chunk % 8 == 0 && header % 8 == 0
    ensures chunk >= size + header <==> chunk >= Need(size, header)
    ensures Need(size, header) % 8 == 0 && Need(size, header) >= size + header
  {
  }

  method ChunkNode(mem: Memory, head: int, listPrev: int, node: int, size: nat, header: int,
                   ghost l: seq<Block>, ghost k: nat)
    returns (mem': Memory, head': int)
    requires Linked(l, mem, head) && k < |l| && node == l[k].addr
    requires listPrev == if k == 0 then 0 else l[k - 1].addr
    requires header >= 8 && Need(size, header) <= l[k].size
    requires forall i :: 0 <= i < |l| && i != k ==> l[i].addr < l[k].addr || l[i].addr > l[k].addr + l[k].size
    requires node > 0
    ensures var need := Need(size, header); var tail := Block(node + need, l[k].size - need);
      && node in mem' && mem'[node] == Node(need, 0)
      && tail.addr in mem' && mem'[tail.addr].size == tail.size
      && (tail.size > 0 ==> Linked(l[k := tail], mem', head'))
      && (tail.size == 0 && k == 0 ==> head' == 0)
      && (tail.size == 0 && k > 0 ==> Linked(Dropped(l, k), mem', head'))
      && mem'.Keys == mem.Keys + {tail.addr}
      && (forall a :: a in mem && a != node && a != tail.addr && (k > 0 ==> a != listPrev) ==> mem'[a] == mem[a])
  {
    var need := if size % 8 == 0 then size + header else (size / 8 + 1) * 8 + header;
    ghost var tail := Block(node + need, l[k].size - need);
    assert NodeAt(l, mem, k);
    assert k > 0 ==> NodeAt(l, mem, k - 1);
    mem', head' := mem, head;
    var region, next := mem[node].size, mem[node].next;
    var rem := node + need;
    mem' := mem'[rem := Node(region - need, if rem in mem then mem[rem].next else 0)];
    if mem'[rem].size == 0 && listPrev != 0 {
      mem' := mem'[listPrev := Node(mem'[listPrev].size, next)];
    } else if mem'[rem].size == 0 && listPrev == 0 {
      head' := 0;
    } else {
      if listPrev != 0 {
        mem' := mem'[listPrev := Node(mem'[listPrev].size, rem)];
      }
      mem' := mem'[rem := Node(mem'[rem].size, next)];
    }
    if head' == node {
      head' := rem;
    }
    mem' := mem'[node := Node(need, 0)];
    forall i | 0 <= i < |l| && i != k && i != k - 1
      ensures l[i].addr in mem && l[i].addr in mem' && mem'[l[i].addr] == mem[l[i].addr]
    {
      assert NodeAt(l, mem, i);
    }
    if tail.size > 0 {
      SplitLinked(l, mem, mem', head, k, tail);
    } else if k > 0 {
      DroppedLinked(l, mem, mem', head, k);
    }
  }

  ghost function Dropped(l: seq<Block>, k: nat): (r: seq<Block>)
    requires k < |l|
    ensures |r| == |l| - 1
    ensures forall i :: 0 <= i < k ==> r[i] == l[i]
    ensures forall i :: k <= i < |r| ==> r[i] == l[i + 1]
  {
    l[..k] + l[k + 1..]
  }

  lemma DroppedLinked(l: seq<Block>, mem: Memory, m: Memory, head: int, k: nat)
    requires Linked(l, mem, head) && 0 < k < |l|
    requires l[k - 1].addr in m && m[l[k - 1].addr] == Node(l[k - 1].size, At(l, k + 1))
    requires forall i :: 0 <= i < |l| && i != k && i != k - 1 ==>
      l[i].addr in m && l[i].addr in mem && m[l[i].addr] == mem[l[i].addr]
    ensures Linked(Dropped(l, k), m, head)
  {
    var r := Dropped(l, k);
    forall i | 0 <= i < |r| ensures NodeAt(r, m, i) {
      if i < k - 1 {
        assert NodeAt(l, mem, i);
      } else if i >= k {
        assert NodeAt(l, mem, i + 1);
      }
    }
  }

  lemma SplitLinked(l: seq<Block>, mem: Memory, m: Memory, head: int, k: nat, tail: Block)
    requires Linked(l, mem, head) && k < |l| && tail.addr > 0
    requires forall i :: 0 <= i < |l| && i != k ==> l[i].addr != tail.addr
    requires tail.addr in m && m[tail.addr] == Node(tail.size, At(l, k + 1))
    requires k > 0 ==> l[k - 1].addr in m && m[l[k - 1].addr] == Node(l[k - 1].size, tail.addr)
    requires forall i :: 0 <= i < |l| && i != k && i != k - 1 ==>
      l[i].addr in m && l[i].addr in mem && m[l[i].addr] == mem[l[i].addr]
    ensures Linked(l[k := tail], m, if k == 0 then tail.addr else head)
  {
    var r := l[k := tail];
    forall i | 0 <= i < |r| ensures NodeAt(r, m, i) {
      if i != k && i != k - 1 {
        assert NodeAt(l, mem, i);
      }
    }
  }

  // ----------------------------------------------------------- the region

  /** Free list and live chunks tile the region, in multiples of eight, and every header lies in it. */
  ghost predicate RegionOk(header: int, mem: Memory, head: int,
                           l: seq<Block>, live: set<Block>, core: set<int>)
  {
    && Linked(l, mem, head) && Spread(l, 0)
    && Tiles(Elements(l) + live, core) && Elements(l) !! live
    && (forall b :: b in live ==> b.addr in mem && mem[b.addr].size == b.size)
    && AllSized(l, header) && (forall b :: b in live ==> Sized(b, header))
    && mem.Keys <= core
  }

  /** Whatever the order of requests, the free chunks are determined by the live ones and the region. */
  lemma FreeChunksAreCanonical(header: int, mem: Memory, head: int, l: seq<Block>,
                               mem2: Memory, head2: int, l2: seq<Block>, live: set<Block>, core: set<int>)
    requires RegionOk(header, mem, head, l, live, core) && RegionOk(header, mem2, head2, l2, live, core)
    ensures Elements(l) == Elements(l2)
  {
    SpreadSet(l);
    SpreadSet(l2);
    FreeIsCanonical(Elements(l), Elements(l2), live, core);
  }

  lemma AllocKeeps(header: int, mem: Memory, head: int, l: seq<Block>, live: set<Block>, core: set<int>,
                   mem': Memory, head': int, k: nat, need: int)
    requires RegionOk(header, mem, head, l, live, core) && k < |l| && header >= 8 && header % 8 == 0
    requires need % 8 == 0 && header <= need && l[k].size - need >= header
    requires var tail := Block(l[k].addr + need, l[k].size - need);
      && Linked(l[k := tail], mem', head')
      && l[k].addr in mem' && mem'[l[k].addr].size == need
      && mem'.Keys == mem.Keys + {tail.addr}
      && forall a :: a in mem && a != l[k].addr && a != tail.addr && (k > 0 ==> a != l[k - 1].addr) ==> mem'[a] == mem[a]
    ensures var tail := Block(l[k].addr + need, l[k].size - need); var cut := Block(l[k].addr, need);
      && RegionOk(header, mem', head', l[k := tail], live + {cut}, core)
      && cut !in live && Kept(live, mem, mem')
  {
    hide Tiles, Linked, Spread, Elements, Kept;
    var tail, cut, b := Block(l[k].addr + need, l[k].size - need), Block(l[k].addr, need), l[k];
    InElements(l, k);
    ReplaceElements(l, k, tail);
    CutTiles(Elements(l), live, core, b, tail, cut);
    ReplaceSpread(l, k, tail);
    AllocKept(header, mem, head, l, live, core, mem', k, need);
  }

  lemma AllocKept(header: int, mem: Memory, head: int, l: seq<Block>, live: set<Block>, core: set<int>,
                  mem': Memory, k: nat, need: int)
    requires RegionOk(header, mem, head, l, live, core) && k < |l| && 0 <= need < l[k].size && header >= 1
    requires mem'.Keys == mem.Keys + {l[k].addr + need}
    requires forall a :: a in mem && a != l[k].addr && a != l[k].addr + need && (k > 0 ==> a != l[k - 1].addr) ==>
      mem'[a] == mem[a]
    ensures Kept(live, mem, mem') && mem'.Keys <= core
    ensures forall c :: c in live ==> c.addr in mem' && mem'[c.addr].size == c.size
  {
    hide Tiles, Linked, Elements;
    forall c, u | c in live && InBlock(c, u)
      ensures u != l[k].addr && u != l[k].addr + need && (k > 0 ==> u != l[k - 1].addr)
    {
      LiveElsewhere(header, mem, head, l, live, core, k, c, u);
      if k > 0 {
        LiveElsewhere(header, mem, head, l, live, core, k - 1, c, u);
      }
    }
    ChunkInCore(header, mem, head, l, live, core, k, l[k].addr + need);
    assert forall c :: c in live ==> InBlock(c, c.addr);
  }

  lemma LiveElsewhere(header: int, mem: Memory, head: int, l: seq<Block>, live: set<Block>, core: set<int>,
                      i: nat, c: Block, u: int)
    requires RegionOk(header, mem, head, l, live, core) && i < |l| && c in live && InBlock(c, u)
    ensures !InBlock(l[i], u) && l[i].size >= 1
  {
    assert l[i] in Elements(l) && Apart(l[i], c);
  }

  lemma ChunkInCore(header: int, mem: Memory, head: int, l: seq<Block>, live: set<Block>, core: set<int>, i: nat, u: int)
    requires RegionOk(header, mem, head, l, live, core) && i < |l| && InBlock(l[i], u)
    ensures u in core
  {
    assert l[i] in Elements(l) + live && InSome(Elements(l) + live, u);
  }

  /** In a sound region, the byte after a free chunk is outside or starts a live chunk. */
  lemma NextIsLive(header: int, mem: Memory, head: int, l: seq<Block>, live: set<Block>, core: set<int>, k: nat)
    returns (c: Block)
    requires RegionOk(header, mem, head, l, live, core) && k < |l| && l[k].addr + l[k].size in core
    ensures c in live && c.addr == l[k].addr + l[k].size
  {
    var end := l[k].addr + l[k].size;
    assert InSome(Elements(l) + live, end);
    c :| c in Elements(l) + live && InBlock(c, end);
    assert l[k] in Elements(l) && l[k].size >= 1 && c != l[k] && Apart(c, l[k]);
    SpreadSet(l);
    assert c in Elements(l) ==> Separated(c, l[k]);
  }

  /** After an exact fit no list makes the region sound, for the empty header lands on a live chunk or outside. */
  lemma ExactFitHeader(header: int, mem: Memory, head: int, l: seq<Block>, live: set<Block>, core: set<int>, k: nat,
                       mem': Memory, head': int, l': seq<Block>)
    requires RegionOk(header, mem, head, l, live, core) && k < |l| && header >= 1
    requires l[k].addr + l[k].size in mem'
    requires RegionOk(header, mem', head', l', live + {l[k]}, core)
    ensures mem'[l[k].addr + l[k].size].size >= 1
  {
    hide RegionOk;
    HeaderInside(header, mem', head', l', live + {l[k]}, core, l[k].addr + l[k].size);
    var c := NextIsLive(header, mem, head, l, live, core, k);
    LiveSize(header, mem', head', l', live + {l[k]}, core, c);
  }

  lemma HeaderInside(header: int, mem: Memory, head: int, l: seq<Block>, live: set<Block>, core: set<int>, a: int)
    requires RegionOk(header, mem, head, l, live, core) && a in mem
    ensures a in core
  {
  }

  lemma LiveSize(header: int, mem: Memory, head: int, l: seq<Block>, live: set<Block>, core: set<int>, c: Block)
    requires RegionOk(header, mem, head, l, live, core) && c in live && header >= 1
    ensures c.addr in mem && mem[c.addr].size == c.size && c.size >= 1 && c.addr > 0
  {
  }

  /** Some list makes the region sound with these chunks live. */
  ghost predicate Sound(header: int, mem: Memory, head: int, live: set<Block>, core: set<int>) {
    exists l :: RegionOk(header, mem, head, l, live, core)
  }

  /** After a split some list makes the region sound only if the remainder is on it. */
  lemma RemainderListed(header: int, mem: Memory, head: int, l: seq<Block>, live: set<Block>, core: set<int>, k: nat,
                        need: int, mem': Memory, head': int, l': seq<Block>)
    requires RegionOk(header, mem, head, l, live, core) && k < |l| && 1 <= need < l[k].size
    requires RegionOk(header, mem', head', l', live + {Block(l[k].addr, need)}, core)
    ensures l[k].size - need >= header
  {
    hide Tiles, Linked;
    var tail, cut := Block(l[k].addr + need, l[k].size - need), Block(l[k].addr, need);
    InElements(l, k);
    ReplaceElements(l, k, tail);
    CutTiles(Elements(l), live, core, l[k], tail, cut);
    ReplaceSpread(l, k, tail);
    SpreadSet(l[k := tail]);
    SpreadSet(l');
    FreeIsCanonical(Elements(l'), Elements(l[k := tail]), live + {cut}, core);
    var i :| 0 <= i < |l'| && l'[i] == tail;
    assert Sized(l'[i], header);
  }

  /** The cut is recorded soundly by some list only if the remainder can hold a header. */
  lemma AllocExact(header: int, mem: Memory, head: int, l: seq<Block>, live: set<Block>, core: set<int>, k: nat,
                   need: int, mem': Memory, head': int, l': seq<Block>)
    requires RegionOk(header, mem, head, l, live, core) && k < |l| && 1 <= need <= l[k].size && header >= 1
    requires var end := l[k].addr + need; end in mem' && mem'[end].size == l[k].size - need
    requires RegionOk(header, mem', head', l', live + {Block(l[k].addr, need)}, core)
    ensures l[k].size >= need + header
  {
    hide RegionOk;
    if need < l[k].size {
      RemainderListed(header, mem, head, l, live, core, k, need, mem', head', l');
    } else {
      assert l[k] == Block(l[k].addr, need);
      ExactFitHeader(header, mem, head, l, live, core, k, mem', head', l');
    }
  }

  lemma ReplaceElements(l: seq<Block>, k: nat, c: Block)
    requires k < |l| && Spread(l, 0)
    ensures Elements(l[k := c]) == Elements(l) - {l[k]} + {c}
  {
    var r := l[k := c];
    forall x | x in Elements(r) ensures x in Elements(l) - {l[k]} + {c} {
      var i :| 0 <= i < |r| && r[i] == x;
      assert i != k ==> l[i] == x;
      assert i < k ==> Separated(l[i], l[k]);
      assert i > k ==> Separated(l[k], l[i]);
    }
    forall x | x in Elements(l) - {l[k]} ensures x in Elements(r) {
      var i :| 0 <= i < |l| && l[i] == x;
      assert r[i] == x;
    }
    assert r[k] in Elements(r);
  }

  lemma ReplaceSpread(l: seq<Block>, k: nat, tail: Block)
    requires k < |l| && Spread(l, 0) && tail.size >= 1
    requires l[k].addr <= tail.addr && tail.addr + tail.size == l[k].addr + l[k].size
    ensures Spread(l[k := tail], 0)
  {
  }

  lemma CutTiles(free: set<Block>, live: set<Block>, core: set<int>, b: Block, tail: Block, cut: Block)
    requires Tiles(free + live, core) && free !! live && b in free
    requires cut.addr == b.addr && tail.addr == b.addr + cut.size && cut.size + tail.size == b.size
    requires cut.size >= 1 && tail.size >= 1
    ensures var free' := free - {b} + {tail};
      && Tiles(free' + (live + {cut}), core)
      && free' !! (live + {cut}) && cut !in live
  {
    forall u ensures InSome({tail, cut}, u) <==> InSome({b}, u) {
      assert {tail, cut} == {tail} + {cut};
      InSomeUnion({tail}, {cut}, u);
      InSomeOne(tail, u);
      InSomeOne(cut, u);
      InSomeOne(b, u);
    }
    TilesReplace(free + live, core, {b}, {tail, cut});
    assert free - {b} + {tail} + (live + {cut}) == free + live - {b} + {tail, cut};
  }

  /** The program asks for a chunk, or gives back the k-th of those it holds. */
  datatype Request = Alloc(size: nat) | Release(k: nat)

  /** The region, and the pointers and chunks the program holds. */
  datatype RegionState = RegionState(mem: Memory, head: int, l: seq<Block>, live: set<Block>, held: seq<int>, blocks: seq<Block>)

  ghost predicate StateOk(header: int, core: set<int>, s: RegionState) {
    RegionOk(header, s.mem, s.head, s.l, s.live, core) && Held(s.held, s.blocks, s.live, header)
  }

  /** There is a list, and the largest chunk does not fit or leaves room for a header. */
  ghost predicate Servable(header: int, s: RegionState, q: Request) {
    q.Alloc? ==>
      && s.head != 0
      && (forall k :: IsWorst(s.l, k) && s.l[k].size >= q.size + header ==> s.l[k].size >= Need(q.size, header) + header)
  }

  /** A chunk of the first largest free one, or none if that does not fit. */
  ghost predicate AllocatedBy(header: int, s: RegionState, size: nat, s': RegionState, k: nat) {
    && IsWorst(s.l, k)
    && if s.l[k].size < size + header then s' == s
       else
         var need := Need(size, header);
         var cut := Block(s.l[k].addr, need);
         && cut !in s.live && s'.live == s.live + {cut}
         && s'.l == s.l[k := Block(cut.addr + need, s.l[k].size - need)]
         && s'.held == s.held + [cut.addr + header] && s'.blocks == s.blocks + [cut]
         && Kept(s.live, s.mem, s'.mem)
  }

  ghost predicate ReleasedBy(s: RegionState, k: nat, s': RegionState) {
    if k < |s.held| && k < |s.blocks| then
      && s'.held == Without(s.held, k) && s'.blocks == Without(s.blocks, k) && s'.live == s.live - {s.blocks[k]}
      && |s'.l| >= 1 && (forall u :: InBlock(s.blocks[k], u) ==> InBlock(s'.l[0], u))
      && Kept(s'.live, s.mem, s'.mem)
    else s' == s
  }

  ghost predicate ServedBy(header: int, s: RegionState, q: Request, s': RegionState) {
    match q
    case Alloc(size) => exists k: nat :: AllocatedBy(header, s, size, s', k)
    case Release(k) => ReleasedBy(s, k, s')
  }

  /** The states of a run of requests that can all be served. */
  ghost predicate IsRun(header: int, core: set<int>, requests: seq<Request>, states: seq<RegionState>) {
    && 1 <= |states| <= |requests| + 1
    && (forall k :: 0 <= k < |states| ==> StateOk(header, core, states[k]))
    && (forall k :: 0 <= k < |states| - 1 ==>
          Servable(header, states[k], requests[k]) && ServedBy(header, states[k], requests[k], states[k + 1]))
  }

  lemma RunStarts(header: int, core: set<int>, requests: seq<Request>, s: RegionState)
    requires StateOk(header, core, s)
    ensures IsRun(header, core, requests, [s])
  {
  }

  lemma RunGoesOn(header: int, core: set<int>, requests: seq<Request>, states: seq<RegionState>, s: RegionState)
    requires IsRun(header, core, requests, states) && |states| <= |requests| && StateOk(header, core, s)
    requires var n := |states| - 1; Servable(header, states[n], requests[n]) && ServedBy(header, states[n], requests[n], s)
    ensures IsRun(header, core, requests, states + [s])
  {
    hide StateOk, Servable, ServedBy;
    var states' := states + [s];
    forall k | 0 <= k < |states'| - 1
      ensures Servable(header, states'[k], requests[k]) && ServedBy(header, states'[k], requests[k], states'[k + 1])
    {
      assert k < |states| - 1 ==> Servable(header, states[k], requests[k]) && ServedBy(header, states[k], requests[k], states[k + 1]);
    }
  }

  class Region {
    const header: int
    var mem: Memory
    var head: int
    ghost var l: seq<Block>
    ghost var live: set<Block>
    ghost var core: set<int>

    ghost predicate Valid()
      reads this
    {
      && header >= 8 && header % 8 == 0
      && RegionOk(header, mem, head, l, live, core)
    }

    /** What `Mem_Init` leaves: the region is one free chunk. */
    constructor (header: int, start: int, size: int)
      requires header >= 8 && header % 8 == 0 && start > 0 && size % 8 == 0 && size >= header
      ensures Valid() && l == [Block(start, size)] && live == {} && core == Interval(Block(start, size))
      ensures this.header == header
    {
      var b := Block(start, size);
      this.header, mem, head := header, map[start := Node(size, 0)], start;
      l, live, core := [b], {}, Interval(b);
      new;
      assert NodeAt(l, mem, 0);
      assert l[0] in Elements(l) && Elements(l) == {b};
      assert Elements(l) + live == {b};
      forall u ensures u in core <==> InSome({b}, u) {
        InSomeOne(b, u);
      }
    }

    ghost predicate SomeFits(size: nat)
      reads this
    {
      exists i :: 0 <= i < |l| && l[i].size >= size + header
    }

    /** Sound exactly when the largest chunk leaves room for a header. */
    method MemAlloc(size: nat) returns (r: int, ghost k: nat)
      requires Valid() && head != 0
      modifies this
      ensures core == old(core)
      ensures r != 0 <==> old(SomeFits(size))
      ensures r == 0 ==> Valid() && mem == old(mem) && head == old(head) && l == old(l) && live == old(live)
      ensures IsWorst(old(l), k) && k < |old(l)| && (r == 0 ==> old(l)[k].size < size + header)
      ensures r != 0 ==>
        var cut := Block(r - header, Need(size, header));
        && r == old(l)[k].addr + header && cut !in old(live) && Need(size, header) - header >= size
        && old(l)[k].size >= size + header
        && (Sound(header, mem, head, old(live) + {cut}, core) <==> old(l)[k].size >= Need(size, header) + header)
      ensures r != 0 && old(l)[k].size >= Need(size, header) + header ==>
        var need := Need(size, header);
        && Valid()
        && live == old(live) + {Block(r - header, need)}
        && l == old(l)[k := Block(r - header + need, old(l)[k].size - need)]
        && Kept(old(live), old(mem), mem)
      ensures r != 0 && old(l)[k].size < Need(size, header) + header ==> l == old(l) && live == old(live)
      ensures r != 0 && old(l)[k].size == Need(size, header) ==>
        var end := r - header + Need(size, header);
        && end in mem && mem[end].size == 0
        && (end in core ==> exists c :: c in old(live) && c.addr == end)
        && (if k == 0 then head == 0 else Linked(Dropped(old(l), k), mem, head))
    {
      hide RegionOk, Linked, Kept, InBlock, Elements, AllSized, Spread, Tiles;
      RegionFacts(header, mem, head, l, live, core);
      var worst, listPrev: int;
      worst, listPrev, k := GetWorstFit(mem, head, header, size, l);
      FitTestSuffices(l[k].size, size, header);
      if worst == 0 {
        return 0, k;
      }
      ChunkApart(header, mem, head, l, live, core, k);
      ghost var m0, h0 := mem, head;
      mem, head := ChunkNode(mem, head, listPrev, worst, size, header, l, k);
      ghost var need := Need(size, header);
      ghost var cut := Block(worst, need);
      if Sound(header, mem, head, live + {cut}, core) {
        ghost var free :| RegionOk(header, mem, head, free, live + {cut}, core);
        AllocExact(header, m0, h0, l, live, core, k, need, mem, head, free);
      }
      if l[k].size == need && worst + need in core {
        var _ := NextIsLive(header, m0, h0, l, live, core, k);
      }
      if l[k].size >= need + header {
        AllocKeeps(header, m0, h0, l, live, core, mem, head, k, need);
        live := live + {cut};
        l := l[k := Block(worst + need, l[k].size - need)];
      }
      r := worst + header;
    }

    method MemFree(ptr: int)
      requires Valid()
      requires ptr != 0 ==> ptr - header in mem && Block(ptr - header, mem[ptr - header].size) in live
      modifies this
      ensures Valid() && core == old(core)
      ensures ptr == 0 ==> mem == old(mem) && l == old(l) && live == old(live)
      ensures ptr != 0 ==>
        var b := Block(ptr - header, old(mem)[ptr - header].size);
        && live == old(live) - {b}
        && |l| >= 1 && (forall u :: InBlock(b, u) ==> InBlock(l[0], u))
        && Kept(live, old(mem), mem)
    {
      hide RegionOk;
      if ptr == 0 {
        return;
      }
      ghost var b := Block(ptr - header, mem[ptr - header].size);
      FreeStart(header, mem, head, l, live, core, b);
      ghost var m0, h0, l0 := mem, head, l;
      mem, head, l := FindNeighborNode(mem, head, ptr - header, l, b, live - {b}, core, header);
      FreeEnd(header, m0, h0, l0, mem, head, l, live, core, b);
      live := live - {b};
    }

    lemma Conservation()
      requires Valid()
      ensures Total(Elements(l)) + Total(live) == |core|
    {
      TotalUnion(Elements(l), live);
      TilesCount(Elements(l) + live, core);
    }

    lemma LiveHeader(b: Block)
      requires Valid() && b in live
      ensures b.addr in mem && mem[b.addr].size == b.size && b.addr > 0 && header > 0
    {
      LiveSize(header, mem, head, l, live, core, b);
    }

    ghost function Snapshot(held: seq<int>, blocks: seq<Block>): RegionState
      reads this
    {
      RegionState(mem, head, l, live, held, blocks)
    }

    /** `Mem_Alloc` where it is sound. */
    method ServeAlloc(size: nat, held: seq<int>, ghost blocks: seq<Block>)
      returns (ok: bool, held': seq<int>, ghost blocks': seq<Block>)
      requires Valid() && Held(held, blocks, live, header)
      modifies this
      ensures Valid() && core == old(core) && Held(held', blocks', live, header)
      ensures ok <==> Servable(header, old(Snapshot(held, blocks)), Alloc(size))
      ensures !ok ==> Snapshot(held', blocks') == old(Snapshot(held, blocks))
      ensures ok ==> exists k: nat :: AllocatedBy(header, old(Snapshot(held, blocks)), size, Snapshot(held', blocks'), k)
    {
      hide RegionOk, Kept, Held, Need, Sound, Linked, IsWorst, SomeFits;
      ghost var s := Snapshot(held, blocks);
      held', blocks' := held, blocks;
      if head == 0 {
        return false, held', blocks';
      }
      ok := LeavesRoom(size);
      if !ok {
        return;
      }
      var r, k := MemAlloc(size);
      if r == 0 {
        assert AllocatedBy(header, s, size, Snapshot(held', blocks'), k);
        return;
      }
      ghost var b := Block(r - header, Need(size, header));
      HeldMore(held, blocks, s.live, header, b);
      held', blocks' := held + [r], blocks + [b];
      assert AllocatedBy(header, s, size, Snapshot(held', blocks'), k);
    }

    /** One request, if it can be served. */
    method Serve(q: Request, held: seq<int>, ghost blocks: seq<Block>)
      returns (ok: bool, held': seq<int>, ghost blocks': seq<Block>)
      requires Valid() && Held(held, blocks, live, header)
      modifies this
      ensures Valid() && core == old(core) && Held(held', blocks', live, header)
      ensures ok <==> Servable(header, old(Snapshot(held, blocks)), q)
      ensures !ok ==> Snapshot(held', blocks') == old(Snapshot(held, blocks))
      ensures ok ==> ServedBy(header, old(Snapshot(held, blocks)), q, Snapshot(held', blocks'))
    {
      hide RegionOk, Kept, Held, Need, AllocatedBy, IsWorst;
      match q
      case Alloc(size) =>
        ok, held', blocks' := ServeAlloc(size, held, blocks);
      case Release(k) =>
        ok, held', blocks' := true, held, blocks;
        HeldLength(held, blocks, live, header);
        if k < |held| {
          HeldLess(held, blocks, live, header, k);
          LiveHeader(blocks[k]);
          MemFree(held[k]);
          held', blocks' := Without(held, k), Without(blocks, k);
        }
    }

    /** Any run, up to the first request that finds no list or whose remainder could not hold a header: the
        states on the way, each from the one before by its request. */
    method Run(requests: seq<Request>) returns (served: nat, held: seq<int>, ghost states: seq<RegionState>)
      requires Valid()
      modifies this
      ensures Valid() && core == old(core)
      ensures served <= |requests| && |states| == served + 1 && IsRun(header, core, requests, states)
      ensures states[0] == old(Snapshot([], [])) && states[served] == Snapshot(held, states[served].blocks)
      ensures served < |requests| ==> !Servable(header, states[served], requests[served])
      ensures Total(Elements(l)) + Total(live) == |core|
    {
      hide Servable, ServedBy, IsRun, RegionOk, Held, Elements, Total;
      held := [];
      ghost var blocks: seq<Block> := [];
      served := 0;
      HeldNone(live, header);
      states := [Snapshot(held, blocks)];
      RunStarts(header, core, requests, states[0]);
      while served < |requests|
        invariant Valid() && core == old(core) && Held(held, blocks, live, header)
        invariant 0 <= served <= |requests| && |states| == served + 1 && IsRun(header, core, requests, states)
        invariant states[0] == old(Snapshot([], [])) && states[served] == Snapshot(held, blocks)
      {
        var ok;
        ok, held, blocks := Serve(requests[served], held, blocks);
        if !ok {
          break;
        }
        RunGoesOn(header, core, requests, states, Snapshot(held, blocks));
        states := states + [Snapshot(held, blocks)];
        served := served + 1;
      }
      Conservation();
    }

    /** No chunk fits, or the largest one leaves room for another header. */
    method LeavesRoom(size: nat) returns (room: bool)
      requires Valid() && head != 0
      ensures room <==> forall k :: IsWorst(l, k) ==>
        l[k].size >= size + header ==> l[k].size >= Need(size, header) + header
    {
      RegionFacts(header, mem, head, l, live, core);
      var worst, _, k := GetWorstFit(mem, head, header, size, l);
      ListNode(l, mem, head, k);
      room := worst == 0 || mem[worst].size >= Need(size, header) + header;
    }
  }

  lemma RegionFacts(header: int, mem: Memory, head: int, l: seq<Block>, live: set<Block>, core: set<int>)
    requires RegionOk(header, mem, head, l, live, core)
    ensures Linked(l, mem, head) && (head != 0 <==> |l| >= 1)
    ensures forall i :: 0 <= i < |l| ==> l[i].size % 8 == 0 && l[i].addr > 0
  {
  }

  lemma ChunkApart(header: int, mem: Memory, head: int, l: seq<Block>, live: set<Block>, core: set<int>, k: nat)
    requires RegionOk(header, mem, head, l, live, core) && k < |l|
    ensures forall i :: 0 <= i < |l| && i != k ==> l[i].addr < l[k].addr || l[i].addr > l[k].addr + l[k].size
    ensures forall n :: Block(l[k].addr, n) !in live
  {
    forall i | 0 <= i < |l| && i != k ensures l[i].addr < l[k].addr || l[i].addr > l[k].addr + l[k].size {
      assert if i < k then Separated(l[i], l[k]) else Separated(l[k], l[i]);
      assert l[i].size >= 1;
    }
    forall n ensures Block(l[k].addr, n) !in live {
      if Block(l[k].addr, n) in live {
        LiveElsewhere(header, mem, head, l, live, core, k, Block(l[k].addr, n), l[k].addr);
      }
    }
  }

  lemma FreeStart(header: int, mem: Memory, head: int, l: seq<Block>, live: set<Block>, core: set<int>, b: Block)
    requires RegionOk(header, mem, head, l, live, core) && b in live
    ensures Linked(l, mem, head) && Spread(l, 0) && AllSized(l, header) && Sized(b, header)
    ensures Beside(l, b, live - {b}, core) && b !in Elements(l)
  {
    assert Elements(l) + {b} + (live - {b}) == Elements(l) + live;
  }

  lemma FreeEnd(header: int, mem: Memory, head: int, l: seq<Block>, mem': Memory, head': int, l': seq<Block>,
                live: set<Block>, core: set<int>, b: Block)
    requires RegionOk(header, mem, head, l, live, core)
    requires Linked(l', mem', head') && Spread(l', 0) && AllSized(l', header)
    requires Tiles(Elements(l') + (live - {b}), core) && Elements(l') !! (live - {b})
    requires Kept(live - {b}, mem, mem') && mem'.Keys == mem.Keys
    ensures RegionOk(header, mem', head', l', live - {b}, core)
  {
  }

  lemma ThreeTiles(core: set<int>)
    requires forall u :: u in core <==> InBlock(Block(8, 40), u)
    ensures Tiles({Block(8, 16), Block(40, 8)} + {Block(24, 16)}, core)
  {
    hide InSome;
    var a, b, c := Block(8, 16), Block(40, 8), Block(24, 16);
    assert {a, b} == {a} + {b};
    forall u ensures u in core <==> InSome({a, b} + {c}, u) {
      InSomeUnion({a} + {b}, {c}, u);
      InSomeUnion({a}, {b}, u);
      InSomeOne(a, u);
      InSomeOne(b, u);
      InSomeOne(c, u);
    }
  }

  lemma TwoChunksLeft(mem: Memory, head: int, l: seq<Block>, core: set<int>)
    requires RegionOk(8, mem, head, l, {Block(24, 16)}, core) && forall u :: u in core <==> InBlock(Block(8, 40), u)
    requires |l| >= 1 && InBlock(l[0], 8)
    ensures l[0] == Block(8, 16) && head == 8 && Elements(l) == {Block(8, 16), Block(40, 8)}
  {
    hide Tiles, Elements;
    var t := {Block(8, 16), Block(40, 8)};
    ThreeTiles(core);
    SpreadSet(l);
    assert AllSeparated(t);
    FreeIsCanonical(Elements(l), t, {Block(24, 16)}, core);
    InElements(l, 0);
  }

  method GapBeforeLive() returns (region: Region)
    ensures fresh(region) && region.Valid() && region.header == 8 && region.core == Interval(Block(8, 40))
    ensures region.live == {Block(24, 16)} && region.head == 8
    ensures |region.l| >= 1 && region.l[0] == Block(8, 16) && Elements(region.l) == {Block(8, 16), Block(40, 8)}
  {
    hide RegionOk, Sound, Kept, Linked, Elements, Tiles, Interval;
    region := new Region(8, 8, 40);
    RegionFacts(8, region.mem, region.head, region.l, region.live, region.core);
    assert region.l[0].size >= 8 + region.header && region.SomeFits(8);
    var p, _ := region.MemAlloc(8);
    assert region.l == [Block(24, 24)];
    RegionFacts(8, region.mem, region.head, region.l, region.live, region.core);
    assert region.l[0].size >= 8 + region.header && region.SomeFits(8);
    var q, _ := region.MemAlloc(8);
    assert region.live == {Block(8, 16), Block(24, 16)};
    region.LiveHeader(Block(8, 16));
    region.MemFree(p);
    assert region.live == {Block(24, 16)} && InBlock(Block(8, 16), 8);
    TwoChunksLeft(region.mem, region.head, region.l, region.core);
  }

  /** Two chunks taken and the first given back: taking it again empties the second one's header and the list. */
  method ExactFitDestroys() returns (region: Region)
    ensures fresh(region) && region.header == 8 && region.core == Interval(Block(8, 40))
    ensures Block(24, 16) in region.live && 24 in region.mem && region.mem[24].size == 0
    ensures region.head == 0 && Block(40, 8) in Elements(region.l)
    ensures !Sound(8, region.mem, region.head, region.live + {Block(8, 16)}, region.core)
  {
    hide RegionOk, Sound, Kept, Linked, Elements, Tiles, Interval;
    region := GapBeforeLive();
    forall i | 0 <= i < |region.l| ensures region.l[i] == Block(8, 16) || region.l[i] == Block(40, 8) {
      InElements(region.l, i);
    }
    assert region.l[0].size >= 8 + region.header && region.SomeFits(8);
    var _, k := region.MemAlloc(8);
  }
}
