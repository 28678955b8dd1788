// The page tables of 5/xv6/vm.c over the page allocator of 5/xv6/kalloc.c.
// Addresses are page numbers; a page holds either page table entries or bytes.
// Every page of the allocator's pool has one role, and the invariant ties that role to the
// pointers found in memory, in both directions.
module Vm {
  import opened Common

  const ENTRIES := 1024          // NPDENTRIES and NPTENTRIES
  const VIRTUAL := 0x100000      // pages of the 32-bit address space
  const USER_PAGES := 160        // USERTOP / PGSIZE
  const PAGE_BYTES := 4096       // PGSIZE
  const POOL_END := 4096         // PHYSTOP / PGSIZE

  datatype Pte = Absent | Present(frame: nat, user: bool)

  datatype Page = Words(es: seq<Pte>) | Bytes(data: seq<int>)

  datatype Role =
    | Free
    | Directory
    | Table(dir: nat, pdx: nat)        // page table of entry pdx of that directory
    | User(dir: nat, vpn: nat)         // user memory of that directory
    | Other                            // in the hands of some kernel code: a stack, a pipe, ...

  /** Physical memory, kmem.freelist, and the role of every page of the pool. */
  datatype State = State(mem: map<nat, Page>, free: seq<nat>, role: map<nat, Role>)

  function ZeroTable(): Page {
    Words(seq(ENTRIES, _ => Absent))
  }

  function ZeroBytes(): (p: Page)
    ensures Holds(p, 0)
  {
    Bytes(seq(PAGE_BYTES, _ => 0))
  }

  function Junk(): (p: Page)
    ensures Holds(p, 1)
  {
    Bytes(seq(PAGE_BYTES, _ => 1))
  }

  /** Every byte of the page is b. */
  ghost predicate Holds(p: Page, b: int) {
    p.Bytes? && |p.data| == 4096 && forall i :: 0 <= i < 4096 ==> p.data[i] == b
  }

  predicate IsTable(p: Page) {
    p.Words? && |p.es| == ENTRIES
  }

  predicate IsBytes(p: Page) {
    p.Bytes? && |p.data| == PAGE_BYTES
  }

  // ------------------------------------------------------------ the invariant

  predicate IsDir(s: State, d: nat) {
    d in s.role && s.role[d] == Directory && d in s.mem && IsTable(s.mem[d])
  }

  predicate IsTableOf(s: State, t: nat, d: nat, i: nat) {
    t in s.role && s.role[t] == Table(d, i) && t in s.mem && IsTable(s.mem[t])
  }

  predicate IsUserOf(s: State, p: nat, d: nat, v: nat) {
    p in s.role && s.role[p] == User(d, v) && p in s.mem && IsBytes(s.mem[p])
  }

  function Pde(s: State, d: nat, i: nat): Pte
    requires IsDir(s, d) && i < ENTRIES
  {
    s.mem[d].es[i]
  }

  /** Entry i of directory d, if present, points to the page table that is d's i-th. */
  predicate PdeOk(s: State, d: nat, i: nat)
    requires IsDir(s, d) && i < ENTRIES
  {
    Pde(s, d, i).Present? ==> IsTableOf(s, Pde(s, d, i).frame, d, i)
  }

  /** Entry k of page table t: below USERTOP a user page of the same directory, above it kernel memory. */
  predicate PteOk(s: State, t: nat, d: nat, i: nat, k: nat)
    requires IsTableOf(s, t, d, i) && k < ENTRIES
  {
    var e := s.mem[t].es[k];
    e.Present? ==> if i == 0 && k < USER_PAGES then e.user && IsUserOf(s, e.frame, d, k) else !e.user
  }

  ghost predicate PageOk(s: State, p: nat)
    requires p in s.role
  {
    match s.role[p]
    case Free => p in s.free
    case Directory => IsDir(s, p) && forall i {:trigger PdeOk(s, p, i)} :: 0 <= i < ENTRIES ==> PdeOk(s, p, i)
    case Table(d, i) =>
      && IsTableOf(s, p, d, i) && IsDir(s, d) && i < ENTRIES
      && Pde(s, d, i).Present? && Pde(s, d, i).frame == p
      && (forall k {:trigger PteOk(s, p, d, i, k)} :: 0 <= k < ENTRIES ==> PteOk(s, p, d, i, k))
    case User(d, v) =>
      && IsUserOf(s, p, d, v) && IsDir(s, d) && v < USER_PAGES && Pde(s, d, 0).Present?
      && var t := Pde(s, d, 0).frame;
         IsTableOf(s, t, d, 0) && s.mem[t].es[v] == Present(p, true)
    case Other => true
  }

  ghost predicate FreeListOk(s: State) {
    && (forall i, j :: 0 <= i < j < |s.free| ==> s.free[i] != s.free[j])
    && (forall i :: 0 <= i < |s.free| ==> s.free[i] in s.role && s.role[s.free[i]] == Free)
  }

  ghost predicate Valid(s: State) {
    && s.mem.Keys == s.role.Keys
    && (forall p :: p in s.role ==> 0 < p < POOL_END)
    && (forall p {:trigger PageOk(s, p)} :: p in s.role ==> PageOk(s, p))
    && FreeListOk(s)
  }

  /** The entry for virtual page v, as walkpgdir finds it without creating anything. */
  function Lookup(s: State, d: nat, v: nat): Pte
    requires IsDir(s, d) && v < VIRTUAL
  {
    var e := Pde(s, d, v / ENTRIES);
    if e.Present? && e.frame in s.mem && IsTable(s.mem[e.frame]) then s.mem[e.frame].es[v % ENTRIES] else Absent
  }

  // ---------------------------------------------------------- one page at a time

  function Taken(s: State): State
    requires |s.free| > 0
  {
    s.(free := s.free[1..], role := s.role[s.free[0] := Other])
  }

  function Freed(s: State, p: nat): State {
    State(s.mem[p := Junk()], [p] + s.free, s.role[p := Free])
  }

  /** What page q needs of the rest to stay in order when it does not change itself. */
  ghost predicate Supported(s: State, s': State, q: nat)
    requires q in s.role
  {
    match s.role[q]
    case Free => q in s'.free
    case Directory =>
      && q in s.mem && q in s'.mem && s'.mem[q] == s.mem[q]
      && (forall t, i :: IsTableOf(s, t, q, i) ==> IsTableOf(s', t, q, i))
    case Table(d, i) =>
      && q in s.mem && q in s'.mem && s'.mem[q] == s.mem[q]
      && IsDir(s, d) && IsDir(s', d) && i < ENTRIES && Pde(s', d, i) == Pde(s, d, i)
      && (i == 0 ==> forall p, v :: IsUserOf(s, p, d, v) ==> IsUserOf(s', p, d, v))
    case User(d, v) =>
      && IsUserOf(s', q, d, v) && IsDir(s, d) && IsDir(s', d) && Pde(s', d, 0) == Pde(s, d, 0)
      && (Pde(s, d, 0).Present? ==>
            var t := Pde(s, d, 0).frame;
            IsTableOf(s, t, d, 0) ==> IsTableOf(s', t, d, 0) && (v < ENTRIES ==> s'.mem[t].es[v] == s.mem[t].es[v]))
    case Other => true
  }

  lemma PageStays(s: State, s': State, q: nat)
    requires q in s.role && PageOk(s, q) && q in s'.role && s'.role[q] == s.role[q] && Supported(s, s', q)
    ensures PageOk(s', q)
  {
    match s.role[q]
    case Directory =>
      forall i | 0 <= i < ENTRIES ensures PdeOk(s', q, i) {
        assert PdeOk(s, q, i);
      }
    case Table(d, i) =>
      forall k | 0 <= k < ENTRIES ensures PteOk(s', q, d, i, k) {
        assert PteOk(s, q, d, i, k);
      }
    case _ =>
  }

  /** Only page x changes, and it is not in use by any directory. */
  lemma SpareSupports(s: State, s': State, x: nat, q: nat)
    requires x in s.role && (s.role[x].Free? || s.role[x].Other?)
    requires s.mem.Keys == s.role.Keys == s'.role.Keys == s'.mem.Keys
    requires forall p :: p in s.role && p != x ==> s'.role[p] == s.role[p] && s'.mem[p] == s.mem[p]
    requires q in s.role && PageOk(s, q) && q != x && (s.role[q].Free? ==> q in s'.free)
    ensures PageOk(s', q)
  {
    PageStays(s, s', q);
  }

  lemma TakenValid(s: State)
    requires Valid(s) && |s.free| > 0
    ensures Valid(Taken(s))
  {
    var s' := Taken(s);
    var x := s.free[0];
    assert s.role[x] == Free;
    forall q | q in s'.role ensures PageOk(s', q) {
      assert PageOk(s, q);
      if q != x { SpareSupports(s, s', x, q); }
    }
  }

  lemma FreedValid(s: State, x: nat)
    requires Valid(s) && x in s.role && s.role[x] == Other
    ensures Valid(Freed(s, x))
  {
    var s' := Freed(s, x);
    forall q | q in s'.role ensures PageOk(s', q) {
      assert PageOk(s, q);
      if q != x { SpareSupports(s, s', x, q); }
    }
  }

  function Written(s: State, x: nat, page: Page): State {
    s.(mem := s.mem[x := page])
  }

  /** A page in nobody's hands but the caller's may hold anything. */
  lemma WrittenValid(s: State, x: nat, page: Page)
    requires Valid(s) && x in s.role && s.role[x] == Other
    ensures Valid(Written(s, x, page))
  {
    var s' := Written(s, x, page);
    forall q | q in s'.role ensures PageOk(s', q) {
      assert PageOk(s, q);
      if q != x { SpareSupports(s, s', x, q); }
    }
  }

  function NewDir(s: State, x: nat): State {
    s.(role := s.role[x := Directory])
  }

  lemma NewDirValid(s: State, x: nat)
    requires Valid(s) && x in s.role && s.role[x] == Other && s.mem[x] == ZeroTable()
    ensures Valid(NewDir(s, x)) && IsDir(NewDir(s, x), x)
    ensures forall v :: 0 <= v < VIRTUAL ==> Lookup(NewDir(s, x), x, v) == Absent
  {
    var s' := NewDir(s, x);
    forall q | q in s'.role ensures PageOk(s', q) {
      assert PageOk(s, q);
      if q != x { SpareSupports(s, s', x, q); }
    }
  }

  /** walkpgdir hangs the cleared page t below entry i of d. */
  function NewTable(s: State, d: nat, i: nat, t: nat): State
    requires IsDir(s, d) && i < ENTRIES
  {
    s.(mem := s.mem[d := Words(s.mem[d].es[i := Present(t, true)])], role := s.role[t := Table(d, i)])
  }

  lemma NewTableValid(s: State, d: nat, i: nat, t: nat)
    requires Valid(s) && IsDir(s, d) && i < ENTRIES && Pde(s, d, i) == Absent
    requires t in s.role && s.role[t] == Other && s.mem[t] == ZeroTable()
    ensures Valid(NewTable(s, d, i, t)) && IsDir(NewTable(s, d, i, t), d)
  {
    var s' := NewTable(s, d, i, t);
    forall q | q in s'.role ensures PageOk(s', q) {
      assert PageOk(s, q);
      if q == d {
        forall j | 0 <= j < ENTRIES ensures PdeOk(s', d, j) {
          assert PdeOk(s, d, j);
        }
      } else if q != t {
        PageStays(s, s', q);
      }
    }
  }

  /** Entry k of page table t becomes e. */
  function WithPte(s: State, t: nat, k: nat, e: Pte): State
    requires t in s.mem && IsTable(s.mem[t]) && k < ENTRIES
  {
    s.(mem := s.mem[t := Words(s.mem[t].es[k := e])])
  }

  lemma KernelPteValid(s: State, t: nat, d: nat, i: nat, k: nat, frame: nat)
    requires Valid(s) && IsTableOf(s, t, d, i) && k < ENTRIES && !(i == 0 && k < USER_PAGES)
    ensures Valid(WithPte(s, t, k, Present(frame, false)))
  {
    var s' := WithPte(s, t, k, Present(frame, false));
    assert PageOk(s, t);
    forall q | q in s'.role ensures PageOk(s', q) {
      assert PageOk(s, q);
      if q == t {
        forall j | 0 <= j < ENTRIES ensures PteOk(s', t, d, i, j) {
          assert PteOk(s, t, d, i, j);
        }
      } else {
        PageStays(s, s', q);
      }
    }
  }

  /** The caller's page x becomes user page v of d. */
  function Attached(s: State, t: nat, d: nat, v: nat, x: nat): State
    requires t in s.mem && IsTable(s.mem[t]) && v < ENTRIES
  {
    WithPte(s, t, v, Present(x, true)).(role := s.role[x := User(d, v)])
  }

  lemma AttachedValid(s: State, t: nat, d: nat, v: nat, x: nat)
    requires Valid(s) && IsTableOf(s, t, d, 0) && v < USER_PAGES && s.mem[t].es[v] == Absent
    requires x in s.role && s.role[x] == Other && IsBytes(s.mem[x])
    ensures Valid(Attached(s, t, d, v, x))
  {
    var s' := Attached(s, t, d, v, x);
    assert PageOk(s, t);
    forall q | q in s'.role ensures PageOk(s', q) {
      assert PageOk(s, q);
      if q == t {
        forall j | 0 <= j < ENTRIES ensures PteOk(s', t, d, 0, j) {
          assert PteOk(s, t, d, 0, j);
        }
      } else if q != x {
        PageStays(s, s', q);
      }
    }
  }

  /** The user page behind entry v of table t is handed back and the entry cleared. */
  function Detached(s: State, t: nat, v: nat, x: nat): State
    requires t in s.mem && IsTable(s.mem[t]) && v < ENTRIES
  {
    WithPte(s, t, v, Absent).(role := s.role[x := Other])
  }

  lemma DetachedValid(s: State, t: nat, d: nat, v: nat, x: nat)
    requires Valid(s) && IsTableOf(s, t, d, 0) && v < USER_PAGES && s.mem[t].es[v] == Present(x, true)
    requires IsUserOf(s, x, d, v)
    ensures Valid(Detached(s, t, v, x))
  {
    var s' := Detached(s, t, v, x);
    assert PageOk(s, t);
    forall q | q in s'.role ensures PageOk(s', q) {
      assert PageOk(s, q);
      if q == t {
        forall j | 0 <= j < ENTRIES ensures PteOk(s', t, d, 0, j) {
          assert PteOk(s, t, d, 0, j);
        }
      } else if q != x {
        PageStays(s, s', q);
      }
    }
  }

  predicate OwnedBy(r: Role, p: nat, d: nat) {
    match r
    case Directory => p == d
    case Table(c, _) => c == d
    case User(c, _) => c == d
    case _ => false
  }

  /** The directory and its tables pass into the hands of freevm. */
  function Abandoned(s: State, d: nat): State {
    s.(role := map p | p in s.role :: if OwnedBy(s.role[p], p, d) then Other else s.role[p])
  }

  lemma AbandonedValid(s: State, d: nat)
    requires Valid(s)
    ensures Valid(Abandoned(s, d))
  {
    var s' := Abandoned(s, d);
    forall q | q in s'.role ensures PageOk(s', q) {
      assert PageOk(s, q);
      if !OwnedBy(s.role[q], q, d) {
        PageStays(s, s', q);
      }
    }
  }

  // -------------------------------------------------------- what a step reaches

  /** Same mappings and same user bytes. */
  ghost predicate SameSpace(s: State, s': State, d: nat) {
    && IsDir(s, d) && IsDir(s', d)
    && (forall v :: 0 <= v < VIRTUAL ==> Lookup(s', d, v) == Lookup(s, d, v))
    && (forall v :: 0 <= v < USER_PAGES && Lookup(s, d, v).Present? && Lookup(s, d, v).frame in s.mem ==>
          Lookup(s, d, v).frame in s'.mem && s'.mem[Lookup(s, d, v).frame] == s.mem[Lookup(s, d, v).frame])
  }

  /** Pages in use that do not belong to d are left alone. */
  ghost predicate Kept(s: State, s': State, d: nat) {
    && s'.role.Keys == s.role.Keys == s.mem.Keys == s'.mem.Keys
    && (forall p :: p in s.role && !s.role[p].Free? && !OwnedBy(s.role[p], p, d) ==>
          s'.role[p] == s.role[p] && s'.mem[p] == s.mem[p])
  }

  lemma TableFacts(s: State, d: nat, v: nat)
    requires Valid(s) && IsDir(s, d) && v < VIRTUAL
    ensures Pde(s, d, v / ENTRIES).Present? ==> IsTableOf(s, Pde(s, d, v / ENTRIES).frame, d, v / ENTRIES)
    ensures Lookup(s, d, v).Present? && v < USER_PAGES ==> Lookup(s, d, v).user && IsUserOf(s, Lookup(s, d, v).frame, d, v)
    ensures Lookup(s, d, v).Present? && v >= USER_PAGES ==> !Lookup(s, d, v).user
  {
    assert PageOk(s, d);
    assert PdeOk(s, d, v / ENTRIES);
    if Pde(s, d, v / ENTRIES).Present? {
      var t := Pde(s, d, v / ENTRIES).frame;
      assert PageOk(s, t);
      assert PteOk(s, t, d, v / ENTRIES, v % ENTRIES);
    }
  }

  /** An operation on d is invisible in every other address space. */
  lemma Isolation(s: State, s': State, d: nat, c: nat)
    requires Valid(s) && Kept(s, s', d) && IsDir(s, c) && c != d
    ensures SameSpace(s, s', c)
  {
    forall v | 0 <= v < VIRTUAL ensures Lookup(s', c, v) == Lookup(s, c, v) {
      TableFacts(s, c, v);
    }
    forall v | 0 <= v < USER_PAGES && Lookup(s, c, v).Present? && Lookup(s, c, v).frame in s.mem
      ensures Lookup(s, c, v).frame in s'.mem && s'.mem[Lookup(s, c, v).frame] == s.mem[Lookup(s, c, v).frame]
    {
      TableFacts(s, c, v);
    }
  }

  /** No page is mapped twice: not at two addresses, not in two address spaces. */
  lemma NoSharing(s: State, c: nat, u: nat, d: nat, v: nat)
    requires Valid(s) && IsDir(s, c) && IsDir(s, d) && u < USER_PAGES && v < USER_PAGES
    requires Lookup(s, c, u).Present? && Lookup(s, d, v).Present?
    requires Lookup(s, c, u).frame == Lookup(s, d, v).frame
    ensures c == d && u == v
  {
    TableFacts(s, c, u);
    TableFacts(s, d, v);
  }

  /** The user pages lo..hi of d were added, holding img; nothing else in use changed. */
  ghost predicate Grown(s: State, s': State, d: nat, lo: nat, hi: nat, img: seq<Page>) {
    && hi <= USER_PAGES && |img| == USER_PAGES
    && s'.role.Keys == s.role.Keys == s.mem.Keys == s'.mem.Keys
    && (forall p :: p in s.role && !s.role[p].Free? ==>
          && s'.role[p] == s.role[p]
          && if s.role[p] == Table(d, 0) then
               && IsTable(s.mem[p]) && IsTable(s'.mem[p])
               && (forall k :: 0 <= k < ENTRIES && !(lo <= k < hi) ==> s'.mem[p].es[k] == s.mem[p].es[k])
               && (forall k :: lo <= k < hi ==> s'.mem[p].es[k].Present?)
             else s'.mem[p] == s.mem[p])
    && (forall p :: p in s.role && s.role[p].Free? ==>
          || s'.role[p].Free?
          || (s'.role[p].User? && s'.role[p].dir == d && lo <= s'.role[p].vpn < hi && s'.mem[p] == img[s'.role[p].vpn]))
  }

  /** The user pages lo..hi of d were released; nothing else in use changed. */
  ghost predicate Dropped(s: State, s': State, d: nat, lo: nat, hi: nat) {
    && s'.role.Keys == s.role.Keys == s.mem.Keys == s'.mem.Keys
    && (forall p :: p in s.role ==>
          s'.role[p] == if s.role[p].User? && s.role[p].dir == d && lo <= s.role[p].vpn < hi then Free else s.role[p])
    && (forall p :: p in s.role && !s'.role[p].Free? ==>
          if s.role[p] == Table(d, 0) then
            && IsTable(s.mem[p]) && IsTable(s'.mem[p])
            && (forall k :: 0 <= k < ENTRIES ==> s'.mem[p].es[k] == if lo <= k < hi then Absent else s.mem[p].es[k])
          else s'.mem[p] == s.mem[p])
  }

  /** Every page has its old role, and every page in use its old contents. */
  ghost predicate Restored(s: State, s': State) {
    && s'.role == s.role
    && s'.mem.Keys == s.mem.Keys == s.role.Keys
    && (forall p :: p in s.role && !s.role[p].Free? ==> s'.mem[p] == s.mem[p])
  }

  lemma GrowThenDrop(s: State, m: State, s': State, d: nat, lo: nat, a: nat, hi: nat, img: seq<Page>)
    requires Valid(s) && IsDir(s, d) && lo <= a <= hi <= USER_PAGES
    requires forall v :: lo <= v < hi ==> Lookup(s, d, v) == Absent
    requires Grown(s, m, d, lo, a, img) && Dropped(m, s', d, lo, hi)
    ensures Restored(s, s')
  {
    forall p | p in s.role ensures s'.role[p] == s.role[p] && (!s.role[p].Free? ==> s'.mem[p] == s.mem[p]) {
      assert PageOk(s, p);
      if s.role[p] == Table(d, 0) {
        forall k | 0 <= k < ENTRIES ensures s'.mem[p].es[k] == s.mem[p].es[k] {
          if lo <= k < hi {
            assert k / ENTRIES == 0 && k % ENTRIES == k;
            assert Lookup(s, d, k) == Absent;
          }
        }
        assert s'.mem[p].es == s.mem[p].es;
      } else if s.role[p].User? && s.role[p].dir == d {
        var v := s.role[p].vpn;
        assert v / ENTRIES == 0 && v % ENTRIES == v;
        assert Lookup(s, d, v) == Present(p, true);
      }
    }
    assert s'.role == s.role;
  }

  /** Only page tables of d were added and filled. */
  ghost predicate Wired(s: State, s': State, d: nat) {
    && s'.role.Keys == s.role.Keys == s.mem.Keys == s'.mem.Keys
    && (forall p :: p in s.role && !s.role[p].Free? ==> s'.role[p] == s.role[p])
    && (forall p :: p in s.role && !s.role[p].Free? && p != d && !(s.role[p].Table? && s.role[p].dir == d) ==>
          s'.mem[p] == s.mem[p])
    && (forall p :: p in s.role && s.role[p].Free? ==> s'.role[p].Free? || (s'.role[p].Table? && s'.role[p].dir == d))
  }

  lemma WiredSelf(s: State, d: nat)
    requires Valid(s)
    ensures Wired(s, s, d)
  {
  }

  lemma WiredStep(s: State, m: State, s': State, d: nat)
    requires Wired(s, m, d) && Wired(m, s', d)
    ensures Wired(s, s', d)
  {
  }

  ghost predicate SameLookups(s: State, s': State, d: nat) {
    && IsDir(s, d) && IsDir(s', d)
    && (forall v :: 0 <= v < VIRTUAL ==> Lookup(s', d, v) == Lookup(s, d, v))
  }

  lemma NewTableLookups(s: State, d: nat, i: nat, t: nat)
    requires Valid(s) && IsDir(s, d) && i < ENTRIES && Pde(s, d, i) == Absent
    requires t in s.role && s.role[t] == Other && s.mem[t] == ZeroTable()
    ensures SameLookups(s, NewTable(s, d, i, t), d)
  {
    forall v | 0 <= v < VIRTUAL ensures Lookup(NewTable(s, d, i, t), d, v) == Lookup(s, d, v) {
      TableFacts(s, d, v);
    }
  }

  lemma PteLookups(s: State, t: nat, d: nat, v: nat, e: Pte)
    requires Valid(s) && IsDir(s, d) && v < VIRTUAL && Pde(s, d, v / ENTRIES).Present? && t == Pde(s, d, v / ENTRIES).frame
    ensures t in s.mem && IsTable(s.mem[t]) && IsDir(WithPte(s, t, v % ENTRIES, e), d)
    ensures forall u :: 0 <= u < VIRTUAL ==>
      Lookup(WithPte(s, t, v % ENTRIES, e), d, u) == if u == v then e else Lookup(s, d, u)
  {
    TableFacts(s, d, v);
    var s' := WithPte(s, t, v % ENTRIES, e);
    forall u | 0 <= u < VIRTUAL ensures Lookup(s', d, u) == if u == v then e else Lookup(s, d, u) {
      TableFacts(s, d, u);
    }
  }

  /** The entries of d that mapping first..last has to fill with a new page table. */
  function Fresh(s: State, d: nat, first: nat, last: nat): set<nat>
    requires IsDir(s, d) && last < VIRTUAL
  {
    set i | first / ENTRIES <= i <= last / ENTRIES && Pde(s, d, i) == Absent
  }

  lemma ProperSubset(a: set<nat>, b: set<nat>, x: nat)
    requires a <= b && x in b && x !in a
    ensures |a| < |b|
  {
    assert a <= b - {x};
    SubsetSize(a, b - {x});
  }

  lemma SpareLookups(s: State, s': State, d: nat)
    requires Valid(s) && IsDir(s, d)
    requires s'.role.Keys == s.role.Keys == s.mem.Keys == s'.mem.Keys
    requires forall p :: p in s.role && OwnedBy(s.role[p], p, d) ==> s'.role[p] == s.role[p] && (s.role[p].User? || s'.mem[p] == s.mem[p])
    ensures SameLookups(s, s', d)
  {
    forall v | 0 <= v < VIRTUAL ensures Lookup(s', d, v) == Lookup(s, d, v) {
      TableFacts(s, d, v);
    }
  }

  // ------------------------------------------------------------- the kernel map

  datatype Range = Range(first: nat, last: nat)

  /** The kmap array; data is where the kernel's data pages start. */
  function Kmap(data: nat): seq<Range>
    requires data > 0
  {
    [Range(USER_PAGES, 0xFF), Range(0x100, data - 1), Range(data, POOL_END - 1), Range(0xFE000, 0xFFFFF)]
  }

  predicate KmapOk(kmap: seq<Range>) {
    && |kmap| > 0 && kmap[0].first / ENTRIES == 0
    && (forall k :: 0 <= k < |kmap| ==> USER_PAGES <= kmap[k].first <= kmap[k].last < VIRTUAL)
    && (forall j, k :: 0 <= j < k < |kmap| ==> kmap[j].last < kmap[k].first || kmap[k].last < kmap[j].first)
  }

  /** Virtual page v lies in one of the first n ranges. */
  predicate InKmap(kmap: seq<Range>, n: nat, v: nat)
    requires n <= |kmap|
  {
    n > 0 && (InKmap(kmap, n - 1, v) || kmap[n - 1].first <= v <= kmap[n - 1].last)
  }

  function Span(r: Range): set<nat> {
    Between(r.first / ENTRIES, r.last / ENTRIES + 1)
  }

  /** The directory entries the first n ranges need page tables for. */
  function Touched(kmap: seq<Range>, n: nat): set<nat>
    requires n <= |kmap|
  {
    if n == 0 then {} else Touched(kmap, n - 1) + Span(kmap[n - 1])
  }

  lemma {:induction false} TouchedGrows(kmap: seq<Range>, k: nat, n: nat)
    requires k <= n <= |kmap|
    ensures Touched(kmap, k) <= Touched(kmap, n) && |Touched(kmap, k)| <= |Touched(kmap, n)|
  {
    hide Span;
    if k < n {
      TouchedGrows(kmap, k, n - 1);
    }
    SubsetSize(Touched(kmap, k), Touched(kmap, n));
  }

  lemma LowTables(data: nat)
    requires 0x100 < data < POOL_END
    ensures Touched(Kmap(data), 3) == Between(0, 4)
  {
    hide Between;
    var kmap := Kmap(data);
    assert Touched(kmap, 1) == Touched(kmap, 0) + Between(0, 1) == Between(0, 1);
    assert Touched(kmap, 2) == Touched(kmap, 1) + Between(0, (data - 1) / ENTRIES + 1);
  }

  lemma TwelveTables(data: nat)
    requires 0x100 < data < POOL_END
    ensures |Touched(Kmap(data), 4)| == 12
  {
    LowTables(data);
    hide Between;
    var high := Between(1016, 1024);
    assert Touched(Kmap(data), 4) == Between(0, 4) + high && Between(0, 4) !! high;
  }

  /** The kernel's own map covers 640K..PHYSTOP and the device window, and needs twelve page tables. */
  lemma KernelMap(data: nat)
    requires 0x100 < data < POOL_END
    ensures KmapOk(Kmap(data)) && |Touched(Kmap(data), 4)| == 12
    ensures forall v: nat :: InKmap(Kmap(data), 4, v) <==> USER_PAGES <= v < POOL_END || 0xFE000 <= v < 0x100000
  {
    hide Touched;
    var kmap := Kmap(data);
    TwelveTables(data);
    forall v: nat ensures InKmap(kmap, 4, v) <==> USER_PAGES <= v < POOL_END || 0xFE000 <= v < 0x100000 {
      assert InKmap(kmap, 1, v) <==> USER_PAGES <= v <= 0xFF;
      assert InKmap(kmap, 2, v) <==> USER_PAGES <= v < data;
      assert InKmap(kmap, 3, v) <==> USER_PAGES <= v < POOL_END;
    }
  }

  lemma {:induction false} Unmapped(kmap: seq<Range>, n: nat, k: nat, v: nat)
    requires KmapOk(kmap) && n <= k < |kmap| && kmap[k].first <= v <= kmap[k].last
    ensures !InKmap(kmap, n, v)
  {
    if n > 0 {
      Unmapped(kmap, n - 1, k, v);
    }
  }

  lemma {:induction false} FirstTouched(kmap: seq<Range>, n: nat)
    requires KmapOk(kmap) && 0 < n <= |kmap|
    ensures 0 in Touched(kmap, n)
  {
    if n > 1 {
      FirstTouched(kmap, n - 1);
    } else {
      assert Touched(kmap, 1) == Touched(kmap, 0) + Span(kmap[0]);
    }
  }

  /** Directory d and page tables for it were made out of free pages. */
  ghost predicate Built(s: State, s': State, d: nat) {
    && s'.role.Keys == s.role.Keys == s.mem.Keys == s'.mem.Keys
    && d in s.role && s.role[d].Free? && s'.role[d] == Directory
    && (forall p :: p in s.role && !s.role[p].Free? ==> s'.role[p] == s.role[p] && s'.mem[p] == s.mem[p])
    && (forall p :: p in s.role && s.role[p].Free? ==>
          s'.role[p].Free? || p == d || (s'.role[p].Table? && s'.role[p].dir == d))
  }

  lemma BuiltWired(s: State, m: State, s': State, d: nat)
    requires Valid(s) && Built(s, m, d) && Wired(m, s', d)
    ensures Built(s, s', d)
  {
    forall p | p in s.role && !s.role[p].Free? ensures s'.role[p] == s.role[p] && s'.mem[p] == s.mem[p] {
      assert PageOk(s, p);
    }
  }

  /** An empty directory in the first free page. */
  lemma EmptyDirBuilt(s: State, kmap: seq<Range>)
    requires Valid(s) && s.free != []
    ensures var d := s.free[0];
      var s' := NewDir(Written(Taken(s), d, ZeroTable()), d);
      && Valid(s') && IsDir(s', d) && Built(s, s', d) && s'.free == s.free[1..]
      && KernelOnly(s', d, kmap, 0) && Touched(kmap, 0) == {}
  {
    TakenValid(s);
    WrittenValid(Taken(s), s.free[0], ZeroTable());
    NewDirValid(Written(Taken(s), s.free[0], ZeroTable()), s.free[0]);
  }

  /** With the free list empty, everything that was free now hangs below d. */
  lemma AllLost(s: State, s': State, d: nat)
    requires Valid(s') && Built(s, s', d) && s'.free == []
    ensures forall p :: p in s.role && s.role[p].Free? ==> OwnedBy(s'.role[p], p, d)
  {
    forall p | p in s.role && s.role[p].Free? ensures OwnedBy(s'.role[p], p, d) {
      assert PageOk(s', p);
    }
  }

  /** The first n ranges of the kernel map and nothing else. */
  ghost predicate KernelOnly(s: State, d: nat, kmap: seq<Range>, n: nat)
    requires n <= |kmap|
  {
    && IsDir(s, d)
    && (forall v :: 0 <= v < VIRTUAL ==> Lookup(s, d, v) == if InKmap(kmap, n, v) then Present(v, false) else Absent)
    && (forall i :: 0 <= i < ENTRIES ==> (Pde(s, d, i).Present? <==> i in Touched(kmap, n)))
  }

  lemma KernelDir(s: State, d: nat, kmap: seq<Range>, n: nat)
    requires KmapOk(kmap) && n <= |kmap| && KernelOnly(s, d, kmap, n)
    ensures IsDir(s, d) && (n > 0 ==> Pde(s, d, 0).Present?)
  {
    if n > 0 {
      FirstTouched(kmap, n);
    }
  }

  /** The next range is still unmapped, and these are the tables it will need. */
  lemma NotYet(s: State, d: nat, kmap: seq<Range>, k: nat)
    requires KmapOk(kmap) && k < |kmap| && KernelOnly(s, d, kmap, k)
    ensures forall v :: kmap[k].first <= v <= kmap[k].last ==> Lookup(s, d, v) == Absent
    ensures |Touched(kmap, k + 1)| == |Touched(kmap, k)| + |Fresh(s, d, kmap[k].first, kmap[k].last)|
  {
    hide Lookup, Pde, InKmap;
    forall v | kmap[k].first <= v <= kmap[k].last ensures Lookup(s, d, v) == Absent {
      Unmapped(kmap, k, k, v);
    }
    var more := Fresh(s, d, kmap[k].first, kmap[k].last);
    forall i | 0 <= i < ENTRIES ensures i in more <==> i in Span(kmap[k]) && i !in Touched(kmap, k) {}
    assert Touched(kmap, k + 1) == Touched(kmap, k) + more;
    assert Touched(kmap, k) !! more;
  }

  lemma NextMapped(s: State, s': State, d: nat, kmap: seq<Range>, k: nat)
    requires KmapOk(kmap) && k < |kmap| && KernelOnly(s, d, kmap, k) && IsDir(s', d)
    requires forall v :: 0 <= v < VIRTUAL ==>
      Lookup(s', d, v) == if kmap[k].first <= v <= kmap[k].last then Present(v, false) else Lookup(s, d, v)
    requires forall i :: 0 <= i < ENTRIES ==>
      (Pde(s', d, i).Present? <==> Pde(s, d, i).Present? || kmap[k].first / ENTRIES <= i <= kmap[k].last / ENTRIES)
    ensures KernelOnly(s', d, kmap, k + 1)
  {
    hide Lookup, Pde;
    forall i | 0 <= i < ENTRIES ensures Pde(s', d, i).Present? <==> i in Touched(kmap, k + 1) {
      assert i in Span(kmap[k]) <==> kmap[k].first / ENTRIES <= i <= kmap[k].last / ENTRIES;
    }
  }

  // ------------------------------------------------------------ user memory

  /** Whole pages needed for sz bytes. */
  function Pages(sz: nat): nat {
    (sz + PAGE_BYTES - 1) / PAGE_BYTES
  }

  /** The page table that covers user memory is there, as setupkvm leaves it. */
  predicate Ready(s: State, d: nat) {
    IsDir(s, d) && Pde(s, d, 0).Present?
  }

  lemma UserTable(s: State, d: nat)
    requires Valid(s) && Ready(s, d)
    ensures IsTableOf(s, Pde(s, d, 0).frame, d, 0)
    ensures forall v :: 0 <= v < USER_PAGES ==> Lookup(s, d, v) == s.mem[Pde(s, d, 0).frame].es[v]
    ensures forall p :: p in s.role && s.role[p] == Table(d, 0) ==> p == Pde(s, d, 0).frame
  {
    TableFacts(s, d, 0);
    forall p | p in s.role && s.role[p] == Table(d, 0) ensures p == Pde(s, d, 0).frame {
      assert PageOk(s, p);
    }
    forall v | 0 <= v < USER_PAGES ensures Lookup(s, d, v) == s.mem[Pde(s, d, 0).frame].es[v] {
      assert v / ENTRIES == 0 && v % ENTRIES == v;
    }
  }

  /** A free page becomes user page v of d, holding page. */
  function WithUser(m: State, d: nat, v: nat, page: Page): State
    requires Ready(m, d) && m.free != [] && v < USER_PAGES
    requires Pde(m, d, 0).frame in m.mem && m.free[0] != Pde(m, d, 0).frame && IsTable(m.mem[Pde(m, d, 0).frame])
  {
    Attached(Written(Taken(m), m.free[0], page), Pde(m, d, 0).frame, d, v, m.free[0])
  }

  lemma WithUserValid(m: State, d: nat, v: nat, page: Page)
    requires Valid(m) && Ready(m, d) && m.free != [] && v < USER_PAGES && Lookup(m, d, v) == Absent && IsBytes(page)
    ensures var t := Pde(m, d, 0).frame; IsTableOf(m, t, d, 0) && m.free[0] != t
    ensures var s' := WithUser(m, d, v, page);
      Valid(s') && Ready(s', d) && Pde(s', d, 0) == Pde(m, d, 0) && |s'.free| == |m.free| - 1
  {
    UserTable(m, d);
    assert m.role[m.free[0]] == Free;
    TakenValid(m);
    WrittenValid(Taken(m), m.free[0], page);
    AttachedValid(Written(Taken(m), m.free[0], page), Pde(m, d, 0).frame, d, v, m.free[0]);
  }

  lemma GrownNothing(s: State, d: nat, lo: nat, img: seq<Page>)
    requires Valid(s) && lo <= USER_PAGES && |img| == USER_PAGES
    ensures Grown(s, s, d, lo, lo, img)
  {
    forall p | p in s.role && s.role[p] == Table(d, 0) ensures IsTable(s.mem[p]) {
      assert PageOk(s, p);
    }
  }

  lemma GrownExtend(s: State, m: State, s': State, d: nat, lo: nat, v: nat, img: seq<Page>, t: nat, x: nat)
    requires Grown(s, m, d, lo, v, img) && lo <= v < USER_PAGES
    requires x in m.role && m.role[x].Free? && x != t && IsTableOf(m, t, d, 0)
    requires forall p :: p in m.role && m.role[p] == Table(d, 0) ==> p == t
    requires s'.role == m.role[x := User(d, v)]
    requires s'.mem == m.mem[x := img[v]][t := Words(m.mem[t].es[v := Present(x, true)])]
    ensures Grown(s, s', d, lo, v + 1, img)
  {
  }

  lemma GrownStep(s: State, m: State, d: nat, lo: nat, v: nat, img: seq<Page>)
    requires Valid(m) && Ready(m, d) && m.free != [] && lo <= v < USER_PAGES && Lookup(m, d, v) == Absent
    requires |img| == USER_PAGES && Grown(s, m, d, lo, v, img) && IsBytes(img[v])
    ensures var t := Pde(m, d, 0).frame; IsTableOf(m, t, d, 0) && m.free[0] != t
    ensures var s' := WithUser(m, d, v, img[v]);
      && Valid(s') && Ready(s', d) && |s'.free| == |m.free| - 1 && Grown(s, s', d, lo, v + 1, img)
      && (forall u :: 0 <= u < USER_PAGES && u != v ==> Lookup(s', d, u) == Lookup(m, d, u))
  {
    hide Grown;
    WithUserValid(m, d, v, img[v]);
    UserTable(m, d);
    var s' := WithUser(m, d, v, img[v]);
    UserTable(s', d);
    assert m.role[m.free[0]] == Free;
    GrownExtend(s, m, s', d, lo, v, img, Pde(m, d, 0).frame, m.free[0]);
  }

  /** What growing means to the process: new pages with the given bytes, old mappings as they were. */
  lemma GrownMaps(s: State, s': State, d: nat, lo: nat, hi: nat, img: seq<Page>, v: nat)
    requires Valid(s) && Valid(s') && Ready(s, d) && Ready(s', d) && Grown(s, s', d, lo, hi, img) && v < USER_PAGES
    requires forall u :: lo <= u < hi ==> Lookup(s, d, u) == Absent
    ensures !(lo <= v < hi) ==> Lookup(s', d, v) == Lookup(s, d, v)
    ensures !(lo <= v < hi) && Lookup(s, d, v).Present? ==>
      Lookup(s, d, v).frame in s.mem && s'.mem[Lookup(s, d, v).frame] == s.mem[Lookup(s, d, v).frame]
    ensures lo <= v < hi ==> Lookup(s', d, v).Present? && Lookup(s', d, v).frame in s'.mem && s'.mem[Lookup(s', d, v).frame] == img[v]
  {
    UserTable(s, d);
    UserTable(s', d);
    TableFacts(s, d, v);
    TableFacts(s', d, v);
    if lo <= v < hi {
      var x := Lookup(s', d, v).frame;
      assert PageOk(s, x);
      assert s.role[x].Free?;
    }
  }

  lemma DroppedNothing(s: State, d: nat, lo: nat)
    requires Valid(s)
    ensures Dropped(s, s, d, lo, lo)
  {
    forall p | p in s.role && s.role[p] == Table(d, 0) ensures IsTable(s.mem[p]) {
      assert PageOk(s, p);
    }
  }

  lemma DroppedAbsent(s: State, m: State, d: nat, lo: nat, v: nat)
    requires Valid(m) && IsDir(m, d) && lo <= v < USER_PAGES && Lookup(m, d, v) == Absent
    requires Dropped(s, m, d, lo, v)
    ensures Dropped(s, m, d, lo, v + 1)
  {
    assert v / ENTRIES == 0 && v % ENTRIES == v;
    forall p | p in m.role && m.role[p].User? && m.role[p].dir == d ensures m.role[p].vpn != v {
      assert PageOk(m, p);
    }
    forall p | p in m.role && m.role[p] == Table(d, 0) ensures IsTable(m.mem[p]) && m.mem[p].es[v] == Absent {
      assert PageOk(m, p);
    }
  }

  lemma DroppedExtend(s: State, m: State, s': State, d: nat, lo: nat, v: nat, t: nat, x: nat)
    requires Dropped(s, m, d, lo, v) && lo <= v < USER_PAGES
    requires x in m.role && m.role[x] == User(d, v) && IsTableOf(m, t, d, 0)
    requires forall p :: p in m.role && m.role[p] == Table(d, 0) ==> p == t
    requires forall p :: p in m.role && m.role[p] == User(d, v) ==> p == x
    requires s'.role == m.role[x := Free]
    requires s'.mem == m.mem[t := Words(m.mem[t].es[v := Absent])][x := Junk()]
    ensures Dropped(s, s', d, lo, v + 1)
  {
  }

  lemma DroppedStep(s: State, m: State, d: nat, lo: nat, v: nat)
    requires Valid(m) && Ready(m, d) && lo <= v < USER_PAGES && Lookup(m, d, v).Present?
    requires Dropped(s, m, d, lo, v)
    ensures var t, x := Pde(m, d, 0).frame, Lookup(m, d, v).frame;
      && IsTableOf(m, t, d, 0) && x in m.role && x != t
      && var s' := Freed(Detached(m, t, v, x), x);
         Valid(s') && Ready(s', d) && Dropped(s, s', d, lo, v + 1)
  {
    hide Dropped;
    UserTable(m, d);
    TableFacts(m, d, v);
    var t, x := Pde(m, d, 0).frame, Lookup(m, d, v).frame;
    DetachedValid(m, t, d, v, x);
    FreedValid(Detached(m, t, v, x), x);
    forall p | p in m.role && m.role[p] == User(d, v) ensures p == x {
      assert PageOk(m, p);
    }
    DroppedExtend(s, m, Freed(Detached(m, t, v, x), x), d, lo, v, t, x);
  }

  // ------------------------------------------------------------ whole directories

  /** Every page of d went back to the free list; nothing else in use changed. */
  ghost predicate FreedDir(s: State, s': State, d: nat) {
    && s'.role.Keys == s.role.Keys == s.mem.Keys == s'.mem.Keys
    && (forall p :: p in s.role ==> s'.role[p] == if OwnedBy(s.role[p], p, d) then Free else s.role[p])
    && (forall p :: p in s.role && !s'.role[p].Free? ==> s'.mem[p] == s.mem[p])
  }

  /** The first n tables of d are back on the free list, the others and d itself still in hand. */
  ghost predicate Freeing(m: State, s': State, d: nat, n: nat) {
    && s'.role.Keys == m.role.Keys == m.mem.Keys == s'.mem.Keys
    && (forall p :: p in m.role ==>
          s'.role[p] == if !OwnedBy(m.role[p], p, d) then m.role[p] else if m.role[p].Table? && m.role[p].pdx < n then Free else Other)
    && (forall p :: p in m.role && !s'.role[p].Free? ==> s'.mem[p] == m.mem[p])
  }

  lemma FreeingStart(m: State, d: nat)
    requires Valid(m)
    ensures Freeing(m, Abandoned(m, d), d, 0)
  {
  }

  lemma FreeingAbsent(m: State, s': State, d: nat, n: nat)
    requires Valid(m) && IsDir(m, d) && n < ENTRIES && Pde(m, d, n) == Absent && Freeing(m, s', d, n)
    ensures Freeing(m, s', d, n + 1)
  {
    forall p | p in m.role && m.role[p].Table? && m.role[p].dir == d ensures m.role[p].pdx != n {
      assert PageOk(m, p);
    }
  }

  lemma FreeingStep(m: State, s': State, d: nat, n: nat)
    requires Valid(m) && IsDir(m, d) && n < ENTRIES && Pde(m, d, n).Present? && Freeing(m, s', d, n) && Valid(s')
    ensures var t := Pde(m, d, n).frame;
      t in s'.role && Valid(Freed(s', t)) && Freeing(m, Freed(s', t), d, n + 1)
  {
    assert PageOk(m, d);
    assert PdeOk(m, d, n);
    var t := Pde(m, d, n).frame;
    forall p | p in m.role && m.role[p].Table? && m.role[p] == Table(d, n) ensures p == t {
      assert PageOk(m, p);
    }
    FreedValid(s', t);
    hide Valid;
  }

  lemma FreeingEnd(s: State, m: State, s': State, d: nat)
    requires Valid(s) && Valid(m) && IsDir(m, d) && IsDir(s, d) && Dropped(s, m, d, 0, USER_PAGES)
    requires Freeing(m, s', d, ENTRIES) && Valid(s')
    ensures d in s'.role && Valid(Freed(s', d)) && FreedDir(s, Freed(s', d), d)
  {
    FreedValid(s', d);
    var f := Freed(s', d);
    forall p | p in s.role
      ensures f.role[p] == if OwnedBy(s.role[p], p, d) then Free else s.role[p]
      ensures !f.role[p].Free? ==> f.mem[p] == s.mem[p]
    {
      assert PageOk(s, p);
      assert PageOk(m, p);
    }
  }

  /** Building and filling a directory and then freeing it puts every page back. */
  lemma BuildThenFree(s: State, m: State, g: State, s': State, c: nat, n: nat, img: seq<Page>)
    requires Valid(s) && Built(s, m, c) && Grown(m, g, c, 0, n, img) && FreedDir(g, s', c)
    ensures Restored(s, s')
  {
    forall p | p in s.role ensures s'.role[p] == s.role[p] && (!s.role[p].Free? ==> s'.mem[p] == s.mem[p]) {
      assert PageOk(s, p);
    }
    assert s'.role == s.role;
  }

  function Zeros(): seq<Page> {
    seq(USER_PAGES, _ => ZeroBytes())
  }

  lemma UserEntry(s: State, d: nat, v: nat)
    requires Valid(s) && IsDir(s, d) && v < USER_PAGES
    ensures Pde(s, d, v / ENTRIES) == Pde(s, d, 0)
    ensures Pde(s, d, 0) == Absent ==> Lookup(s, d, v) == Absent
    ensures Ready(s, d) ==> IsTableOf(s, Pde(s, d, 0).frame, d, 0) && Lookup(s, d, v) == s.mem[Pde(s, d, 0).frame].es[v]
  {
    assert v / ENTRIES == 0 && v % ENTRIES == v;
    TableFacts(s, d, v);
  }

  /** A page taken and filled is still in nobody else's hands, and d is as before. */
  lemma TakenWritten(m: State, d: nat, v: nat, page: Page)
    requires Valid(m) && Ready(m, d) && m.free != [] && v < USER_PAGES && Lookup(m, d, v) == Absent
    ensures var w := Written(Taken(m), m.free[0], page);
      && Valid(w) && Ready(w, d) && Lookup(w, d, v) == Absent && Pde(w, d, 0) == Pde(m, d, 0)
      && m.free[0] in w.role && w.role[m.free[0]] == Other
  {
    TakenValid(m);
    WrittenValid(Taken(m), m.free[0], page);
    assert m.role[m.free[0]] == Free;
    SpareLookups(m, Written(Taken(m), m.free[0], page), d);
  }

  lemma StillReady(s: State, s': State, d: nat)
    requires Restored(s, s') && Ready(s, d)
    ensures Ready(s', d)
  {
  }

  lemma RestoredSelf(s: State)
    requires Valid(s)
    ensures Restored(s, s)
  {
  }

  /** The first n user pages of d. */
  ghost function Image(s: State, d: nat, n: nat): (img: seq<Page>)
    requires Valid(s) && IsDir(s, d)
    ensures |img| == USER_PAGES
  {
    seq(USER_PAGES, v requires 0 <= v < USER_PAGES =>
      if v < n && Lookup(s, d, v).Present? then (TableFacts(s, d, v); s.mem[Lookup(s, d, v).frame]) else ZeroBytes())
  }

  /** Directory c is a new copy of the first n pages of d: same bytes in pages of its own, the kernel map, nothing else. */
  ghost predicate Copied(s: State, s': State, kmap: seq<Range>, d: nat, c: nat, n: nat) {
    && Valid(s) && Valid(s') && IsDir(s, d) && IsDir(s', d) && c in s.role && s.role[c].Free? && Ready(s', c) && n <= USER_PAGES
    && Kept(s, s', c)
    && (forall v :: 0 <= v < USER_PAGES ==> (Lookup(s', c, v).Present? <==> v < n))
    && (forall v :: 0 <= v < n ==>
          && Lookup(s, d, v).Present? && Lookup(s, d, v).frame in s.mem && Lookup(s', c, v).frame in s'.mem
          && s'.mem[Lookup(s', c, v).frame] == s.mem[Lookup(s, d, v).frame])
    && (forall v :: USER_PAGES <= v < VIRTUAL ==>
          Lookup(s', c, v) == if InKmap(kmap, |kmap|, v) then Present(v, false) else Absent)
  }

  /** A fresh kernel map has no user pages. */
  lemma NoUserPages(s: State, d: nat, kmap: seq<Range>)
    requires KmapOk(kmap) && KernelOnly(s, d, kmap, |kmap|)
    ensures forall v :: 0 <= v < USER_PAGES ==> Lookup(s, d, v) == Absent
  {
    forall v | 0 <= v < USER_PAGES ensures Lookup(s, d, v) == Absent {
      BelowKmap(kmap, |kmap|, v);
    }
  }

  lemma {:induction false} BelowKmap(kmap: seq<Range>, n: nat, v: nat)
    requires KmapOk(kmap) && n <= |kmap| && v < USER_PAGES
    ensures !InKmap(kmap, n, v)
  {
    if n > 0 {
      BelowKmap(kmap, n - 1, v);
    }
  }

  /** While the child is being filled the parent stays as it was. */
  lemma ParentKept(s: State, m: State, g: State, d: nat, c: nat, v: nat, n: nat)
    requires Valid(s) && Valid(g) && IsDir(s, d) && Built(s, m, c) && v < n <= USER_PAGES
    requires Grown(m, g, c, 0, v, Image(s, d, n)) && Lookup(s, d, v).Present?
    ensures Kept(s, g, c) && IsDir(g, d) && Pde(g, d, v / ENTRIES).Present?
    ensures var t := Pde(g, d, v / ENTRIES).frame;
      && IsTableOf(g, t, d, 0) && g.mem[t].es[v] == Lookup(s, d, v)
      && Lookup(s, d, v).frame in g.mem && g.mem[Lookup(s, d, v).frame] == Image(s, d, n)[v]
      && g.role[Lookup(s, d, v).frame].User?
      && IsBytes(Image(s, d, n)[v])
  {
    BuiltGrown(s, m, g, c, v, Image(s, d, n));
    Isolation(s, g, c, d);
    TableFacts(s, d, v);
    UserEntry(g, d, v);
  }

  lemma BuiltGrown(s: State, m: State, g: State, c: nat, n: nat, img: seq<Page>)
    requires Valid(s) && Built(s, m, c) && Grown(m, g, c, 0, n, img)
    ensures Kept(s, g, c)
  {
    forall p | p in s.role && !s.role[p].Free? ensures g.role[p] == s.role[p] && g.mem[p] == s.mem[p] {
      assert PageOk(s, p);
    }
  }

  lemma ChildCopied(s: State, m: State, g: State, kmap: seq<Range>, d: nat, c: nat, n: nat)
    requires Valid(s) && Valid(m) && Valid(g) && IsDir(s, d) && Built(s, m, c) && n <= USER_PAGES && KmapOk(kmap)
    requires KernelOnly(m, c, kmap, |kmap|) && Ready(m, c) && Ready(g, c) && Grown(m, g, c, 0, n, Image(s, d, n))
    requires forall v :: 0 <= v < n ==> Lookup(s, d, v).Present?
    ensures Copied(s, g, kmap, d, c, n)
  {
    var img := Image(s, d, n);
    BuiltGrown(s, m, g, c, n, img);
    NoUserPages(m, c, kmap);
    Isolation(s, g, c, d);
    forall v | 0 <= v < USER_PAGES
      ensures Lookup(g, c, v).Present? <==> v < n
      ensures v < n ==>
        && Lookup(s, d, v).frame in s.mem && Lookup(g, c, v).frame in g.mem
        && g.mem[Lookup(g, c, v).frame] == s.mem[Lookup(s, d, v).frame]
    {
      GrownMaps(m, g, c, 0, n, img, v);
      TableFacts(s, d, v);
    }
    forall v | USER_PAGES <= v < VIRTUAL
      ensures Lookup(g, c, v) == if InKmap(kmap, |kmap|, v) then Present(v, false) else Absent
    {
      GrownKernel(m, g, c, 0, n, img, v);
    }
  }

  lemma GrownKernel(s: State, s': State, d: nat, lo: nat, hi: nat, img: seq<Page>, v: nat)
    requires Valid(s) && IsDir(s, d) && Grown(s, s', d, lo, hi, img) && USER_PAGES <= v < VIRTUAL
    ensures IsDir(s', d) && Lookup(s', d, v) == Lookup(s, d, v)
  {
    TableFacts(s, d, v);
  }

  // ------------------------------------------------------------------- runs

  /** Equal roles mean the same pages are free, each listed once. */
  lemma SameFree(s: State, s': State)
    requires Valid(s) && Valid(s') && s'.role == s.role
    ensures multiset(s'.free) == multiset(s.free)
  {
    forall x ensures multiset(s'.free)[x] == multiset(s.free)[x] {
      OnceOrNever(s.free, x);
      OnceOrNever(s'.free, x);
      if x in s.free {
        assert PageOk(s', x);
      }
      if x in s'.free {
        assert PageOk(s, x);
      }
    }
  }

  lemma {:induction false} OnceOrNever(q: seq<nat>, x: nat)
    requires forall i, j :: 0 <= i < j < |q| ==> q[i] != q[j]
    ensures multiset(q)[x] == if x in q then 1 else 0
  {
    if q != [] {
      var n := |q| - 1;
      assert q == q[..n] + [q[n]];
      OnceOrNever(q[..n], x);
    }
  }

  /** Directory d is a process of sz bytes: exactly the pages below sz are mapped. */
  ghost predicate SpaceOk(s: State, d: nat, sz: nat) {
    && Ready(s, d) && sz <= USER_PAGES * PAGE_BYTES
    && (forall v :: 0 <= v < USER_PAGES ==> (Lookup(s, d, v).Present? <==> v < Pages(sz)))
  }

  lemma SpaceKept(s: State, s': State, d: nat, c: nat, sz: nat)
    requires Valid(s) && Kept(s, s', d) && c != d && SpaceOk(s, c, sz)
    ensures SpaceOk(s', c, sz) && SameSpace(s, s', c)
  {
    Isolation(s, s', d, c);
  }

  lemma GrownSpace(s: State, s': State, d: nat, sz: nat, newsz: nat, img: seq<Page>)
    requires Valid(s) && Valid(s') && SpaceOk(s, d, sz) && Ready(s', d) && sz <= newsz <= USER_PAGES * PAGE_BYTES
    requires Grown(s, s', d, Pages(sz), Pages(newsz), img)
    ensures SpaceOk(s', d, newsz) && Kept(s, s', d)
  {
    forall v | 0 <= v < USER_PAGES ensures Lookup(s', d, v).Present? <==> v < Pages(newsz) {
      GrownMaps(s, s', d, Pages(sz), Pages(newsz), img, v);
    }
  }

  lemma DroppedSpace(s: State, s': State, d: nat, sz: nat, newsz: nat)
    requires Valid(s) && Valid(s') && SpaceOk(s, d, sz) && newsz <= sz && Dropped(s, s', d, Pages(newsz), Pages(sz))
    ensures SpaceOk(s', d, newsz) && Kept(s, s', d)
  {
    UserTable(s, d);
    UserTable(s', d);
  }

  lemma RestoredSpace(s: State, s': State, d: nat, sz: nat)
    requires Valid(s) && Restored(s, s') && SpaceOk(s, d, sz)
    ensures SpaceOk(s', d, sz) && SameSpace(s, s', d)
  {
    SpareLookups(s, s', d);
    forall v | 0 <= v < USER_PAGES && Lookup(s, d, v).Present? && Lookup(s, d, v).frame in s.mem
      ensures s'.mem[Lookup(s, d, v).frame] == s.mem[Lookup(s, d, v).frame]
    {
      TableFacts(s, d, v);
    }
  }

  lemma FreedDirKept(s: State, s': State, d: nat)
    requires Valid(s) && FreedDir(s, s', d)
    ensures Kept(s, s', d)
  {
  }

  /** Every process in the table has its address space; procs maps directories to sizes. */
  ghost predicate AllSpaces(s: State, procs: map<nat, nat>) {
    forall d :: d in procs ==> SpaceOk(s, d, procs[d])
  }

  lemma OthersKept(s: State, s': State, d: nat, procs: map<nat, nat>)
    requires Valid(s) && Kept(s, s', d) && AllSpaces(s, procs)
    ensures AllSpaces(s', procs - {d})
  {
    forall c | c in procs - {d} ensures SpaceOk(s', c, procs[c]) {
      SpaceKept(s, s', d, c, procs[c]);
    }
  }

  lemma AllRestored(s: State, s': State, procs: map<nat, nat>)
    requires Valid(s) && Restored(s, s') && AllSpaces(s, procs)
    ensures AllSpaces(s', procs)
  {
    forall d | d in procs ensures SpaceOk(s', d, procs[d]) {
      RestoredSpace(s, s', d, procs[d]);
    }
  }

  lemma AddSpace(s: State, procs: map<nat, nat>, d: nat, sz: nat)
    requires AllSpaces(s, procs - {d}) && SpaceOk(s, d, sz)
    ensures AllSpaces(s, procs[d := sz])
  {
    forall c | c in procs && c != d ensures SpaceOk(s, c, procs[c]) {
      assert c in procs - {d};
    }
  }

  /** Making a directory out of free pages disturbs no process. */
  lemma AllBuilt(s: State, s': State, c: nat, procs: map<nat, nat>)
    requires Valid(s) && Kept(s, s', c) && c in s.role && s.role[c].Free? && AllSpaces(s, procs)
    ensures AllSpaces(s', procs) && procs - {c} == procs
  {
    assert c !in procs;
    assert procs - {c} == procs;
    OthersKept(s, s', c, procs);
  }

  lemma BuiltFacts(s: State, s': State, c: nat)
    requires Valid(s) && Built(s, s', c)
    ensures Kept(s, s', c) && c in s.role && s.role[c].Free?
  {
  }

  lemma SpaceDir(s: State, d: nat, sz: nat)
    requires SpaceOk(s, d, sz)
    ensures IsDir(s, d) && sz <= USER_PAGES * PAGE_BYTES && Pages(sz) <= USER_PAGES
    ensures forall v :: 0 <= v < Pages(sz) ==> Lookup(s, d, v).Present?
  {
  }

  lemma StartSpace(s: State, d: nat, kmap: seq<Range>)
    requires KmapOk(kmap) && KernelOnly(s, d, kmap, |kmap|)
    ensures SpaceOk(s, d, 0)
  {
    KernelDir(s, d, kmap, |kmap|);
    NoUserPages(s, d, kmap);
  }

  lemma CopiedSpace(s: State, s': State, kmap: seq<Range>, d: nat, c: nat, sz: nat)
    requires Copied(s, s', kmap, d, c, Pages(sz)) && sz <= USER_PAGES * PAGE_BYTES
    ensures SpaceOk(s', c, sz) && Kept(s, s', c) && c in s.role && s.role[c].Free?
  {
  }

  lemma KeptWhenRestored(s: State, d: nat, s': State)
    requires Valid(s) && (s' == s || Restored(s, s'))
    ensures Kept(s, s', d)
  {
  }

  lemma DroppedMaps(s: State, s': State, d: nat, lo: nat, hi: nat, v: nat)
    requires Valid(s) && Valid(s') && Ready(s, d) && Ready(s', d) && Dropped(s, s', d, lo, hi) && v < USER_PAGES && !(lo <= v < hi)
    ensures Lookup(s', d, v) == Lookup(s, d, v)
    ensures Lookup(s, d, v).Present? ==>
      Lookup(s, d, v).frame in s.mem && s'.mem[Lookup(s, d, v).frame] == s.mem[Lookup(s, d, v).frame]
  {
    UserTable(s, d);
    UserTable(s', d);
    TableFacts(s, d, v);
  }

  /** The requests a run is made of; a Resize is growproc, Fork copyuvm, Exit freevm. */
  datatype Request = Start | Resize(dir: nat, size: nat) | Fork(dir: nat) | Exit(dir: nat)

  /** Whether, with free pages left, a directory and n pages of user memory can be made. */
  function CanBuild(free: nat, kmap: seq<Range>, n: nat): bool {
    free >= 1 + |Touched(kmap, |kmap|)| + n
  }

  /** The size a process has after growproc. */
  function NewSize(free: nat, sz: nat, newsz: nat): nat {
    if newsz <= sz then newsz
    else if newsz > USER_PAGES * PAGE_BYTES || free < Pages(newsz) - Pages(sz) then sz
    else newsz
  }

  /** The process table, directory to size, after a request. */
  function NextProcs(s: State, kmap: seq<Range>, q: Request, procs: map<nat, nat>): map<nat, nat> {
    match q
    case Start => if CanBuild(|s.free|, kmap, 0) then procs[s.free[0] := 0] else procs
    case Resize(d, size) => if d in procs then procs[d := NewSize(|s.free|, procs[d], size)] else procs
    case Fork(d) => if d in procs && CanBuild(|s.free|, kmap, Pages(procs[d])) then procs[s.free[0] := procs[d]] else procs
    case Exit(d) => procs - {d}
  }

  predicate Targets(q: Request, d: nat) {
    (q.Resize? || q.Exit?) && q.dir == d
  }

  /** The pages both sizes cover are kept, and what is new is zero. */
  ghost predicate Resized(s: State, s': State, d: nat, sz: nat, newsz: nat) {
    && IsDir(s, d) && IsDir(s', d)
    && (forall v :: 0 <= v < USER_PAGES && v < Pages(sz) && v < Pages(newsz) ==> SamePage(s, s', d, v))
    && (forall v :: 0 <= v < USER_PAGES && Pages(sz) <= v < Pages(newsz) ==>
          Lookup(s', d, v).Present? && Lookup(s', d, v).frame in s'.mem && Holds(s'.mem[Lookup(s', d, v).frame], 0))
  }

  ghost predicate SamePage(s: State, s': State, d: nat, v: nat)
    requires IsDir(s, d) && IsDir(s', d) && v < USER_PAGES
  {
    && Lookup(s', d, v) == Lookup(s, d, v)
    && (Lookup(s, d, v).Present? && Lookup(s, d, v).frame in s.mem ==>
          Lookup(s, d, v).frame in s'.mem && s'.mem[Lookup(s, d, v).frame] == s.mem[Lookup(s, d, v).frame])
  }

  lemma RestoredOrSame(s: State, s': State, d: nat, sz: nat)
    requires Valid(s) && (s' == s || Restored(s, s')) && SpaceOk(s, d, sz)
    ensures SpaceOk(s', d, sz)
  {
    if s' != s {
      RestoredSpace(s, s', d, sz);
    }
  }

  lemma GrownResized(s: State, s': State, d: nat, sz: nat, newsz: nat)
    requires Valid(s) && Valid(s') && SpaceOk(s, d, sz) && Ready(s', d) && sz <= newsz <= USER_PAGES * PAGE_BYTES
    requires Grown(s, s', d, Pages(sz), Pages(newsz), Zeros())
    ensures Resized(s, s', d, sz, newsz)
  {
    forall v | 0 <= v < USER_PAGES
      ensures v < Pages(sz) ==> SamePage(s, s', d, v)
      ensures Pages(sz) <= v < Pages(newsz) ==>
        Lookup(s', d, v).Present? && Lookup(s', d, v).frame in s'.mem && Holds(s'.mem[Lookup(s', d, v).frame], 0)
    {
      GrownMaps(s, s', d, Pages(sz), Pages(newsz), Zeros(), v);
    }
  }

  lemma DroppedResized(s: State, s': State, d: nat, sz: nat, newsz: nat)
    requires Valid(s) && Valid(s') && SpaceOk(s, d, sz) && Ready(s', d) && newsz <= sz && Dropped(s, s', d, Pages(newsz), Pages(sz))
    ensures Resized(s, s', d, sz, newsz)
  {
    forall v | 0 <= v < USER_PAGES && v < Pages(newsz) ensures SamePage(s, s', d, v) {
      DroppedMaps(s, s', d, Pages(newsz), Pages(sz), v);
    }
  }

  lemma RestoredResized(s: State, s': State, d: nat, sz: nat)
    requires Valid(s) && (s' == s || Restored(s, s')) && SpaceOk(s, d, sz)
    ensures Resized(s, s', d, sz, sz)
  {
    if s' != s {
      RestoredSpace(s, s', d, sz);
    }
  }

  /** What one request does: to the process table, to the process it names, and nothing to the others. */
  ghost predicate ServedBy(kmap: seq<Range>, q: Request, s: State, procs: map<nat, nat>, s': State, procs': map<nat, nat>) {
    && procs' == NextProcs(s, kmap, q, procs)
    && AllSame(s, s', procs, q)
    && match q
       case Start => CanBuild(|s.free|, kmap, 0) ==> s.free != [] && s.free[0] !in procs && KernelOnly(s', s.free[0], kmap, |kmap|)
       case Resize(d, size) => d in procs ==> Resized(s, s', d, procs[d], procs'[d])
       case Fork(d) => d in procs && CanBuild(|s.free|, kmap, Pages(procs[d])) ==>
         s.free != [] && s.free[0] !in procs && Copied(s, s', kmap, d, s.free[0], Pages(procs[d]))
       case Exit(d) => d in procs ==> FreedDir(s, s', d)
  }

  /** The process table after a request, in pages of 4096 bytes: a directory with the kernel's map takes 13,
      memory ends at 640K, and a failed request leaves the table as it was. */
  lemma ServedTable(data: nat, q: Request, s: State, procs: map<nat, nat>, s': State, procs': map<nat, nat>)
    requires 0x100 < data < POOL_END && ServedBy(Kmap(data), q, s, procs, s', procs')
    ensures match q
      case Start =>
        if |s.free| < 13 then procs' == procs else s.free[0] !in procs && procs' == procs[s.free[0] := 0]
      case Resize(d, size) =>
        if d !in procs then procs' == procs
        else
          var pages := (size + 4095) / 4096 - (procs[d] + 4095) / 4096;
          procs' == procs[d := if size > procs[d] && (size > 0xA0000 || |s.free| < pages) then procs[d] else size]
      case Fork(d) =>
        if d !in procs || |s.free| < 13 + (procs[d] + 4095) / 4096 then procs' == procs
        else s.free[0] !in procs && procs' == procs[s.free[0] := procs[d]]
      case Exit(d) => procs' == procs - {d}
  {
    hide AllSame, Resized, Copied, FreedDir, KernelOnly, Touched;
    KernelMap(data);
    if q.Resize? && q.dir in procs {
      assert procs[q.dir := procs[q.dir]] == procs;
    }
  }

  /** The address spaces of processes the request does not name are the same. */
  ghost predicate AllSame(s: State, s': State, procs: map<nat, nat>, q: Request) {
    forall c :: c in procs && !Targets(q, c) ==> SameSpace(s, s', c)
  }

  lemma KeptSame(s: State, s': State, d: nat, procs: map<nat, nat>, q: Request)
    requires Valid(s) && Kept(s, s', d) && AllSpaces(s, procs) && (d !in procs || Targets(q, d))
    ensures AllSame(s, s', procs, q)
  {
    forall c | c in procs && !Targets(q, c) ensures SameSpace(s, s', c) {
      SpaceKept(s, s', d, c, procs[c]);
    }
  }

  lemma RestoredSame(s: State, s': State, procs: map<nat, nat>, q: Request)
    requires Valid(s) && (s' == s || Restored(s, s')) && AllSpaces(s, procs)
    ensures AllSame(s, s', procs, q)
  {
    forall c | c in procs && !Targets(q, c) ensures SameSpace(s, s', c) {
      assert SpaceOk(s, c, procs[c]);
      if s' != s {
        RestoredSpace(s, s', c, procs[c]);
      }
    }
  }

  /** A free page belongs to no process. */
  lemma FreeNoProc(s: State, procs: map<nat, nat>)
    requires Valid(s) && AllSpaces(s, procs) && s.free != []
    ensures s.free[0] !in procs && s.free[0] in s.role && s.role[s.free[0]].Free? && procs - {s.free[0]} == procs
  {
    assert s.role[s.free[0]] == Free;
    assert s.free[0] !in procs;
    assert procs - {s.free[0]} == procs;
  }

  /** A run: each state and table follows from the one before by the request between them. */
  ghost predicate IsRun(kmap: seq<Range>, reqs: seq<Request>, states: seq<State>, tables: seq<map<nat, nat>>) {
    && |states| == |tables| == |reqs| + 1
    && (forall i :: 0 <= i < |reqs| ==> ServedBy(kmap, reqs[i], states[i], tables[i], states[i + 1], tables[i + 1]))
  }

  lemma SameSpaceStep(s: State, m: State, s': State, d: nat)
    requires SameSpace(s, m, d) && SameSpace(m, s', d)
    ensures SameSpace(s, s', d)
  {
  }

  /** In every run, a process no resize or exit names keeps its table entry, its mappings and every byte. */
  lemma {:induction false} Undisturbed(kmap: seq<Range>, reqs: seq<Request>, states: seq<State>, tables: seq<map<nat, nat>>, d: nat, n: nat)
    requires IsRun(kmap, reqs, states, tables) && n <= |reqs| && d in tables[0] && IsDir(states[0], d)
    requires forall i :: 0 <= i < |reqs| ==> !Targets(reqs[i], d)
    ensures d in tables[n] && tables[n][d] == tables[0][d] && SameSpace(states[0], states[n], d)
  {
    hide SameSpace, Copied, Resized, FreedDir, KernelOnly;
    if n == 0 {
      SpaceSelf(states[0], d);
    } else {
      Undisturbed(kmap, reqs, states, tables, d, n - 1);
      assert ServedBy(kmap, reqs[n - 1], states[n - 1], tables[n - 1], states[n], tables[n]);
      SameSpaceStep(states[0], states[n - 1], states[n], d);
    }
  }

  lemma SpaceSelf(s: State, d: nat)
    requires IsDir(s, d)
    ensures SameSpace(s, s, d)
  {
  }

  /** Physical memory and its pages' roles. */
  class Memory {
    var mem: map<nat, Page>
    var free: seq<nat>
    ghost var role: map<nat, Role>

    ghost function S(): State
      reads this
    {
      State(mem, free, role)
    }

    /** kalloc */
    method Kalloc() returns (r: Option<nat>)
      modifies this
      ensures r.None? <==> old(free) == []
      ensures r.None? ==> S() == old(S())
      ensures r.Some? ==> r.value == old(free)[0] && S() == Taken(old(S()))
    {
      if free == [] {
        return None;
      }
      r := Some(free[0]);
      role := role[free[0] := Other];
      free := free[1..];
    }

    /** kfree */
    method Kfree(p: nat)
      requires p in role                     // a page of the pool, else the source panics
      modifies this
      ensures S() == Freed(old(S()), p)
    {
      mem := mem[p := Junk()];
      free := [p] + free;
      role := role[p := Free];
    }

    /** walkpgdir */
    method Walkpgdir(d: nat, v: nat, create: bool) returns (r: Option<nat>)
      requires Valid(S()) && IsDir(S(), d) && v < VIRTUAL
      modifies this
      ensures Valid(S()) && IsDir(S(), d) && Wired(old(S()), S(), d) && SameLookups(old(S()), S(), d)
      ensures r.Some? ==> IsTableOf(S(), r.value, d, v / ENTRIES) && Pde(S(), d, v / ENTRIES).Present? && Pde(S(), d, v / ENTRIES).frame == r.value
      ensures old(Pde(S(), d, v / ENTRIES)).Present? || !create ==> S() == old(S())
      ensures r.None? <==> old(Pde(S(), d, v / ENTRIES)) == Absent && (!create || old(free) == [])
      ensures r.None? ==> S() == old(S())
      ensures forall i :: 0 <= i < ENTRIES && i != v / ENTRIES ==> Pde(S(), d, i) == old(Pde(S(), d, i))
      ensures r.Some? && old(Pde(S(), d, v / ENTRIES)) == Absent ==> |free| == |old(free)| - 1
    {
      TableFacts(S(), d, v);
      var e := mem[d].es[v / ENTRIES];
      if e.Present? {
        return Some(e.frame);
      }
      if !create {
        return None;
      }
      r := Kalloc();
      if r.Some? {
        var t := r.value;
        TakenValid(old(S()));
        WrittenValid(S(), t, ZeroTable());
        mem := mem[t := ZeroTable()];
        NewTableValid(S(), d, v / ENTRIES, t);
        NewTableLookups(S(), d, v / ENTRIES, t);
        ghost var s1 := S();
        mem := mem[d := Words(mem[d].es[v / ENTRIES := Present(t, true)])];
        role := role[t := Table(d, v / ENTRIES)];
        assert SameLookups(s1, S(), d);
        assert SameLookups(old(S()), s1, d) by {
          SpareLookups(old(S()), s1, d);
        }
      }
    }

    /** One round of the mappages loop, over a kernel address. */
    method MapOne(d: nat, v: nat, frame: nat) returns (ok: bool)
      requires Valid(S()) && IsDir(S(), d) && USER_PAGES <= v < VIRTUAL
      requires Lookup(S(), d, v) == Absent                       // else the source panics
      modifies this
      ensures Valid(S()) && IsDir(S(), d) && Wired(old(S()), S(), d)
      ensures ok <==> old(Pde(S(), d, v / ENTRIES)).Present? || old(free) != []
      ensures !ok ==> S() == old(S())
      ensures ok ==> |free| == |old(free)| - if old(Pde(S(), d, v / ENTRIES)).Present? then 0 else 1
      ensures ok ==> forall u :: 0 <= u < VIRTUAL ==>
        Lookup(S(), d, u) == if u == v then Present(frame, false) else old(Lookup(S(), d, u))
      ensures ok ==> forall i :: 0 <= i < ENTRIES ==>
        (Pde(S(), d, i).Present? <==> old(Pde(S(), d, i)).Present? || i == v / ENTRIES)
    {
      hide Valid;
      var t := Walkpgdir(d, v, true);
      if t.None? {
        return false;
      }
      ghost var s1 := S();
      KernelPteValid(s1, t.value, d, v / ENTRIES, v % ENTRIES, frame);
      PteLookups(s1, t.value, d, v, Present(frame, false));
      mem := mem[t.value := Words(mem[t.value].es[v % ENTRIES := Present(frame, false)])];
      assert S() == WithPte(s1, t.value, v % ENTRIES, Present(frame, false));
      return true;
    }

    /** mappages over kernel addresses first..last */
    method Mappages(d: nat, first: nat, last: nat, pa: nat) returns (ok: bool)
      requires Valid(S()) && IsDir(S(), d) && USER_PAGES <= first <= last < VIRTUAL
      requires forall v :: first <= v <= last ==> Lookup(S(), d, v) == Absent
      modifies this
      ensures Valid(S()) && IsDir(S(), d) && Wired(old(S()), S(), d)
      ensures ok <==> |old(free)| >= |Fresh(old(S()), d, first, last)|
      ensures |free| == if ok then |old(free)| - |Fresh(old(S()), d, first, last)| else 0
      ensures ok ==> forall v :: 0 <= v < VIRTUAL ==>
        Lookup(S(), d, v) == if first <= v <= last then Present(pa + v - first, false) else old(Lookup(S(), d, v))
      ensures ok ==> forall i :: 0 <= i < ENTRIES ==>
        (Pde(S(), d, i).Present? <==> old(Pde(S(), d, i)).Present? || first / ENTRIES <= i <= last / ENTRIES)
    {
      hide Valid, Wired, Lookup, Pde;
      ghost var s0 := S();
      ghost var needed := Fresh(s0, d, first, last);
      ghost var made: set<nat> := {};
      WiredSelf(s0, d);
      var v, frame := first, pa;
      while v <= last
        invariant first <= v <= last + 1 && frame == pa + v - first
        invariant Valid(S()) && IsDir(S(), d) && Wired(s0, S(), d)
        invariant made <= needed && |free| == |s0.free| - |made|
        invariant forall i :: 0 <= i < ENTRIES ==> (Pde(S(), d, i).Present? <==> Pde(s0, d, i).Present? || i in made)
        invariant forall u :: first <= u < v ==> Pde(S(), d, u / ENTRIES).Present?
        invariant forall u :: 0 <= u < VIRTUAL ==>
          Lookup(S(), d, u) == if first <= u < v then Present(pa + u - first, false) else Lookup(s0, d, u)
      {
        ghost var s1 := S();
        ok := MapOne(d, v, frame);
        if !ok {
          assert v / ENTRIES in needed && v / ENTRIES !in made;
          ProperSubset(made, needed, v / ENTRIES);
          return;
        }
        WiredStep(s0, s1, S(), d);
        if !Pde(s1, d, v / ENTRIES).Present? {
          made := made + {v / ENTRIES};
        }
        v, frame := v + 1, frame + 1;
      }
      forall i | first / ENTRIES <= i <= last / ENTRIES ensures Pde(S(), d, i).Present? {
        var u := if i * ENTRIES < first then first else i * ENTRIES;
        assert u / ENTRIES == i;
      }
      assert made == needed;
      return true;
    }

    /** setupkvm */
    method Setupkvm(kmap: seq<Range>) returns (r: Option<nat>)
      requires Valid(S()) && KmapOk(kmap)
      modifies this
      ensures Valid(S())
      ensures r.Some? <==> |old(free)| >= 1 + |Touched(kmap, |kmap|)|
      ensures r.Some? ==>
        && old(free) != [] && r.value == old(free)[0]
        && Built(old(S()), S(), r.value) && KernelOnly(S(), r.value, kmap, |kmap|) && Pde(S(), r.value, 0).Present?
        && |free| == |old(free)| - 1 - |Touched(kmap, |kmap|)|
      ensures r.None? && old(free) == [] ==> S() == old(S())
      ensures r.None? && old(free) != [] ==>
        && Built(old(S()), S(), old(free)[0]) && free == []
        && forall p :: p in old(role) && old(role)[p].Free? ==> p in role && OwnedBy(role[p], p, old(free)[0])
    {
      hide Valid, Wired, Lookup, Pde, Built, KernelOnly, Fresh, Touched;
      ghost var s0 := S();
      r := Kalloc();
      if r.None? {
        return;
      }
      EmptyDirBuilt(s0, kmap);
      var d := r.value;
      mem := mem[d := ZeroTable()];
      role := role[d := Directory];
      assert S() == NewDir(Written(Taken(s0), d, ZeroTable()), d);
      var k := 0;
      while k < |kmap|
        invariant 0 <= k <= |kmap|
        invariant Valid(S()) && Built(s0, S(), d) && KernelOnly(S(), d, kmap, k)
        invariant |free| == |s0.free| - 1 - |Touched(kmap, k)|
      {
        ghost var s1 := S();
        NotYet(s1, d, kmap, k);
        KernelDir(s1, d, kmap, k);
        var ok := Mappages(d, kmap[k].first, kmap[k].last, kmap[k].first);
        BuiltWired(s0, s1, S(), d);
        if !ok {
          TouchedGrows(kmap, k + 1, |kmap|);
          AllLost(s0, S(), d);
          return None;
        }
        NextMapped(s1, S(), d, kmap, k);
        k := k + 1;
      }
      KernelDir(S(), d, kmap, k);
    }

    /** mappages for one user page: x becomes page v of d, and no page table is ever needed. */
    method MapUser(d: nat, v: nat, x: nat)
      requires Valid(S()) && Ready(S(), d) && v < USER_PAGES && Lookup(S(), d, v) == Absent
      requires x in role && role[x] == Other
      modifies this
      ensures var t := old(Pde(S(), d, 0)).frame;
        t in old(mem) && IsTable(old(mem)[t]) && S() == Attached(old(S()), t, d, v, x)
    {
      UserTable(S(), d);
      var t := Walkpgdir(d, v, true);
      mem := mem[t.value := Words(mem[t.value].es[v := Present(x, true)])];
      role := role[x := User(d, v)];
    }

    /** One round of the deallocuvm loop; s is the state at the call of deallocuvm. */
    method DropPage(ghost s: State, d: nat, ghost lo: nat, v: nat)
      requires Valid(S()) && IsDir(S(), d) && lo <= v < USER_PAGES && Dropped(s, S(), d, lo, v)
      modifies this
      ensures Valid(S()) && IsDir(S(), d) && Dropped(s, S(), d, lo, v + 1)
    {
      hide Valid, Dropped, Lookup, Wired, SameLookups;
      ghost var m := S();
      var t := Walkpgdir(d, v, false);
      UserEntry(m, d, v);
      if t.Some? && mem[t.value].es[v].Present? {
        DroppedStep(s, m, d, lo, v);
        var x := mem[t.value].es[v].frame;
        Kfree(x);
        mem := mem[t.value := Words(mem[t.value].es[v := Absent])];
        assert S() == Freed(Detached(m, t.value, v, x), x);
      } else {
        DroppedAbsent(s, m, d, lo, v);
      }
    }

    /** deallocuvm */
    method Deallocuvm(d: nat, oldsz: nat, newsz: nat) returns (r: nat)
      requires Valid(S()) && IsDir(S(), d) && oldsz <= USER_PAGES * PAGE_BYTES
      modifies this
      ensures Valid(S()) && IsDir(S(), d)
      ensures newsz >= oldsz ==> r == oldsz && S() == old(S())
      ensures newsz < oldsz ==> r == newsz && Dropped(old(S()), S(), d, Pages(newsz), Pages(oldsz))
    {
      hide Valid, Dropped;
      if newsz >= oldsz {
        return oldsz;
      }
      ghost var s0 := S();
      var v := Pages(newsz);
      DroppedNothing(s0, d, v);
      while v * PAGE_BYTES < oldsz
        invariant Pages(newsz) <= v <= Pages(oldsz)
        invariant Valid(S()) && IsDir(S(), d) && Dropped(s0, S(), d, Pages(newsz), v)
        decreases Pages(oldsz) - v
      {
        DropPage(s0, d, Pages(newsz), v);
        v := v + 1;
      }
      return newsz;
    }

    /** allocuvm */
    method Allocuvm(d: nat, oldsz: nat, newsz: nat) returns (r: nat)
      requires Valid(S()) && Ready(S(), d)
      requires forall v :: Pages(oldsz) <= v < Pages(newsz) && v < USER_PAGES ==> Lookup(S(), d, v) == Absent
      modifies this
      ensures Valid(S()) && Ready(S(), d)
      ensures newsz > USER_PAGES * PAGE_BYTES ==> r == 0 && S() == old(S())
      ensures newsz < oldsz && newsz <= USER_PAGES * PAGE_BYTES ==> r == oldsz && S() == old(S())
      ensures oldsz <= newsz <= USER_PAGES * PAGE_BYTES ==>
        var n := Pages(newsz) - Pages(oldsz);
        if |old(free)| >= n then
          r == newsz && |free| == |old(free)| - n && Grown(old(S()), S(), d, Pages(oldsz), Pages(newsz), Zeros())
        else r == 0 && Restored(old(S()), S())
    {
      hide Valid, Grown, Dropped, Lookup;
      if newsz > USER_PAGES * PAGE_BYTES {
        return 0;
      }
      if newsz < oldsz {
        return oldsz;
      }
      ghost var s0 := S();
      ghost var lo, hi := Pages(oldsz), Pages(newsz);
      var v := Pages(oldsz);
      GrownNothing(s0, d, lo, Zeros());
      while v * PAGE_BYTES < newsz
        invariant lo <= v <= hi
        invariant Valid(S()) && Ready(S(), d) && Grown(s0, S(), d, lo, v, Zeros())
        invariant |free| == |s0.free| - (v - lo)
        invariant forall u :: v <= u < hi ==> Lookup(S(), d, u) == Absent
        decreases hi - v
      {
        ghost var m := S();
        var x := Kalloc();
        if x.None? {
          r := Deallocuvm(d, newsz, oldsz);
          GrowThenDrop(s0, m, S(), d, lo, v, hi, Zeros());
          StillReady(s0, S(), d);
          return 0;
        }
        GrownStep(s0, m, d, lo, v, Zeros());
        TakenWritten(m, d, v, ZeroBytes());
        mem := mem[x.value := ZeroBytes()];
        MapUser(d, v, x.value);
        assert S() == WithUser(m, d, v, ZeroBytes());
        v := v + 1;
      }
      return newsz;
    }

    /** freevm */
    method Freevm(d: nat)
      requires Valid(S()) && IsDir(S(), d)
      modifies this
      ensures Valid(S()) && FreedDir(old(S()), S(), d)
    {
      hide Valid, Dropped, FreedDir, Freeing;
      ghost var s0 := S();
      var r := Deallocuvm(d, USER_PAGES * PAGE_BYTES, 0);
      ghost var m := S();
      FreeingStart(m, d);
      AbandonedValid(m, d);
      role := Abandoned(m, d).role;
      var entries := mem[d].es;
      var i := 0;
      while i < ENTRIES
        invariant 0 <= i <= ENTRIES && Valid(S()) && Freeing(m, S(), d, i)
      {
        if entries[i].Present? {
          FreeingStep(m, S(), d, i);
          Kfree(entries[i].frame);
        } else {
          FreeingAbsent(m, S(), d, i);
        }
        i := i + 1;
      }
      FreeingEnd(s0, m, S(), d);
      Kfree(d);
    }

    /** One round of the copyuvm loop; s is the state at the call of copyuvm, m the state after setupkvm. */
    method CopyPage(ghost s: State, ghost m: State, d: nat, c: nat, v: nat, ghost n: nat) returns (ok: bool)
      requires Valid(s) && IsDir(s, d) && Built(s, m, c) && v < n <= USER_PAGES && Lookup(s, d, v).Present?
      requires Valid(S()) && Ready(S(), c) && Grown(m, S(), c, 0, v, Image(s, d, n)) && Lookup(S(), c, v) == Absent
      modifies this
      ensures ok <==> old(free) != []
      ensures !ok ==> S() == old(S())
      ensures ok ==>
        && Valid(S()) && Ready(S(), c) && |free| == |old(free)| - 1 && Grown(m, S(), c, 0, v + 1, Image(s, d, n))
        && (forall u :: 0 <= u < USER_PAGES && u != v ==> Lookup(S(), c, u) == old(Lookup(S(), c, u)))
    {
      hide Valid, Lookup, Built, Grown, Image;
      ghost var g := S();
      ghost var img := Image(s, d, n);
      ParentKept(s, m, g, d, c, v, n);
      var t := Walkpgdir(d, v, false);
      var pa := mem[t.value].es[v].frame;
      var x := Kalloc();
      if x.None? {
        return false;
      }
      GrownStep(m, g, c, 0, v, img);
      TakenWritten(g, c, v, img[v]);
      mem := mem[x.value := mem[pa]];
      assert S() == Written(Taken(g), x.value, img[v]);
      MapUser(c, v, x.value);
      assert S() == WithUser(g, c, v, img[v]);
      return true;
    }

    /** copyuvm */
    method Copyuvm(kmap: seq<Range>, d: nat, sz: nat) returns (r: Option<nat>)
      requires Valid(S()) && KmapOk(kmap) && IsDir(S(), d) && sz <= USER_PAGES * PAGE_BYTES
      requires forall v :: 0 <= v < Pages(sz) ==> Lookup(S(), d, v).Present?          // else the source panics
      modifies this
      ensures Valid(S())
      ensures r.Some? <==> |old(free)| >= 1 + |Touched(kmap, |kmap|)| + Pages(sz)
      ensures r.Some? ==> old(free) != [] && r.value == old(free)[0] && Copied(old(S()), S(), kmap, d, r.value, Pages(sz))
      ensures r.None? && (old(free) == [] || |old(free)| >= 1 + |Touched(kmap, |kmap|)|) ==> Restored(old(S()), S())
      ensures r.None? && 0 < |old(free)| < 1 + |Touched(kmap, |kmap|)| ==>
        && Built(old(S()), S(), old(free)[0]) && free == []
        && forall p :: p in old(role) && old(role)[p].Free? ==> p in role && OwnedBy(role[p], p, old(free)[0])
    {
      hide Valid, Lookup, Built, Grown, Copied, FreedDir, KernelOnly, Image, Touched, KmapOk, OwnedBy, Restored;
      ghost var s0 := S();
      ghost var img := Image(s0, d, Pages(sz));
      r := Setupkvm(kmap);
      if r.None? {
        RestoredSelf(s0);
        return;
      }
      ghost var m := S();
      var c := r.value;
      GrownNothing(m, c, 0, img);
      NoUserPages(m, c, kmap);
      KernelDir(m, c, kmap, |kmap|);
      var v := 0;
      while v * PAGE_BYTES < sz
        invariant 0 <= v <= Pages(sz)
        invariant Valid(S()) && Ready(S(), c) && Grown(m, S(), c, 0, v, img)
        invariant |free| == |m.free| - v
        invariant forall u :: v <= u < USER_PAGES ==> Lookup(S(), c, u) == Absent
        decreases Pages(sz) - v
      {
        ghost var g := S();
        var ok := CopyPage(s0, m, d, c, v, Pages(sz));
        if !ok {
          Freevm(c);
          BuildThenFree(s0, m, g, S(), c, v, img);
          return None;
        }
        v := v + 1;
      }
      ChildCopied(s0, m, S(), kmap, d, c, Pages(sz));
    }

    /** kinit over the pages lo..hi */
    constructor (lo: nat, hi: nat)
      requires 0 < lo <= hi <= POOL_END
      ensures Valid(S()) && |free| == hi - lo
      ensures forall p :: p in role <==> lo <= p < hi
      ensures forall p :: p in role ==> role[p].Free?
    {
      mem := map p | p in Between(lo, hi) :: ZeroBytes();
      role := map p | p in Between(lo, hi) :: Other;
      free := [];
      new;
      var p := lo;
      while p < hi
        invariant lo <= p <= hi && |free| == p - lo && Valid(S())
        invariant forall q :: q in role <==> lo <= q < hi
        invariant forall q :: q in role ==> role[q] == if q < p then Free else Other
      {
        FreedValid(S(), p);
        Kfree(p);
        p := p + 1;
      }
    }

    /** growproc on directory d of size sz */
    method Resize(d: nat, sz: nat, newsz: nat) returns (r: nat)
      requires Valid(S()) && SpaceOk(S(), d, sz)
      modifies this
      ensures Valid(S()) && SpaceOk(S(), d, r) && Kept(old(S()), S(), d)
      ensures r == NewSize(|old(free)|, sz, newsz) && Resized(old(S()), S(), d, sz, r)
    {
      hide Valid, Grown, Dropped, Kept, Lookup, Resized, Restored;
      ghost var s0 := S();
      if newsz > sz {
        assert forall v :: Pages(sz) <= v < Pages(newsz) && v < USER_PAGES ==> Lookup(s0, d, v) == Absent;
        var got := Allocuvm(d, sz, newsz);
        if got == 0 {
          r := sz;
          KeptWhenRestored(s0, d, S());
          RestoredResized(s0, S(), d, sz);
          RestoredOrSame(s0, S(), d, sz);
        } else {
          r := newsz;
          GrownSpace(s0, S(), d, sz, newsz, Zeros());
          GrownResized(s0, S(), d, sz, newsz);
        }
      } else if newsz < sz {
        r := Deallocuvm(d, sz, newsz);
        DroppedSpace(s0, S(), d, sz, newsz);
        DroppedResized(s0, S(), d, sz, newsz);
      } else {
        r := newsz;
        KeptWhenRestored(s0, d, S());
        RestoredResized(s0, S(), d, sz);
      }
    }

    /** One request; procs is the process table, directory to size. */
    method Serve(kmap: seq<Range>, q: Request, procs0: map<nat, nat>) returns (procs: map<nat, nat>)
      requires Valid(S()) && KmapOk(kmap) && AllSpaces(S(), procs0)
      modifies this
      ensures Valid(S()) && AllSpaces(S(), procs) && ServedBy(kmap, q, old(S()), procs0, S(), procs)
    {
      hide Valid, Kept, SpaceOk, Built, Copied, FreedDir, Restored, KernelOnly, Lookup, AllSame, SameSpace, Resized, Touched;
      ghost var s0 := S();
      procs := procs0;
      match q {
        case Start =>
          procs := Begin(kmap, procs);
        case Resize(d, size) =>
          if d in procs {
            var r := Resize(d, procs[d], size);
            OthersKept(s0, S(), d, procs);
            AddSpace(S(), procs, d, r);
            KeptSame(s0, S(), d, procs, q);
            procs := procs[d := r];
          } else {
            RestoredSame(s0, S(), procs, q);
          }
        case Fork(d) =>
          if d in procs {
            procs := Child(kmap, d, procs);
          } else {
            RestoredSame(s0, S(), procs, q);
          }
        case Exit(d) =>
          if d in procs {
            SpaceDir(s0, d, procs[d]);
            Freevm(d);
            FreedDirKept(s0, S(), d);
            OthersKept(s0, S(), d, procs);
            KeptSame(s0, S(), d, procs, q);
          } else {
            assert procs - {d} == procs;
            RestoredSame(s0, S(), procs, q);
          }
          procs := procs - {d};
      }
    }

    /** A new process without memory */
    method Begin(kmap: seq<Range>, procs0: map<nat, nat>) returns (procs: map<nat, nat>)
      requires Valid(S()) && KmapOk(kmap) && AllSpaces(S(), procs0)
      modifies this
      ensures Valid(S()) && AllSpaces(S(), procs) && ServedBy(kmap, Start, old(S()), procs0, S(), procs)
    {
      hide Valid, Kept, SpaceOk, Built, KernelOnly, Lookup, AllSame, SameSpace, Touched, AllSpaces, KmapOk;
      ghost var s0 := S();
      procs := procs0;
      var r := Setupkvm(kmap);
      if s0.free == [] {
        RestoredSame(s0, S(), procs, Start);
      } else {
        FreeNoProc(s0, procs);
        BuiltFacts(s0, S(), s0.free[0]);
        AllBuilt(s0, S(), s0.free[0], procs);
        KeptSame(s0, S(), s0.free[0], procs, Start);
      }
      if r.Some? {
        StartSpace(S(), r.value, kmap);
        AddSpace(S(), procs, r.value, 0);
        procs := procs[r.value := 0];
      }
    }

    /** fork's use of copyuvm */
    method Child(kmap: seq<Range>, d: nat, procs0: map<nat, nat>) returns (procs: map<nat, nat>)
      requires Valid(S()) && KmapOk(kmap) && AllSpaces(S(), procs0) && d in procs0
      modifies this
      ensures Valid(S()) && AllSpaces(S(), procs) && ServedBy(kmap, Fork(d), old(S()), procs0, S(), procs)
    {
      hide Valid, Kept, SpaceOk, Built, Copied, Restored, Lookup, AllSame, SameSpace, Touched, KmapOk;
      ghost var s0 := S();
      procs := procs0;
      SpaceDir(s0, d, procs[d]);
      var r := Copyuvm(kmap, d, procs[d]);
      if r.Some? {
        FreeNoProc(s0, procs);
        CopiedSpace(s0, S(), kmap, d, r.value, procs[d]);
        AllBuilt(s0, S(), r.value, procs);
        KeptSame(s0, S(), r.value, procs, Fork(d));
        AddSpace(S(), procs, r.value, procs[d]);
        procs := procs[r.value := procs[d]];
      } else if s0.free == [] || |s0.free| >= 1 + |Touched(kmap, |kmap|)| {
        AllRestored(s0, S(), procs);
        RestoredSame(s0, S(), procs, Fork(d));
      } else {
        FreeNoProc(s0, procs);
        BuiltFacts(s0, S(), s0.free[0]);
        AllBuilt(s0, S(), s0.free[0], procs);
        KeptSame(s0, S(), s0.free[0], procs, Fork(d));
      }
    }

    /** Any run of process creation, growth, forking and exit; states and tables record it. */
    method Run(kmap: seq<Range>, reqs: seq<Request>, procs0: map<nat, nat>)
      returns (procs: map<nat, nat>, ghost states: seq<State>, ghost tables: seq<map<nat, nat>>)
      requires Valid(S()) && KmapOk(kmap) && AllSpaces(S(), procs0)
      modifies this
      ensures Valid(S()) && AllSpaces(S(), procs)
      ensures IsRun(kmap, reqs, states, tables)
      ensures states[0] == old(S()) && tables[0] == procs0 && states[|reqs|] == S() && tables[|reqs|] == procs
    {
      hide Valid, AllSpaces, ServedBy;
      procs, states, tables := procs0, [S()], [procs0];
      for i := 0 to |reqs|
        invariant Valid(S()) && AllSpaces(S(), procs)
        invariant |states| == |tables| == i + 1 && states[0] == old(S()) && tables[0] == procs0
        invariant states[i] == S() && tables[i] == procs
        invariant forall k :: 0 <= k < i ==> ServedBy(kmap, reqs[k], states[k], tables[k], states[k + 1], tables[k + 1])
      {
        procs := Serve(kmap, reqs[i], procs);
        states, tables := states + [S()], tables + [procs];
      }
    }
  }
}
