// The buffer cache of 5/xv6/bio.c over the disk queue of 5/xv6/ide.c, used by any
// number of processes at once.  A step is one stretch of code under bcache.lock or
// under idelock, or one action of the process that holds a buffer.
module BufferCache {
  import opened Common

  type Key = (nat, nat)      // device and sector

  /** The contents of one sector. */
  type Block = int

  datatype Buf = Buf(key: Option<Key>, busy: bool, valid: bool, dirty: bool, data: Block)

  const NOBODY := -1

  /** What a process is doing. */
  datatype Pc =
    | Idle
    | Wants(key: Key, waits: int)             // in bget; asleep on that buffer, or about to scan
    | Got(b: nat, key: Key)                   // bget has returned
    | Io(b: nat, key: Key, asleep: bool)      // in iderw; asleep on the buffer, or about to look at its flags
    | Holds(b: nat, key: Key, clean: bool)    // bread has returned; clean if unchanged since the last I/O

  predicate HasBuf(p: Pc) {
    p.Got? || p.Io? || p.Holds?
  }

  datatype State = State(
    bufs: seq<Buf>,
    order: seq<nat>,             // most recently released first
    queue: seq<nat>,             // idequeue
    disk: map<Key, Block>,
    pcs: seq<Pc>,
    owner: seq<int>,             // the process each buffer is with, or NOBODY
    written: map<Key, Block>,    // what was last passed to bwrite
    stamp: seq<nat>,             // when each buffer was last released
    now: nat)

  function At(m: map<Key, Block>, k: Key): Block {
    if k in m then m[k] else 0
  }

  // ------------------------------------------------------------------ steps

  datatype Step =
    | Bread(p: nat, key: Key)
    | Scan(p: nat)               // one pass of bget under bcache.lock
    | Start(p: nat)              // bread looks at B_VALID
    | Interrupt                  // ideintr completes the first request
    | Finish(p: nat)             // iderw, woken up, looks at the flags again
    | Modify(p: nat, data: Block)
    | Bwrite(p: nat)
    | Brelse(p: nat)

  predicate HasKey(b: Buf, key: Key) {
    b.key == Some(key)
  }

  /** The first buffer, from the front of the list, that caches the sector. */
  ghost predicate IsCached(s: State, key: Key, i: int) {
    && 0 <= i < |s.order| && s.order[i] < |s.bufs| && HasKey(s.bufs[s.order[i]], key)
    && forall j :: 0 <= j < i ==> s.order[j] < |s.bufs| ==> !HasKey(s.bufs[s.order[j]], key)
  }

  ghost predicate Cached(s: State, key: Key) {
    exists i :: IsCached(s, key, i)
  }

  /** The first buffer, from the back of the list, that nobody holds. */
  ghost predicate IsVictim(s: State, i: int) {
    && 0 <= i < |s.order| && s.order[i] < |s.bufs| && !s.bufs[s.order[i]].busy
    && forall j :: i < j < |s.order| ==> s.order[j] < |s.bufs| ==> s.bufs[s.order[j]].busy
  }

  ghost predicate Victim(s: State) {
    exists i :: IsVictim(s, i)
  }

  ghost predicate Shape(s: State) {
    && |s.owner| == |s.stamp| == |s.order| == |s.bufs|
    && (forall p :: 0 <= p < |s.pcs| && HasBuf(s.pcs[p]) ==> s.pcs[p].b < |s.bufs|)
    && (forall i :: 0 <= i < |s.order| ==> s.order[i] < |s.bufs|)
    && (forall i :: 0 <= i < |s.queue| ==> s.queue[i] < |s.bufs|)
  }

  ghost predicate Enabled(s: State, st: Step)
    requires Shape(s)
  {
    match st
    case Bread(p, key) => p < |s.pcs| && s.pcs[p].Idle?
    case Scan(p) => p < |s.pcs| && s.pcs[p].Wants? && s.pcs[p].waits == NOBODY
                    && (Cached(s, s.pcs[p].key) || Victim(s))      // else it panics
    case Start(p) => p < |s.pcs| && s.pcs[p].Got?
    case Interrupt => |s.queue| > 0 && s.bufs[s.queue[0]].key.Some?
    case Finish(p) => p < |s.pcs| && s.pcs[p].Io? && !s.pcs[p].asleep
    case Modify(p, d) => p < |s.pcs| && s.pcs[p].Holds?
    case Bwrite(p) => p < |s.pcs| && s.pcs[p].Holds?
    case Brelse(p) => p < |s.pcs| && s.pcs[p].Holds? && s.pcs[p].clean    // a holder writes what it changed
  }

  /** Holding b, process p goes on with pc. */
  function Take(s: State, p: nat, b: nat, buf: Buf, pc: Pc): State
    requires p < |s.pcs| && b < |s.bufs| && |s.owner| == |s.bufs|
  {
    s.(bufs := s.bufs[b := buf], owner := s.owner[b := p], pcs := s.pcs[p := pc])
  }

  function Woken(pc: Pc, b: nat): Pc {
    if pc.Wants? && pc.waits == b then Wants(pc.key, NOBODY)
    else if pc.Io? && pc.b == b then Io(b, pc.key, false)
    else pc
  }

  /** `wakeup(b)`, for those who sleep in bget and in iderw alike. */
  function Wake(pcs: seq<Pc>, b: nat): (r: seq<Pc>)
    ensures |r| == |pcs| && forall i :: 0 <= i < |pcs| ==> r[i] == Woken(pcs[i], b)
  {
    seq(|pcs|, i requires 0 <= i < |pcs| => Woken(pcs[i], b))
  }

  function ToFront(order: seq<nat>, b: nat): seq<nat> {
    [b] + Without(order, b)
  }

  function Without(order: seq<nat>, b: nat): (r: seq<nat>)
    ensures b !in r && forall x :: x in r <==> x in order && x != b
  {
    if order == [] then []
    else if order[0] == b then Without(order[1..], b)
    else [order[0]] + Without(order[1..], b)
  }

  ghost function Scanned(s: State, p: nat): State
    requires Shape(s) && Enabled(s, Scan(p))
  {
    var key := s.pcs[p].key;
    if Cached(s, key) then
      var i :| IsCached(s, key, i);
      var b := s.order[i];
      if s.bufs[b].busy then s.(pcs := s.pcs[p := Wants(key, b)])
      else Take(s, p, b, s.bufs[b].(busy := true), Got(b, key))
    else
      var i :| IsVictim(s, i);
      var b := s.order[i];
      Take(s, p, b, Buf(Some(key), true, false, false, s.bufs[b].data), Got(b, key))
  }

  ghost function Completed(s: State): State
    requires Shape(s) && Enabled(s, Interrupt)
  {
    var b := s.queue[0];
    var buf := s.bufs[b];
    var rest := s.queue[1..];
    if buf.dirty then
      s.(queue := rest, pcs := Wake(s.pcs, b), disk := s.disk[buf.key.value := buf.data],
         bufs := s.bufs[b := buf.(valid := true, dirty := false)])
    else
      s.(queue := rest, pcs := Wake(s.pcs, b),
         bufs := s.bufs[b := buf.(valid := true, data := At(s.disk, buf.key.value))])
  }

  ghost function Next(s: State, st: Step): State
    requires Shape(s) && Enabled(s, st)
  {
    match st
    case Bread(p, key) => s.(pcs := s.pcs[p := Wants(key, NOBODY)])
    case Scan(p) => Scanned(s, p)
    case Start(p) =>
      var b, key := s.pcs[p].b, s.pcs[p].key;
      if s.bufs[b].valid then s.(pcs := s.pcs[p := Holds(b, key, true)])
      else s.(pcs := s.pcs[p := Io(b, key, true)], queue := s.queue + [b])
    case Interrupt => Completed(s)
    case Finish(p) =>
      var b, key := s.pcs[p].b, s.pcs[p].key;
      s.(pcs := s.pcs[p := if s.bufs[b].valid && !s.bufs[b].dirty then Holds(b, key, true) else Io(b, key, true)])
    case Modify(p, d) =>
      var b, key := s.pcs[p].b, s.pcs[p].key;
      s.(bufs := s.bufs[b := s.bufs[b].(data := d)], pcs := s.pcs[p := Holds(b, key, false)])
    case Bwrite(p) =>
      var b, key := s.pcs[p].b, s.pcs[p].key;
      s.(bufs := s.bufs[b := s.bufs[b].(dirty := true)], pcs := s.pcs[p := Io(b, key, true)],
         queue := s.queue + [b], written := s.written[key := s.bufs[b].data])
    case Brelse(p) =>
      var b := s.pcs[p].b;
      s.(bufs := s.bufs[b := s.bufs[b].(busy := false)], order := ToFront(s.order, b),
         owner := s.owner[b := NOBODY], stamp := s.stamp[b := s.now], now := s.now + 1,
         pcs := Wake(s.pcs, b)[p := Idle])
  }

  // -------------------------------------------------------------- invariants

  /** What is true of one buffer, given what its holder is doing. */
  ghost predicate BufOk(s: State, b: int)
    requires 0 <= b < |s.bufs| == |s.owner|
  {
    var x, o := s.bufs[b], s.owner[b];
    if !x.busy then
      && o == NOBODY && !x.dirty && b !in s.queue
      && (x.valid ==> x.key.Some? && x.data == At(s.disk, x.key.value))
    else
      && 0 <= o < |s.pcs| && HasBuf(s.pcs[o]) && s.pcs[o].b == b && x.key == Some(s.pcs[o].key)
      && match s.pcs[o]
         case Got(_, k) => !x.dirty && b !in s.queue && (x.valid ==> x.data == At(s.disk, k))
         case Io(_, k, _) => if b in s.queue then x.dirty || !x.valid
                          else x.valid && !x.dirty && x.data == At(s.disk, k)
         case Holds(_, k, clean) => x.valid && !x.dirty && b !in s.queue && (clean ==> x.data == At(s.disk, k))
         case _ => false
  }

  ghost predicate BufsOk(s: State) {
    && |s.owner| == |s.bufs|
    && (forall b {:trigger BufOk(s, b)} :: 0 <= b < |s.bufs| ==> BufOk(s, b))
  }

  /** The process at a buffer is its only holder. */
  ghost predicate PcsOk(s: State) {
    && |s.owner| == |s.bufs|
    && forall p :: 0 <= p < |s.pcs| && HasBuf(s.pcs[p]) ==> s.pcs[p].b < |s.bufs| && s.owner[s.pcs[p].b] == p
  }

  ghost predicate UniqueKeys(s: State) {
    forall b, c :: 0 <= b < c < |s.bufs| && s.bufs[b].key.Some? ==> s.bufs[b].key != s.bufs[c].key
  }

  ghost predicate Distinct(q: seq<nat>) {
    forall i, j :: 0 <= i < j < |q| ==> q[i] != q[j]
  }

  /** The list holds every buffer once, most recently released first. */
  ghost predicate OrderOk(s: State) {
    && |s.stamp| == |s.order| == |s.bufs|
    && (forall i :: 0 <= i < |s.order| ==> s.order[i] < |s.bufs|)
    && (forall b :: 0 <= b < |s.bufs| ==> b in s.order && s.stamp[b] < s.now)
    && (forall i, j :: 0 <= i < j < |s.order| ==> s.stamp[s.order[i]] > s.stamp[s.order[j]])
  }

  ghost predicate QueueOk(s: State) {
    Distinct(s.queue) && forall i :: 0 <= i < |s.queue| ==> s.queue[i] < |s.bufs|
  }

  ghost predicate DirtyFor(s: State, k: Key) {
    exists b :: 0 <= b < |s.bufs| && s.bufs[b].dirty && s.bufs[b].key == Some(k)
  }

  /** Disk and dirty buffers together hold what was last written. */
  ghost predicate WrittenOk(s: State) {
    && (forall b :: 0 <= b < |s.bufs| && s.bufs[b].dirty && s.bufs[b].key.Some? ==>
          s.bufs[b].data == At(s.written, s.bufs[b].key.value))
    && (forall k {:trigger At(s.disk, k)} :: At(s.disk, k) == At(s.written, k) || DirtyFor(s, k))
  }

  ghost predicate Inv(s: State) {
    Shape(s) && BufsOk(s) && PcsOk(s) && UniqueKeys(s) && OrderOk(s) && QueueOk(s) && WrittenOk(s)
  }

  // ------------------------------------------------------- each step keeps them

  /** Facts about a process that is with a buffer. */
  lemma HolderFacts(s: State, p: nat)
    requires Inv(s) && p < |s.pcs| && HasBuf(s.pcs[p])
    ensures var b := s.pcs[p].b;
      b < |s.bufs| && s.owner[b] == p && s.bufs[b].busy && s.bufs[b].key == Some(s.pcs[p].key)
  {
    assert BufOk(s, s.pcs[p].b);
  }

  lemma BreadBufs(s: State, p: nat, pc: Pc)
    requires Inv(s) && p < |s.pcs| && !HasBuf(s.pcs[p]) && !HasBuf(pc)
    ensures BufsOk(s.(pcs := s.pcs[p := pc]))
  {
    var s' := s.(pcs := s.pcs[p := pc]);
    forall b | 0 <= b < |s'.bufs| ensures BufOk(s', b) {
      assert BufOk(s, b);
    }
  }

  lemma BreadInv(s: State, p: nat, pc: Pc)
    requires Inv(s) && p < |s.pcs| && !HasBuf(s.pcs[p]) && !HasBuf(pc)
    ensures Inv(s.(pcs := s.pcs[p := pc]))
  {
    hide BufsOk, OrderOk;
    BreadBufs(s, p, pc);
    OrderSame(s, s.(pcs := s.pcs[p := pc]));
    WrittenSame(s, s.(pcs := s.pcs[p := pc]));
  }

  lemma OrderSame(s: State, s': State)
    requires OrderOk(s) && s'.order == s.order && s'.stamp == s.stamp && s'.now == s.now && |s'.bufs| == |s.bufs|
    ensures OrderOk(s')
  {
  }

  lemma WrittenSame(s: State, s': State)
    requires WrittenOk(s) && s'.disk == s.disk && s'.written == s.written && |s'.bufs| == |s.bufs|
    requires forall b :: 0 <= b < |s.bufs| ==>
      s'.bufs[b].dirty == s.bufs[b].dirty
      && (s.bufs[b].dirty ==> s'.bufs[b].key == s.bufs[b].key && s'.bufs[b].data == s.bufs[b].data)
    ensures WrittenOk(s')
  {
    forall k ensures At(s'.disk, k) == At(s'.written, k) || DirtyFor(s', k) {
      if DirtyFor(s, k) {
        var b :| 0 <= b < |s.bufs| && s.bufs[b].dirty && s.bufs[b].key == Some(k);
        assert s'.bufs[b].dirty && s'.bufs[b].key == Some(k);
      }
    }
  }

  /** Taking a buffer nobody holds: a cached one, or one to be reused for a sector nobody caches. */
  lemma TakeInv(s: State, p: nat, b: nat, buf: Buf, key: Key)
    requires Inv(s) && p < |s.pcs| && !HasBuf(s.pcs[p]) && b < |s.bufs| && !s.bufs[b].busy
    requires buf.key == Some(key) && buf.busy && !buf.dirty
    requires buf.valid ==> buf.data == At(s.disk, key)
    requires forall c :: 0 <= c < |s.bufs| && c != b ==> s.bufs[c].key != Some(key)
    ensures Inv(Take(s, p, b, buf, Got(b, key)))
  {
    var s' := Take(s, p, b, buf, Got(b, key));
    assert BufOk(s, b);
    TakeBufs(s, p, b, buf, key);
    hide BufsOk, OrderOk, BufOk;
    OrderSame(s, s');
    WrittenSame(s, s');
  }

  lemma TakeBufs(s: State, p: nat, b: nat, buf: Buf, key: Key)
    requires Inv(s) && p < |s.pcs| && !HasBuf(s.pcs[p]) && b < |s.bufs| && !s.bufs[b].busy
    requires buf.key == Some(key) && buf.busy && !buf.dirty
    requires buf.valid ==> buf.data == At(s.disk, key)
    ensures BufsOk(Take(s, p, b, buf, Got(b, key)))
  {
    var s' := Take(s, p, b, buf, Got(b, key));
    forall c | 0 <= c < |s'.bufs| ensures BufOk(s', c) {
      assert BufOk(s, c) && BufOk(s, b);
    }
  }

  lemma NotCached(s: State, key: Key, c: nat)
    requires OrderOk(s) && !Cached(s, key) && c < |s.bufs|
    ensures s.bufs[c].key != Some(key)
  {
    assert c in s.order;
    var i :| 0 <= i < |s.order| && s.order[i] == c;
    NotCachedFrom(s, key, i);
  }

  lemma {:induction false} NotCachedFrom(s: State, key: Key, i: nat)
    requires OrderOk(s) && !Cached(s, key) && i < |s.order|
    ensures forall j :: 0 <= j <= i ==> !HasKey(s.bufs[s.order[j]], key)
  {
    if i > 0 {
      NotCachedFrom(s, key, i - 1);
    }
    assert !IsCached(s, key, i);
  }

  lemma ScanInv(s: State, p: nat)
    requires Inv(s) && Enabled(s, Scan(p))
    ensures Inv(Scanned(s, p))
  {
    var key := s.pcs[p].key;
    if Cached(s, key) {
      var i :| IsCached(s, key, i) && Scanned(s, p) == (
        var b := s.order[i];
        if s.bufs[b].busy then s.(pcs := s.pcs[p := Wants(key, b)])
        else Take(s, p, b, s.bufs[b].(busy := true), Got(b, key)));
      var b := s.order[i];
      assert BufOk(s, b);
      forall c | 0 <= c < |s.bufs| && c != b ensures s.bufs[c].key != Some(key) {
        assert b < c || c < b;
      }
      hide Inv;
      if s.bufs[b].busy {
        BreadInv(s, p, Wants(key, b));
      } else {
        TakeInv(s, p, b, s.bufs[b].(busy := true), key);
      }
    } else {
      var i :| IsVictim(s, i) && Scanned(s, p) == (
        var b := s.order[i];
        Take(s, p, b, Buf(Some(key), true, false, false, s.bufs[b].data), Got(b, key)));
      var b := s.order[i];
      forall c | 0 <= c < |s.bufs| && c != b ensures s.bufs[c].key != Some(key) {
        NotCached(s, key, c);
      }
      TakeInv(s, p, b, Buf(Some(key), true, false, false, s.bufs[b].data), key);
    }
  }

  /** A step by the holder of b that changes b, its own place, and perhaps the queue and the record of writes. */
  lemma HolderBufs(s: State, s': State, p: nat)
    requires Inv(s) && p < |s.pcs| && HasBuf(s.pcs[p])
    requires |s'.pcs| == |s.pcs| && s'.pcs == s.pcs[p := s'.pcs[p]] && HasBuf(s'.pcs[p])
    requires s'.pcs[p].b == s.pcs[p].b && s'.pcs[p].key == s.pcs[p].key
    requires s'.owner == s.owner && |s'.bufs| == |s.bufs| && s'.disk == s.disk
    requires forall c :: 0 <= c < |s.bufs| && c != s.pcs[p].b ==> s'.bufs[c] == s.bufs[c] && (c in s'.queue <==> c in s.queue)
    requires s.pcs[p].b < |s.bufs| && BufOk(s', s.pcs[p].b)
    ensures BufsOk(s') && PcsOk(s')
  {
    HolderFacts(s, p);
    var b := s.pcs[p].b;
    forall c | 0 <= c < |s'.bufs| ensures BufOk(s', c) {
      if c != b {
        assert BufOk(s, c);
      }
    }
  }

  lemma StartInv(s: State, p: nat)
    requires Inv(s) && Enabled(s, Start(p))
    ensures Inv(Next(s, Start(p)))
  {
    var s', b := Next(s, Start(p)), s.pcs[p].b;
    HolderFacts(s, p);
    assert BufOk(s, b);
    assert BufOk(s', b);
    HolderBufs(s, s', p);
    OrderSame(s, s');
    WrittenSame(s, s');
  }

  lemma FinishInv(s: State, p: nat)
    requires Inv(s) && Enabled(s, Finish(p))
    ensures Inv(Next(s, Finish(p)))
  {
    var s', b := Next(s, Finish(p)), s.pcs[p].b;
    HolderFacts(s, p);
    assert BufOk(s, b);
    assert BufOk(s', b);
    HolderBufs(s, s', p);
    OrderSame(s, s');
    WrittenSame(s, s');
  }

  lemma ModifyInv(s: State, p: nat, d: Block)
    requires Inv(s) && Enabled(s, Modify(p, d))
    ensures Inv(Next(s, Modify(p, d)))
  {
    var s', b := Next(s, Modify(p, d)), s.pcs[p].b;
    HolderFacts(s, p);
    assert BufOk(s, b);
    assert BufOk(s', b);
    HolderBufs(s, s', p);
    OrderSame(s, s');
    WrittenSame(s, s');
  }

  lemma BwriteInv(s: State, p: nat)
    requires Inv(s) && Enabled(s, Bwrite(p))
    ensures Inv(Next(s, Bwrite(p)))
  {
    var s', b, key := Next(s, Bwrite(p)), s.pcs[p].b, s.pcs[p].key;
    HolderFacts(s, p);
    assert BufOk(s, b);
    assert BufOk(s', b);
    HolderBufs(s, s', p);
    OrderSame(s, s');
    BwriteWritten(s, s', b, key);
  }

  lemma BwriteWritten(s: State, s': State, b: nat, key: Key)
    requires WrittenOk(s) && UniqueKeys(s) && b < |s.bufs| && s.bufs[b].key == Some(key)
    requires s'.bufs == s.bufs[b := s.bufs[b].(dirty := true)]
    requires s'.disk == s.disk && s'.written == s.written[key := s.bufs[b].data]
    ensures WrittenOk(s')
  {
    forall c | 0 <= c < |s'.bufs| && s'.bufs[c].dirty && s'.bufs[c].key.Some?
      ensures s'.bufs[c].data == At(s'.written, s'.bufs[c].key.value)
    {
      assert c != b ==> s.bufs[c].key != s.bufs[b].key;
    }
    forall k ensures At(s'.disk, k) == At(s'.written, k) || DirtyFor(s', k) {
      if k == key {
        assert s'.bufs[b].dirty;
      } else if DirtyFor(s, k) {
        var c :| 0 <= c < |s.bufs| && s.bufs[c].dirty && s.bufs[c].key == Some(k);
        assert s'.bufs[c].dirty && s'.bufs[c].key == Some(k);
      }
    }
  }

  lemma InterruptInv(s: State)
    requires Inv(s) && Enabled(s, Interrupt)
    ensures Inv(Completed(s))
  {
    var s', b := Completed(s), s.queue[0];
    assert BufOk(s, b);
    var key := s.bufs[b].key.value;
    InterruptBufs(s);
    OrderSame(s, s');
    InterruptWritten(s, s', b, key);
  }

  lemma InterruptBufs(s: State)
    requires Inv(s) && Enabled(s, Interrupt)
    ensures BufsOk(Completed(s))
  {
    var s', b := Completed(s), s.queue[0];
    assert BufOk(s, b);
    forall c | 0 <= c < |s'.bufs| ensures BufOk(s', c) {
      assert BufOk(s, c);
      assert c in s.queue <==> c in s'.queue || c == b;
      assert c != b ==> s.bufs[c].key.None? || s.bufs[c].key != s.bufs[b].key by {
        assert b < c || c < b || b == c;
      }
    }
  }

  lemma InterruptWritten(s: State, s': State, b: nat, key: Key)
    requires WrittenOk(s) && UniqueKeys(s) && b < |s.bufs| && s.bufs[b].key == Some(key)
    requires s'.written == s.written && |s'.bufs| == |s.bufs|
    requires s'.disk == if s.bufs[b].dirty then s.disk[key := s.bufs[b].data] else s.disk
    requires s'.bufs[b].key == s.bufs[b].key && !s'.bufs[b].dirty
    requires forall c :: 0 <= c < |s.bufs| && c != b ==> s'.bufs[c] == s.bufs[c]
    ensures WrittenOk(s')
  {
    forall k ensures At(s'.disk, k) == At(s'.written, k) || DirtyFor(s', k) {
      assert At(s.disk, k) == At(s.written, k) || DirtyFor(s, k);
      assert k != key ==> At(s'.disk, k) == At(s.disk, k);
      if DirtyFor(s, k) {
        var c :| 0 <= c < |s.bufs| && s.bufs[c].dirty && s.bufs[c].key == Some(k);
        if c != b {
          assert s'.bufs[c].dirty && s'.bufs[c].key == Some(k);
        }
      }
    }
  }

  ghost predicate Decreasing(order: seq<nat>, stamp: seq<nat>) {
    && (forall i :: 0 <= i < |order| ==> order[i] < |stamp|)
    && (forall i, j :: 0 <= i < j < |order| ==> stamp[order[i]] > stamp[order[j]])
  }

  lemma {:induction false} WithoutDecreasing(order: seq<nat>, b: nat, stamp: seq<nat>)
    requires Decreasing(order, stamp)
    ensures Decreasing(Without(order, b), stamp)
    ensures |Without(order, b)| == |order| - if b in order then 1 else 0
  {
    if order != [] {
      var rest := Without(order[1..], b);
      WithoutDecreasing(order[1..], b, stamp);
      if order[0] != b {
        forall j | 0 <= j < |rest| ensures stamp[order[0]] > stamp[rest[j]] {
          assert rest[j] in order[1..];
        }
      } else {
        assert b !in order[1..];
      }
    }
  }

  lemma Restamped(order: seq<nat>, b: nat, stamp: seq<nat>, now: nat)
    requires Decreasing(order, stamp) && b !in order && b < |stamp|
    requires forall c :: 0 <= c < |stamp| ==> stamp[c] < now
    ensures Decreasing([b] + order, stamp[b := now])
  {
    var r := [b] + order;
    forall i | 0 < i < |r| ensures r[i] != b {
      assert r[i] == order[i - 1];
    }
  }

  lemma BrelseOrder(s: State, p: nat)
    requires Inv(s) && Enabled(s, Brelse(p))
    ensures OrderOk(Next(s, Brelse(p)))
  {
    var s', b := Next(s, Brelse(p)), s.pcs[p].b;
    WithoutDecreasing(s.order, b, s.stamp);
    Restamped(Without(s.order, b), b, s.stamp, s.now);
    assert forall c :: 0 <= c < |s.bufs| ==> c in s.order && (c == b || c in Without(s.order, b));
    forall c | 0 <= c < |s'.bufs| ensures c in s'.order && s'.stamp[c] < s'.now {
      assert c in s.order;
    }
  }

  lemma BrelseInv(s: State, p: nat)
    requires Inv(s) && Enabled(s, Brelse(p))
    ensures Inv(Next(s, Brelse(p)))
  {
    var s', b := Next(s, Brelse(p)), s.pcs[p].b;
    HolderFacts(s, p);
    BrelseOrder(s, p);
    forall c | 0 <= c < |s'.bufs| ensures BufOk(s', c) {
      assert BufOk(s, c) && BufOk(s, b);
    }
    hide OrderOk, BufOk, ToFront;
    WrittenSame(s, s');
    assert OrderOk(s') ==> |s'.order| == |s'.bufs| && forall i :: 0 <= i < |s'.order| ==> s'.order[i] < |s'.bufs| by {
      OrderShape(s');
    }
  }

  lemma OrderShape(s: State)
    ensures OrderOk(s) ==> |s.order| == |s.bufs| && forall i :: 0 <= i < |s.order| ==> s.order[i] < |s.bufs|
  {
  }

  lemma StepInv(s: State, st: Step)
    requires Inv(s) && Enabled(s, st)
    ensures Inv(Next(s, st))
  {
    match st
    case Bread(p, key) => BreadInv(s, p, Wants(key, NOBODY));
    case Scan(p) => ScanInv(s, p);
    case Start(p) => StartInv(s, p);
    case Interrupt => InterruptInv(s);
    case Finish(p) => FinishInv(s, p);
    case Modify(p, d) => ModifyInv(s, p, d);
    case Bwrite(p) => BwriteInv(s, p);
    case Brelse(p) => BrelseInv(s, p);
  }

  // --------------------------------------------------------------- every run

  /** After `binit`: nothing cached, nobody active, the disk as it was found. */
  ghost predicate Initial(s: State) {
    && |s.owner| == |s.stamp| == |s.order| == |s.bufs|
    && (forall b :: 0 <= b < |s.bufs| ==> s.owner[b] == NOBODY && s.bufs[b] == Buf(None, false, false, false, s.bufs[b].data))
    && (forall i :: 0 <= i < |s.order| ==> s.order[i] == |s.bufs| - 1 - i && s.stamp[i] == i)
    && s.queue == [] && s.now == |s.bufs| && s.written == s.disk
    && (forall p :: 0 <= p < |s.pcs| ==> s.pcs[p].Idle?)
  }

  lemma InitialInv(s: State)
    requires Initial(s)
    ensures Inv(s)
  {
    forall b | 0 <= b < |s.bufs| ensures BufOk(s, b) {
    }
    forall b | 0 <= b < |s.bufs| ensures b in s.order {
      assert s.order[|s.bufs| - 1 - b] == b;
    }
  }

  ghost function Run(s: State, steps: seq<Step>): (v: State)
    requires Inv(s)
    ensures Inv(v)
    decreases |steps|
  {
    if steps == [] then s
    else
      var v := Run(s, steps[..|steps| - 1]);
      var st := steps[|steps| - 1];
      if Enabled(v, st) then StepInv(v, st); Next(v, st) else v
  }

  ghost predicate OneBuffer(v: State) {
    forall b, c :: 0 <= b < c < |v.bufs| && v.bufs[b].key.Some? ==> v.bufs[b].key != v.bufs[c].key
  }

  ghost predicate OneHolder(v: State) {
    forall p, q :: 0 <= p < q < |v.pcs| && HasBuf(v.pcs[p]) && HasBuf(v.pcs[q]) ==>
      v.pcs[p].b != v.pcs[q].b && v.pcs[p].key != v.pcs[q].key
  }

  ghost predicate UnheldAgree(v: State) {
    forall b :: 0 <= b < |v.bufs| && !v.bufs[b].busy && v.bufs[b].valid ==>
      v.bufs[b].key.Some? && v.bufs[b].data == At(v.disk, v.bufs[b].key.value)
  }

  ghost predicate ReadersSeeWrites(v: State) {
    forall p :: 0 <= p < |v.pcs| && v.pcs[p].Holds? && v.pcs[p].clean ==>
      v.pcs[p].b < |v.bufs| && v.bufs[v.pcs[p].b].data == At(v.disk, v.pcs[p].key) == At(v.written, v.pcs[p].key)
  }

  lemma InvOneHolder(v: State)
    requires Inv(v)
    ensures OneHolder(v)
  {
    forall p, q | 0 <= p < q < |v.pcs| && HasBuf(v.pcs[p]) && HasBuf(v.pcs[q])
      ensures v.pcs[p].b != v.pcs[q].b && v.pcs[p].key != v.pcs[q].key
    {
      HolderFacts(v, p);
      HolderFacts(v, q);
    }
  }

  lemma InvAgrees(v: State)
    requires Inv(v)
    ensures UnheldAgree(v) && ReadersSeeWrites(v)
  {
    forall b | 0 <= b < |v.bufs| && !v.bufs[b].busy && v.bufs[b].valid
      ensures v.bufs[b].key.Some? && v.bufs[b].data == At(v.disk, v.bufs[b].key.value)
    {
      assert BufOk(v, b);
    }
    forall p | 0 <= p < |v.pcs| && v.pcs[p].Holds? && v.pcs[p].clean
      ensures v.bufs[v.pcs[p].b].data == At(v.disk, v.pcs[p].key) == At(v.written, v.pcs[p].key)
    {
      HolderReads(v, p);
    }
  }

  /** In every interleaving: one buffer and one holder for each sector, unheld valid buffers agree
      with the disk, and a process that gets a buffer sees what was last written to the sector. */
  lemma CacheIsTransparent(s: State, steps: seq<Step>)
    requires Initial(s)
    ensures Inv(s)
    ensures var v := Run(s, steps); OneBuffer(v) && OneHolder(v) && UnheldAgree(v) && ReadersSeeWrites(v)
  {
    InitialInv(s);
    var v := Run(s, steps);
    assert OneBuffer(v);
    hide Run, Inv;
    InvOneHolder(v);
    InvAgrees(v);
  }

  lemma HolderReads(s: State, p: nat)
    requires Inv(s) && p < |s.pcs| && s.pcs[p].Holds? && s.pcs[p].clean
    ensures s.bufs[s.pcs[p].b].data == At(s.disk, s.pcs[p].key) == At(s.written, s.pcs[p].key)
  {
    HolderFacts(s, p);
    var b, key := s.pcs[p].b, s.pcs[p].key;
    assert BufOk(s, b);
    if DirtyFor(s, key) {
      var c :| 0 <= c < |s.bufs| && s.bufs[c].dirty && s.bufs[c].key == Some(key);
      assert c == b || c < b || b < c;
    }
  }

  /** Whoever sleeps in bget sleeps on the buffer of its own sector, and that is held. */
  ghost predicate WaitersOk(s: State) {
    forall p :: 0 <= p < |s.pcs| && s.pcs[p].Wants? && s.pcs[p].waits != NOBODY ==>
      && 0 <= s.pcs[p].waits < |s.bufs| && s.bufs[s.pcs[p].waits].busy
      && s.bufs[s.pcs[p].waits].key == Some(s.pcs[p].key)
  }

  /** Nobody sleeps in iderw on a buffer that is not in the queue. */
  ghost predicate TransfersOk(s: State) {
    forall p :: 0 <= p < |s.pcs| && s.pcs[p].Io? && s.pcs[p].asleep ==> s.pcs[p].b in s.queue
  }

  lemma StepWaiters(s: State, st: Step)
    requires Inv(s) && WaitersOk(s) && Enabled(s, st)
    ensures WaitersOk(Next(s, st))
  {
    hide BufsOk, WrittenOk, OrderOk, UniqueKeys, QueueOk, PcsOk, ToFront;
    if st.Scan? {
      var p := st.p;
      if Cached(s, s.pcs[p].key) {
        var i :| IsCached(s, s.pcs[p].key, i) && Scanned(s, p) == (
          var b := s.order[i];
          if s.bufs[b].busy then s.(pcs := s.pcs[p := Wants(s.pcs[p].key, b)])
          else Take(s, p, b, s.bufs[b].(busy := true), Got(b, s.pcs[p].key)));
      }
    }
  }

  lemma StepTransfers(s: State, st: Step)
    requires Inv(s) && TransfersOk(s) && Enabled(s, st)
    ensures TransfersOk(Next(s, st))
  {
    if st.Finish? {
      HolderFacts(s, st.p);
      assert BufOk(s, s.pcs[st.p].b);
    }
    hide BufsOk, WrittenOk, OrderOk, UniqueKeys, QueueOk, PcsOk, ToFront;
    var s' := Next(s, st);
    forall p | 0 <= p < |s'.pcs| && s'.pcs[p].Io? && s'.pcs[p].asleep ensures s'.pcs[p].b in s'.queue {
      if p < |s.pcs| && s.pcs[p].Io? && s.pcs[p].asleep {
        assert s.pcs[p].b in s.queue;
      }
    }
  }

  /** No process sleeps in bget for a buffer nobody holds, or in iderw for a transfer that is done. */
  ghost predicate SleepersOk(s: State) {
    && WaitersOk(s)
    && (forall p :: 0 <= p < |s.pcs| && s.pcs[p].Io? && s.pcs[p].asleep ==>
          s.pcs[p].b < |s.bufs| && (s.bufs[s.pcs[p].b].dirty || !s.bufs[s.pcs[p].b].valid))
  }

  lemma Pending(s: State)
    requires Inv(s) && WaitersOk(s) && TransfersOk(s)
    ensures SleepersOk(s)
  {
    forall p | 0 <= p < |s.pcs| && s.pcs[p].Io? && s.pcs[p].asleep
      ensures s.pcs[p].b < |s.bufs| && (s.bufs[s.pcs[p].b].dirty || !s.bufs[s.pcs[p].b].valid)
    {
      HolderFacts(s, p);
      assert BufOk(s, s.pcs[p].b);
    }
  }

  lemma {:induction false} RunSleepers(s: State, steps: seq<Step>)
    requires Inv(s) && WaitersOk(s) && TransfersOk(s)
    ensures WaitersOk(Run(s, steps)) && TransfersOk(Run(s, steps)) && SleepersOk(Run(s, steps))
    decreases |steps|
  {
    hide Inv, WaitersOk, TransfersOk, SleepersOk;
    if steps != [] {
      RunSleepers(s, steps[..|steps| - 1]);
      var v, st := Run(s, steps[..|steps| - 1]), steps[|steps| - 1];
      InvShape(v);
      if Enabled(v, st) {
        StepWaiters(v, st);
        StepTransfers(v, st);
      }
    }
    Pending(Run(s, steps));
  }

  /** In every interleaving nobody sleeps for a buffer that is free or a transfer that is done. */
  lemma NoLostWakeup(s: State, steps: seq<Step>)
    requires Initial(s)
    ensures Inv(s) && SleepersOk(Run(s, steps))
  {
    InitialInv(s);
    RunSleepers(s, steps);
  }

  lemma InvShape(s: State)
    requires Inv(s)
    ensures Shape(s)
  {
  }

  // --------------------------------------------------- a plain array of sectors

  /** What the processes would see without a cache: an array of sectors, the sector each process asked for
      last, and the contents in the hands of each process that holds a sector. */
  datatype Plain = Plain(sectors: map<Key, Block>, asked: map<nat, Key>, hands: map<nat, Block>)

  /** The same step on the plain array. When `bread` returns, which is when a process comes to hold a buffer,
      it has the contents of the sector it asked for. */
  function PlainNext(x: Plain, st: Step, after: State): Plain {
    match st
    case Bread(p, key) => x.(asked := x.asked[p := key])
    case Start(p) => if Returned(after, p) then Received(x, p) else x
    case Finish(p) => if Returned(after, p) && p !in x.hands then Received(x, p) else x
    case Modify(p, d) => x.(hands := x.hands[p := d])
    case Bwrite(p) =>
      if p in x.asked && p in x.hands then x.(sectors := x.sectors[x.asked[p] := x.hands[p]]) else x
    case Brelse(p) => x.(hands := x.hands - {p})
    case _ => x
  }

  predicate Returned(s: State, p: nat) {
    p < |s.pcs| && s.pcs[p].Holds?
  }

  function Received(x: Plain, p: nat): Plain {
    if p in x.asked then x.(hands := x.hands[p := At(x.sectors, x.asked[p])]) else x
  }

  ghost function PlainRun(s: State, steps: seq<Step>): Plain
    requires Inv(s)
    decreases |steps|
  {
    if steps == [] then Plain(s.disk, map[], map[])
    else
      var x, v, st := PlainRun(s, steps[..|steps| - 1]), Run(s, steps[..|steps| - 1]), steps[|steps| - 1];
      if Enabled(v, st) then PlainNext(x, st, Next(v, st)) else x
  }

  /** Process p is at the sector it asked for, and a buffer it holds has the contents the plain array gave it. */
  ghost predicate Agrees(s: State, x: Plain, p: int)
    requires 0 <= p < |s.pcs| && Shape(s)
  {
    match s.pcs[p]
    case Idle => p !in x.hands
    case Wants(key, _) => p !in x.hands && p in x.asked && x.asked[p] == key
    case Got(_, key) => p !in x.hands && p in x.asked && x.asked[p] == key
    case Io(b, key, _) =>
      && p in x.asked && x.asked[p] == key
      && (p in x.hands ==> s.bufs[b].data == x.hands[p] == At(x.sectors, key) && (s.bufs[b].dirty || s.bufs[b].valid))
      && (p !in x.hands ==> !s.bufs[b].dirty)
    case Holds(b, key, clean) =>
      && p in x.asked && x.asked[p] == key && p in x.hands && s.bufs[b].data == x.hands[p]
      && (clean ==> x.hands[p] == At(x.sectors, key))
  }

  ghost predicate Refines(s: State, x: Plain) {
    && Shape(s) && (forall k {:trigger At(x.sectors, k)} :: At(x.sectors, k) == At(s.written, k))
    && (forall p {:trigger Agrees(s, x, p)} :: 0 <= p < |s.pcs| ==> Agrees(s, x, p))
  }

  /** While its own buffer is not dirty, a holder's sector is on the disk as it was last written. */
  lemma SectorWritten(s: State, p: nat)
    requires Inv(s) && p < |s.pcs| && HasBuf(s.pcs[p]) && !s.bufs[s.pcs[p].b].dirty
    ensures At(s.disk, s.pcs[p].key) == At(s.written, s.pcs[p].key)
  {
    HolderFacts(s, p);
    var b, key := s.pcs[p].b, s.pcs[p].key;
    if DirtyFor(s, key) {
      var c :| 0 <= c < |s.bufs| && s.bufs[c].dirty && s.bufs[c].key == Some(key);
      assert c == b || c < b || b < c;
    }
  }

  /** A step that leaves process q, its buffer and its sector alone. */
  lemma AgreesStill(s: State, x: Plain, s': State, y: Plain, q: nat)
    requires Shape(s) && Shape(s') && |s'.pcs| == |s.pcs| && q < |s.pcs| && Agrees(s, x, q)
    requires s'.pcs[q] == s.pcs[q] || (s.pcs[q].Wants? && s'.pcs[q].Wants? && s'.pcs[q].key == s.pcs[q].key)
             || (s.pcs[q].Io? && s'.pcs[q].Io? && s'.pcs[q].key == s.pcs[q].key && s'.pcs[q].b == s.pcs[q].b)
    requires HasBuf(s.pcs[q]) ==> s.pcs[q].b < |s'.bufs| && s'.bufs[s.pcs[q].b] == s.bufs[s.pcs[q].b]
    requires HasBuf(s.pcs[q]) ==> At(y.sectors, s.pcs[q].key) == At(x.sectors, s.pcs[q].key)
    requires q in y.asked <==> q in x.asked
    requires q in x.asked ==> y.asked[q] == x.asked[q]
    requires q in y.hands <==> q in x.hands
    requires q in x.hands ==> y.hands[q] == x.hands[q]
    ensures Agrees(s', y, q)
  {
  }

  lemma OthersHold(s: State, p: nat, q: nat)
    requires Inv(s) && p < |s.pcs| && q < |s.pcs| && p != q && HasBuf(s.pcs[p]) && HasBuf(s.pcs[q])
    ensures s.pcs[p].b != s.pcs[q].b && s.pcs[p].key != s.pcs[q].key
  {
    InvOneHolder(s);
  }

  lemma BreadRefines(s: State, x: Plain, p: nat, key: Key)
    requires Inv(s) && Refines(s, x) && Enabled(s, Bread(p, key)) && Inv(Next(s, Bread(p, key)))
    ensures var s' := Next(s, Bread(p, key)); Refines(s', PlainNext(x, Bread(p, key), s'))
  {
    var s' := Next(s, Bread(p, key));
    var y := PlainNext(x, Bread(p, key), s');
    hide Inv;
    InvShape(s');
    forall q | 0 <= q < |s'.pcs| ensures Agrees(s', y, q) {
      assert Agrees(s, x, q);
      if q != p { AgreesStill(s, x, s', y, q); }
    }
  }

  lemma ScanRefines(s: State, x: Plain, p: nat)
    requires Inv(s) && Refines(s, x) && Enabled(s, Scan(p)) && Inv(Next(s, Scan(p)))
    ensures var s' := Next(s, Scan(p)); Refines(s', PlainNext(x, Scan(p), s'))
  {
    var s' := Next(s, Scan(p));
    var key := s.pcs[p].key;
    ScanChanges(s, p);
    hide Scanned;
    assert PlainNext(x, Scan(p), s') == x;
    assert Agrees(s, x, p);
    forall q | 0 <= q < |s'.pcs| ensures Agrees(s', x, q) {
      assert Agrees(s, x, q);
      if q != p {
        if HasBuf(s.pcs[q]) { HolderFacts(s, q); }
        AgreesStill(s, x, s', x, q);
      }
    }
  }

  /** A scan takes a buffer that is not busy, or sleeps. */
  lemma ScanChanges(s: State, p: nat)
    requires Inv(s) && Enabled(s, Scan(p))
    ensures var s', key := Scanned(s, p), s.pcs[p].key;
      && |s'.pcs| == |s.pcs| && |s'.bufs| == |s.bufs| && s'.disk == s.disk && s'.written == s.written
      && (forall q :: 0 <= q < |s.pcs| && q != p ==> s'.pcs[q] == s.pcs[q])
      && (forall c :: 0 <= c < |s.bufs| && s.bufs[c].busy ==> s'.bufs[c] == s.bufs[c])
      && ((s'.pcs[p].Wants? && s'.pcs[p].key == key) || (s'.pcs[p].Got? && s'.pcs[p].key == key))
  {
  }

  lemma StartRefines(s: State, x: Plain, p: nat)
    requires Inv(s) && Refines(s, x) && Enabled(s, Start(p)) && Inv(Next(s, Start(p)))
    ensures var s' := Next(s, Start(p)); Refines(s', PlainNext(x, Start(p), s'))
  {
    var s' := Next(s, Start(p));
    var y := PlainNext(x, Start(p), s');
    HolderFacts(s, p);
    assert Agrees(s, x, p) && BufOk(s, s.pcs[p].b);
    SectorWritten(s, p);
    hide Inv, BufOk;
    InvShape(s');
    forall q | 0 <= q < |s'.pcs| ensures Agrees(s', y, q) {
      assert Agrees(s, x, q);
      if q != p { AgreesStill(s, x, s', y, q); }
    }
  }

  lemma FinishRefines(s: State, x: Plain, p: nat)
    requires Inv(s) && Refines(s, x) && Enabled(s, Finish(p)) && Inv(Next(s, Finish(p)))
    ensures var s' := Next(s, Finish(p)); Refines(s', PlainNext(x, Finish(p), s'))
  {
    var s' := Next(s, Finish(p));
    var y := PlainNext(x, Finish(p), s');
    HolderFacts(s, p);
    assert Agrees(s, x, p) && BufOk(s, s.pcs[p].b);
    if !s.bufs[s.pcs[p].b].dirty { SectorWritten(s, p); }
    hide Inv, BufOk;
    InvShape(s');
    forall q | 0 <= q < |s'.pcs| ensures Agrees(s', y, q) {
      assert Agrees(s, x, q);
      if q != p { AgreesStill(s, x, s', y, q); }
    }
  }

  lemma ModifyRefines(s: State, x: Plain, p: nat, d: Block)
    requires Inv(s) && Refines(s, x) && Enabled(s, Modify(p, d)) && Inv(Next(s, Modify(p, d)))
    ensures var s' := Next(s, Modify(p, d)); Refines(s', PlainNext(x, Modify(p, d), s'))
  {
    var s' := Next(s, Modify(p, d));
    var y := PlainNext(x, Modify(p, d), s');
    assert Agrees(s, x, p);
    forall q | 0 <= q < |s'.pcs| ensures Agrees(s', y, q) {
      assert Agrees(s, x, q);
      if q != p {
        if HasBuf(s.pcs[q]) { OthersHold(s, p, q); }
        AgreesStill(s, x, s', y, q);
      }
    }
  }

  lemma BwriteRefines(s: State, x: Plain, p: nat)
    requires Inv(s) && Refines(s, x) && Enabled(s, Bwrite(p)) && Inv(Next(s, Bwrite(p)))
    ensures var s' := Next(s, Bwrite(p)); Refines(s', PlainNext(x, Bwrite(p), s'))
  {
    var s' := Next(s, Bwrite(p));
    var y := PlainNext(x, Bwrite(p), s');
    assert Agrees(s, x, p);
    forall q | 0 <= q < |s'.pcs| ensures Agrees(s', y, q) {
      assert Agrees(s, x, q);
      if q != p {
        if HasBuf(s.pcs[q]) { OthersHold(s, p, q); }
        AgreesStill(s, x, s', y, q);
      }
    }
    forall k ensures At(y.sectors, k) == At(s'.written, k) {
      assert At(x.sectors, k) == At(s.written, k);
    }
  }

  lemma BrelseRefines(s: State, x: Plain, p: nat)
    requires Inv(s) && Refines(s, x) && Enabled(s, Brelse(p)) && Inv(Next(s, Brelse(p)))
    ensures var s' := Next(s, Brelse(p)); Refines(s', PlainNext(x, Brelse(p), s'))
  {
    var s' := Next(s, Brelse(p));
    var y := PlainNext(x, Brelse(p), s');
    forall q | 0 <= q < |s'.pcs| ensures Agrees(s', y, q) {
      assert Agrees(s, x, q);
      if q != p {
        if HasBuf(s.pcs[q]) { OthersHold(s, p, q); }
        AgreesStill(s, x, s', y, q);
      }
    }
  }

  lemma InterruptRefines(s: State, x: Plain)
    requires Inv(s) && Refines(s, x) && Enabled(s, Interrupt) && Inv(Next(s, Interrupt))
    ensures var s' := Next(s, Interrupt); Refines(s', PlainNext(x, Interrupt, s'))
  {
    var s', b := Next(s, Interrupt), s.queue[0];
    assert BufOk(s, b);
    forall q | 0 <= q < |s'.pcs| ensures Agrees(s', x, q) {
      assert Agrees(s, x, q);
      if HasBuf(s.pcs[q]) && s.pcs[q].b == b {
        HolderFacts(s, q);
      } else {
        AgreesStill(s, x, s', x, q);
      }
    }
  }

  lemma StepRefines(s: State, x: Plain, st: Step)
    requires Inv(s) && Refines(s, x) && Enabled(s, st)
    ensures var s' := Next(s, st); Refines(s', PlainNext(x, st, s'))
  {
    hide Inv, Refines, Next, PlainNext;
    StepInv(s, st);
    match st
    case Bread(p, key) => BreadRefines(s, x, p, key);
    case Scan(p) => ScanRefines(s, x, p);
    case Start(p) => StartRefines(s, x, p);
    case Interrupt => InterruptRefines(s, x);
    case Finish(p) => FinishRefines(s, x, p);
    case Modify(p, d) => ModifyRefines(s, x, p, d);
    case Bwrite(p) => BwriteRefines(s, x, p);
    case Brelse(p) => BrelseRefines(s, x, p);
  }

  lemma {:induction false} RunRefines(s: State, steps: seq<Step>)
    requires Inv(s) && Initial(s)
    ensures Refines(Run(s, steps), PlainRun(s, steps))
    decreases |steps|
  {
    if steps == [] {
      forall p | 0 <= p < |s.pcs| ensures Agrees(s, PlainRun(s, steps), p) {
      }
    } else {
      hide Inv, Refines, Next, PlainNext, Initial, Enabled;
      RunRefines(s, steps[..|steps| - 1]);
      var v, st := Run(s, steps[..|steps| - 1]), steps[|steps| - 1];
      InvShape(v);
      if Enabled(v, st) {
        StepRefines(v, PlainRun(s, steps[..|steps| - 1]), st);
      }
    }
  }

  /** In every interleaving the cache is not seen: a process that holds a sector holds the one it asked for
      last, with the contents the plain array gave it and it has changed since. */
  lemma CacheRefinesArray(s: State, steps: seq<Step>, p: nat)
    requires Initial(s) && p < |s.pcs|
    ensures Inv(s)
    ensures var v, x := Run(s, steps), PlainRun(s, steps);
      && p < |v.pcs| && (forall k :: At(v.written, k) == At(x.sectors, k))
      && (v.pcs[p].Holds? ==>
            && p in x.asked && p in x.hands && v.pcs[p].key == x.asked[p]
            && v.pcs[p].b < |v.bufs| && v.bufs[v.pcs[p].b].data == x.hands[p])
  {
    InitialInv(s);
    RunRefines(s, steps);
    RunCount(s, steps);
    assert Agrees(Run(s, steps), PlainRun(s, steps), p);
  }

  lemma {:induction false} RunCount(s: State, steps: seq<Step>)
    requires Inv(s)
    ensures |Run(s, steps).pcs| == |s.pcs|
    decreases |steps|
  {
    hide Inv, Next, Enabled;
    if steps != [] {
      RunCount(s, steps[..|steps| - 1]);
      var v, st := Run(s, steps[..|steps| - 1]), steps[|steps| - 1];
      InvShape(v);
      if Enabled(v, st) {
        StepCount(v, st);
      }
    }
  }

  lemma StepCount(s: State, st: Step)
    requires Inv(s) && Enabled(s, st)
    ensures |Next(s, st).pcs| == |s.pcs|
  {
    if st.Scan? {
      ScanChanges(s, st.p);
    }
    hide Scanned;
  }

  /** A buffer that is reused is the one released longest ago among those nobody holds. */
  lemma VictimIsOldest(s: State, i: nat, c: nat)
    requires Inv(s) && IsVictim(s, i) && c < |s.bufs| && !s.bufs[c].busy
    ensures s.stamp[s.order[i]] <= s.stamp[c]
  {
    assert c in s.order;
    var j :| 0 <= j < |s.order| && s.order[j] == c;
    assert j <= i;
  }

  // ------------------------------------------------ the doubly linked list

  /** Place i of the ring: place 0 is the head, then the buffers in order. */
  function Place(order: seq<nat>, head: nat, i: int): nat {
    if 1 <= i <= |order| then order[i - 1] else head
  }

  predicate LinkedAt(order: seq<nat>, head: nat, next: seq<nat>, prev: seq<nat>, i: int)
    requires head < |next| == |prev| && 0 <= i <= |order| && forall j :: 0 <= j < |order| ==> order[j] < head
  {
    && next[Place(order, head, i)] == Place(order, head, i + 1)
    && prev[Place(order, head, i + 1)] == Place(order, head, i)
  }

  /** head, through next, leads through exactly `order` and back; prev is the reverse. */
  ghost predicate Ring(order: seq<nat>, head: nat, next: seq<nat>, prev: seq<nat>) {
    && head < |next| == |prev|
    && (forall j :: 0 <= j < |order| ==> order[j] < head)
    && Distinct(order)
    && (forall i {:trigger LinkedAt(order, head, next, prev, i)} :: 0 <= i <= |order| ==>
          LinkedAt(order, head, next, prev, i))
  }

  /** The last four assignments of `binit`'s loop body and of `brelse`. */
  lemma PushRing(order: seq<nat>, head: nat, next: seq<nat>, prev: seq<nat>, b: nat)
    requires Ring(order, head, next, prev) && b < head && b !in order
    ensures next[head] < |prev|
    ensures Ring([b] + order, head, next[b := next[head]][head := b], prev[b := head][next[head] := b])
  {
    assert LinkedAt(order, head, next, prev, 0);
    var next2, prev2 := next[b := next[head]][head := b], prev[b := head][next[head] := b];
    var r := [b] + order;
    forall i | 0 <= i <= |r| ensures LinkedAt(r, head, next2, prev2, i) {
      if i >= 2 {
        assert LinkedAt(order, head, next, prev, i - 1);
        assert r[i - 1] == order[i - 2];
        assert i < |r| ==> r[i] == order[i - 1];
      }
    }
  }

  /** The first two assignments of `brelse` take the buffer out. */
  lemma UnlinkRing(order: seq<nat>, head: nat, next: seq<nat>, prev: seq<nat>, k: nat)
    requires Ring(order, head, next, prev) && k < |order|
    ensures var b := order[k];
      && prev[b] < |next| && next[b] < |prev|
      && Ring(order[..k] + order[k + 1..], head, next[prev[b] := next[b]], prev[next[b] := prev[b]])
  {
    var b, r := order[k], order[..k] + order[k + 1..];
    assert LinkedAt(order, head, next, prev, k) && LinkedAt(order, head, next, prev, k + 1);
    var next1, prev1 := next[prev[b] := next[b]], prev[next[b] := prev[b]];
    forall i | 0 <= i <= |r| ensures LinkedAt(r, head, next1, prev1, i) {
      if i < k {
        assert LinkedAt(order, head, next, prev, i);
      } else if i > k {
        assert LinkedAt(order, head, next, prev, i + 1);
      }
      assert Place(r, head, i) == if i <= k then Place(order, head, i) else Place(order, head, i + 1);
      assert Place(r, head, i + 1) == if i < k then Place(order, head, i + 1) else Place(order, head, i + 2);
    }
  }

  class BufList {
    const n: nat                // NBUF; index n is bcache.head
    const next: array<nat>
    const prev: array<nat>
    ghost var order: seq<nat>

    ghost predicate Valid()
      reads this, next, prev
    {
      next != prev && next.Length == n + 1 && prev.Length == n + 1 && Ring(order, n, next[..], prev[..])
    }

    /** `binit`. */
    constructor (n: nat)
      ensures Valid() && fresh(next) && fresh(prev) && this.n == n
      ensures |order| == n && forall i :: 0 <= i < n ==> order[i] == n - 1 - i
    {
      this.n := n;
      this.next, this.prev := new nat[n + 1], new nat[n + 1];
      order := [];
      new;
      next[n], prev[n] := n, n;
      assert LinkedAt(order, n, next[..], prev[..], 0);
      for b := 0 to n
        invariant Valid() && fresh(next) && fresh(prev)
        invariant |order| == b && forall i :: 0 <= i < b ==> order[i] == b - 1 - i
      {
        Push(b);
      }
    }

    method Push(b: nat)
      requires Valid() && b < n && b !in order
      modifies this`order, next, prev
      ensures Valid() && order == [b] + old(order)
    {
      PushRing(order, n, next[..], prev[..], b);
      assert LinkedAt(order, n, next[..], prev[..], 0);
      next[b] := next[n];
      prev[b] := n;
      prev[next[n]] := b;
      next[n] := b;
      order := [b] + order;
    }

    /** The relinking of `brelse`. */
    method Release(b: nat, ghost k: nat)
      requires Valid() && k < |order| && order[k] == b
      modifies this`order, next, prev
      ensures Valid() && order == [b] + (old(order)[..k] + old(order)[k + 1..])
    {
      UnlinkRing(order, n, next[..], prev[..], k);
      assert LinkedAt(order, n, next[..], prev[..], k) && LinkedAt(order, n, next[..], prev[..], k + 1);
      prev[next[b]] := prev[b];
      next[prev[b]] := next[b];
      order := order[..k] + order[k + 1..];
      Push(b);
    }

    /** The first loop of `bget`: from the front, for the sector's buffer. */
    method FindCached(bufs: seq<Buf>, key: Key) returns (b: nat)
      requires Valid() && |bufs| == n
      ensures b == n <==> forall j :: 0 <= j < |order| ==> !HasKey(bufs[order[j]], key)
      ensures b != n ==> exists i ::
        && 0 <= i < |order| && order[i] == b && HasKey(bufs[b], key)
        && forall j :: 0 <= j < i ==> !HasKey(bufs[order[j]], key)
    {
      assert LinkedAt(order, n, next[..], prev[..], 0);
      b := next[n];
      ghost var i := 1;
      while b != n
        invariant 1 <= i <= |order| + 1 && b == Place(order, n, i)
        invariant forall j :: 0 <= j < i - 1 ==> !HasKey(bufs[order[j]], key)
        decreases |order| - i
      {
        assert order[i - 1] == b;
        if bufs[b].key == Some(key) {
          return;
        }
        assert LinkedAt(order, n, next[..], prev[..], i);
        b := next[b];
        i := i + 1;
      }
    }

    /** The second loop of `bget`: from the back, for a buffer nobody holds. */
    method FindVictim(bufs: seq<Buf>) returns (b: nat)
      requires Valid() && |bufs| == n
      ensures b == n <==> forall j :: 0 <= j < |order| ==> bufs[order[j]].busy
      ensures b != n ==> exists i ::
        && 0 <= i < |order| && order[i] == b && !bufs[b].busy
        && forall j :: i < j < |order| ==> bufs[order[j]].busy
    {
      assert LinkedAt(order, n, next[..], prev[..], |order|);
      b := prev[n];
      ghost var i := |order|;
      while b != n
        invariant 0 <= i <= |order| && b == Place(order, n, i)
        invariant forall j :: i <= j < |order| ==> bufs[order[j]].busy
        decreases i
      {
        assert order[i - 1] == b;
        if !bufs[b].busy {
          return;
        }
        assert LinkedAt(order, n, next[..], prev[..], i - 1);
        b := prev[b];
        i := i - 1;
      }
    }
  }

  /** What Release does to the list is what a released buffer does to the order. */
  lemma {:induction false} WithoutAt(order: seq<nat>, k: nat)
    requires Distinct(order) && k < |order|
    ensures Without(order, order[k]) == order[..k] + order[k + 1..]
  {
    var b := order[k];
    if k == 0 {
      NothingWithout(order[1..], b);
    } else {
      WithoutAt(order[1..], k - 1);
      assert order[1..][..k - 1] == order[1..k] && order[1..][k..] == order[k + 1..];
      assert [order[0]] + order[1..k] == order[..k];
    }
  }

  lemma {:induction false} NothingWithout(order: seq<nat>, b: nat)
    requires b !in order
    ensures Without(order, b) == order
  {
    if order != [] {
      NothingWithout(order[1..], b);
    }
  }
}
