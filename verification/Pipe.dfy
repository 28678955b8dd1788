// The blocking ring buffer of 5/xv6/pipe.c, shared by any number of readers and
// writers.  A step is one stretch of code that runs under p->lock: from its
// acquisition, or from the return of sleep, to its release or to the next sleep.
module Pipe {
  import opened Common

  const PIPESIZE := 512
  const UINT_LIMIT := 0x1_0000_0000

  /** Counters wrap at 32 bits; the bytes sent but not yet received sit in the ring. */
  ghost predicate RingOk(data: seq<char>, nread: nat, nwrite: nat, sent: seq<char>, got: seq<char>) {
    && |data| == PIPESIZE
    && nread == |got| % UINT_LIMIT
    && nwrite == |sent| % UINT_LIMIT
    && got <= sent
    && |sent| - |got| <= PIPESIZE
    && (forall k {:trigger sent[k]} :: |got| <= k < |sent| ==> data[k % PIPESIZE] == sent[k])
  }

  /** The tests of the code, on wrapped counters, mean empty and full. */
  lemma CountersDecide(r: nat, w: nat)
    requires r <= w <= r + PIPESIZE
    ensures r % UINT_LIMIT == w % UINT_LIMIT <==> r == w
    ensures w % UINT_LIMIT == (r % UINT_LIMIT + PIPESIZE) % UINT_LIMIT <==> w == r + PIPESIZE
  {
    var a, x := w / UINT_LIMIT, w % UINT_LIMIT;
    var b, y := r / UINT_LIMIT, r % UINT_LIMIT;
    assert w == a * UINT_LIMIT + x && r == b * UINT_LIMIT + y;
    assert b <= a <= b + 1;
    assert (y + PIPESIZE) % UINT_LIMIT == if y + PIPESIZE < UINT_LIMIT then y + PIPESIZE else y + PIPESIZE - UINT_LIMIT;
  }

  lemma SlotOfCounter(w: nat)
    ensures w % UINT_LIMIT % PIPESIZE == w % PIPESIZE
    ensures (w % UINT_LIMIT + 1) % UINT_LIMIT == (w + 1) % UINT_LIMIT
  {
    var a, x := w / UINT_LIMIT, w % UINT_LIMIT;
    assert w == (a * 0x80_0000) * PIPESIZE + x;
  }

  lemma DistinctSlots(k: nat, w: nat)
    requires k < w < k + PIPESIZE
    ensures k % PIPESIZE != w % PIPESIZE
  {
  }

  lemma PutKeeps(data: seq<char>, nread: nat, nwrite: nat, sent: seq<char>, got: seq<char>, c: char)
    requires RingOk(data, nread, nwrite, sent, got) && |sent| < |got| + PIPESIZE
    ensures RingOk(data[nwrite % PIPESIZE := c], nread, (nwrite + 1) % UINT_LIMIT, sent + [c], got)
  {
    SlotOfCounter(|sent|);
    var data', sent' := data[nwrite % PIPESIZE := c], sent + [c];
    forall k | |got| <= k < |sent'| ensures data'[k % PIPESIZE] == sent'[k] {
      if k < |sent| {
        assert sent'[k] == sent[k];
        DistinctSlots(k, |sent|);
      }
    }
  }

  lemma TakeKeeps(data: seq<char>, nread: nat, nwrite: nat, sent: seq<char>, got: seq<char>)
    requires RingOk(data, nread, nwrite, sent, got) && |got| < |sent|
    ensures data[nread % PIPESIZE] == sent[|got|]
    ensures RingOk(data, (nread + 1) % UINT_LIMIT, nwrite, sent, got + [sent[|got|]])
  {
    SlotOfCounter(|got|);
  }

  datatype Call =
    | Write(src: seq<char>, i: nat, asleep: bool)
    | Read(n: int, asleep: bool)

  type Calls = map<nat, Call>

  function Woken(c: Call): Call {
    match c
    case Write(src, i, _) => Write(src, i, false)
    case Read(n, _) => Read(n, false)
  }

  function WakeReaders(calls: Calls): Calls {
    map t | t in calls :: if calls[t].Read? then Woken(calls[t]) else calls[t]
  }

  function WakeWriters(calls: Calls): Calls {
    map t | t in calls :: if calls[t].Write? then Woken(calls[t]) else calls[t]
  }

  ghost predicate ReaderAsleep(calls: Calls) {
    exists t :: t in calls && calls[t].Read? && calls[t].asleep
  }

  ghost predicate WriterAsleep(calls: Calls) {
    exists t :: t in calls && calls[t].Write? && calls[t].asleep
  }

  /** Nobody sleeps who could go on. */
  ghost predicate NoLostWakeup(calls: Calls, pending: int, readopen: bool, writeopen: bool) {
    && (ReaderAsleep(calls) ==> pending == 0 && writeopen)
    && (WriterAsleep(calls) ==> pending == PIPESIZE && readopen)
  }

  /** Calls are in progress only on open ends, because a process in a call holds its file. */
  ghost predicate CallsOk(calls: Calls, readopen: bool, writeopen: bool) {
    forall t :: t in calls ==>
      match calls[t]
      case Write(src, i, _) => i <= |src| && writeopen
      case Read(_, _) => readopen
  }

  function Min(a: int, b: int): int {
    if a < b then a else b
  }

  datatype Outcome = Sleeping | Returned(value: int)

  /** The calls in progress after process t has copied m more bytes with outcome r. */
  ghost function AfterWrite(calls: Calls, t: nat, m: nat, r: Outcome): Calls
    requires t in calls && calls[t].Write?
  {
    match r
    case Sleeping => WakeReaders(calls)[t := Write(calls[t].src, calls[t].i + m, true)]
    case Returned(v) => if v == -1 then calls - {t} else WakeReaders(calls) - {t}
  }

  ghost function AfterRead(calls: Calls, t: nat, r: Outcome): Calls
    requires t in calls && calls[t].Read?
  {
    match r
    case Sleeping => calls[t := Read(calls[t].n, true)]
    case Returned(v) => if v == -1 then calls - {t} else WakeWriters(calls) - {t}
  }

  // ------------------------------------------------- the pipe and its history

  /** One call of `pipewrite`: how much of src it has sent, and what it has returned. */
  datatype Transfer = Transfer(t: nat, src: seq<char>, done: nat, value: Option<int>)

  /** One call of `piperead` that has returned. */
  datatype Reading = Reading(t: nat, n: int, taken: seq<char>, value: int)

  /** The pipe apart from its ring, and all that has been written to it and read from it. */
  datatype View = View(calls: Calls, killed: set<nat>, readopen: bool, writeopen: bool,
                       sent: seq<char>, got: seq<char>,
                       author: seq<nat>,               // the write each byte sent belongs to
                       writes: seq<Transfer>,      // in the order they began
                       number: map<nat, nat>,      // the write each writer is in
                       readings: seq<Reading>)        // in the order they returned

  const EMPTY := View(map[], {}, true, true, [], [], [], [], map[], [])

  /** The bytes of the stream that belong to write c. */
  function Own(author: seq<nat>, sent: seq<char>, c: nat): seq<char>
    requires |author| == |sent|
  {
    if author == [] then []
    else
      var n := |author| - 1;
      Own(author[..n], sent[..n], c) + if author[n] == c then [sent[n]] else []
  }

  function Repeat(c: nat, m: nat): (r: seq<nat>)
    ensures |r| == m && forall k :: 0 <= k < m ==> r[k] == c
  {
    seq(m, _ => c)
  }

  lemma {:induction false} OwnMore(author: seq<nat>, sent: seq<char>, c: nat, d: nat, more: seq<char>)
    requires |author| == |sent|
    ensures Own(author + Repeat(d, |more|), sent + more, c) == Own(author, sent, c) + if c == d then more else []
    decreases |more|
  {
    if more == [] {
      assert author + Repeat(d, 0) == author && sent + more == sent;
    } else {
      var n := |more| - 1;
      OwnMore(author, sent, c, d, more[..n]);
      var author', sent' := author + Repeat(d, |more|), sent + more;
      assert author'[..|author'| - 1] == author + Repeat(d, n) && sent'[..|sent'| - 1] == sent + more[..n];
      assert more == more[..n] + [more[n]];
    }
  }

  function Taken(readings: seq<Reading>): seq<char> {
    if readings == [] then [] else Taken(readings[..|readings| - 1]) + readings[|readings| - 1].taken
  }

  /** A write has sent the first bytes of its source, in order; when it has returned, all of them or not. */
  ghost predicate WriteOk(v: View, c: nat)
    requires |v.author| == |v.sent| && c < |v.writes|
  {
    var w := v.writes[c];
    && w.done <= |w.src| && Own(v.author, v.sent, c) == w.src[..w.done]
    && match w.value
       case Some(x) => x == if w.done == |w.src| then |w.src| else -1
       case None => w.t in v.calls && v.calls[w.t].Write? && w.t in v.number && v.number[w.t] == c
  }

  ghost predicate WriterOk(v: View, t: nat) {
    t in v.calls && v.calls[t].Write? ==>
      && t in v.number && v.number[t] < |v.writes|
      && v.writes[v.number[t]] == Transfer(t, v.calls[t].src, v.calls[t].i, None)
  }

  /** A read returns what it took, as much as was asked for at most, or -1 and takes nothing. */
  ghost predicate ReadOk(r: Reading) {
    (r.value == |r.taken| <= if r.n < 0 then 0 else r.n) || (r.value == -1 && r.taken == [])
  }

  /** The bytes sent are those of the writes, each one's in order; the bytes got are a beginning of them, and
      are those the reads returned, one after the other. */
  ghost predicate Flow(v: View) {
    && v.got <= v.sent && |v.sent| - |v.got| <= PIPESIZE && CallsOk(v.calls, v.readopen, v.writeopen)
    && |v.author| == |v.sent| && (forall k :: 0 <= k < |v.author| ==> v.author[k] < |v.writes|)
    && (forall c {:trigger WriteOk(v, c)} :: 0 <= c < |v.writes| ==> WriteOk(v, c))
    && (forall t {:trigger WriterOk(v, t)} :: WriterOk(v, t))
    && v.got == Taken(v.readings) && (forall k :: 0 <= k < |v.readings| ==> ReadOk(v.readings[k]))
  }

  ghost predicate NoneLost(v: View) {
    NoLostWakeup(v.calls, |v.sent| - |v.got|, v.readopen, v.writeopen)
  }

  // ------------------------------------------------------------------- steps

  datatype Step =
    | BeginWrite(t: nat, src: seq<char>)
    | BeginRead(t: nat, n: int)
    | Go(t: nat)
    | Close(writable: bool)
    | Kill(t: nat)

  predicate Going(v: View, t: nat, writes: bool) {
    t in v.calls && !v.calls[t].asleep && v.calls[t].Write? == writes
  }

  /** How many bytes a writer copies before it returns or sleeps, and which of the two it does. */
  ghost function Copies(v: View, t: nat): (m: nat)
    requires Flow(v) && Going(v, t, true)
  {
    Min(|v.calls[t].src| - v.calls[t].i, PIPESIZE - (|v.sent| - |v.got|))
  }

  ghost function WriteEnds(v: View, t: nat): Outcome
    requires Flow(v) && Going(v, t, true)
  {
    var c, m := v.calls[t], Copies(v, t);
    if c.i + m == |c.src| then Returned(|c.src|) else if !v.readopen || t in v.killed then Returned(-1) else Sleeping
  }

  ghost function Wrote(v: View, t: nat): View
    requires Flow(v) && Going(v, t, true)
  {
    assert WriterOk(v, t);
    var c, m, r := v.calls[t], Copies(v, t), WriteEnds(v, t);
    v.(calls := AfterWrite(v.calls, t, m, r), sent := v.sent + c.src[c.i..c.i + m],
       author := v.author + Repeat(v.number[t], m),
       writes := v.writes[v.number[t] := Transfer(t, c.src, c.i + m, if r.Sleeping? then None else Some(r.value))])
  }

  predicate Waits(v: View) {
    |v.got| == |v.sent| && v.writeopen
  }

  ghost function Takes(v: View, t: nat): (taken: seq<char>)
    requires Flow(v) && Going(v, t, false)
  {
    var n := Min(if v.calls[t].n < 0 then 0 else v.calls[t].n, |v.sent| - |v.got|);
    v.sent[|v.got|..|v.got| + n]
  }

  ghost function ReadEnds(v: View, t: nat): Outcome
    requires Flow(v) && Going(v, t, false)
  {
    if !Waits(v) then Returned(|Takes(v, t)|) else if t in v.killed then Returned(-1) else Sleeping
  }

  ghost function WasRead(v: View, t: nat): View
    requires Flow(v) && Going(v, t, false)
  {
    var r, taken := ReadEnds(v, t), Takes(v, t);
    v.(calls := AfterRead(v.calls, t, r), got := v.got + taken,
       readings := if r.Sleeping? then v.readings else v.readings + [Reading(t, v.calls[t].n, taken, r.value)])
  }

  ghost predicate CanClose(calls: Calls, writable: bool) {
    forall t :: t in calls ==> calls[t].Write? != writable
  }

  function Roused(calls: Calls, t: nat): Calls {
    if t in calls then calls[t := Woken(calls[t])] else calls
  }

  /** What a step does; one that is not possible does nothing. */
  ghost function Next(v: View, s: Step): View
    requires Flow(v)
  {
    match s
    case BeginWrite(t, src) =>
      if t in v.calls || !v.writeopen then v
      else v.(calls := v.calls[t := Write(src, 0, false)], number := v.number[t := |v.writes|],
              writes := v.writes + [Transfer(t, src, 0, None)])
    case BeginRead(t, n) =>
      if t in v.calls || !v.readopen then v else v.(calls := v.calls[t := Read(n, false)])
    case Go(t) => if Going(v, t, true) then Wrote(v, t) else if Going(v, t, false) then WasRead(v, t) else v
    case Close(writable) =>
      if !CanClose(v.calls, writable) then v
      else if writable then v.(writeopen := false, calls := WakeReaders(v.calls))
      else v.(readopen := false, calls := WakeWriters(v.calls))
    case Kill(t) => v.(killed := v.killed + {t}, calls := Roused(v.calls, t))
  }

  /** Nothing but sleepers has changed. */
  lemma SameFlow(v: View, w: View)
    requires Flow(v) && w == v.(calls := w.calls, killed := w.killed, readopen := w.readopen, writeopen := w.writeopen)
    requires CallsOk(w.calls, w.readopen, w.writeopen) && w.calls.Keys == v.calls.Keys
    requires forall t :: t in v.calls ==> Woken(w.calls[t]) == Woken(v.calls[t])
    ensures Flow(w)
  {
    forall c | 0 <= c < |w.writes| ensures WriteOk(w, c) {
      assert WriteOk(v, c);
    }
    forall t ensures WriterOk(w, t) {
      assert WriterOk(v, t);
    }
  }

  lemma BeginWriteFlow(v: View, t: nat, src: seq<char>)
    requires Flow(v) && t !in v.calls && v.writeopen
    ensures Flow(Next(v, BeginWrite(t, src)))
  {
    var w, n := Next(v, BeginWrite(t, src)), |v.writes|;
    NoneOwn(v.author, v.sent, n);
    forall c | 0 <= c < |w.writes| ensures WriteOk(w, c) {
      if c < n {
        assert WriteOk(v, c);
      }
    }
    forall u ensures WriterOk(w, u) {
      assert WriterOk(v, u);
    }
  }

  lemma {:induction false} NoneOwn(author: seq<nat>, sent: seq<char>, c: nat)
    requires |author| == |sent| && forall k :: 0 <= k < |author| ==> author[k] < c
    ensures Own(author, sent, c) == []
  {
    if author != [] {
      NoneOwn(author[..|author| - 1], sent[..|author| - 1], c);
    }
  }

  lemma BeginReadFlow(v: View, t: nat, n: int)
    requires Flow(v) && t !in v.calls && v.readopen
    ensures Flow(Next(v, BeginRead(t, n)))
  {
    var w := Next(v, BeginRead(t, n));
    forall c | 0 <= c < |w.writes| ensures WriteOk(w, c) {
      assert WriteOk(v, c);
    }
    forall u ensures WriterOk(w, u) {
      assert WriterOk(v, u);
    }
  }

  lemma WroteOwn(v: View, t: nat)
    requires Flow(v) && Going(v, t, true)
    ensures var w := Wrote(v, t);
      && t in v.number && v.number[t] < |v.writes| == |w.writes| && |w.author| == |w.sent| && WriteOk(w, v.number[t])
  {
    var call, m := v.calls[t], Copies(v, t);
    assert WriterOk(v, t) && CallsOk(v.calls, v.readopen, v.writeopen);
    var n := v.number[t];
    assert WriteOk(v, n);
    OwnMore(v.author, v.sent, n, n, call.src[call.i..call.i + m]);
    hide Own, Flow, CallsOk, WriterOk;
    assert call.src[..call.i] + call.src[call.i..call.i + m] == call.src[..call.i + m];
  }

  lemma WroteOthers(v: View, t: nat, c: nat)
    requires Flow(v) && Going(v, t, true) && c < |v.writes| && WriterOk(v, t) && c != v.number[t]
    ensures var w := Wrote(v, t); |w.author| == |w.sent| && |w.writes| == |v.writes| && WriteOk(w, c)
  {
    var call, m := v.calls[t], Copies(v, t);
    assert WriteOk(v, c) && CallsOk(v.calls, v.readopen, v.writeopen);
    OwnMore(v.author, v.sent, c, v.number[t], call.src[call.i..call.i + m]);
    hide Own, Flow, CallsOk;
    assert v.writes[c].value.None? ==> v.writes[c].t != t;
  }

  lemma WroteWriter(v: View, t: nat, u: nat)
    requires Flow(v) && Going(v, t, true)
    ensures WriterOk(Wrote(v, t), u)
  {
    assert WriterOk(v, t) && WriterOk(v, u);
    hide Own, Flow;
  }

  lemma WroteFlow(v: View, t: nat)
    requires Flow(v) && Going(v, t, true)
    ensures Flow(Wrote(v, t))
  {
    var w := Wrote(v, t);
    assert WriterOk(v, t);
    hide Own, WriteOk, WriterOk;
    forall c | 0 <= c < |w.writes| ensures WriteOk(w, c) {
      if c == v.number[t] { WroteOwn(v, t); } else { WroteOthers(v, t, c); }
    }
    forall u ensures WriterOk(w, u) {
      WroteWriter(v, t, u);
    }
  }

  lemma WasReadWrites(v: View, t: nat, c: nat)
    requires Flow(v) && Going(v, t, false) && c < |v.writes|
    ensures var w := WasRead(v, t); w.writes == v.writes && WriteOk(w, c)
  {
    assert WriteOk(v, c);
    hide Own, Flow;
  }

  lemma WasReadWriter(v: View, t: nat, u: nat)
    requires Flow(v) && Going(v, t, false)
    ensures WriterOk(WasRead(v, t), u)
  {
    assert WriterOk(v, u);
    hide Own, Flow;
  }

  lemma WasReadReadings(v: View, t: nat)
    requires Flow(v) && Going(v, t, false)
    ensures var w := WasRead(v, t); w.got == Taken(w.readings) && forall k :: 0 <= k < |w.readings| ==> ReadOk(w.readings[k])
  {
    var w := WasRead(v, t);
    if !ReadEnds(v, t).Sleeping? {
      assert w.readings[..|w.readings| - 1] == v.readings;
    }
  }

  lemma TakesIs(v: View, t: nat, taken: seq<char>)
    requires Flow(v) && Going(v, t, false) && v.got + taken <= v.sent
    requires |taken| == Min(if v.calls[t].n < 0 then 0 else v.calls[t].n, |v.sent| - |v.got|)
    ensures taken == Takes(v, t)
  {
    assert taken == (v.got + taken)[|v.got|..];
  }

  lemma TakesSome(v: View, t: nat)
    requires Flow(v) && Going(v, t, false)
    ensures v.got + Takes(v, t) <= v.sent && (Waits(v) ==> Takes(v, t) == [])
  {
  }

  lemma WasReadCalls(v: View, t: nat)
    requires Flow(v) && Going(v, t, false)
    ensures CallsOk(WasRead(v, t).calls, v.readopen, v.writeopen)
  {
  }

  lemma WasReadFlow(v: View, t: nat)
    requires Flow(v) && Going(v, t, false)
    ensures Flow(WasRead(v, t))
  {
    var w := WasRead(v, t);
    WasReadReadings(v, t);
    TakesSome(v, t);
    WasReadCalls(v, t);
    hide Own, WriteOk, WriterOk, Taken, ReadOk, Takes, AfterRead, CallsOk;
    forall c | 0 <= c < |w.writes| ensures WriteOk(w, c) {
      WasReadWrites(v, t, c);
    }
    forall u ensures WriterOk(w, u) {
      WasReadWriter(v, t, u);
    }
  }

  lemma StepFlow(v: View, s: Step)
    requires Flow(v)
    ensures Flow(Next(v, s))
  {
    match s
    case BeginWrite(t, src) => if t !in v.calls && v.writeopen { BeginWriteFlow(v, t, src); }
    case BeginRead(t, n) => if t !in v.calls && v.readopen { BeginReadFlow(v, t, n); }
    case Go(t) =>
      if Going(v, t, true) { WroteFlow(v, t); } else if Going(v, t, false) { WasReadFlow(v, t); }
    case Close(writable) => if CanClose(v.calls, writable) { SameFlow(v, Next(v, s)); }
    case Kill(t) => SameFlow(v, Next(v, s));
  }

  // ---------------------------------------------------------------- every run

  ghost function Runs(v: View, steps: seq<Step>): (w: View)
    requires Flow(v)
    ensures Flow(w)
    decreases |steps|
  {
    if steps == [] then v
    else
      var w := Runs(v, steps[..|steps| - 1]);
      StepFlow(w, steps[|steps| - 1]);
      Next(w, steps[|steps| - 1])
  }

  lemma EmptyFlow()
    ensures Flow(EMPTY) && NoneLost(EMPTY)
  {
  }

  /** In every run of a new pipe, what was got is a beginning of what was sent; that is made up of what the
      writes sent, each one's bytes in order and complete when it returned its length; and the reads
      returned what was got, one after the other. */
  lemma StreamKept(steps: seq<Step>, c: nat)
    ensures Flow(EMPTY)
    ensures var v := Runs(EMPTY, steps);
      && v.got <= v.sent && |v.sent| - |v.got| <= 512 && v.got == Taken(v.readings)
      && |v.author| == |v.sent| && (forall k :: 0 <= k < |v.author| ==> v.author[k] < |v.writes|)
      && (c < |v.writes| ==>
            && v.writes[c].done <= |v.writes[c].src| && Own(v.author, v.sent, c) == v.writes[c].src[..v.writes[c].done]
            && (v.writes[c].value.Some? ==> (v.writes[c].done == |v.writes[c].src| <==> v.writes[c].value != Some(-1))))
  {
    EmptyFlow();
    var v := Runs(EMPTY, steps);
    if c < |v.writes| {
      assert WriteOk(v, c);
    }
  }

  /** A killed writer with more to write than a pipe that is not full has room for, and a reader asleep. */
  ghost predicate Strands(calls: Calls, pending: int, killed: set<nat>, t: nat) {
    && t in calls && calls[t].Write? && !calls[t].asleep && t in killed
    && |calls[t].src| - calls[t].i > PIPESIZE - pending > 0 && ReaderAsleep(calls)
  }

  ghost predicate StrandsAt(v: View, s: Step) {
    s.Go? && Strands(v.calls, |v.sent| - |v.got|, v.killed, s.t)
  }

  lemma AfterWriteSleepers(calls: Calls, readopen: bool, writeopen: bool, t: nat, m: nat, r: Outcome)
    requires CallsOk(calls, readopen, writeopen) && t in calls && calls[t].Write? && !calls[t].asleep
    ensures var calls' := AfterWrite(calls, t, m, r);
      && (ReaderAsleep(calls') <==> r == Returned(-1) && ReaderAsleep(calls))
      && (WriterAsleep(calls') <==> r == Sleeping || WriterAsleep(calls))
      && (ReaderAsleep(calls) ==> readopen)
  {
    var calls' := AfterWrite(calls, t, m, r);
    if r == Returned(-1) && ReaderAsleep(calls) {
      var q :| q in calls && calls[q].Read? && calls[q].asleep;
      assert q in calls' && calls'[q] == calls[q];
    }
    if WriterAsleep(calls) {
      var q :| q in calls && calls[q].Write? && calls[q].asleep;
      assert q in calls' && calls'[q] == calls[q];
    }
    if r == Sleeping {
      assert t in calls' && calls'[t].Write? && calls'[t].asleep;
    }
  }

  /** A write step loses a wakeup exactly if it strands a reader. */
  lemma AfterWriteOk(v: View, t: nat)
    requires Flow(v) && Going(v, t, true) && NoneLost(v)
    ensures NoneLost(Wrote(v, t)) <==> !Strands(v.calls, |v.sent| - |v.got|, v.killed, t)
  {
    AfterWriteSleepers(v.calls, v.readopen, v.writeopen, t, Copies(v, t), WriteEnds(v, t));
    hide ReaderAsleep, WriterAsleep, AfterWrite;
  }

  lemma AfterReadOk(v: View, t: nat)
    requires Flow(v) && Going(v, t, false) && NoneLost(v)
    ensures NoneLost(WasRead(v, t))
  {
    var r, calls' := ReadEnds(v, t), WasRead(v, t).calls;
    assert ReaderAsleep(calls') ==> r == Sleeping || ReaderAsleep(v.calls);
    assert WriterAsleep(calls') ==> WriterAsleep(v.calls) && (r == Sleeping || r == Returned(-1));
  }

  /** A step loses a wakeup if and only if it strands a reader. */
  lemma StepWakes(v: View, s: Step)
    requires Flow(v) && NoneLost(v)
    ensures NoneLost(Next(v, s)) <==> !StrandsAt(v, s)
  {
    match s
    case Go(t) =>
      if Going(v, t, true) { AfterWriteOk(v, t); } else if Going(v, t, false) { AfterReadOk(v, t); }
    case Close(writable) =>
      assert ReaderAsleep(Next(v, s).calls) ==> ReaderAsleep(v.calls) && (writable ==> !CanClose(v.calls, writable));
      assert WriterAsleep(Next(v, s).calls) ==> WriterAsleep(v.calls) && (!writable ==> !CanClose(v.calls, writable));
    case _ =>
      assert ReaderAsleep(Next(v, s).calls) ==> ReaderAsleep(v.calls);
      assert WriterAsleep(Next(v, s).calls) ==> WriterAsleep(v.calls);
  }

  /** In every interleaving in which no step strands a reader, nobody sleeps who could go on. */
  lemma {:induction false} NobodySleepsInVain(v: View, steps: seq<Step>)
    requires Flow(v) && NoneLost(v)
    requires forall k :: 0 <= k < |steps| ==> !StrandsAt(Runs(v, steps[..k]), steps[k])
    ensures NoneLost(Runs(v, steps))
    decreases |steps|
  {
    hide Flow, NoneLost, StrandsAt, Next;
    if steps != [] {
      var n := |steps| - 1;
      var most := steps[..n];
      forall k | 0 <= k < |most| ensures !StrandsAt(Runs(v, most[..k]), most[k]) {
        assert most[..k] == steps[..k];
      }
      NobodySleepsInVain(v, most);
      StepWakes(Runs(v, most), steps[n]);
    }
  }

  /** Without kill no step strands anybody. */
  lemma {:induction false} NobodyKilled(v: View, steps: seq<Step>)
    requires Flow(v) && v.killed == {} && forall k :: 0 <= k < |steps| ==> !steps[k].Kill?
    ensures Runs(v, steps).killed == {}
    decreases |steps|
  {
    hide Flow;
    if steps != [] {
      NobodyKilled(v, steps[..|steps| - 1]);
    }
  }

  lemma WithoutKill(v: View, steps: seq<Step>)
    requires Flow(v) && NoneLost(v) && v.killed == {} && forall k :: 0 <= k < |steps| ==> !steps[k].Kill?
    ensures NoneLost(Runs(v, steps))
  {
    hide Flow, NoneLost, Runs;
    forall k | 0 <= k < |steps| ensures !StrandsAt(Runs(v, steps[..k]), steps[k]) {
      NobodyKilled(v, steps[..k]);
    }
    NobodySleepsInVain(v, steps);
  }

  // --------------------------------------------------- what the steps tell

  /** Closing that end takes effect at some step: nobody is in a call on it. */
  ghost predicate Closed(v: View, steps: seq<Step>, writable: bool)
    requires Flow(v)
    decreases |steps|
  {
    steps != []
    && var most, s := steps[..|steps| - 1], steps[|steps| - 1];
       Closed(v, most, writable) || (s == Close(writable) && CanClose(Runs(v, most).calls, writable))
  }

  /** Process t has been killed. */
  predicate KilledIn(steps: seq<Step>, t: nat) {
    Kill(t) in steps
  }

  /** Only a close closes an end, and only a kill kills. */
  lemma StepEnds(v: View, s: Step)
    requires Flow(v)
    ensures var w := Next(v, s);
      && (w.writeopen <==> v.writeopen && !(s == Close(true) && CanClose(v.calls, true)))
      && (w.readopen <==> v.readopen && !(s == Close(false) && CanClose(v.calls, false)))
      && w.killed == (if s.Kill? then v.killed + {s.t} else v.killed)
  {
    hide Flow, CanClose;
  }

  lemma {:induction false} EndsKnown(v: View, steps: seq<Step>)
    requires Flow(v)
    ensures Runs(v, steps).writeopen <==> v.writeopen && !Closed(v, steps, true)
    ensures Runs(v, steps).readopen <==> v.readopen && !Closed(v, steps, false)
    decreases |steps|
  {
    hide Flow, CanClose, Next;
    if steps != [] {
      EndsKnown(v, steps[..|steps| - 1]);
      StepEnds(Runs(v, steps[..|steps| - 1]), steps[|steps| - 1]);
    }
  }

  lemma {:induction false} KillsKnown(v: View, steps: seq<Step>, t: nat)
    requires Flow(v)
    ensures t in Runs(v, steps).killed <==> t in v.killed || KilledIn(steps, t)
    decreases |steps|
  {
    hide Flow, Next;
    if steps != [] {
      var n := |steps| - 1;
      KillsKnown(v, steps[..n], t);
      StepEnds(Runs(v, steps[..n]), steps[n]);
      assert steps == steps[..n] + [steps[n]];
    }
  }

  /** In every run, a read step that finds bytes, or the write end closed, returns as much as is asked for and
      there is: 0 at the end of the stream. Otherwise it sleeps, or returns -1 if it has been killed. */
  lemma ReadResult(steps: seq<Step>, t: nat)
    requires Going(Runs(EMPTY, steps), t, false)
    ensures var v := Runs(EMPTY, steps);
      var left := |v.sent| - |v.got|;
      && |v.got| <= |v.sent|
      && ReadEnds(v, t) ==
           (if left > 0 || Closed(EMPTY, steps, true) then
              Returned(if v.calls[t].n <= 0 then 0 else if v.calls[t].n < left then v.calls[t].n else left)
            else if KilledIn(steps, t) then Returned(-1) else Sleeping)
      && Takes(v, t) <= v.sent[|v.got|..] && (ReadEnds(v, t).Returned? && ReadEnds(v, t).value >= 0 ==> |Takes(v, t)| == ReadEnds(v, t).value)
  {
    EmptyFlow();
    EndsKnown(EMPTY, steps);
    KillsKnown(EMPTY, steps, t);
    hide Runs, Closed, KilledIn;
  }

  /** In every run, a write step sends all that is left if there is room for it; otherwise it fills the pipe and
      sleeps, or returns -1 if the read end is closed or it has been killed. */
  lemma WriteResult(steps: seq<Step>, t: nat)
    requires Going(Runs(EMPTY, steps), t, true)
    ensures var v := Runs(EMPTY, steps);
      var left, room := |v.calls[t].src| - v.calls[t].i, 512 - (|v.sent| - |v.got|);
      && WriteEnds(v, t) ==
           (if left <= room then Returned(|v.calls[t].src|)
            else if Closed(EMPTY, steps, false) || KilledIn(steps, t) then Returned(-1) else Sleeping)
      && |Wrote(v, t).sent| == |v.sent| + if left <= room then left else room
  {
    EmptyFlow();
    EndsKnown(EMPTY, steps);
    KillsKnown(EMPTY, steps, t);
    hide Runs, Closed, KilledIn;
  }

  /** Only at the end of the stream does a read that asked for something return 0. */
  lemma {:induction false} ZeroMeansEnd(steps: seq<Step>, k: nat)
    requires k < |Runs(EMPTY, steps).readings|
    ensures var r := Runs(EMPTY, steps).readings[k]; r.n > 0 && r.value == 0 ==> Closed(EMPTY, steps, true)
    decreases |steps|
  {
    EmptyFlow();
    hide Flow, Next;
    if steps != [] {
      var most, s := steps[..|steps| - 1], steps[|steps| - 1];
      var v := Runs(EMPTY, most);
      EndsKnown(EMPTY, most);
      StepReads(v, s);
      if k < |v.readings| {
        ZeroMeansEnd(most, k);
      }
    }
  }

  lemma StepReads(v: View, s: Step)
    requires Flow(v)
    ensures var w := Next(v, s);
      && |v.readings| <= |w.readings| <= |v.readings| + 1 && w.readings[..|v.readings|] == v.readings
      && (|w.readings| > |v.readings| ==>
            var r := w.readings[|v.readings|];
            s == Go(r.t) && Going(v, r.t, false) && r.n == v.calls[r.t].n && Returned(r.value) == ReadEnds(v, r.t)
            && (r.n > 0 && r.value == 0 ==> !v.writeopen))
  {
  }

  lemma {:induction false} StaysClosed(v: View, before: seq<Step>, after: seq<Step>, writable: bool)
    requires Flow(v) && Closed(v, before, writable)
    ensures Closed(v, before + after, writable)
    decreases |after|
  {
    hide Flow, Runs, CanClose;
    if after == [] {
      assert before + after == before;
    } else {
      var n := |after| - 1;
      StaysClosed(v, before, after[..n], writable);
      assert (before + after)[..|before| + n] == before + after[..n];
    }
  }

  /** Once the write end is closed no read sleeps, in any continuation: it returns what there is, and 0 when
      the pipe is drained. Once the read end is closed no write sleeps: what does not fit returns -1. */
  lemma NobodyWaitsAfterClose(before: seq<Step>, after: seq<Step>, t: nat)
    ensures var v := Runs(EMPTY, before + after);
      && (Closed(EMPTY, before, true) && Going(v, t, false) ==>
            ReadEnds(v, t) != Sleeping && (v.got == v.sent ==> ReadEnds(v, t) == Returned(0)))
      && (Closed(EMPTY, before, false) && Going(v, t, true) ==>
            WriteEnds(v, t) != Sleeping
            && (|v.calls[t].src| - v.calls[t].i > 512 - (|v.sent| - |v.got|) ==> WriteEnds(v, t) == Returned(-1)))
  {
    EmptyFlow();
    var steps := before + after;
    if Closed(EMPTY, before, true) { StaysClosed(EMPTY, before, after, true); }
    if Closed(EMPTY, before, false) { StaysClosed(EMPTY, before, after, false); }
    hide Runs, Closed;
    var v := Runs(EMPTY, steps);
    if Going(v, t, false) { ReadResult(steps, t); }
    if Going(v, t, true) { WriteResult(steps, t); }
  }

  /** What the calls of a run were asked to do: the writes, in the order they began. */
  ghost function Begun(v: View, steps: seq<Step>): seq<(nat, seq<char>)>
    requires Flow(v)
    decreases |steps|
  {
    if steps == [] then []
    else
      var most, s := steps[..|steps| - 1], steps[|steps| - 1];
      if s.BeginWrite? && s.t !in Runs(v, most).calls && Runs(v, most).writeopen then Begun(v, most) + [(s.t, s.src)]
      else Begun(v, most)
  }

  /** The request each process made last. */
  ghost function Asked(v: View, steps: seq<Step>, t: nat): Option<Step>
    requires Flow(v)
    decreases |steps|
  {
    if steps == [] then None
    else
      var most, s := steps[..|steps| - 1], steps[|steps| - 1];
      if (s.BeginWrite? || s.BeginRead?) && s.t == t && t !in Runs(v, most).calls
         && (if s.BeginWrite? then Runs(v, most).writeopen else Runs(v, most).readopen)
      then Some(s) else Asked(v, most, t)
  }

  /** A call in progress is the one its process asked for. */
  ghost predicate AsAsked(v: View, asked: Option<Step>, t: nat) {
    t in v.calls ==>
      && asked.Some?
      && match v.calls[t]
         case Write(src, _, _) => asked.value == BeginWrite(t, src)
         case Read(n, _) => asked.value == BeginRead(t, n)
  }

  lemma StepAsked(v: View, s: Step, asked: Option<Step>, t: nat)
    requires Flow(v) && AsAsked(v, asked, t)
    ensures var begins := (s.BeginWrite? || s.BeginRead?) && s.t == t && t !in v.calls && (if s.BeginWrite? then v.writeopen else v.readopen);
      AsAsked(Next(v, s), if begins then Some(s) else asked, t)
  {
    hide Flow;
  }

  lemma {:induction false} CallsAsAsked(steps: seq<Step>, t: nat)
    ensures AsAsked(Runs(EMPTY, steps), Asked(EMPTY, steps, t), t)
    decreases |steps|
  {
    EmptyFlow();
    hide Flow, Next;
    if steps != [] {
      CallsAsAsked(steps[..|steps| - 1], t);
      StepAsked(Runs(EMPTY, steps[..|steps| - 1]), steps[|steps| - 1], Asked(EMPTY, steps[..|steps| - 1], t), t);
    }
  }

  lemma StepBegins(v: View, s: Step)
    requires Flow(v)
    ensures var w := Next(v, s);
      && |w.writes| == |v.writes| + (if s.BeginWrite? && s.t !in v.calls && v.writeopen then 1 else 0)
      && (forall c :: 0 <= c < |v.writes| ==> w.writes[c].t == v.writes[c].t && w.writes[c].src == v.writes[c].src)
      && (|w.writes| > |v.writes| ==> s.BeginWrite? && w.writes[|v.writes|].t == s.t && w.writes[|v.writes|].src == s.src)
  {
    if s.Go? && Going(v, s.t, true) {
      WriterFacts(v, s.t);
      assert WriterOk(v, s.t);
    }
    hide Flow;
  }

  /** In every run the writes are those that were begun, in that order and with those bytes. */
  lemma {:induction false} WritesAsBegun(steps: seq<Step>)
    ensures var v, b := Runs(EMPTY, steps), Begun(EMPTY, steps);
      |v.writes| == |b| && forall c :: 0 <= c < |b| ==> v.writes[c].t == b[c].0 && v.writes[c].src == b[c].1
    decreases |steps|
  {
    EmptyFlow();
    hide Flow, Next;
    if steps != [] {
      WritesAsBegun(steps[..|steps| - 1]);
      StepBegins(Runs(EMPTY, steps[..|steps| - 1]), steps[|steps| - 1]);
    }
  }

  lemma RingFacts(data: seq<char>, nread: nat, nwrite: nat, sent: seq<char>, got: seq<char>)
    requires RingOk(data, nread, nwrite, sent, got)
    ensures got <= sent && |sent| - |got| <= PIPESIZE
    ensures nread == nwrite <==> |sent| == |got|
  {
    CountersDecide(|got|, |sent|);
  }

  class RingBuffer {
    var data: array<char>
    var nread: nat           // number of bytes read, mod 2^32
    var nwrite: nat          // number of bytes written, mod 2^32
    var readopen: bool
    var writeopen: bool
    var calls: Calls         // by process
    var killed: set<nat>
    ghost var sent: seq<char>
    ghost var got: seq<char>
    ghost var author: seq<nat>
    ghost var writes: seq<Transfer>
    ghost var number: map<nat, nat>
    ghost var readings: seq<Reading>

    ghost function V(): View
      reads this
    {
      View(calls, killed, readopen, writeopen, sent, got, author, writes, number, readings)
    }

    ghost predicate Valid()
      reads this, data
    {
      RingOk(data[..], nread, nwrite, sent, got) && Flow(V())
    }

    constructor ()
      ensures Valid() && V() == EMPTY && NoneLost(V()) && fresh(data)
    {
      data := new char[PIPESIZE];
      nread, nwrite, readopen, writeopen := 0, 0, true, true;
      calls, killed, sent, got, author, writes, number, readings := map[], {}, [], [], [], [], map[], [];
    }

    /** Copies until the source is used up or the ring is full. */
    method Fill(src: seq<char>, start: nat) returns (i: nat)
      requires RingOk(data[..], nread, nwrite, sent, got) && start <= |src|
      modifies this`nwrite, this`sent, data
      ensures RingOk(data[..], nread, nwrite, sent, got)
      ensures got <= old(sent) && |old(sent)| - |got| <= PIPESIZE
      ensures i == start + Min(|src| - start, PIPESIZE - (|old(sent)| - |got|))
      ensures sent == old(sent) + src[start..i]
    {
      i := start;
      CountersDecide(|got|, |sent|);
      while i < |src| && nwrite != (nread + PIPESIZE) % UINT_LIMIT
        invariant start <= i <= |src|
        invariant RingOk(data[..], nread, nwrite, sent, got)
        invariant sent == old(sent) + src[start..i]
        invariant nwrite == (nread + PIPESIZE) % UINT_LIMIT <==> |sent| == |got| + PIPESIZE
      {
        PutKeeps(data[..], nread, nwrite, sent, got, src[i]);
        data[nwrite % PIPESIZE] := src[i];
        nwrite := (nwrite + 1) % UINT_LIMIT;
        sent := sent + [src[i]];
        i := i + 1;
        CountersDecide(|got|, |sent|);
      }
    }

    /** One stretch of `pipewrite` under the lock. */
    method WriteStep(t: nat) returns (r: Outcome)
      requires Valid() && t in calls && calls[t].Write? && !calls[t].asleep
      modifies this`nwrite, this`calls, this`sent, this`author, this`writes, data
      ensures Valid() && V() == Wrote(old(V()), t) && r == WriteEnds(old(V()), t)
      ensures old(NoneLost(V())) ==> (NoneLost(V()) <==> !Strands(old(calls), |old(sent)| - |got|, killed, t))
    {
      hide RingOk, Flow, NoneLost, Strands;
      ghost var v := V();
      WriterFacts(v, t);
      if NoneLost(v) {
        AfterWriteOk(v, t);
      }
      WroteFlow(v, t);
      var src, start := calls[t].src, calls[t].i;
      var i := Fill(src, start);
      author := author + Repeat(number[t], i - start);
      if i == |src| {
        r := Returned(|src|);
        calls := WakeReaders(calls) - {t};
      } else if !readopen || t in killed {
        r := Returned(-1);
        calls := calls - {t};
      } else {
        r := Sleeping;
        calls := WakeReaders(calls)[t := Write(src, i, true)];
      }
      writes := writes[number[t] := Transfer(t, src, i, if r.Sleeping? then None else Some(r.value))];
    }

    /** Copies out until n bytes are taken or the ring is empty. */
    method Drain(n: int) returns (taken: seq<char>)
      requires RingOk(data[..], nread, nwrite, sent, got)
      modifies this`nread, this`got
      ensures RingOk(data[..], nread, nwrite, sent, got)
      ensures got == old(got) + taken && old(got) <= sent && |sent| - |old(got)| <= PIPESIZE
      ensures |taken| == Min(if n < 0 then 0 else n, |sent| - |old(got)|)
    {
      taken := [];
      CountersDecide(|got|, |sent|);
      while |taken| < n && nread != nwrite
        invariant RingOk(data[..], nread, nwrite, sent, got)
        invariant got == old(got) + taken
        invariant |taken| <= if n < 0 then 0 else n
        invariant nread == nwrite <==> |sent| == |got|
        decreases |sent| - |got|
      {
        TakeKeeps(data[..], nread, nwrite, sent, got);
        taken := taken + [data[nread % PIPESIZE]];
        got := got + [sent[|got|]];
        nread := (nread + 1) % UINT_LIMIT;
        CountersDecide(|got|, |sent|);
      }
    }

    /** One stretch of `piperead` under the lock. */
    method ReadStep(t: nat) returns (r: Outcome, taken: seq<char>)
      requires Valid() && t in calls && calls[t].Read? && !calls[t].asleep
      modifies this`nread, this`calls, this`got, this`readings
      ensures Valid() && V() == WasRead(old(V()), t)
      ensures r == ReadEnds(old(V()), t) && taken == Takes(old(V()), t)
      ensures old(NoneLost(V())) ==> NoneLost(V())
    {
      hide RingOk, Flow, NoneLost, Takes;
      ghost var v := V();
      WasReadFlow(v, t);
      TakesSome(v, t);
      if NoneLost(v) {
        AfterReadOk(v, t);
      }
      var n := calls[t].n;
      RingFacts(data[..], nread, nwrite, sent, got);
      taken := [];
      if nread == nwrite && writeopen {
        if t in killed {
          calls := calls - {t};
          r := Returned(-1);
          readings := readings + [Reading(t, n, [], -1)];
        } else {
          calls := calls[t := Read(n, true)];
          r := Sleeping;
        }
        assert got == v.got + [];
      } else {
        taken := Drain(n);
        RingFacts(data[..], nread, nwrite, sent, got);
        TakesIs(v, t, taken);
        calls := WakeWriters(calls) - {t};
        r := Returned(|taken|);
        readings := readings + [Reading(t, n, taken, |taken|)];
      }
    }

    /** `pipeclose`, once the last file on that end is gone. */
    method CloseEnd(writable: bool)
      requires Valid() && CanClose(calls, writable)
      modifies this`readopen, this`writeopen, this`calls
      ensures Valid() && V() == Next(old(V()), Close(writable))
    {
      hide RingOk, Flow;
      StepFlow(V(), Close(writable));
      if writable {
        writeopen := false;
        calls := WakeReaders(calls);
      } else {
        readopen := false;
        calls := WakeWriters(calls);
      }
    }

    method BeginWriting(t: nat, src: seq<char>)
      requires Valid() && t !in calls && writeopen
      modifies this`calls, this`writes, this`number
      ensures Valid() && V() == Next(old(V()), BeginWrite(t, src))
    {
      hide RingOk, Flow;
      StepFlow(V(), BeginWrite(t, src));
      calls := calls[t := Write(src, 0, false)];
      number, writes := number[t := |writes|], writes + [Transfer(t, src, 0, None)];
    }

    method BeginReading(t: nat, n: int)
      requires Valid() && t !in calls && readopen
      modifies this`calls
      ensures Valid() && V() == Next(old(V()), BeginRead(t, n))
    {
      hide RingOk, Flow;
      StepFlow(V(), BeginRead(t, n));
      calls := calls[t := Read(n, false)];
    }

    /** `kill` marks the process and wakes it, without the pipe's lock. */
    method KillProcess(t: nat)
      requires Valid()
      modifies this`calls, this`killed
      ensures Valid() && V() == Next(old(V()), Kill(t))
    {
      hide RingOk, Flow;
      StepFlow(V(), Kill(t));
      killed := killed + {t};
      if t in calls {
        calls := calls[t := Woken(calls[t])];
      }
    }

    method Take(s: Step)
      requires Valid()
      modifies this, data
      ensures Valid() && data == old(data) && V() == Next(old(V()), s)
    {
      hide RingOk, Flow, Wrote, WasRead;
      match s
      case BeginWrite(t, src) =>
        if t !in calls && writeopen { BeginWriting(t, src); }
      case BeginRead(t, n) =>
        if t !in calls && readopen { BeginReading(t, n); }
      case Go(t) =>
        if t in calls && !calls[t].asleep {
          if calls[t].Write? {
            var _ := WriteStep(t);
          } else {
            var _, _ := ReadStep(t);
          }
        }
      case Close(writable) =>
        if forall t :: t in calls ==> calls[t].Write? != writable { CloseEnd(writable); }
      case Kill(t) => KillProcess(t);
    }

    /** Any interleaving of any number of readers and writers does what its steps do, one after the other. */
    method Run(steps: seq<Step>)
      requires Valid()
      modifies this, data
      ensures Valid() && old(Flow(V())) && V() == Runs(old(V()), steps)
    {
      hide RingOk, Flow, Next;
      ghost var ring, v := data, V();
      for k := 0 to |steps|
        invariant Valid() && data == ring && V() == Runs(v, steps[..k])
      {
        assert steps[..k + 1][..k] == steps[..k];
        Take(steps[k]);
      }
      assert steps[..|steps|] == steps;
    }
  }

  lemma WriterFacts(v: View, t: nat)
    requires Flow(v) && Going(v, t, true)
    ensures t in v.number && v.number[t] < |v.writes| && v.calls[t].i <= |v.calls[t].src|
  {
    assert WriterOk(v, t);
  }

  /** A reader waits on an empty pipe; a killed writer fills the pipe and leaves, and the reader sleeps on. */
  method KilledWriterStrandsReader(src: seq<char>, n: int) returns (pipe: RingBuffer)
    requires |src| > PIPESIZE
    ensures pipe.Valid() && !NoneLost(pipe.V()) && pipe.readopen && pipe.writeopen
    ensures pipe.calls == map[1 := Read(n, true)] && |pipe.sent| - |pipe.got| == PIPESIZE
  {
    hide RingOk, Flow;
    pipe := new RingBuffer();
    pipe.BeginReading(1, n);
    var _, _ := pipe.ReadStep(1);
    pipe.BeginWriting(0, src);
    pipe.KillProcess(0);
    assert 1 in pipe.calls && pipe.calls[1] == Read(n, true) && ReaderAsleep(pipe.calls);
    var _ := pipe.WriteStep(0);
  }
}
