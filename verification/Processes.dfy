// The process table of 4/xv6/change/proc.c.  A step is one stretch of code that
// runs under ptable.lock, or that touches only the slot a process is building.
module Processes {
  import opened Common

  datatype State = UNUSED | EMBRYO | SLEEPING | RUNNABLE | RUNNING | ZOMBIE

  /** Sleep channels: nothing, a table slot (as in `wait`), or any other address. */
  datatype Chan = NoChan | Slot(p: nat) | Other(a: nat)

  const NOBODY := -1
  const INIT := 0

  datatype Proc = Proc(state: State, pid: nat, parent: int, chan: Chan, pgdir: nat, killed: bool,
                       making: int)   // the slot fork or clone is filling in, or NOBODY

  type Table = seq<Proc>

  datatype Reaping = Reaping(pid: nat, reaper: nat)

  /** The table together with what has happened so far. */
  datatype World = World(procs: Table, nextpid: nat, nextdir: nat,
                         freed: seq<nat>,            // directories passed to freevm
                         reaped: seq<Reaping>,       // children returned by wait
                         creator: map<nat, nat>)     // pid of the process that forked or cloned each pid

  predicate InUse(p: Proc) {
    p.state != UNUSED && p.state != EMBRYO
  }

  predicate InTable(ps: Table, i: int) {
    0 <= i < |ps|
  }

  // ------------------------------------------------------------- table scans

  function Woken(p: Proc, c: Chan): Proc {
    if p.state == SLEEPING && p.chan == c then p.(state := RUNNABLE) else p
  }

  function WakeAll(ps: Table, c: Chan): (r: Table)
    ensures |r| == |ps| && forall i :: 0 <= i < |ps| ==> r[i] == Woken(ps[i], c)
  {
    seq(|ps|, i requires 0 <= i < |ps| => Woken(ps[i], c))
  }

  ghost predicate HasZombieChild(ps: Table, i: int) {
    exists k :: 0 <= k < |ps| && ps[k].parent == i && ps[k].state == ZOMBIE
  }

  function Adopted(p: Proc, cur: int): Proc {
    if p.parent == cur then p.(parent := INIT) else p
  }

  function AdoptAll(ps: Table, cur: int): (r: Table)
    ensures |r| == |ps| && forall i :: 0 <= i < |ps| ==> r[i] == Adopted(ps[i], cur)
  {
    seq(|ps|, i requires 0 <= i < |ps| => Adopted(ps[i], cur))
  }

  /** The table after `exit` by cur. */
  ghost function Exited(ps: Table, cur: nat): (r: Table)
    requires cur < |ps|
    ensures |r| == |ps|
  {
    var a := WakeAll(ps, if ps[cur].parent < 0 then NoChan else Slot(ps[cur].parent));
    var b := AdoptAll(a, cur);
    var c := if HasZombieChild(ps, cur) then WakeAll(b, Slot(INIT)) else b;
    c[cur := c[cur].(state := ZOMBIE)]
  }

  /** The slot `wait` by cur reaps: the first zombie child. */
  ghost predicate IsReaped(ps: Table, cur: int, k: int) {
    && 0 <= k < |ps| && ps[k].parent == cur && ps[k].state == ZOMBIE
    && forall j :: 0 <= j < k ==> !(ps[j].parent == cur && ps[j].state == ZOMBIE)
  }

  ghost predicate HasChild(ps: Table, cur: int) {
    exists k :: 0 <= k < |ps| && ps[k].parent == cur
  }

  // ------------------------------------------------------------------ steps

  datatype Step =
    | Alloc(cur: nat, k: nat)      // allocproc finds slot k, for fork or clone
    | AllocFail(cur: nat)          // no kernel stack, or copyuvm failed
    | Fork(cur: nat)               // the new process gets a directory of its own
    | Clone(cur: nat)              // the new process shares its parent's directory
    | Exit(cur: nat)
    | Reap(cur: nat, k: nat)       // wait finds zombie child k
    | WaitFails(cur: nat)          // wait returns -1
    | WaitSleeps(cur: nat)
    | Sleep(cur: nat, a: nat)      // sleep on a channel that is not a table slot
    | Tidy(cur: nat)               // sleep returns
    | Wakeup(a: nat)
    | Kill(k: nat)                 // the slot whose pid was given
    | Schedule(k: nat)
    | Yield(cur: nat)

  predicate Runs(ps: Table, cur: int) {
    InTable(ps, cur) && ps[cur].state == RUNNING
  }

  predicate Idle(ps: Table, cur: int) {
    Runs(ps, cur) && ps[cur].making == NOBODY
  }

  predicate Builds(ps: Table, cur: int) {
    Runs(ps, cur) && InTable(ps, ps[cur].making)
  }

  ghost predicate Enabled(w: World, s: Step) {
    var ps := w.procs;
    match s
    case Alloc(cur, k) =>
      Idle(ps, cur) && InTable(ps, k) && ps[k].state == UNUSED
      && forall j :: 0 <= j < k ==> ps[j].state != UNUSED
    case AllocFail(cur) => Builds(ps, cur)
    case Fork(cur) => Builds(ps, cur)
    case Clone(cur) => Builds(ps, cur)
    case Exit(cur) => Idle(ps, cur) && cur != INIT
    case Reap(cur, k) => Idle(ps, cur) && IsReaped(ps, cur, k)
    case WaitFails(cur) => Idle(ps, cur) && !HasZombieChild(ps, cur) && (!HasChild(ps, cur) || ps[cur].killed)
    case WaitSleeps(cur) => Idle(ps, cur) && !HasZombieChild(ps, cur) && HasChild(ps, cur) && !ps[cur].killed
    case Sleep(cur, a) => Idle(ps, cur)
    case Tidy(cur) => Idle(ps, cur)
    case Wakeup(a) => true
    case Kill(k) => InTable(ps, k)
    case Schedule(k) => InTable(ps, k) && ps[k].state == RUNNABLE
    case Yield(cur) => Runs(ps, cur)
  }

  function Born(ps: Table, cur: nat, dir: nat): Table
    requires Builds(ps, cur)
  {
    var np := ps[cur].making;
    var a := ps[np := ps[np].(state := RUNNABLE, parent := cur, pgdir := dir)];
    a[cur := a[cur].(making := NOBODY)]
  }

  function Killed(p: Proc): Proc {
    p.(killed := true, state := if p.state == SLEEPING then RUNNABLE else p.state)
  }

  ghost function Next(w: World, s: Step): World
    requires Enabled(w, s)
  {
    var ps := w.procs;
    match s
    case Alloc(cur, k) =>
      var a := ps[k := ps[k].(state := EMBRYO, pid := w.nextpid)];
      w.(procs := a[cur := a[cur].(making := k)], nextpid := w.nextpid + 1)
    case AllocFail(cur) =>
      var np := ps[cur].making;
      var a := ps[np := ps[np].(state := UNUSED)];
      w.(procs := a[cur := a[cur].(making := NOBODY)])
    case Fork(cur) =>
      w.(procs := Born(ps, cur, w.nextdir), nextdir := w.nextdir + 1,
         creator := w.creator[ps[ps[cur].making].pid := ps[cur].pid])
    case Clone(cur) =>
      w.(procs := Born(ps, cur, ps[cur].pgdir),
         creator := w.creator[ps[ps[cur].making].pid := ps[cur].pid])
    case Exit(cur) => w.(procs := Exited(ps, cur))
    case Reap(cur, k) =>
      w.(procs := ps[k := ps[k].(state := UNUSED, pid := 0, parent := NOBODY, killed := false)],
         freed := if ps[k].pgdir != ps[cur].pgdir then w.freed + [ps[k].pgdir] else w.freed,
         reaped := w.reaped + [Reaping(ps[k].pid, ps[cur].pid)])
    case WaitFails(cur) => w
    case WaitSleeps(cur) => w.(procs := ps[cur := ps[cur].(chan := Slot(cur), state := SLEEPING)])
    case Sleep(cur, a) => w.(procs := ps[cur := ps[cur].(chan := Other(a), state := SLEEPING)])
    case Tidy(cur) => w.(procs := ps[cur := ps[cur].(chan := NoChan)])
    case Wakeup(a) => w.(procs := WakeAll(ps, Other(a)))
    case Kill(k) => w.(procs := ps[k := Killed(ps[k])])
    case Schedule(k) => w.(procs := ps[k := ps[k].(state := RUNNING)])
    case Yield(cur) => w.(procs := ps[cur := ps[cur].(state := RUNNABLE)])
  }

  /** After `userinit`. */
  ghost predicate Start(w: World) {
    && |w.procs| >= 1
    && w.procs[INIT] == Proc(RUNNABLE, 1, NOBODY, NoChan, 1, false, NOBODY)
    && (forall i :: 1 <= i < |w.procs| ==> w.procs[i].state == UNUSED && w.procs[i].parent == NOBODY
                                           && w.procs[i].making == NOBODY && !w.procs[i].killed)
    && w.nextpid == 2 && w.nextdir == 2 && w.freed == [] && w.reaped == [] && w.creator == map[]
  }

  // -------------------------------------------- steps that change little

  /** Only scheduling changed: not who the process is, nor whether it has exited. */
  predicate Minor(p: Proc, q: Proc) {
    && q.pid == p.pid && q.parent == p.parent && q.pgdir == p.pgdir && q.making == p.making
    && (q.state == UNUSED <==> p.state == UNUSED)
    && (q.state == EMBRYO <==> p.state == EMBRYO)
    && (q.state == ZOMBIE <==> p.state == ZOMBIE)
    && (q.making != NOBODY && InUse(p) && p.state != SLEEPING ==> q.state != SLEEPING)
  }

  ghost predicate MinorChange(ps: Table, qs: Table) {
    |qs| == |ps| && forall i :: 0 <= i < |ps| ==> Minor(ps[i], qs[i])
  }

  predicate IsMinor(s: Step) {
    !(s.Alloc? || s.AllocFail? || s.Fork? || s.Clone? || s.Exit? || s.Reap?)
  }

  lemma MinorSteps(w: World, s: Step)
    requires Enabled(w, s) && IsMinor(s)
    ensures MinorChange(w.procs, Next(w, s).procs)
    ensures Next(w, s) == w.(procs := Next(w, s).procs)
  {
  }

  /** `exit`, up to scheduling: the children go to init and the process becomes a zombie. */
  ghost function Passed(ps: Table, cur: nat): Table
    requires cur < |ps|
  {
    var b := AdoptAll(ps, cur);
    b[cur := b[cur].(state := ZOMBIE)]
  }

  lemma ExitedMinor(ps: Table, cur: nat)
    requires cur < |ps| && ps[cur].state == RUNNING
    ensures |Passed(ps, cur)| == |ps| && MinorChange(Passed(ps, cur), Exited(ps, cur))
  {
  }

  // ------------------------------------------------------------- the process tree

  predicate ParentOk(ps: Table, i: int)
    requires InTable(ps, i)
  {
    if !InUse(ps[i]) then ps[i].parent == NOBODY
    else i != INIT ==>
      ps[i].parent != i && InTable(ps, ps[i].parent) && InUse(ps[ps[i].parent]) && ps[ps[i].parent].state != ZOMBIE
  }

  predicate MakingOk(ps: Table, i: int)
    requires InTable(ps, i)
  {
    ps[i].making != NOBODY ==>
      && InTable(ps, ps[i].making) && ps[ps[i].making].state == EMBRYO
      && (ps[i].state == RUNNING || ps[i].state == RUNNABLE)
  }

  /** init is there; everybody else's parent is there and has not exited. */
  ghost predicate TreeOk(ps: Table) {
    && |ps| >= 1 && InUse(ps[INIT]) && ps[INIT].state != ZOMBIE && ps[INIT].parent == NOBODY
    && (forall i {:trigger ParentOk(ps, i)} :: 0 <= i < |ps| ==> ParentOk(ps, i))
    && (forall i {:trigger MakingOk(ps, i)} :: 0 <= i < |ps| ==> MakingOk(ps, i))
    && (forall i, j :: 0 <= i < j < |ps| && ps[i].making != NOBODY ==> ps[i].making != ps[j].making)
  }

  lemma MinorTree(ps: Table, qs: Table)
    requires TreeOk(ps) && MinorChange(ps, qs)
    ensures TreeOk(qs)
  {
    forall i | 0 <= i < |qs| ensures ParentOk(qs, i) && MakingOk(qs, i) {
      assert ParentOk(ps, i) && MakingOk(ps, i);
    }
  }

  lemma PassedTree(ps: Table, cur: nat)
    requires TreeOk(ps) && Idle(ps, cur) && cur != INIT
    ensures TreeOk(Passed(ps, cur))
  {
    var qs := Passed(ps, cur);
    forall i | 0 <= i < |qs| ensures ParentOk(qs, i) && MakingOk(qs, i) {
      assert ParentOk(ps, i) && MakingOk(ps, i);
    }
  }

  lemma AllocTree(w: World, s: Step)
    requires TreeOk(w.procs) && Enabled(w, s) && (s.Alloc? || s.AllocFail?)
    ensures TreeOk(Next(w, s).procs)
  {
    var ps, qs := w.procs, Next(w, s).procs;
    assert ParentOk(ps, s.cur) && MakingOk(ps, s.cur);
    assert s.Alloc? ==> ParentOk(ps, s.k) && MakingOk(ps, s.k);
    forall i | 0 <= i < |qs| ensures ParentOk(qs, i) && MakingOk(qs, i) {
      assert ParentOk(ps, i) && MakingOk(ps, i);
    }
    forall i, j | 0 <= i < j < |qs| && qs[i].making != NOBODY ensures qs[i].making != qs[j].making {
      assert MakingOk(ps, i) && MakingOk(ps, j);
    }
  }

  lemma BornTree(ps: Table, cur: nat, dir: nat)
    requires TreeOk(ps) && Builds(ps, cur)
    ensures TreeOk(Born(ps, cur, dir))
  {
    var qs := Born(ps, cur, dir);
    assert ParentOk(ps, cur) && MakingOk(ps, cur);
    forall i | 0 <= i < |qs| ensures ParentOk(qs, i) && MakingOk(qs, i) {
      assert ParentOk(ps, i) && MakingOk(ps, i);
    }
  }

  lemma ReapTree(w: World, s: Step)
    requires TreeOk(w.procs) && Enabled(w, s) && s.Reap?
    ensures TreeOk(Next(w, s).procs)
  {
    var ps, qs := w.procs, Next(w, s).procs;
    forall i | 0 <= i < |qs| ensures ParentOk(qs, i) && MakingOk(qs, i) {
      assert ParentOk(ps, i) && MakingOk(ps, i);
    }
  }

  lemma StepTree(w: World, s: Step)
    requires TreeOk(w.procs) && Enabled(w, s)
    ensures TreeOk(Next(w, s).procs)
  {
    hide TreeOk, MinorChange, Exited;
    if IsMinor(s) {
      MinorSteps(w, s);
      MinorTree(w.procs, Next(w, s).procs);
    } else {
      match s
      case Alloc(_, _) => AllocTree(w, s);
      case AllocFail(_) => AllocTree(w, s);
      case Fork(cur) => BornTree(w.procs, cur, w.nextdir);
      case Clone(cur) => BornTree(w.procs, cur, w.procs[cur].pgdir);
      case Exit(cur) =>
        ExitedMinor(w.procs, cur);
        PassedTree(w.procs, cur);
        MinorTree(Passed(w.procs, cur), Exited(w.procs, cur));
      case Reap(_, _) => ReapTree(w, s);
    }
  }

  // ------------------------------------------------------------ no lost wakeup

  /** A process asleep in `wait` has no child to reap. */
  ghost predicate SoundSleep(ps: Table, i: int)
    requires InTable(ps, i)
  {
    ps[i].state == SLEEPING && ps[i].chan == Slot(i) ==> !HasZombieChild(ps, i)
  }

  ghost predicate SleepOk(ps: Table) {
    forall i {:trigger SoundSleep(ps, i)} :: 0 <= i < |ps| ==> SoundSleep(ps, i)
  }

  lemma QuietStep(ps: Table, qs: Table)
    requires SleepOk(ps) && |qs| == |ps|
    requires forall k :: 0 <= k < |ps| && qs[k].state == ZOMBIE ==> ps[k].state == ZOMBIE && qs[k].parent == ps[k].parent
    requires forall i :: 0 <= i < |ps| && qs[i].state == SLEEPING && qs[i].chan == Slot(i) ==>
      (ps[i].state == SLEEPING && ps[i].chan == Slot(i)) || !HasZombieChild(ps, i)
    ensures SleepOk(qs)
  {
    forall i | 0 <= i < |qs| ensures SoundSleep(qs, i) {
      assert SoundSleep(ps, i);
      if HasZombieChild(qs, i) {
        var k :| 0 <= k < |qs| && qs[k].parent == i && qs[k].state == ZOMBIE;
        assert HasZombieChild(ps, i);
      }
    }
  }

  lemma ExitSleep(ps: Table, cur: nat)
    requires TreeOk(ps) && SleepOk(ps) && Idle(ps, cur) && cur != INIT
    ensures SleepOk(Exited(ps, cur))
  {
    var qs := Exited(ps, cur);
    assert ParentOk(ps, cur);
    forall i | 0 <= i < |qs| ensures SoundSleep(qs, i) {
      assert SoundSleep(ps, i);
      if HasZombieChild(qs, i) {
        var k :| 0 <= k < |qs| && qs[k].parent == i && qs[k].state == ZOMBIE;
        if k != cur && ps[k].parent == cur {
          assert HasZombieChild(ps, cur);
        } else if k != cur {
          assert HasZombieChild(ps, i);
        }
      }
    }
  }

  lemma StepSleep(w: World, s: Step)
    requires TreeOk(w.procs) && SleepOk(w.procs) && Enabled(w, s)
    ensures SleepOk(Next(w, s).procs)
  {
    hide TreeOk, SleepOk, HasZombieChild, Exited, HasChild;
    match s
    case Exit(cur) => ExitSleep(w.procs, cur);
    case Fork(cur) => MakerSleep(w, s);
    case Clone(cur) => MakerSleep(w, s);
    case AllocFail(cur) => MakerSleep(w, s);
    case _ => QuietStep(w.procs, Next(w, s).procs);
  }

  lemma MakerSleep(w: World, s: Step)
    requires TreeOk(w.procs) && SleepOk(w.procs) && Enabled(w, s) && (s.Fork? || s.Clone? || s.AllocFail?)
    ensures SleepOk(Next(w, s).procs)
  {
    hide TreeOk, SleepOk, HasZombieChild, HasChild;
    MakerFacts(w.procs, s.cur);
    QuietStep(w.procs, Next(w, s).procs);
  }

  lemma MakerFacts(ps: Table, cur: nat)
    requires TreeOk(ps) && Builds(ps, cur)
    ensures ps[ps[cur].making].state == EMBRYO && ps[ps[cur].making].parent == NOBODY
    ensures ps[ps[cur].making].making == NOBODY && ps[cur].making != cur
    ensures forall i :: 0 <= i < |ps| && InUse(ps[i]) ==> ps[i].parent != ps[cur].making
  {
    var np := ps[cur].making;
    assert MakingOk(ps, cur) && ParentOk(ps, np) && MakingOk(ps, np);
    forall i | 0 <= i < |ps| && InUse(ps[i]) ensures ps[i].parent != np {
      assert ParentOk(ps, i);
    }
  }

  // ------------------------------------------------------------ pids and reaping

  /** Pids are given out once; those reaped are gone for good. */
  ghost predicate PidsOk(w: World) {
    var ps := w.procs;
    && (forall i :: 0 <= i < |ps| && ps[i].state != UNUSED ==> 0 < ps[i].pid < w.nextpid)
    && (forall i, j :: 0 <= i < j < |ps| && ps[i].state != UNUSED && ps[j].state != UNUSED ==> ps[i].pid != ps[j].pid)
    && (forall k :: 0 <= k < |w.reaped| ==> 0 < w.reaped[k].pid < w.nextpid)
    && (forall j, k :: 0 <= j < k < |w.reaped| ==> w.reaped[j].pid != w.reaped[k].pid)
    && (forall i, k :: 0 <= i < |ps| && 0 <= k < |w.reaped| && ps[i].state != UNUSED ==> ps[i].pid != w.reaped[k].pid)
  }

  lemma SamePids(w: World, qs: Table)
    requires PidsOk(w) && |qs| == |w.procs|
    requires forall i :: 0 <= i < |qs| && qs[i].state != UNUSED ==>
      w.procs[i].state != UNUSED && qs[i].pid == w.procs[i].pid
    ensures PidsOk(w.(procs := qs))
  {
  }

  lemma NewPid(w: World, qs: Table, k: nat)
    requires PidsOk(w) && |qs| == |w.procs| && k < |qs| && qs[k].pid == w.nextpid && w.nextpid > 0
    requires forall i :: 0 <= i < |qs| && i != k && qs[i].state != UNUSED ==>
      w.procs[i].state != UNUSED && qs[i].pid == w.procs[i].pid
    ensures PidsOk(w.(procs := qs, nextpid := w.nextpid + 1))
  {
  }

  lemma PidGone(w: World, qs: Table, k: nat, reaper: nat)
    requires PidsOk(w) && |qs| == |w.procs| && k < |qs| && qs[k].state == UNUSED && w.procs[k].state != UNUSED
    requires forall i :: 0 <= i < |qs| && i != k ==> qs[i] == w.procs[i]
    ensures PidsOk(w.(procs := qs, reaped := w.reaped + [Reaping(w.procs[k].pid, reaper)]))
  {
  }

  lemma AllocPids(w: World, s: Step)
    requires PidsOk(w) && Enabled(w, s) && (s.Alloc? || s.AllocFail?)
    ensures PidsOk(Next(w, s))
  {
    if s.Alloc? {
      assert 0 < w.procs[s.cur].pid < w.nextpid;
      hide PidsOk;
      NewPid(w, Next(w, s).procs, s.k);
    } else {
      hide PidsOk;
      SamePids(w, Next(w, s).procs);
    }
  }

  lemma ReapPids(w: World, s: Step)
    requires PidsOk(w) && Enabled(w, s) && s.Reap?
    ensures PidsOk(Next(w, s))
  {
    hide PidsOk;
    PidGone(w, Next(w, s).procs, s.k, w.procs[s.cur].pid);
    SameHistory(w.(procs := Next(w, s).procs, reaped := Next(w, s).reaped), Next(w, s));
  }

  lemma BornPids(w: World, s: Step)
    requires TreeOk(w.procs) && PidsOk(w) && Enabled(w, s) && (s.Fork? || s.Clone?)
    ensures PidsOk(Next(w, s))
  {
    hide TreeOk, PidsOk;
    MakerFacts(w.procs, s.cur);
    SamePids(w, Next(w, s).procs);
    SameHistory(w.(procs := Next(w, s).procs), Next(w, s));
  }

  lemma SameHistory(w: World, v: World)
    requires PidsOk(w) && v.procs == w.procs && v.nextpid == w.nextpid && v.reaped == w.reaped
    ensures PidsOk(v)
  {
  }

  lemma StepPids(w: World, s: Step)
    requires TreeOk(w.procs) && PidsOk(w) && Enabled(w, s)
    ensures PidsOk(Next(w, s))
  {
    hide Exited, TreeOk, PidsOk;
    if IsMinor(s) {
      MinorSteps(w, s);
      SamePids(w, Next(w, s).procs);
    } else {
      match s
      case Alloc(_, _) => AllocPids(w, s);
      case AllocFail(_) => AllocPids(w, s);
      case Fork(_) => BornPids(w, s);
      case Clone(_) => BornPids(w, s);
      case Exit(cur) =>
        ExitedMinor(w.procs, cur);
        SamePids(w, Exited(w.procs, cur));
      case Reap(_, _) => ReapPids(w, s);
    }
  }

  /** Whoever reaps, or could reap, a process created it or is init. */
  predicate CreatedBy(w: World, i: int)
    requires InTable(w.procs, i)
  {
    var ps := w.procs;
    InUse(ps[i]) && i != INIT ==>
      && ps[i].pid in w.creator
      && (ps[i].parent == INIT || (InTable(ps, ps[i].parent) && ps[ps[i].parent].pid == w.creator[ps[i].pid]))
  }

  ghost predicate CreatorOk(w: World) {
    && |w.procs| >= 1 && w.procs[INIT].pid == 1
    && (forall i {:trigger CreatedBy(w, i)} :: 0 <= i < |w.procs| ==> CreatedBy(w, i))
    && (forall k :: 0 <= k < |w.reaped| ==>
          var r := w.reaped[k];
          r.pid in w.creator && (r.reaper == w.creator[r.pid] || r.reaper == 1))
  }

  lemma SameCreators(w: World, v: World)
    requires CreatorOk(w) && TreeOk(w.procs) && |v.procs| == |w.procs| && v.creator == w.creator && v.reaped == w.reaped
    requires forall i :: 0 <= i < |v.procs| && InUse(v.procs[i]) ==>
      InUse(w.procs[i]) && v.procs[i].pid == w.procs[i].pid
      && (v.procs[i].parent == w.procs[i].parent || v.procs[i].parent == INIT)
    requires forall i :: 0 <= i < |v.procs| && InUse(w.procs[i]) && w.procs[i].state != ZOMBIE ==>
      v.procs[i].pid == w.procs[i].pid
    ensures CreatorOk(v)
  {
    forall i | 0 <= i < |v.procs| ensures CreatedBy(v, i) {
      assert CreatedBy(w, i) && ParentOk(w.procs, i);
    }
  }

  lemma BornCreators(w: World, s: Step)
    requires CreatorOk(w) && TreeOk(w.procs) && PidsOk(w) && Enabled(w, s) && (s.Fork? || s.Clone?)
    ensures CreatorOk(Next(w, s))
  {
    var v, np := Next(w, s), w.procs[s.cur].making;
    MakerFacts(w.procs, s.cur);
    forall i | 0 <= i < |v.procs| ensures CreatedBy(v, i) {
      assert CreatedBy(w, i) && ParentOk(w.procs, i);
      assert i < np ==> w.procs[i].state == UNUSED || w.procs[i].pid != w.procs[np].pid;
      assert i > np ==> w.procs[i].state == UNUSED || w.procs[i].pid != w.procs[np].pid;
    }
  }

  lemma ReapCreators(w: World, s: Step)
    requires CreatorOk(w) && TreeOk(w.procs) && Enabled(w, s) && s.Reap?
    ensures CreatorOk(Next(w, s))
  {
    hide TreeOk, CreatorOk;
    CreatorFacts(w, s.k, s.cur);
    var v := Next(w, s);
    SameCreators(w, v.(reaped := w.reaped));
    MoreReaped(v.(reaped := w.reaped), v.reaped[|v.reaped| - 1]);
  }

  lemma CreatorFacts(w: World, k: nat, cur: nat)
    requires CreatorOk(w) && TreeOk(w.procs) && k < |w.procs| && cur < |w.procs|
    requires w.procs[k].parent == cur && w.procs[k].state == ZOMBIE
    ensures w.procs[k].pid in w.creator
    ensures w.procs[cur].pid == w.creator[w.procs[k].pid] || w.procs[cur].pid == 1
    ensures k != INIT && k != cur
  {
    assert CreatedBy(w, k) && ParentOk(w.procs, k);
  }

  lemma MoreReaped(w: World, r: Reaping)
    requires CreatorOk(w) && r.pid in w.creator && (r.reaper == w.creator[r.pid] || r.reaper == 1)
    ensures CreatorOk(w.(reaped := w.reaped + [r]))
  {
    var v := w.(reaped := w.reaped + [r]);
    forall i | 0 <= i < |v.procs| ensures CreatedBy(v, i) {
      assert CreatedBy(w, i);
    }
  }

  lemma StepCreators(w: World, s: Step)
    requires CreatorOk(w) && TreeOk(w.procs) && PidsOk(w) && Enabled(w, s)
    ensures CreatorOk(Next(w, s))
  {
    hide Exited, TreeOk, PidsOk, CreatorOk;
    if IsMinor(s) {
      MinorSteps(w, s);
      SameCreators(w, Next(w, s));
    } else {
      match s
      case Alloc(_, _) => SameCreators(w, Next(w, s));
      case AllocFail(cur) =>
        MakerFacts(w.procs, cur);
        SameCreators(w, Next(w, s));
      case Fork(_) => BornCreators(w, s);
      case Clone(_) => BornCreators(w, s);
      case Exit(cur) =>
        ExitedMinor(w.procs, cur);
        SameCreators(w, Next(w, s));
      case Reap(_, _) => ReapCreators(w, s);
    }
  }

  // ------------------------------------------------------ shared directories

  /** i is a thread: it runs in its parent's page directory. */
  predicate Shares(ps: Table, i: int)
    requires InTable(ps, i)
  {
    i != INIT && InTable(ps, ps[i].parent) && ps[ps[i].parent].pgdir == ps[i].pgdir
  }

  predicate Leads(ps: Table, i: int) {
    InTable(ps, i) && InUse(ps[i]) && !Shares(ps, i)
  }

  ghost predicate LeadersUnique(ps: Table) {
    forall i, j {:trigger Leads(ps, i), Leads(ps, j)} :: Leads(ps, i) && Leads(ps, j) && i != j ==> ps[i].pgdir != ps[j].pgdir
  }

  /** Threads are younger than the process they share with. */
  predicate Younger(ps: Table, i: int)
    requires InTable(ps, i)
  {
    && (InUse(ps[i]) && Shares(ps, i) ==> ps[ps[i].parent].pid < ps[i].pid)
    && (InTable(ps, ps[i].making) ==> ps[i].pid < ps[ps[i].making].pid)
  }

  ghost predicate HasLeader(ps: Table, d: nat) {
    exists i :: Leads(ps, i) && ps[i].pgdir == d
  }

  ghost predicate DirsOk(w: World) {
    && LeadersUnique(w.procs)
    && (forall i {:trigger Younger(w.procs, i)} :: 0 <= i < |w.procs| ==> Younger(w.procs, i))
    && (forall i :: 0 <= i < |w.procs| && InUse(w.procs[i]) ==>
          0 < w.procs[i].pgdir < w.nextdir && w.procs[i].pgdir !in w.freed)
    && (forall j, k :: 0 <= j < k < |w.freed| ==> w.freed[j] != w.freed[k])
    && (forall d :: d in w.freed ==> d < w.nextdir)
    && (forall d :: 0 < d < w.nextdir ==> d in w.freed || HasLeader(w.procs, d))
  }

  /** cur has no live or unreaped thread of its own left. */
  ghost predicate ThreadsReaped(ps: Table, cur: nat)
    requires cur < |ps|
  {
    forall i :: 0 <= i < |ps| && InUse(ps[i]) && ps[i].parent == cur ==> ps[i].pgdir != ps[cur].pgdir
  }

  /** A leader without threads is the only process in its directory. */
  lemma {:induction false} OnlyUser(ps: Table, p: nat, q: nat)
    requires TreeOk(ps) && LeadersUnique(ps) && forall i :: 0 <= i < |ps| ==> Younger(ps, i)
    requires Leads(ps, p) && ThreadsReaped(ps, p)
    requires q < |ps| && InUse(ps[q]) && ps[q].pgdir == ps[p].pgdir
    ensures q == p
    decreases ps[q].pid
  {
    if q != p {
      assert Leads(ps, q) || Shares(ps, q);
      assert Younger(ps, q) && ParentOk(ps, q);
      OnlyUser(ps, p, ps[q].parent);
    }
  }

  /** The same processes are in use, in the same directories, as leaders or as threads. */
  ghost predicate SameRoles(ps: Table, qs: Table) {
    && |qs| == |ps|
    && forall i :: 0 <= i < |ps| ==>
         (InUse(qs[i]) <==> InUse(ps[i]))
         && (InUse(ps[i]) ==> qs[i].pgdir == ps[i].pgdir && (Shares(qs, i) <==> Shares(ps, i)))
  }

  lemma RolesDirs(w: World, qs: Table)
    requires DirsOk(w) && SameRoles(w.procs, qs)
    requires forall i :: 0 <= i < |qs| ==> Younger(qs, i)
    ensures DirsOk(w.(procs := qs))
  {
    var ps := w.procs;
    forall i, j | Leads(qs, i) && Leads(qs, j) && i != j ensures qs[i].pgdir != qs[j].pgdir {
      assert Leads(ps, i) && Leads(ps, j);
    }
    forall d | 0 < d < w.nextdir ensures d in w.freed || HasLeader(qs, d) {
      if d !in w.freed {
        var i :| Leads(ps, i) && ps[i].pgdir == d;
        assert Leads(qs, i);
      }
    }
  }

  /** Same processes, parents and directories, as far as they are in use. */
  ghost predicate SameFamily(ps: Table, qs: Table) {
    && |qs| == |ps|
    && forall i :: 0 <= i < |ps| ==>
         (InUse(qs[i]) <==> InUse(ps[i]))
         && (InUse(ps[i]) ==> qs[i].parent == ps[i].parent && qs[i].pgdir == ps[i].pgdir && qs[i].pid == ps[i].pid)
  }

  lemma FamilyDirs(w: World, qs: Table)
    requires TreeOk(w.procs) && DirsOk(w) && SameFamily(w.procs, qs)
    requires MakersOlder(qs)
    ensures DirsOk(w.(procs := qs))
  {
    var ps := w.procs;
    forall i | 0 <= i < |qs| && InUse(ps[i])
      ensures (Shares(qs, i) <==> Shares(ps, i))
      ensures Shares(ps, i) ==> qs[qs[i].parent].pid == ps[ps[i].parent].pid
    {
      assert ParentOk(ps, i);
    }
    forall i | 0 <= i < |qs| ensures Younger(qs, i) {
      assert Younger(ps, i);
    }
    hide TreeOk;
    RolesDirs(w, qs);
  }

  ghost predicate MakersOlder(qs: Table) {
    forall i :: 0 <= i < |qs| && InTable(qs, qs[i].making) ==> qs[i].pid < qs[qs[i].making].pid
  }

  lemma MakersAre(w: World)
    requires DirsOk(w)
    ensures MakersOlder(w.procs)
  {
    forall i | 0 <= i < |w.procs| && InTable(w.procs, w.procs[i].making)
      ensures w.procs[i].pid < w.procs[w.procs[i].making].pid
    {
      assert Younger(w.procs, i);
    }
  }

  lemma MinorDirs(w: World, qs: Table)
    requires TreeOk(w.procs) && DirsOk(w) && MinorChange(w.procs, qs)
    ensures DirsOk(w.(procs := qs))
  {
    hide TreeOk, DirsOk, MakersOlder;
    MakersAre(w);
    MakersSamePid(w.procs, qs);
    FamilyDirs(w, qs);
  }

  lemma AllocMakers(ps: Table, cur: nat, k: nat, pid: nat)
    requires MakersOlder(ps) && cur < |ps| && k < |ps| && cur != k && ps[k].state == UNUSED && ps[cur].pid < pid
    requires ps[k].making == NOBODY
    requires forall i :: 0 <= i < |ps| ==> MakingOk(ps, i)
    ensures var a := ps[k := ps[k].(state := EMBRYO, pid := pid)]; MakersOlder(a[cur := a[cur].(making := k)])
  {
    var a := ps[k := ps[k].(state := EMBRYO, pid := pid)];
    var qs := a[cur := a[cur].(making := k)];
    forall i | 0 <= i < |qs| && InTable(qs, qs[i].making) ensures qs[i].pid < qs[qs[i].making].pid {
      assert MakingOk(ps, i);
    }
  }

  lemma MakersSamePid(ps: Table, qs: Table)
    requires MakersOlder(ps) && |qs| == |ps|
    requires forall i :: 0 <= i < |ps| ==> qs[i].pid == ps[i].pid && (qs[i].making == ps[i].making || qs[i].making == NOBODY)
    ensures MakersOlder(qs)
  {
  }

  lemma AllocDirs(w: World, s: Step)
    requires TreeOk(w.procs) && PidsOk(w) && DirsOk(w) && Enabled(w, s) && (s.Alloc? || s.AllocFail?)
    ensures DirsOk(Next(w, s))
  {
    hide DirsOk, MakersOlder;
    var v := Next(w, s);
    MakersAre(w);
    if s.Alloc? {
      assert ParentOk(w.procs, s.k) && MakingOk(w.procs, s.k);
      assert w.procs[s.cur].pid < w.nextpid;
      hide PidsOk;
      AllocMakers(w.procs, s.cur, s.k, w.nextpid);
    } else {
      MakerFacts(w.procs, s.cur);
      MakersSamePid(w.procs, v.procs);
    }
    hide TreeOk, PidsOk;
    FamilyDirs(w, v.procs);
    OtherFields(w.(procs := v.procs), v);
  }

  lemma OtherFields(w: World, v: World)
    requires DirsOk(w) && v.procs == w.procs && v.nextdir == w.nextdir && v.freed == w.freed
    ensures DirsOk(v)
  {
  }

  /** After a birth everyone else has the role they had. */
  lemma BornRoles(ps: Table, cur: nat, dir: nat, i: nat)
    requires TreeOk(ps) && Builds(ps, cur) && i < |ps|
    ensures var qs, np := Born(ps, cur, dir), ps[cur].making;
      && (i != np ==> (InUse(qs[i]) <==> InUse(ps[i])) && qs[i].pgdir == ps[i].pgdir && qs[i].pid == ps[i].pid)
      && (i != np && InUse(ps[i]) ==>
            && (Shares(qs, i) <==> Shares(ps, i))
            && (Shares(ps, i) ==> qs[qs[i].parent].pid == ps[ps[i].parent].pid))
      && (i == np ==> InUse(qs[i]) && (Shares(qs, i) <==> dir == ps[cur].pgdir && np != INIT) && qs[i].pgdir == dir)
      && np != INIT && np != cur
  {
    MakerFacts(ps, cur);
    assert ParentOk(ps, i);
  }

  lemma BornYounger(ps: Table, cur: nat, dir: nat)
    requires TreeOk(ps) && Builds(ps, cur) && forall i :: 0 <= i < |ps| ==> Younger(ps, i)
    ensures forall i :: 0 <= i < |ps| ==> Younger(Born(ps, cur, dir), i)
  {
    var qs, np := Born(ps, cur, dir), ps[cur].making;
    forall i | 0 <= i < |ps| ensures Younger(qs, i) {
      BornRoles(ps, cur, dir, i);
      MakerFacts(ps, cur);
      assert Younger(ps, i) && Younger(ps, cur);
    }
  }

  lemma ForkDirs(w: World, s: Step)
    requires TreeOk(w.procs) && DirsOk(w) && Enabled(w, s) && s.Fork?
    ensures DirsOk(Next(w, s))
  {
    hide TreeOk;
    var v, ps, cur := Next(w, s), w.procs, s.cur;
    var qs, np := v.procs, ps[cur].making;
    BornYounger(ps, cur, w.nextdir);
    MakerIs(ps, cur);
    assert InUse(ps[cur]) && ps[cur].pgdir < w.nextdir;
    forall i | 0 <= i < |ps|
      ensures InUse(qs[i]) ==> 0 < qs[i].pgdir < v.nextdir && qs[i].pgdir !in v.freed
      ensures i != np ==> (Leads(qs, i) <==> Leads(ps, i)) && qs[i].pgdir == ps[i].pgdir
      ensures i == np ==> Leads(qs, i) && qs[i].pgdir == w.nextdir
    {
      BornRoles(ps, cur, w.nextdir, i);
    }
    forall i, j | Leads(qs, i) && Leads(qs, j) && i != j ensures qs[i].pgdir != qs[j].pgdir {
      assert i != np ==> Leads(ps, i);
      assert j != np ==> Leads(ps, j);
    }
    forall d | 0 < d < v.nextdir ensures d in v.freed || HasLeader(qs, d) {
      if d == w.nextdir {
        assert Leads(qs, np);
      } else if d !in w.freed {
        var i :| Leads(ps, i) && ps[i].pgdir == d;
        assert i != np;
        assert Leads(qs, i);
      }
    }
  }

  lemma MakerIs(ps: Table, cur: nat)
    requires TreeOk(ps) && Builds(ps, cur)
    ensures !InUse(ps[ps[cur].making])
  {
    MakerFacts(ps, cur);
  }

  lemma CloneDirs(w: World, s: Step)
    requires TreeOk(w.procs) && DirsOk(w) && Enabled(w, s) && s.Clone?
    ensures DirsOk(Next(w, s))
  {
    hide TreeOk;
    var v, ps, cur := Next(w, s), w.procs, s.cur;
    var qs, np, dir := v.procs, ps[cur].making, ps[cur].pgdir;
    BornYounger(ps, cur, dir);
    assert InUse(ps[cur]);
    forall i | 0 <= i < |ps|
      ensures InUse(qs[i]) ==> 0 < qs[i].pgdir < v.nextdir && qs[i].pgdir !in v.freed
      ensures Leads(qs, i) <==> Leads(ps, i)
      ensures Leads(qs, i) ==> qs[i].pgdir == ps[i].pgdir
    {
      BornRoles(ps, cur, dir, i);
      MakerIs(ps, cur);
    }
    forall i, j | Leads(qs, i) && Leads(qs, j) && i != j ensures qs[i].pgdir != qs[j].pgdir {
      assert Leads(ps, i) && Leads(ps, j);
    }
    forall d | 0 < d < v.nextdir ensures d in v.freed || HasLeader(qs, d) {
      if d !in w.freed {
        var i :| Leads(ps, i) && ps[i].pgdir == d;
        assert Leads(qs, i);
      }
    }
  }

  /** No orphan thread is left behind, unless init itself runs in that directory. */
  ghost predicate SafeExit(ps: Table, cur: nat)
    requires cur < |ps| && |ps| >= 1
  {
    ThreadsReaped(ps, cur) || ps[cur].pgdir == ps[INIT].pgdir
  }

  lemma PassedRoles(w: World, cur: nat, i: nat)
    requires TreeOk(w.procs) && DirsOk(w) && Idle(w.procs, cur) && cur != INIT && i < |w.procs| && InUse(w.procs[i])
    ensures var ps, qs := w.procs, Passed(w.procs, cur);
      && InUse(qs[i]) && qs[i].pgdir == ps[i].pgdir && qs[i].pid == ps[i].pid
      && (ps[i].parent != cur ==> (Shares(qs, i) <==> Shares(ps, i)) && qs[i].parent == ps[i].parent)
      && (ps[i].parent == cur ==> i != INIT && i != cur && (Shares(qs, i) <==> ps[i].pgdir == ps[INIT].pgdir) && qs[i].parent == INIT)
      && (SafeExit(ps, cur) ==> (Shares(qs, i) <==> Shares(ps, i)))
  {
    var ps := w.procs;
    assert ParentOk(ps, i) && ParentOk(ps, cur);
    if SafeExit(ps, cur) && ps[i].parent == cur && ps[i].pgdir != ps[cur].pgdir {
      assert Leads(ps, i) && Leads(ps, INIT);
    }
  }

  lemma PassedDirs(w: World, cur: nat)
    requires TreeOk(w.procs) && PidsOk(w) && CreatorOk(w) && DirsOk(w)
    requires Idle(w.procs, cur) && cur != INIT && SafeExit(w.procs, cur)
    ensures DirsOk(w.(procs := Passed(w.procs, cur)))
  {
    var ps, qs := w.procs, Passed(w.procs, cur);
    forall i | 0 <= i < |qs| ensures Younger(qs, i) {
      assert Younger(ps, i) && MakingOk(ps, i) && ParentOk(ps, i);
      if InUse(ps[i]) {
        PassedRoles(w, cur, i);
        if i != INIT {
          OlderInit(w, i);
        }
      }
    }
    forall i | 0 <= i < |ps|
      ensures (InUse(qs[i]) <==> InUse(ps[i]))
      ensures InUse(ps[i]) ==> qs[i].pgdir == ps[i].pgdir && (Shares(qs, i) <==> Shares(ps, i))
    {
      if InUse(ps[i]) {
        PassedRoles(w, cur, i);
      }
    }
    hide TreeOk, PidsOk, CreatorOk, DirsOk, Passed;
    RolesDirs(w, qs);
  }

  lemma OlderInit(w: World, i: nat)
    requires PidsOk(w) && CreatorOk(w) && i < |w.procs| && i != INIT && InUse(w.procs[i]) && InUse(w.procs[INIT])
    ensures w.procs[INIT].pid < w.procs[i].pid
  {
  }

  /** A thread left behind leads its directory beside the leader it had. */
  lemma OrphanLeads(w: World, cur: nat) returns (a: nat, b: nat)
    requires TreeOk(w.procs) && DirsOk(w) && Idle(w.procs, cur) && cur != INIT && !SafeExit(w.procs, cur)
    ensures var qs := Passed(w.procs, cur);
      Leads(qs, a) && Leads(qs, b) && a != b && qs[a].pgdir == qs[b].pgdir == w.procs[cur].pgdir
  {
    var ps, qs := w.procs, Passed(w.procs, cur);
    a :| 0 <= a < |ps| && InUse(ps[a]) && ps[a].parent == cur && ps[a].pgdir == ps[cur].pgdir;
    PassedRoles(w, cur, a);
    assert InUse(ps[cur]) && HasLeader(ps, ps[cur].pgdir);
    b :| Leads(ps, b) && ps[b].pgdir == ps[cur].pgdir;
    PassedRoles(w, cur, b);
    assert ParentOk(ps, b);
  }

  lemma ReapRoles(ps: Table, k: nat, i: nat)
    requires TreeOk(ps) && k < |ps| && ps[k].state == ZOMBIE && i < |ps| && i != k && InUse(ps[i])
    ensures var qs := ps[k := ps[k].(state := UNUSED, pid := 0, parent := NOBODY, killed := false)];
      && qs[i] == ps[i] && (Shares(qs, i) <==> Shares(ps, i)) && ps[i].parent != k
      && (Shares(ps, i) ==> qs[qs[i].parent].pid == ps[ps[i].parent].pid)
  {
    assert ParentOk(ps, i);
  }

  lemma ReapDirs(w: World, s: Step)
    requires TreeOk(w.procs) && DirsOk(w) && Enabled(w, s) && s.Reap?
    ensures DirsOk(Next(w, s))
  {
    var v, ps, cur, k := Next(w, s), w.procs, s.cur, s.k;
    var qs := v.procs;
    assert ParentOk(ps, k) && MakingOk(ps, k);
    ReapFacts(w, cur, k);
    hide TreeOk;
    forall i | 0 <= i < |qs| ensures Younger(qs, i) {
      assert Younger(ps, i);
      ReapYounger(ps, k, i);
    }
    forall i | 0 <= i < |ps| && i != k && InUse(ps[i])
      ensures (Leads(qs, i) <==> Leads(ps, i)) && qs[i] == ps[i] && ps[i].pgdir !in v.freed
    {
      ReapRoles(ps, k, i);
    }
    forall i, j | Leads(qs, i) && Leads(qs, j) && i != j ensures qs[i].pgdir != qs[j].pgdir {
      assert Leads(ps, i) && Leads(ps, j);
    }
    forall d | 0 < d < v.nextdir ensures d in v.freed || HasLeader(qs, d) {
      if d !in v.freed {
        assert d !in w.freed;
        var i :| Leads(ps, i) && ps[i].pgdir == d;
        assert Leads(qs, i);
      }
    }
  }

  lemma ReapYounger(ps: Table, k: nat, i: nat)
    requires TreeOk(ps) && k < |ps| && ps[k].state == ZOMBIE && i < |ps| && Younger(ps, i)
    ensures Younger(ps[k := ps[k].(state := UNUSED, pid := 0, parent := NOBODY, killed := false)], i)
  {
    assert MakingOk(ps, i) && MakingOk(ps, k);
    if i != k && InUse(ps[i]) {
      ReapRoles(ps, k, i);
    }
  }

  /** What `wait` frees, nobody else uses. */
  lemma ReapFacts(w: World, cur: nat, k: nat)
    requires TreeOk(w.procs) && DirsOk(w) && Idle(w.procs, cur) && IsReaped(w.procs, cur, k)
    ensures k != cur && k != INIT
    ensures w.procs[k].pgdir == w.procs[cur].pgdir ==> Shares(w.procs, k)
    ensures w.procs[k].pgdir != w.procs[cur].pgdir ==>
      Leads(w.procs, k)
      && forall i :: 0 <= i < |w.procs| && InUse(w.procs[i]) && i != k ==> w.procs[i].pgdir != w.procs[k].pgdir
  {
    var ps := w.procs;
    assert ParentOk(ps, k);
    if ps[k].pgdir != ps[cur].pgdir {
      forall i | 0 <= i < |ps| && InUse(ps[i]) && i != k ensures ps[i].pgdir != ps[k].pgdir {
        assert ThreadsReaped(ps, k) by {
          forall j | 0 <= j < |ps| && InUse(ps[j]) ensures ps[j].parent != k {
            assert ParentOk(ps, j);
          }
        }
        if ps[i].pgdir == ps[k].pgdir {
          OnlyUser(ps, k, i);
        }
      }
    }
  }

  // -------------------------------------------------------------- every run

  /** What holds of every reachable table, whatever the processes do. */
  ghost predicate Inv(w: World) {
    TreeOk(w.procs) && SleepOk(w.procs) && PidsOk(w) && CreatorOk(w)
  }

  lemma StartInv(w: World)
    requires Start(w)
    ensures Inv(w) && DirsOk(w)
  {
    forall i | 0 <= i < |w.procs|
      ensures ParentOk(w.procs, i) && MakingOk(w.procs, i) && SoundSleep(w.procs, i) && CreatedBy(w, i) && Younger(w.procs, i)
    {
    }
    assert Leads(w.procs, INIT);
    assert HasLeader(w.procs, 1);
  }

  lemma StepInv(w: World, s: Step)
    requires Inv(w) && Enabled(w, s)
    ensures Inv(Next(w, s))
  {
    hide TreeOk, SleepOk, PidsOk, CreatorOk, Next, Enabled;
    StepTree(w, s);
    StepSleep(w, s);
    StepPids(w, s);
    StepCreators(w, s);
  }

  lemma StepDirs(w: World, s: Step)
    requires Inv(w) && DirsOk(w) && Enabled(w, s)
    requires s.Exit? ==> SafeExit(w.procs, s.cur)
    ensures DirsOk(Next(w, s))
  {
    hide TreeOk, SleepOk, PidsOk, CreatorOk, DirsOk, Exited;
    if IsMinor(s) {
      MinorSteps(w, s);
      MinorDirs(w, Next(w, s).procs);
    } else {
      match s
      case Alloc(_, _) => AllocDirs(w, s);
      case AllocFail(_) => AllocDirs(w, s);
      case Fork(_) => ForkDirs(w, s);
      case Clone(_) => CloneDirs(w, s);
      case Exit(cur) =>
        ExitedMinor(w.procs, cur);
        PassedTree(w.procs, cur);
        PassedDirs(w, cur);
        MinorDirs(w.(procs := Passed(w.procs, cur)), Exited(w.procs, cur));
      case Reap(_, _) => ReapDirs(w, s);
    }
  }

  /** A run performs the steps that are possible when their turn comes. */
  ghost function Run(w: World, steps: seq<Step>): World
    decreases |steps|
  {
    if steps == [] then w
    else
      var v := Run(w, steps[..|steps| - 1]);
      var s := steps[|steps| - 1];
      if Enabled(v, s) then Next(v, s) else v
  }

  /** Every exit in the run was safe for the directory it left. */
  ghost predicate SafeRun(w: World, steps: seq<Step>)
    decreases |steps|
  {
    steps == []
    || (var v, s := Run(w, steps[..|steps| - 1]), steps[|steps| - 1];
        && SafeRun(w, steps[..|steps| - 1])
        && (s.Exit? && Enabled(v, s) ==> |v.procs| >= 1 && SafeExit(v.procs, s.cur)))
  }

  lemma {:induction false} RunInv(w: World, steps: seq<Step>)
    requires Inv(w)
    ensures Inv(Run(w, steps))
    ensures DirsOk(w) && SafeRun(w, steps) ==> DirsOk(Run(w, steps))
    decreases |steps|
  {
    hide Inv, DirsOk, Enabled, Next;
    if steps != [] {
      RunInv(w, steps[..|steps| - 1]);
      var v, s := Run(w, steps[..|steps| - 1]), steps[|steps| - 1];
      if Enabled(v, s) {
        StepInv(v, s);
        if DirsOk(w) && SafeRun(w, steps) {
          StepDirs(v, s);
        }
      }
    }
  }

  // ------------------------------------------------- what the steps tell of sleepers

  /** The process whose code the step is. */
  function Actor(s: Step): int {
    match s
    case Wakeup(_) => NOBODY
    case Kill(_) => NOBODY
    case Schedule(_) => NOBODY
    case _ => s.cur
  }

  /** The last step of a run that was slot i's own. */
  ghost function LastOwn(w: World, steps: seq<Step>, i: nat): Option<Step>
    decreases |steps|
  {
    if steps == [] then None
    else
      var v, s := Run(w, steps[..|steps| - 1]), steps[|steps| - 1];
      if Enabled(v, s) && Actor(s) == i then Some(s) else LastOwn(w, steps[..|steps| - 1], i)
  }

  /** The slot has been killed and not been reaped since. */
  ghost predicate WasKilled(w: World, steps: seq<Step>, i: nat)
    decreases |steps|
  {
    steps != []
    && var v, s := Run(w, steps[..|steps| - 1]), steps[|steps| - 1];
       if Enabled(v, s) && s == Kill(i) then true
       else if Enabled(v, s) && s.Reap? && s.k == i then false
       else WasKilled(w, steps[..|steps| - 1], i)
  }

  /** A sleeper's channel is the one its own last step named. */
  predicate SleepsAs(p: Proc, own: Option<Step>, i: nat) {
    p.state == SLEEPING ==>
      && own.Some?
      && ((own.value == WaitSleeps(i) && p.chan == Slot(i) && !p.killed)
          || (own.value.Sleep? && own.value.cur == i && p.chan == Other(own.value.a)))
  }

  /** A step of another process neither puts slot i to sleep nor moves it to another channel. */
  lemma OthersStep(w: World, s: Step, i: nat)
    requires Enabled(w, s) && Actor(s) != i && i < |w.procs|
    ensures var p, q := w.procs[i], Next(w, s).procs[i];
      && (q.state == SLEEPING ==> p.state == SLEEPING && q.chan == p.chan && q.killed == p.killed)
      && q.killed == (if s == Kill(i) then true else if s.Reap? && s.k == i then false else p.killed)
  {
  }

  lemma OwnStep(w: World, s: Step)
    requires Enabled(w, s) && Actor(s) >= 0
    ensures var i := Actor(s);
      && i < |w.procs| && SleepsAs(Next(w, s).procs[i], Some(s), i)
      && Next(w, s).procs[i].killed == (if s.Reap? && s.k == i then false else w.procs[i].killed)
  {
  }

  lemma {:induction false} RunSleeps(w: World, steps: seq<Step>, i: nat)
    requires Start(w) && i < |w.procs|
    ensures var v := Run(w, steps);
      |v.procs| == |w.procs| && SleepsAs(v.procs[i], LastOwn(w, steps, i), i) && (v.procs[i].killed <==> WasKilled(w, steps, i))
    decreases |steps|
  {
    if steps != [] {
      var most := steps[..|steps| - 1];
      RunSleeps(w, most, i);
      var v, s := Run(w, most), steps[|steps| - 1];
      if Enabled(v, s) {
        SameCount(v, s);
        hide Start, Enabled, Next;
        if Actor(s) == i {
          OwnStep(v, s);
        } else {
          OthersStep(v, s, i);
        }
      }
    }
  }

  lemma SameCount(w: World, s: Step)
    requires Enabled(w, s)
    ensures |Next(w, s).procs| == |w.procs|
  {
  }

  /** In every run: a process whose own last step put it to sleep in `wait` and that still sleeps has no zombie
      child and has not been killed; every exited child is reaped at most once, and only by its creator or
      by init. */
  lemma WaitIsSound(w: World, steps: seq<Step>)
    requires Start(w)
    ensures var v := Run(w, steps);
      && (forall i :: 0 <= i < |v.procs| && v.procs[i].state == SLEEPING && LastOwn(w, steps, i) == Some(WaitSleeps(i)) ==>
            !HasZombieChild(v.procs, i) && !WasKilled(w, steps, i))
      && (forall j, k :: 0 <= j < k < |v.reaped| ==> v.reaped[j].pid != v.reaped[k].pid)
      && (forall k :: 0 <= k < |v.reaped| ==>
            v.reaped[k].pid in v.creator
            && (v.reaped[k].reaper == v.creator[v.reaped[k].pid] || v.reaped[k].reaper == 1))
  {
    StartInv(w);
    RunInv(w, steps);
    var v := Run(w, steps);
    forall i | 0 <= i < |v.procs| && v.procs[i].state == SLEEPING && LastOwn(w, steps, i) == Some(WaitSleeps(i))
      ensures !HasZombieChild(v.procs, i) && !WasKilled(w, steps, i)
    {
      RunLength(w, steps);
      RunSleeps(w, steps, i);
      assert SoundSleep(v.procs, i);
    }
  }

  lemma {:induction false} RunLength(w: World, steps: seq<Step>)
    ensures |Run(w, steps).procs| == |w.procs|
    decreases |steps|
  {
    if steps != [] {
      RunLength(w, steps[..|steps| - 1]);
      var v, s := Run(w, steps[..|steps| - 1]), steps[|steps| - 1];
      hide Enabled, Next;
      if Enabled(v, s) { SameCount(v, s); }
    }
  }

  /** In every run: an exit wakes the parent that sleeps in `wait`, and init if it gets a zombie. */
  lemma ExitWakes(w: World, steps: seq<Step>, c: nat, i: nat)
    requires Start(w) && Enabled(Run(w, steps), Exit(c)) && i < |w.procs| && i != c
    requires i < |Run(w, steps).procs| && Run(w, steps).procs[i].state == SLEEPING
    requires LastOwn(w, steps, i) == Some(WaitSleeps(i))
    requires Run(w, steps).procs[c].parent == i || (i == INIT && HasZombieChild(Run(w, steps).procs, c))
    ensures var v := Next(Run(w, steps), Exit(c)); i < |v.procs| && v.procs[i].state == RUNNABLE
  {
    RunSleeps(w, steps, i);
  }

  /** In every run: `wakeup` wakes those whose own last step was a sleep on that channel, and nobody else. */
  lemma WakeupWakes(w: World, steps: seq<Step>, a: nat, i: nat)
    requires Start(w) && i < |w.procs|
    ensures var v := Run(w, steps);
      && |v.procs| == |w.procs| && |Next(v, Wakeup(a)).procs| == |w.procs|
      && Next(v, Wakeup(a)).procs[i].state ==
           if v.procs[i].state == SLEEPING && LastOwn(w, steps, i) == Some(Sleep(i, a)) then RUNNABLE else v.procs[i].state
  {
    RunSleeps(w, steps, i);
  }

  /** In every run: a killed process is awake after the kill, and counts as killed. */
  lemma KillWakes(w: World, steps: seq<Step>, k: nat)
    requires Start(w) && k < |w.procs|
    ensures var v := Run(w, steps + [Kill(k)]);
      k < |v.procs| && v.procs[k].state != SLEEPING && WasKilled(w, steps + [Kill(k)], k)
  {
    var all := steps + [Kill(k)];
    assert all[..|all| - 1] == steps;
    RunLength(w, steps);
  }

  /** In every run whose exits leave no orphan threads: no directory is freed twice or while in
      use, and one is freed as soon as nobody runs in it. */
  lemma DirectoriesFreedOnce(w: World, steps: seq<Step>)
    requires Start(w) && SafeRun(w, steps)
    ensures var v := Run(w, steps);
      && (forall j, k :: 0 <= j < k < |v.freed| ==> v.freed[j] != v.freed[k])
      && (forall i :: 0 <= i < |v.procs| && InUse(v.procs[i]) ==> v.procs[i].pgdir !in v.freed)
      && (forall d :: 0 < d < v.nextdir && d !in v.freed ==>
            exists i :: 0 <= i < |v.procs| && InUse(v.procs[i]) && v.procs[i].pgdir == d)
  {
    StartInv(w);
    RunInv(w, steps);
    var v := Run(w, steps);
    forall d | 0 < d < v.nextdir && d !in v.freed
      ensures exists i :: 0 <= i < |v.procs| && InUse(v.procs[i]) && v.procs[i].pgdir == d
    {
      assert HasLeader(v.procs, d);
    }
  }

  // ----------------------------------------------- what an unsafe exit leads to

  /** No process is left with a directory that has been freed. */
  ghost predicate NoneMisused(w: World) {
    forall i :: 0 <= i < |w.procs| && InUse(w.procs[i]) ==> w.procs[i].pgdir !in w.freed
  }

  predicate ThreadOlder(ps: Table, i: int)
    requires InTable(ps, i)
  {
    InUse(ps[i]) && Shares(ps, i) ==> ps[ps[i].parent].pid < ps[i].pid
  }

  /** Two processes lead the same directory, and it is not init's. */
  ghost predicate Disputed(w: World, d: nat, a: nat, b: nat) {
    && Inv(w) && w.procs[INIT].pgdir != d
    && Leads(w.procs, a) && Leads(w.procs, b) && a != b
    && w.procs[a].pgdir == d && w.procs[b].pgdir == d
    && (forall i {:trigger ThreadOlder(w.procs, i)} :: 0 <= i < |w.procs| && w.procs[i].pgdir == d ==> ThreadOlder(w.procs, i))
  }

  /** Slot i is no nearer to running, and if it is in use in d it has the parent it had. */
  predicate Fades(ps: Table, qs: Table, d: nat, i: int)
    requires InTable(ps, i) && |qs| == |ps|
  {
    && qs[i].pgdir == ps[i].pgdir && Weight(qs[i]) <= Weight(ps[i])
    && (InUse(qs[i]) ==> InUse(ps[i]) && qs[i].pid == ps[i].pid)
    && (InUse(qs[i]) && qs[i].pgdir == d && i != INIT ==>
          qs[i].parent == ps[i].parent
          && (InTable(ps, ps[i].parent) ==> qs[ps[i].parent].pid == ps[ps[i].parent].pid))
  }

  /** How many steps are left at most before the slot is unused, if nobody forks. */
  function Weight(p: Proc): nat {
    match p.state
    case UNUSED => 0
    case EMBRYO => 1
    case ZOMBIE => 1
    case RUNNING => 2
    case RUNNABLE => 3
    case SLEEPING => 4
  }

  function Load(ps: Table): nat {
    if ps == [] then 0 else Load(ps[..|ps| - 1]) + Weight(ps[|ps| - 1])
  }

  lemma {:induction false} LoadDrops(ps: Table, qs: Table, k: int)
    requires |qs| == |ps| && forall i :: 0 <= i < |ps| ==> Weight(qs[i]) <= Weight(ps[i])
    ensures Load(qs) <= Load(ps)
    ensures 0 <= k < |ps| && Weight(qs[k]) < Weight(ps[k]) ==> Load(qs) < Load(ps)
    decreases |ps|
  {
    if ps != [] {
      LoadDrops(ps[..|ps| - 1], qs[..|qs| - 1], k);
    }
  }

  lemma FadesDisputed(w: World, v: World, d: nat, a: nat, b: nat, t: nat)
    requires Disputed(w, d, a, b) && Inv(v) && |v.procs| == |w.procs|
    requires forall i {:trigger Fades(w.procs, v.procs, d, i)} :: 0 <= i < |w.procs| ==> Fades(w.procs, v.procs, d, i)
    requires InUse(v.procs[a]) && InUse(v.procs[b])
    requires t < |w.procs| && Weight(v.procs[t]) < Weight(w.procs[t])
    ensures Disputed(v, d, a, b) && Load(v.procs) < Load(w.procs)
  {
    hide Inv, Weight;
    var ps, qs := w.procs, v.procs;
    assert Fades(ps, qs, d, INIT) && Fades(ps, qs, d, a) && Fades(ps, qs, d, b);
    FadesShares(ps, qs, d, a);
    FadesShares(ps, qs, d, b);
    forall i | 0 <= i < |qs| && qs[i].pgdir == d ensures ThreadOlder(qs, i) {
      assert Fades(ps, qs, d, i) && ThreadOlder(ps, i);
      if InUse(qs[i]) {
        FadesShares(ps, qs, d, i);
      }
    }
    forall i | 0 <= i < |ps| ensures Weight(qs[i]) <= Weight(ps[i]) {
      assert Fades(ps, qs, d, i);
    }
    LoadDrops(ps, qs, t);
  }

  lemma FadesShares(ps: Table, qs: Table, d: nat, i: nat)
    requires |qs| == |ps| && i < |ps| && InUse(qs[i]) && qs[i].pgdir == d && Fades(ps, qs, d, i)
    requires forall j {:trigger Fades(ps, qs, d, j)} :: 0 <= j < |ps| ==> Fades(ps, qs, d, j)
    ensures Shares(qs, i) <==> Shares(ps, i)
  {
    if InTable(ps, ps[i].parent) {
      assert Fades(ps, qs, d, ps[i].parent);
    }
  }

  lemma {:induction false} Youngest(ps: Table, d: nat, n: nat, a: nat) returns (x: nat)
    requires a < n <= |ps| && InUse(ps[a]) && ps[a].pgdir == d
    ensures x < n && InUse(ps[x]) && ps[x].pgdir == d
    ensures forall i :: 0 <= i < n && InUse(ps[i]) && ps[i].pgdir == d ==> ps[i].pid <= ps[x].pid
    decreases n
  {
    x := a;
    if n > 1 {
      if a < n - 1 {
        x := Youngest(ps, d, n - 1, a);
        if InUse(ps[n - 1]) && ps[n - 1].pgdir == d && ps[n - 1].pid > ps[x].pid {
          x := n - 1;
        }
      } else if i :| 0 <= i < n - 1 && InUse(ps[i]) && ps[i].pgdir == d {
        x := Youngest(ps, d, n - 1, i);
        if ps[a].pid > ps[x].pid {
          x := a;
        }
      }
    }
  }

  /** Waking a process and giving it a CPU changes no roles. */
  lemma WakeFades(w: World, t: nat, d: nat, a: nat, b: nat) returns (s: Step)
    requires Disputed(w, d, a, b) && t < |w.procs| && (w.procs[t].state == SLEEPING || w.procs[t].state == RUNNABLE)
    ensures Enabled(w, s) && !s.Exit? && Disputed(Next(w, s), d, a, b) && Load(Next(w, s).procs) < Load(w.procs)
  {
    s := if w.procs[t].state == SLEEPING then Kill(t) else Schedule(t);
    var v := Next(w, s);
    StepInv(w, s);
    hide Inv;
    forall i | 0 <= i < |w.procs| ensures Fades(w.procs, v.procs, d, i) {
    }
    FadesDisputed(w, v, d, a, b, t);
  }

  lemma AbandonFades(w: World, t: nat, d: nat, a: nat, b: nat)
    requires Disputed(w, d, a, b) && Builds(w.procs, t)
    ensures var s := AllocFail(t);
      Enabled(w, s) && Disputed(Next(w, s), d, a, b) && Load(Next(w, s).procs) < Load(w.procs)
  {
    var s, ps := AllocFail(t), w.procs;
    var v := Next(w, s);
    StepInv(w, s);
    MakerFacts(ps, t);
    hide Inv;
    forall i | 0 <= i < |ps| ensures Fades(ps, v.procs, d, i) {
    }
    FadesDisputed(w, v, d, a, b, ps[t].making);
  }

  lemma ExitSlot(ps: Table, cur: nat, i: nat)
    requires cur < |ps| && ps[cur].state == RUNNING && i < |ps|
    ensures var p, q := ps[i], Exited(ps, cur)[i];
      && q.pgdir == p.pgdir && q.pid == p.pid && (InUse(q) <==> InUse(p))
      && q.parent == (if p.parent == cur then INIT else p.parent)
      && Weight(q) <= Weight(p) && (i == cur ==> Weight(q) < Weight(p))
  {
  }

  /** The youngest process in the directory exits safely, since it has no threads. */
  lemma ExitFades(w: World, x: nat, d: nat, a: nat, b: nat)
    requires Disputed(w, d, a, b) && Idle(w.procs, x) && w.procs[x].pgdir == d
    requires forall i :: 0 <= i < |w.procs| && InUse(w.procs[i]) && w.procs[i].pgdir == d ==> w.procs[i].pid <= w.procs[x].pid
    ensures var s := Exit(x);
      && Enabled(w, s) && SafeExit(w.procs, x)
      && Disputed(Next(w, s), d, a, b) && Load(Next(w, s).procs) < Load(w.procs)
  {
    var s, ps := Exit(x), w.procs;
    var v := Next(w, s);
    StepInv(w, s);
    hide Inv, Exited, Weight;
    forall i | 0 <= i < |ps| && InUse(ps[i]) && ps[i].pgdir == d ensures ps[i].parent != x {
      assert ThreadOlder(ps, i);
    }
    forall i | 0 <= i < |ps| ensures Fades(ps, v.procs, d, i) {
      ExitSlot(ps, x, i);
      if InTable(ps, ps[i].parent) {
        ExitSlot(ps, x, ps[i].parent);
      }
    }
    ExitSlot(ps, x, x);
    ExitSlot(ps, x, a);
    ExitSlot(ps, x, b);
    FadesDisputed(w, v, d, a, b, x);
  }

  /** A reaping either frees the disputed directory while someone uses it, or changes no roles. */
  lemma ReapFades(w: World, q: nat, k: nat, d: nat, a: nat, b: nat)
    requires Disputed(w, d, a, b) && Idle(w.procs, q) && IsReaped(w.procs, q, k)
    ensures var s := Reap(q, k);
      && Enabled(w, s)
      && (!NoneMisused(Next(w, s))
          || (Disputed(Next(w, s), d, a, b) && Load(Next(w, s).procs) < Load(w.procs)))
  {
    var s, ps := Reap(q, k), w.procs;
    var v := Next(w, s);
    StepInv(w, s);
    forall i | 0 <= i < |ps| && InUse(ps[i]) && i != INIT ensures ps[i].parent != k {
      assert ParentOk(ps, i);
    }
    assert ParentOk(ps, k) && |ps| >= 1;
    hide Inv, TreeOk;
    var other := if k == a then b else a;
    assert other != k && v.procs[other] == ps[other];
    if ps[k].pgdir == d && ps[q].pgdir != d {
      assert d in v.freed && InUse(v.procs[other]) && v.procs[other].pgdir == d;
    } else {
      assert k != a && k != b;
      forall i | 0 <= i < |ps| ensures Fades(ps, v.procs, d, i) {
      }
      FadesDisputed(w, v, d, a, b, k);
    }
  }

  /** While a directory is disputed, some step with no unsafe exit brings its misuse nearer. */
  lemma Advance(w: World, d: nat, a: nat, b: nat) returns (s: Step)
    requires Disputed(w, d, a, b)
    ensures Enabled(w, s) && (s.Exit? ==> |w.procs| >= 1 && SafeExit(w.procs, s.cur))
    ensures !NoneMisused(Next(w, s))
            || (Disputed(Next(w, s), d, a, b) && Load(Next(w, s).procs) < Load(w.procs))
  {
    var ps := w.procs;
    var x := Youngest(ps, d, |ps|, a);
    assert ParentOk(ps, x);
    var t: nat := if ps[x].state == ZOMBIE then ps[x].parent else x;
    assert MakingOk(ps, t);
    hide Disputed, Inv, NoneMisused, Next, Exited, TreeOk, IsReaped;
    if ps[t].state == SLEEPING || ps[t].state == RUNNABLE {
      s := WakeFades(w, t, d, a, b);
    } else if ps[t].making != NOBODY {
      AbandonFades(w, t, d, a, b);
      s := AllocFail(t);
    } else if t == x {
      ExitFades(w, x, d, a, b);
      s := Exit(x);
    } else {
      var k := FirstZombie(ps, t, x);
      ReapFades(w, t, k, d, a, b);
      s := Reap(t, k);
    }
  }

  lemma {:induction false} FirstZombie(ps: Table, cur: nat, x: nat) returns (k: nat)
    requires x < |ps| && ps[x].parent == cur && ps[x].state == ZOMBIE
    ensures IsReaped(ps, cur, k)
    decreases x
  {
    if j :| 0 <= j < x && ps[j].parent == cur && ps[j].state == ZOMBIE {
      k := FirstZombie(ps, cur, j);
    } else {
      k := x;
    }
  }

  lemma {:induction false} RunFrom(w: World, s: Step, steps: seq<Step>)
    requires Enabled(w, s)
    ensures Run(w, [s] + steps) == Run(Next(w, s), steps)
    ensures SafeRun(w, [s] + steps) <==>
      (s.Exit? ==> |w.procs| >= 1 && SafeExit(w.procs, s.cur)) && SafeRun(Next(w, s), steps)
    decreases |steps|
  {
    hide Enabled, Next, SafeExit;
    var all := [s] + steps;
    if steps == [] {
      assert all[..|all| - 1] == [];
    } else {
      RunFrom(w, s, steps[..|steps| - 1]);
      assert all[..|all| - 1] == [s] + steps[..|steps| - 1];
    }
  }

  lemma {:induction false} DisputedIsMisused(w: World, d: nat, a: nat, b: nat) returns (steps: seq<Step>)
    requires Disputed(w, d, a, b)
    ensures SafeRun(w, steps) && !NoneMisused(Run(w, steps))
    decreases Load(w.procs)
  {
    hide Disputed, NoneMisused, Enabled, Next, SafeExit, Load;
    var s := Advance(w, d, a, b);
    var v := Next(w, s);
    if !NoneMisused(v) {
      steps := [];
      assert Run(v, steps) == v;
    } else {
      steps := DisputedIsMisused(v, d, a, b);
    }
    RunFrom(w, s, steps);
    steps := [s] + steps;
  }

  lemma OrphanOlder(w: World, cur: nat, i: nat)
    requires Inv(w) && DirsOk(w) && Idle(w.procs, cur) && cur != INIT && i < |w.procs|
    ensures ThreadOlder(Exited(w.procs, cur), i)
  {
    var ps := w.procs;
    assert Younger(ps, i) && ParentOk(ps, i) && |ps| >= 1;
    if InUse(ps[i]) && i != INIT {
      OlderInit(w, i);
    }
    hide Inv, DirsOk, Exited;
    ExitSlot(ps, cur, i);
    ExitSlot(ps, cur, INIT);
    if InTable(ps, ps[i].parent) {
      ExitSlot(ps, cur, ps[i].parent);
    }
  }

  lemma UnsafeDisputes(w: World, cur: nat) returns (a: nat, b: nat)
    requires Inv(w) && DirsOk(w) && Enabled(w, Exit(cur)) && !SafeExit(w.procs, cur)
    ensures Disputed(Next(w, Exit(cur)), w.procs[cur].pgdir, a, b)
  {
    hide Inv, DirsOk, Exited, Passed;
    var ps, v := w.procs, Next(w, Exit(cur));
    StepInv(w, Exit(cur));
    InvTree(w);
    a, b := OrphanLeads(w, cur);
    ExitedMinor(ps, cur);
    MinorLeads(Passed(ps, cur), Exited(ps, cur), a);
    MinorLeads(Passed(ps, cur), Exited(ps, cur), b);
    ExitSlot(ps, cur, INIT);
    forall i | 0 <= i < |ps| ensures ThreadOlder(v.procs, i) {
      OrphanOlder(w, cur, i);
    }
  }

  lemma InvTree(w: World)
    requires Inv(w)
    ensures TreeOk(w.procs) && |w.procs| >= 1
  {
  }

  lemma MinorLeads(ps: Table, qs: Table, i: nat)
    requires MinorChange(ps, qs) && Leads(ps, i)
    ensures Leads(qs, i) && qs[i].pgdir == ps[i].pgdir
  {
  }

  /** An exit is safe if and only if no continuation, itself without unsafe exits, ever frees a
      directory that some process still refers to. */
  lemma ExitExact(w: World, cur: nat)
    requires Inv(w) && DirsOk(w) && Enabled(w, Exit(cur))
    ensures |w.procs| >= 1 &&
      (SafeExit(w.procs, cur) <==>
         forall steps :: SafeRun(Next(w, Exit(cur)), steps) ==> NoneMisused(Run(Next(w, Exit(cur)), steps)))
  {
    var v := Next(w, Exit(cur));
    assert |w.procs| >= 1;
    if SafeExit(w.procs, cur) {
      StepInv(w, Exit(cur));
      StepDirs(w, Exit(cur));
      hide Inv, Enabled, Next;
      forall steps | SafeRun(v, steps) ensures NoneMisused(Run(v, steps)) {
        RunInv(v, steps);
      }
    } else {
      var a, b := UnsafeDisputes(w, cur);
      hide Inv, Enabled, Next, NoneMisused, Disputed;
      var steps := DisputedIsMisused(v, w.procs[cur].pgdir, a, b);
      assert SafeRun(v, steps) && !NoneMisused(Run(v, steps));
    }
  }

  lemma RunMore(w: World, steps: seq<Step>, s: Step)
    requires Enabled(Run(w, steps), s)
    ensures Run(w, steps + [s]) == Next(Run(w, steps), s)
  {
    assert (steps + [s])[..|steps|] == steps;
  }

  const FORKS := [Schedule(0), Alloc(0, 1), Fork(0), Schedule(1)]
  const CLONES := FORKS + [Alloc(1, 2)] + [Clone(1)]

  lemma Forked(w: World)
    requires Start(w) && |w.procs| >= 3
    ensures var v := Run(w, FORKS);
      && |v.procs| == |w.procs| && v.procs[2..] == w.procs[2..] && v.freed == [] && v.nextdir == 3
      && v.procs[0] == Proc(RUNNING, 1, NOBODY, NoChan, 1, false, NOBODY)
      && v.procs[1].state == RUNNING && v.procs[1].parent == 0 && v.procs[1].pgdir == 2 && v.procs[1].making == NOBODY
  {
    var s1, s2, s3, s4 := Schedule(0), Alloc(0, 1), Fork(0), Schedule(1);
    RunMore(w, [], s1);
    RunMore(w, [s1], s2);
    assert [s1] + [s2] == [s1, s2];
    RunMore(w, [s1, s2], s3);
    assert [s1, s2] + [s3] == [s1, s2, s3];
    RunMore(w, [s1, s2, s3], s4);
    assert [s1, s2, s3] + [s4] == FORKS;
  }

  lemma Cloned(w: World)
    requires Start(w) && |w.procs| >= 3
    ensures var v := Run(w, CLONES);
      && |v.procs| >= 3 && v.freed == []
      && v.procs[0] == Proc(RUNNING, 1, NOBODY, NoChan, 1, false, NOBODY)
      && v.procs[1].state == RUNNING && v.procs[1].parent == 0 && v.procs[1].pgdir == 2 && v.procs[1].making == NOBODY
      && v.procs[2].state == RUNNABLE && v.procs[2].parent == 1 && v.procs[2].pgdir == 2
  {
    Forked(w);
    assert Run(w, FORKS).procs[2] == w.procs[2];
    hide Run;
    RunMore(w, FORKS, Alloc(1, 2));
    RunMore(w, FORKS + [Alloc(1, 2)], Clone(1));
  }

  /** init forks P, P clones T and exits, init reaps P: T's directory has been freed under it. */
  lemma OrphanRun(w: World)
    requires Start(w) && |w.procs| >= 3
    ensures var v := Run(w, CLONES + [Exit(1)] + [Reap(0, 1)]);
      && |v.procs| >= 3 && v.procs[2].state == RUNNABLE && v.procs[2].pgdir == 2 && v.freed == [2] && !NoneMisused(v)
  {
    Cloned(w);
    hide Run;
    RunMore(w, CLONES, Exit(1));
    RunMore(w, CLONES + [Exit(1)], Reap(0, 1));
  }

  // ------------------------------------------------------- the table itself

  datatype WaitResult = Reaped(pid: nat) | Failed | Slept

  class ProcTable {
    var procs: Table
    var nextpid: nat
    ghost var nextdir: nat
    ghost var freed: seq<nat>
    ghost var reaped: seq<Reaping>
    ghost var creator: map<nat, nat>

    ghost function Snapshot(): World
      reads this
    {
      World(procs, nextpid, nextdir, freed, reaped, creator)
    }

    method Wakeup1(c: Chan)
      modifies this`procs
      ensures procs == WakeAll(old(procs), c)
    {
      for i := 0 to |procs|
        invariant |procs| == |old(procs)|
        invariant forall j :: 0 <= j < |procs| ==>
          procs[j] == if j < i then Woken(old(procs)[j], c) else old(procs)[j]
      {
        if procs[i].state == SLEEPING && procs[i].chan == c {
          procs := procs[i := procs[i].(state := RUNNABLE)];
        }
      }
    }

    /** The scan of `allocproc`, for a process that is in fork or clone. */
    method AllocProc(cur: nat) returns (k: int)
      requires Idle(procs, cur)
      modifies this`procs, this`nextpid
      ensures k == NOBODY <==> forall j :: 0 <= j < |old(procs)| ==> old(procs)[j].state != UNUSED
      ensures k == NOBODY ==> Snapshot() == old(Snapshot())
      ensures k != NOBODY ==>
        k >= 0 && old(Enabled(Snapshot(), Alloc(cur, k))) && Snapshot() == Next(old(Snapshot()), Alloc(cur, k))
    {
      k := 0;
      while k < |procs| && procs[k].state != UNUSED
        invariant 0 <= k <= |procs| && forall j :: 0 <= j < k ==> procs[j].state != UNUSED
      {
        k := k + 1;
      }
      if k == |procs| {
        return NOBODY;
      }
      procs := procs[k := procs[k].(state := EMBRYO, pid := nextpid)];
      nextpid := nextpid + 1;
      procs := procs[cur := procs[cur].(making := k)];
    }

    method ExitCurrent(cur: nat)
      requires Idle(procs, cur) && cur != INIT && |procs| >= 1
      modifies this`procs
      ensures Snapshot() == Next(old(Snapshot()), Exit(cur))
    {
      ghost var ps := procs;
      var c := if procs[cur].parent < 0 then NoChan else Slot(procs[cur].parent);
      Wakeup1(c);
      ghost var a := procs;
      ghost var zombies := false;
      for i := 0 to |procs|
        invariant |procs| == |a| == |ps|
        invariant zombies <==> exists k :: 0 <= k < i && ps[k].parent == cur && ps[k].state == ZOMBIE
        invariant forall j :: 0 <= j < |a| ==>
          var p := if j < i then Adopted(a[j], cur) else a[j];
          procs[j] == if zombies then Woken(p, Slot(INIT)) else p
      {
        if procs[i].parent == cur {
          procs := procs[i := procs[i].(parent := INIT)];
          if procs[i].state == ZOMBIE {
            Wakeup1(Slot(INIT));
            zombies := true;
          }
        }
      }
      assert zombies <==> HasZombieChild(ps, cur);
      ghost var b := AdoptAll(a, cur);
      assert procs == if zombies then WakeAll(b, Slot(INIT)) else b;
      procs := procs[cur := procs[cur].(state := ZOMBIE)];
    }

    /** One pass of the loop of `wait`, up to its return or its sleep. */
    method WaitOnce(cur: nat) returns (r: WaitResult, ghost k: nat)
      requires Idle(procs, cur)
      modifies this
      ensures r.Reaped? ==>
        && old(Enabled(Snapshot(), Reap(cur, k))) && Snapshot() == Next(old(Snapshot()), Reap(cur, k))
        && r.pid == old(procs)[k].pid
      ensures r.Failed? ==> old(Enabled(Snapshot(), WaitFails(cur))) && Snapshot() == old(Snapshot())
      ensures r.Slept? ==>
        old(Enabled(Snapshot(), WaitSleeps(cur))) && Snapshot() == Next(old(Snapshot()), WaitSleeps(cur))
      ensures r.Reaped? <==> old(HasZombieChild(procs, cur))
      ensures r.Failed? <==> !old(HasZombieChild(procs, cur)) && (!old(HasChild(procs, cur)) || old(procs)[cur].killed)
    {
      var havekids := false;
      k := 0;
      for i := 0 to |procs|
        invariant procs == old(procs) && Snapshot() == old(Snapshot())
        invariant havekids <==> exists j :: 0 <= j < i && procs[j].parent == cur
        invariant forall j :: 0 <= j < i ==> !(procs[j].parent == cur && procs[j].state == ZOMBIE)
      {
        if procs[i].parent == cur {
          havekids := true;
          if procs[i].state == ZOMBIE {
            k := i;
            r := Reaped(procs[i].pid);
            reaped := reaped + [Reaping(procs[i].pid, procs[cur].pid)];
            if procs[i].pgdir != procs[cur].pgdir {
              freed := freed + [procs[i].pgdir];
            }
            procs := procs[i := procs[i].(state := UNUSED, pid := 0, parent := NOBODY, killed := false)];
            return;
          }
        }
      }
      if !havekids || procs[cur].killed {
        return Failed, k;
      }
      procs := procs[cur := procs[cur].(chan := Slot(cur), state := SLEEPING)];
      return Slept, k;
    }

    method KillPid(pid: nat) returns (r: int)
      modifies this`procs
      ensures r == 0 <==> exists k :: 0 <= k < |old(procs)| && old(procs)[k].pid == pid
      ensures r == 0 ==> exists k: nat ::
        k < |old(procs)| && old(procs)[k].pid == pid && Snapshot() == Next(old(Snapshot()), Kill(k))
        && k < |procs| && procs[k].killed && procs[k].state != SLEEPING
      ensures r != 0 ==> r == -1 && procs == old(procs)
    {
      for i := 0 to |procs|
        invariant procs == old(procs) && forall k :: 0 <= k < i ==> procs[k].pid != pid
      {
        if procs[i].pid == pid {
          procs := procs[i := procs[i].(killed := true)];
          if procs[i].state == SLEEPING {
            procs := procs[i := procs[i].(state := RUNNABLE)];
          }
          assert procs == old(procs)[i := Killed(old(procs)[i])];
          return 0;
        }
      }
      return -1;
    }
  }
}
