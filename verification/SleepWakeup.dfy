// `sleep` and `wakeup` of 4/xv6/change/proc.c, lock operation by lock operation:
// any number of processes wait for a condition that others make true, under a
// lock lk of their own and ptable.lock.
module SleepWakeup {

  /** Where a process is.  Sleepers run `while(!cond) sleep(chan, lk); cond = 0;` and wakers
      run `cond = 1; wakeup(chan);`, both between acquire(lk) and release(lk). */
  datatype Pc =
    | SleeperIdle      // before acquire(lk)
    | Testing          // holds lk, at the loop test
    | Entering         // in sleep, holds lk, before acquire(ptable.lock)
    | Switching        // holds both, before release(lk)
    | Marking          // holds ptable.lock, before state = SLEEPING
    | Asleep           // SLEEPING; the scheduler has released ptable.lock
    | Woken            // RUNNABLE; before acquire(lk) again
    | WakerIdle        // before acquire(lk)
    | Setting          // holds lk, before the condition becomes true
    | Calling          // condition set, in wakeup, before acquire(ptable.lock)
    | Scanning         // holds both, before the scan of wakeup1
    | Leaving          // holds lk, wakeup has returned

  datatype State = State(pcs: seq<Pc>, cond: bool, lk: int, ptable: int)   // lock holders, or FREE

  const FREE := -1

  predicate HoldsLk(p: Pc) {
    p in {Testing, Entering, Switching, Setting, Calling, Scanning, Leaving}
  }

  predicate HoldsPtable(p: Pc) {
    p in {Switching, Marking, Scanning}
  }

  predicate Enabled(s: State, t: int) {
    0 <= t < |s.pcs|
    && match s.pcs[t]
       case SleeperIdle => s.lk == FREE
       case Woken => s.lk == FREE
       case WakerIdle => s.lk == FREE
       case Entering => s.ptable == FREE
       case Calling => s.ptable == FREE
       case Asleep => false
       case _ => true
  }

  /** wakeup1 makes every sleeper on the channel runnable. */
  function WakeAll(pcs: seq<Pc>): (r: seq<Pc>)
    ensures |r| == |pcs| && forall i :: 0 <= i < |pcs| ==> r[i] == if pcs[i] == Asleep then Woken else pcs[i]
  {
    seq(|pcs|, i requires 0 <= i < |pcs| => if pcs[i] == Asleep then Woken else pcs[i])
  }

  function Next(s: State, t: int): State
    requires Enabled(s, t)
  {
    var go := (p: Pc) => s.pcs[t := p];
    match s.pcs[t]
    case SleeperIdle => s.(pcs := go(Testing), lk := t)
    case Testing => if s.cond then s.(pcs := go(SleeperIdle), cond := false, lk := FREE)
                    else s.(pcs := go(Entering))
    case Entering => s.(pcs := go(Switching), ptable := t)
    case Switching => s.(pcs := go(Marking), lk := FREE)
    case Marking => s.(pcs := go(Asleep), ptable := FREE)
    case Woken => s.(pcs := go(Testing), lk := t)
    case WakerIdle => s.(pcs := go(Setting), lk := t)
    case Setting => s.(pcs := go(Calling), cond := true)
    case Calling => s.(pcs := go(Scanning), ptable := t)
    case Scanning => s.(pcs := WakeAll(s.pcs)[t := Leaving], ptable := FREE)
    case Leaving => s.(pcs := go(WakerIdle), lk := FREE)
  }

  /** A process wakes up early, as `kill` makes it. */
  function Killed(s: State, t: int): State
    requires 0 <= t < |s.pcs| && s.pcs[t] == Asleep
  {
    s.(pcs := s.pcs[t := Woken])
  }

  ghost predicate LocksOk(s: State) {
    && (forall t :: 0 <= t < |s.pcs| ==> (HoldsLk(s.pcs[t]) <==> s.lk == t))
    && (forall t :: 0 <= t < |s.pcs| ==> (HoldsPtable(s.pcs[t]) <==> s.ptable == t))
    && (s.lk == FREE || 0 <= s.lk < |s.pcs|) && (s.ptable == FREE || 0 <= s.ptable < |s.pcs|)
  }

  /** Committed to sleeping: found the condition false and has not been woken since. */
  predicate Committed(p: Pc) {
    p in {Entering, Switching, Marking, Asleep}
  }

  /** Between making the condition true and having woken the sleepers. */
  predicate WakeupDue(p: Pc) {
    p == Calling || p == Scanning
  }

  ghost predicate NoLostWakeup(s: State) {
    s.cond && (exists t :: 0 <= t < |s.pcs| && Committed(s.pcs[t])) ==>
      0 <= s.lk < |s.pcs| && WakeupDue(s.pcs[s.lk])
  }

  ghost predicate Inv(s: State) {
    LocksOk(s) && NoLostWakeup(s)
  }

  ghost predicate Start(s: State) {
    !s.cond && s.lk == FREE && s.ptable == FREE
    && forall t :: 0 <= t < |s.pcs| ==> s.pcs[t] == SleeperIdle || s.pcs[t] == WakerIdle
  }

  lemma LocksKept(s: State, t: int)
    requires LocksOk(s) && Enabled(s, t)
    ensures LocksOk(Next(s, t))
  {
  }

  /** A waker holds lk, so no sleeper is between its test and release(lk); a sleeper past it
      holds ptable.lock or is asleep, so the scan finds it. */
  lemma WakeupKept(s: State, t: int)
    requires Inv(s) && Enabled(s, t)
    ensures NoLostWakeup(Next(s, t))
  {
    var s' := Next(s, t);
    if s'.cond && exists u :: 0 <= u < |s'.pcs| && Committed(s'.pcs[u]) {
      var u :| 0 <= u < |s'.pcs| && Committed(s'.pcs[u]);
      assert u != t ==> s'.pcs[u] == s.pcs[u];
      assert s.cond && Committed(s.pcs[u]) ==> WakeupDue(s.pcs[s.lk]);
    }
  }

  datatype Move = Go(t: int) | Kill(t: int)

  function Run(s: State, moves: seq<Move>): State
    decreases |moves|
  {
    if moves == [] then s
    else
      var v := Run(s, moves[..|moves| - 1]);
      match moves[|moves| - 1]
      case Go(t) => if Enabled(v, t) then Next(v, t) else v
      case Kill(t) => if 0 <= t < |v.pcs| && v.pcs[t] == Asleep then Killed(v, t) else v
  }

  lemma {:induction false} RunInv(s: State, moves: seq<Move>)
    requires Start(s)
    ensures Inv(Run(s, moves))
    decreases |moves|
  {
    if moves != [] {
      RunInv(s, moves[..|moves| - 1]);
      var v := Run(s, moves[..|moves| - 1]);
      match moves[|moves| - 1]
      case Go(t) =>
        if Enabled(v, t) {
          LocksKept(v, t);
          WakeupKept(v, t);
        }
      case Kill(t) =>
    }
  }

  /** Some waker has made the condition true and no sleeper has taken it since, as the moves tell. */
  predicate Set(s: State, moves: seq<Move>)
    decreases |moves|
  {
    moves != []
    && var most, m := moves[..|moves| - 1], moves[|moves| - 1];
       var v := Run(s, most);
       if m.Go? && Enabled(v, m.t) && v.pcs[m.t] == Setting then true
       else if m.Go? && Enabled(v, m.t) && v.pcs[m.t] == Testing then false
       else Set(s, most)
  }

  lemma {:induction false} CondTold(s: State, moves: seq<Move>)
    requires Start(s)
    ensures Run(s, moves).cond <==> Set(s, moves)
    decreases |moves|
  {
    if moves != [] {
      CondTold(s, moves[..|moves| - 1]);
    }
  }

  /** In every run, a process is asleep while the condition is set only as long as the process
      that made it true is still inside its call of wakeup. */
  lemma NobodySleepsOverTheCondition(s: State, moves: seq<Move>, t: nat)
    requires Start(s) && t < |Run(s, moves).pcs| && Run(s, moves).pcs[t] == Asleep && Set(s, moves)
    ensures var v := Run(s, moves); exists u :: 0 <= u < |v.pcs| && WakeupDue(v.pcs[u])
  {
    RunInv(s, moves);
    CondTold(s, moves);
    assert Committed(Run(s, moves).pcs[t]);
  }

  /** In every run, a sleeper that tests the condition goes on if it is set and into sleep if it is not; when
      wakeup has scanned, nobody is asleep. */
  lemma TestsAndScans(s: State, moves: seq<Move>, t: nat)
    requires Start(s) && Enabled(Run(s, moves), t)
    ensures var v, w := Run(s, moves), Run(s, moves + [Go(t)]);
      && |w.pcs| == |v.pcs|
      && (v.pcs[t] == Testing ==> w.pcs[t] == (if Set(s, moves) then SleeperIdle else Entering) && !Set(s, moves + [Go(t)]))
      && (v.pcs[t] == Scanning ==> forall u :: 0 <= u < |w.pcs| ==> w.pcs[u] != Asleep)
  {
    CondTold(s, moves);
    assert (moves + [Go(t)])[..|moves|] == moves;
  }

  /** Process t moves n times and nobody else does. */
  function Alone(t: nat, n: nat): seq<Move> {
    if n == 0 then [] else Alone(t, n - 1) + [Go(t)]
  }

  lemma RunNone(s: State, t: nat)
    ensures Run(s, Alone(t, 0)) == s
  {
  }

  lemma AloneNext(s: State, t: nat, n: nat)
    requires Enabled(Run(s, Alone(t, n)), t)
    ensures Run(s, Alone(t, n + 1)) == Next(Run(s, Alone(t, n)), t)
  {
    var m := Alone(t, n);
    assert Alone(t, n + 1) == m + [Go(t)] && (m + [Go(t)])[..|m|] == m;
  }

  /** Left alone, a sleeper that finds the condition false is asleep after five moves, and both locks are free. */
  lemma FallsAsleep(s: State, t: nat)
    requires !s.cond && s.lk == FREE && s.ptable == FREE && t < |s.pcs| && s.pcs[t] == SleeperIdle
    ensures Run(s, Alone(t, 5)) == s.(pcs := s.pcs[t := Asleep])
  {
    RunNone(s, t);
    hide Run, Alone;
    AloneNext(s, t, 0);
    AloneNext(s, t, 1);
    assert Run(s, Alone(t, 2)) == s.(pcs := s.pcs[t := Entering], lk := t);
    AloneNext(s, t, 2);
    AloneNext(s, t, 3);
    assert Run(s, Alone(t, 4)) == s.(pcs := s.pcs[t := Marking], ptable := t);
    AloneNext(s, t, 4);
  }

  /** A waker left alone after that has set the condition, woken everybody asleep and let go of
      both locks after five moves; nothing else has changed. */
  lemma WakesEverybody(s: State, u: nat)
    requires s.lk == FREE && s.ptable == FREE && u < |s.pcs| && s.pcs[u] == WakerIdle
    ensures Run(s, Alone(u, 5)) == s.(pcs := WakeAll(s.pcs), cond := true)
  {
    RunNone(s, u);
    hide Run, Alone;
    AloneNext(s, u, 0);
    AloneNext(s, u, 1);
    assert Run(s, Alone(u, 2)) == s.(pcs := s.pcs[u := Calling], cond := true, lk := u);
    AloneNext(s, u, 2);
    AloneNext(s, u, 3);
    assert Run(s, Alone(u, 4)) == s.(pcs := WakeAll(s.pcs)[u := Leaving], cond := true, lk := u);
    AloneNext(s, u, 4);
  }
}
