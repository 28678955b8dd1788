// The stride scheduler of 2b/proc.c.
module Stride {

  datatype State = UNUSED | EMBRYO | SLEEPING | RUNNABLE | RUNNING | ZOMBIE

  datatype Proc = Proc(state: State, tickets: int, stride: int, pass: int, usage: int)

  type Table = seq<Proc>

  const NUMERATOR := 10000

  predicate Active(p: Proc) {
    p.state == RUNNABLE
  }

  ghost predicate SomeActive(ps: Table) {
    exists k :: 0 <= k < |ps| && Active(ps[k])
  }

  /** k is the first runnable slot whose pass no runnable slot undercuts. */
  ghost predicate IsPick(ps: Table, k: int) {
    && 0 <= k < |ps| && Active(ps[k])
    && (forall j :: 0 <= j < |ps| && Active(ps[j]) ==> ps[k].pass <= ps[j].pass)
    && (forall j :: 0 <= j < k && Active(ps[j]) ==> ps[k].pass < ps[j].pass)
  }

  /** No runnable slot has a pass that could be taken for the sentinel. */
  ghost predicate PassesOk(ps: Table) {
    forall j :: 0 <= j < |ps| && Active(ps[j]) ==> ps[j].pass >= 0
  }

  /** The selection loop of `scheduler`, with its sentinel -1. */
  method Select(ps: Table) returns (current: nat)
    requires SomeActive(ps) && PassesOk(ps)
    ensures IsPick(ps, current)
  {
    current := 0;
    var minPass := -1;
    for i := 0 to |ps|
      invariant minPass < 0 ==> forall j :: 0 <= j < i ==> !Active(ps[j])
      invariant minPass >= 0 ==> current < i && minPass == ps[current].pass && IsPick(ps[..i], current)
    {
      if Active(ps[i]) && (minPass < 0 || ps[i].pass < minPass) {
        current := i;
        minPass := ps[i].pass;
      }
    }
    assert ps[..|ps|] == ps;
  }

  lemma {:induction false} PickExists(ps: Table)
    requires SomeActive(ps)
    ensures exists k :: IsPick(ps, k)
  {
    var k :| 0 <= k < |ps| && Active(ps[k]);
    var i := 0;
    while i < |ps|
      invariant 0 <= i <= |ps| && 0 <= k < |ps| && Active(ps[k])
      invariant forall j :: 0 <= j < i && Active(ps[j]) ==>
        ps[k].pass <= ps[j].pass && (j < k ==> ps[k].pass < ps[j].pass)
    {
      if Active(ps[i]) && (ps[i].pass < ps[k].pass || (ps[i].pass == ps[k].pass && i < k)) {
        k := i;
      }
      i := i + 1;
    }
    assert IsPick(ps, k);
  }

  ghost function Pick(ps: Table): (k: nat)
    requires SomeActive(ps)
    ensures IsPick(ps, k)
  {
    PickExists(ps);
    var k :| IsPick(ps, k);
    k
  }

  /** One turn: the pick is charged its stride, runs, and yields. */
  ghost function Turn(ps: Table): (r: Table)
    requires SomeActive(ps)
    ensures SomeActive(r)
  {
    var k := Pick(ps);
    var r := ps[k := ps[k].(pass := ps[k].pass + ps[k].stride, usage := ps[k].usage + 1)];
    assert Active(r[k]);
    r
  }

  ghost function Turns(ps: Table, n: nat): (r: Table)
    requires SomeActive(ps)
    ensures SomeActive(r)
  {
    if n == 0 then ps else Turn(Turns(ps, n - 1))
  }

  lemma Quotient(tix: int)
    requires tix >= 1
    ensures var q := NUMERATOR / tix;
      tix * q <= 10000 < tix * (q + 1) && tix * q == (-tix) * (-q) && tix * (q + 1) == (-tix) * (-q - 1)
  {
    var q := NUMERATOR / tix;
    assert NUMERATOR == tix * q + NUMERATOR % tix;
    assert tix * (q + 1) == tix * q + tix;
  }

  class Cpu {
    var procs: Table

    /** `allocproc` and the end of `fork`: passes stay level exactly if nobody's exceeds its own stride,
        and a newcomer whom everybody has outrun by n strides gets the next n turns. */
    method Arrive(slot: nat)
      requires slot < |procs| && procs[slot].state == UNUSED
      modifies this
      ensures procs == old(procs)[slot := Proc(RUNNABLE, 1, NUMERATOR, 0, old(procs)[slot].usage)]
      ensures old(Level(procs) && PassesOk(procs)) ==> (Level(procs) <==> old(WithinStride(procs)))
      ensures forall n: nat :: SomeActive(procs) && Outrun(procs, slot, n) ==>
        |Turns(procs, n)| == |procs| && Turns(procs, n)[slot].usage == old(procs)[slot].usage + n
    {
      procs := procs[slot := procs[slot].(state := EMBRYO, tickets := 1, pass := 0)];
      procs := procs[slot := procs[slot].(stride := NUMERATOR / procs[slot].tickets)];
      procs := procs[slot := procs[slot].(state := RUNNABLE)];
      if old(Level(procs) && PassesOk(procs)) {
        ArrivalLevel(old(procs), slot, procs[slot]);
      }
      forall n: nat | SomeActive(procs) && Outrun(procs, slot, n)
        ensures |Turns(procs, n)| == |procs| && Turns(procs, n)[slot].usage == old(procs)[slot].usage + n
      {
        LateArrivalMonopolises(procs, slot, n);
      }
    }

    /** `sys_settickets`; a count of zero is a division fault there. */
    method SetTickets(slot: nat, tix: int)
      requires slot < |procs| && tix != 0
      modifies this
      ensures |procs| == |old(procs)|
      ensures procs == old(procs)[slot := old(procs)[slot].(tickets := tix, stride := procs[slot].stride)]
      ensures procs[slot].stride >= 1 <==> 1 <= tix <= NUMERATOR
      ensures 1 <= tix && NUMERATOR % tix == 0 ==> tix * procs[slot].stride == NUMERATOR
      ensures 1 <= tix ==> tix * procs[slot].stride <= 10000 < tix * (procs[slot].stride + 1)
      ensures tix <= -1 ==> tix * procs[slot].stride <= 10000 < tix * (procs[slot].stride - 1)
    {
      Quotient(if tix > 0 then tix else -tix);
      var stride := if tix > 0 then NUMERATOR / tix else -(NUMERATOR / -tix);
      procs := procs[slot := procs[slot].(tickets := tix, stride := stride)];
    }

    /** From the scheduler's choice until the chosen process yields. */
    method Round() returns (current: nat)
      requires SomeActive(procs) && PassesOk(procs)
      modifies this
      ensures current == old(Pick(procs))
      ensures procs == old(Turn(procs))
    {
      current := Select(procs);
      assert Pick(procs) == current;
      procs := procs[current := procs[current].(pass := procs[current].pass + procs[current].stride)];
      procs := procs[current := procs[current].(state := RUNNING, usage := procs[current].usage + 1)];
      procs := procs[current := procs[current].(state := RUNNABLE)];
    }
  }

  // ------------------------------------------------------------ fairness

  /** Every runnable process has charged itself at most one stride more than any other. */
  ghost predicate Level(ps: Table) {
    && (forall i :: 0 <= i < |ps| && Active(ps[i]) ==> ps[i].stride >= 1)
    && (forall i, j :: 0 <= i < |ps| && 0 <= j < |ps| && Active(ps[i]) && Active(ps[j]) ==>
          ps[i].pass <= ps[j].pass + ps[i].stride)
  }

  ghost predicate WithinStride(ps: Table) {
    forall j :: 0 <= j < |ps| && Active(ps[j]) ==> ps[j].pass <= ps[j].stride
  }

  /** A process that becomes runnable at pass zero leaves the passes level exactly if all are within their strides. */
  lemma ArrivalLevel(ps: Table, slot: nat, p: Proc)
    requires slot < |ps| && !Active(ps[slot]) && Level(ps) && PassesOk(ps)
    requires Active(p) && p.pass == 0 && p.stride >= 1
    ensures Level(ps[slot := p]) <==> WithinStride(ps)
  {
    var qs := ps[slot := p];
    if Level(qs) {
      forall j | 0 <= j < |ps| && Active(ps[j]) ensures ps[j].pass <= ps[j].stride {
        assert qs[j] == ps[j] && qs[j].pass <= qs[slot].pass + qs[j].stride;
      }
    }
    if WithinStride(ps) {
      forall i, j | 0 <= i < |qs| && 0 <= j < |qs| && Active(qs[i]) && Active(qs[j])
        ensures qs[i].pass <= qs[j].pass + qs[i].stride
      {
        assert i == slot || qs[i] == ps[i];
        assert j == slot || qs[j] == ps[j];
      }
    }
  }

  lemma TurnLevel(ps: Table)
    requires SomeActive(ps) && Level(ps)
    ensures Level(Turn(ps))
  {
  }

  /** Everything but pass and usage is as it was. */
  ghost predicate SameStrides(ps: Table, qs: Table) {
    |ps| == |qs| && forall i :: 0 <= i < |ps| ==>
      qs[i].state == ps[i].state && qs[i].stride == ps[i].stride
  }

  ghost predicate Start(ps: Table) {
    SomeActive(ps)
    && forall i :: 0 <= i < |ps| && Active(ps[i]) ==> ps[i].pass == 0 && ps[i].stride >= 1
  }

  /** Passes count the usage gained, in strides. */
  ghost predicate Charged(ps: Table, qs: Table) {
    SameStrides(ps, qs)
    && forall i :: 0 <= i < |ps| && Active(ps[i]) ==>
         qs[i].usage >= ps[i].usage && qs[i].pass == (qs[i].usage - ps[i].usage) * ps[i].stride
  }

  lemma {:induction false} TurnsCharged(ps: Table, n: nat)
    requires Start(ps)
    ensures Charged(ps, Turns(ps, n)) && Level(Turns(ps, n))
  {
    if n > 0 {
      hide Charged, Level, Turn;
      TurnsCharged(ps, n - 1);
      TurnLevel(Turns(ps, n - 1));
      TurnCharged(ps, Turns(ps, n - 1));
    }
  }

  lemma TurnCharged(ps: Table, qs: Table)
    requires Charged(ps, qs) && SomeActive(qs)
    ensures Charged(ps, Turn(qs))
  {
    var k := Pick(qs);
    var u := qs[k].usage - ps[k].usage;
    assert (u + 1) * ps[k].stride == u * ps[k].stride + ps[k].stride;
  }

  function Gained(ps: Table, qs: Table, i: nat): int
    requires i < |ps| == |qs|
  {
    qs[i].usage - ps[i].usage
  }

  /** After any number of turns two processes differ by no more than one stride of service. */
  lemma FairPair(ps: Table, n: nat, i: nat, j: nat)
    requires Start(ps) && i < |ps| && j < |ps| && Active(ps[i]) && Active(ps[j])
    ensures |Turns(ps, n)| == |ps|
    ensures var qs := Turns(ps, n);
      -ps[j].stride <= Gained(ps, qs, i) * ps[i].stride - Gained(ps, qs, j) * ps[j].stride <= ps[i].stride
  {
    TurnsCharged(ps, n);
  }

  // ------------------------------------------------------- no starvation

  /** How often a pass that trails by d can be charged s before it leads. */
  function Charges(d: int, s: int): (c: nat)
    requires s >= 1
    ensures d < 0 ==> c == 0
    ensures d >= 0 ==> (c - 1) * s <= d < c * s
    decreases if d < 0 then 0 else d + 1
  {
    if d < 0 then 0 else 1 + Charges(d - s, s)
  }

  lemma {:induction false} ChargesMonotone(d: int, e: int, s: int)
    requires s >= 1 && d <= e
    ensures Charges(d, s) <= Charges(e, s)
    decreases if d < 0 then 0 else d + 1
  {
    if d >= 0 {
      ChargesMonotone(d - s, e - s, s);
    }
  }

  /** Turns process j can still take before it stops being ahead of process i in the queue. */
  function TurnsBefore(p: Proc, q: Proc): nat {
    if Active(q) && q.stride >= 1 then Charges(p.pass - q.pass, q.stride) else 0
  }

  function Queue(ps: Table, i: nat): (t: nat)
    requires i < |ps|
  {
    QueueFrom(ps, i, |ps|)
  }

  function QueueFrom(ps: Table, i: nat, k: nat): nat
    requires i < |ps| && k <= |ps|
  {
    if k == 0 then 0
    else QueueFrom(ps, i, k - 1) + if k - 1 == i then 0 else TurnsBefore(ps[i], ps[k - 1])
  }

  /** The longest wait the strides allow. */
  function WaitBound(ps: Table, i: nat, k: nat): nat
    requires i < |ps| && k <= |ps|
  {
    if k == 0 then 0
    else if k - 1 == i || !Active(ps[k - 1]) || ps[k - 1].stride < 1 then WaitBound(ps, i, k - 1)
    else WaitBound(ps, i, k - 1) + Charges(ps[i].stride, ps[k - 1].stride)
  }

  lemma {:induction false} QueueBounded(ps: Table, i: nat, k: nat)
    requires Level(ps) && i < |ps| && k <= |ps| && Active(ps[i])
    ensures QueueFrom(ps, i, k) <= WaitBound(ps, i, k)
  {
    if k > 0 {
      QueueBounded(ps, i, k - 1);
      if k - 1 != i && Active(ps[k - 1]) {
        ChargesMonotone(ps[i].pass - ps[k - 1].pass, ps[i].stride, ps[k - 1].stride);
      }
    }
  }

  lemma {:induction false} QueueShrinks(ps: Table, qs: Table, i: nat, c: nat, k: nat)
    requires i < |ps| && c < |ps| == |qs| && c != i && k <= |ps|
    requires Active(ps[c]) && ps[c].stride >= 1 && ps[c].pass <= ps[i].pass
    requires qs == ps[c := ps[c].(pass := ps[c].pass + ps[c].stride, usage := ps[c].usage + 1)]
    ensures QueueFrom(qs, i, k) == QueueFrom(ps, i, k) - if c < k then 1 else 0
  {
    if k > 0 {
      QueueShrinks(ps, qs, i, c, k - 1);
      if k - 1 == c {
        assert TurnsBefore(qs[i], qs[c]) == Charges(ps[i].pass - ps[c].pass - ps[c].stride, ps[c].stride);
      }
    }
  }

  lemma {:induction false} WaitShrinks(ps: Table, i: nat, n: nat)
    requires SomeActive(ps) && Level(ps) && i < |ps| && Active(ps[i])
    requires forall m :: 0 <= m < n ==> Pick(Turns(ps, m)) != i
    ensures |Turns(ps, n)| == |ps| && Level(Turns(ps, n)) && Active(Turns(ps, n)[i])
    ensures Queue(Turns(ps, n), i) + n == Queue(ps, i)
  {
    if n > 0 {
      WaitShrinks(ps, i, n - 1);
      var qs := Turns(ps, n - 1);
      TurnLevel(qs);
      assert Pick(qs) != i;
      QueueShrinks(qs, Turn(qs), i, Pick(qs), |qs|);
    }
  }

  /** Whatever level state the table is in, slot i is picked within WaitBound turns. */
  lemma NoStarvation(ps: Table, i: nat)
    requires SomeActive(ps) && Level(ps) && i < |ps| && Active(ps[i])
    ensures exists m :: 0 <= m <= WaitBound(ps, i, |ps|) && Pick(Turns(ps, m)) == i
  {
    var w := WaitBound(ps, i, |ps|);
    if forall m :: 0 <= m <= w ==> Pick(Turns(ps, m)) != i {
      WaitShrinks(ps, i, w + 1);
      QueueBounded(ps, i, |ps|);
    }
  }

  // --------------------------------------------------- proportional share

  /** Total over the runnable slots below k of the turns gained since ps. */
  function Served(ps: Table, qs: Table, k: nat): int
    requires k <= |ps| == |qs|
  {
    if k == 0 then 0
    else Served(ps, qs, k - 1) + if Active(ps[k - 1]) then Gained(ps, qs, k - 1) else 0
  }

  lemma {:induction false} ServedNone(ps: Table, k: nat)
    requires k <= |ps|
    ensures Served(ps, ps, k) == 0
  {
    if k > 0 { ServedNone(ps, k - 1); }
  }

  lemma {:induction false} ServedOneMore(ps: Table, qs: Table, rs: Table, c: nat, k: nat)
    requires c < |ps| == |qs| == |rs| && k <= |ps| && Active(ps[c])
    requires rs[c].usage == qs[c].usage + 1
    requires forall j :: 0 <= j < |ps| && j != c ==> rs[j].usage == qs[j].usage
    ensures Served(ps, rs, k) == Served(ps, qs, k) + if c < k then 1 else 0
  {
    if k > 0 { ServedOneMore(ps, qs, rs, c, k - 1); }
  }

  /** Every turn serves exactly one process. */
  lemma {:induction false} ServedCounts(ps: Table, n: nat)
    requires Start(ps)
    ensures |Turns(ps, n)| == |ps| && Served(ps, Turns(ps, n), |ps|) == n
  {
    TurnsCharged(ps, n);
    if n == 0 {
      ServedNone(ps, |ps|);
    } else {
      TurnsCharged(ps, n - 1);
      ServedCounts(ps, n - 1);
      var qs := Turns(ps, n - 1);
      ServedOneMore(ps, qs, Turn(qs), Pick(qs), |ps|);
    }
  }

  function Weight(ps: Table, w: seq<int>, k: nat): int
    requires k <= |ps| == |w|
  {
    if k == 0 then 0 else Weight(ps, w, k - 1) + if Active(ps[k - 1]) then w[k - 1] else 0
  }

  function Count(ps: Table, k: nat): nat
    requires k <= |ps|
  {
    if k == 0 then 0 else Count(ps, k - 1) + if Active(ps[k - 1]) then 1 else 0
  }

  /** Weights are inversely proportional to strides; tickets are, when they divide NUMERATOR. */
  ghost predicate Weighs(ps: Table, w: seq<int>, unit: int) {
    |w| == |ps| && unit >= 1
    && forall i :: 0 <= i < |ps| && Active(ps[i]) ==> w[i] >= 1 && w[i] * ps[i].stride == unit
  }

  lemma WeighOne(u: int, s: int, w: int, unit: int, x: int, y: int)
    requires w >= 1 && w * s == unit && x <= u * s <= y + s
    ensures w * x <= unit * u <= w * y + unit
  {
    calc { unit * u; w * s * u; w * (u * s); }
    assert w * x <= w * (u * s) <= w * (y + s);
    assert w * (y + s) == w * y + w * s;
  }

  lemma {:induction false} ShareSum(ps: Table, qs: Table, w: seq<int>, unit: int, i: nat, k: nat)
    requires Charged(ps, qs) && Level(qs) && Weighs(ps, w, unit)
    requires i < |ps| && Active(ps[i]) && k <= |ps|
    ensures var x := Gained(ps, qs, i) * ps[i].stride;
      && Weight(ps, w, k) * (x - ps[i].stride) <= unit * Served(ps, qs, k)
      && unit * Served(ps, qs, k) <= Weight(ps, w, k) * x + unit * Count(ps, k)
  {
    var x := Gained(ps, qs, i) * ps[i].stride;
    if k > 0 {
      ShareSum(ps, qs, w, unit, i, k - 1);
      if Active(ps[k - 1]) {
        WeighOne(Gained(ps, qs, k - 1), ps[k - 1].stride, w[k - 1], unit, x - ps[i].stride, x);
        AddShare(Weight(ps, w, k - 1), w[k - 1], x, x - ps[i].stride, unit,
                 Served(ps, qs, k - 1), Gained(ps, qs, k - 1), Count(ps, k - 1));
      }
    }
  }

  lemma AddShare(a: int, v: int, x: int, y: int, unit: int, g: int, h: int, c: int)
    requires a * y <= unit * g <= a * x + unit * c
    requires v * y <= unit * h <= v * x + unit
    ensures (a + v) * y <= unit * (g + h) <= (a + v) * x + unit * (c + 1)
  {
    assert (a + v) * y == a * y + v * y && (a + v) * x == a * x + v * x;
    assert unit * (g + h) == unit * g + unit * h && unit * (c + 1) == unit * c + unit;
  }

  lemma Cancel(unit: int, a: int, b: int)
    requires unit >= 1 && unit * a <= unit * b
    ensures a <= b
  {
    assert a > b ==> unit * (a - b) >= 1;
  }

  /** After n turns each process has had its share of them, to within one turn each. */
  lemma ProportionalShare(ps: Table, n: nat, w: seq<int>, unit: int, i: nat)
    requires Start(ps) && Weighs(ps, w, unit) && i < |ps| && Active(ps[i])
    ensures |Turns(ps, n)| == |ps|
    ensures var u, total := Gained(ps, Turns(ps, n), i), Weight(ps, w, |ps|);
      && total * (u - 1) <= n * w[i]
      && n * w[i] <= total * u + Count(ps, |ps|) * w[i]
  {
    TurnsCharged(ps, n);
    ServedCounts(ps, n);
    var qs := Turns(ps, n);
    ShareSum(ps, qs, w, unit, i, |ps|);
    var u, total, c, s := Gained(ps, qs, i), Weight(ps, w, |ps|), Count(ps, |ps|), ps[i].stride;
    ScaleShare(total, u, s, w[i], unit, n, c);
  }

  lemma MulOrder(a: int, b: int, w: int)
    requires a <= b && w >= 0
    ensures a * w <= b * w
  {
  }

  lemma Regroup(total: int, u: int, s: int, w: int, unit: int, c: int)
    requires unit == w * s
    ensures (total * (u * s)) * w == unit * (total * u)
    ensures (unit * c) * w == unit * (c * w)
  {
    calc { (total * (u * s)) * w; ((total * u) * s) * w; (total * u) * (w * s); }
  }

  lemma ScaleShare(total: int, u: int, s: int, w: int, unit: int, n: int, c: int)
    requires w >= 1 && unit >= 1 && w * s == unit
    requires total * (u * s - s) <= unit * n <= total * (u * s) + unit * c
    ensures total * (u - 1) <= n * w && n * w <= total * u + c * w
  {
    assert u * s - s == (u - 1) * s;
    MulOrder(total * ((u - 1) * s), unit * n, w);
    MulOrder(unit * n, total * (u * s) + unit * c, w);
    Regroup(total, u - 1, s, w, unit, n);
    Regroup(total, u, s, w, unit, c);
    assert (total * (u * s) + unit * c) * w == (total * (u * s)) * w + (unit * c) * w;
    assert unit * (total * u) + unit * (c * w) == unit * (total * u + c * w);
    Cancel(unit, total * (u - 1), n * w);
    Cancel(unit, n * w, total * u + c * w);
  }

  // ------------------------------------------------------- late arrivals

  lemma PickIs(ps: Table, i: nat)
    requires SomeActive(ps) && i < |ps| && Active(ps[i])
    requires forall j :: 0 <= j < |ps| && j != i && Active(ps[j]) ==> ps[i].pass < ps[j].pass
    ensures Pick(ps) == i
  {
    assert IsPick(ps, Pick(ps));
  }

  /** Everybody runnable is more than n strides of process i ahead of it. */
  ghost predicate Outrun(ps: Table, i: nat, n: nat)
    requires i < |ps|
  {
    forall j :: 0 <= j < |ps| && j != i && Active(ps[j]) ==> ps[i].pass + n * ps[i].stride < ps[j].pass
  }

  /** A process that starts far behind, as `allocproc` makes every new one, keeps the CPU. */
  lemma {:induction false} LateArrivalMonopolises(ps: Table, i: nat, n: nat)
    requires SomeActive(ps) && i < |ps| && Active(ps[i]) && ps[i].stride >= 1
    requires Outrun(ps, i, n)
    ensures Turns(ps, n) == ps[i := ps[i].(pass := ps[i].pass + n * ps[i].stride, usage := ps[i].usage + n)]
    ensures Pick(Turns(ps, n)) == i
  {
    var s := ps[i].stride;
    if n > 0 {
      assert n * s == (n - 1) * s + s;
      LateArrivalMonopolises(ps, i, n - 1);
      assert Turns(ps, n) == Turn(Turns(ps, n - 1));
    } else {
      assert 0 * s == 0;
    }
    var qs := Turns(ps, n);
    assert qs == ps[i := ps[i].(pass := ps[i].pass + n * s, usage := ps[i].usage + n)];
    forall j | 0 <= j < |qs| && j != i && Active(qs[j]) ensures qs[i].pass < qs[j].pass {
      assert qs[j] == ps[j];
    }
    PickIs(qs, i);
  }
}
