// What several of the models share.
module Common {

  datatype Option<T> = None | Some(value: T)

  /** The sequence without its element k. */
  function Without<T>(s: seq<T>, k: nat): seq<T>
    requires k < |s|
  {
    s[..k] + s[k + 1..]
  }

  function Between(lo: nat, hi: nat): (r: set<nat>)
    ensures forall i :: i in r <==> lo <= i < hi
    ensures |r| == if lo <= hi then hi - lo else 0
  {
    if lo >= hi then {} else Between(lo, hi - 1) + {hi - 1}
  }

  lemma {:induction false} SubsetSize(a: set<nat>, b: set<nat>)
    requires a <= b
    ensures |a| <= |b|
  {
    if a != {} {
      var x :| x in a;
      SubsetSize(a - {x}, b - {x});
    }
  }
}
