/** Types shared by every component of the relay. */
module Prelude {

  datatype Option<+T> = None | Some(value: T)

  /** A point in time, in whatever unit the component counts in. */
  type Time = int

  function Last<T>(s: seq<T>): T
    requires |s| > 0
  {
    s[|s| - 1]
  }

  /** A map that sends distinct members of xs to distinct members of ys shows |xs| <= |ys|. */
  lemma {:induction false} InjectionBounds<A, B>(xs: set<A>, ys: set<B>, f: map<A, B>)
    requires forall x :: x in xs ==> x in f && f[x] in ys
    requires forall x, y :: x in xs && y in xs && f[x] == f[y] ==> x == y
    ensures |xs| <= |ys|
    decreases xs
  {
    if x :| x in xs {
      InjectionBounds(xs - {x}, ys - {f[x]}, f);
      assert |xs| == |xs - {x}| + 1;
      assert |ys| == |ys - {f[x]}| + 1;
    } else {
      assert xs == {};
    }
  }
}
