/** Small types shared by every module. */
module Base {

  datatype Option<+T> = None | Some(value: T)

  /** Instants and durations in milliseconds, as `Date.now()` counts them. */
  type Time = nat

  /** A login challenge lives five minutes and takes five answers. */
  const CHALLENGE_SECONDS := 5 * 60
  const CHALLENGE_LIFE: Time := CHALLENGE_SECONDS * 1000
  const CHALLENGE_ANSWERS := 5

  /** Induction along a run. */
  lemma {:induction false} Climb(p: nat -> bool, lo: nat, hi: nat)
    requires lo <= hi && p(lo)
    requires forall k | lo <= k < hi && p(k) :: p(k + 1)
    ensures p(hi)
    decreases hi
  {
    if lo < hi { Climb(p, lo, hi - 1); }
  }

  /** There is always another number to draw. */
  lemma {:induction false} FreshBeyond(s: set<nat>) returns (n: nat)
    ensures forall x | x in s :: x < n
  {
    n := 0;
    if s != {} {
      var x :| x in s;
      var m := FreshBeyond(s - {x});
      n := if m <= x then x + 1 else m;
      assert forall y | y in s :: y == x || y in s - {x};
    }
  }

  /** Division rounding up. */
  function CeilDiv(a: nat, b: nat): nat
    requires b > 0
  {
    (a + b - 1) / b
  }
}
