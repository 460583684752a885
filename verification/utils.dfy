/**
 The Nesterov step-size multiplier generator and `l2sq` (src/utils.rs).

 The stepper holds the momentum `t` (1 at construction). When acceleration is
 enabled each call computes `t' = (1 + sqrt(4 t^2 + 1)) / 2`, returns
 `omega = (t - 1) / t'` and keeps `t'`; when it is disabled each call returns 0
 and keeps the state. Reals have no square root here, so the caller passes the
 root in and `IsRoot` states what it must be.
 */
module Utils {
  import Misc

  datatype NesterovStepper = NesterovStepper(t: real, accelerated: bool)

  /** A fresh stepper: momentum 1 and the requested acceleration flag. */
  function New(accelerated: bool): (st: NesterovStepper)
    ensures st.t == 1.0 && st.accelerated == accelerated
  {
    NesterovStepper(1.0, accelerated)
  }

  /** `root` is sqrt(4 t^2 + 1) whenever the stepper will use it. */
  predicate IsRoot(st: NesterovStepper, root: real)
  {
    st.accelerated ==> 0.0 <= root && root * root == 4.0 * st.t * st.t + 1.0
  }

  /**
   One call of `omega`: the updated stepper and the multiplier. The new
   momentum t' is the positive solution of t' (t' - 1) = t^2, and the
   multiplier satisfies omega * t' = t - 1.
   */
  function Omega(st: NesterovStepper, root: real): (r: (NesterovStepper, real))
    requires IsRoot(st, root)
    ensures r.0.accelerated == st.accelerated
    ensures !st.accelerated ==> r.0 == st && r.1 == 0.0
    ensures st.accelerated ==> r.0.t > 0.0 && r.0.t * (r.0.t - 1.0) == st.t * st.t
    ensures st.accelerated ==> r.1 * r.0.t == st.t - 1.0
  {
    if st.accelerated then
      var next := 0.5 * (1.0 + root);
      (st.(t := next), (st.t - 1.0) / next)
    else
      (st, 0.0)
  }

  /** Each root in turn is the square root the corresponding call needs. */
  predicate ValidRoots(st: NesterovStepper, roots: seq<real>)
    decreases |roots|
  {
    |roots| == 0 || (IsRoot(st, roots[0]) && ValidRoots(Omega(st, roots[0]).0, roots[1..]))
  }

  /** `|roots|` consecutive calls of `omega`: the final stepper and every multiplier returned. */
  function Omegas(st: NesterovStepper, roots: seq<real>): (r: (NesterovStepper, seq<real>))
    requires ValidRoots(st, roots)
    ensures |r.1| == |roots|
    ensures r.0.accelerated == st.accelerated
    decreases |roots|
  {
    if |roots| == 0 then (st, [])
    else
      var (next, w) := Omega(st, roots[0]);
      var (last, ws) := Omegas(next, roots[1..]);
      (last, [w] + ws)
  }

  /** A disabled stepper accepts any roots, returns 0 every time and never changes. */
  lemma {:induction false} DisabledIsInert(st: NesterovStepper, roots: seq<real>)
    requires !st.accelerated
    ensures ValidRoots(st, roots)
    ensures Omegas(st, roots).0 == st
    ensures forall i :: 0 <= i < |roots| ==> Omegas(st, roots).1[i] == 0.0
    decreases |roots|
  {
    if |roots| > 0 {
      DisabledIsInert(st, roots[1..]);
    }
  }

  /** With t >= 1 the momentum grows by more than one half and the multiplier lies in [0, 1). */
  lemma OmegaStep(st: NesterovStepper, root: real)
    requires st.accelerated && st.t >= 1.0
    requires IsRoot(st, root)
    ensures Omega(st, root).0.t > st.t + 0.5
    ensures 0.0 <= Omega(st, root).1 < 1.0
    ensures st.t == 1.0 ==> Omega(st, root).1 == 0.0
  {
    var t := st.t;
    if root <= 2.0 * t {
      assert (2.0 * t) * (2.0 * t) == 4.0 * t * t;
      SquareMonotone(root, 2.0 * t);
      assert false;
    }
    var (next, w) := Omega(st, root);
    assert next.t > t + 0.5;
    assert w * next.t == t - 1.0;
    if w < 0.0 {
      MulLeft(w, 0.0, next.t);
      assert false;
    }
    if w >= 1.0 {
      MulLeft(1.0, w, next.t);
      assert false;
    }
  }

  /** Multiplying both sides of `a <= b` by a nonnegative `c` keeps the order. */
  lemma MulLeft(a: real, b: real, c: real)
    requires a <= b && c >= 0.0
    ensures a * c <= b * c
  {
    assert b * c - a * c == (b - a) * c;
  }

  lemma SquareMonotone(a: real, b: real)
    requires 0.0 <= a <= b
    ensures a * a <= b * b
  {
    MulLeft(a, b, a);
    MulLeft(a, b, b);
    assert b * a == a * b;
  }

  /** An upper bound on the next momentum: t' < t + 1/2 + 1/(8t). */
  lemma NextMomentumBound(t: real, next: real)
    requires t >= 1.0 && next > 0.0
    requires next * (next - 1.0) == t * t
    ensures t + 0.5 < next < t + 0.5 + 1.0 / (8.0 * t)
  {
    var e := 1.0 / (8.0 * t);
    assert e * t == 0.125;
    assert e > 0.0;
    var u := t + 0.5 + e;
    assert u * (u - 1.0) == t * t + e * e;
    var a, c := next - u, next + u - 1.0;
    assert a * c == next * (next - 1.0) - u * (u - 1.0);
    PositiveProduct(e, e);
    NegativeFactor(a, c);
    var v := t + 0.5;
    assert v * (v - 1.0) == t * t - 0.25;
    var a', c' := v - next, v + next - 1.0;
    assert a' * c' == v * (v - 1.0) - next * (next - 1.0);
    NegativeFactor(a', c');
  }

  /** The product of two positive reals is positive. */
  lemma PositiveProduct(a: real, b: real)
    requires a > 0.0 && b > 0.0
    ensures a * b > 0.0
  {
  }

  /** A factor of a negative product whose other factor is positive is negative. */
  lemma NegativeFactor(a: real, c: real)
    requires a * c < 0.0 && c > 0.0
    ensures a < 0.0
  {
    if a >= 0.0 {
      MulLeft(0.0, a, c);
    }
  }

  /** 1/(8b) < 1/(8a) for 0 < a < b. */
  lemma EighthAntitone(a: real, b: real)
    requires 0.0 < a < b
    ensures 1.0 / (8.0 * b) < 1.0 / (8.0 * a)
  {
    var ea, eb := 1.0 / (8.0 * a), 1.0 / (8.0 * b);
    assert ea * (8.0 * a) == 1.0 && eb * (8.0 * b) == 1.0;
    if eb >= ea {
      MulLeft(ea, eb, 8.0 * a);
      MulLeft(8.0 * a, 8.0 * b, eb);
      assert false;
    }
  }

  /** (t - 1)(t + 1 + 2/(8t)) = t^2 - 3/4 - 2/(8t). */
  lemma BoundProduct(t: real)
    requires t >= 1.0
    ensures (t - 1.0) * (t + 1.0 + 2.0 * (1.0 / (8.0 * t))) == t * t - 0.75 - 2.0 * (1.0 / (8.0 * t))
  {
    var e := 1.0 / (8.0 * t);
    assert e * t == 0.125;
    assert (t - 1.0) * (t + 1.0 + 2.0 * e) == t * t - 1.0 + 2.0 * (e * t) - 2.0 * e;
  }

  /** Two steps of the momentum recurrence from t >= 1 satisfy (t - 1) t'' < t' (t' - 1). */
  lemma TwoStepBound(t: real, t1: real, t2: real)
    requires t >= 1.0 && t1 > 0.0 && t2 > 0.0
    requires t1 * (t1 - 1.0) == t * t
    requires t2 * (t2 - 1.0) == t1 * t1
    ensures (t - 1.0) * t2 < t1 * (t1 - 1.0)
  {
    NextMomentumBound(t, t1);
    NextMomentumBound(t1, t2);
    EighthAntitone(t, t1);
    var e := 1.0 / (8.0 * t);
    var bound := t + 1.0 + 2.0 * e;
    assert t2 < bound;
    MulLeft(t2, bound, t - 1.0);
    BoundProduct(t);
    assert e > 0.0;
  }

  /** From w1 t1 = t - 1, w2 t2 = t1 - 1 and (t - 1) t2 < t1 (t1 - 1) it follows that w1 < w2. */
  lemma MultiplierOrder(t: real, t1: real, t2: real, w1: real, w2: real)
    requires t1 > 0.0 && t2 > 0.0
    requires w1 * t1 == t - 1.0 && w2 * t2 == t1 - 1.0
    requires (t - 1.0) * t2 < t1 * (t1 - 1.0)
    ensures w1 < w2
  {
    assert w1 * (t1 * t2) == (t - 1.0) * t2;
    assert w2 * (t1 * t2) == t1 * (t1 - 1.0);
    if w1 >= w2 {
      MulLeft(w2, w1, t1 * t2);
      assert false;
    }
  }

  /** Two consecutive multipliers of an accelerated stepper with t >= 1 strictly increase. */
  lemma OmegaIncreases(st: NesterovStepper, root1: real, root2: real)
    requires st.accelerated && st.t >= 1.0
    requires IsRoot(st, root1)
    requires IsRoot(Omega(st, root1).0, root2)
    ensures Omega(st, root1).1 < Omega(Omega(st, root1).0, root2).1
  {
    var (st1, w1) := Omega(st, root1);
    var (st2, w2) := Omega(st1, root2);
    TwoStepBound(st.t, st1.t, st2.t);
    MultiplierOrder(st.t, st1.t, st2.t, w1, w2);
  }

  /**
   Consecutive calls of an accelerated stepper started at t >= 1 return
   multipliers in [0, 1) that strictly increase, and after n calls the momentum
   is at least its starting value plus n/2.
   */
  lemma {:induction false} AcceleratedSequence(st: NesterovStepper, roots: seq<real>)
    requires st.accelerated && st.t >= 1.0
    requires ValidRoots(st, roots)
    ensures Omegas(st, roots).0.t >= st.t + 0.5 * |roots| as real
    ensures forall i :: 0 <= i < |roots| ==> 0.0 <= Omegas(st, roots).1[i] < 1.0
    ensures forall i, j :: 0 <= i < j < |roots| ==> Omegas(st, roots).1[i] < Omegas(st, roots).1[j]
    decreases |roots|
  {
    if |roots| > 0 {
      OmegaStep(st, roots[0]);
      var (next, w) := Omega(st, roots[0]);
      var rest := roots[1..];
      AcceleratedSequence(next, rest);
      var ws := Omegas(st, roots).1;
      assert ws == [w] + Omegas(next, rest).1;
      if |rest| > 0 {
        OmegaIncreases(st, roots[0], rest[0]);
        assert w < ws[1];
      }
      forall i, j | 0 <= i < j < |roots|
        ensures ws[i] < ws[j]
      {
        if i == 0 && j > 1 {
          assert ws[1] < ws[j];
        }
      }
    }
  }

  /** The first call of a freshly built accelerated stepper returns 0. */
  lemma FirstOmegaIsZero(root: real)
    requires IsRoot(New(true), root)
    ensures Omega(New(true), root).1 == 0.0
  {
    OmegaStep(New(true), root);
  }

  /** `l2sq`: the sum of the squared elements, accumulated by a loop. */
  method L2sq(x: seq<real>) returns (sum: real)
    ensures sum == Misc.SumOfSquares(x)
    ensures sum >= 0.0
  {
    sum := 0.0;
    for i := 0 to |x|
      invariant sum == Misc.SumOfSquares(x[..i])
    {
      assert x[..i + 1][..i] == x[..i];
      sum := sum + x[i] * x[i];
    }
    assert x[..|x|] == x;
    Misc.SumOfSquaresNonNegative(x);
  }
}
