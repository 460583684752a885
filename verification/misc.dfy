/**
 The crate's vector arithmetic (src/misc.rs). Vectors are sequences of exact
 reals; every operation produces a fresh sequence. The binary operations that
 can fail report `ParameterLengthMismatch` when their operands differ in
 length; `VecMul` instead demands equal lengths of its caller, as the source
 aborts on a mismatch.
 */
module Misc {
  import opened Common

  /** Applies `op` to every element. */
  function Map(x: seq<real>, op: real -> real): (r: seq<real>)
    ensures |r| == |x|
    ensures forall i :: 0 <= i < |x| ==> r[i] == op(x[i])
  {
    if |x| == 0 then [] else [op(x[0])] + Map(x[1..], op)
  }

  /** Applies `op` to every pair of elements at the same index. */
  function Zip(a: seq<real>, b: seq<real>, op: (real, real) -> real): (r: seq<real>)
    requires |a| == |b|
    ensures |r| == |a|
    ensures forall i :: 0 <= i < |a| ==> r[i] == op(a[i], b[i])
  {
    if |a| == 0 then [] else [op(a[0], b[0])] + Zip(a[1..], b[1..], op)
  }

  /** Elementwise sum; fails exactly when the lengths differ. */
  function VecAdd(a: seq<real>, b: seq<real>): (r: Result<seq<real>>)
    ensures r.Err? <==> |a| != |b|
    ensures r.Err? ==> r.error == ParameterLengthMismatch
    ensures r.Ok? ==> |r.value| == |a| && forall i :: 0 <= i < |a| ==> r.value[i] == a[i] + b[i]
  {
    if |a| != |b| then Err(ParameterLengthMismatch) else Ok(Zip(a, b, (u, v) => u + v))
  }

  /** Elementwise difference `a - b`; fails exactly when the lengths differ. */
  function VecSub(a: seq<real>, b: seq<real>): (r: Result<seq<real>>)
    ensures r.Err? <==> |a| != |b|
    ensures r.Err? ==> r.error == ParameterLengthMismatch
    ensures r.Ok? ==> |r.value| == |a| && forall i :: 0 <= i < |a| ==> r.value[i] == a[i] - b[i]
  {
    if |a| != |b| then Err(ParameterLengthMismatch) else Ok(Zip(a, b, (u, v) => u - v))
  }

  /** Subtracts `scalar` from every element; never fails. */
  function VecSubScalar(x: seq<real>, scalar: real): (r: seq<real>)
    ensures |r| == |x|
    ensures forall i :: 0 <= i < |x| ==> r[i] == x[i] - scalar
  {
    Map(x, u => u - scalar)
  }

  /** Multiplies every element by `scalar`; never fails. */
  function VecMulScalar(x: seq<real>, scalar: real): (r: seq<real>)
    ensures |r| == |x|
    ensures forall i :: 0 <= i < |x| ==> r[i] == x[i] * scalar
  {
    Map(x, u => u * scalar)
  }

  /** Every element replaced by the larger of itself and `scalar`. */
  function VecMaxScalar(x: seq<real>, scalar: real): (r: seq<real>)
    ensures |r| == |x|
    ensures forall i :: 0 <= i < |x| ==> r[i] >= scalar && r[i] >= x[i]
    ensures forall i :: 0 <= i < |x| ==> r[i] == scalar || r[i] == x[i]
  {
    Map(x, u => if u >= scalar then u else scalar)
  }

  /** Elementwise product; the source asserts equal lengths and aborts otherwise. */
  function VecMul(a: seq<real>, b: seq<real>): (r: seq<real>)
    requires |a| == |b|
    ensures |r| == |a|
    ensures forall i :: 0 <= i < |a| ==> r[i] == a[i] * b[i]
  {
    Zip(a, b, (u, v) => u * v)
  }

  /** Reference definition: the sum of the elements, accumulated front to back. */
  function Sum(x: seq<real>): real
  {
    if |x| == 0 then 0.0 else Sum(x[..|x| - 1]) + x[|x| - 1]
  }

  /** Reference definition: the sum of the products of matching elements. */
  function InnerProduct(a: seq<real>, b: seq<real>): real
    requires |a| == |b|
  {
    if |a| == 0 then 0.0
    else InnerProduct(a[..|a| - 1], b[..|b| - 1]) + a[|a| - 1] * b[|b| - 1]
  }

  /** Reference definition: the sum of the squares of the elements. */
  function SumOfSquares(x: seq<real>): real
  {
    if |x| == 0 then 0.0 else SumOfSquares(x[..|x| - 1]) + x[|x| - 1] * x[|x| - 1]
  }

  /** The inner product, accumulated by a loop as in the source. */
  method VecInnerProd(rowVec: seq<real>, colVec: seq<real>) returns (r: Result<real>)
    ensures r.Err? <==> |rowVec| != |colVec|
    ensures r.Err? ==> r.error == ParameterLengthMismatch
    ensures r.Ok? ==> r.value == InnerProduct(rowVec, colVec)
  {
    if |rowVec| != |colVec| {
      return Err(ParameterLengthMismatch);
    }
    var sum := 0.0;
    for i := 0 to |rowVec|
      invariant sum == InnerProduct(rowVec[..i], colVec[..i])
    {
      assert rowVec[..i + 1][..i] == rowVec[..i];
      assert colVec[..i + 1][..i] == colVec[..i];
      sum := sum + rowVec[i] * colVec[i];
    }
    assert rowVec[..|rowVec|] == rowVec && colVec[..|colVec|] == colVec;
    return Ok(sum);
  }

  /** The sum of squares, accumulated by a loop as in the source. */
  method VecSumSq(x: seq<real>) returns (sum: real)
    ensures sum == SumOfSquares(x)
    ensures sum >= 0.0
  {
    sum := 0.0;
    for i := 0 to |x|
      invariant sum == SumOfSquares(x[..i])
    {
      assert x[..i + 1][..i] == x[..i];
      sum := sum + x[i] * x[i];
    }
    assert x[..|x|] == x;
    SumOfSquaresNonNegative(x);
  }

  lemma {:induction false} SumOfSquaresNonNegative(x: seq<real>)
    ensures SumOfSquares(x) >= 0.0
    decreases |x|
  {
    if |x| > 0 {
      SumOfSquaresNonNegative(x[..|x| - 1]);
      assert x[|x| - 1] * x[|x| - 1] >= 0.0;
    }
  }

  /** The inner product of a vector with itself is its sum of squares. */
  lemma {:induction false} InnerProductSelf(x: seq<real>)
    ensures InnerProduct(x, x) == SumOfSquares(x)
    decreases |x|
  {
    if |x| > 0 {
      InnerProductSelf(x[..|x| - 1]);
    }
  }

  /** The inner product is the sum of the elementwise product. */
  lemma {:induction false} InnerProductIsSumOfProducts(a: seq<real>, b: seq<real>)
    requires |a| == |b|
    ensures InnerProduct(a, b) == Sum(VecMul(a, b))
    decreases |a|
  {
    if |a| > 0 {
      var n := |a| - 1;
      InnerProductIsSumOfProducts(a[..n], b[..n]);
      assert VecMul(a, b)[..n] == VecMul(a[..n], b[..n]);
    }
  }

  lemma {:induction false} InnerProductSymmetric(a: seq<real>, b: seq<real>)
    requires |a| == |b|
    ensures InnerProduct(a, b) == InnerProduct(b, a)
    decreases |a|
  {
    if |a| > 0 {
      InnerProductSymmetric(a[..|a| - 1], b[..|b| - 1]);
    }
  }

  /** Subtracting what was added gives back the original vector. */
  lemma AddSubRoundTrip(a: seq<real>, b: seq<real>)
    requires |a| == |b|
    ensures VecAdd(a, b).Ok?
    ensures VecSub(VecAdd(a, b).value, b) == Ok(a)
  {
    var s := VecAdd(a, b).value;
    assert VecSub(s, b).value == a;
  }

  /** Adding back what was subtracted gives back the original vector. */
  lemma SubAddRoundTrip(a: seq<real>, b: seq<real>)
    requires |a| == |b|
    ensures VecSub(a, b).Ok?
    ensures VecAdd(VecSub(a, b).value, b) == Ok(a)
  {
    var d := VecSub(a, b).value;
    assert VecAdd(d, b).value == a;
  }

  /** Scaling by a nonzero scalar is undone by scaling with its inverse. */
  lemma MulScalarRoundTrip(x: seq<real>, scalar: real)
    requires scalar != 0.0
    ensures VecMulScalar(VecMulScalar(x, scalar), 1.0 / scalar) == x
  {
    var y := VecMulScalar(VecMulScalar(x, scalar), 1.0 / scalar);
    forall i | 0 <= i < |x|
      ensures y[i] == x[i]
    {
      calc {
        y[i];
        (x[i] * scalar) * (1.0 / scalar);
        x[i] * (scalar * (1.0 / scalar));
      }
    }
  }

  /** Scalar subtraction agrees with vector subtraction of a constant vector. */
  lemma SubScalarIsSubOfConstant(x: seq<real>, scalar: real)
    ensures VecSub(x, Fill(|x|, scalar)) == Ok(VecSubScalar(x, scalar))
  {
    var c := Fill(|x|, scalar);
    assert VecSub(x, c).value == VecSubScalar(x, scalar);
  }

  /** Scalar multiplication agrees with elementwise multiplication by a constant vector. */
  lemma MulScalarIsMulOfConstant(x: seq<real>, scalar: real)
    ensures VecMul(x, Fill(|x|, scalar)) == VecMulScalar(x, scalar)
  {
    var c := Fill(|x|, scalar);
    forall i | 0 <= i < |x|
      ensures VecMul(x, c)[i] == VecMulScalar(x, scalar)[i]
    {
      assert c[i] == scalar;
    }
    assert VecMul(x, c) == VecMulScalar(x, scalar);
  }

  /** Clamping from below twice is the same as clamping once. */
  lemma MaxScalarIdempotent(x: seq<real>, scalar: real)
    ensures VecMaxScalar(VecMaxScalar(x, scalar), scalar) == VecMaxScalar(x, scalar)
  {
  }

  lemma VecMulCommutative(a: seq<real>, b: seq<real>)
    requires |a| == |b|
    ensures VecMul(a, b) == VecMul(b, a)
  {
  }
}
