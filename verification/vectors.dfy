/** Embedding vectors over the reals: dot product, sum of squares, an
    abstract square root, and the element-wise mean `encode(...).mean(axis=0)`. */
module Vectors {

  type Vector = seq<real>

  function Dot(a: Vector, b: Vector): real
    requires |a| == |b|
    decreases |a|
  {
    if |a| == 0 then 0.0 else a[0] * b[0] + Dot(a[1..], b[1..])
  }

  lemma ProductPositive(a: real, b: real, c: real)
    requires a > 0.0 && b > 0.0 && c == a * b
    ensures c > 0.0
  {
  }

  /** `x * x`, kept behind a name so that sums of squares stay linear for the solver. */
  function Square(x: real): (r: real)
    ensures r >= 0.0
    ensures r == 0.0 <==> x == 0.0
  {
    if x > 0.0 then ProductPositive(x, x, x * x); x * x
    else if x < 0.0 then ProductPositive(-x, -x, x * x); x * x
    else x * x
  }

  function SumSquares(v: Vector): (r: real)
    ensures r >= 0.0
    decreases |v|
  {
    if |v| == 0 then 0.0 else Square(v[0]) + SumSquares(v[1..])
  }

  predicate IsZero(v: Vector) {
    forall i :: 0 <= i < |v| ==> v[i] == 0.0
  }

  /** A vector's squares sum to zero exactly when every component is zero. */
  lemma {:induction false} SumSquaresZeroIff(v: Vector)
    ensures SumSquares(v) == 0.0 <==> IsZero(v)
    decreases |v|
  {
    if |v| > 0 {
      SumSquaresZeroIff(v[1..]);
      assert IsZero(v) <==> v[0] == 0.0 && IsZero(v[1..]);
    }
  }

  /** What the model assumes of `np.linalg.norm`'s square root: it returns the
      non-negative root of a non-negative argument. */
  ghost predicate IsSqrt(sqrt: real -> real) {
    forall x: real :: 0.0 <= x ==> 0.0 <= sqrt(x) && Square(sqrt(x)) == x
  }

  /** The Euclidean norm, `np.linalg.norm(v)`. */
  function Norm(v: Vector, sqrt: real -> real): real {
    sqrt(SumSquares(v))
  }

  /** The norm is zero exactly for the zero vector, so the source's guard
      `norm == 0` is the test "every component is zero". */
  lemma NormZeroIff(v: Vector, sqrt: real -> real)
    requires IsSqrt(sqrt)
    ensures Norm(v, sqrt) == 0.0 <==> IsZero(v)
  {
    SumSquaresZeroIff(v);
    var s := SumSquares(v);
    assert Square(sqrt(s)) == s;
  }

  /** Every vector of `vs` has `d` components. */
  predicate Uniform(vs: seq<Vector>, d: nat) {
    forall k :: 0 <= k < |vs| ==> |vs[k]| == d
  }

  /** Reference sum of column `i` over the rows `vs`. */
  function ColumnSum(vs: seq<Vector>, i: nat): real
    requires forall k :: 0 <= k < |vs| ==> i < |vs[k]|
    decreases |vs|
  {
    if |vs| == 0 then 0.0 else ColumnSum(vs[..|vs| - 1], i) + vs[|vs| - 1][i]
  }

  function Add(a: Vector, b: Vector): (r: Vector)
    requires |a| == |b|
    ensures |r| == |a|
    ensures forall i :: 0 <= i < |r| ==> r[i] == a[i] + b[i]
  {
    seq(|a|, i requires 0 <= i < |a| => a[i] + b[i])
  }

  /** Vector sum of the rows `vs` (each of dimension `d`). */
  function Sum(vs: seq<Vector>, d: nat): (r: Vector)
    requires Uniform(vs, d)
    ensures |r| == d
    ensures forall i :: 0 <= i < d ==> r[i] == ColumnSum(vs, i)
    decreases |vs|
  {
    if |vs| == 0 then seq(d, i => 0.0)
    else Add(Sum(vs[..|vs| - 1], d), vs[|vs| - 1])
  }

  function Scale(c: real, v: Vector): (r: Vector)
    ensures |r| == |v|
    ensures forall i :: 0 <= i < |r| ==> r[i] == c * v[i]
  {
    seq(|v|, i requires 0 <= i < |v| => c * v[i])
  }

  /** `np.mean(vs, axis=0)`: the element-wise mean over all rows, duplicates
      included. There must be at least one row. */
  function Mean(vs: seq<Vector>): (r: Vector)
    requires |vs| > 0 && Uniform(vs, |vs[0]|)
    ensures |r| == |vs[0]|
    ensures forall i :: 0 <= i < |r| ==> r[i] * (|vs| as real) == ColumnSum(vs, i)
  {
    Scale(1.0 / (|vs| as real), Sum(vs, |vs[0]|))
  }

  /** `k` copies of `v`. */
  function Copies(v: Vector, k: nat): (r: seq<Vector>)
    ensures |r| == k && Uniform(r, |v|)
    ensures forall j :: 0 <= j < k ==> r[j] == v
  {
    seq(k, j => v)
  }

  lemma {:induction false} ColumnSumCopies(v: Vector, k: nat, i: nat)
    requires i < |v|
    ensures ColumnSum(Copies(v, k), i) == (k as real) * v[i]
    decreases k
  {
    if k > 0 {
      assert Copies(v, k)[..k - 1] == Copies(v, k - 1);
      ColumnSumCopies(v, k - 1, i);
    }
  }

  /** The mean of copies of one vector is that vector. */
  lemma MeanOfCopies(v: Vector, k: nat)
    requires k > 0
    ensures Mean(Copies(v, k)) == v
  {
    var m := Mean(Copies(v, k));
    forall i | 0 <= i < |v| ensures m[i] == v[i] {
      ColumnSumCopies(v, k, i);
    }
  }
}
