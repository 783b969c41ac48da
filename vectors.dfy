/** Dense real vectors and bias-free linear maps: the arithmetic the graph
    layers are built from. Exact reals stand in for float32. */
module Vectors {

  /** One hidden-state vector. */
  type Vec = seq<real>

  /** A bias-free linear layer (`nn.Linear(..., bias=False)`): one row of
      weights per output coordinate. */
  type Matrix = seq<Vec>

  function Zero(d: nat): Vec
  {
    seq(d, _ => 0.0)
  }

  function Add(a: Vec, b: Vec): Vec
    requires |a| == |b|
  {
    seq(|a|, i requires 0 <= i < |a| => a[i] + b[i])
  }

  function Neg(a: Vec): Vec
  {
    seq(|a|, i requires 0 <= i < |a| => -a[i])
  }

  /** Element-wise division by a scalar. */
  function DivBy(a: Vec, c: real): Vec
    requires c != 0.0
  {
    seq(|a|, i requires 0 <= i < |a| => a[i] / c)
  }

  /** `nn.ReLU()` applied element-wise. */
  function Relu(a: Vec): Vec
  {
    seq(|a|, i requires 0 <= i < |a| => if a[i] > 0.0 then a[i] else 0.0)
  }

  /** `clamp(min=1)`: the divisor used for neighbour counts and for
      `scatter_mean`; it raises a count below one (an empty one) to one and
      leaves counts of one or more alone. */
  function ClampMinOne(c: real): (r: real)
    ensures r >= 1.0
    ensures c >= 1.0 ==> r == c
    ensures c < 1.0 ==> r == 1.0
  {
    if c < 1.0 then 1.0 else c
  }

  function Dot(a: Vec, b: Vec): real
    requires |a| == |b|
    decreases |a|
  {
    if |a| == 0 then 0.0 else a[0] * b[0] + Dot(a[1..], b[1..])
  }

  /** `w` maps vectors of dimension `d` to vectors of dimension `d`. */
  predicate IsSquare(w: Matrix, d: nat)
  {
    |w| == d && forall i :: 0 <= i < |w| ==> |w[i]| == d
  }

  /** Applies a bias-free linear layer to one vector. */
  function Apply(w: Matrix, x: Vec): (y: Vec)
    requires forall i :: 0 <= i < |w| ==> |w[i]| == |x|
    ensures |y| == |w|
  {
    seq(|w|, i requires 0 <= i < |w| => Dot(w[i], x))
  }

  /** `n` vectors, each of dimension `d`. */
  predicate Rows(xs: seq<Vec>, n: nat, d: nat)
  {
    |xs| == n && forall t :: 0 <= t < |xs| ==> |xs[t]| == d
  }

  function ZeroRows(n: nat, d: nat): (z: seq<Vec>)
    ensures Rows(z, n, d)
  {
    seq(n, _ => Zero(d))
  }

  lemma {:induction false} DotWithZero(a: Vec)
    ensures Dot(a, Zero(|a|)) == 0.0
  {
    if |a| > 0 {
      assert Zero(|a|)[1..] == Zero(|a| - 1);
      DotWithZero(a[1..]);
    }
  }

  /** A bias-free linear layer maps the zero vector to the zero vector. */
  lemma ApplyToZero(w: Matrix, d: nat)
    requires forall i :: 0 <= i < |w| ==> |w[i]| == d
    ensures Apply(w, Zero(d)) == Zero(|w|)
  {
    forall i | 0 <= i < |w|
      ensures Apply(w, Zero(d))[i] == 0.0
    {
      DotWithZero(w[i]);
    }
  }

  /** Sum of the entries of a vector, last entry added last. */
  function Sum(s: seq<real>): real
    decreases |s|
  {
    if |s| == 0 then 0.0 else Sum(s[..|s| - 1]) + s[|s| - 1]
  }

  // ---------------------------------------------------------------------
  // Arithmetic steps the solver is given explicitly

  lemma MulNonNegative(x: real, y: real)
    requires 0.0 <= x && 0.0 <= y
    ensures 0.0 <= x * y
  {
  }

  /** Scaling by a factor in [0, 1] keeps a non-negative value between 0 and itself. */
  lemma ScaleAtMost(x: real, f: real)
    requires 0.0 <= x && 0.0 <= f <= 1.0
    ensures 0.0 <= x * f <= x
  {
    MulNonNegative(x, f);
    MulNonNegative(x, 1.0 - f);
    assert x * (1.0 - f) == x - x * f;
  }

  /** A quotient by a positive divisor of a value in `[0, b * c]` lies in `[0, b]`. */
  lemma DivBounds(x: real, c: real, b: real)
    requires 0.0 < c && 0.0 <= x <= b * c
    ensures 0.0 <= x / c <= b
  {
    var q := x / c;
    assert q * c == x;
  }
}
