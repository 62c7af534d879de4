/** The NumPy and SciPy array operations the engines use, over exact reals:
    vectors and matrices, 1-D broadcasting, the restriction prefactor
    (a scalar or an N x N matrix) and its products, trapezoid integrals,
    running sums, the boxcar convolution in 'same' mode, np.arange,
    round-half-to-even and argmin. Rounding and NaN are not modelled here. */
module Numeric {
  import opened Wrappers

  type Vector = seq<real>
  type Matrix = seq<seq<real>>

  predicate IsSquare(m: Matrix, n: nat) {
    |m| == n && forall i :: 0 <= i < n ==> |m[i]| == n
  }

  /** Every row of a row-major table has the given width. */
  predicate HasWidth<T>(rows: seq<seq<T>>, width: nat) {
    forall k :: 0 <= k < |rows| ==> |rows[k]| == width
  }

  /** The entries of a two-dimensional array as a matrix. */
  function Contents(a: array2<real>): (m: Matrix)
    reads a
    ensures |m| == a.Length0 && HasWidth(m, a.Length1)
    ensures forall i, j :: 0 <= i < a.Length0 && 0 <= j < a.Length1 ==> m[i][j] == a[i, j]
  {
    seq(a.Length0, i requires 0 <= i < a.Length0 reads a =>
      seq(a.Length1, j requires 0 <= j < a.Length1 reads a => a[i, j]))
  }

  /** np.ones(n) * x */
  function Const(n: nat, x: real): (v: Vector)
    ensures |v| == n && forall i :: 0 <= i < n ==> v[i] == x
  {
    seq(n, _ => x)
  }

  /** np.ones((n, n)) */
  function Ones(n: nat): (m: Matrix)
    ensures IsSquare(m, n) && forall i, j :: 0 <= i < n && 0 <= j < n ==> m[i][j] == 1.0
  {
    seq(n, _ => Const(n, 1.0))
  }

  function Sum(v: Vector): real {
    if |v| == 0 then 0.0 else Sum(v[..|v| - 1]) + v[|v| - 1]
  }

  function Dot(u: Vector, v: Vector): real
    requires |u| == |v|
  {
    if |u| == 0 then 0.0 else Dot(u[..|u| - 1], v[..|v| - 1]) + u[|u| - 1] * v[|v| - 1]
  }

  /** m @ v */
  function MatVec(m: Matrix, v: Vector): (r: Vector)
    requires HasWidth(m, |v|)
    ensures |r| == |m| && forall i :: 0 <= i < |m| ==> r[i] == Dot(m[i], v)
  {
    seq(|m|, i requires 0 <= i < |m| => Dot(m[i], v))
  }

  /** v @ m */
  function VecMat(v: Vector, m: Matrix, n: nat): (r: Vector)
    requires |v| == |m| && HasWidth(m, n)
    ensures |r| == n
  {
    seq(n, j requires 0 <= j < n => Dot(v, Column(m, j)))
  }

  function Column(rows: seq<seq<real>>, c: nat): (col: Vector)
    requires forall k :: 0 <= k < |rows| ==> c < |rows[k]|
    ensures |col| == |rows| && forall k :: 0 <= k < |rows| ==> col[k] == rows[k][c]
  {
    seq(|rows|, k requires 0 <= k < |rows| => rows[k][c])
  }

  /** Elementwise binary operation under NumPy's rule for one-dimensional
      arrays: equal lengths pair up, a length-1 operand is repeated, anything
      else raises. */
  function Broadcast(a: Vector, b: Vector, op: (real, real) -> real): (r: Result<Vector>)
    ensures r.Ok? <==> (|a| == |b| || |a| == 1 || |b| == 1)
    ensures r.Ok? ==> |r.value| == (if |a| == 1 then |b| else |a|)
    ensures r.Ok? ==> forall i :: 0 <= i < |r.value| ==>
              r.value[i] == op(a[if |a| == 1 then 0 else i], b[if |b| == 1 then 0 else i])
  {
    if |a| == |b| then Ok(seq(|a|, i requires 0 <= i < |a| => op(a[i], b[i])))
    else if |a| == 1 then Ok(seq(|b|, i requires 0 <= i < |b| => op(a[0], b[i])))
    else if |b| == 1 then Ok(seq(|a|, i requires 0 <= i < |a| => op(a[i], b[0])))
    else Fail
  }

  function Times(x: real, y: real): real { x * y }
  function Minus(x: real, y: real): real { x - y }

  // ---------------------------------------------------------------------------
  // Restriction prefactors

  /** What a restriction function returns: a scalar, or an N x N matrix of
      prefactors for the infectivity matrix. */
  datatype Modifier = Scalar(factor: real) | Prefactors(matrix: Matrix)

  predicate Fits(m: Modifier, n: nat) {
    m.Scalar? || IsSquare(m.matrix, n)
  }

  /** The entry (i, j) of a modifier, a scalar applying to every entry. */
  function EntryOf(m: Modifier, n: nat, i: nat, j: nat): real
    requires Fits(m, n) && i < n && j < n
  {
    match m
    case Scalar(x) => x
    case Prefactors(p) => p[i][j]
  }

  /** np.multiply of two modifiers: scalar times scalar stays scalar, anything
      with a matrix is the elementwise product. */
  function Multiply(a: Modifier, b: Modifier, n: nat): (r: Modifier)
    requires Fits(a, n) && Fits(b, n)
    ensures Fits(r, n)
    ensures r.Scalar? <==> a.Scalar? && b.Scalar?
    ensures forall i, j :: 0 <= i < n && 0 <= j < n ==>
              EntryOf(r, n, i, j) == EntryOf(a, n, i, j) * EntryOf(b, n, i, j)
  {
    if a.Scalar? && b.Scalar? then Scalar(a.factor * b.factor)
    else Prefactors(seq(n, i requires 0 <= i < n =>
           seq(n, j requires 0 <= j < n => EntryOf(a, n, i, j) * EntryOf(b, n, i, j))))
  }

  /** np.multiply(modifier, matrix): the Hadamard product with the modifier. */
  function Hadamard(a: Modifier, m: Matrix, n: nat): (r: Matrix)
    requires Fits(a, n) && IsSquare(m, n)
    ensures IsSquare(r, n)
    ensures forall i, j :: 0 <= i < n && 0 <= j < n ==> r[i][j] == EntryOf(a, n, i, j) * m[i][j]
  {
    seq(n, i requires 0 <= i < n => seq(n, j requires 0 <= j < n => EntryOf(a, n, i, j) * m[i][j]))
  }

  // ---------------------------------------------------------------------------
  // Integrals, running sums, convolution

  /** The trapezoid between two samples, as scipy's trapz computes it. */
  function Trapezoid(x0: real, x1: real, y0: real, y1: real): real {
    (x1 - x0) * (y0 + y1) / 2.0
  }

  /** scipy's cumtrapz(y, x, initial=0): the running trapezoid integral, 0 at the first sample. */
  function CumTrapz(y: Vector, x: Vector): (r: Vector)
    requires |y| == |x|
    ensures |r| == |y|
  {
    if |y| <= 1 then Const(|y|, 0.0)
    else
      var previous := CumTrapz(y[..|y| - 1], x[..|x| - 1]);
      previous + [previous[|previous| - 1]
                  + Trapezoid(x[|x| - 2], x[|x| - 1], y[|y| - 2], y[|y| - 1])]
  }

  /** np.cumsum: the running sums. */
  function CumSum(y: Vector): (r: Vector)
    ensures |r| == |y|
  {
    if |y| == 0 then [] else
      var previous := CumSum(y[..|y| - 1]);
      previous + [(if |y| == 1 then 0.0 else previous[|previous| - 1]) + y[|y| - 1]]
  }

  /** cumtrapz starts at 0 and each entry adds one trapezoid to the one before. */
  lemma {:induction false} CumTrapzSteps(y: Vector, x: Vector, k: nat)
    requires |y| == |x| && k < |y|
    ensures CumTrapz(y, x)[0] == 0.0
    ensures k + 1 < |y| ==> CumTrapz(y, x)[k + 1] == CumTrapz(y, x)[k] + Trapezoid(x[k], x[k + 1], y[k], y[k + 1])
  {
    if |y| > 1 {
      var n := |y|;
      var previous := CumTrapz(y[..n - 1], x[..n - 1]);
      assert CumTrapz(y, x)[..n - 1] == previous;
      if k < n - 1 {
        CumTrapzSteps(y[..n - 1], x[..n - 1], k);
      } else {
        CumTrapzSteps(y[..n - 1], x[..n - 1], 0);
      }
    }
  }

  /** np.cumsum: entry k is the sum of the first k + 1 values. */
  lemma {:induction false} CumSumPrefix(y: Vector, k: nat)
    requires k < |y|
    ensures CumSum(y)[k] == Sum(y[..k + 1])
  {
    var n := |y|;
    assert y[..n] == y;
    if k < n - 1 {
      assert CumSum(y)[..n - 1] == CumSum(y[..n - 1]);
      CumSumPrefix(y[..n - 1], k);
      assert y[..n - 1][..k + 1] == y[..k + 1];
    } else if n > 1 {
      CumSumPrefix(y[..n - 1], n - 2);
      assert y[..n - 1][..n - 1] == y[..n - 1];
    } else {
      assert y[..1][..0] == [];
    }
  }

  /** a[lo] + ... + a[hi - 1]. */
  function RangeSum(a: Vector, lo: int, hi: int): real
    requires 0 <= lo && hi <= |a|
    decreases hi - lo
  {
    if lo >= hi then 0.0 else RangeSum(a, lo, hi - 1) + a[hi - 1]
  }

  function MinInt(x: int, y: int): int { if x <= y then x else y }
  function MaxInt(x: int, y: int): int { if x >= y then x else y }

  /** np.convolve(a, np.ones(width), mode='same'): the full convolution with a
      boxcar of the given width, of which 'same' keeps max(len(a), width)
      entries starting (min(len(a), width) - 1) // 2 into it. Entry m of the
      full convolution. */
  function BoxcarSame(a: Vector, width: nat): (r: Vector)
    requires |a| >= 1 && width >= 1
    ensures |r| == MaxInt(|a|, width)
  {
    var offset := (MinInt(|a|, width) - 1) / 2;
    seq(MaxInt(|a|, width), k requires 0 <= k < MaxInt(|a|, width) => BoxcarFull(a, width, k + offset))
  }

  /** Entry m of the full convolution: the sum of a[j] over the j with
      0 <= m - j < width. */
  function BoxcarFull(a: Vector, width: nat, m: nat): real {
    RangeSum(a, MaxInt(0, m - width + 1), MinInt(|a|, m + 1))
  }

  /** A boxcar of width one leaves the signal as it is. */
  lemma BoxcarIdentity(a: Vector)
    requires |a| >= 1
    ensures BoxcarSame(a, 1) == a
  {
    var r := BoxcarSame(a, 1);
    forall k | 0 <= k < |a|
      ensures r[k] == a[k]
    {
      assert MinInt(|a|, 1) == 1 && MaxInt(|a|, 1) == |a|;
      assert r[k] == BoxcarFull(a, 1, k);
      assert MaxInt(0, k - 1 + 1) == k && MinInt(|a|, k + 1) == k + 1;
      assert RangeSum(a, k, k + 1) == RangeSum(a, k, k) + a[k];
    }
  }

  /** For an odd width 2h + 1 no longer than the signal, entry k sums the
      window of h samples on each side of k, cut at the signal's ends. */
  lemma BoxcarCentered(a: Vector, h: nat, k: nat)
    requires 2 * h + 1 <= |a| && k < |a|
    ensures BoxcarSame(a, 2 * h + 1)[k] == RangeSum(a, MaxInt(0, k - h), MinInt(|a|, k + h + 1))
  {
    var width := 2 * h + 1;
    assert MinInt(|a|, width) == width && MaxInt(|a|, width) == |a|;
    assert (width - 1) / 2 == h;
    assert BoxcarSame(a, width)[k] == BoxcarFull(a, width, k + h);
    assert (k + h) - width + 1 == k - h;
  }

  /** For an even width 2h + 2 no longer than the signal, entry k sums h + 1
      samples before k and h after it, cut at the signal's ends. */
  lemma BoxcarEven(a: Vector, h: nat, k: nat)
    requires 2 * h + 2 <= |a| && k < |a|
    ensures BoxcarSame(a, 2 * h + 2)[k] == RangeSum(a, MaxInt(0, k - h - 1), MinInt(|a|, k + h + 1))
  {
    var width := 2 * h + 2;
    assert MinInt(|a|, width) == width && MaxInt(|a|, width) == |a|;
    assert (width - 1) / 2 == h;
    assert BoxcarSame(a, width)[k] == BoxcarFull(a, width, k + h);
    assert (k + h) - width + 1 == k - h - 1;
  }

  function Scale(v: Vector, x: real): (r: Vector)
    ensures |r| == |v| && forall k :: 0 <= k < |v| ==> r[k] == v[k] * x
  {
    seq(|v|, k requires 0 <= k < |v| => v[k] * x)
  }

  // ---------------------------------------------------------------------------
  // Grids and rounding

  /** The least integer not below x. */
  function Ceil(x: real): int {
    -((-x).Floor)
  }

  /** np.arange(start, stop, step): start, start + step, ... for
      ceil((stop - start) / step) entries, none when that is not positive. */
  function Arange(start: real, stop: real, step: real): (r: Vector)
    requires step != 0.0
    ensures |r| == MaxInt(0, Ceil((stop - start) / step))
    ensures forall k :: 0 <= k < |r| ==> r[k] == start + k as real * step
  {
    seq(MaxInt(0, Ceil((stop - start) / step)), k => start + k as real * step)
  }

  /** round() of a NumPy float: to the nearest integer, halves to the even one. */
  function RoundHalfEven(x: real): (r: int)
    ensures x - 0.5 <= r as real <= x + 0.5
    ensures x - x.Floor as real == 0.5 ==> r % 2 == 0
    ensures x - x.Floor as real != 0.5 ==> r as real - 0.5 < x < r as real + 0.5
  {
    var f := x.Floor;
    var fraction := x - f as real;
    if fraction < 0.5 then f
    else if fraction > 0.5 then f + 1
    else if f % 2 == 0 then f else f + 1
  }

  function Abs(x: real): real { if x < 0.0 then -x else x }

  /** np.fabs(xs - target).argmin(): the first index at least distance from target. */
  function ArgMinDistance(xs: Vector, target: real): (r: nat)
    requires |xs| >= 1
    ensures r < |xs|
    ensures forall i :: 0 <= i < |xs| ==> Abs(xs[r] - target) <= Abs(xs[i] - target)
    ensures forall i :: 0 <= i < r ==> Abs(xs[i] - target) > Abs(xs[r] - target)
  {
    if |xs| == 1 then 0
    else
      var best := ArgMinDistance(xs[..|xs| - 1], target);
      if Abs(xs[|xs| - 1] - target) < Abs(xs[best] - target) then |xs| - 1 else best
  }

  /** xs.min() */
  function Min(xs: Vector): (r: real)
    requires |xs| >= 1
    ensures r in xs && forall i :: 0 <= i < |xs| ==> r <= xs[i]
  {
    if |xs| == 1 then xs[0]
    else var m := Min(xs[..|xs| - 1]); if xs[|xs| - 1] < m then xs[|xs| - 1] else m
  }

  /** xs.max() */
  function Max(xs: Vector): (r: real)
    requires |xs| >= 1
    ensures r in xs && forall i :: 0 <= i < |xs| ==> xs[i] <= r
  {
    if |xs| == 1 then xs[0]
    else var m := Max(xs[..|xs| - 1]); if xs[|xs| - 1] > m then xs[|xs| - 1] else m
  }

  /** xs - shift, elementwise. */
  function Shift(xs: Vector, shift: real): (r: Vector)
    ensures |r| == |xs| && forall k :: 0 <= k < |xs| ==> r[k] == xs[k] - shift
  {
    seq(|xs|, k requires 0 <= k < |xs| => xs[k] - shift)
  }

  predicate Sorted(xs: Vector) {
    forall i, j :: 0 <= i <= j < |xs| ==> xs[i] <= xs[j]
  }
}
