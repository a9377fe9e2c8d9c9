/** Exact linear algebra over `real`: 3-vectors, poses (sequences of points),
    flat vectors and row-major matrices, and the facts about least squares the
    weight solver relies on.

    A `Matrix` is a sequence of rows; `IsMatrix(A, cols)` says every row has
    `cols` entries (the number of rows is `|A|`).
 */
module LinAlg {

  /** One point of a pose: numpy's trailing axis of length 3. */
  datatype Vec3 = Vec3(x: real, y: real, z: real)

  /** Coordinate `d` of a point, as `p[d]` reads it in numpy. */
  function Axis(p: Vec3, d: nat): real
    requires d < 3
  {
    if d == 0 then p.x else if d == 1 then p.y else p.z
  }

  lemma AxesDetermine(p: Vec3, q: Vec3)
    requires forall d: nat :: d < 3 ==> Axis(p, d) == Axis(q, d)
    ensures p == q
  {
    assert Axis(p, 0) == Axis(q, 0);
    assert Axis(p, 1) == Axis(q, 1);
    assert Axis(p, 2) == Axis(q, 2);
  }

  function Add3(a: Vec3, b: Vec3): Vec3 { Vec3(a.x + b.x, a.y + b.y, a.z + b.z) }

  function Sub3(a: Vec3, b: Vec3): Vec3 { Vec3(a.x - b.x, a.y - b.y, a.z - b.z) }

  function Scale3(c: real, a: Vec3): Vec3 { Vec3(c * a.x, c * a.y, c * a.z) }

  const Origin: Vec3 := Vec3(0.0, 0.0, 0.0)

  /** An ordered sequence of points: the neutral pose, a key pose, a delta or a landmark frame. */
  type Pose = seq<Vec3>

  function PoseAdd(p: Pose, q: Pose): (r: Pose)
    requires |p| == |q|
    ensures |r| == |p|
  {
    seq(|p|, i requires 0 <= i < |p| => Add3(p[i], q[i]))
  }

  function PoseSub(p: Pose, q: Pose): (r: Pose)
    requires |p| == |q|
    ensures |r| == |p|
  {
    seq(|p|, i requires 0 <= i < |p| => Sub3(p[i], q[i]))
  }

  function PoseScale(c: real, p: Pose): (r: Pose)
    ensures |r| == |p|
  {
    seq(|p|, i requires 0 <= i < |p| => Scale3(c, p[i]))
  }

  function ZeroPose(n: nat): (r: Pose)
    ensures |r| == n
  {
    seq(n, i => Origin)
  }

  /** Row `FlatIndex(v, d)` of a flattened pose holds coordinate `d` of point `v`
      (numpy's C-order `reshape(-1)` of an `nv x 3` array). */
  function FlatIndex(v: nat, d: nat): nat { 3 * v + d }

  function Flatten(p: Pose): (r: seq<real>)
    ensures |r| == 3 * |p|
    ensures forall v: nat, d: nat {:trigger FlatIndex(v, d)} :: v < |p| && d < 3 ==> r[FlatIndex(v, d)] == Axis(p[v], d)
  {
    seq(3 * |p|, k requires 0 <= k < 3 * |p| => Axis(p[k / 3], k % 3))
  }

  lemma FlattenInjective(p: Pose, q: Pose)
    requires |p| == |q| && Flatten(p) == Flatten(q)
    ensures p == q
  {
    forall v | 0 <= v < |p|
      ensures p[v] == q[v]
    {
      forall d: nat | d < 3
        ensures Axis(p[v], d) == Axis(q[v], d)
      {
        assert Flatten(p)[FlatIndex(v, d)] == Flatten(q)[FlatIndex(v, d)];
      }
      AxesDetermine(p[v], q[v]);
    }
  }

  type Vector = seq<real>
  type Matrix = seq<Vector>

  function Zeros(n: nat): (r: Vector)
    ensures |r| == n
  {
    seq(n, i => 0.0)
  }

  /** The unit vector e_i of length n. */
  function Unit(n: nat, i: nat): (r: Vector)
    requires i < n
    ensures |r| == n
  {
    seq(n, k => if k == i then 1.0 else 0.0)
  }

  function VAdd(a: Vector, b: Vector): (r: Vector)
    requires |a| == |b|
    ensures |r| == |a|
  {
    seq(|a|, i requires 0 <= i < |a| => a[i] + b[i])
  }

  function VSub(a: Vector, b: Vector): (r: Vector)
    requires |a| == |b|
    ensures |r| == |a|
  {
    seq(|a|, i requires 0 <= i < |a| => a[i] - b[i])
  }

  function VScale(c: real, a: Vector): (r: Vector)
    ensures |r| == |a|
  {
    seq(|a|, i requires 0 <= i < |a| => c * a[i])
  }

  function Dot(a: Vector, b: Vector): real
    requires |a| == |b|
    decreases |a|
  {
    if |a| == 0 then 0.0 else a[0] * b[0] + Dot(a[1..], b[1..])
  }

  /** The squared Euclidean norm: numpy's `tensordot(D, D)` on a flattened `D`. */
  function NormSq(a: Vector): real
  {
    Dot(a, a)
  }

  predicate IsMatrix(A: Matrix, cols: nat)
  {
    forall i :: 0 <= i < |A| ==> |A[i]| == cols
  }

  /** A·x */
  function MatVec(A: Matrix, x: Vector): (r: Vector)
    requires IsMatrix(A, |x|)
    ensures |r| == |A|
  {
    seq(|A|, i requires 0 <= i < |A| => Dot(A[i], x))
  }

  function Column(A: Matrix, cols: nat, j: nat): (r: Vector)
    requires IsMatrix(A, cols) && j < cols
    ensures |r| == |A|
  {
    seq(|A|, i requires 0 <= i < |A| => A[i][j])
  }

  /** Aᵀ·y, where `cols` is the column count of A (needed when A has no rows). */
  function TMatVec(A: Matrix, cols: nat, y: Vector): (r: Vector)
    requires IsMatrix(A, cols) && |y| == |A|
    ensures |r| == cols
  {
    seq(cols, j requires 0 <= j < cols => Dot(Column(A, cols, j), y))
  }

  /** ‖A·x − b‖², the quantity `lstsq` minimises. */
  function SqResidual(A: Matrix, b: Vector, x: Vector): real
    requires IsMatrix(A, |x|) && |b| == |A|
  {
    NormSq(VSub(MatVec(A, x), b))
  }

  /** x satisfies the normal equations AᵀA·x = Aᵀb. */
  predicate SolvesNormalEquations(A: Matrix, cols: nat, b: Vector, x: Vector)
  {
    && IsMatrix(A, cols) && |b| == |A| && |x| == cols
    && TMatVec(A, cols, MatVec(A, x)) == TMatVec(A, cols, b)
  }

  /** The columns of A are linearly independent: only the zero vector maps to zero. */
  ghost predicate FullColumnRank(A: Matrix, cols: nat)
  {
    && IsMatrix(A, cols)
    && forall d: Vector {:trigger MatVec(A, d)} :: |d| == cols && MatVec(A, d) == Zeros(|A|) ==> d == Zeros(cols)
  }

  // ---------------------------------------------------------------------------
  // Bilinearity of Dot

  lemma {:induction false} DotSymmetric(a: Vector, b: Vector)
    requires |a| == |b|
    ensures Dot(a, b) == Dot(b, a)
    decreases |a|
  {
    if |a| > 0 {
      DotSymmetric(a[1..], b[1..]);
    }
  }

  lemma {:induction false} DotAddRight(a: Vector, b: Vector, c: Vector)
    requires |a| == |b| == |c|
    ensures Dot(a, VAdd(b, c)) == Dot(a, b) + Dot(a, c)
    decreases |a|
  {
    if |a| > 0 {
      assert VAdd(b, c)[1..] == VAdd(b[1..], c[1..]);
      DotAddRight(a[1..], b[1..], c[1..]);
      assert a[0] * (b[0] + c[0]) == a[0] * b[0] + a[0] * c[0];
    }
  }

  lemma {:induction false} DotSubRight(a: Vector, b: Vector, c: Vector)
    requires |a| == |b| == |c|
    ensures Dot(a, VSub(b, c)) == Dot(a, b) - Dot(a, c)
    decreases |a|
  {
    if |a| > 0 {
      assert VSub(b, c)[1..] == VSub(b[1..], c[1..]);
      DotSubRight(a[1..], b[1..], c[1..]);
      assert a[0] * (b[0] - c[0]) == a[0] * b[0] - a[0] * c[0];
    }
  }

  lemma {:induction false} DotScaleRight(a: Vector, c: real, b: Vector)
    requires |a| == |b|
    ensures Dot(a, VScale(c, b)) == c * Dot(a, b)
    decreases |a|
  {
    if |a| > 0 {
      forall i | 0 <= i < |b| - 1
        ensures VScale(c, b)[1..][i] == VScale(c, b[1..])[i]
      {
        assert VScale(c, b)[1..][i] == VScale(c, b)[i + 1];
      }
      assert VScale(c, b)[1..] == VScale(c, b[1..]);
      DotScaleRight(a[1..], c, b[1..]);
      assert a[0] * (c * b[0]) + c * Dot(a[1..], b[1..]) == c * (a[0] * b[0] + Dot(a[1..], b[1..]));
    }
  }

  lemma {:induction false} DotZerosRight(a: Vector)
    ensures Dot(a, Zeros(|a|)) == 0.0
    decreases |a|
  {
    if |a| > 0 {
      assert Zeros(|a|)[1..] == Zeros(|a| - 1);
      DotZerosRight(a[1..]);
    }
  }

  /** Dotting with the unit vector e_i picks entry i. */
  lemma {:induction false} DotUnit(a: Vector, i: nat)
    requires i < |a|
    ensures Dot(a, Unit(|a|, i)) == a[i]
    decreases |a|
  {
    if i == 0 {
      assert Unit(|a|, 0)[1..] == Zeros(|a| - 1);
      DotZerosRight(a[1..]);
    } else {
      assert Unit(|a|, i)[1..] == Unit(|a| - 1, i - 1);
      DotUnit(a[1..], i - 1);
    }
  }

  lemma {:induction false} NormSqNonNegative(a: Vector)
    ensures NormSq(a) >= 0.0
    decreases |a|
  {
    if |a| > 0 {
      NormSqNonNegative(a[1..]);
      assert a[0] * a[0] >= 0.0;
    }
  }

  function Sq(t: real): real { t * t }

  lemma SquarePositive(t: real)
    requires t != 0.0
    ensures t * t > 0.0
  {
  }

  lemma SqPositive(t: real)
    requires t != 0.0
    ensures Sq(t) > 0.0
  {
    calc {
      Sq(t);
    ==
      t * t;
    > { SquarePositive(t); }
      0.0;
    }
  }

  /** A square vanishes only at zero. */
  lemma SqZero(t: real)
    requires Sq(t) == 0.0
    ensures t == 0.0
  {
    if t != 0.0 {
      SqPositive(t);
    }
  }

  /** Only the zero vector has zero squared norm. */
  lemma {:induction false} NormSqZero(a: Vector)
    requires NormSq(a) == 0.0
    ensures a == Zeros(|a|)
    decreases |a|
  {
    if |a| > 0 {
      NormSqNonNegative(a[1..]);
      assert a[0] * a[0] >= 0.0;
      assert Sq(a[0]) == 0.0;
      SqZero(a[0]);
      NormSqZero(a[1..]);
      forall i | 0 <= i < |a|
        ensures a[i] == 0.0
      {
        if i > 0 {
          assert a[i] == a[1..][i - 1] == Zeros(|a| - 1)[i - 1];
        }
      }
    }
  }

  /** ‖u + v‖² = ‖u‖² + 2·u·v + ‖v‖² */
  lemma NormSqOfSum(u: Vector, v: Vector)
    requires |u| == |v|
    ensures NormSq(VAdd(u, v)) == NormSq(u) + 2.0 * Dot(u, v) + NormSq(v)
  {
    var s := VAdd(u, v);
    DotAddRight(s, u, v);
    DotSymmetric(s, u);
    DotSymmetric(s, v);
    DotAddRight(u, u, v);
    DotAddRight(v, u, v);
    DotSymmetric(v, u);
  }

  // ---------------------------------------------------------------------------
  // Matrix-vector products

  lemma MatVecSub(A: Matrix, x: Vector, y: Vector)
    requires |x| == |y| && IsMatrix(A, |x|)
    ensures MatVec(A, VSub(x, y)) == VSub(MatVec(A, x), MatVec(A, y))
  {
    forall i | 0 <= i < |A|
      ensures MatVec(A, VSub(x, y))[i] == VSub(MatVec(A, x), MatVec(A, y))[i]
    {
      DotSubRight(A[i], x, y);
    }
  }

  lemma MatVecZeros(A: Matrix, cols: nat)
    requires IsMatrix(A, cols)
    ensures MatVec(A, Zeros(cols)) == Zeros(|A|)
  {
    forall i | 0 <= i < |A|
      ensures MatVec(A, Zeros(cols))[i] == 0.0
    {
      DotZerosRight(A[i]);
    }
  }

  lemma TMatVecSub(A: Matrix, cols: nat, u: Vector, v: Vector)
    requires IsMatrix(A, cols) && |u| == |v| == |A|
    ensures TMatVec(A, cols, VSub(u, v)) == VSub(TMatVec(A, cols, u), TMatVec(A, cols, v))
  {
    forall j | 0 <= j < cols
      ensures TMatVec(A, cols, VSub(u, v))[j] == VSub(TMatVec(A, cols, u), TMatVec(A, cols, v))[j]
    {
      DotSubRight(Column(A, cols, j), u, v);
    }
  }

  /** Aᵀ·y splits into the contribution of the first row and that of the rest. */
  lemma TMatVecFirstRow(A: Matrix, cols: nat, y: Vector)
    requires IsMatrix(A, cols) && |y| == |A| > 0
    ensures TMatVec(A, cols, y) == VAdd(VScale(y[0], A[0]), TMatVec(A[1..], cols, y[1..]))
  {
    forall j | 0 <= j < cols
      ensures TMatVec(A, cols, y)[j] == VAdd(VScale(y[0], A[0]), TMatVec(A[1..], cols, y[1..]))[j]
    {
      assert Column(A, cols, j)[1..] == Column(A[1..], cols, j);
      assert Dot(Column(A, cols, j), y) == A[0][j] * y[0] + Dot(Column(A[1..], cols, j), y[1..]);
    }
  }

  /** (A·x)·y = x·(Aᵀ·y) */
  lemma {:induction false} Adjoint(A: Matrix, x: Vector, y: Vector)
    requires IsMatrix(A, |x|) && |y| == |A|
    ensures Dot(MatVec(A, x), y) == Dot(x, TMatVec(A, |x|, y))
    decreases |A|
  {
    var cols := |x|;
    if |A| == 0 {
      assert TMatVec(A, cols, y) == Zeros(cols);
      DotZerosRight(x);
    } else {
      assert MatVec(A, x)[1..] == MatVec(A[1..], x);
      Adjoint(A[1..], x, y[1..]);
      TMatVecFirstRow(A, cols, y);
      DotAddRight(x, VScale(y[0], A[0]), TMatVec(A[1..], cols, y[1..]));
      DotScaleRight(x, y[0], A[0]);
      DotSymmetric(x, A[0]);
    }
  }

  // ---------------------------------------------------------------------------
  // Least squares

  /** A solution of the normal equations minimises ‖A·y − b‖²: every other y pays
      exactly ‖A·(y − x)‖² more. */
  lemma NormalEquationsMinimise(A: Matrix, cols: nat, b: Vector, x: Vector, y: Vector)
    requires SolvesNormalEquations(A, cols, b, x)
    requires |y| == cols
    ensures SqResidual(A, b, y) == SqResidual(A, b, x) + NormSq(MatVec(A, VSub(y, x)))
    ensures SqResidual(A, b, x) <= SqResidual(A, b, y)
  {
    var r := VSub(MatVec(A, x), b);
    var e := MatVec(A, VSub(y, x));
    MatVecSub(A, y, x);
    assert VSub(MatVec(A, y), b) == VAdd(r, e);
    NormSqOfSum(r, e);
    DotSymmetric(r, e);
    Adjoint(A, VSub(y, x), r);
    TMatVecSub(A, cols, MatVec(A, x), b);
    assert TMatVec(A, cols, r) == Zeros(cols);
    DotZerosRight(VSub(y, x));
    NormSqNonNegative(e);
  }

  /** With independent columns, the normal equations for an exactly reachable
      right-hand side A·w have w as their only solution, at zero residual. */
  lemma NormalEquationsRecoverExact(A: Matrix, cols: nat, w: Vector, x: Vector)
    requires FullColumnRank(A, cols) && |w| == cols
    requires SolvesNormalEquations(A, cols, MatVec(A, w), x)
    ensures x == w
    ensures SqResidual(A, MatVec(A, w), x) == 0.0
  {
    var b := MatVec(A, w);
    NormalEquationsMinimise(A, cols, b, x, w);
    assert VSub(b, b) == Zeros(|A|);
    DotZerosRight(Zeros(|A|));
    assert SqResidual(A, b, w) == 0.0;
    NormSqNonNegative(VSub(MatVec(A, x), b));
    NormSqNonNegative(MatVec(A, VSub(w, x)));
    NormSqZero(MatVec(A, VSub(w, x)));
    assert VSub(w, x) == Zeros(cols);
    forall i | 0 <= i < cols
      ensures x[i] == w[i]
    {
      assert VSub(w, x)[i] == Zeros(cols)[i];
    }
  }
}
