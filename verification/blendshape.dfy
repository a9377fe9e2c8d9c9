/** The blendshape mesh of the add-on: a neutral pose plus one offset pose per
    shape key, the forward blend `vertices(w) = basis + sum_j w[j] * dif[j]`,
    and the inverse problem `get_weights`, which fits weights to a captured
    landmark set by linear least squares.

    The numerical least-squares routine is a parameter of type `Solver`; the
    lemmas say what the mesh computes whenever that routine returns a solution
    of the normal equations together with its squared residual.
 */
module Blendshape {
  import opened Results
  import opened LinAlg

  /** `basis` is the first pose, `dif[j]` the offset of key j from it, and
      `weights` the vector returned when there are no keys to fit. */
  datatype BlendshapeMesh = BlendshapeMesh(basis: Pose, dif: seq<Pose>, weights: Vector)

  /** The numpy arrays behind a mesh are rectangular. */
  predicate WellFormed(m: BlendshapeMesh)
  {
    (forall j :: 0 <= j < |m.dif| ==> |m.dif[j]| == |m.basis|) && |m.weights| == |m.dif|
  }

  /** A stack of poses that numpy can hold as one (n, nv, 3) array. */
  predicate Rectangular(data: seq<Pose>)
  {
    forall i, j :: 0 <= i < |data| && 0 <= j < |data| ==> |data[i]| == |data[j]|
  }

  /** Constructor: the first pose is the basis, every later pose becomes its
      offset from the basis, and the stored weights start at zero. Poses of
      no points leave a two-dimensional offset array, whose shape does not
      unpack into `nb, nv, _`. */
  function Build(data: seq<Pose>): (r: Result<BlendshapeMesh>)
    ensures |data| == 0 ==> r == Failure(EmptyPoseStack)
    ensures |data| > 0 && !Rectangular(data) ==> r == Failure(DimensionMismatch)
    ensures |data| > 0 && Rectangular(data) && |data[0]| == 0 ==> r == Failure(NoVertices)
    ensures r.Success? <==> |data| > 0 && Rectangular(data) && |data[0]| > 0
    ensures r.Success? ==>
      (WellFormed(r.value) && r.value.basis == data[0] && |r.value.basis| > 0
       && |r.value.dif| == |data| - 1 && r.value.weights == Zeros(|data| - 1))
  {
    if |data| == 0 then Failure(EmptyPoseStack)
    else if !Rectangular(data) then Failure(DimensionMismatch)
    else if |data[0]| == 0 then Failure(NoVertices)
    else
      var dif := seq(|data| - 1, j requires 0 <= j < |data| - 1 => PoseSub(data[j + 1], data[0]));
      Success(BlendshapeMesh(data[0], dif, Zeros(|data| - 1)))
  }

  /** Coordinate `d` of point `v` across all keys: one row of the design matrix. */
  function KeyColumn(dif: seq<Pose>, v: nat, d: nat): (r: Vector)
    requires d < 3 && forall j :: 0 <= j < |dif| ==> v < |dif[j]|
    ensures |r| == |dif|
  {
    seq(|dif|, j requires 0 <= j < |dif| => Axis(dif[j][v], d))
  }

  /** `np.tensordot(weights, dif, axes=(0, 0))` added to the basis, coordinate by coordinate. */
  function Blend(m: BlendshapeMesh, w: Vector): (r: Pose)
    requires WellFormed(m) && |w| == |m.dif|
    ensures |r| == |m.basis|
  {
    seq(|m.basis|, v requires 0 <= v < |m.basis| =>
      Vec3(m.basis[v].x + Dot(KeyColumn(m.dif, v, 0), w),
           m.basis[v].y + Dot(KeyColumn(m.dif, v, 1), w),
           m.basis[v].z + Dot(KeyColumn(m.dif, v, 2), w)))
  }

  /** The blended pose for a weight vector; a vector of the wrong length is
      the broadcasting error numpy raises. */
  function Vertices(m: BlendshapeMesh, w: Vector): (r: Result<Pose>)
    requires WellFormed(m)
    ensures r.Success? <==> |w| == |m.dif|
    ensures r.Failure? ==> r.error == DimensionMismatch
    ensures r.Success? ==> |r.value| == |m.basis|
  {
    if |w| != |m.dif| then Failure(DimensionMismatch) else Success(Blend(m, w))
  }

  /** Reference definition of the blend: the weighted sum of the key offsets,
      one key at a time. */
  function WeightedSum(w: Vector, dif: seq<Pose>, nv: nat): (r: Pose)
    requires |w| == |dif| && forall j :: 0 <= j < |dif| ==> |dif[j]| == nv
    ensures |r| == nv
    decreases |w|
  {
    if |w| == 0 then ZeroPose(nv)
    else PoseAdd(PoseScale(w[0], dif[0]), WeightedSum(w[1..], dif[1..], nv))
  }

  lemma AxisAddScale(c: real, a: Vec3, b: Vec3, d: nat)
    requires d < 3
    ensures Axis(Add3(Scale3(c, a), b), d) == Axis(a, d) * c + Axis(b, d)
  {
  }

  lemma {:induction false} ColumnDotIsWeightedSum(w: Vector, dif: seq<Pose>, nv: nat, v: nat, d: nat)
    requires |w| == |dif| && forall j :: 0 <= j < |dif| ==> |dif[j]| == nv
    requires v < nv && d < 3
    ensures Dot(KeyColumn(dif, v, d), w) == Axis(WeightedSum(w, dif, nv)[v], d)
    decreases |w|
  {
    if |w| == 0 {
      assert ZeroPose(nv)[v] == Origin;
    } else {
      var rest := WeightedSum(w[1..], dif[1..], nv);
      KeyColumnSplit(dif, v, d);
      DotSplit(KeyColumn(dif, v, d), w);
      ColumnDotIsWeightedSum(w[1..], dif[1..], nv, v, d);
      WeightedSumSplit(w, dif, nv, v);
      AxisAddScale(w[0], dif[0][v], rest[v], d);
    }
  }

  lemma KeyColumnSplit(dif: seq<Pose>, v: nat, d: nat)
    requires d < 3 && |dif| > 0 && forall j :: 0 <= j < |dif| ==> v < |dif[j]|
    ensures KeyColumn(dif, v, d)[0] == Axis(dif[0][v], d)
    ensures KeyColumn(dif, v, d)[1..] == KeyColumn(dif[1..], v, d)
  {
  }

  lemma DotSplit(a: Vector, b: Vector)
    requires |a| == |b| > 0
    ensures Dot(a, b) == a[0] * b[0] + Dot(a[1..], b[1..])
  {
  }

  lemma WeightedSumSplit(w: Vector, dif: seq<Pose>, nv: nat, v: nat)
    requires |w| == |dif| > 0 && forall j :: 0 <= j < |dif| ==> |dif[j]| == nv
    requires v < nv
    ensures WeightedSum(w, dif, nv)[v] == Add3(Scale3(w[0], dif[0][v]), WeightedSum(w[1..], dif[1..], nv)[v])
  {
  }

  lemma BlendAxis(m: BlendshapeMesh, w: Vector, v: nat, d: nat)
    requires WellFormed(m) && |w| == |m.dif| && v < |m.basis| && d < 3
    ensures Axis(Blend(m, w)[v], d) == Axis(m.basis[v], d) + Dot(KeyColumn(m.dif, v, d), w)
  {
  }

  /** The blend is the basis plus the weighted sum of key offsets. */
  lemma VerticesIsWeightedSum(m: BlendshapeMesh, w: Vector)
    requires WellFormed(m) && |w| == |m.dif|
    ensures Vertices(m, w) == Success(PoseAdd(m.basis, WeightedSum(w, m.dif, |m.basis|)))
  {
    var nv := |m.basis|;
    var ws := WeightedSum(w, m.dif, nv);
    forall v | 0 <= v < nv
      ensures Blend(m, w)[v] == PoseAdd(m.basis, ws)[v]
    {
      forall d: nat | d < 3
        ensures Axis(Blend(m, w)[v], d) == Axis(PoseAdd(m.basis, ws)[v], d)
      {
        BlendAxis(m, w, v, d);
        ColumnDotIsWeightedSum(w, m.dif, nv, v, d);
      }
      AxesDetermine(Blend(m, w)[v], PoseAdd(m.basis, ws)[v]);
    }
    assert Blend(m, w) == PoseAdd(m.basis, ws);
  }

  /** All-zero weights reproduce the basis. */
  lemma VerticesOfZero(m: BlendshapeMesh)
    requires WellFormed(m)
    ensures Vertices(m, Zeros(|m.dif|)) == Success(m.basis)
  {
    var w := Zeros(|m.dif|);
    forall v | 0 <= v < |m.basis|
      ensures Blend(m, w)[v] == m.basis[v]
    {
      forall d: nat | d < 3
        ensures Axis(Blend(m, w)[v], d) == Axis(m.basis[v], d)
      {
        BlendAxis(m, w, v, d);
        DotZerosRight(KeyColumn(m.dif, v, d));
      }
      AxesDetermine(Blend(m, w)[v], m.basis[v]);
    }
    assert Blend(m, w) == m.basis;
  }

  /** Weight one on key i and zero elsewhere reproduces pose i + 1 of the
      stack the mesh was built from. */
  lemma VerticesOfUnit(data: seq<Pose>, i: nat)
    requires Build(data).Success? && i < |data| - 1
    ensures Vertices(Build(data).value, Unit(|data| - 1, i)) == Success(data[i + 1])
  {
    var m := Build(data).value;
    var w := Unit(|data| - 1, i);
    assert |data[i + 1]| == |data[0]|;
    forall v | 0 <= v < |m.basis|
      ensures Blend(m, w)[v] == data[i + 1][v]
    {
      forall d: nat | d < 3
        ensures Axis(Blend(m, w)[v], d) == Axis(data[i + 1][v], d)
      {
        BlendAxis(m, w, v, d);
        DotUnit(KeyColumn(m.dif, v, d), i);
        assert m.dif[i] == PoseSub(data[i + 1], data[0]);
        assert KeyColumn(m.dif, v, d)[i] == Axis(data[i + 1][v], d) - Axis(data[0][v], d);
      }
      AxesDetermine(Blend(m, w)[v], data[i + 1][v]);
    }
    assert Blend(m, w) == data[i + 1];
  }

  /** Every offset of a built mesh is its pose minus the basis. */
  lemma BuildOffsets(data: seq<Pose>, j: nat)
    requires Build(data).Success? && j < |data| - 1
    ensures |data[j + 1]| == |data[0]|
    ensures PoseAdd(Build(data).value.basis, Build(data).value.dif[j]) == data[j + 1]
  {
    var m := Build(data).value;
    assert |data[j + 1]| == |data[0]|;
    forall v | 0 <= v < |data[0]|
      ensures PoseAdd(m.basis, m.dif[j])[v] == data[j + 1][v]
    {
    }
  }

  /** `A` of `get_weights`: the offsets transposed to (nv, 3, nb) and reshaped,
      so row `3 * v + d` holds coordinate d of point v for every key. */
  function DesignMatrix(m: BlendshapeMesh): (A: Matrix)
    requires WellFormed(m)
    ensures |A| == 3 * |m.basis| && IsMatrix(A, |m.dif|)
    ensures forall v: nat, d: nat {:trigger FlatIndex(v, d)} :: v < |m.basis| && d < 3 ==>
      A[FlatIndex(v, d)] == KeyColumn(m.dif, v, d)
  {
    seq(3 * |m.basis|, k requires 0 <= k < 3 * |m.basis| => KeyColumn(m.dif, k / 3, k % 3))
  }

  /** `B` of `get_weights`: the landmarks' offset from the basis, flattened. */
  function Offsets(m: BlendshapeMesh, lms: Pose): (b: Vector)
    requires |lms| == |m.basis|
    ensures |b| == 3 * |m.basis|
    ensures forall v: nat, d: nat {:trigger FlatIndex(v, d)} :: v < |m.basis| && d < 3 ==>
      b[FlatIndex(v, d)] == Axis(lms[v], d) - Axis(m.basis[v], d)
  {
    VSub(Flatten(lms), Flatten(m.basis))
  }

  /** The design matrix applied to weights is the blended pose's offset from
      the basis, flattened. */
  lemma DesignMatrixReconstructs(m: BlendshapeMesh, w: Vector)
    requires WellFormed(m) && |w| == |m.dif|
    ensures MatVec(DesignMatrix(m), w) == VSub(Flatten(Vertices(m, w).value), Flatten(m.basis))
  {
    var A := DesignMatrix(m);
    var lhs := MatVec(A, w);
    var rhs := VSub(Flatten(Blend(m, w)), Flatten(m.basis));
    forall k | 0 <= k < |lhs|
      ensures lhs[k] == rhs[k]
    {
      var v: nat, d: nat := k / 3, k % 3;
      assert FlatIndex(v, d) == k;
      BlendAxis(m, w, v, d);
    }
  }

  /** `__costFunction`: the sum of squared coordinate differences of two poses. */
  function Cost(p: Pose, q: Pose): real
    requires |p| == |q|
  {
    NormSq(Flatten(PoseSub(p, q)))
  }

  /** The cost is a squared distance: never negative, and zero exactly when
      the poses coincide. */
  lemma CostIsDistance(p: Pose, q: Pose)
    requires |p| == |q|
    ensures Cost(p, q) >= 0.0
    ensures Cost(p, q) == 0.0 <==> p == q
  {
    NormSqNonNegative(Flatten(PoseSub(p, q)));
    if Cost(p, q) == 0.0 {
      NormSqZero(Flatten(PoseSub(p, q)));
      FlattenZeros(PoseSub(p, q));
      forall v | 0 <= v < |p|
        ensures p[v] == q[v]
      {
        assert PoseSub(p, q)[v] == Origin;
      }
    }
    if p == q {
      assert PoseSub(p, q) == ZeroPose(|p|);
      FlattenZeroPose(|p|);
      DotZerosRight(Zeros(3 * |p|));
    }
  }

  lemma FlattenZeroPose(n: nat)
    ensures Flatten(ZeroPose(n)) == Zeros(3 * n)
  {
    var f := Flatten(ZeroPose(n));
    forall k | 0 <= k < 3 * n
      ensures f[k] == 0.0
    {
      var v: nat, d: nat := k / 3, k % 3;
      assert FlatIndex(v, d) == k;
    }
  }

  lemma FlattenZeros(p: Pose)
    requires Flatten(p) == Zeros(3 * |p|)
    ensures p == ZeroPose(|p|)
  {
    FlattenZeroPose(|p|);
    FlattenInjective(p, ZeroPose(|p|));
  }

  /** The objective `||A x - B||^2` that `get_weights` minimises. */
  function FitError(m: BlendshapeMesh, lms: Pose, x: Vector): real
    requires WellFormed(m) && |lms| == |m.basis| && |x| == |m.dif|
  {
    SqResidual(DesignMatrix(m), Offsets(m, lms), x)
  }

  /** The least-squares objective at `x` is the cost between the pose `x`
      blends to and the landmarks. */
  lemma FitErrorIsCost(m: BlendshapeMesh, lms: Pose, x: Vector)
    requires WellFormed(m) && |lms| == |m.basis| && |x| == |m.dif|
    ensures FitError(m, lms, x) == Cost(Vertices(m, x).value, lms)
  {
    var u := VSub(MatVec(DesignMatrix(m), x), Offsets(m, lms));
    var p := Blend(m, x);
    DesignMatrixReconstructs(m, x);
    forall k | 0 <= k < |u|
      ensures u[k] == Flatten(PoseSub(p, lms))[k]
    {
      var v: nat, d: nat := k / 3, k % 3;
      assert FlatIndex(v, d) == k;
    }
    assert u == Flatten(PoseSub(p, lms));
  }

  /** What the numerical routine hands back: a solution and its squared residual. */
  datatype LstsqResult = LstsqResult(x: Vector, residual: real)

  type Solver = (Matrix, Vector) -> LstsqResult

  /** The routine answered correctly for `A x ~ b` with `cols` unknowns. */
  predicate SolvedAt(A: Matrix, cols: nat, b: Vector, out: LstsqResult)
  {
    SolvesNormalEquations(A, cols, b, out.x) && out.residual == SqResidual(A, b, out.x)
  }

  /** The pair `get_weights` returns. */
  datatype Fit = Fit(weights: Vector, error: real)

  /** `p` copied onto `n` points. */
  function Repeat(p: Vec3, n: nat): (r: Pose)
    ensures |r| == n
    ensures forall v :: 0 <= v < n ==> r[v] == p
  {
    seq(n, _ => p)
  }

  /** numpy broadcasting of two `(n, 3)` arrays against each other: poses of
      equal length pair up point by point, a single point is copied onto
      every point of the other pose, and any other pair of lengths is a shape
      error. */
  function Broadcast(p: Pose, q: Pose): (r: Option<(Pose, Pose)>)
    ensures r.Some? <==> |p| == |q| || |p| == 1 || |q| == 1
    ensures r.Some? ==> |r.value.0| == |r.value.1| == (if |p| == 1 then |q| else |p|)
    ensures r.Some? ==> forall v :: 0 <= v < |r.value.0| ==>
      r.value.0[v] == p[if |p| == 1 then 0 else v] && r.value.1[v] == q[if |q| == 1 then 0 else v]
  {
    if |p| == |q| then Some((p, q))
    else if |p| == 1 then Some((Repeat(p[0], |q|), q))
    else if |q| == 1 then Some((p, Repeat(q[0], |p|)))
    else None
  }

  /** The landmarks `landmarks - basis` subtracts the basis from: the landmarks
      themselves, or a single landmark copied onto every basis point. */
  function Spread(m: BlendshapeMesh, lms: Pose): (r: Pose)
    requires |lms| == |m.basis| || |lms| == 1
    ensures |r| == |m.basis|
    ensures forall v :: 0 <= v < |m.basis| ==> r[v] == lms[if |lms| == 1 then 0 else v]
  {
    if |lms| == |m.basis| then lms else Repeat(lms[0], |m.basis|)
  }

  /** `get_weights`: with no keys the stored weights and the cost of the basis
      against the landmarks, broadcast against each other; otherwise whatever
      the solver returns for the design matrix and the offsets of the
      (broadcast) landmarks. The system has `3 nv` rows, so landmarks that
      neither match the basis point for point nor are a single point are a
      shape error. */
  function GetWeights(m: BlendshapeMesh, lms: Pose, lstsq: Solver): (r: Result<Fit>)
    requires WellFormed(m)
    ensures |m.dif| == 0 ==> (r.Success? <==> |lms| == |m.basis| || |lms| == 1 || |m.basis| == 1)
    ensures |m.dif| > 0 ==> (r.Success? <==> |lms| == |m.basis| || |lms| == 1)
    ensures r.Failure? ==> r.error == DimensionMismatch
    ensures r.Success? && |m.dif| == 0 ==> r.value.weights == m.weights
    ensures r.Success? && |m.dif| == 0 && |lms| == |m.basis| ==> r.value.error == FitError(m, lms, [])
    ensures r.Success? && |m.dif| > 0 ==>
      r.value == Fit(lstsq(DesignMatrix(m), Offsets(m, Spread(m, lms))).x,
                     lstsq(DesignMatrix(m), Offsets(m, Spread(m, lms))).residual)
  {
    if |m.dif| == 0 then
      match Broadcast(m.basis, lms)
      case None => Failure(DimensionMismatch)
      case Some(pair) =>
        if |lms| == |m.basis| then NoKeysCostIsFitError(m, lms); Success(Fit(m.weights, Cost(m.basis, lms)))
        else Success(Fit(m.weights, Cost(pair.0, pair.1)))
    else if |lms| != |m.basis| && |lms| != 1 then Failure(DimensionMismatch)
    else
      var out := lstsq(DesignMatrix(m), Offsets(m, Spread(m, lms)));
      Success(Fit(out.x, out.residual))
  }

  /** A single landmark is fitted exactly like that point placed on every
      vertex of the basis. */
  lemma GetWeightsBroadcasts(m: BlendshapeMesh, lms: Pose, lstsq: Solver)
    requires WellFormed(m) && |lms| == 1
    ensures GetWeights(m, lms, lstsq) == GetWeights(m, Repeat(lms[0], |m.basis|), lstsq)
  {
    var spread := Repeat(lms[0], |m.basis|);
    if |m.basis| == 1 {
      assert spread == lms;
    } else if |m.dif| > 0 {
      assert Spread(m, lms) == spread;
      assert Spread(m, spread) == spread;
    }
  }

  /** With no keys and a one-point basis, every landmark is measured against
      that single point. */
  lemma NoKeysBroadcastsBasis(m: BlendshapeMesh, lms: Pose, lstsq: Solver)
    requires WellFormed(m) && |m.dif| == 0 && |m.basis| == 1
    ensures GetWeights(m, lms, lstsq).Success?
    ensures GetWeights(m, lms, lstsq).value.error == Cost(Repeat(m.basis[0], |lms|), lms)
  {
    if |lms| == 1 {
      assert Repeat(m.basis[0], 1) == m.basis;
    }
  }

  /** With no keys the basis is the only reachable pose, so its cost is the
      objective at the empty weight vector. */
  lemma NoKeysCostIsFitError(m: BlendshapeMesh, lms: Pose)
    requires WellFormed(m) && |m.dif| == 0 && |lms| == |m.basis|
    ensures Cost(m.basis, lms) == FitError(m, lms, [])
  {
    VerticesOfZero(m);
    assert Zeros(0) == [];
    FitErrorIsCost(m, lms, []);
  }

  /** Whenever the solver answers correctly, `get_weights` returns weights no
      other weight vector beats, with their true error. */
  lemma GetWeightsMinimises(m: BlendshapeMesh, lms: Pose, lstsq: Solver, y: Vector)
    requires WellFormed(m) && |lms| == |m.basis| && |y| == |m.dif|
    requires |m.dif| > 0 ==> SolvedAt(DesignMatrix(m), |m.dif|, Offsets(m, lms), lstsq(DesignMatrix(m), Offsets(m, lms)))
    ensures GetWeights(m, lms, lstsq).Success?
    ensures |GetWeights(m, lms, lstsq).value.weights| == |m.dif|
    ensures GetWeights(m, lms, lstsq).value.error == FitError(m, lms, GetWeights(m, lms, lstsq).value.weights)
    ensures GetWeights(m, lms, lstsq).value.error <= FitError(m, lms, y)
  {
    var r := GetWeights(m, lms, lstsq).value;
    if |m.dif| == 0 {
      assert y == [];
    } else {
      NormalEquationsMinimise(DesignMatrix(m), |m.dif|, Offsets(m, lms), r.weights, y);
    }
  }

  /** The key offsets are linearly independent: only all-zero weights blend
      to the basis. */
  ghost predicate DeltasIndependent(m: BlendshapeMesh)
    requires WellFormed(m)
  {
    forall c: Vector {:trigger WeightedSum(c, m.dif, |m.basis|)} ::
      |c| == |m.dif| && WeightedSum(c, m.dif, |m.basis|) == ZeroPose(|m.basis|) ==> c == Zeros(|m.dif|)
  }

  lemma IndependentIsFullRank(m: BlendshapeMesh)
    requires WellFormed(m) && DeltasIndependent(m)
    ensures FullColumnRank(DesignMatrix(m), |m.dif|)
  {
    var A := DesignMatrix(m);
    var nv := |m.basis|;
    forall c | |c| == |m.dif| && MatVec(A, c) == Zeros(|A|)
      ensures c == Zeros(|m.dif|)
    {
      var ws := WeightedSum(c, m.dif, nv);
      forall k | 0 <= k < 3 * nv
        ensures Flatten(ws)[k] == 0.0
      {
        var v: nat, d: nat := k / 3, k % 3;
        assert FlatIndex(v, d) == k;
        ColumnDotIsWeightedSum(c, m.dif, nv, v, d);
        assert MatVec(A, c)[k] == 0.0;
      }
      assert Flatten(ws) == Zeros(3 * nv);
      FlattenZeros(ws);
    }
  }

  /** Round trip: landmarks blended from weights `w` are fitted back to `w`
      with zero error, when the offsets are independent and the solver is
      correct. */
  lemma GetWeightsRoundTrip(m: BlendshapeMesh, w: Vector, lstsq: Solver)
    requires WellFormed(m) && |w| == |m.dif| && DeltasIndependent(m)
    requires |m.dif| > 0 ==> SolvedAt(DesignMatrix(m), |m.dif|, Offsets(m, Vertices(m, w).value),
                                      lstsq(DesignMatrix(m), Offsets(m, Vertices(m, w).value)))
    ensures GetWeights(m, Vertices(m, w).value, lstsq).Success?
    ensures GetWeights(m, Vertices(m, w).value, lstsq).value.weights == (if |m.dif| == 0 then m.weights else w)
    ensures GetWeights(m, Vertices(m, w).value, lstsq).value.error == 0.0
  {
    var lms := Vertices(m, w).value;
    var r := GetWeights(m, lms, lstsq).value;
    if |m.dif| == 0 {
      VerticesOfZero(m);
      assert w == Zeros(0);
      CostIsDistance(m.basis, lms);
    } else {
      var A := DesignMatrix(m);
      DesignMatrixReconstructs(m, w);
      assert Offsets(m, lms) == MatVec(A, w);
      IndependentIsFullRank(m);
      NormalEquationsRecoverExact(A, |m.dif|, w, r.weights);
    }
  }
}
