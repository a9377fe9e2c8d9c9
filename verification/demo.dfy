/** The self-test at the bottom of `Blendshape.py`: a two-point basis with
    four keys, blended with known weights and fitted back. The arithmetic on
    the concrete stack is spelled out step by step, because the verifier does
    not evaluate products of literal vectors unaided. */
module SelfTest {
  import opened Results
  import opened LinAlg
  import opened Blendshape

  /** The five-pose stack of the module's self-test: a basis and four keys of two points. */
  const DemoData: seq<Pose> := [
    [Vec3(1.0, 2.0, 3.0), Vec3(4.0, 5.0, 6.0)],
    [Vec3(2.0, 3.0, 4.0), Vec3(3.0, 4.0, 5.0)],
    [Vec3(1.0, 2.0, 3.0), Vec3(3.0, 4.0, 6.0)],
    [Vec3(3.0, 1.0, 4.0), Vec3(5.0, 4.0, 7.0)],
    [Vec3(4.0, 3.0, 1.0), Vec3(4.0, 4.0, 1.0)]]

  /** The weights the self-test blends and then fits back. */
  const DemoWeights: Vector := [0.9, 0.1, 0.6, 0.5]

  /** The mesh the self-test builds: its basis and four offsets. */
  const DemoMesh: BlendshapeMesh := BlendshapeMesh(
    [Vec3(1.0, 2.0, 3.0), Vec3(4.0, 5.0, 6.0)],
    [[Vec3(1.0, 1.0, 1.0), Vec3(-1.0, -1.0, -1.0)],
     [Vec3(0.0, 0.0, 0.0), Vec3(-1.0, -1.0, 0.0)],
     [Vec3(2.0, -1.0, 1.0), Vec3(1.0, -1.0, 1.0)],
     [Vec3(3.0, 1.0, -2.0), Vec3(0.0, -1.0, -5.0)]],
    [0.0, 0.0, 0.0, 0.0])

  /** Building the self-test's stack yields the offsets worked out by hand. */
  lemma DemoBuild()
    ensures Build(DemoData) == Success(DemoMesh)
  {
    assert Rectangular(DemoData);
    var m := Build(DemoData).value;
    forall j | 0 <= j < 4
      ensures m.dif[j] == DemoMesh.dif[j]
    {
      assert m.dif[j] == PoseSub(DemoData[j + 1], DemoData[0]);
      PoseSubPair(DemoData[j + 1][0], DemoData[j + 1][1], DemoData[0][0], DemoData[0][1]);
    }
    assert m.dif == DemoMesh.dif;
    assert m.weights == DemoMesh.weights;
  }

  lemma PairEquality(p: Pose, q: Pose)
    requires |p| == |q| == 2 && p[0] == q[0] && p[1] == q[1]
    ensures p == q
  {
  }

  lemma PoseSubPair(a0: Vec3, a1: Vec3, b0: Vec3, b1: Vec3)
    ensures PoseSub([a0, a1], [b0, b1]) == [Sub3(a0, b0), Sub3(a1, b1)]
  {
  }

  lemma DotOfFour(a: Vector, b: Vector)
    requires |a| == |b| == 4
    ensures Dot(a, b) == a[0] * b[0] + a[1] * b[1] + a[2] * b[2] + a[3] * b[3]
  {
    DotStep(a, b, 0);
    DotStep(a, b, 1);
    DotStep(a, b, 2);
    DotStep(a, b, 3);
    assert a[4..] == [] && b[4..] == [];
  }

  lemma DotStep(a: Vector, b: Vector, i: nat)
    requires |a| == |b| && i < |a|
    ensures Dot(a[i..], b[i..]) == a[i] * b[i] + Dot(a[i + 1..], b[i + 1..])
  {
    assert a[i..][1..] == a[i + 1..] && b[i..][1..] == b[i + 1..];
  }

  /** The rows of the self-test's design matrix. */
  lemma DemoColumns()
    ensures WellFormed(DemoMesh)
    ensures KeyColumn(DemoMesh.dif, 0, 0) == [1.0, 0.0, 2.0, 3.0]
    ensures KeyColumn(DemoMesh.dif, 0, 1) == [1.0, 0.0, -1.0, 1.0]
    ensures KeyColumn(DemoMesh.dif, 0, 2) == [1.0, 0.0, 1.0, -2.0]
    ensures KeyColumn(DemoMesh.dif, 1, 0) == [-1.0, -1.0, 1.0, 0.0]
    ensures KeyColumn(DemoMesh.dif, 1, 1) == [-1.0, -1.0, -1.0, -1.0]
    ensures KeyColumn(DemoMesh.dif, 1, 2) == [-1.0, 0.0, 1.0, -5.0]
  {
  }

  /** One coordinate of the blend of a four-key mesh, for a design-matrix
      row given by its entries. */
  lemma RowOfFour(m: BlendshapeMesh, c: Vector, v: nat, d: nat, k0: real, k1: real, k2: real, k3: real)
    requires WellFormed(m) && |c| == |m.dif| == 4 && v < |m.basis| && d < 3
    requires KeyColumn(m.dif, v, d) == [k0, k1, k2, k3]
    ensures Axis(Blend(m, c)[v], d) == Axis(m.basis[v], d) + Combination(k0, k1, k2, k3, c)
    ensures Axis(WeightedSum(c, m.dif, |m.basis|)[v], d) == Combination(k0, k1, k2, k3, c)
  {
    var col := KeyColumn(m.dif, v, d);
    ColumnDotIsWeightedSum(c, m.dif, |m.basis|, v, d);
    BlendAxis(m, c, v, d);
    DotOfFour(col, c);
    assert col[0] == k0 && col[1] == k1 && col[2] == k2 && col[3] == k3;
  }

  /** The combination of four weights with the entries of one row. */
  function Combination(k0: real, k1: real, k2: real, k3: real, c: Vector): real
    requires |c| == 4
  {
    k0 * c[0] + k1 * c[1] + k2 * c[2] + k3 * c[3]
  }

  lemma DemoSystem(c: Vector)
    requires |c| == 4
    requires Combination(1.0, 0.0, 2.0, 3.0, c) == 0.0
    requires Combination(1.0, 0.0, -1.0, 1.0, c) == 0.0
    requires Combination(1.0, 0.0, 1.0, -2.0, c) == 0.0
    requires Combination(-1.0, -1.0, 1.0, 0.0, c) == 0.0
    ensures c == Zeros(4)
  {
    assert c[0] == 0.0 && c[1] == 0.0 && c[2] == 0.0 && c[3] == 0.0;
    ZerosOfFour(c);
  }

  /** A design-matrix row of a four-key mesh annihilates any weights that
      blend to nothing. */
  lemma KernelRow(m: BlendshapeMesh, c: Vector, v: nat, d: nat, k0: real, k1: real, k2: real, k3: real)
    requires WellFormed(m) && |c| == |m.dif| == 4 && v < |m.basis| && d < 3
    requires KeyColumn(m.dif, v, d) == [k0, k1, k2, k3]
    requires WeightedSum(c, m.dif, |m.basis|) == ZeroPose(|m.basis|)
    ensures Combination(k0, k1, k2, k3, c) == 0.0
  {
    RowOfFour(m, c, v, d, k0, k1, k2, k3);
    assert ZeroPose(|m.basis|)[v] == Origin;
  }

  /** Any two-point, four-key mesh with the self-test's first four rows has
      only the trivial kernel. */
  lemma KernelOfDemoRows(m: BlendshapeMesh, c: Vector)
    requires WellFormed(m) && |c| == |m.dif| == 4 && |m.basis| == 2
    requires KeyColumn(m.dif, 0, 0) == [1.0, 0.0, 2.0, 3.0]
    requires KeyColumn(m.dif, 0, 1) == [1.0, 0.0, -1.0, 1.0]
    requires KeyColumn(m.dif, 0, 2) == [1.0, 0.0, 1.0, -2.0]
    requires KeyColumn(m.dif, 1, 0) == [-1.0, -1.0, 1.0, 0.0]
    requires WeightedSum(c, m.dif, 2) == ZeroPose(2)
    ensures c == Zeros(4)
  {
    KernelRow(m, c, 0, 0, 1.0, 0.0, 2.0, 3.0);
    KernelRow(m, c, 0, 1, 1.0, 0.0, -1.0, 1.0);
    KernelRow(m, c, 0, 2, 1.0, 0.0, 1.0, -2.0);
    KernelRow(m, c, 1, 0, -1.0, -1.0, 1.0, 0.0);
    DemoSystem(c);
  }

  lemma ZerosOfFour(c: Vector)
    requires |c| == 4 && c[0] == 0.0 && c[1] == 0.0 && c[2] == 0.0 && c[3] == 0.0
    ensures c == Zeros(4)
  {
    assert c == [0.0, 0.0, 0.0, 0.0];
  }

  /** The self-test's keys are independent, so its fit is exact. */
  lemma DemoIndependent()
    ensures WellFormed(DemoMesh) && DeltasIndependent(DemoMesh)
  {
    forall c: Vector | |c| == 4 && WeightedSum(c, DemoMesh.dif, 2) == ZeroPose(2)
      ensures c == Zeros(4)
    {
      DemoColumns();
      KernelOfDemoRows(DemoMesh, c);
    }
  }

  /** The landmarks the self-test blends from its weights. */
  const DemoLandmarks: Pose := [Vec3(4.6, 2.8, 3.5), Vec3(3.6, 2.9, 3.2)]

  lemma DemoCombinations()
    ensures Combination(1.0, 0.0, 2.0, 3.0, DemoWeights) == 3.6
    ensures Combination(1.0, 0.0, -1.0, 1.0, DemoWeights) == 0.8
    ensures Combination(1.0, 0.0, 1.0, -2.0, DemoWeights) == 0.5
    ensures Combination(-1.0, -1.0, 1.0, 0.0, DemoWeights) == -0.4
    ensures Combination(-1.0, -1.0, -1.0, -1.0, DemoWeights) == -2.1
    ensures Combination(-1.0, 0.0, 1.0, -5.0, DemoWeights) == -2.8
  {
  }

  /** One blended point of a four-key mesh, from its three design-matrix rows. */
  lemma PointOfRows(m: BlendshapeMesh, w: Vector, v: nat, e: Vec3,
                    x0: real, x1: real, x2: real, x3: real,
                    y0: real, y1: real, y2: real, y3: real,
                    z0: real, z1: real, z2: real, z3: real)
    requires WellFormed(m) && |w| == |m.dif| == 4 && v < |m.basis|
    requires KeyColumn(m.dif, v, 0) == [x0, x1, x2, x3]
    requires KeyColumn(m.dif, v, 1) == [y0, y1, y2, y3]
    requires KeyColumn(m.dif, v, 2) == [z0, z1, z2, z3]
    requires e.x == m.basis[v].x + Combination(x0, x1, x2, x3, w)
    requires e.y == m.basis[v].y + Combination(y0, y1, y2, y3, w)
    requires e.z == m.basis[v].z + Combination(z0, z1, z2, z3, w)
    ensures Blend(m, w)[v] == e
  {
    RowOfFour(m, w, v, 0, x0, x1, x2, x3);
    RowOfFour(m, w, v, 1, y0, y1, y2, y3);
    RowOfFour(m, w, v, 2, z0, z1, z2, z3);
    AxesDetermine(Blend(m, w)[v], e);
  }

  lemma DemoVertices()
    ensures WellFormed(DemoMesh)
    ensures Vertices(DemoMesh, DemoWeights) == Success(DemoLandmarks)
  {
    DemoColumns();
    DemoCombinations();
    PointOfRows(DemoMesh, DemoWeights, 0, DemoLandmarks[0],
                1.0, 0.0, 2.0, 3.0, 1.0, 0.0, -1.0, 1.0, 1.0, 0.0, 1.0, -2.0);
    PointOfRows(DemoMesh, DemoWeights, 1, DemoLandmarks[1],
                -1.0, -1.0, 1.0, 0.0, -1.0, -1.0, -1.0, -1.0, -1.0, 0.0, 1.0, -5.0);
    PairEquality(Blend(DemoMesh, DemoWeights), DemoLandmarks);
  }

  /** The self-test end to end: the stack builds to `DemoMesh`, the weights
      0.9, 0.1, 0.6, 0.5 blend to `DemoLandmarks`, and any correct solver
      fits those landmarks back to the same weights with zero error. */
  lemma DemoRoundTrip(lstsq: Solver)
    requires SolvedAt(DesignMatrix(DemoMesh), 4, Offsets(DemoMesh, DemoLandmarks),
                      lstsq(DesignMatrix(DemoMesh), Offsets(DemoMesh, DemoLandmarks)))
    ensures Build(DemoData) == Success(DemoMesh)
    ensures Vertices(DemoMesh, DemoWeights) == Success(DemoLandmarks)
    ensures GetWeights(DemoMesh, DemoLandmarks, lstsq) == Success(Fit(DemoWeights, 0.0))
  {
    DemoBuild();
    DemoVertices();
    DemoIndependent();
    GetWeightsRoundTrip(DemoMesh, DemoWeights, lstsq);
  }
}
