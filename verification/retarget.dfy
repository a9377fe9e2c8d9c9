/** Manual retargeting between two shape-keyed meshes.

    Calibration records, for one source shape key, the target mesh's key
    readings divided by that source key's reading, in a conversion table kept
    on the source mesh (a string-keyed map of string-keyed maps). Application
    resets every target key and then sums, over the source keys with a table
    row, source value times stored scale.
 */
module Retarget {
  import opened Results
  import opened LinAlg
  import opened Host

  /** Source key name to (target key name to scale). */
  type Table = map<string, map<string, real>>

  // ---------------------------------------------------------------------------
  // get_vals and calculate_shape_key_weights
  // ---------------------------------------------------------------------------

  /** `get_vals`: the (name, value) pair of every key block, in order; an
      object without shape keys makes the attribute access fail. */
  function GetVals(obj: MeshObject): (r: Result<seq<(string, real)>>)
    ensures r.Failure? <==> |obj.keyBlocks| == 0
    ensures r.Failure? ==> r.error == MissingShapeKeys
    ensures r.Success? ==>
      (|r.value| == |obj.keyBlocks| &&
       forall i :: 0 <= i < |r.value| ==> r.value[i] == (obj.keyBlocks[i].name, obj.keyBlocks[i].value))
  {
    if |obj.keyBlocks| == 0 then Failure(MissingShapeKeys)
    else Success(seq(|obj.keyBlocks|, i requires 0 <= i < |obj.keyBlocks| =>
                   (obj.keyBlocks[i].name, obj.keyBlocks[i].value)))
  }

  /** After the capture writes weights, reading the mesh gives them back
      behind the basis key's own value. */
  lemma GetValsAfterUpdate(obj: MeshObject, weights: Vector, i: nat)
    requires |obj.keyBlocks| > 0 && |weights| >= |obj.keyBlocks| - 1 && i < |obj.keyBlocks| - 1
    ensures UpdateWeightsBlender(obj, weights).Success?
    ensures GetVals(UpdateWeightsBlender(obj, weights).value).Success?
    ensures GetVals(UpdateWeightsBlender(obj, weights).value).value[i + 1]
      == (obj.keyBlocks[i + 1].name, weights[i])
    ensures GetVals(UpdateWeightsBlender(obj, weights).value).value[0]
      == (obj.keyBlocks[0].name, obj.keyBlocks[0].value)
  {
  }

  /** Index of the first non-zero entry, if any. */
  function FirstNonZero(v: Vector): (r: Option<nat>)
    ensures r.Some? ==> r.value < |v| && v[r.value] != 0.0 && forall k :: 0 <= k < r.value ==> v[k] == 0.0
    ensures r.None? ==> forall k :: 0 <= k < |v| ==> v[k] == 0.0
  {
    if |v| == 0 then None
    else if v[0] != 0.0 then Some(0)
    else match FirstNonZero(v[1..])
      case None => None
      case Some(p) => Some(p + 1)
  }

  /** The simplified `calculate_shape_key_weights`: the target divided by
      the source's first non-zero entry, together with that entry's index. */
  function CalculateShapeKeyWeights(target: Vector, source: Vector): (r: Result<(Vector, nat)>)
    ensures r.Failure? <==> forall k :: 0 <= k < |source| ==> source[k] == 0.0
    ensures r.Failure? ==> r.error == NoNonZeroSource
    ensures r.Success? ==>
      var (a, pos) := r.value;
      pos < |source| && source[pos] != 0.0 && (forall k :: 0 <= k < pos ==> source[k] == 0.0) &&
      |a| == |target| && forall i :: 0 <= i < |a| ==> a[i] * source[pos] == target[i]
  {
    match FirstNonZero(source)
    case None => Failure(NoNonZeroSource)
    case Some(pos) =>
      var a := seq(|target|, i requires 0 <= i < |target| => target[i] / source[pos]);
      assert forall i :: 0 <= i < |a| ==> a[i] * source[pos] == target[i] by {
        forall i | 0 <= i < |a| {
          DivMulCancel(target[i], source[pos]);
        }
      }
      Success((a, pos))
  }

  lemma DivMulCancel(t: real, v: real)
    requires v != 0.0
    ensures (t / v) * v == t
    ensures v * (t / v) == t
  {
  }

  // ---------------------------------------------------------------------------
  // Calibration
  // ---------------------------------------------------------------------------

  /** `key_blocks[name]`: the index of the first key block of that name. */
  function FindKey(kbs: seq<KeyBlock>, name: string): (r: Option<nat>)
    ensures r.Some? ==>
      (r.value < |kbs| && kbs[r.value].name == name &&
       forall q :: 0 <= q < r.value ==> kbs[q].name != name)
    ensures r.None? ==> forall q :: 0 <= q < |kbs| ==> kbs[q].name != name
  {
    if |kbs| == 0 then None
    else if kbs[0].name == name then Some(0)
    else match FindKey(kbs[1..], name)
      case None => None
      case Some(p) => Some(p + 1)
  }

  /** The calibration divider: the reference reading, or 1 when it is 0. */
  function Divider(reading: real): (d: real)
    ensures d != 0.0
    ensures reading != 0.0 ==> d == reading
    ensures reading == 0.0 ==> d == 1.0
  {
    if reading == 0.0 then 1.0 else reading
  }

  /** No later pair in the list carries the same name as pair k. */
  predicate LastOfName(pairs: seq<(string, real)>, k: nat)
    requires k < |pairs|
  {
    forall q :: k < q < |pairs| ==> pairs[q].0 != pairs[k].0
  }

  /** The calibration loop: store `value / divider` under every name, in
      order, so that a later pair of the same name wins. */
  function StoreScaled(row: map<string, real>, pairs: seq<(string, real)>, divider: real): (r: map<string, real>)
    requires divider != 0.0
    ensures forall n :: n in r <==> n in row || exists k :: 0 <= k < |pairs| && pairs[k].0 == n
    ensures forall k :: 0 <= k < |pairs| && LastOfName(pairs, k) ==> r[pairs[k].0] == pairs[k].1 / divider
    ensures forall n :: n in row && (forall k :: 0 <= k < |pairs| ==> pairs[k].0 != n) ==> r[n] == row[n]
    decreases |pairs|
  {
    if |pairs| == 0 then row
    else
      var first := row[pairs[0].0 := pairs[0].1 / divider];
      var r := StoreScaled(first, pairs[1..], divider);
      StoreScaledNames(row, pairs, divider, r);
      StoreScaledLast(row, pairs, divider, r);
      r
  }

  /** The names stored after the first pair are those of the later pairs. */
  lemma StoreScaledNames(row: map<string, real>, pairs: seq<(string, real)>, divider: real, r: map<string, real>)
    requires divider != 0.0 && |pairs| > 0
    requires forall n :: n in r <==>
      (n in row[pairs[0].0 := pairs[0].1 / divider] || exists k :: 0 <= k < |pairs[1..]| && pairs[1..][k].0 == n)
    ensures forall n :: n in r <==> n in row || exists k :: 0 <= k < |pairs| && pairs[k].0 == n
  {
    forall n | n in row || exists k :: 0 <= k < |pairs| && pairs[k].0 == n
      ensures n in r
    {
      if n != pairs[0].0 && n !in row {
        var k :| 0 <= k < |pairs| && pairs[k].0 == n;
        assert pairs[1..][k - 1].0 == n;
      }
    }
    forall n | n in r
      ensures n in row || exists k :: 0 <= k < |pairs| && pairs[k].0 == n
    {
      if n != pairs[0].0 && n !in row {
        var k :| 0 <= k < |pairs[1..]| && pairs[1..][k].0 == n;
        assert pairs[k + 1].0 == n;
      }
    }
  }

  /** The last pair of each name decides its value; untouched names keep theirs. */
  lemma StoreScaledLast(row: map<string, real>, pairs: seq<(string, real)>, divider: real, r: map<string, real>)
    requires divider != 0.0 && |pairs| > 0
    requires forall n :: n in r <==>
      (n in row[pairs[0].0 := pairs[0].1 / divider] || exists k :: 0 <= k < |pairs[1..]| && pairs[1..][k].0 == n)
    requires forall k :: 0 <= k < |pairs[1..]| && LastOfName(pairs[1..], k) ==>
      r[pairs[1..][k].0] == pairs[1..][k].1 / divider
    requires forall n ::
      (n in row[pairs[0].0 := pairs[0].1 / divider] && forall k :: 0 <= k < |pairs[1..]| ==> pairs[1..][k].0 != n) ==>
      r[n] == row[pairs[0].0 := pairs[0].1 / divider][n]
    ensures forall k :: 0 <= k < |pairs| && LastOfName(pairs, k) ==> r[pairs[k].0] == pairs[k].1 / divider
    ensures forall n :: n in row && (forall k :: 0 <= k < |pairs| ==> pairs[k].0 != n) ==> r[n] == row[n]
  {
    var rest := pairs[1..];
    forall k | 0 <= k < |pairs| && LastOfName(pairs, k)
      ensures r[pairs[k].0] == pairs[k].1 / divider
    {
      if k > 0 {
        assert rest[k - 1] == pairs[k];
        assert LastOfName(rest, k - 1);
      } else {
        forall q | 0 <= q < |rest|
          ensures rest[q].0 != pairs[0].0
        {
          assert rest[q] == pairs[q + 1];
        }
      }
    }
    forall n | n in row && (forall k :: 0 <= k < |pairs| ==> pairs[k].0 != n)
      ensures r[n] == row[n]
    {
      forall q | 0 <= q < |rest|
        ensures rest[q].0 != n
      {
        assert rest[q] == pairs[q + 1];
      }
    }
  }

  /** The last target key of its name: the one whose reading calibration keeps. */
  predicate LastKeyOfName(kbs: seq<KeyBlock>, j: nat)
    requires j < |kbs|
  {
    forall q :: j < q < |kbs| ==> kbs[q].name != kbs[j].name
  }

  /** The divider calibration uses for source key `sk`, when it exists. */
  function ReferenceDivider(source: MeshObject, sk: string): real
    requires FindKey(source.keyBlocks, sk).Some?
  {
    Divider(source.keyBlocks[FindKey(source.keyBlocks, sk).value].value)
  }

  /** The row `sk` starts from: the stored one, or an empty one. */
  function StartingRow(table: Table, sk: string): map<string, real>
  {
    if sk in table then table[sk] else map[]
  }

  /** `Blendshape_retarget_single_blendshape.execute`: divide every target
      reading by the source key `sk`'s reading (guarded against 0) and store
      the quotients in row `sk`, created empty when missing. */
  function Calibrate(table: Table, source: MeshObject, target: MeshObject, sk: string): (r: Result<Table>)
    ensures r.Failure? <==> |source.keyBlocks| == 0 || FindKey(source.keyBlocks, sk).None? || |target.keyBlocks| == 0
    ensures r.Failure? && |source.keyBlocks| == 0 ==> r.error == MissingShapeKeys
    ensures r.Failure? && |source.keyBlocks| > 0 && FindKey(source.keyBlocks, sk).None? ==> r.error == MissingKeyBlock(sk)
    ensures r.Success? ==> r.value.Keys == table.Keys + {sk}
    ensures r.Success? ==> forall k :: k in table && k != sk ==> r.value[k] == table[k]
  {
    if |source.keyBlocks| == 0 then Failure(MissingShapeKeys)
    else match FindKey(source.keyBlocks, sk)
      case None => Failure(MissingKeyBlock(sk))
      case Some(p) =>
        var divider := Divider(source.keyBlocks[p].value);
        match GetVals(target)
        case Failure(e) => Failure(e)
        case Success(organized) => Success(table[sk := StoreScaled(StartingRow(table, sk), organized, divider)])
  }

  /** `Blendshape_retarget_single_blendshape.execute` on the scene's two
      mesh fields, either of which may be unset. The blendshape mesh is
      dereferenced first, for the divider; the retarget mesh only after the
      divider was read, when its readings are taken. Nothing is stored
      before both dereferences succeed. */
  function CalibrateFromScene(table: Table, blendshape: Option<MeshObject>, retarget: Option<MeshObject>,
                              sk: string): (r: Result<Table>)
    ensures r.Success? ==> blendshape.Some? && retarget.Some?
    ensures blendshape.None? ==> r == Failure(NoBlendshapeMesh)
    ensures blendshape.Some? && retarget.None? ==>
      r.Failure? &&
      (r.error == NoRetargetMesh <==>
         |blendshape.value.keyBlocks| > 0 && FindKey(blendshape.value.keyBlocks, sk).Some?)
    ensures blendshape.Some? && retarget.Some? ==> r == Calibrate(table, blendshape.value, retarget.value, sk)
  {
    match blendshape
    case None => Failure(NoBlendshapeMesh)
    case Some(source) =>
      if |source.keyBlocks| == 0 then Failure(MissingShapeKeys)
      else if FindKey(source.keyBlocks, sk).None? then Failure(MissingKeyBlock(sk))
      else match retarget
        case None => Failure(NoRetargetMesh)
        case Some(target) => Calibrate(table, source, target, sk)
  }

  /** Row `sk` after calibration holds, for each target key name, the last
      such key's reading over the divider. */
  lemma CalibrateRow(table: Table, source: MeshObject, target: MeshObject, sk: string, j: nat)
    requires |source.keyBlocks| > 0 && |target.keyBlocks| > 0 && FindKey(source.keyBlocks, sk).Some?
    requires j < |target.keyBlocks| && LastKeyOfName(target.keyBlocks, j)
    ensures target.keyBlocks[j].name in Calibrate(table, source, target, sk).value[sk]
    ensures Calibrate(table, source, target, sk).value[sk][target.keyBlocks[j].name]
      == target.keyBlocks[j].value / ReferenceDivider(source, sk)
  {
    var organized := GetVals(target).value;
    assert LastOfName(organized, j);
  }

  /** Row `sk` after calibration has exactly the old row's names and the
      target's key names; old entries the target does not name survive. */
  lemma CalibrateRowNames(table: Table, source: MeshObject, target: MeshObject, sk: string, n: string)
    requires |source.keyBlocks| > 0 && |target.keyBlocks| > 0 && FindKey(source.keyBlocks, sk).Some?
    ensures n in Calibrate(table, source, target, sk).value[sk] <==>
      n in StartingRow(table, sk) || exists j :: 0 <= j < |target.keyBlocks| && target.keyBlocks[j].name == n
    ensures n in StartingRow(table, sk) && (forall j :: 0 <= j < |target.keyBlocks| ==> target.keyBlocks[j].name != n)
      ==> Calibrate(table, source, target, sk).value[sk][n] == StartingRow(table, sk)[n]
  {
    var organized := GetVals(target).value;
    assert forall j :: 0 <= j < |organized| ==> organized[j].0 == target.keyBlocks[j].name;
  }

  /** A target key reading exactly as much as the non-zero reference reading
      is stored with scale 1. */
  lemma CalibrateUnitScale(table: Table, source: MeshObject, target: MeshObject, sk: string, j: nat)
    requires |source.keyBlocks| > 0 && |target.keyBlocks| > 0 && FindKey(source.keyBlocks, sk).Some?
    requires j < |target.keyBlocks| && LastKeyOfName(target.keyBlocks, j)
    requires source.keyBlocks[FindKey(source.keyBlocks, sk).value].value != 0.0
    requires target.keyBlocks[j].value == source.keyBlocks[FindKey(source.keyBlocks, sk).value].value
    ensures Calibrate(table, source, target, sk).value[sk][target.keyBlocks[j].name] == 1.0
  {
    CalibrateRow(table, source, target, sk, j);
    var v := source.keyBlocks[FindKey(source.keyBlocks, sk).value].value;
    assert ReferenceDivider(source, sk) == v;
    calc {
      Calibrate(table, source, target, sk).value[sk][target.keyBlocks[j].name];
      target.keyBlocks[j].value / ReferenceDivider(source, sk);
      v / v;
      { DivSelf(v); }
      1.0;
    }
  }

  lemma DivSelf(v: real)
    requires v != 0.0
    ensures v / v == 1.0
  {
  }

  /** With the reference reading at 0, the readings are stored unscaled. */
  lemma CalibrateZeroReference(table: Table, source: MeshObject, target: MeshObject, sk: string, j: nat)
    requires |source.keyBlocks| > 0 && |target.keyBlocks| > 0 && FindKey(source.keyBlocks, sk).Some?
    requires j < |target.keyBlocks| && LastKeyOfName(target.keyBlocks, j)
    requires source.keyBlocks[FindKey(source.keyBlocks, sk).value].value == 0.0
    ensures Calibrate(table, source, target, sk).value[sk][target.keyBlocks[j].name] == target.keyBlocks[j].value
  {
    CalibrateRow(table, source, target, sk, j);
  }

  // ---------------------------------------------------------------------------
  // Application
  // ---------------------------------------------------------------------------

  /** What one source key adds to the target key named `name`. */
  function Term(key: KeyBlock, name: string, table: Table): real
  {
    if key.name in table && name in table[key.name] then key.value * table[key.name][name] else 0.0
  }

  lemma TermPresent(key: KeyBlock, name: string, table: Table)
    requires key.name in table && name in table[key.name]
    ensures Term(key, name, table) == key.value * table[key.name][name]
  {
  }

  /** Reference definition of a target value after application: the sum of
      the terms of all source keys, accumulated in source order. */
  function Contribution(source: seq<KeyBlock>, name: string, table: Table): real
    decreases |source|
  {
    if |source| == 0 then 0.0
    else Contribution(source[..|source| - 1], name, table) + Term(source[|source| - 1], name, table)
  }

  lemma ContributionStep(source: seq<KeyBlock>, i: nat, name: string, table: Table)
    requires i < |source|
    ensures Contribution(source[..i + 1], name, table) == Contribution(source[..i], name, table) + Term(source[i], name, table)
  {
    assert source[..i + 1][..i] == source[..i];
  }

  /** The two nested loops of `Blendshape_target_update.execute`, after the
      reset, over the target values. */
  method AccumulateValues(source: seq<KeyBlock>, target: seq<KeyBlock>, table: Table) returns (values: Vector)
    ensures |values| == |target|
    ensures forall j :: 0 <= j < |target| ==> values[j] == Contribution(source, target[j].name, table)
  {
    values := Zeros(|target|);
    var i := 0;
    while i < |source|
      invariant 0 <= i <= |source| && |values| == |target|
      invariant forall j :: 0 <= j < |target| ==> values[j] == Contribution(source[..i], target[j].name, table)
    {
      forall j | 0 <= j < |target|
        ensures Contribution(source[..i + 1], target[j].name, table)
          == Contribution(source[..i], target[j].name, table) + Term(source[i], target[j].name, table)
      {
        ContributionStep(source, i, target[j].name, table);
      }
      if source[i].name in table {
        var row := table[source[i].name];
        var j := 0;
        while j < |target|
          invariant 0 <= j <= |target| && |values| == |target|
          invariant forall k :: 0 <= k < j ==> values[k] == Contribution(source[..i + 1], target[k].name, table)
          invariant forall k :: j <= k < |target| ==> values[k] == Contribution(source[..i], target[k].name, table)
        {
          if target[j].name in row {
            values := values[j := values[j] + source[i].value * row[target[j].name]];
          }
          j := j + 1;
        }
      }
      i := i + 1;
    }
    assert source[..|source|] == source;
  }

  /** Set every key block's value from a vector of the same length. */
  function WithValues(obj: MeshObject, values: Vector): (r: MeshObject)
    requires |values| == |obj.keyBlocks|
    ensures SameButValues(obj, r) && KeyValues(r) == values
  {
    var kbs := obj.keyBlocks;
    var r := obj.(keyBlocks := seq(|kbs|, j requires 0 <= j < |kbs| => kbs[j].(value := values[j])));
    assert KeyValues(r) == values;
    r
  }

  /** Application as a function: every target key takes its contribution sum;
      either mesh lacking shape keys is the attribute error. */
  function ApplyRetarget(source: MeshObject, target: MeshObject, table: Table): (r: Result<MeshObject>)
    ensures r.Failure? <==> |source.keyBlocks| == 0 || |target.keyBlocks| == 0
    ensures r.Failure? ==> r.error == MissingShapeKeys
    ensures r.Success? ==> SameButValues(target, r.value)
    ensures r.Success? ==> forall j :: 0 <= j < |target.keyBlocks| ==>
      r.value.keyBlocks[j].value == Contribution(source.keyBlocks, target.keyBlocks[j].name, table)
  {
    if |target.keyBlocks| == 0 || |source.keyBlocks| == 0 then Failure(MissingShapeKeys)
    else
      var kbs := target.keyBlocks;
      Success(WithValues(target, seq(|kbs|, j requires 0 <= j < |kbs| =>
        Contribution(source.keyBlocks, kbs[j].name, table))))
  }

  /** `Blendshape_target_update.execute` on the scene's two mesh fields.
      The retarget mesh's key blocks are read first, then the blendshape
      mesh's; an unset field or missing shape keys on either stops the
      operator before any value is reset. */
  function ApplyFromScene(blendshape: Option<MeshObject>, retarget: Option<MeshObject>, table: Table)
    : (r: Result<MeshObject>)
    ensures r.Success? ==> blendshape.Some? && retarget.Some?
    ensures retarget.None? ==> r == Failure(NoRetargetMesh)
    ensures retarget.Some? && |retarget.value.keyBlocks| == 0 ==> r == Failure(MissingShapeKeys)
    ensures retarget.Some? && |retarget.value.keyBlocks| > 0 && blendshape.None? ==> r == Failure(NoBlendshapeMesh)
    ensures blendshape.Some? && retarget.Some? ==> r == ApplyRetarget(blendshape.value, retarget.value, table)
  {
    match retarget
    case None => Failure(NoRetargetMesh)
    case Some(target) =>
      if |target.keyBlocks| == 0 then Failure(MissingShapeKeys)
      else match blendshape
        case None => Failure(NoBlendshapeMesh)
        case Some(source) => ApplyRetarget(source, target, table)
  }

  /** `Blendshape_target_update.execute` as written, with its loops; it
      computes exactly the function `ApplyRetarget`. */
  method TargetUpdate(source: MeshObject, target: MeshObject, table: Table) returns (r: Result<MeshObject>)
    ensures r == ApplyRetarget(source, target, table)
  {
    if |target.keyBlocks| == 0 || |source.keyBlocks| == 0 {
      return Failure(MissingShapeKeys);
    }
    var values := AccumulateValues(source.keyBlocks, target.keyBlocks, table);
    var kbs := target.keyBlocks;
    assert values == seq(|kbs|, j requires 0 <= j < |kbs| => Contribution(source.keyBlocks, kbs[j].name, table));
    r := Success(WithValues(target, values));
  }

  /** Application is idempotent: the reset discards what the previous run wrote. */
  lemma ApplyRetargetIdempotent(source: MeshObject, target: MeshObject, table: Table)
    requires ApplyRetarget(source, target, table).Success?
    ensures ApplyRetarget(source, ApplyRetarget(source, target, table).value, table) == ApplyRetarget(source, target, table)
  {
    var once := ApplyRetarget(source, target, table).value;
    var twice := ApplyRetarget(source, once, table).value;
    forall j | 0 <= j < |target.keyBlocks|
      ensures twice.keyBlocks[j] == once.keyBlocks[j]
    {
    }
    assert twice.keyBlocks == once.keyBlocks;
  }

  lemma {:induction false} ContributionOfZeros(source: seq<KeyBlock>, name: string, table: Table)
    requires forall i :: 0 <= i < |source| ==> source[i].value == 0.0
    ensures Contribution(source, name, table) == 0.0
    decreases |source|
  {
    if |source| > 0 {
      ContributionOfZeros(source[..|source| - 1], name, table);
      var key := source[|source| - 1];
      if key.name in table && name in table[key.name] {
        ZeroProduct(key.value, table[key.name][name]);
      }
    }
  }

  lemma ZeroProduct(a: real, b: real)
    requires a == 0.0
    ensures a * b == 0.0
  {
  }

  /** All-zero source values drive every target key to 0. */
  lemma ApplyRetargetZeroSource(source: MeshObject, target: MeshObject, table: Table)
    requires ApplyRetarget(source, target, table).Success?
    requires forall i :: 0 <= i < |source.keyBlocks| ==> source.keyBlocks[i].value == 0.0
    ensures KeyValues(ApplyRetarget(source, target, table).value) == Zeros(|target.keyBlocks|)
  {
    var r := KeyValues(ApplyRetarget(source, target, table).value);
    forall j | 0 <= j < |target.keyBlocks|
      ensures r[j] == 0.0
    {
      ContributionOfZeros(source.keyBlocks, target.keyBlocks[j].name, table);
    }
  }

  /** Scale every source value by `c`. */
  function ScaleValues(kbs: seq<KeyBlock>, c: real): (r: seq<KeyBlock>)
    ensures |r| == |kbs|
    ensures forall i :: 0 <= i < |kbs| ==> r[i] == kbs[i].(value := c * kbs[i].value)
  {
    seq(|kbs|, i requires 0 <= i < |kbs| => kbs[i].(value := c * kbs[i].value))
  }

  lemma TermScale(key: KeyBlock, c: real, name: string, table: Table)
    ensures Term(key.(value := c * key.value), name, table) == c * Term(key, name, table)
  {
    if key.name in table && name in table[key.name] {
      var s := table[key.name][name];
      assert (c * key.value) * s == c * (key.value * s);
    }
  }

  /** Application is linear in the source values. */
  lemma ContributionLinear(source: seq<KeyBlock>, c: real, name: string, table: Table)
    ensures Contribution(ScaleValues(source, c), name, table) == c * Contribution(source, name, table)
  {
    TermsScale(source, c, name, table);
    ContributionIsSum(ScaleValues(source, c), name, table);
    ContributionIsSum(source, name, table);
    SumScale(Terms(source, name, table), c);
  }

  lemma TermsScale(source: seq<KeyBlock>, c: real, name: string, table: Table)
    ensures Terms(ScaleValues(source, c), name, table) == ScaleSeq(Terms(source, name, table), c)
  {
    var scaled := ScaleValues(source, c);
    forall i | 0 <= i < |source|
      ensures Terms(scaled, name, table)[i] == ScaleSeq(Terms(source, name, table), c)[i]
    {
      TermScale(source[i], c, name, table);
    }
  }

  function ScaleSeq(x: seq<real>, c: real): (r: seq<real>)
    ensures |r| == |x|
    ensures forall i :: 0 <= i < |x| ==> r[i] == c * x[i]
  {
    seq(|x|, i requires 0 <= i < |x| => c * x[i])
  }

  /** Each key's term, in key order. */
  function Terms(source: seq<KeyBlock>, name: string, table: Table): (r: seq<real>)
    ensures |r| == |source|
    ensures forall i :: 0 <= i < |source| ==> r[i] == Term(source[i], name, table)
  {
    seq(|source|, i requires 0 <= i < |source| => Term(source[i], name, table))
  }

  function Sum(x: seq<real>): real
  {
    if |x| == 0 then 0.0 else Sum(x[..|x| - 1]) + x[|x| - 1]
  }

  /** The contribution is the sum of the terms. */
  lemma {:induction false} ContributionIsSum(source: seq<KeyBlock>, name: string, table: Table)
    ensures Contribution(source, name, table) == Sum(Terms(source, name, table))
    decreases |source|
  {
    if |source| > 0 {
      var n := |source| - 1;
      ContributionIsSum(source[..n], name, table);
      assert Terms(source, name, table)[..n] == Terms(source[..n], name, table);
    }
  }

  /** A sum scales with its terms. */
  lemma {:induction false} SumScale(x: seq<real>, c: real)
    ensures Sum(ScaleSeq(x, c)) == c * Sum(x)
    decreases |x|
  {
    if |x| > 0 {
      var n := |x| - 1;
      var y := ScaleSeq(x, c);
      SumScale(x[..n], c);
      forall i | 0 <= i < n
        ensures y[..n][i] == ScaleSeq(x[..n], c)[i]
      {
        assert x[..n][i] == x[i];
      }
      assert y[..n] == ScaleSeq(x[..n], c);
      SumScales(Sum(y[..n]), y[n], Sum(x[..n]), x[n], c);
    }
  }

  lemma SumScales(x: real, y: real, a: real, b: real, c: real)
    requires x == c * a && y == c * b
    ensures x + y == c * (a + b)
  {
  }

  /** Calibrating key `sk` against the target and then applying with only
      `sk` active (every other source key at 0) brings back the target
      readings calibration saw, provided the reading of `sk` was non-zero
      and the key names on each side are distinct. */
  lemma CalibrateThenApply(table: Table, source: MeshObject, target: MeshObject, sk: string, p: nat)
    requires p < |source.keyBlocks| && source.keyBlocks[p].name == sk && source.keyBlocks[p].value != 0.0
    requires forall i :: 0 <= i < |source.keyBlocks| && i != p ==> source.keyBlocks[i].name != sk
    requires forall i :: 0 <= i < |source.keyBlocks| && i != p ==> source.keyBlocks[i].value == 0.0
    requires |target.keyBlocks| > 0
    requires forall j, q :: 0 <= j < q < |target.keyBlocks| ==> target.keyBlocks[j].name != target.keyBlocks[q].name
    ensures Calibrate(table, source, target, sk).Success?
    ensures ApplyRetarget(source, target, Calibrate(table, source, target, sk).value).Success?
    ensures KeyValues(ApplyRetarget(source, target, Calibrate(table, source, target, sk).value).value)
      == KeyValues(target)
  {
    var s := source.keyBlocks;
    var kbs := target.keyBlocks;
    assert FindKey(s, sk) == Some(p);
    var t := Calibrate(table, source, target, sk).value;
    var v := s[p].value;
    var r := KeyValues(ApplyRetarget(source, target, t).value);
    forall j | 0 <= j < |kbs|
      ensures r[j] == kbs[j].value
    {
      RestoredReading(table, source, target, sk, p, j);
    }
  }

  /** The round trip through the two scene operators: with both meshes set,
      calibrating on `sk` and then updating with only `sk` active gives the
      retarget mesh back the readings calibration saw. */
  lemma SceneCalibrateThenApply(table: Table, source: MeshObject, target: MeshObject, sk: string, p: nat)
    requires p < |source.keyBlocks| && source.keyBlocks[p].name == sk && source.keyBlocks[p].value != 0.0
    requires forall i :: 0 <= i < |source.keyBlocks| && i != p ==> source.keyBlocks[i].name != sk
    requires forall i :: 0 <= i < |source.keyBlocks| && i != p ==> source.keyBlocks[i].value == 0.0
    requires |target.keyBlocks| > 0
    requires forall j, q :: 0 <= j < q < |target.keyBlocks| ==> target.keyBlocks[j].name != target.keyBlocks[q].name
    ensures CalibrateFromScene(table, Some(source), Some(target), sk).Success?
    ensures
      var t := CalibrateFromScene(table, Some(source), Some(target), sk).value;
      && ApplyFromScene(Some(source), Some(target), t).Success?
      && KeyValues(ApplyFromScene(Some(source), Some(target), t).value) == KeyValues(target)
  {
    CalibrateThenApply(table, source, target, sk, p);
  }

  /** With one key that has a row and every other key at 0, the sum is that
      key's term. */
  lemma {:induction false} ContributionSingle(source: seq<KeyBlock>, p: nat, name: string, table: Table)
    requires p < |source|
    requires forall i :: 0 <= i < |source| && i != p ==> source[i].value == 0.0
    ensures Contribution(source, name, table) == Term(source[p], name, table)
    decreases |source|
  {
    var n := |source| - 1;
    var init := source[..n];
    if p == n {
      ContributionOfZeros(init, name, table);
    } else {
      ContributionSingle(init, p, name, table);
      var key := source[n];
      if key.name in table && name in table[key.name] {
        ZeroProduct(key.value, table[key.name][name]);
      }
    }
  }

  lemma RestoredReading(table: Table, source: MeshObject, target: MeshObject, sk: string, p: nat, j: nat)
    requires p < |source.keyBlocks| && source.keyBlocks[p].name == sk && source.keyBlocks[p].value != 0.0
    requires forall i :: 0 <= i < |source.keyBlocks| && i != p ==> source.keyBlocks[i].value == 0.0
    requires FindKey(source.keyBlocks, sk) == Some(p)
    requires j < |target.keyBlocks| && LastKeyOfName(target.keyBlocks, j)
    ensures Calibrate(table, source, target, sk).Success?
    ensures Contribution(source.keyBlocks, target.keyBlocks[j].name, Calibrate(table, source, target, sk).value)
      == target.keyBlocks[j].value
  {
    var t := Calibrate(table, source, target, sk).value;
    var key := source.keyBlocks[p];
    var name := target.keyBlocks[j].name;
    var reading := target.keyBlocks[j].value;
    CalibrateRow(table, source, target, sk, j);
    assert ReferenceDivider(source, sk) == key.value;
    var scale := t[sk][name];
    assert scale == reading / key.value;
    ContributionSingle(source.keyBlocks, p, name, t);
    assert key.name == sk && sk in t && name in t[sk];
    TermPresent(key, name, t);
    calc {
      Term(key, name, t);
      key.value * t[key.name][name];
      key.value * scale;
      key.value * (reading / key.value);
      { DivMulCancel(reading, key.value); }
      reading;
    }
  }
}
