/** The slice of Blender's object model the add-on touches: mesh vertices with
    their vertex-group memberships, named vertex groups, and shape-key blocks.
    `convertBlenderObj`, `updateWeightsBlender`, the `join_shapes` operator and
    the `add_shape_keys` growth policy are functions over these values.
 */
module Host {
  import opened Results
  import opened LinAlg

  /** One membership of a vertex: the group's index and the vertex's weight in it. */
  datatype GroupElement = GroupElement(group: nat, weight: real)

  datatype Vertex = Vertex(co: Vec3, groups: seq<GroupElement>)

  datatype VertexGroup = VertexGroup(name: string, index: nat)

  /** A shape key: its name, slider value, the vertex group that scopes it
      (empty when unscoped), and its vertex coordinates. */
  datatype KeyBlock = KeyBlock(name: string, value: real, vertexGroup: string, data: Pose)

  /** A mesh object. An empty `keyBlocks` is an object whose `shape_keys` is None. */
  datatype MeshObject = MeshObject(name: string, vertices: seq<Vertex>, vertexGroups: seq<VertexGroup>,
                                   keyBlocks: seq<KeyBlock>)

  /** The mesh's own vertex coordinates. */
  function VertexCoordinates(obj: MeshObject): (r: Pose)
    ensures |r| == |obj.vertices|
    ensures forall i :: 0 <= i < |r| ==> r[i] == obj.vertices[i].co
  {
    seq(|obj.vertices|, i requires 0 <= i < |obj.vertices| => obj.vertices[i].co)
  }

  /** The slider value of every key block, in order. */
  function KeyValues(obj: MeshObject): (r: Vector)
    ensures |r| == |obj.keyBlocks|
    ensures forall i :: 0 <= i < |r| ==> r[i] == obj.keyBlocks[i].value
  {
    seq(|obj.keyBlocks|, i requires 0 <= i < |obj.keyBlocks| => obj.keyBlocks[i].value)
  }

  // ---------------------------------------------------------------------------
  // Vertex-group lookups
  // ---------------------------------------------------------------------------

  /** `obj.vertex_groups[name]`: the first group of that name, if any. */
  function FindGroup(groups: seq<VertexGroup>, name: string): (r: Option<VertexGroup>)
    ensures r.Some? ==> r.value in groups && r.value.name == name
    ensures r.None? ==> forall g :: g in groups ==> g.name != name
  {
    if |groups| == 0 then None
    else if groups[0].name == name then Some(groups[0])
    else FindGroup(groups[1..], name)
  }

  /** The weight of a vertex in the group with the given index, if it is a member. */
  function MemberWeight(elements: seq<GroupElement>, index: nat): (r: Option<real>)
    ensures r.Some? <==> exists k :: 0 <= k < |elements| && elements[k].group == index
    ensures r.Some? ==> exists k :: 0 <= k < |elements| && elements[k] == GroupElement(index, r.value)
  {
    if |elements| == 0 then None
    else if elements[0].group == index then Some(elements[0].weight)
    else
      var r := MemberWeight(elements[1..], index);
      assert forall k :: 0 <= k < |elements| - 1 ==> elements[1..][k] == elements[k + 1];
      r
  }

  /** `obj.vertex_groups[name].weight(i)`, which raises when there is no such
      group, no such vertex, or the vertex is not in the group. */
  function GroupWeight(obj: MeshObject, name: string, i: nat): Option<real>
  {
    match FindGroup(obj.vertexGroups, name)
    case None => None
    case Some(g) => if i < |obj.vertices| then MemberWeight(obj.vertices[i].groups, g.index) else None
  }

  /** The weight `convertBlenderObj` uses: a failed lookup counts as 0. */
  function WeightOrZero(obj: MeshObject, name: string, i: nat): real
  {
    match GroupWeight(obj, name, i)
    case None => 0.0
    case Some(w) => w
  }

  predicate InGroup(v: Vertex, index: nat)
  {
    exists k :: 0 <= k < |v.groups| && v.groups[k].group == index
  }

  /** Some vertex of the mesh belongs to the group with this index. */
  predicate GroupNonEmpty(vertices: seq<Vertex>, index: nat)
  {
    exists i :: 0 <= i < |vertices| && InGroup(vertices[i], index)
  }

  // ---------------------------------------------------------------------------
  // convertBlenderObj
  // ---------------------------------------------------------------------------

  /** `a + w * (b - a)`: the point a scoped key moves vertex `a` to. */
  function ScopedPoint(a: Vec3, b: Vec3, w: real): Vec3
  {
    Add3(a, Scale3(w, Sub3(b, a)))
  }

  lemma ScopedPointEnds(a: Vec3, b: Vec3)
    ensures ScopedPoint(a, b, 0.0) == a
    ensures ScopedPoint(a, b, 1.0) == b
  {
  }

  lemma ScopedPointOfSame(a: Vec3, w: real)
    ensures ScopedPoint(a, a, w) == a
  {
    assert Sub3(a, a) == Origin;
    assert Scale3(w, Origin) == Origin;
  }

  /** The pose one key block contributes: raw coordinates when unscoped,
      otherwise each vertex moved towards the key in proportion to its
      group weight. */
  function KeyPose(obj: MeshObject, base: Pose, key: KeyBlock): (r: Pose)
    requires |key.data| == |base|
    ensures |r| == |base|
  {
    seq(|key.data|, i requires 0 <= i < |key.data| =>
      if key.vertexGroup == "" then key.data[i]
      else ScopedPoint(base[i], key.data[i], WeightOrZero(obj, key.vertexGroup, i)))
  }

  /** Every key block has as many vertices as the first one. */
  predicate KeysAligned(kbs: seq<KeyBlock>)
  {
    |kbs| > 0 ==> forall j :: 0 <= j < |kbs| ==> |kbs[j].data| == |kbs[0].data|
  }

  /** `convertBlenderObj`: the pose stack of an object, one pose per key block
      (the first being the basis), or the bare vertex coordinates when the
      object has no shape keys. Misaligned key data is numpy's shape error. */
  function ConvertBlenderObj(obj: MeshObject): (r: Result<seq<Pose>>)
    ensures r.Success? <==> KeysAligned(obj.keyBlocks)
    ensures r.Failure? ==> r.error == DimensionMismatch
    ensures |obj.keyBlocks| == 0 ==> r == Success([VertexCoordinates(obj)])
    ensures r.Success? && |obj.keyBlocks| > 0 ==>
      |r.value| == |obj.keyBlocks| &&
      forall j :: 0 <= j < |r.value| ==> |r.value[j]| == |obj.keyBlocks[0].data|
  {
    var kbs := obj.keyBlocks;
    if |kbs| == 0 then Success([VertexCoordinates(obj)])
    else if !KeysAligned(kbs) then Failure(DimensionMismatch)
    else Success(seq(|kbs|, j requires 0 <= j < |kbs| => KeyPose(obj, kbs[0].data, kbs[j])))
  }

  /** Points per converted pose: the vertices, or the basis key's data. */
  function PoseLength(obj: MeshObject): nat
  {
    if |obj.keyBlocks| == 0 then |obj.vertices| else |obj.keyBlocks[0].data|
  }

  /** The converted stack is rectangular: every pose has the same vertex count. */
  lemma ConvertRectangular(obj: MeshObject)
    requires ConvertBlenderObj(obj).Success?
    ensures |ConvertBlenderObj(obj).value| >= 1
    ensures |ConvertBlenderObj(obj).value[0]| == PoseLength(obj)
    ensures forall j :: 0 <= j < |ConvertBlenderObj(obj).value| ==>
      |ConvertBlenderObj(obj).value[j]| == |ConvertBlenderObj(obj).value[0]|
  {
  }

  /** An unscoped key contributes its raw coordinates. */
  lemma ConvertUnscopedKey(obj: MeshObject, j: nat, i: nat)
    requires ConvertBlenderObj(obj).Success? && j < |obj.keyBlocks|
    requires obj.keyBlocks[j].vertexGroup == "" && i < |obj.keyBlocks[j].data|
    ensures ConvertBlenderObj(obj).value[j][i] == obj.keyBlocks[j].data[i]
  {
  }

  /** A scoped key leaves every vertex outside its group (or with a failed
      lookup) at the basis position. */
  lemma ConvertNonMember(obj: MeshObject, j: nat, i: nat)
    requires ConvertBlenderObj(obj).Success? && j < |obj.keyBlocks| && i < |obj.keyBlocks[0].data|
    requires obj.keyBlocks[j].vertexGroup != ""
    requires GroupWeight(obj, obj.keyBlocks[j].vertexGroup, i).None?
    ensures ConvertBlenderObj(obj).value[j][i] == obj.keyBlocks[0].data[i]
  {
    ScopedPointEnds(obj.keyBlocks[0].data[i], obj.keyBlocks[j].data[i]);
  }

  /** A scoped key moves a member vertex by its weight along the key's offset. */
  lemma ConvertMember(obj: MeshObject, j: nat, i: nat, w: real)
    requires ConvertBlenderObj(obj).Success? && j < |obj.keyBlocks| && i < |obj.keyBlocks[0].data|
    requires obj.keyBlocks[j].vertexGroup != ""
    requires GroupWeight(obj, obj.keyBlocks[j].vertexGroup, i) == Some(w)
    ensures ConvertBlenderObj(obj).value[j][i]
      == Add3(obj.keyBlocks[0].data[i], Scale3(w, Sub3(obj.keyBlocks[j].data[i], obj.keyBlocks[0].data[i])))
    ensures w == 1.0 ==> ConvertBlenderObj(obj).value[j][i] == obj.keyBlocks[j].data[i]
  {
    ScopedPointEnds(obj.keyBlocks[0].data[i], obj.keyBlocks[j].data[i]);
  }

  /** The first pose is the basis key's data, whether or not that key is scoped. */
  lemma ConvertFirstIsBasis(obj: MeshObject)
    requires ConvertBlenderObj(obj).Success? && |obj.keyBlocks| > 0
    ensures ConvertBlenderObj(obj).value[0] == obj.keyBlocks[0].data
  {
    var base := obj.keyBlocks[0].data;
    forall i | 0 <= i < |base|
      ensures ConvertBlenderObj(obj).value[0][i] == base[i]
    {
      ScopedPointOfSame(base[i], WeightOrZero(obj, obj.keyBlocks[0].vertexGroup, i));
    }
  }

  // ---------------------------------------------------------------------------
  // updateWeightsBlender
  // ---------------------------------------------------------------------------

  /** Two objects that differ at most in their key blocks' slider values. */
  predicate SameButValues(a: MeshObject, b: MeshObject)
  {
    a.name == b.name && a.vertices == b.vertices && a.vertexGroups == b.vertexGroups &&
    |a.keyBlocks| == |b.keyBlocks| &&
    forall i :: 0 <= i < |a.keyBlocks| ==>
      a.keyBlocks[i].name == b.keyBlocks[i].name && a.keyBlocks[i].vertexGroup == b.keyBlocks[i].vertexGroup &&
      a.keyBlocks[i].data == b.keyBlocks[i].data
  }

  /** `updateWeightsBlender`: key block `i + 1` takes `weights[i]`; the basis
      key keeps its value. Too few weights is the IndexError the loop hits. */
  function UpdateWeightsBlender(obj: MeshObject, weights: Vector): (r: Result<MeshObject>)
    ensures |obj.keyBlocks| == 0 ==> r == Success(obj)
    ensures r.Failure? <==> |obj.keyBlocks| > 0 && |weights| < |obj.keyBlocks| - 1
    ensures r.Failure? ==> r.error == WeightIndexOutOfRange
    ensures r.Success? ==> SameButValues(obj, r.value)
    ensures r.Success? && |obj.keyBlocks| > 0 ==>
      r.value.keyBlocks[0] == obj.keyBlocks[0] &&
      forall i :: 0 <= i < |obj.keyBlocks| - 1 ==> r.value.keyBlocks[i + 1].value == weights[i]
  {
    var kbs := obj.keyBlocks;
    if |kbs| == 0 then Success(obj)
    else if |weights| < |kbs| - 1 then Failure(WeightIndexOutOfRange)
    else
      Success(obj.(keyBlocks := seq(|kbs|, i requires 0 <= i < |kbs| =>
        if i == 0 then kbs[0] else kbs[i].(value := weights[i - 1]))))
  }

  /** Reading the values back gives the basis value followed by the first
      `nb - 1` weights. */
  lemma UpdateWeightsReadBack(obj: MeshObject, weights: Vector)
    requires |obj.keyBlocks| > 0 && |weights| >= |obj.keyBlocks| - 1
    ensures UpdateWeightsBlender(obj, weights).Success?
    ensures KeyValues(UpdateWeightsBlender(obj, weights).value)
      == [obj.keyBlocks[0].value] + weights[..|obj.keyBlocks| - 1]
  {
    var r := KeyValues(UpdateWeightsBlender(obj, weights).value);
    var e := [obj.keyBlocks[0].value] + weights[..|obj.keyBlocks| - 1];
    forall i | 0 <= i < |r|
      ensures r[i] == e[i]
    {
    }
  }

  /** Writing back the values an object already holds changes nothing. */
  lemma UpdateWeightsCurrentValues(obj: MeshObject)
    requires |obj.keyBlocks| > 0
    ensures UpdateWeightsBlender(obj, KeyValues(obj)[1..]) == Success(obj)
  {
    var r := UpdateWeightsBlender(obj, KeyValues(obj)[1..]).value;
    forall i | 0 <= i < |obj.keyBlocks|
      ensures r.keyBlocks[i] == obj.keyBlocks[i]
    {
    }
    assert r.keyBlocks == obj.keyBlocks;
  }

  /** Writing the same weights twice is writing them once. */
  lemma UpdateWeightsIdempotent(obj: MeshObject, weights: Vector)
    requires UpdateWeightsBlender(obj, weights).Success?
    ensures UpdateWeightsBlender(UpdateWeightsBlender(obj, weights).value, weights)
      == UpdateWeightsBlender(obj, weights)
  {
    var once := UpdateWeightsBlender(obj, weights).value;
    if |obj.keyBlocks| > 0 {
      var twice := UpdateWeightsBlender(once, weights).value;
      forall i | 0 <= i < |obj.keyBlocks|
        ensures twice.keyBlocks[i] == once.keyBlocks[i]
      {
      }
      assert twice.keyBlocks == once.keyBlocks;
    }
  }

  // ---------------------------------------------------------------------------
  // join_shapes and add_shape_keys
  // ---------------------------------------------------------------------------

  /** Blender's `join_shapes` with `obj` active and `source` selected. With
      unequal vertex counts the operator only reports a warning and cancels,
      which raises nothing, so the object is left as it was. Otherwise it adds
      a "Basis" key built from the mesh when there are no keys yet, then
      appends an unscoped key at value 0 named after `source` and holding its
      coordinates. */
  function JoinShapes(obj: MeshObject, source: MeshObject): (r: MeshObject)
    ensures |source.vertices| != |obj.vertices| ==> r == obj
    ensures r.name == obj.name && r.vertices == obj.vertices && r.vertexGroups == obj.vertexGroups
    ensures |source.vertices| == |obj.vertices| ==>
      && |r.keyBlocks| == |WithBasis(obj)| + 1
      && r.keyBlocks[..|WithBasis(obj)|] == WithBasis(obj)
      && r.keyBlocks[|WithBasis(obj)|] == KeyBlock(source.name, 0.0, "", VertexCoordinates(source))
  {
    if |source.vertices| != |obj.vertices| then obj
    else obj.(keyBlocks := WithBasis(obj) + [KeyBlock(source.name, 0.0, "", VertexCoordinates(source))])
  }

  /** The key blocks an object has once a basis is guaranteed. */
  function WithBasis(obj: MeshObject): (r: seq<KeyBlock>)
    ensures |r| > 0
    ensures |obj.keyBlocks| > 0 ==> r == obj.keyBlocks
  {
    if |obj.keyBlocks| == 0 then [KeyBlock("Basis", 0.0, "", VertexCoordinates(obj))] else obj.keyBlocks
  }

  /** Name and scope the growth policy gives the last key block; a key with
      no group keeps whatever scope the block had. */
  datatype KeySpec = KeySpec(name: string, group: Option<string>)

  function GroupKey(g: VertexGroup): KeySpec
  {
    KeySpec("key_" + g.name, Some(g.name))
  }

  /** The key one group asks for: its own when non-empty, none otherwise. */
  function KeysOfGroup(vertices: seq<Vertex>, g: VertexGroup): (r: seq<KeySpec>)
    ensures |r| <= 1
  {
    if GroupNonEmpty(vertices, g.index) then [GroupKey(g)] else []
  }

  /** One key per non-empty vertex group, in group order. */
  function PlannedKeys(vertices: seq<Vertex>, groups: seq<VertexGroup>): (r: seq<KeySpec>)
    ensures |r| <= |groups|
  {
    if |groups| == 0 then [] else KeysOfGroup(vertices, groups[0]) + PlannedKeys(vertices, groups[1..])
  }

  /** What `add_shape_keys` asks for: the planned keys, or a single key named
      "key" whose scope is left alone when no group is non-empty. */
  function GrowthKeys(vertices: seq<Vertex>, groups: seq<VertexGroup>): (r: seq<KeySpec>)
    ensures |r| >= 1
  {
    var planned := PlannedKeys(vertices, groups);
    if |planned| == 0 then [KeySpec("key", None)] else planned
  }

  /** The rename (and, for a group key, the re-scope) of one key block. */
  function Relabel(kb: KeyBlock, s: KeySpec): (r: KeyBlock)
    ensures r.value == kb.value && r.data == kb.data && r.name == s.name
    ensures r.vertexGroup == (if s.group.Some? then s.group.value else kb.vertexGroup)
  {
    kb.(name := s.name, vertexGroup := if s.group.Some? then s.group.value else kb.vertexGroup)
  }

  /** The block a spec turns a freshly joined key into. */
  function SpecBlock(s: KeySpec, shape: Pose): KeyBlock
  {
    Relabel(KeyBlock(s.name, 0.0, "", shape), s)
  }

  /** Join, then rename (and scope) the last key block, once per spec. The
      last block is read from `shape_keys.key_blocks`, which is None on a
      keyless object the join left alone. */
  function AppendKeys(obj: MeshObject, specs: seq<KeySpec>, source: MeshObject): (r: Result<MeshObject>)
    decreases |specs|
  {
    if |specs| == 0 then Success(obj)
    else
      var joined := JoinShapes(obj, source);
      var kbs := joined.keyBlocks;
      if |kbs| == 0 then Failure(MissingShapeKeys)
      else AppendKeys(joined.(keyBlocks := kbs[..|kbs| - 1] + [Relabel(kbs[|kbs| - 1], specs[0])]), specs[1..], source)
  }

  /** `add_shape_keys`: grow the blendshape mesh by the current landmark shape,
      one key per non-empty vertex group (or one plain key). When the join
      refuses the landmark mesh, the renames fall on the object's own last
      key block instead, or fail on an object without keys. */
  function AddShapeKeys(obj: MeshObject, landmarks: MeshObject): (r: Result<MeshObject>)
    ensures r.Success? <==> |landmarks.vertices| == |obj.vertices| || |obj.keyBlocks| > 0
    ensures r.Failure? ==> r.error == MissingShapeKeys
    ensures r.Success? ==>
      r.value.name == obj.name && r.value.vertices == obj.vertices && r.value.vertexGroups == obj.vertexGroups
    ensures |landmarks.vertices| == |obj.vertices| ==>
      (r.Success? &&
       r.value.keyBlocks == WithBasis(obj) +
         seq(|GrowthKeys(obj.vertices, obj.vertexGroups)|,
             j requires 0 <= j < |GrowthKeys(obj.vertices, obj.vertexGroups)| =>
               SpecBlock(GrowthKeys(obj.vertices, obj.vertexGroups)[j], VertexCoordinates(landmarks))))
    ensures |landmarks.vertices| != |obj.vertices| && |obj.keyBlocks| > 0 ==>
      (var n, specs := |obj.keyBlocks|, GrowthKeys(obj.vertices, obj.vertexGroups);
       r == Success(obj.(keyBlocks := obj.keyBlocks[..n - 1] + [Relabel(obj.keyBlocks[n - 1], specs[|specs| - 1])])))
  {
    var specs := GrowthKeys(obj.vertices, obj.vertexGroups);
    AppendKeysOutcome(obj, specs, landmarks);
    if |landmarks.vertices| == |obj.vertices| then
      AppendKeysEffect(obj, specs, landmarks);
      AppendKeys(obj, specs, landmarks)
    else if |obj.keyBlocks| > 0 then
      GrowthKeysScoped(obj.vertices, obj.vertexGroups);
      AppendKeysRelabel(obj, specs, landmarks);
      AppendKeys(obj, specs, landmarks)
    else AppendKeys(obj, specs, landmarks)
  }

  /** Appending succeeds unless a refused join leaves no key block to rename,
      and never touches the mesh itself. */
  lemma {:induction false} AppendKeysOutcome(obj: MeshObject, specs: seq<KeySpec>, source: MeshObject)
    ensures AppendKeys(obj, specs, source).Success? <==>
      |specs| == 0 || |source.vertices| == |obj.vertices| || |obj.keyBlocks| > 0
    ensures AppendKeys(obj, specs, source).Failure? ==> AppendKeys(obj, specs, source).error == MissingShapeKeys
    ensures AppendKeys(obj, specs, source).Success? ==>
      var r := AppendKeys(obj, specs, source).value;
      r.name == obj.name && r.vertices == obj.vertices && r.vertexGroups == obj.vertexGroups
    decreases |specs|
  {
    if |specs| > 0 {
      var joined := JoinShapes(obj, source);
      var kbs := joined.keyBlocks;
      if |kbs| > 0 {
        AppendKeysOutcome(joined.(keyBlocks := kbs[..|kbs| - 1] + [Relabel(kbs[|kbs| - 1], specs[0])]), specs[1..], source);
      }
    }
  }

  /** An accepted join appends exactly the requested named and scoped keys,
      in order, after the basis. */
  lemma {:induction false} AppendKeysEffect(obj: MeshObject, specs: seq<KeySpec>, source: MeshObject)
    requires |specs| > 0 && |source.vertices| == |obj.vertices|
    ensures AppendKeys(obj, specs, source) ==
      Success(obj.(keyBlocks := WithBasis(obj) +
        seq(|specs|, j requires 0 <= j < |specs| => SpecBlock(specs[j], VertexCoordinates(source)))))
    decreases |specs|
  {
    var joined := JoinShapes(obj, source);
    var kbs := joined.keyBlocks;
    var renamed := joined.(keyBlocks := kbs[..|kbs| - 1] + [Relabel(kbs[|kbs| - 1], specs[0])]);
    var shape := VertexCoordinates(source);
    assert renamed.keyBlocks == WithBasis(obj) + [SpecBlock(specs[0], shape)];
    var all := seq(|specs|, j requires 0 <= j < |specs| => SpecBlock(specs[j], shape));
    var rest := seq(|specs| - 1, j requires 0 <= j < |specs| - 1 => SpecBlock(specs[1..][j], shape));
    assert all == [SpecBlock(specs[0], shape)] + rest;
    if |specs| > 1 {
      AppendKeysEffect(renamed, specs[1..], source);
      assert WithBasis(renamed) == renamed.keyBlocks;
      assert renamed.keyBlocks + rest == WithBasis(obj) + all;
    } else {
      assert AppendKeys(renamed, specs[1..], source) == Success(renamed);
      assert renamed.keyBlocks == WithBasis(obj) + all;
    }
  }

  /** A later group key overrides both the name and the scope an earlier
      rename gave. */
  lemma RelabelOverride(kb: KeyBlock, s: KeySpec, t: KeySpec)
    requires t.group.Some?
    ensures Relabel(Relabel(kb, s), t) == Relabel(kb, t)
  {
  }

  /** A refused join leaves the key count alone: every rename falls on the
      object's own last key block, so only the last spec's label survives. */
  lemma {:induction false} AppendKeysRelabel(obj: MeshObject, specs: seq<KeySpec>, source: MeshObject)
    requires |source.vertices| != |obj.vertices| && |obj.keyBlocks| > 0 && |specs| > 0
    requires forall j :: 1 <= j < |specs| ==> specs[j].group.Some?
    ensures AppendKeys(obj, specs, source) == Success(obj.(keyBlocks :=
      obj.keyBlocks[..|obj.keyBlocks| - 1] + [Relabel(obj.keyBlocks[|obj.keyBlocks| - 1], specs[|specs| - 1])]))
    decreases |specs|
  {
    var kbs := obj.keyBlocks;
    var n := |kbs|;
    var renamed := obj.(keyBlocks := kbs[..n - 1] + [Relabel(kbs[n - 1], specs[0])]);
    assert JoinShapes(obj, source) == obj;
    if |specs| == 1 {
      assert AppendKeys(renamed, specs[1..], source) == Success(renamed);
    } else {
      AppendKeysRelabel(renamed, specs[1..], source);
      assert renamed.keyBlocks[..n - 1] == kbs[..n - 1];
      RelabelOverride(kbs[n - 1], specs[0], specs[|specs| - 1]);
    }
  }

  /** Every key after the first one the growth policy asks for names a group. */
  lemma GrowthKeysScoped(vertices: seq<Vertex>, groups: seq<VertexGroup>)
    ensures forall j :: 1 <= j < |GrowthKeys(vertices, groups)| ==> GrowthKeys(vertices, groups)[j].group.Some?
  {
    var planned := PlannedKeys(vertices, groups);
    if |planned| > 0 {
      PlannedKeysExact(vertices, groups);
      forall j | 0 <= j < |planned|
        ensures planned[j].group.Some?
      {
        assert planned[j] in planned;
      }
    }
  }

  /** An empty group adds no key; planning distributes over concatenation,
      so keys follow group order. */
  lemma {:induction false} PlannedKeysAppend(vertices: seq<Vertex>, g1: seq<VertexGroup>, g2: seq<VertexGroup>)
    ensures PlannedKeys(vertices, g1 + g2) == PlannedKeys(vertices, g1) + PlannedKeys(vertices, g2)
    decreases |g1|
  {
    if |g1| == 0 {
      assert g1 + g2 == g2;
    } else {
      assert (g1 + g2)[0] == g1[0];
      assert (g1 + g2)[1..] == g1[1..] + g2;
      PlannedKeysAppend(vertices, g1[1..], g2);
      var h := KeysOfGroup(vertices, g1[0]);
      assert h + (PlannedKeys(vertices, g1[1..]) + PlannedKeys(vertices, g2))
          == (h + PlannedKeys(vertices, g1[1..])) + PlannedKeys(vertices, g2);
    }
  }

  /** A single group yields its key exactly when some vertex belongs to it. */
  lemma PlannedKeysSingle(vertices: seq<Vertex>, g: VertexGroup)
    ensures PlannedKeys(vertices, [g]) == (if GroupNonEmpty(vertices, g.index) then [GroupKey(g)] else [])
  {
  }

  /** Every planned key comes from a non-empty group of the list, and every
      non-empty group of the list has its key planned. */
  lemma {:induction false} PlannedKeysExact(vertices: seq<Vertex>, groups: seq<VertexGroup>)
    ensures forall s :: s in PlannedKeys(vertices, groups) ==>
      exists g :: g in groups && GroupNonEmpty(vertices, g.index) && s == GroupKey(g)
    ensures forall g :: g in groups && GroupNonEmpty(vertices, g.index) ==> GroupKey(g) in PlannedKeys(vertices, groups)
    decreases |groups|
  {
    if |groups| > 0 {
      PlannedKeysExact(vertices, groups[1..]);
      forall g | g in groups[1..]
        ensures g in groups
      {
      }
      forall g | g in groups
        ensures g == groups[0] || g in groups[1..]
      {
        var k :| 0 <= k < |groups| && groups[k] == g;
        if k > 0 {
          assert groups[1..][k - 1] == g;
        }
      }
    }
  }

  /** Number of non-empty groups. */
  function CountNonEmpty(vertices: seq<Vertex>, groups: seq<VertexGroup>): nat
  {
    if |groups| == 0 then 0
    else (if GroupNonEmpty(vertices, groups[0].index) then 1 else 0) + CountNonEmpty(vertices, groups[1..])
  }

  /** The growth policy appends `max(1, number of non-empty groups)` keys. */
  lemma {:induction false} GrowthKeysCount(vertices: seq<Vertex>, groups: seq<VertexGroup>)
    ensures |PlannedKeys(vertices, groups)| == CountNonEmpty(vertices, groups)
    ensures |GrowthKeys(vertices, groups)| == if CountNonEmpty(vertices, groups) == 0 then 1 else CountNonEmpty(vertices, groups)
    decreases |groups|
  {
    if |groups| > 0 {
      GrowthKeysCount(vertices, groups[1..]);
    }
  }

  /** With no non-empty group the single key is named "key" and unscoped. */
  lemma GrowthKeysFallback(vertices: seq<Vertex>, groups: seq<VertexGroup>)
    requires forall g :: g in groups ==> !GroupNonEmpty(vertices, g.index)
    ensures GrowthKeys(vertices, groups) == [KeySpec("key", None)]
  {
    PlannedKeysExact(vertices, groups);
    if |PlannedKeys(vertices, groups)| > 0 {
      assert PlannedKeys(vertices, groups)[0] in PlannedKeys(vertices, groups);
    }
  }
}
