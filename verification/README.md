# Face capture add-on: blendshape fitting, capture loop and retargeting

This project models the numerical and bookkeeping core of a Blender add-on
that drives a mesh's shape keys from a webcam face tracker, and proves
properties of that model in Dafny.

- **Blendshape basis and weight solver** (`Blendshape`, from
  `BlendshapeMesh`). A stack of poses is split into a neutral basis and one
  offset per shape key. `vertices` blends the offsets with a weight vector.
  `get_weights` flattens the offsets into a design matrix and asks a
  least-squares routine for the weights that best explain a set of landmarks.
  The routine is a parameter. Its answer is trusted only where a lemma
  assumes it solves the normal equations `AᵀA·x = Aᵀb`. From that, the model
  proves that the returned weights minimise the fit error, and that a pose
  which is an exact blend is recovered exactly. numpy's broadcasting of a
  one-point landmark set (or, with no keys, a one-point basis) is modelled.
  The demo at the bottom of the file is proved end to end in `SelfTest`.
- **Host objects** (`Host`). Blender meshes are immutable values: vertices
  with vertex-group memberships, vertex groups, and key blocks. An object
  without shape keys has an empty key-block sequence.
  - `convertBlenderObj` turns an object into a pose stack. A key scoped to a
    vertex group is blended per vertex as `a + w·(b − a)`.
  - `updateWeightsBlender` writes fitted weights into the key sliders and
    skips the basis key.
  - The `add_shape_keys` growth policy appends one key per non-empty vertex
    group, or a single plain key when no group is non-empty. It is built on
    a model of Blender's `join_shapes`, including the case where the join is
    refused and the renames fall on the existing last key.
- **Capture loop** (`Capture`, from `FaceCaptureModal` and the scene
  settings). Each timer tick reads a frame, writes the first face into the
  landmark mesh, and refits the blendshape mesh's key values. The cached
  basis is rebuilt when the key count changes. When the fit error is
  strictly above the tolerance, the basis grows by new shape keys. Any
  failure cancels the session. Cancelling releases the camera once and
  switches the capture flag off. `toggle_fc`, `execute` and the settings
  defaults are part of this module.
- **Retargeting** (`Retarget`). Calibration divides every target key's
  reading by the reading of one source key and stores the quotients in a
  nested name → name → scale table. A reference reading of 0 divides by 1.
  Application resets every target key to 0. It then adds `source value ×
  scale` for every table entry that names both keys. Both operators read the
  blendshape and retarget meshes from the scene settings. Either may be
  unset, and an unset one stops the operator before anything is written.

Floating-point numbers are modelled as Dafny `real`, so all arithmetic is
exact. Python exceptions become `Failure` values of `Results.Result`.

## Model

| member | source | states |
|---|---|---|
| Blendshape.Build | addon/facecapture/Blendshape.py:4-8 | The basis is the first pose and there is one offset per later pose. The weights start as a zero vector of that length. Building fails exactly when the stack is empty, ragged, or made of zero-point poses (whose offset array has no third axis to unpack). |
| Blendshape.BuildOffsets | addon/facecapture/Blendshape.py:5-6 | Basis plus offset `j` gives back pose `j + 1` of the stack. |
| Blendshape.Vertices | addon/facecapture/Blendshape.py:10-11 | Blending fails exactly when the weight count differs from the key count. Otherwise it yields one point per basis vertex. |
| Blendshape.VerticesIsWeightedSum | addon/facecapture/Blendshape.py:10-11 | The tensordot blend is the basis plus `Σ w[j]·dif[j]`, stated against an independent recursive weighted sum. |
| Blendshape.VerticesOfZero | addon/facecapture/Blendshape.py:10-11 | Zero weights reproduce the basis. |
| Blendshape.VerticesOfUnit | addon/facecapture/Blendshape.py:4-11 | Weight 1 on key `i` and 0 elsewhere reproduces pose `i + 1` of the stack the mesh was built from. |
| Blendshape.DesignMatrix | addon/facecapture/Blendshape.py:20 | `A` has `3·nv` rows and `nb` columns. Row `3v + d` is coordinate `d` of vertex `v` across all key offsets. |
| Blendshape.Offsets | addon/facecapture/Blendshape.py:21 | Entry `3v + d` of `b` is `landmarks[v][d] − basis[v][d]`. |
| Blendshape.DesignMatrixReconstructs | addon/facecapture/Blendshape.py:11-21 | `A·w` is the flattened blend of `w` minus the flattened basis. This links the solver's matrix to `vertices`. |
| Blendshape.CostIsDistance | addon/facecapture/Blendshape.py:28-30 | The squared-distance cost is non-negative, and it is 0 exactly when the two poses are equal. |
| Blendshape.FitErrorIsCost | addon/facecapture/Blendshape.py:23-30 | `‖A·x − b‖²` equals the cost between the blend of `x` and the landmarks. |
| Blendshape.Broadcast | addon/facecapture/Blendshape.py:17-30 | Two poses broadcast exactly when their lengths agree or one of them is a single point. Each output point is the input point at the same index, or the single point. |
| Blendshape.GetWeights | addon/facecapture/Blendshape.py:13-26 | With keys, fails exactly when the landmarks neither match the basis point for point nor are one point. With no keys, fails exactly when the two poses do not broadcast. With no keys it returns the stored weights and, for matching sizes, the fit error of the basis. Otherwise it returns the solver's answer for the offsets of the broadcast landmarks. |
| Blendshape.GetWeightsBroadcasts | addon/facecapture/Blendshape.py:13-21 | A single landmark is fitted exactly as if that point were given for every basis vertex. |
| Blendshape.NoKeysBroadcastsBasis | addon/facecapture/Blendshape.py:16-30 | With no keys and a one-point basis, any landmark set is accepted and measured against that one point. |
| Blendshape.GetWeightsMinimises | addon/facecapture/Blendshape.py:23-26 | Given a solver that satisfies the normal equations, no weight vector fits the landmarks better than the returned one. The reported error is that fit's error. |
| Blendshape.GetWeightsRoundTrip | addon/facecapture/Blendshape.py:10-26 | If the offsets are linearly independent, solving for the blend of `w` returns `w` with error 0. |
| SelfTest.DemoBuild | addon/facecapture/Blendshape.py:34-41 | The demo's five-pose stack builds into the expected basis and four offsets. |
| SelfTest.DemoIndependent | addon/facecapture/Blendshape.py:34-41 | The demo's four offsets are linearly independent. |
| SelfTest.DemoVertices | addon/facecapture/Blendshape.py:43-44 | The demo weights `[0.9, 0.1, 0.6, 0.5]` blend to the landmarks `(4.6, 2.8, 3.5)` and `(3.6, 2.9, 3.2)`. |
| SelfTest.DemoRoundTrip | addon/facecapture/Blendshape.py:33-51 | The demo's solve gives back exactly the demo weights, with error 0. |
| Host.ConvertBlenderObj | addon/facecapture/face_capture_modal.py:33-62 | Succeeds exactly when all key blocks have the same length. Without keys, the result is the single pose of the vertex coordinates. With keys, there is one pose per key block, each as long as the basis key. |
| Host.ConvertRectangular | addon/facecapture/face_capture_modal.py:33-62 | The converted stack is non-empty and rectangular, and its poses have `PoseLength(obj)` points each. |
| Capture.ConvertedStackBuilds | addon/facecapture/Blendshape.py:4-8 | A converted stack builds into a basis exactly when its poses have points (`PoseLength(obj) > 0`). An object without vertices fails with `NoVertices`. |
| Host.ConvertFirstIsBasis | addon/facecapture/face_capture_modal.py:43-60 | Pose 0 is the basis key's own data. |
| Host.ConvertUnscopedKey | addon/facecapture/face_capture_modal.py:52-53 | A key with no vertex group contributes its raw coordinates. |
| Host.ConvertNonMember | addon/facecapture/face_capture_modal.py:54-59 | For a scoped key, a vertex outside the group (failed weight lookup) keeps the basis position. |
| Host.ConvertMember | addon/facecapture/face_capture_modal.py:56-59 | For a scoped key, a member vertex is at `a + w·(b − a)`. With full weight it is the key's own position. |
| Host.ScopedPointEnds | addon/facecapture/face_capture_modal.py:59 | The scoped blend is the basis point at weight 0 and the key point at weight 1. |
| Host.UpdateWeightsBlender | addon/facecapture/face_capture_modal.py:64-70 | Without keys, nothing changes. Too few weights is an index error. Otherwise the basis key is untouched, key `i + 1` gets `weights[i]`, and nothing but slider values changes. |
| Host.UpdateWeightsReadBack | addon/facecapture/face_capture_modal.py:64-70 | Reading the values back gives the basis value followed by the first `nb − 1` weights. |
| Host.UpdateWeightsCurrentValues | addon/facecapture/face_capture_modal.py:64-70 | Writing back the values the keys already hold is the identity. |
| Host.UpdateWeightsIdempotent | addon/facecapture/face_capture_modal.py:64-70 | Writing the same weights twice is the same as writing them once. |
| Host.JoinShapes | addon/facecapture/face_capture_modal.py:90 | Different vertex counts leave the object unchanged (Blender only warns). Otherwise exactly one key is added after the existing keys (or a new basis): unscoped, at 0, holding the selected mesh's coordinates. The mesh itself never changes. |
| Host.Relabel | addon/facecapture/face_capture_modal.py:91-99 | A rename sets the key's name, and its scope only when the spec names a group. Value and data are kept. |
| Host.AddShapeKeys | addon/facecapture/face_capture_modal.py:79-99 | With equal vertex counts, the key blocks become the old ones (or a new basis) followed by one key per growth spec, holding the landmark shape. With unequal counts, a keyless mesh fails on the missing key blocks, and otherwise only the last existing key is renamed (and re-scoped) by the last spec. |
| Host.AppendKeysOutcome | addon/facecapture/face_capture_modal.py:90-93 | Repeated join-and-rename fails only when a refused join leaves no key block to rename, and never changes the mesh. |
| Host.AppendKeysEffect | addon/facecapture/face_capture_modal.py:85-99 | With equal vertex counts, repeated join-and-rename appends exactly the requested named and scoped keys, in order. |
| Host.AppendKeysRelabel | addon/facecapture/face_capture_modal.py:90-93 | With a refused join, the key count stays the same and only the last key block is relabelled, by the last spec. |
| Host.GrowthKeysScoped | addon/facecapture/face_capture_modal.py:85-99 | Every requested key after the first one names a group, so a later rename overrides the scope as well as the name. |
| Host.PlannedKeysExact | addon/faceCapture.py:169-178 | A planned key is `key_<group>` scoped to a non-empty group, and every non-empty group has its key. |
| Host.PlannedKeysSingle | addon/faceCapture.py:169-172 | A single empty group plans no key. A single non-empty group plans exactly its own key. |
| Host.PlannedKeysAppend | addon/faceCapture.py:169-178 | The plan follows vertex-group order: the plan for two group lists is the concatenation of their plans. |
| Host.GrowthKeysCount | addon/faceCapture.py:167-183 | The number of appended keys is the count of non-empty groups, or 1 when that count is 0. |
| Host.GrowthKeysFallback | addon/faceCapture.py:180-183 | When no group is non-empty, exactly one key named `key` is requested, and its scope is left alone. |
| Retarget.GetVals | addon/facecapture/Blendshape_retarget_manual.py:9-20 | Fails exactly when the object has no shape keys. Otherwise it gives one (name, value) pair per key block, in order. |
| Retarget.GetValsAfterUpdate | addon/facecapture/Blendshape_retarget_manual.py:13-19 | After a weight write-back, the readings are the basis value followed by the written weights. |
| Retarget.CalculateShapeKeyWeights | addon/facecapture/Blendshape_retarget_manual.py:22-31 | Fails exactly when every source entry is 0. Otherwise `pos` is the first non-zero source entry and `a[i]·source[pos] = target[i]` for every `i`. |
| Retarget.Divider | addon/facecapture/Blendshape_retarget_manual.py:66-68 | The divider is never 0. It is the reading itself, or 1 when the reading is 0. |
| Retarget.StoreScaled | addon/facecapture/Blendshape_retarget_manual.py:78-79 | The row gains exactly the names stored. The last pair of each name wins with `value / divider`. Untouched names keep their entries. |
| Retarget.CalibrateFromScene | addon/facecapture/Blendshape_retarget_manual.py:55-81 | Works on the scene's two mesh fields, either of which may be unset. An unset blendshape mesh fails first. An unset retarget mesh fails only after the blendshape key `sk` was found. With both set, this is the calibration of the two meshes. Nothing is stored on a failure. |
| Retarget.Calibrate | addon/facecapture/Blendshape_retarget_manual.py:55-81 | Fails when the source has no keys, lacks key `sk`, or the target has no keys. Otherwise only row `sk` is added or changed, and every other row is left as it was. |
| Retarget.CalibrateRow | addon/facecapture/Blendshape_retarget_manual.py:71-79 | Row `sk` maps every target key name to its reading over the reference divider, including the basis key. |
| Retarget.CalibrateRowNames | addon/facecapture/Blendshape_retarget_manual.py:74-79 | Row `sk` holds exactly the old row's names plus the target's names. It starts empty when missing. Old entries the target does not name survive. |
| Retarget.CalibrateUnitScale | addon/facecapture/Blendshape_retarget_manual.py:66-79 | A target reading equal to a non-zero reference reading is stored as scale 1. |
| Retarget.CalibrateZeroReference | addon/facecapture/Blendshape_retarget_manual.py:66-79 | With a reference reading of 0, readings are stored unscaled. |
| Retarget.AccumulateValues | addon/facecapture/Blendshape_retarget_manual.py:96-103 | After the reset, the nested loops leave each target value equal to the independent recursive sum of `source value × scale` over source keys with a matching entry. |
| Retarget.ApplyRetarget | addon/facecapture/Blendshape_retarget_manual.py:88-105 | Fails exactly when either mesh lacks shape keys. Otherwise only slider values change, and each target value is its contribution sum. |
| Retarget.ApplyFromScene | addon/facecapture/Blendshape_retarget_manual.py:88-105 | Works on the scene's two mesh fields. An unset retarget mesh fails first. A retarget mesh without shape keys fails next, then an unset blendshape mesh. With both set, this is the application to the two meshes, and nothing is reset on a failure. |
| Retarget.SceneCalibrateThenApply | addon/facecapture/Blendshape_retarget_manual.py:55-105 | Through the two scene operators: calibrate on `sk`, then update with only `sk` active. The retarget mesh gets back the readings calibration saw. |
| Retarget.TargetUpdate | addon/facecapture/Blendshape_retarget_manual.py:88-105 | The loop implementation computes exactly the functional application. |
| Retarget.ApplyRetargetIdempotent | addon/facecapture/Blendshape_retarget_manual.py:96-103 | Because of the reset, applying twice with unchanged source values gives the same result as applying once. |
| Retarget.ApplyRetargetZeroSource | addon/facecapture/Blendshape_retarget_manual.py:96-103 | All-zero source values drive every target key to 0. |
| Retarget.ContributionLinear | addon/facecapture/Blendshape_retarget_manual.py:99-103 | Application is linear: scaling all source values by `c` scales every target value by `c`. |
| Retarget.CalibrateThenApply | addon/facecapture/Blendshape_retarget_manual.py:55-105 | Calibrate on key `sk`, then apply with only `sk` active at its calibration reading. The target gets back the readings calibration saw. |
| Retarget.RestoredReading | addon/facecapture/Blendshape_retarget_manual.py:66-103 | The same round trip for one target key, when it is the last key of its name. |
| Capture.Execute | addon/facecapture/face_capture_modal.py:180-196 | A session starts exactly when fps is not 0, a landmark mesh exists or is created, and the capture context is set up (`asyncCapture` returns). It then polls every `1/fps` seconds on the configured camera. A created landmark mesh is stored even when the setup then fails. Setting up does not read the camera, so a missing camera still starts a session. |
| Capture.ToggleFc | addon/faceCapture.py:82-84 | A flag that is off launches nothing. The flag itself is never changed, and a launched session is live with the flag on. |
| Capture.DefaultsIdle | addon/faceCapture.py:86-102 | A fresh scene has capture off, so it launches nothing whatever the capture setup would do. |
| Capture.FreshLaunch | addon/faceCapture.py:82-138 | Switching capture on in a fresh scene whose capture context sets up stores the new landmark mesh and polls camera 0 every 1/30 s. The first face then passes through and only moves the landmark mesh, since no blendshape mesh is set. |
| Capture.MissingCameraStopsAtFirstTick | addon/facecapture/mediapipe_capture.py:83-86 | A launched session whose camera delivers no frame is cancelled by its first timer tick. The flag goes off, the capture is released exactly once, and no later event is processed. |
| Capture.ToggleOffStops | addon/faceCapture.py:82-84 | Once a launched session has run, switching the flag off launches nothing. The next event of any kind cancels the session and releases the capture exactly once. |
| Capture.UpdateMesh | addon/facecapture/face_capture_modal.py:116-121 | The cache is kept exactly when it holds one weight per non-basis key block. Otherwise the basis is rebuilt from the converted object with zero weights. That fails exactly for a misaligned key stack or an object whose poses have no points. The result always has one weight fewer than the object's key blocks (counting a fresh basis). |
| Capture.UpdateMeshStable | addon/facecapture/face_capture_modal.py:118-121 | For an object with keys, the basis a rebuild produced is kept by the next update. |
| Capture.UpdateMeshWithoutKeys | addon/facecapture/face_capture_modal.py:118-121 | Without shape keys the counts never match, so every update rebuilds from the vertex coordinates. |
| Capture.UpdateMeshReproducesKeys | addon/facecapture/face_capture_modal.py:116-121 | A rebuilt basis of a non-empty object reproduces every key block's converted pose through a unit weight vector. |
| Capture.CalculateWeights | addon/facecapture/face_capture_modal.py:123-129 | Fails with the rebuild's error when the rebuild fails, and with a shape error when the landmarks do not fit the basis. On success the cache is the updated one, the basis key keeps its value, key `i + 1` holds fitted weight `i`, nothing but slider values changes, and the fit error is reported. |
| Capture.CalculateWeightsRecovers | addon/facecapture/face_capture_modal.py:123-129 | A face that is exactly a blend of independent keys is fitted with error 0, and the key sliders end up holding the blend weights. |
| Capture.WriteLandmarks | addon/facecapture/face_capture_modal.py:72-77 | The write fails exactly when the face has the wrong point count. Otherwise the landmark mesh's vertex coordinates become the face, and groups and keys are untouched. |
| Capture.PlaceLandmarks | addon/facecapture/face_capture_modal.py:138-153 | An unset landmark mesh is an attribute error. Otherwise this is the landmark write. |
| Capture.AddShapeKeysToScene | addon/faceCapture.py:161-185 | An unset landmark mesh, then an unset blendshape mesh, are attribute errors. A refused join on a keyless blendshape mesh fails on the missing key blocks. Otherwise the blendshape mesh is replaced by the operator's result and nothing else changes. It has strictly more key blocks exactly when the vertex counts agree, and the same number otherwise. |
| Capture.GrowthAddsKeys | addon/faceCapture.py:167-183 | With equal vertex counts, growth keeps the existing key blocks (or a new basis) as a prefix. It appends as many keys as there are non-empty groups, at least one, and leaves vertices and groups alone. |
| Capture.Cancel | addon/facecapture/face_capture_modal.py:199-209 | Releases the capture exactly once, drops the callbacks and the timer, keeps the cache, and switches only the capture flag off. |
| Capture.CancelLaunchesNothing | addon/facecapture/face_capture_modal.py:208-209 | Switching the flag off while cancelling launches nothing, whatever the capture setup would do, and the session stops running. |
| Capture.Fitted | addon/facecapture/face_capture_modal.py:159-162 | Refitting either cancels or passes through. A cancel releases once and switches the flag off. A pass-through keeps the session live and the flag on. |
| Capture.TimerTick | addon/facecapture/face_capture_modal.py:140-176 | Every outcome of a timer tick keeps the cancel and pass-through promises. Tolerance and the retarget mesh are never changed. |
| Capture.Modal | addon/facecapture/face_capture_modal.py:131-178 | Esc, right mouse, or the flag being off cancel. A failed capture cancels. Other events pass through untouched. |
| Capture.NoFaceTick | addon/facecapture/face_capture_modal.py:143-150 | A frame without a face solves nothing and writes nothing. Only a closed preview clears `show_cam`. |
| Capture.NoBlendshapeTick | addon/facecapture/face_capture_modal.py:153-157 | Without a blendshape mesh, a face moves the landmark mesh and nothing else. The session and cache are unchanged. |
| Capture.GrowthIffAboveTolerance | addon/facecapture/face_capture_modal.py:159-162 | The basis grows (strictly more key blocks) exactly when the fit error is strictly above the tolerance and the landmark mesh has the blendshape mesh's vertex count. At or below the tolerance the refitted object is kept as it is. Above it, the result is the scene operator's. |
| Capture.GrowthForcesRebuild | addon/facecapture/face_capture_modal.py:116-121 | After a tick above the tolerance, the cached basis stops matching the object exactly when the join was accepted, so only then does the next update rebuild it. |
| Capture.ExactFaceTick | addon/facecapture/face_capture_modal.py:153-162 | Under a non-negative tolerance, a face that is an exact blend of independent keys is written as those weights and adds no key. |
| Capture.Run | addon/facecapture/face_capture_modal.py:131-178 | Over any event sequence, the session ends cancelled exactly when it stops running. Cancelling releases once and leaves the flag off. Otherwise nothing is released. |
| Capture.RunReleasesOnce | addon/facecapture/face_capture_modal.py:199-209 | From a fresh start the capture is released at most once, exactly when the session is cancelled, and then nothing relaunches it. |
| Capture.RunStopsAtCancel | addon/facecapture/face_capture_modal.py:133-135 | Events after the cancelling one are never processed. |

## Left out

- Camera capture, MediaPipe inference and the preview window (`mediapipe_capture.py`) are external. A tick is handed the capture callback's answer. How that answer depends on `show_cam` is not modelled.
- `createLandmarks.py` is host geometry creation and is not part of this model. `Capture.Execute` takes its outcome (the new landmark mesh or an error) and whether `asyncCapture` returns as parameters. `asyncCapture` does not check the camera; a missing camera shows as a failed capture on the first tick.
- Capture.Execute: the timer and modal handler that `execute` registers before a failed start are not removed by the add-on. The model does not track registered timers or handlers, so this leak is not represented. A negative fps is passed through as a negative period.
- Capture.WriteLandmarks: the metric-landmark transform the detector applies happens before `normalize_vertices` and is not modelled. The face arrives as a pose, and the write is a coordinate assignment.
- Panels, `register`/`unregister` and `duplicate_and_assign` are UI and host plumbing.
- Capture.Modal: the timing code of a tick is not modelled. `print_time` and the fps print divide by the tick's measured duration. If the clock does not advance during a tick, that raises ZeroDivisionError, and the tick's exception handler cancels the session. The model assumes the clock advances, so such a tick passes through here.
- Blendshape.GetWeights: numpy's `lstsq` is a parameter. Its correctness is assumed only where a lemma requires the normal equations. Two numpy details are not modelled: `x` has shape `(nb, 1)`, and the residual array is empty when the matrix is rank-deficient or has no more rows than columns. The residual is a single real here.
- Floating point is not modelled. All arithmetic is exact over `real`.
- Blender's clamping of shape-key sliders to their ranges is not visible in this code. Key values are unclamped reals.
- Host.JoinShapes: exactly one selected object (the landmark mesh) is joined into the active blendshape mesh. Any other object the user had selected would also be joined by Blender; that is not modelled.
- Blender's automatic `.001` renaming of a duplicate key name is not modelled. Appended keys carry the names the add-on assigns.
- Host.UpdateWeightsBlender: on too few weights, the add-on writes the leading keys before raising. The model writes nothing on failure. In the capture loop the failure cancels the session either way.
- Capture.CalculateWeights: after a failed fit the add-on keeps the freshly rebuilt cache. The model keeps the previous one. A cancelled operator instance is never resumed, so nothing observes the difference.
- Capture.Modal: the landmark, blendshape and retarget meshes are assumed to be distinct objects. Aliasing one Blender object under two settings fields is not modelled.
- Retarget.ApplyRetarget: the source and target meshes are assumed distinct. If they were the same object, the reset would also clear the source values.
- Retarget.Calibrate: the table is a value passed in and returned. In Blender it is ID properties on the source mesh's shape-key datablock.
- Retarget.CalculateShapeKeyWeights: with no non-zero source entry, `pos` is `None`. On the 1-D arrays this function is written for, `source[None]` adds an axis rather than raising. The call then returns a `(1, n)` array of inf/nan values together with `pos = None`. The model reports that result as a `NoNonZeroSource` failure.
- The `retarget.blendshapes_all` operator (`Blendshape_retarget_manual`) is left out. It calls `calculate_shape_key_weights` with its arguments swapped and is not in the add-on's registered class list.
- The `simpified = False` branch of `calculate_shape_key_weights` returns nothing and is not modelled.
