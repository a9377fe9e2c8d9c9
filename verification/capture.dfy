/** The capture side of the add-on: the scene settings and their defaults,
    the `toggle_fc` callback, and the `FaceCaptureModal` operator from its
    `execute` to its `cancel`. Every
    timer tick reads a frame, writes the first face into the landmark mesh,
    refits the blendshape mesh's key values to it and grows the basis by
    new shape keys when the fit is worse than the tolerance.

    The camera and the landmark detector are outside the model: a tick is
    handed what the capture callback returned (`Result<Frame>`), a launch
    is handed whether the capture context was set up and what
    landmark-mesh creation produced, and the least-squares routine is a parameter, as in
    `Blendshape`. */
module Capture {
  import opened Results
  import opened LinAlg
  import opened Blendshape
  import opened Host

  // ---------------------------------------------------------------------------
  // Settings and toggle_fc
  // ---------------------------------------------------------------------------

  /** `FaceCapureSettings`: the scene's capture properties and object references. */
  datatype Settings = Settings(
    fps: real,
    cameraIndex: int,
    isFcOn: bool,
    autoInsert: bool,
    showCam: bool,
    landmarkMesh: Option<MeshObject>,
    blendshapeMesh: Option<MeshObject>,
    retargetMesh: Option<MeshObject>,
    retargetShapeKey: string,
    tolerance: real)

  /** The property defaults of a fresh scene. */
  const DefaultSettings: Settings :=
    Settings(30.0, 0, false, false, false, None, None, None, "Basis", 0.5)

  // ---------------------------------------------------------------------------
  // Operator state
  // ---------------------------------------------------------------------------

  /** The operator instance's own fields: the cached blendshape basis
      (`_mesh`), whether it holds the capture callbacks (`_capture`,
      `_endCapture`) and the timer, and how often the capture was released. */
  datatype Session = Session(cache: Option<BlendshapeMesh>, capturing: bool, timed: bool, releases: nat)

  predicate Running(s: Session)
  {
    s.capturing && s.timed
  }

  predicate CacheValid(cache: Option<BlendshapeMesh>)
  {
    cache.Some? ==> WellFormed(cache.value)
  }

  /** The session a successful `execute` hands to the event loop. */
  const Started: Session := Session(None, true, true, 0)

  /** Everything a tick reads and writes: the scene settings and the operator. */
  datatype State = State(settings: Settings, session: Session)

  predicate Live(st: State)
  {
    Running(st.session) && CacheValid(st.session.cache)
  }

  // ---------------------------------------------------------------------------
  // execute and toggle_fc
  // ---------------------------------------------------------------------------

  /** What a successful `execute` starts: the operator's session, the timer
      period `1 / fps` and the camera handed to the capture. */
  datatype Capturing = Capturing(session: Session, period: real, camera: int)

  /** The scene settings after a launch attempt, and the capture if one started. */
  datatype Launch = Launch(settings: Settings, capturing: Option<Capturing>)

  /** `execute`. `1.0 / fps` raises before anything else happens when fps is
      0. A missing landmark mesh is created (`created` is the creation's
      outcome) and stored; then the capture context is set up for the
      configured camera (`ready` says whether `asyncCapture` returned
      without raising). Setting up does not read the camera: a camera that
      is missing still gives `ready`, and shows only as a failed capture on
      the first timer tick. A failure after the division returns CANCELLED,
      but a landmark mesh stored before it stays. */
  function Execute(s: Settings, created: Result<MeshObject>, ready: bool): (r: Launch)
    ensures r.capturing.Some? <==> s.fps != 0.0 && (s.landmarkMesh.Some? || created.Success?) && ready
    ensures r.capturing.Some? ==>
      r.capturing.value == Capturing(Started, 1.0 / s.fps, s.cameraIndex) && r.settings.landmarkMesh.Some?
    ensures s.fps == 0.0 || s.landmarkMesh.Some? || created.Failure? ==> r.settings == s
    ensures s.fps != 0.0 && s.landmarkMesh.None? && created.Success? ==>
      r.settings == s.(landmarkMesh := Some(created.value))
  {
    if s.fps == 0.0 then Launch(s, None)
    else
      var stored := if s.landmarkMesh.Some? then Success(s)
                    else if created.Success? then Success(s.(landmarkMesh := Some(created.value)))
                    else Failure(created.error);
      match stored
      case Failure(_) => Launch(s, None)
      case Success(t) =>
        if ready then Launch(t, Some(Capturing(Started, 1.0 / s.fps, s.cameraIndex))) else Launch(t, None)
  }

  /** `toggle_fc`, run whenever `is_fc_on` is assigned: launch the capture
      operator when the flag is now on. The flag itself is never reset here,
      so a launch that fails leaves it on with nothing running. */
  function ToggleFc(s: Settings, created: Result<MeshObject>, ready: bool): (r: Launch)
    ensures !s.isFcOn ==> r == Launch(s, None)
    ensures r.settings.isFcOn == s.isFcOn
    ensures r.capturing.Some? ==> s.isFcOn && Live(State(r.settings, r.capturing.value.session))
    ensures s.isFcOn ==> r == Execute(s, created, ready)
  {
    if s.isFcOn then Execute(s, created, ready) else Launch(s, None)
  }

  /** A fresh scene has capture switched off, so it launches nothing whatever
      the capture setup would do. */
  lemma DefaultsIdle(created: Result<MeshObject>, ready: bool)
    ensures ToggleFc(DefaultSettings, created, ready) == Launch(DefaultSettings, None)
  {
  }

  /** Switching capture on in a fresh scene whose capture context sets up
      stores the new landmark mesh and polls camera 0 thirty times a second;
      the first face then only moves the landmark mesh, since no blendshape
      mesh is set. */
  lemma FreshLaunch(lm: MeshObject, frame: Frame, lstsq: Solver)
    requires |frame.faces| > 0 && |frame.faces[0]| == |lm.vertices|
    ensures
      var on := DefaultSettings.(isFcOn := true);
      var l := ToggleFc(on, Success(lm), true);
      && l == Launch(on.(landmarkMesh := Some(lm)), Some(Capturing(Started, 1.0 / 30.0, 0)))
      && Modal(State(l.settings, Started), Timer, Success(frame), lstsq).1 == PassThrough
      && Modal(State(l.settings, Started), Timer, Success(frame), lstsq).0.session == Started
      && Modal(State(l.settings, Started), Timer, Success(frame), lstsq).0.settings.blendshapeMesh.None?
  {
    var on := DefaultSettings.(isFcOn := true);
    var st := State(on.(landmarkMesh := Some(lm)), Started);
    var placed := WriteLandmarks(lm, frame.faces[0]);
    assert placed.Success?;
    NoBlendshapeTick(st, frame, placed.value, lstsq);
  }

  /** A launched session whose camera cannot deliver a frame is ended by
      its first timer tick: the failed capture cancels it, releasing the
      capture once and switching the flag off, and no later event is seen. */
  lemma MissingCameraStopsAtFirstTick(s: Settings, created: Result<MeshObject>, e: Error,
                                      more: seq<Tick>, lstsq: Solver)
    requires ToggleFc(s, created, true).capturing.Some?
    ensures
      var l := ToggleFc(s, created, true);
      var st := State(l.settings, l.capturing.value.session);
      && l.settings.isFcOn
      && Run(st, [Tick(Timer, Failure(e))] + more, lstsq) == (Cancel(st), Cancelled)
      && Cancel(st).session.releases == 1
      && !Cancel(st).settings.isFcOn
  {
    var l := ToggleFc(s, created, true);
    var st := State(l.settings, l.capturing.value.session);
    assert ([Tick(Timer, Failure(e))] + more)[0] == Tick(Timer, Failure(e));
  }

  /** Switching the flag off while a launched session runs launches nothing,
      and the next event of any kind ends that session, releasing the capture
      exactly once. */
  lemma ToggleOffStops(s: Settings, created: Result<MeshObject>, ready: bool,
                       pre: seq<Tick>, more: seq<Tick>, lstsq: Solver)
    requires ToggleFc(s, created, ready).capturing.Some?
    requires
      var l := ToggleFc(s, created, ready);
      Run(State(l.settings, l.capturing.value.session), pre, lstsq).1 == PassThrough
    requires |more| > 0
    ensures
      var l := ToggleFc(s, created, ready);
      var mid := Run(State(l.settings, l.capturing.value.session), pre, lstsq).0;
      var off := State(mid.settings.(isFcOn := false), mid.session);
      && ToggleFc(off.settings, created, ready) == Launch(off.settings, None)
      && Run(off, more, lstsq) == (Cancel(off), Cancelled)
      && Run(off, more, lstsq).0.session.releases == 1
  {
  }

  // ---------------------------------------------------------------------------
  // update_mesh and calculate_weights
  // ---------------------------------------------------------------------------

  /** The cache matches the object: one stored weight per non-basis key block. */
  predicate CacheCurrent(cache: Option<BlendshapeMesh>, obj: MeshObject)
  {
    cache.Some? && |cache.value.weights| + 1 == |obj.keyBlocks|
  }

  /** `update_mesh`: keep the cached basis while its weight count matches the
      key count; otherwise rebuild it from the object's current pose stack.
      A misaligned key stack is the conversion's shape error, and an object
      without vertices gives poses that do not unpack into a mesh. */
  function UpdateMesh(cache: Option<BlendshapeMesh>, obj: MeshObject): (r: Result<BlendshapeMesh>)
    requires CacheValid(cache)
    ensures CacheCurrent(cache, obj) ==> r == Success(cache.value)
    ensures !CacheCurrent(cache, obj) ==> (r.Success? <==> KeysAligned(obj.keyBlocks) && PoseLength(obj) > 0)
    ensures !CacheCurrent(cache, obj) && KeysAligned(obj.keyBlocks) && PoseLength(obj) == 0 ==>
      r == Failure(NoVertices)
    ensures !CacheCurrent(cache, obj) && r.Success? ==>
      r.value.basis == ConvertBlenderObj(obj).value[0] && r.value.weights == Zeros(|r.value.dif|)
    ensures r.Failure? ==> r.error in {DimensionMismatch, NoVertices}
    ensures r.Success? ==> WellFormed(r.value) && |r.value.weights| + 1 == |WithBasis(obj)|
  {
    if CacheCurrent(cache, obj) then Success(cache.value)
    else match ConvertBlenderObj(obj)
      case Failure(e) => Failure(e)
      case Success(data) =>
        ConvertRectangular(obj);
        Build(data)
  }

  /** A converted pose stack builds into a basis exactly when its poses have
      points: conversion always gives a non-empty rectangular stack, and the
      only remaining way for the build to fail is an object with no vertices. */
  lemma ConvertedStackBuilds(obj: MeshObject)
    requires ConvertBlenderObj(obj).Success?
    ensures Build(ConvertBlenderObj(obj).value).Success? <==> PoseLength(obj) > 0
    ensures PoseLength(obj) == 0 ==> Build(ConvertBlenderObj(obj).value) == Failure(NoVertices)
  {
    ConvertRectangular(obj);
  }

  /** A cache the update produced is kept by the next update of an object
      with shape keys. */
  lemma UpdateMeshStable(cache: Option<BlendshapeMesh>, obj: MeshObject)
    requires CacheValid(cache) && UpdateMesh(cache, obj).Success? && |obj.keyBlocks| > 0
    ensures CacheCurrent(Some(UpdateMesh(cache, obj).value), obj)
    ensures UpdateMesh(Some(UpdateMesh(cache, obj).value), obj) == UpdateMesh(cache, obj)
  {
  }

  /** Without shape keys no cache matches, so every update rebuilds from the
      bare vertex coordinates. */
  lemma UpdateMeshWithoutKeys(cache: Option<BlendshapeMesh>, obj: MeshObject)
    requires CacheValid(cache) && |obj.keyBlocks| == 0
    ensures UpdateMesh(cache, obj) == Build([VertexCoordinates(obj)])
  {
  }

  /** A rebuilt basis reproduces every key of the object: weight one on key
      `j` and zero elsewhere gives the converted pose of key block `j + 1`. */
  lemma UpdateMeshReproducesKeys(cache: Option<BlendshapeMesh>, obj: MeshObject, j: nat)
    requires CacheValid(cache) && !CacheCurrent(cache, obj) && KeysAligned(obj.keyBlocks)
    requires PoseLength(obj) > 0 && j + 1 < |obj.keyBlocks|
    ensures UpdateMesh(cache, obj).Success? && j < |UpdateMesh(cache, obj).value.dif|
    ensures Vertices(UpdateMesh(cache, obj).value, Unit(|UpdateMesh(cache, obj).value.dif|, j))
      == Success(ConvertBlenderObj(obj).value[j + 1])
  {
    var data := ConvertBlenderObj(obj).value;
    ConvertRectangular(obj);
    assert Build(data).Success?;
    VerticesOfUnit(data, j);
  }

  /** What a successful `calculate_weights` leaves behind: the cache, the
      object with its refitted key values, and the fit error. */
  datatype Solved = Solved(mesh: BlendshapeMesh, obj: MeshObject, error: real)

  /** `calculate_weights`: refresh the cache, fit the landmarks, write the
      weights into the object's key blocks and report the fit error. */
  function CalculateWeights(cache: Option<BlendshapeMesh>, obj: MeshObject, lms: Pose, lstsq: Solver): (r: Result<Solved>)
    requires CacheValid(cache)
    ensures UpdateMesh(cache, obj).Failure? ==> r == Failure(UpdateMesh(cache, obj).error)
    ensures UpdateMesh(cache, obj).Success? && GetWeights(UpdateMesh(cache, obj).value, lms, lstsq).Failure? ==>
      r == Failure(DimensionMismatch)
    ensures r.Success? ==>
      && UpdateMesh(cache, obj) == Success(r.value.mesh)
      && SameButValues(obj, r.value.obj)
      && GetWeights(r.value.mesh, lms, lstsq).Success?
    ensures r.Success? ==>
      var fit := GetWeights(r.value.mesh, lms, lstsq).value;
      && r.value.error == fit.error
      && |fit.weights| >= |obj.keyBlocks| - 1
      && (|obj.keyBlocks| > 0 ==> r.value.obj.keyBlocks[0] == obj.keyBlocks[0])
      && (forall i :: 0 <= i < |obj.keyBlocks| - 1 ==> r.value.obj.keyBlocks[i + 1].value == fit.weights[i])
  {
    match UpdateMesh(cache, obj)
    case Failure(e) => Failure(e)
    case Success(m) =>
      match GetWeights(m, lms, lstsq)
      case Failure(e) => Failure(e)
      case Success(fit) =>
        match UpdateWeightsBlender(obj, fit.weights)
        case Failure(e) => Failure(e)
        case Success(written) => Success(Solved(m, written, fit.error))
  }

  /** A face that is exactly a blend of the object's keys is fitted exactly:
      the non-basis key values become the blend weights and the error is 0. */
  lemma CalculateWeightsRecovers(cache: Option<BlendshapeMesh>, obj: MeshObject, m: BlendshapeMesh, w: Vector, lstsq: Solver)
    requires CacheValid(cache) && |obj.keyBlocks| > 0 && UpdateMesh(cache, obj) == Success(m)
    requires |w| == |m.dif| && DeltasIndependent(m)
    requires |m.dif| > 0 ==> SolvedAt(DesignMatrix(m), |m.dif|, Offsets(m, Vertices(m, w).value),
                                      lstsq(DesignMatrix(m), Offsets(m, Vertices(m, w).value)))
    ensures CalculateWeights(cache, obj, Vertices(m, w).value, lstsq).Success?
    ensures KeyValues(CalculateWeights(cache, obj, Vertices(m, w).value, lstsq).value.obj)[1..] == w
    ensures CalculateWeights(cache, obj, Vertices(m, w).value, lstsq).value.error == 0.0
  {
    var lms := Vertices(m, w).value;
    GetWeightsRoundTrip(m, w, lstsq);
    var fit := GetWeights(m, lms, lstsq).value;
    assert |m.dif| == |obj.keyBlocks| - 1;
    if |m.dif| == 0 {
      assert fit.weights == m.weights;
    }
    assert fit.weights == w;
    UpdateWeightsReadBack(obj, w);
    var r := CalculateWeights(cache, obj, lms, lstsq);
    assert r == Success(Solved(m, UpdateWeightsBlender(obj, w).value, fit.error));
    assert w[..|obj.keyBlocks| - 1] == w;
  }

  // ---------------------------------------------------------------------------
  // Landmarks and basis growth on the scene
  // ---------------------------------------------------------------------------

  /** `normalize_vertices`: the face's landmarks become the landmark mesh's
      vertex coordinates, one point per vertex. */
  function WriteLandmarks(obj: MeshObject, face: Pose): (r: Result<MeshObject>)
    ensures r.Success? <==> |face| == |obj.vertices|
    ensures r.Failure? ==> r.error == DimensionMismatch
    ensures r.Success? ==>
      && VertexCoordinates(r.value) == face
      && r.value.name == obj.name && r.value.vertexGroups == obj.vertexGroups
      && r.value.keyBlocks == obj.keyBlocks
      && forall i :: 0 <= i < |face| ==> r.value.vertices[i].groups == obj.vertices[i].groups
  {
    if |face| != |obj.vertices| then Failure(DimensionMismatch)
    else Success(obj.(vertices := seq(|face|, i requires 0 <= i < |face| => obj.vertices[i].(co := face[i]))))
  }

  /** The landmark write of a tick, which dereferences the landmark mesh. */
  function PlaceLandmarks(s: Settings, face: Pose): (r: Result<MeshObject>)
    ensures s.landmarkMesh.None? ==> r == Failure(NoLandmarkMesh)
    ensures s.landmarkMesh.Some? ==> r == WriteLandmarks(s.landmarkMesh.value, face)
  {
    match s.landmarkMesh
    case None => Failure(NoLandmarkMesh)
    case Some(lm) => WriteLandmarks(lm, face)
  }

  /** Landmark and blendshape meshes of equal vertex count, which the join accepts. */
  predicate Joinable(s: Settings)
    requires s.landmarkMesh.Some? && s.blendshapeMesh.Some?
  {
    |s.landmarkMesh.value.vertices| == |s.blendshapeMesh.value.vertices|
  }

  /** The `add_shape_keys` operator on the scene: make the blendshape mesh
      active, select the landmark mesh and grow the blendshape mesh by the
      landmark shape. Either reference being unset is an attribute error;
      a refused join only relabels the last key, or fails on a keyless mesh. */
  function AddShapeKeysToScene(s: Settings): (r: Result<Settings>)
    ensures s.landmarkMesh.None? ==> r == Failure(NoLandmarkMesh)
    ensures s.landmarkMesh.Some? && s.blendshapeMesh.None? ==> r == Failure(NoBlendshapeMesh)
    ensures s.landmarkMesh.Some? && s.blendshapeMesh.Some? ==>
      (r.Success? <==> Joinable(s) || |s.blendshapeMesh.value.keyBlocks| > 0)
    ensures r.Failure? ==> r.error in {NoLandmarkMesh, NoBlendshapeMesh, MissingShapeKeys}
    ensures r.Success? ==>
      && s.blendshapeMesh.Some? && s.landmarkMesh.Some?
      && r.value == s.(blendshapeMesh := Some(AddShapeKeys(s.blendshapeMesh.value, s.landmarkMesh.value).value))
      && (|r.value.blendshapeMesh.value.keyBlocks| > |s.blendshapeMesh.value.keyBlocks| <==> Joinable(s))
      && (!Joinable(s) ==> |r.value.blendshapeMesh.value.keyBlocks| == |s.blendshapeMesh.value.keyBlocks|)
  {
    if s.landmarkMesh.None? then Failure(NoLandmarkMesh)
    else if s.blendshapeMesh.None? then Failure(NoBlendshapeMesh)
    else match AddShapeKeys(s.blendshapeMesh.value, s.landmarkMesh.value)
      case Failure(e) => Failure(e)
      case Success(grown) => Success(s.(blendshapeMesh := Some(grown)))
  }

  /** Growth appends one key per non-empty vertex group, at least one, after
      the basis the object has or receives, and touches nothing else. */
  lemma GrowthAddsKeys(s: Settings)
    requires AddShapeKeysToScene(s).Success? && Joinable(s)
    ensures
      var obj := s.blendshapeMesh.value;
      var grown := AddShapeKeysToScene(s).value.blendshapeMesh.value;
      && |grown.keyBlocks| == |WithBasis(obj)| + (if CountNonEmpty(obj.vertices, obj.vertexGroups) == 0 then 1
                                                  else CountNonEmpty(obj.vertices, obj.vertexGroups))
      && grown.keyBlocks[..|WithBasis(obj)|] == WithBasis(obj)
      && grown.vertices == obj.vertices && grown.vertexGroups == obj.vertexGroups
  {
    var obj := s.blendshapeMesh.value;
    GrowthKeysCount(obj.vertices, obj.vertexGroups);
  }

  // ---------------------------------------------------------------------------
  // cancel and the modal tick
  // ---------------------------------------------------------------------------

  /** `cancel`: release the capture, drop both callbacks and the timer, and
      switch the capture flag off. The release calls `_endCapture`, so a
      session that no longer holds it cannot be cancelled. */
  function Cancel(st: State): (r: State)
    requires st.session.capturing
    ensures !r.session.capturing && !r.session.timed
    ensures r.session.releases == st.session.releases + 1
    ensures r.session.cache == st.session.cache
    ensures r.settings == st.settings.(isFcOn := false)
  {
    State(st.settings.(isFcOn := false),
          st.session.(capturing := false, timed := false, releases := st.session.releases + 1))
  }

  /** Switching the flag off during cancellation launches no new capture. */
  lemma CancelLaunchesNothing(st: State, created: Result<MeshObject>, ready: bool)
    requires st.session.capturing
    ensures ToggleFc(Cancel(st).settings, created, ready) == Launch(Cancel(st).settings, None)
    ensures !Running(Cancel(st).session)
  {
  }

  datatype Event = RightMouse | Esc | Timer | OtherEvent

  /** What the capture callback returns: the detected faces, and whether
      the preview window was closed. */
  datatype Frame = Frame(faces: seq<Pose>, close: bool)

  /** The operator's answer to the event loop. */
  datatype Status = Cancelled | PassThrough

  /** The promises every tick keeps: cancelling releases the capture exactly
      once and switches the flag off; passing through keeps the session
      running with the flag on and releases nothing. */
  predicate TickOutcome(st: State, r: (State, Status))
  {
    && (r.1 == Cancelled <==> !Running(r.0.session))
    && (r.1 == Cancelled ==> !r.0.settings.isFcOn && r.0.session.releases == st.session.releases + 1)
    && (r.1 == PassThrough ==> Live(r.0) && r.0.settings.isFcOn && r.0.session.releases == st.session.releases)
    && CacheValid(r.0.session.cache)
    && r.0.settings.tolerance == st.settings.tolerance
    && r.0.settings.retargetMesh == st.settings.retargetMesh
  }

  /** Refit the blendshape mesh to the face and grow it when the error is
      strictly above the tolerance; any failure cancels. */
  function Fitted(st: State, lms: Pose, lstsq: Solver): (r: (State, Status))
    requires Live(st) && st.settings.isFcOn && st.settings.blendshapeMesh.Some?
    ensures TickOutcome(st, r)
  {
    match CalculateWeights(st.session.cache, st.settings.blendshapeMesh.value, lms, lstsq)
    case Failure(_) => (Cancel(st), Cancelled)
    case Success(solved) =>
      var fitted := State(st.settings.(blendshapeMesh := Some(solved.obj)),
                          st.session.(cache := Some(solved.mesh)));
      if solved.error > st.settings.tolerance then
        match AddShapeKeysToScene(fitted.settings)
        case Failure(_) => (Cancel(fitted), Cancelled)
        case Success(grown) => (fitted.(settings := grown), PassThrough)
      else (fitted, PassThrough)
  }

  /** A timer tick: ask for a frame, clear `show_cam` when the preview was
      closed, stop at no face, write the first face into the landmark mesh,
      stop at no blendshape mesh, otherwise refit. */
  function TimerTick(st: State, capture: Result<Frame>, lstsq: Solver): (r: (State, Status))
    requires Live(st) && st.settings.isFcOn
    ensures TickOutcome(st, r)
  {
    match capture
    case Failure(_) => (Cancel(st), Cancelled)
    case Success(frame) =>
      var seen := if frame.close then st.(settings := st.settings.(showCam := false)) else st;
      if |frame.faces| == 0 then (seen, PassThrough)
      else match PlaceLandmarks(seen.settings, frame.faces[0])
        case Failure(_) => (Cancel(seen), Cancelled)
        case Success(lm) =>
          var placed := seen.(settings := seen.settings.(landmarkMesh := Some(lm)));
          if placed.settings.blendshapeMesh.None? then (placed, PassThrough)
          else Fitted(placed, frame.faces[0], lstsq)
  }

  /** `modal`: cancel on Esc, right mouse or the flag being off; work on a
      timer event; let every other event pass. */
  function Modal(st: State, ev: Event, capture: Result<Frame>, lstsq: Solver): (r: (State, Status))
    requires Live(st)
    ensures TickOutcome(st, r)
    ensures ev == Esc || ev == RightMouse || !st.settings.isFcOn ==> r == (Cancel(st), Cancelled)
    ensures st.settings.isFcOn && ev == OtherEvent ==> r == (st, PassThrough)
    ensures st.settings.isFcOn && ev == Timer && capture.Failure? ==> r == (Cancel(st), Cancelled)
  {
    if ev == RightMouse || ev == Esc || !st.settings.isFcOn then (Cancel(st), Cancelled)
    else if ev == Timer then TimerTick(st, capture, lstsq)
    else (st, PassThrough)
  }

  /** A frame without a face solves nothing and writes nothing: only the
      preview flag may change. */
  lemma NoFaceTick(st: State, close: bool, lstsq: Solver)
    requires Live(st) && st.settings.isFcOn
    ensures Modal(st, Timer, Success(Frame([], close)), lstsq)
      == (st.(settings := if close then st.settings.(showCam := false) else st.settings), PassThrough)
  {
  }

  /** Without a blendshape mesh a face only moves the landmark mesh. */
  lemma NoBlendshapeTick(st: State, frame: Frame, lm: MeshObject, lstsq: Solver)
    requires Live(st) && st.settings.isFcOn && st.settings.blendshapeMesh.None? && |frame.faces| > 0
    requires PlaceLandmarks(st.settings, frame.faces[0]) == Success(lm)
    ensures Modal(st, Timer, Success(frame), lstsq).1 == PassThrough
    ensures Modal(st, Timer, Success(frame), lstsq).0.session == st.session
    ensures Modal(st, Timer, Success(frame), lstsq).0.settings.blendshapeMesh.None?
    ensures Modal(st, Timer, Success(frame), lstsq).0.settings.landmarkMesh == Some(lm)
  {
  }

  /** The state a tick reaches once the landmarks are placed. */
  function Placed(st: State, frame: Frame, lm: MeshObject): State
  {
    var seen := if frame.close then st.(settings := st.settings.(showCam := false)) else st;
    seen.(settings := seen.settings.(landmarkMesh := Some(lm)))
  }

  /** Basis growth happens exactly when the fit error is strictly above the
      tolerance and the landmark mesh has the blendshape mesh's vertex count:
      the refitted object is kept as it is below the tolerance, and handed to
      the scene's `add_shape_keys` operator above it. */
  lemma GrowthIffAboveTolerance(st: State, frame: Frame, lm: MeshObject, solved: Solved, lstsq: Solver)
    requires Live(st) && st.settings.isFcOn && st.settings.blendshapeMesh.Some? && |frame.faces| > 0
    requires PlaceLandmarks(st.settings, frame.faces[0]) == Success(lm)
    requires CalculateWeights(st.session.cache, st.settings.blendshapeMesh.value, frame.faces[0], lstsq)
      == Success(solved)
    ensures
      var r := Modal(st, Timer, Success(frame), lstsq);
      var fitted := Placed(st, frame, lm).settings.(blendshapeMesh := Some(solved.obj));
      && r.0.session.cache == (if r.1 == PassThrough then Some(solved.mesh) else r.0.session.cache)
      && (solved.error <= st.settings.tolerance ==> r.1 == PassThrough && r.0.settings == fitted)
      && (solved.error > st.settings.tolerance ==>
            (r.1 == PassThrough <==> AddShapeKeysToScene(fitted).Success?) &&
            (r.1 == PassThrough ==> r.0.settings == AddShapeKeysToScene(fitted).value))
      && (r.1 == PassThrough ==>
            (|r.0.settings.blendshapeMesh.value.keyBlocks| > |solved.obj.keyBlocks| <==>
             solved.error > st.settings.tolerance && |lm.vertices| == |solved.obj.vertices|))
  {
    TickReachesFit(st, frame, lm, lstsq);
  }

  /** After a tick above the tolerance the cached basis no longer matches the
      grown object, so the next tick rebuilds it with the new keys, exactly
      when the join was accepted; after a refused join the relabelled object
      keeps its key count and the old basis stays in use. */
  lemma GrowthForcesRebuild(st: State, frame: Frame, lm: MeshObject, solved: Solved, lstsq: Solver)
    requires Live(st) && st.settings.isFcOn && st.settings.blendshapeMesh.Some? && |frame.faces| > 0
    requires PlaceLandmarks(st.settings, frame.faces[0]) == Success(lm)
    requires CalculateWeights(st.session.cache, st.settings.blendshapeMesh.value, frame.faces[0], lstsq)
      == Success(solved)
    requires solved.error > st.settings.tolerance
    requires |lm.vertices| == |solved.obj.vertices| || |solved.obj.keyBlocks| > 0
    ensures Modal(st, Timer, Success(frame), lstsq).1 == PassThrough
    ensures Modal(st, Timer, Success(frame), lstsq).0.settings.blendshapeMesh.Some?
    ensures
      var r := Modal(st, Timer, Success(frame), lstsq).0;
      !CacheCurrent(r.session.cache, r.settings.blendshapeMesh.value) <==> |lm.vertices| == |solved.obj.vertices|
  {
    var obj := st.settings.blendshapeMesh.value;
    var placed := Placed(st, frame, lm);
    var fitted := placed.settings.(blendshapeMesh := Some(solved.obj));
    TickReachesFit(st, frame, lm, lstsq);
    assert AddShapeKeysToScene(fitted).Success?;
    var grown := AddShapeKeysToScene(fitted).value.blendshapeMesh.value;
    assert Modal(st, Timer, Success(frame), lstsq).0
        == State(AddShapeKeysToScene(fitted).value, placed.session.(cache := Some(solved.mesh)));
    assert |solved.mesh.weights| + 1 == |WithBasis(solved.obj)|;
    if Joinable(fitted) {
      GrowthAddsKeys(fitted);
    } else {
      assert |grown.keyBlocks| == |solved.obj.keyBlocks| > 0;
    }
  }

  /** A timer tick whose face is placed on the landmark mesh, with a
      blendshape mesh set, is the refit of the placed state. */
  lemma TickReachesFit(st: State, frame: Frame, lm: MeshObject, lstsq: Solver)
    requires Live(st) && st.settings.isFcOn && st.settings.blendshapeMesh.Some? && |frame.faces| > 0
    requires PlaceLandmarks(st.settings, frame.faces[0]) == Success(lm)
    ensures Modal(st, Timer, Success(frame), lstsq) == Fitted(Placed(st, frame, lm), frame.faces[0], lstsq)
  {
  }

  /** A face that is exactly a blend of the current keys is fitted with
      error 0, so under a non-negative tolerance the tick writes the blend
      weights and adds no key. */
  lemma ExactFaceTick(st: State, frame: Frame, lm: MeshObject, m: BlendshapeMesh, w: Vector, lstsq: Solver)
    requires Live(st) && st.settings.isFcOn && st.settings.tolerance >= 0.0
    requires st.settings.blendshapeMesh.Some? && |st.settings.blendshapeMesh.value.keyBlocks| > 0
    requires UpdateMesh(st.session.cache, st.settings.blendshapeMesh.value) == Success(m)
    requires |w| == |m.dif| && DeltasIndependent(m)
    requires |m.dif| > 0 ==> SolvedAt(DesignMatrix(m), |m.dif|, Offsets(m, Vertices(m, w).value),
                                      lstsq(DesignMatrix(m), Offsets(m, Vertices(m, w).value)))
    requires |frame.faces| > 0 && frame.faces[0] == Vertices(m, w).value
    requires PlaceLandmarks(st.settings, frame.faces[0]) == Success(lm)
    ensures Modal(st, Timer, Success(frame), lstsq).1 == PassThrough
    ensures Modal(st, Timer, Success(frame), lstsq).0.settings.blendshapeMesh.Some?
    ensures var obj := Modal(st, Timer, Success(frame), lstsq).0.settings.blendshapeMesh.value;
      |obj.keyBlocks| == |st.settings.blendshapeMesh.value.keyBlocks| && KeyValues(obj)[1..] == w
  {
    CalculateWeightsRecovers(st.session.cache, st.settings.blendshapeMesh.value, m, w, lstsq);
    TickReachesFit(st, frame, lm, lstsq);
  }

  // ---------------------------------------------------------------------------
  // A whole session
  // ---------------------------------------------------------------------------

  /** One event the loop delivers, with the capture callback's answer. */
  datatype Tick = Tick(event: Event, capture: Result<Frame>)

  /** Deliver events until the operator cancels or they run out. */
  function Run(st: State, ticks: seq<Tick>, lstsq: Solver): (r: (State, Status))
    requires Live(st)
    ensures r.1 == Cancelled <==> !Running(r.0.session)
    ensures r.1 == Cancelled ==> !r.0.settings.isFcOn && r.0.session.releases == st.session.releases + 1
    ensures r.1 == PassThrough ==> Live(r.0) && r.0.session.releases == st.session.releases
    decreases |ticks|
  {
    if |ticks| == 0 then (st, PassThrough)
    else
      var step := Modal(st, ticks[0].event, ticks[0].capture, lstsq);
      if step.1 == Cancelled then step else Run(step.0, ticks[1..], lstsq)
  }

  /** From a fresh start the capture is released at most once, exactly when
      the session ends, and an ended session leaves the flag off. */
  lemma RunReleasesOnce(s: Settings, ticks: seq<Tick>, lstsq: Solver)
    ensures Live(State(s, Started))
    ensures Run(State(s, Started), ticks, lstsq).0.session.releases <= 1
    ensures Run(State(s, Started), ticks, lstsq).0.session.releases == 1 <==>
            Run(State(s, Started), ticks, lstsq).1 == Cancelled
    ensures Run(State(s, Started), ticks, lstsq).1 == Cancelled ==>
            !Run(State(s, Started), ticks, lstsq).0.settings.isFcOn
  {
  }

  /** Events after the cancelling one are never processed. */
  lemma {:induction false} RunStopsAtCancel(st: State, ticks: seq<Tick>, more: seq<Tick>, lstsq: Solver)
    requires Live(st) && Run(st, ticks, lstsq).1 == Cancelled
    ensures Run(st, ticks + more, lstsq) == Run(st, ticks, lstsq)
    decreases |ticks|
  {
    assert |ticks| > 0;
    assert (ticks + more)[0] == ticks[0];
    var step := Modal(st, ticks[0].event, ticks[0].capture, lstsq);
    if step.1 == PassThrough {
      assert (ticks + more)[1..] == ticks[1..] + more;
      RunStopsAtCancel(step.0, ticks[1..], more, lstsq);
    }
  }
}
