/** The view-state machine of the train scene (src/store/useTrainStore.js),
    stated on values. A `Scene` is the store's state together with the
    camera position and the camera-controls record that the actions write
    to. Every action is split into its synchronous part (`Begin...`), which
    also schedules the camera tweens, and the tweens' `onComplete` part
    (`Complete...`), which first lets the camera and the look-at target
    reach the end values fixed at scheduling time. */
module TrainSpec {
  import opened Common

  /** `Math.PI` as a double. */
  const Pi: real := 3.141592653589793

  /** An angle limit of the orbit controls; the free-roam azimuth limits are `Infinity`. */
  datatype Angle = Finite(radians: real) | PositiveInfinity

  /** The fields of the camera-controls object that the actions write. */
  datatype ControlsState = ControlsState(
    target: Vec3,
    enableRotate: bool,
    enablePan: bool,
    enableZoom: bool,
    minDistance: real,
    minPolarAngle: Angle,
    maxPolarAngle: Angle,
    minAzimuthAngle: Angle,
    maxAzimuthAngle: Angle)

  /** The store's state. `inProjects` is declared nowhere in the initial
      state (that declares an unused `inProjector`), so it starts out
      `undefined`, which every test reads as false. */
  datatype StoreState = StoreState(
    inTrain: bool,
    inTerminal: bool,
    inProjects: bool,
    isTransitioning: bool,
    iframeVisible: bool,
    projectsVisible: bool,
    hoveredObject: Option<string>,
    lastCameraPos: Vec3)

  datatype Scene = Scene(store: StoreState, camera: Vec3, controls: ControlsState)

  /** The end values of the camera tween and of the look-at target tween. */
  datatype Tween = Tween(cameraEnd: Vec3, targetEnd: Vec3)

  /** The store right after creation (`lastCameraPos` is a zero `Vector3`). */
  function InitialStore(): (s: StoreState)
    ensures !s.inTrain && !s.inTerminal && !s.inProjects && !s.isTransitioning
    ensures !s.iframeVisible && !s.projectsVisible && s.hoveredObject.None?
  {
    StoreState(false, false, false, false, false, false, None, Vec3(0.0, 0.0, 0.0))
  }

  // ---------------------------------------------------------------- controls helpers

  /** `disableControls` on a present controls object: rotation and panning
      are switched off, nothing else is touched. */
  function Disabled(c: ControlsState): (r: ControlsState)
    ensures !r.enableRotate && !r.enablePan
    ensures r.(enableRotate := c.enableRotate, enablePan := c.enablePan) == c
  {
    c.(enableRotate := false, enablePan := false)
  }

  /** `enableFreeRoamControls` on a present controls object. */
  function FreeRoam(c: ControlsState): (r: ControlsState)
    ensures r.enableRotate && r.enablePan && !r.enableZoom
    ensures r.minPolarAngle == Finite(0.0) && r.maxPolarAngle == Finite(Pi)
    ensures r.minAzimuthAngle == PositiveInfinity && r.maxAzimuthAngle == PositiveInfinity
    ensures r.target == c.target && r.minDistance == c.minDistance
  {
    c.(maxAzimuthAngle := PositiveInfinity, minAzimuthAngle := PositiveInfinity,
       maxPolarAngle := Finite(Pi), minPolarAngle := Finite(0.0),
       enableZoom := false, enableRotate := true, enablePan := true)
  }

  /** The tweens have run to their end: camera and target sit at the end values. */
  function Arrive(sc: Scene, t: Tween): Scene {
    sc.(camera := t.cameraEnd, controls := sc.controls.(target := t.targetEnd))
  }

  // ---------------------------------------------------------------- enterTrain

  /** The door-side end point of the entry animation: the camera ends 0.2
      past the door in x and 0.11 above it; the target 0.21 past it. */
  function EnterTrainTween(door: Vec3): Tween {
    Tween(door.Plus(0.2, 0.11, 0.0), door.Plus(0.21, 0.11, 0.0))
  }

  function BeginEnterTrain(sc: Scene, door: Vec3): (r: (Scene, Option<Tween>))
    ensures r.1.Some? <==> !sc.store.inTrain && !sc.store.isTransitioning
    ensures r.1.None? ==> r.0 == sc
    ensures r.1.Some? ==> r.1.value == EnterTrainTween(door) && r.0.camera == sc.camera
    ensures r.1.Some? ==>
      r.0.store == sc.store.(inTrain := true, isTransitioning := true, lastCameraPos := sc.camera) &&
      r.0.controls == Disabled(sc.controls).(minDistance := 0.0)
  {
    if sc.store.inTrain || sc.store.isTransitioning then (sc, None)
    else
      var controls := Disabled(sc.controls).(minDistance := 0.0);
      var store := sc.store.(lastCameraPos := sc.camera, inTrain := true, isTransitioning := true);
      (Scene(store, sc.camera, controls), Some(EnterTrainTween(door)))
  }

  function CompleteEnterTrain(sc: Scene, t: Tween): (r: Scene)
    ensures r.camera == t.cameraEnd && r.controls.target == t.targetEnd
    ensures !r.store.isTransitioning
    ensures r.store == sc.store.(isTransitioning := false)
    ensures r.controls == FreeRoam(sc.controls.(target := t.targetEnd))
  {
    var a := Arrive(sc, t);
    a.(controls := FreeRoam(a.controls), store := a.store.(isTransitioning := false))
  }

  // ---------------------------------------------------------------- terminal

  function EnterTerminalTween(terminal: Vec3): Tween {
    Tween(terminal.Plus(0.0, 0.05, -0.05), terminal.Plus(0.0, 0.05, 0.0))
  }

  /** The tween back to the saved position; the target stays 0.025 ahead in z. */
  function ReturnTween(last: Vec3): Tween {
    Tween(last, last.Plus(0.0, 0.0, 0.025))
  }

  function BeginEnterTerminal(sc: Scene, terminal: Vec3): (r: (Scene, Option<Tween>))
    ensures r.1.Some? <==> !sc.store.inTerminal && !sc.store.isTransitioning
    ensures r.1.None? ==> r.0 == sc
    ensures r.1.Some? ==>
      r.1.value == EnterTerminalTween(terminal) &&
      r.0 == Scene(sc.store.(isTransitioning := true, lastCameraPos := sc.camera), sc.camera, Disabled(sc.controls))
  {
    if sc.store.inTerminal || sc.store.isTransitioning then (sc, None)
    else
      var store := sc.store.(isTransitioning := true, lastCameraPos := sc.camera);
      (Scene(store, sc.camera, Disabled(sc.controls)), Some(EnterTerminalTween(terminal)))
  }

  /** The terminal's `onComplete` sets the view flags only: the controls stay locked. */
  function CompleteEnterTerminal(sc: Scene, t: Tween): (r: Scene)
    ensures r.store.inTerminal && r.store.iframeVisible && !r.store.isTransitioning
    ensures r.camera == t.cameraEnd && r.controls == sc.controls.(target := t.targetEnd)
    ensures r.store == sc.store.(inTerminal := true, iframeVisible := true, isTransitioning := false)
  {
    var a := Arrive(sc, t);
    a.(store := a.store.(inTerminal := true, iframeVisible := true, isTransitioning := false))
  }

  function BeginExitTerminal(sc: Scene): (r: (Scene, Option<Tween>))
    ensures r.1.Some? <==> sc.store.inTerminal && !sc.store.isTransitioning
    ensures r.1.None? ==> r.0 == sc
    ensures r.1.Some? ==> !r.0.store.iframeVisible && r.1.value.cameraEnd == sc.store.lastCameraPos
    ensures r.1.Some? ==>
      r.1.value == ReturnTween(sc.store.lastCameraPos) &&
      r.0 == Scene(sc.store.(isTransitioning := true, iframeVisible := false), sc.camera, Disabled(sc.controls))
  {
    if !sc.store.inTerminal || sc.store.isTransitioning then (sc, None)
    else
      var store := sc.store.(isTransitioning := true, iframeVisible := false);
      (Scene(store, sc.camera, Disabled(sc.controls)), Some(ReturnTween(sc.store.lastCameraPos)))
  }

  function CompleteExitTerminal(sc: Scene, t: Tween): (r: Scene)
    ensures !r.store.inTerminal && !r.store.isTransitioning
    ensures r.camera == t.cameraEnd
    ensures r.store == sc.store.(inTerminal := false, isTransitioning := false)
    ensures r.controls == FreeRoam(sc.controls.(target := t.targetEnd))
  {
    var a := Arrive(sc, t);
    a.(controls := FreeRoam(a.controls), store := a.store.(inTerminal := false, isTransitioning := false))
  }

  // ---------------------------------------------------------------- projects screen

  function EnterProjectsTween(screen: Vec3): Tween {
    Tween(screen.Plus(-0.15, 0.0, 0.0), screen.Plus(-0.05, 0.0, 0.0))
  }

  function BeginEnterProjects(sc: Scene, screen: Vec3): (r: (Scene, Option<Tween>))
    ensures r.1.Some? <==> !sc.store.inProjects && !sc.store.isTransitioning
    ensures r.1.None? ==> r.0 == sc
    ensures r.1.Some? ==>
      r.1.value == EnterProjectsTween(screen) &&
      r.0 == Scene(sc.store.(isTransitioning := true, lastCameraPos := sc.camera), sc.camera, Disabled(sc.controls))
  {
    if sc.store.inProjects || sc.store.isTransitioning then (sc, None)
    else
      var store := sc.store.(isTransitioning := true, lastCameraPos := sc.camera);
      (Scene(store, sc.camera, Disabled(sc.controls)), Some(EnterProjectsTween(screen)))
  }

  function CompleteEnterProjects(sc: Scene, t: Tween): (r: Scene)
    ensures r.store.inProjects && r.store.projectsVisible && !r.store.isTransitioning
    ensures r.camera == t.cameraEnd && r.controls == sc.controls.(target := t.targetEnd)
    ensures r.store == sc.store.(inProjects := true, projectsVisible := true, isTransitioning := false)
  {
    var a := Arrive(sc, t);
    a.(store := a.store.(inProjects := true, projectsVisible := true, isTransitioning := false))
  }

  function BeginExitProjects(sc: Scene): (r: (Scene, Option<Tween>))
    ensures r.1.Some? <==> sc.store.inProjects && !sc.store.isTransitioning
    ensures r.1.None? ==> r.0 == sc
    ensures r.1.Some? ==> !r.0.store.projectsVisible && r.1.value.cameraEnd == sc.store.lastCameraPos
    ensures r.1.Some? ==>
      r.1.value == ReturnTween(sc.store.lastCameraPos) &&
      r.0 == Scene(sc.store.(isTransitioning := true, projectsVisible := false), sc.camera, Disabled(sc.controls))
  {
    if !sc.store.inProjects || sc.store.isTransitioning then (sc, None)
    else
      var store := sc.store.(isTransitioning := true, projectsVisible := false);
      (Scene(store, sc.camera, Disabled(sc.controls)), Some(ReturnTween(sc.store.lastCameraPos)))
  }

  function CompleteExitProjects(sc: Scene, t: Tween): (r: Scene)
    ensures !r.store.inProjects && !r.store.isTransitioning
    ensures r.camera == t.cameraEnd
    ensures r.store == sc.store.(inProjects := false, isTransitioning := false)
    ensures r.controls == FreeRoam(sc.controls.(target := t.targetEnd))
  {
    var a := Arrive(sc, t);
    a.(controls := FreeRoam(a.controls), store := a.store.(inProjects := false, isTransitioning := false))
  }

  // ---------------------------------------------------------------- properties

  /** The five actions, for statements about all of them at once. */
  datatype Action =
    | EnterTrain(door: Vec3)
    | EnterTerminal(terminal: Vec3)
    | ExitTerminal
    | EnterProjects(screen: Vec3)
    | ExitProjects

  function Begin(sc: Scene, a: Action): (Scene, Option<Tween>) {
    match a
    case EnterTrain(door) => BeginEnterTrain(sc, door)
    case EnterTerminal(terminal) => BeginEnterTerminal(sc, terminal)
    case ExitTerminal => BeginExitTerminal(sc)
    case EnterProjects(screen) => BeginEnterProjects(sc, screen)
    case ExitProjects => BeginExitProjects(sc)
  }

  /** `isTransitioning` serialises the transitions: while it is set every
      action is rejected and changes nothing, and every accepted action sets
      it and locks rotation and panning before its tweens are scheduled. */
  lemma Serialised(sc: Scene, a: Action)
    ensures sc.store.isTransitioning ==> Begin(sc, a) == (sc, None)
    ensures Begin(sc, a).1.Some? ==>
      Begin(sc, a).0.store.isTransitioning &&
      !Begin(sc, a).0.controls.enableRotate && !Begin(sc, a).0.controls.enablePan
  {
  }

  /** Entering the train and completing the entry: the pre-entry camera
      position is saved, the camera and target end beside the door, the
      transition is over, free-roam controls are on, and `minDistance` is 0. */
  lemma EnterTrainEffect(sc: Scene, door: Vec3)
    requires !sc.store.inTrain && !sc.store.isTransitioning
    ensures var (s1, t) := BeginEnterTrain(sc, door);
      t.Some? &&
      var s2 := CompleteEnterTrain(s1, t.value);
      && s2.store == sc.store.(inTrain := true, lastCameraPos := sc.camera)
      && s2.camera == Vec3(door.x + 0.2, door.y + 0.11, door.z)
      && s2.controls.target == Vec3(door.x + 0.21, door.y + 0.11, door.z)
      && s2.controls == FreeRoam(sc.controls).(minDistance := 0.0, target := s2.controls.target)
  {
  }

  /** Entering the terminal view and completing the entry: the camera ends
      0.05 above the terminal and 0.05 before it in z, looking at the point
      0.05 above it; the position before entry is saved, the page is shown,
      and the controls stay locked. */
  lemma EnterTerminalEffect(sc: Scene, terminal: Vec3)
    requires !sc.store.inTerminal && !sc.store.isTransitioning
    ensures var (s1, t) := BeginEnterTerminal(sc, terminal);
      t.Some? &&
      var s2 := CompleteEnterTerminal(s1, t.value);
      && s2.store == sc.store.(inTerminal := true, iframeVisible := true, lastCameraPos := sc.camera)
      && s2.camera == Vec3(terminal.x, terminal.y + 0.05, terminal.z - 0.05)
      && s2.controls.target == Vec3(terminal.x, terminal.y + 0.05, terminal.z)
      && !s2.controls.enableRotate && !s2.controls.enablePan
  {
  }

  /** Entering the projects view and completing the entry: the camera ends
      0.15 before the screen in x, looking at the point 0.05 before it; the
      position before entry is saved, the browser is shown, and the controls
      stay locked. */
  lemma EnterProjectsEffect(sc: Scene, screen: Vec3)
    requires !sc.store.inProjects && !sc.store.isTransitioning
    ensures var (s1, t) := BeginEnterProjects(sc, screen);
      t.Some? &&
      var s2 := CompleteEnterProjects(s1, t.value);
      && s2.store == sc.store.(inProjects := true, projectsVisible := true, lastCameraPos := sc.camera)
      && s2.camera == Vec3(screen.x - 0.15, screen.y, screen.z)
      && s2.controls.target == Vec3(screen.x - 0.05, screen.y, screen.z)
      && !s2.controls.enableRotate && !s2.controls.enablePan
  {
  }

  /** Entering the terminal view and leaving it again puts the camera back
      where it was before entry, with the target 0.025 ahead in z, and
      leaves the terminal flags cleared and the controls in free roam. */
  lemma TerminalRoundTrip(sc: Scene, terminal: Vec3)
    requires !sc.store.inTerminal && !sc.store.isTransitioning
    ensures var (s1, t1) := BeginEnterTerminal(sc, terminal);
      t1.Some? &&
      var s2 := CompleteEnterTerminal(s1, t1.value);
      var (s3, t3) := BeginExitTerminal(s2);
      t3.Some? &&
      var s4 := CompleteExitTerminal(s3, t3.value);
      && s4.camera == sc.camera
      && s4.controls.target == sc.camera.Plus(0.0, 0.0, 0.025)
      && s4.controls.enableRotate && s4.controls.enablePan
      && s4.store == sc.store.(lastCameraPos := sc.camera, iframeVisible := false)
  {
  }

  /** The same round trip through the projects screen. */
  lemma ProjectsRoundTrip(sc: Scene, screen: Vec3)
    requires !sc.store.inProjects && !sc.store.isTransitioning
    ensures var (s1, t1) := BeginEnterProjects(sc, screen);
      t1.Some? &&
      var s2 := CompleteEnterProjects(s1, t1.value);
      var (s3, t3) := BeginExitProjects(s2);
      t3.Some? &&
      var s4 := CompleteExitProjects(s3, t3.value);
      && s4.camera == sc.camera
      && s4.controls.target == sc.camera.Plus(0.0, 0.0, 0.025)
      && s4.controls.enableRotate && s4.controls.enablePan
      && s4.store == sc.store.(lastCameraPos := sc.camera, projectsVisible := false)
  {
  }

  /** Neither entry action looks at the other view's flag: from inside the
      terminal view the projects view can be entered too, and both flags
      are then set at once. */
  lemma ViewsNotExclusive(sc: Scene, screen: Vec3)
    requires sc.store.inTerminal && !sc.store.inProjects && !sc.store.isTransitioning
    ensures var (s1, t1) := BeginEnterProjects(sc, screen);
      t1.Some? &&
      var s2 := CompleteEnterProjects(s1, t1.value);
      s2.store.inTerminal && s2.store.inProjects
  {
  }

  /** `lastCameraPos` is overwritten on every entry: after walking into the
      train, visiting the terminal and leaving it, the camera is back at the
      spot beside the door where the terminal was entered, not at the
      outdoor position saved when the train was entered. */
  lemma NestedEntryRestoresLatestAnchor(sc: Scene, door: Vec3, terminal: Vec3)
    requires !sc.store.inTrain && !sc.store.inTerminal && !sc.store.isTransitioning
    ensures var (s1, t1) := BeginEnterTrain(sc, door);
      t1.Some? &&
      var s2 := CompleteEnterTrain(s1, t1.value);
      var (s3, t3) := BeginEnterTerminal(s2, terminal);
      t3.Some? &&
      var s4 := CompleteEnterTerminal(s3, t3.value);
      var (s5, t5) := BeginExitTerminal(s4);
      t5.Some? &&
      var s6 := CompleteExitTerminal(s5, t5.value);
      && s6.camera == door.Plus(0.2, 0.11, 0.0)
      && s6.store.lastCameraPos == door.Plus(0.2, 0.11, 0.0)
      && s6.store.inTrain
  {
  }
}
