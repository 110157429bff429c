/** The interaction rules of the train scene (src/components/Experience/Train.jsx):
    the per-frame walk step, the Escape key, the cursor, the hover and
    highlight rules of the clickable hotspots, and which hotspots and panels
    are mounted in each view. */
module TrainScene {
  import opened Common
  import opened TrainSpec
  import opened TrainStore

  // ---------------------------------------------------------------- walking

  /** The movement keys held during a frame. */
  datatype Keys = Keys(forward: bool, backward: bool)

  /** Forward walking stops at z = -60, backward walking at z = 32. */
  const ForwardLimit: real := -60.0
  const BackwardLimit: real := 32.0
  /** One step moves 0.4 along z. */
  const Stride: real := 0.4
  /** On the ramp one step also moves 0.17 along y. */
  const Rise: real := 0.17

  /** The ramp band -45 <= z <= -30. */
  predicate OnRamp(z: real) {
    -45.0 <= z <= -30.0
  }

  /** A walk step is taken only inside the train and outside every focused
      view and transition (the interior object must also exist). */
  predicate CanWalk(s: StoreState) {
    s.inTrain && !(s.inTerminal || s.inProjects || s.isTransitioning)
  }

  /** The end value of the walk tween started in one frame. Forward and
      backward tweens both start from the same position; when both keys are
      held, the backward tween is the later one and its end value wins. */
  function WalkStep(pos: Vec3, keys: Keys): (r: Vec3)
    ensures r.x == pos.x
    ensures r.z < pos.z ==> keys.forward && pos.z > ForwardLimit && r.z == pos.z - Stride
    ensures r.z > pos.z ==> keys.backward && pos.z < BackwardLimit && r.z == pos.z + Stride
    ensures r.z == pos.z ==> r == pos
    ensures keys.forward && pos.z > ForwardLimit && !(keys.backward && pos.z < BackwardLimit) ==> r.z < pos.z
    ensures keys.backward && pos.z < BackwardLimit ==> r.z > pos.z
    ensures r.y != pos.y ==> OnRamp(pos.z)
    ensures OnRamp(pos.z) && r.z < pos.z ==> r.y == pos.y - Rise
    ensures OnRamp(pos.z) && r.z > pos.z ==> r.y == pos.y + Rise
  {
    var forward :=
      if keys.forward && pos.z > ForwardLimit
      then Some(Vec3(pos.x, if OnRamp(pos.z) then pos.y - Rise else pos.y, pos.z - Stride))
      else None;
    var backward :=
      if keys.backward && pos.z < BackwardLimit
      then Some(Vec3(pos.x, if OnRamp(pos.z) then pos.y + Rise else pos.y, pos.z + Stride))
      else None;
    if backward.Some? then backward.value
    else if forward.Some? then forward.value
    else pos
  }

  /** The walk never leaves the corridor -60.4 < z < 32.4 once inside it. */
  lemma WalkStaysInCorridor(pos: Vec3, keys: Keys)
    requires ForwardLimit - Stride < pos.z < BackwardLimit + Stride
    ensures ForwardLimit - Stride < WalkStep(pos, keys).z < BackwardLimit + Stride
  {
  }

  /** The train's interior group, whose position the walk moves. */
  class Interior {
    var position: Vec3

    constructor (position: Vec3)
      ensures this.position == position
    {
      this.position := position;
    }
  }

  /** The `useFrame` callback: moves the interior by one walk step when
      walking is allowed, and does nothing otherwise. */
  method OnFrame(store: Store, interior: Interior?, keys: Keys)
    modifies interior
    ensures interior != null ==>
      interior.position == if CanWalk(store.State()) then WalkStep(old(interior.position), keys) else old(interior.position)
  {
    var focused := store.inTerminal || store.inProjects || store.isTransitioning;
    if store.inTrain && !focused && interior != null {
      var pos := interior.position;
      var end := pos;
      if keys.forward && pos.z > ForwardLimit {
        var targetY := pos.y;
        if pos.z <= -30.0 && pos.z >= -45.0 {
          targetY := targetY - Rise;
        }
        end := Vec3(pos.x, targetY, pos.z - Stride);
      }
      if keys.backward && pos.z < BackwardLimit {
        var targetY := pos.y;
        if pos.z <= -30.0 && pos.z >= -45.0 {
          targetY := targetY + Rise;
        }
        end := Vec3(pos.x, targetY, pos.z + Stride);
      }
      interior.position := end;
    }
  }

  // ---------------------------------------------------------------- Escape key

  /** The key handler: Escape leaves the terminal view when in it, then
      leaves the projects view when in it; other keys do nothing. The second
      action sees the store as the first left it, so when both views are on
      only the terminal is left. */
  function KeyDown(sc: Scene, key: string): (r: (Scene, Option<Tween>, Option<Tween>))
    ensures key != "Escape" ==> r == (sc, None, None)
    ensures r.1.Some? <==> key == "Escape" && sc.store.inTerminal && !sc.store.isTransitioning
    ensures r.2.Some? <==>
      key == "Escape" && sc.store.inProjects && !sc.store.inTerminal && !sc.store.isTransitioning
    ensures r.1.None? && r.2.None? ==> r.0 == sc
    ensures r.1.Some? ==> (r.0, r.1) == BeginExitTerminal(sc)
    ensures r.2.Some? ==> (r.0, r.2) == BeginExitProjects(sc)
  {
    if key != "Escape" then (sc, None, None)
    else
      var (s1, t1) := if sc.store.inTerminal then BeginExitTerminal(sc) else (sc, None);
      var (s2, t2) := if sc.store.inProjects then BeginExitProjects(s1) else (s1, None);
      (s2, t1, t2)
  }

  method HandleKeyDown(store: Store, key: string, camera: Camera, controls: Controls)
    returns (terminalExit: Option<Tween>, projectsExit: Option<Tween>)
    modifies store, controls
    ensures (store.SceneOf(camera, controls), terminalExit, projectsExit) == KeyDown(old(store.SceneOf(camera, controls)), key)
  {
    terminalExit, projectsExit := None, None;
    if key == "Escape" {
      var inTerminal, inProjects := store.inTerminal, store.inProjects;
      if inTerminal {
        terminalExit := store.BeginExitTerminal(camera, controls);
      }
      if inProjects {
        projectsExit := store.BeginExitProjects(camera, controls);
      }
    }
  }

  // ---------------------------------------------------------------- cursor

  datatype Cursor = Pointer | Auto

  /** `hoveredObject && !isTransitioning ? 'pointer' : 'auto'`; an empty
      name is falsy like `null`. */
  function CursorStyle(s: StoreState): (r: Cursor)
    ensures r == Pointer <==> s.hoveredObject.Some? && s.hoveredObject.value != "" && !s.isTransitioning
  {
    match s.hoveredObject
    case Some(name) => if name != "" && !s.isTransitioning then Pointer else Auto
    case None => Auto
  }

  // ---------------------------------------------------------------- hotspots

  datatype Hotspot = Door | ProjectsScreen | ExitProjectsButton | Terminal | ExitTerminalButton

  /** The mesh name each hotspot reports as hovered. */
  function Name(h: Hotspot): string {
    match h
    case Door => "DoorRight_1"
    case ProjectsScreen => "ProjectsScreen_3"
    case ExitProjectsButton => "ExitProjects"
    case Terminal => "DisplayTerminal"
    case ExitTerminalButton => "ButtonTerminal"
  }

  /** Whether the hotspot's mesh is mounted: the door always; the screens
      only inside the train; each exit button only inside the train and in
      its own view. */
  predicate Mounted(h: Hotspot, s: StoreState)
    ensures Mounted(h, s) && h != Door ==> s.inTrain
    ensures Mounted(h, s) && h == ExitTerminalButton ==> s.inTerminal
    ensures Mounted(h, s) && h == ExitProjectsButton ==> s.inProjects
  {
    match h
    case Door => true
    case ProjectsScreen => s.inTrain
    case Terminal => s.inTrain
    case ExitProjectsButton => s.inTrain && s.inProjects
    case ExitTerminalButton => s.inTrain && s.inTerminal
  }

  /** The embedded projects browser is mounted only inside the train while `projectsVisible`. */
  predicate ProjectsPanelMounted(s: StoreState)
    ensures ProjectsPanelMounted(s) ==> Mounted(ProjectsScreen, s)
  {
    s.inTrain && s.projectsVisible
  }

  /** The terminal page is mounted only inside the train while `iframeVisible`. */
  predicate TerminalPanelMounted(s: StoreState)
    ensures TerminalPanelMounted(s) ==> Mounted(Terminal, s)
  {
    s.inTrain && s.iframeVisible
  }

  /** An accepted exit hides its panel at once, before the camera has moved
      back, and once the return tween completes the exit button is gone. */
  lemma VisibilityFollowsViews(sc: Scene)
    ensures BeginExitTerminal(sc).1.Some? ==> !TerminalPanelMounted(BeginExitTerminal(sc).0.store)
    ensures BeginExitProjects(sc).1.Some? ==> !ProjectsPanelMounted(BeginExitProjects(sc).0.store)
    ensures BeginExitTerminal(sc).1.Some? ==>
      !Mounted(ExitTerminalButton, CompleteExitTerminal(BeginExitTerminal(sc).0, BeginExitTerminal(sc).1.value).store)
    ensures BeginExitProjects(sc).1.Some? ==>
      !Mounted(ExitProjectsButton, CompleteExitProjects(BeginExitProjects(sc).0, BeginExitProjects(sc).1.value).store)
  {
  }

  /** The outline highlight (`Select enabled`): the hotspot is the hovered
      object and, for the door and the two screens, its view is not the
      current one. */
  predicate Highlighted(h: Hotspot, s: StoreState)
    ensures Highlighted(h, s) ==> s.hoveredObject == Some(Name(h))
    ensures Highlighted(h, s) ==> (CursorStyle(s) == Pointer <==> !s.isTransitioning)
  {
    s.hoveredObject == Some(Name(h)) &&
    match h
    case Door => !s.inTrain
    case ProjectsScreen => !s.inProjects
    case Terminal => !s.inTerminal
    case ExitProjectsButton => true
    case ExitTerminalButton => true
  }

  lemma NamesDistinct(h1: Hotspot, h2: Hotspot)
    requires Name(h1) == Name(h2)
    ensures h1 == h2
  {
    match h1
    case Door => assert Name(h1)[0] == 'D' && Name(h1)[1] == 'o';
    case ProjectsScreen => assert Name(h1)[0] == 'P';
    case ExitProjectsButton => assert Name(h1)[0] == 'E';
    case Terminal => assert Name(h1)[0] == 'D' && Name(h1)[1] == 'i';
    case ExitTerminalButton => assert Name(h1)[0] == 'B';
  }

  /** At most one hotspot is outlined at a time. */
  lemma AtMostOneHighlighted(h1: Hotspot, h2: Hotspot, s: StoreState)
    requires Highlighted(h1, s) && Highlighted(h2, s)
    ensures h1 == h2
  {
    NamesDistinct(h1, h2);
  }

  /** The hovered object after the pointer enters a hotspot: the door
      records itself only from outside the train; every other hotspot
      always records itself. */
  function HoverOnEnter(h: Hotspot, s: StoreState): (r: Option<string>)
    ensures h != Door || !s.inTrain ==> r == Some(Name(h))
    ensures h == Door && s.inTrain ==> r == s.hoveredObject
  {
    if h == Door && s.inTrain then s.hoveredObject else Some(Name(h))
  }

  /** Leaving any hotspot clears the hovered object. */
  function HoverOnLeave(h: Hotspot, s: StoreState): (r: Option<string>)
    ensures r.None?
  {
    None
  }

  method OnPointerEnter(store: Store, h: Hotspot)
    modifies store
    ensures store.State() == old(store.State()).(hoveredObject := HoverOnEnter(h, old(store.State())))
  {
    if h == Door {
      if !store.inTrain {
        store.SetHoveredObject(Some(Name(h)));
      }
    } else {
      store.SetHoveredObject(Some(Name(h)));
    }
  }

  method OnPointerLeave(store: Store, h: Hotspot)
    modifies store
    ensures store.State() == old(store.State()).(hoveredObject := None)
  {
    store.SetHoveredObject(None);
  }

  /** After entering a hotspot from where its highlight applies, the cursor
      becomes a pointer unless a transition is running, and after leaving it
      the cursor is back to the arrow. */
  lemma HoverCursor(h: Hotspot, s: StoreState)
    ensures (h != Door || !s.inTrain) ==>
      (CursorStyle(s.(hoveredObject := HoverOnEnter(h, s))) == Pointer <==> !s.isTransitioning)
    ensures CursorStyle(s.(hoveredObject := HoverOnLeave(h, s))) == Auto
  {
  }

  /** The action a click on a hotspot starts. */
  function ClickAction(h: Hotspot, door: Vec3, terminal: Vec3, screen: Vec3): (r: Action)
    ensures r.EnterTrain? <==> h == Door
    ensures r.EnterTerminal? <==> h == Terminal
    ensures r.EnterProjects? <==> h == ProjectsScreen
    ensures r.ExitTerminal? <==> h == ExitTerminalButton
    ensures r.ExitProjects? <==> h == ExitProjectsButton
  {
    match h
    case Door => EnterTrain(door)
    case ProjectsScreen => EnterProjects(screen)
    case ExitProjectsButton => ExitProjects
    case Terminal => EnterTerminal(terminal)
    case ExitTerminalButton => ExitTerminal
  }

  /** Clicking the door from inside the train, or a screen whose view is
      already on, changes nothing. */
  lemma RedundantClicksIgnored(sc: Scene, h: Hotspot, door: Vec3, terminal: Vec3, screen: Vec3)
    requires (h == Door && sc.store.inTrain) || (h == Terminal && sc.store.inTerminal) ||
             (h == ProjectsScreen && sc.store.inProjects)
    ensures Begin(sc, ClickAction(h, door, terminal, screen)) == (sc, None)
  {
  }

  /** A click on an outlined, mounted hotspot is always accepted while no
      transition is running: the outline is never shown on a hotspot whose
      click would be ignored. */
  lemma OutlinedClickStarts(sc: Scene, h: Hotspot, door: Vec3, terminal: Vec3, screen: Vec3)
    requires Mounted(h, sc.store) && Highlighted(h, sc.store) && !sc.store.isTransitioning
    ensures Begin(sc, ClickAction(h, door, terminal, screen)).1.Some?
  {
  }
}
