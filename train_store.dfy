/** The scene's view-state store (src/store/useTrainStore.js) as objects that
    are updated in place: the store itself, the camera whose position the
    tweens move, and the camera-controls object that the actions lock and
    unlock. Each action is a `Begin...` method (the synchronous part, which
    returns the scheduled tween) and a `Complete...` method (the tween
    reaching its end and its `onComplete` callback); each is proved to do
    exactly what the matching function of `TrainSpec` says. */
module TrainStore {
  import opened Common
  import opened TrainSpec

  class Camera {
    var position: Vec3

    constructor (position: Vec3)
      ensures this.position == position
    {
      this.position := position;
    }
  }

  class Controls {
    var target: Vec3
    var enableRotate: bool
    var enablePan: bool
    var enableZoom: bool
    var minDistance: real
    var minPolarAngle: Angle
    var maxPolarAngle: Angle
    var minAzimuthAngle: Angle
    var maxAzimuthAngle: Angle

    function Value(): ControlsState
      reads this
    {
      ControlsState(target, enableRotate, enablePan, enableZoom, minDistance,
                    minPolarAngle, maxPolarAngle, minAzimuthAngle, maxAzimuthAngle)
    }

    constructor (v: ControlsState)
      ensures Value() == v
    {
      target, enableRotate, enablePan, enableZoom := v.target, v.enableRotate, v.enablePan, v.enableZoom;
      minDistance := v.minDistance;
      minPolarAngle, maxPolarAngle := v.minPolarAngle, v.maxPolarAngle;
      minAzimuthAngle, maxAzimuthAngle := v.minAzimuthAngle, v.maxAzimuthAngle;
    }
  }

  class Store {
    var inTrain: bool
    var inTerminal: bool
    var inProjects: bool
    var isTransitioning: bool
    var iframeVisible: bool
    var projectsVisible: bool
    var hoveredObject: Option<string>
    var lastCameraPos: Vec3

    function State(): StoreState
      reads this
    {
      StoreState(inTrain, inTerminal, inProjects, isTransitioning,
                 iframeVisible, projectsVisible, hoveredObject, lastCameraPos)
    }

    /** The store, the camera and the controls seen together as a `Scene`. */
    function SceneOf(camera: Camera, controls: Controls): Scene
      reads this, camera, controls
    {
      Scene(State(), camera.position, controls.Value())
    }

    constructor ()
      ensures State() == InitialStore()
    {
      inTrain, inTerminal, inProjects, isTransitioning := false, false, false, false;
      iframeVisible, projectsVisible := false, false;
      hoveredObject := None;
      lastCameraPos := Vec3(0.0, 0.0, 0.0);
    }

    method SetHoveredObject(name: Option<string>)
      modifies this
      ensures State() == old(State()).(hoveredObject := name)
    {
      hoveredObject := name;
    }

    method DisableControls(controls: Controls?)
      modifies controls
      ensures controls != null ==> controls.Value() == Disabled(old(controls.Value()))
    {
      if controls == null {
        return;
      }
      controls.enableRotate := false;
      controls.enablePan := false;
    }

    method EnableFreeRoamControls(controls: Controls?)
      modifies controls
      ensures controls != null ==> controls.Value() == FreeRoam(old(controls.Value()))
    {
      if controls == null {
        return;
      }
      controls.maxAzimuthAngle := PositiveInfinity;
      controls.minAzimuthAngle := PositiveInfinity;
      controls.maxPolarAngle := Finite(Pi);
      controls.minPolarAngle := Finite(0.0);
      controls.enableZoom := false;
      controls.enableRotate := true;
      controls.enablePan := true;
    }

    /** The tweens reach their end values. */
    method Arrive(camera: Camera, controls: Controls, tween: Tween)
      modifies camera, controls
      ensures camera.position == tween.cameraEnd
      ensures controls.Value() == old(controls.Value()).(target := tween.targetEnd)
    {
      camera.position := tween.cameraEnd;
      controls.target := tween.targetEnd;
    }

    method BeginEnterTrain(camera: Camera, controls: Controls, door: Vec3) returns (tween: Option<Tween>)
      modifies this, controls
      ensures (SceneOf(camera, controls), tween) == TrainSpec.BeginEnterTrain(old(SceneOf(camera, controls)), door)
    {
      if inTrain || isTransitioning {
        return None;
      }
      DisableControls(controls);
      lastCameraPos := camera.position;
      controls.minDistance := 0.0;
      tween := Some(EnterTrainTween(door));
      inTrain, isTransitioning := true, true;
    }

    method CompleteEnterTrain(camera: Camera, controls: Controls, tween: Tween)
      modifies this, camera, controls
      ensures SceneOf(camera, controls) == TrainSpec.CompleteEnterTrain(old(SceneOf(camera, controls)), tween)
    {
      Arrive(camera, controls, tween);
      EnableFreeRoamControls(controls);
      isTransitioning := false;
    }

    method BeginEnterTerminal(camera: Camera, controls: Controls, terminal: Vec3) returns (tween: Option<Tween>)
      modifies this, controls
      ensures (SceneOf(camera, controls), tween) == TrainSpec.BeginEnterTerminal(old(SceneOf(camera, controls)), terminal)
    {
      if inTerminal || isTransitioning {
        return None;
      }
      isTransitioning := true;
      DisableControls(controls);
      lastCameraPos := camera.position;
      tween := Some(EnterTerminalTween(terminal));
    }

    method CompleteEnterTerminal(camera: Camera, controls: Controls, tween: Tween)
      modifies this, camera, controls
      ensures SceneOf(camera, controls) == TrainSpec.CompleteEnterTerminal(old(SceneOf(camera, controls)), tween)
    {
      Arrive(camera, controls, tween);
      inTerminal, iframeVisible, isTransitioning := true, true, false;
    }

    method BeginExitTerminal(camera: Camera, controls: Controls) returns (tween: Option<Tween>)
      modifies this, controls
      ensures (SceneOf(camera, controls), tween) == TrainSpec.BeginExitTerminal(old(SceneOf(camera, controls)))
    {
      if !inTerminal || isTransitioning {
        return None;
      }
      isTransitioning, iframeVisible := true, false;
      DisableControls(controls);
      tween := Some(ReturnTween(lastCameraPos));
    }

    method CompleteExitTerminal(camera: Camera, controls: Controls, tween: Tween)
      modifies this, camera, controls
      ensures SceneOf(camera, controls) == TrainSpec.CompleteExitTerminal(old(SceneOf(camera, controls)), tween)
    {
      Arrive(camera, controls, tween);
      EnableFreeRoamControls(controls);
      inTerminal, isTransitioning := false, false;
    }

    method BeginEnterProjects(camera: Camera, controls: Controls, screen: Vec3) returns (tween: Option<Tween>)
      modifies this, controls
      ensures (SceneOf(camera, controls), tween) == TrainSpec.BeginEnterProjects(old(SceneOf(camera, controls)), screen)
    {
      if inProjects || isTransitioning {
        return None;
      }
      isTransitioning := true;
      DisableControls(controls);
      lastCameraPos := camera.position;
      tween := Some(EnterProjectsTween(screen));
    }

    method CompleteEnterProjects(camera: Camera, controls: Controls, tween: Tween)
      modifies this, camera, controls
      ensures SceneOf(camera, controls) == TrainSpec.CompleteEnterProjects(old(SceneOf(camera, controls)), tween)
    {
      Arrive(camera, controls, tween);
      inProjects, projectsVisible, isTransitioning := true, true, false;
    }

    method BeginExitProjects(camera: Camera, controls: Controls) returns (tween: Option<Tween>)
      modifies this, controls
      ensures (SceneOf(camera, controls), tween) == TrainSpec.BeginExitProjects(old(SceneOf(camera, controls)))
    {
      if !inProjects || isTransitioning {
        return None;
      }
      isTransitioning, projectsVisible := true, false;
      DisableControls(controls);
      tween := Some(ReturnTween(lastCameraPos));
    }

    method CompleteExitProjects(camera: Camera, controls: Controls, tween: Tween)
      modifies this, camera, controls
      ensures SceneOf(camera, controls) == TrainSpec.CompleteExitProjects(old(SceneOf(camera, controls)), tween)
    {
      Arrive(camera, controls, tween);
      EnableFreeRoamControls(controls);
      inProjects, isTransitioning := false, false;
    }
  }
}
