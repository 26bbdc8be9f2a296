/**
  The first-person camera that follows a character controller (src/camera.rs):
  the camera names the controller it belongs to, the controller names its
  camera, and after every fixed-step loop the camera is moved to the
  character's eye.
*/
module Camera {
  import opened Wrappers
  import opened VecMath
  import ControllerSetup

  /** `CharacterControllerCamera`, held by the controller: the camera entity. */
  datatype ControllerCamera = ControllerCamera(camera: Entity) {
    /** `CharacterControllerCamera::get` */
    function Get(): Entity { camera }
  }

  /** A rotation, carried through untouched. */
  datatype Quat = Quat(x: real, y: real, z: real, w: real)

  datatype Transform = Transform(translation: Vec3, rotation: Quat)

  /**
    An entity with a `Transform` and a `CharacterControllerCameraOf(of)`;
    `isController` says whether it also holds a `CharacterControllerState`,
    which keeps it out of the query.
  */
  datatype CameraEntity = CameraEntity(transform: Transform, of: Entity, isController: bool)

  /** What the system reads of the controller a camera follows. */
  datatype ControllerView = ControllerView(
    translation: Vec3,
    standingViewHeight: real,
    crouchViewHeight: real,
    state: ControllerSetup.ColliderState)

  /** The eye height above the feet: the crouching one while crouching. */
  function ViewHeight(k: ControllerView): real
  {
    if k.state.crouching then k.crouchViewHeight else k.standingViewHeight
  }

  /**
    The eye: the controller's position moved along y by half the standing
    collider's height down (the feet, whichever collider is active) and the
    view height up.
  */
  function Eye(k: ControllerView): Vec3
  {
    var height := ControllerSetup.Height(k.state.standingCollider);
    Add(k.translation, Scale(Up, -height / 2.0 + ViewHeight(k)))
  }

  /**
    The eye lies straight above the controller's origin, the view height
    above its feet, and the crouching collider plays no part.
  */
  lemma EyeFacts(k: ControllerView)
    ensures Eye(k).x == k.translation.x && Eye(k).z == k.translation.z
    ensures Eye(k).y - (k.translation.y - ControllerSetup.Height(k.state.standingCollider) / 2.0)
            == (if k.state.crouching then k.crouchViewHeight else k.standingViewHeight)
    ensures forall c :: Eye(k.(state := k.state.(crouchingCollider := c))) == Eye(k)
  {
  }

  /** One camera after the system: only its translation can change, and only when it follows a controller. */
  function Synced(c: CameraEntity, kccs: map<Entity, ControllerView>): (r: CameraEntity)
    ensures r.transform.rotation == c.transform.rotation && r.of == c.of && r.isController == c.isController
    ensures c.isController || c.of !in kccs ==> r == c
    ensures !c.isController && c.of in kccs ==> r.transform.translation == Eye(kccs[c.of])
  {
    if !c.isController && c.of in kccs then
      c.(transform := c.transform.(translation := Eye(kccs[c.of])))
    else
      c
  }

  /** `sync_camera_transform` */
  method SyncCameraTransform(cameras: array<CameraEntity>, kccs: map<Entity, ControllerView>)
    modifies cameras
    ensures forall i :: 0 <= i < cameras.Length ==> cameras[i] == Synced(old(cameras[i]), kccs)
  {
    var i := 0;
    while i < cameras.Length
      invariant 0 <= i <= cameras.Length
      invariant forall j :: 0 <= j < i ==> cameras[j] == Synced(old(cameras[j]), kccs)
      invariant forall j :: i <= j < cameras.Length ==> cameras[j] == old(cameras[j])
    {
      var camera := cameras[i];
      if !camera.isController && camera.of in kccs {
        var kcc := kccs[camera.of];
        var height := ControllerSetup.Height(kcc.state.standingCollider);
        var viewHeight := if kcc.state.crouching then kcc.crouchViewHeight else kcc.standingViewHeight;
        cameras[i] := camera.(transform := camera.transform.(
          translation := Add(kcc.translation, Scale(Up, -height / 2.0 + viewHeight))));
      }
      i := i + 1;
    }
  }
}
