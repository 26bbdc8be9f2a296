/**
  The collider set-up of a character controller (src/lib.rs): when a
  `CharacterController` is added, the entity excludes itself from its own
  queries, remembers the collider it was spawned with as the standing
  collider, and derives a shorter crouching collider whose lowest point stays
  where the standing collider's is.

  Colliders are described by what these operations measure: the height of
  their axis-aligned bounding box along y, for a collider without rotation.
*/
module ControllerSetup {
  import opened Wrappers
  import opened VecMath

  /**
    A collider's base shape: a y-aligned capsule (`Capsule::new_y`), a
    compound of one child shifted along y, or any other shape, known by the
    height of its bounding box.
  */
  datatype Shape =
    | Capsule(halfHeight: real, radius: real)
    | Compound(offsetY: real, child: Collider)
    | Other(height: real)

  /** A collider: its unscaled base shape (`Collider::shape`) and its scale. */
  datatype Collider = Collider(shape: Shape, scale: Vec3)

  const Unscaled: Vec3 := Vec3(1.0, 1.0, 1.0)

  predicate ShapeWellFormed(s: Shape)
    decreases s
  {
    match s
    case Capsule(h, r) => 0.0 <= h && 0.0 <= r
    case Compound(_, c) => ColliderWellFormed(c)
    case Other(h) => 0.0 <= h
  }

  predicate ColliderWellFormed(c: Collider)
    decreases c
  {
    ShapeWellFormed(c.shape)
  }

  /** Height of the unscaled shape's bounding box; a compound's child is only moved, so it keeps its height. */
  function ShapeHeight(s: Shape): (r: real)
    decreases s
    ensures ShapeWellFormed(s) ==> 0.0 <= r
  {
    match s
    case Capsule(h, rad) => 2.0 * h + 2.0 * rad
    case Compound(_, c) => Height(c)
    case Other(h) => h
  }

  /** `aabb(..).max.y - aabb(..).min.y`: the scaled shape's height. */
  function Height(c: Collider): (r: real)
    decreases c
    ensures ColliderWellFormed(c) ==> 0.0 <= r
  {
    Mul(ShapeHeight(c.shape), Abs(c.scale.y))
  }

  /** The half-height the source gives the crouching capsule: `(crouch_height - radius).max(0.0) / 2.0`. */
  function CapsuleCrouchHalfHeightAsWritten(crouchHeight: real, radius: real): real
  {
    Max(crouchHeight - radius, 0.0) / 2.0
  }

  /**
    The crouching capsule as written is taller than the crouch height by one
    radius: its two caps add `2 radius` to a segment of `crouch_height - radius`.
  */
  lemma CapsuleCrouchAsWrittenTooTall(crouchHeight: real, radius: real)
    requires 0.0 < radius <= crouchHeight
    ensures ShapeHeight(Capsule(CapsuleCrouchHalfHeightAsWritten(crouchHeight, radius), radius))
            == crouchHeight + radius
    ensures ShapeHeight(Capsule(CapsuleCrouchHalfHeightAsWritten(crouchHeight, radius), radius))
            > crouchHeight
  {
  }

  /** The default crouch height 1.3 with a capsule of radius 0.4 gives a crouching capsule 1.7 high. */
  lemma CapsuleCrouchAsWrittenExample()
    ensures ShapeHeight(Capsule(CapsuleCrouchHalfHeightAsWritten(1.3, 0.4), 0.4)) == 1.7
  {
    CapsuleCrouchAsWrittenTooTall(1.3, 0.4);
  }

  /** The half-height that makes the crouching capsule `crouch_height` high: the caps take `2 radius`. */
  function CapsuleCrouchHalfHeight(crouchHeight: real, radius: real): (r: real)
    ensures 0.0 <= r
  {
    Max(crouchHeight - 2.0 * radius, 0.0) / 2.0
  }

  /** The corrected crouching capsule is exactly `crouch_height` high whenever it can be, and never shorter than its two caps. */
  lemma CapsuleCrouchFits(crouchHeight: real, radius: real)
    requires 0.0 <= radius
    ensures var h := ShapeHeight(Capsule(CapsuleCrouchHalfHeight(crouchHeight, radius), radius));
            (2.0 * radius <= crouchHeight ==> h == crouchHeight)
            && (crouchHeight < 2.0 * radius ==> h == 2.0 * radius)
  {
  }

  /**
    The child of the crouching compound: a capsule keeps its radius and gets
    the crouching half-height; any other base shape is scaled by
    `(1, crouch_height / standing_height, 1)`.
  */
  function CrouchedChild(base: Shape, crouchHeight: real, standingHeight: real): Collider
  {
    if base.Capsule? then
      Collider(Capsule(CapsuleCrouchHalfHeight(crouchHeight, base.radius), base.radius), Unscaled)
    else
      var frac := if standingHeight == 0.0 then 1.0 else Div(crouchHeight, standingHeight);
      Collider(base, Vec3(1.0, frac, 1.0))
  }

  /** `state.crouching_collider`: the crouched child, moved by `(crouch_height - standing_height) / 2` along y. */
  function CrouchingCollider(standing: Collider, crouchHeight: real): Collider
  {
    var standingHeight := Height(standing);
    Collider(Compound((crouchHeight - standingHeight) / 2.0,
                      CrouchedChild(standing.shape, crouchHeight, standingHeight)),
             Unscaled)
  }

  /**
    For an unscaled standing collider the crouching collider is
    `crouch_height` high (a capsule: when its caps fit), and its lowest
    point stays at the standing collider's lowest point.
  */
  lemma CrouchingColliderFits(standing: Collider, crouchHeight: real)
    requires ColliderWellFormed(standing) && Abs(standing.scale.y) == 1.0
    requires 0.0 < Height(standing) && 0.0 <= crouchHeight
    requires standing.shape.Capsule? ==> 2.0 * standing.shape.radius <= crouchHeight
    ensures Height(CrouchingCollider(standing, crouchHeight)) == crouchHeight
    ensures CrouchingCollider(standing, crouchHeight).shape.offsetY - crouchHeight / 2.0
            == -Height(standing) / 2.0
  {
    var sh := Height(standing);
    var child := CrouchedChild(standing.shape, crouchHeight, sh);
    assert sh == ShapeHeight(standing.shape);
    if standing.shape.Capsule? {
      CapsuleCrouchFits(crouchHeight, standing.shape.radius);
    } else {
      var frac := crouchHeight / sh;
      assert child.scale.y == frac;
      assert Height(child) == sh * frac;
    }
  }

  /** The collider-related part of `CharacterControllerState`. */
  datatype ColliderState = ColliderState(standingCollider: Collider, crouchingCollider: Collider, crouching: bool)

  /** `CharacterControllerState::collider` */
  function ActiveCollider(s: ColliderState): Collider
  {
    if s.crouching then s.crouchingCollider else s.standingCollider
  }

  /**
    Once set up, the active collider is `crouch_height` high exactly while
    crouching and otherwise as high as the collider spawned with.
  */
  lemma ActiveColliderHeight(s: ColliderState, crouchHeight: real)
    requires s.crouchingCollider == CrouchingCollider(s.standingCollider, crouchHeight)
    requires ColliderWellFormed(s.standingCollider) && Abs(s.standingCollider.scale.y) == 1.0
    requires 0.0 < Height(s.standingCollider) && 0.0 <= crouchHeight
    requires s.standingCollider.shape.Capsule? ==> 2.0 * s.standingCollider.shape.radius <= crouchHeight
    ensures Height(ActiveCollider(s)) == if s.crouching then crouchHeight else Height(s.standingCollider)
  {
    if s.crouching {
      CrouchingColliderFits(s.standingCollider, crouchHeight);
    }
  }

  /**
    The tunables `CharacterController` declares in src/lib.rs, durations in
    seconds; the query filter is left out.
  */
  datatype Tunables = Tunables(
    crouchHeight: real,
    standingViewHeight: real,
    crouchViewHeight: real,
    groundDistance: real,
    minWalkCos: real,
    stopSpeed: real,
    frictionHz: real,
    accelerationHz: real,
    airAccelerationHz: real,
    gravity: real,
    stepSize: real,
    crouchSpeedScale: real,
    speed: real,
    airSpeed: real,
    skinWidth: real,
    maxSpeed: real,
    jumpHeight: real,
    maxAirSpeed: real,
    ungroundSpeed: real,
    coyoteTime: real,
    jumpInputBuffer: real,
    stepFromAir: bool,
    stepIntoAir: bool)

  /** The collider a controller is spawned with unless it brings one: `Collider::cylinder(0.7, 1.8)`. */
  const DefaultCollider: Collider := Collider(Other(1.8), Unscaled)

  /**
    `CharacterController::default`. The defaults nest: the crouching eye is
    inside the crouching collider, which is shorter than the standing eye
    height, which is inside the default standing collider; speeds, rates and
    the walkable slope are in range.
  */
  function DefaultTunables(): (t: Tunables)
    ensures 0.0 < t.crouchViewHeight < t.crouchHeight < t.standingViewHeight < Height(DefaultCollider)
    ensures 0.0 < t.minWalkCos < 1.0 && 0.0 < t.crouchSpeedScale < 1.0
    ensures 0.0 < t.speed <= t.maxSpeed && 0.0 < t.maxAirSpeed < t.speed
    ensures 0.0 < t.frictionHz && 0.0 < t.accelerationHz && 0.0 < t.airAccelerationHz && 0.0 < t.gravity
    ensures 0.0 < t.groundDistance < t.stepSize && 0.0 < t.skinWidth < t.groundDistance
    ensures 0.0 < t.coyoteTime && 0.0 < t.jumpInputBuffer && !t.stepFromAir && !t.stepIntoAir
  {
    Tunables(
      crouchHeight := 1.3,
      standingViewHeight := 1.7,
      crouchViewHeight := 1.2,
      groundDistance := 0.05,
      minWalkCos := 0.766,
      stopSpeed := 2.54,
      frictionHz := 4.0,
      accelerationHz := 5.0,
      airAccelerationHz := 12.0,
      gravity := 20.3,
      stepSize := 1.0,
      crouchSpeedScale := 1.0 / 3.0,
      speed := 10.0,
      airSpeed := 1.5,
      skinWidth := 0.0075,
      maxSpeed := 100.0,
      jumpHeight := 1.5,
      maxAirSpeed := 0.76,
      ungroundSpeed := 10.0,
      coyoteTime := 0.150,
      jumpInputBuffer := 0.150,
      stepFromAir := false,
      stepIntoAir := false)
  }

  /**
    With the defaults, the crouching collider derived from the default
    cylinder is exactly the crouch height high, keeps the cylinder's lowest
    point, and holds the crouching eye.
  */
  lemma DefaultCrouchFits()
    ensures var t := DefaultTunables();
            var c := CrouchingCollider(DefaultCollider, t.crouchHeight);
            Height(c) == t.crouchHeight
            && c.shape.offsetY - t.crouchHeight / 2.0 == -Height(DefaultCollider) / 2.0
            && t.crouchViewHeight < Height(c)
  {
    CrouchingColliderFits(DefaultCollider, DefaultTunables().crouchHeight);
  }

  /** The part of the `CharacterController` component the set-up touches. */
  datatype ControllerComponent = ControllerComponent(crouchHeight: real, excluded: set<Entity>)

  /** The components of the entity a `CharacterController` has just been added to. */
  class ControllerEntity {
    const entity: Entity
    var controller: Option<ControllerComponent>
    const collider: Option<Collider>
    var state: Option<ColliderState>

    constructor(entity: Entity, controller: Option<ControllerComponent>, collider: Option<Collider>,
                state: Option<ColliderState>)
      ensures this.entity == entity && this.controller == controller
      ensures this.collider == collider && this.state == state
    {
      this.entity := entity;
      this.controller := controller;
      this.collider := collider;
      this.state := state;
    }

    /**
      `CharacterController::on_add`. A missing component ends the hook where
      the source looks it up: without the controller nothing changes; without
      a collider or a state only the self-exclusion happens.
    */
    method OnAdd()
      modifies this
      ensures old(controller).None? ==> controller == old(controller) && state == old(state)
      ensures old(controller).Some? ==>
                controller == Some(old(controller).value.(excluded := old(controller).value.excluded + {entity}))
      ensures old(controller).Some? && collider.Some? && old(state).Some? ==>
                state == Some(old(state).value.(
                  standingCollider := collider.value,
                  crouchingCollider := CrouchingCollider(collider.value, old(controller).value.crouchHeight)))
      ensures collider.None? || old(state).None? ==> state == old(state)
    {
      if controller.None? {
        return;
      }
      controller := Some(controller.value.(excluded := controller.value.excluded + {entity}));
      var crouchHeight := controller.value.crouchHeight;
      if collider.None? {
        return;
      }
      var standing := collider.value;
      var standingHeight := Height(standing);
      if state.None? {
        return;
      }
      state := Some(state.value.(standingCollider := standing));
      var child := CrouchedChild(standing.shape, crouchHeight, standingHeight);
      state := Some(state.value.(crouchingCollider :=
        Collider(Compound((crouchHeight - standingHeight) / 2.0, child), Unscaled)));
    }
  }
}
