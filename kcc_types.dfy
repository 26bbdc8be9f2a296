/**
  The records that the per-tick controller in src/kcc.rs reads and writes,
  declared from the fields that file itself uses, and the collision service
  it consumes, given as oracle functions.
*/
module KccTypes {
  import opened Wrappers
  import opened VecMath

  /**
    How deep the character is in water. src/kcc.rs compares against `Feet`,
    a level that the water module of the same snapshot does not declare; only
    "at most Feet" versus "above Feet" matters to the controller.
  */
  datatype WaterLevel = Dry | Feet | Waist | Head {
    function Rank(): nat
    {
      match this
      case Dry => 0
      case Feet => 1
      case Waist => 2
      case Head => 3
    }

    /** `level > WaterLevel::Feet` */
    predicate AboveFeet() { Rank() > Feet.Rank() }
  }

  /** A hit reported by a shape cast (`MoveHitData`). */
  datatype Hit = Hit(distance: real, normal: Vec3, point: Vec3, entity: Entity, intersects: bool)

  /** One contact collected during move-and-slide (`TouchingEntity`). */
  datatype Touch = Touch(entity: Entity, distance: real, point: Vec3, normal: Vec3,
                         characterPosition: Vec3, characterVelocity: Vec3)

  /** The collider a query runs with: the active body collider or the hand probe. */
  datatype Shape = Standing | Crouching | Hands

  /** `CharacterControllerDerivedProps::collider(state)` */
  function ActiveShape(crouching: bool): Shape
  {
    if crouching then Crouching else Standing
  }

  /** Result of move-and-slide: final position, projected velocity, and every hit reported to the callback. */
  datatype SlideOut = SlideOut(position: Vec3, projectedVelocity: Vec3, hits: seq<Touch>)

  /** One contact reported by the `intersections` query. */
  datatype Contact = Contact(point: Vec3, penetration: real, normal: Vec3)

  /** What `calculate_platform_movement` writes: the platform's linear and angular velocity. */
  datatype PlatformMotion = PlatformMotion(velocity: Vec3, angularVelocity: Vec3)

  /** What the collider query of the controller knows about a collider entity. */
  datatype ColliderInfo = ColliderInfo(friction: Option<real>, body: Entity)

  /**
    The collision service and the maths the controller cannot compute itself.
    - sqrt: the square root;
    - cast: `cast_move(shape, position, movement)`;
    - depenetrate: the offset that pushes a shape at a position out of overlaps;
    - slide: `move_and_slide(shape, position, velocity, dt, extra plane)`;
    - intersections: contacts within a distance, in reporting order;
    - overlaps: entities intersecting a shape, in reporting order;
    - isWater: membership of the water query;
    - collider: the collider query (`colliders.get`), None when it fails;
    - bodyFriction: friction of a rigid body, None when it has none;
    - platformMotion: `calculate_platform_movement` of a collider for a ground
      point, the character's translation and the tick length;
    - defaultFriction: the `DefaultFriction` resource; fallbackFriction: `Friction::default()`.
  */
  datatype World = World(
    sqrt: real -> real,
    cast: (Shape, Vec3, Vec3) -> Option<Hit>,
    depenetrate: (Shape, Vec3) -> Vec3,
    slide: (Shape, Vec3, Vec3, real, Option<Vec3>) -> SlideOut,
    intersections: (Shape, Vec3, real) -> seq<Contact>,
    overlaps: (Shape, Vec3) -> seq<Entity>,
    isWater: Entity -> bool,
    collider: Entity -> Option<ColliderInfo>,
    bodyFriction: Entity -> Option<real>,
    platformMotion: (ColliderInfo, Vec3, Vec3, real) -> PlatformMotion,
    defaultFriction: real,
    fallbackFriction: real)
  {
    /** The assumptions the model makes about the service. */
    ghost predicate Valid()
    {
      IsSqrt(sqrt) && CastsValid() && FrictionsValid()
    }

    /** Every hit a cast reports lies within the cast and carries a unit normal. */
    ghost predicate CastsValid()
    {
      forall s, p, m :: cast(s, p, m).Some? ==> HitWithin(cast(s, p, m).value, m)
    }

    /** Every friction coefficient the service reports is non-negative. */
    ghost predicate FrictionsValid()
    {
      && (forall e :: collider(e).Some? && collider(e).value.friction.Some? ==>
                        0.0 <= collider(e).value.friction.value)
      && (forall b :: bodyFriction(b).Some? ==> 0.0 <= bodyFriction(b).value)
      && 0.0 <= defaultFriction
      && 0.0 <= fallbackFriction
    }

    /** `translation + depenetrate(...)` */
    function Depenetrated(shape: Shape, p: Vec3): Vec3
    {
      Add(p, depenetrate(shape, p))
    }

    /** Move-and-slide with the ground normal added as an extra plane when grounded. */
    function Slide(shape: Shape, grounded: Option<Hit>, p: Vec3, v: Vec3, dt: real): SlideOut
    {
      slide(shape, p, v, dt, if grounded.Some? then Some(grounded.value.normal) else None)
    }
  }

  /** A cast never reports a hit further than it was asked to go, and its normal is a unit vector. */
  ghost predicate HitWithin(h: Hit, movement: Vec3)
  {
    0.0 <= h.distance && h.distance * h.distance <= LengthSq(movement) && LengthSq(h.normal) == 1.0
  }

  /**
    The tunables of `CharacterController` read by src/kcc.rs; durations in
    seconds. `ledgeGrabHalfSize` is the half extent of `min_ledge_grab_space`.
  */
  datatype Config = Config(
    speed: real,
    crouchSpeedScale: real,
    accelerationHz: real,
    airAccelerationHz: real,
    waterAccelerationHz: real,
    maxAirWishSpeed: real,
    maxSpeed: real,
    gravity: real,
    jumpHeight: real,
    frictionHz: real,
    stopSpeed: real,
    waterGravity: real,
    waterSlowdown: real,
    stepSize: real,
    minStepLedgeSpace: real,
    minWalkCos: real,
    groundDistance: real,
    stepDownDetectionDistance: real,
    ungroundSpeed: real,
    skinWidth: real,
    coyoteTime: real,
    jumpInputBuffer: real,
    tacInputBuffer: real,
    tacCooldown: real,
    maxTacCos: real,
    tacJumpFactor: real,
    tacPower: real,
    ledgeJumpFactor: real,
    ledgeJumpPower: real,
    craneInputBuffer: real,
    jumpCraneChainTime: real,
    minCraneLedgeSpace: real,
    minCraneCos: real,
    craneHeight: real,
    craneSpeed: real,
    mantleInputBuffer: real,
    maxLedgeGrabDistance: real,
    minMantleCos: real,
    mantleHeight: real,
    mantleSpeed: real,
    ledgeGrabHalfSize: Vec3,
    climbPullUpHeight: real,
    climbReverseSin: real,
    climbSensitivity: real)
  {
    /** `min_ledge_grab_space.size().y` */
    function LedgeGrabHeight(): real { 2.0 * ledgeGrabHalfSize.y }
  }

  /** What glam itself demands: `clamp_length` and `clamp_length_max` take a non-negative bound. */
  predicate WellFormed(cfg: Config)
  {
    0.0 <= cfg.maxSpeed && 0.0 <= cfg.speed
  }

  /** The look orientation, given by the vectors `forward(q)` and `right(q)` of its quaternion. */
  datatype Orientation = Orientation(forward: Vec3, right: Vec3)

  datatype MantleState = MantleState(heightLeft: real)

  datatype MantleOutput = MantleOutput(wallNormal: Vec3, ledgePosition: Vec3, wallEntity: Entity)

  /**
    `CharacterControllerState` as src/kcc.rs uses it. The four timers hold
    the elapsed seconds of their stopwatches.
  */
  datatype State = State(
    orientation: Orientation,
    platformVelocity: Vec3,
    platformAngularVelocity: Vec3,
    grounded: Option<Hit>,
    crouching: bool,
    tacVelocity: real,
    lastGround: real,
    lastTac: real,
    lastStepUp: real,
    lastStepDown: real,
    craneHeightLeft: Option<real>,
    mantle: Option<MantleState>)

  /**
    `AccumulatedInput` as src/kcc.rs uses it: each buffered trigger holds the
    elapsed seconds of its stopwatch, None once consumed.
  */
  datatype Input = Input(
    lastMovement: Option<Vec2>,
    jumped: Option<real>,
    tac: Option<real>,
    craned: Option<real>,
    mantled: Option<real>,
    climbdown: Option<real>,
    crouched: bool,
    swimUp: bool)

  /** `CharacterControllerOutput` */
  datatype Output = Output(touching: seq<Touch>, mantle: Option<MantleOutput>)

  /** The part of `CharacterControllerDerivedProps` src/kcc.rs measures. */
  datatype Derived = Derived(standingRadius: real, crouchingRadius: real,
                             standingHeadDist: real, crouchingHeadDist: real)
  {
    function Radius(crouching: bool): real { if crouching then crouchingRadius else standingRadius }

    function PosToHeadDist(crouching: bool): real { if crouching then crouchingHeadDist else standingHeadDist }
  }

  /** Everything a tick may change, in one value. */
  datatype Ctx = Ctx(velocity: Vec3, translation: Vec3, state: State, input: Input, output: Output)
}
