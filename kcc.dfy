/**
  The character controller of src/kcc.rs as an object whose fields the
  steps update in place: `LinearVelocity`, the translation of `Transform`,
  `CharacterControllerState`, `AccumulatedInput` and
  `CharacterControllerOutput`. The tunables, the derived body measures and
  the water level are read-only during a tick. Every method is proved to
  leave the fields exactly as the matching function of KccSteps says.
*/
module Kcc {
  import opened Wrappers
  import opened VecMath
  import opened KccTypes
  import opened KccMath
  import opened KccProbes
  import opened KccSteps

  class Controller {
    const cfg: Config
    const derived: Derived
    const water: WaterLevel
    var velocity: Vec3
    var translation: Vec3
    var state: State
    var input: Input
    var output: Output

    constructor (cfg: Config, derived: Derived, water: WaterLevel, c: Ctx)
      ensures this.cfg == cfg && this.derived == derived && this.water == water
      ensures Snapshot() == c
    {
      this.cfg := cfg;
      this.derived := derived;
      this.water := water;
      velocity := c.velocity;
      translation := c.translation;
      state := c.state;
      input := c.input;
      output := c.output;
    }

    /** Everything a tick may change, as one value. */
    function Snapshot(): Ctx
      reads this
    {
      Ctx(velocity, translation, state, input, output)
    }

    /** What the tick reads but never writes. */
    function EnvOf(w: World, dt: real): Env
    {
      Env(w, cfg, derived, water, dt)
    }

    /** `cast_move` from the current translation with the current collider. */
    function Cast(w: World, dt: real, movement: Vec3): Option<Hit>
      reads this
    {
      CastMove(EnvOf(w, dt), Snapshot(), movement)
    }

    /** `cast_move_hands` from the current translation. */
    function CastHands(w: World, dt: real, movement: Vec3): Option<Hit>
      reads this
    {
      CastMoveHands(EnvOf(w, dt), Snapshot(), movement)
    }

    method DepenetrateCharacter(w: World, dt: real)
      modifies this
      ensures Snapshot() == KccSteps.DepenetrateCharacter(EnvOf(w, dt), old(Snapshot()))
    {
      translation := Add(translation, w.depenetrate(ActiveShape(state.crouching), translation));
    }

    method MoveCharacter(w: World, dt: real)
      modifies this
      ensures Snapshot() == KccSteps.MoveCharacter(EnvOf(w, dt), old(Snapshot()))
    {
      var out := w.Slide(ActiveShape(state.crouching), state.grounded, translation, velocity, dt);
      output := output.(touching := output.touching + out.hits);
      var lost := Length(w.sqrt, Sub(velocity, out.projectedVelocity));
      state := state.(tacVelocity := state.tacVelocity * 0.99 + lost);
      translation := out.position;
      velocity := out.projectedVelocity;
    }

    /**
      `ground_accelerate` and `water_accelerate` (`airCap == None`) and
      `air_accelerate` (`airCap == Some(max_air_wish_speed)`).
    */
    method Accelerate(w: World, dt: real, wish: Vec3, airCap: Option<real>, accelHz: real)
      modifies this
      ensures Snapshot() == old(Snapshot()).(velocity := Accelerated(w.sqrt, old(velocity), wish, airCap, accelHz, dt))
    {
      if wish == Zero {
        return;
      }
      var wishDir := NormalizeOrZero(w.sqrt, wish);
      var wishSpeed := Length(w.sqrt, wish);
      var target := if airCap.Some? then Min(wishSpeed, airCap.value) else wishSpeed;
      var addSpeed := target - Dot(velocity, wishDir);
      if addSpeed <= 0.0 {
        return;
      }
      var accelSpeed := Min(Mul(Mul(wishSpeed, accelHz), dt), addSpeed);
      velocity := Add(velocity, Scale(wishDir, accelSpeed));
    }

    method Friction(w: World, dt: real)
      modifies this
      ensures Snapshot() == KccSteps.Friction(EnvOf(w, dt), old(Snapshot()))
    {
      var speed: real;
      if state.grounded.Some? {
        speed := Length(w.sqrt, Flat(velocity));
      } else if water.AboveFeet() {
        speed := Length(w.sqrt, velocity);
      } else {
        return;
      }
      if speed < 0.001 {
        return;
      }
      var surfaceFriction := SurfaceFriction(w, state.grounded);
      var friction := Mul(cfg.frictionHz, surfaceFriction);
      var control := Max(speed, cfg.stopSpeed);
      var drop := Mul(Mul(control, friction), dt);
      var newSpeed := Max(speed - drop, 0.0);
      if newSpeed != speed {
        velocity := Scale(velocity, Div(newSpeed, speed));
      }
    }

    method ValidateVelocity(w: World, dt: real)
      modifies this
      ensures Snapshot() == KccSteps.ValidateVelocity(EnvOf(w, dt), old(Snapshot()))
    {
      velocity := ClampLengthMax(w.sqrt, velocity, cfg.maxSpeed);
    }

    method StartGravity(w: World, dt: real)
      modifies this
      ensures Snapshot() == KccSteps.StartGravity(EnvOf(w, dt), old(Snapshot()))
    {
      velocity := velocity.(y := velocity.y + Mul(state.platformVelocity.y - cfg.gravity * 0.5, dt));
      state := state.(platformVelocity := state.platformVelocity.(y := 0.0));
      ValidateVelocity(w, dt);
    }

    method FinishGravity(w: World, dt: real)
      modifies this
      ensures Snapshot() == KccSteps.FinishGravity(EnvOf(w, dt), old(Snapshot()))
    {
      velocity := velocity.(y := velocity.y - Mul(cfg.gravity * 0.5, dt));
      ValidateVelocity(w, dt);
    }

    method StepMove(w: World, dt: real)
      modifies this
      ensures Snapshot() == KccSteps.StepMove(EnvOf(w, dt), old(Snapshot()))
    {
      ghost var e, c := EnvOf(w, dt), Snapshot();
      var originalPosition, originalVelocity, originalTouching := translation, velocity, output.touching;
      // Slide the direct path
      MoveCharacter(w, dt);
      ghost var direct := Snapshot();
      var downTouching, downPosition, downVelocity := output.touching, translation, velocity;
      translation, velocity := originalPosition, originalVelocity;
      output := output.(touching := originalTouching);
      // Step up
      var hit := Cast(w, dt, Scale(Up, cfg.stepSize));
      translation := Add(translation, Scale(Up, DistanceOr(hit, cfg.stepSize)));
      assert Snapshot() == Raised(e, c, direct);
      // Room to stand?
      if Cast(w, dt, Scale(NormalizeOrZero(w.sqrt, velocity), cfg.minStepLedgeSpace)).Some? {
        translation, velocity := downPosition, downVelocity;
        output := output.(touching := downTouching);
        return;
      }
      StepUp(w, dt, originalPosition, downPosition, downVelocity, downTouching);
    }

    /** The rest of `step_move`, from the raised position, against the direct slide's outcome. */
    method StepUp(w: World, dt: real, origin: Vec3, downPosition: Vec3, downVelocity: Vec3, downTouching: seq<Touch>)
      modifies this
      ensures Snapshot() == KccSteps.StepUp(EnvOf(w, dt), origin, downPosition, downVelocity, downTouching, old(Snapshot()))
    {
      // Slide from up the step, then drop back down
      MoveCharacter(w, dt);
      var land := Cast(w, dt, Scale(Down, cfg.stepSize));
      if land.None? || land.value.normal.y < cfg.minWalkCos {
        translation, velocity := downPosition, downVelocity;
        output := output.(touching := downTouching);
        return;
      }
      translation := Add(translation, Scale(Down, land.value.distance));
      DepenetrateCharacter(w, dt);
      // Use the one that went further
      if XzDistanceSq(downPosition, origin) >= XzDistanceSq(translation, origin) {
        translation, velocity := downPosition, downVelocity;
        output := output.(touching := downTouching);
      } else {
        velocity := velocity.(y := downVelocity.y);
        state := state.(lastStepUp := 0.0);
      }
    }

    method SnapToGround(w: World, dt: real)
      modifies this
      ensures Snapshot() == KccSteps.SnapToGround(EnvOf(w, dt), old(Snapshot()))
    {
      var up := Cast(w, dt, Scale(Up, cfg.groundDistance));
      var upDist := DistanceOr(up, cfg.groundDistance);
      var start := Add(translation, Scale(Up, upDist));
      var originalPosition := translation;
      translation := start;
      var hit := Cast(w, dt, Scale(Down, upDist + cfg.stepSize));
      translation := originalPosition;
      if hit.None? || hit.value.intersects || hit.value.normal.y < cfg.minWalkCos
         || hit.value.distance <= cfg.groundDistance {
        return;
      }
      translation := Add(start, Scale(Down, hit.value.distance));
      if originalPosition.y - translation.y > cfg.stepDownDetectionDistance {
        state := state.(lastStepDown := 0.0);
      }
      DepenetrateCharacter(w, dt);
    }

    /** `calculate_platform_movement` for a collider touched at `point`; its internals are the oracle's. */
    method CalculatePlatformMovement(w: World, dt: real, point: Vec3, platform: ColliderInfo)
      modifies this
      ensures Snapshot() == old(Snapshot()).(state := old(state).(
                platformVelocity := w.platformMotion(platform, point, old(translation), dt).velocity,
                platformAngularVelocity := w.platformMotion(platform, point, old(translation), dt).angularVelocity))
    {
      var motion := w.platformMotion(platform, point, translation, dt);
      state := state.(platformVelocity := motion.velocity, platformAngularVelocity := motion.angularVelocity);
    }

    method SetGrounded(w: World, dt: real, newGround: Option<Hit>)
      modifies this
      ensures Snapshot() == KccSteps.SetGrounded(EnvOf(w, dt), old(Snapshot()), newGround)
    {
      var oldGround := state.grounded;
      if newGround.None? && oldGround.Some? && w.collider(oldGround.value.entity).Some? {
        CalculatePlatformMovement(w, dt, oldGround.value.point, w.collider(oldGround.value.entity).value);
      } else if newGround.Some? && w.collider(newGround.value.entity).Some? {
        CalculatePlatformMovement(w, dt, newGround.value.point, w.collider(newGround.value.entity).value);
      }
      state := state.(grounded := newGround);
      if state.grounded.Some? {
        state := state.(mantle := None);
      }
      if state.grounded.Some? {
        velocity := velocity.(y := 0.0);
      }
    }

    /** `update_grounded`; ladders are not modelled (the source's `is_on_ladder` is always false). */
    method UpdateGrounded(w: World, dt: real)
      modifies this
      ensures Snapshot() == KccSteps.UpdateGrounded(EnvOf(w, dt), old(Snapshot()))
    {
      if water.AboveFeet() {
        SetGrounded(w, dt, None);
        return;
      }
      var yVel := velocity.y;
      var movingUpRapidly := yVel > cfg.ungroundSpeed;
      if movingUpRapidly && state.grounded.Some? {
        movingUpRapidly := yVel - state.platformVelocity.y > cfg.ungroundSpeed;
      }
      if movingUpRapidly {
        SetGrounded(w, dt, None);
      } else {
        var castDist := if state.platformVelocity.y < 0.0 then cfg.groundDistance - Mul(state.platformVelocity.y, dt)
                        else cfg.groundDistance;
        var hit := Cast(w, dt, Scale(Down, castDist));
        if hit.Some? && hit.value.normal.y >= cfg.minWalkCos {
          SetGrounded(w, dt, hit);
        } else {
          SetGrounded(w, dt, None);
        }
      }
    }

    method GroundMove(w: World, dt: real, wish: Vec3)
      modifies this
      ensures Snapshot() == KccSteps.GroundMove(EnvOf(w, dt), old(Snapshot()), wish)
    {
      velocity := velocity.(y := 0.0);
      Accelerate(w, dt, wish, None, cfg.accelerationHz);
      velocity := velocity.(y := 0.0);
      velocity := Add(velocity, state.platformVelocity);
      var speed := Length(w.sqrt, velocity);
      if speed < 0.01 {
        // Zero the velocity and remove the base
        velocity := Neg(state.platformVelocity);
        return;
      }
      var movement := Scale(velocity, dt).(y := 0.0);
      var hit := Cast(w, dt, movement);
      if hit.None? {
        translation := Add(translation, movement);
        velocity := Sub(velocity, state.platformVelocity);
        DepenetrateCharacter(w, dt);
        SnapToGround(w, dt);
        return;
      }
      StepMove(w, dt);
      velocity := Sub(velocity, state.platformVelocity);
      SnapToGround(w, dt);
    }

    method AirMove(w: World, dt: real, wish: Vec3)
      modifies this
      ensures Snapshot() == KccSteps.AirMove(EnvOf(w, dt), old(Snapshot()), wish)
    {
      Accelerate(w, dt, wish, Some(cfg.maxAirWishSpeed), cfg.airAccelerationHz);
      velocity := Add(velocity, state.platformVelocity);
      StepMove(w, dt);
      velocity := Sub(velocity, state.platformVelocity);
    }

    method WaterMove(w: World, dt: real, wish: Vec3)
      modifies this
      ensures Snapshot() == KccSteps.WaterMove(EnvOf(w, dt), old(Snapshot()), wish)
    {
      var target := wish;
      if input.swimUp {
        input := input.(swimUp := false);
        target := Add(target, Scale(Up, cfg.speed));
      }
      // Swimming up and forward is no faster than either alone
      target := ClampLengthMax(w.sqrt, target, cfg.speed);
      if target == Zero {
        target := Sub(target, Scale(Up, cfg.waterGravity));
      }
      target := Scale(target, cfg.waterSlowdown);
      Accelerate(w, dt, target, None, cfg.waterAccelerationHz);
      velocity := Add(velocity, state.platformVelocity);
      StepMove(w, dt);
      velocity := Sub(velocity, state.platformVelocity);
    }

    /** `is_intersecting`: stops at the first overlapping entity that is not water. */
    method IsIntersecting(w: World) returns (intersecting: bool)
      ensures intersecting <==> AnySolid(w, w.overlaps(ActiveShape(state.crouching), translation))
    {
      var overlaps := w.overlaps(ActiveShape(state.crouching), translation);
      intersecting := false;
      var i := 0;
      while i < |overlaps|
        invariant 0 <= i <= |overlaps|
        invariant forall j :: 0 <= j < i ==> w.isWater(overlaps[j])
      {
        if !w.isWater(overlaps[i]) {
          intersecting := true;
          return;
        }
        i := i + 1;
      }
    }

    method HandleCrouching(w: World, dt: real)
      modifies this
      ensures Snapshot() == KccSteps.HandleCrouching(EnvOf(w, dt), old(Snapshot()))
    {
      if input.crouched {
        state := state.(crouching := true);
      } else if state.crouching {
        // Try to stand up
        state := state.(crouching := false);
        var intersecting := IsIntersecting(w);
        state := state.(crouching := intersecting);
      }
    }

    /** `available_ledge_height`: probes by moving the character, and puts it back. */
    method AvailableLedgeHeight(w: World, dt: real, wish: Vec3, minDepth: real, minCos: real, maxHeight: real)
      returns (height: Option<real>)
      modifies this
      ensures Snapshot() == old(Snapshot())
      ensures height == LedgeHeight(w, cfg, ActiveShape(state.crouching), translation, velocity, wish,
                                    minDepth, minCos, maxHeight)
    {
      var originalVelocity := velocity;
      var wishDir: Vec3;
      if wish != Zero {
        wishDir := NormalizeOrZero(w.sqrt, wish);
      } else if Flat(velocity) != Zero {
        wishDir := NormalizeOrZero(w.sqrt, Flat(velocity));
      } else {
        return None;
      }
      velocity := velocity.(y := 0.0);
      Accelerate(w, dt, wish, None, cfg.accelerationHz);
      velocity := velocity.(y := 0.0);
      velocity := Add(velocity, state.platformVelocity);
      // Check the wall
      var wallHit := Cast(w, dt, Scale(wishDir, minDepth));
      if wallHit.None? {
        velocity := originalVelocity;
        return None;
      }
      var wallNormal := NormalizeOrZero(w.sqrt, Flat(wallHit.value.normal));
      if Dot(Neg(wallNormal), wishDir) < minCos {
        velocity := originalVelocity;
        return None;
      }
      height := LedgeOverWall(w, dt, wallNormal, minDepth, maxHeight);
      velocity := originalVelocity;
    }

    /** The second half of `available_ledge_height`, facing a wall with normal `wallNormal`. */
    method LedgeOverWall(w: World, dt: real, wallNormal: Vec3, minDepth: real, maxHeight: real)
      returns (height: Option<real>)
      modifies this
      ensures Snapshot() == old(Snapshot())
      ensures height == LedgeOver(w, cfg, ActiveShape(state.crouching), translation, wallNormal, minDepth, maxHeight)
    {
      var originalPosition := translation;
      // Step up, move onto the ledge, move down
      var upDist := DistanceOr(Cast(w, dt, Scale(Up, maxHeight)), maxHeight);
      translation := Add(translation, Scale(Up, upDist));
      translation := Add(translation, Scale(Neg(wallNormal), minDepth));
      var down := Cast(w, dt, Scale(Down, upDist));
      if down.None? {
        translation := originalPosition;
        return None;
      }
      var ledgeHeight := upDist - down.value.distance;
      translation := originalPosition;
      translation := translation.(y := translation.y + ledgeHeight);
      // Enough space to land?
      if Cast(w, dt, Scale(Neg(wallNormal), minDepth)).Some? {
        translation := originalPosition;
        return None;
      }
      translation := Add(translation, Scale(Neg(wallNormal), minDepth));
      var hit := Cast(w, dt, Scale(Down, ledgeHeight));
      translation := originalPosition;
      if hit.None? || hit.value.normal.y < cfg.minWalkCos {
        return None;
      }
      return Some(ledgeHeight);
    }

    method UpdateCraneState(w: World, dt: real, wish: Vec3)
      modifies this
      ensures Snapshot() == KccSteps.UpdateCraneState(EnvOf(w, dt), old(Snapshot()), wish)
    {
      if input.craned.None? || input.craned.value > cfg.craneInputBuffer {
        return;
      }
      // available_crane_height
      var craneHeight := AvailableLedgeHeight(w, dt, wish, cfg.minCraneLedgeSpace, cfg.minCraneCos, cfg.craneHeight);
      if craneHeight.None? {
        state := state.(craneHeightLeft := None);
        return;
      }
      input := input.(craned := None, jumped := None, mantled := None, tac := None);
      state := state.(mantle := None, craneHeightLeft := craneHeight);
    }

    /** `available_mantle_height`: probes by moving the character, and puts it back. */
    method AvailableMantleHeight(w: World, dt: real, wish: Vec3) returns (found: Option<(MantleState, MantleOutput)>)
      modifies this
      ensures Snapshot() == old(Snapshot())
      ensures found == MantleProbe(w, cfg, derived, state.crouching, translation, state.orientation.forward, wish)
    {
      var originalPosition, originalVelocity := translation, velocity;
      var wishDir: Vec3;
      if wish != Zero {
        wishDir := NormalizeOrZero(w.sqrt, wish);
      } else if Flat(state.orientation.forward) != Zero {
        wishDir := NormalizeOrZero(w.sqrt, Flat(state.orientation.forward));
      } else {
        return None;
      }
      velocity := velocity.(y := 0.0);
      Accelerate(w, dt, wish, None, cfg.accelerationHz);
      velocity := velocity.(y := 0.0);
      velocity := Add(velocity, state.platformVelocity);
      // Check the wall
      var wallHit := Cast(w, dt, Scale(wishDir, cfg.maxLedgeGrabDistance));
      if wallHit.None? {
        velocity := originalVelocity;
        return None;
      }
      var wallNormal := wallHit.value.normal;
      if Dot(Neg(wallNormal), wishDir) < cfg.minMantleCos {
        velocity := originalVelocity;
        return None;
      }
      translation := Add(translation, Scale(wishDir, wallHit.value.distance));
      DepenetrateCharacter(w, dt);
      found := MantleOverWall(w, dt, wallNormal);
      translation, velocity := originalPosition, originalVelocity;
    }

    /** The second half of `available_mantle_height`, from the wall with normal `wallNormal`. */
    method MantleOverWall(w: World, dt: real, wallNormal: Vec3) returns (found: Option<(MantleState, MantleOutput)>)
      modifies this
      ensures Snapshot() == old(Snapshot())
      ensures found == MantleOver(w, cfg, derived, state.crouching, translation, wallNormal)
    {
      var wallPos := translation;
      // Step up, reach over the ledge with the hands, move down
      var upDist := DistanceOr(CastHands(w, dt, Scale(Up, cfg.mantleHeight)), cfg.mantleHeight);
      translation := Add(translation, Scale(Up, upDist));
      var handToWallDist := derived.Radius(state.crouching) + cfg.skinWidth + cfg.ledgeGrabHalfSize.z;
      translation := Add(translation, Scale(Neg(wallNormal), handToWallDist));
      var down := CastHands(w, dt, Scale(Down, upDist));
      if down.None? {
        translation := wallPos;
        return None;
      }
      var ledgeHeight := upDist - down.value.distance;
      translation := wallPos;
      translation := translation.(y := translation.y + ledgeHeight);
      // Enough space to land?
      if CastHands(w, dt, Scale(Neg(wallNormal), handToWallDist)).Some? {
        translation := wallPos;
        return None;
      }
      translation := Add(translation, Scale(Neg(wallNormal), handToWallDist));
      var hit := CastHands(w, dt, Scale(Down, ledgeHeight));
      translation := wallPos;
      if hit.None? || hit.value.normal.y < cfg.minWalkCos {
        return None;
      }
      var mantleHeight := ledgeHeight - derived.PosToHeadDist(state.crouching) + cfg.climbPullUpHeight;
      if mantleHeight < 0.0 {
        return None;
      }
      return Some((MantleState(mantleHeight), MantleOutput(wallNormal, hit.value.point, hit.value.entity)));
    }

    method UpdateMantleState(w: World, dt: real, wish: Vec3)
      modifies this
      ensures Snapshot() == KccSteps.UpdateMantleState(EnvOf(w, dt), old(Snapshot()), wish)
    {
      if state.craneHeightLeft.Some? {
        state := state.(mantle := None);
        return;
      }
      if state.mantle.Some? {
        return;
      }
      if input.mantled.None? || input.mantled.value > cfg.mantleInputBuffer {
        return;
      }
      var found := AvailableMantleHeight(w, dt, wish);
      if found.None? {
        return;
      }
      input := input.(craned := None, mantled := None, jumped := None);
      state := state.(mantle := Some(found.value.0));
      output := output.(mantle := Some(found.value.1));
    }

    method HandleCraneMovement(w: World, dt: real, wish: Vec3)
      modifies this
      ensures Snapshot() == KccSteps.HandleCraneMovement(EnvOf(w, dt), old(Snapshot()), wish)
    {
      if state.craneHeightLeft.None? {
        return;
      }
      var craneHeight := state.craneHeightLeft.value;
      velocity := velocity.(y := 0.0);
      Accelerate(w, dt, wish, None, cfg.accelerationHz);
      velocity := velocity.(y := 0.0);
      velocity := Add(velocity, state.platformVelocity);
      if velocity == Zero {
        state := state.(craneHeightLeft := None);
        velocity := Sub(velocity, state.platformVelocity);
        return;
      }
      var velDir := NormalizeOrZero(w.sqrt, velocity);
      var speed := Length(w.sqrt, velocity);
      var wishDir := if wish != Zero then NormalizeOrZero(w.sqrt, wish) else velDir;
      velocity := Sub(velocity, state.platformVelocity);
      // Check the wall
      var wallHit := Cast(w, dt, Scale(wishDir, cfg.minCraneLedgeSpace));
      if wallHit.None? {
        state := state.(craneHeightLeft := None);
        return;
      }
      var wallNormal := NormalizeOrZero(w.sqrt, Flat(wallHit.value.normal));
      if Dot(Neg(wallNormal), wishDir) < cfg.minCraneCos {
        state := state.(craneHeightLeft := None);
        return;
      }
      Rise(w, dt, craneHeight, velDir, speed);
    }

    /** The rising part of `handle_crane_movement`, with `craneHeight` left to rise. */
    method Rise(w: World, dt: real, craneHeight: real, velDir: Vec3, speed: real)
      modifies this
      ensures Snapshot() == CraneRise(EnvOf(w, dt), old(Snapshot()), craneHeight, velDir, speed)
    {
      var castLen := Min(Mul(cfg.craneSpeed, dt), craneHeight);
      var topHit := Cast(w, dt, Scale(Up, castLen));
      var travelDist := DistanceOr(topHit, castLen);
      translation := Add(translation, Scale(Up, travelDist));
      var velocityStash := velocity;
      velocity := state.platformVelocity;
      MoveCharacter(w, dt);
      velocity := velocityStash;
      var left := if topHit.Some? then 0.0 else Max(craneHeight - travelDist, 0.0);
      state := state.(craneHeightLeft := Some(left), lastStepUp := 0.0);
      if left != 0.0 {
        if Cast(w, dt, Scale(velDir, cfg.minCraneLedgeSpace)).None? {
          translation := Add(translation, Scale(Scale(velDir, speed), dt));
          DepenetrateCharacter(w, dt);
          state := state.(craneHeightLeft := None);
        }
        return;
      }
      if Cast(w, dt, Scale(velDir, cfg.minCraneLedgeSpace)).Some? {
        state := state.(craneHeightLeft := None);
        return;
      }
      translation := Add(translation, Scale(Scale(velDir, speed), dt));
      DepenetrateCharacter(w, dt);
      state := state.(craneHeightLeft := None);
    }

    /** `closest_wall_normal`: one pass over the contacts, keeping the least penetrating wall. */
    method ClosestWallNormal(w: World, dt: real, dist: real) returns (wall: Option<(Vec3, Vec3)>)
      ensures wall == KccSteps.ClosestWallNormal(EnvOf(w, dt), Snapshot(), dist)
    {
      var contacts := w.intersections(ActiveShape(state.crouching), translation, dist + cfg.skinWidth);
      var closest: Option<Contact> := None;
      var i := 0;
      while i < |contacts|
        invariant 0 <= i <= |contacts|
        invariant closest == ClosestWall(contacts[..i], cfg.minWalkCos)
      {
        var c := contacts[i];
        assert contacts[..i + 1][..i] == contacts[..i];
        if Abs(c.normal.y) < cfg.minWalkCos && !(closest.Some? && closest.value.penetration < c.penetration) {
          closest := Some(c);
        }
        i := i + 1;
      }
      assert contacts[..i] == contacts;
      wall := if closest.Some? then Some((closest.value.point, closest.value.normal)) else None;
    }

    method HandleMantleMovement(w: World, dt: real, wish3d: Vec3)
      requires 0.0 < dt
      modifies this
      ensures Snapshot() == KccSteps.HandleMantleMovement(EnvOf(w, dt), old(Snapshot()), wish3d)
    {
      if state.mantle.None? {
        return;
      }
      var mantle := state.mantle.value;
      state := state.(mantle := None);
      velocity := Zero;
      var wall := ClosestWallNormal(w, dt, cfg.maxLedgeGrabDistance);
      if wall.None? {
        // No wall close enough: the mantle ends
        return;
      }
      var wallNormal := wall.value.1;
      var hit := Cast(w, dt, Scale(Neg(wallNormal), cfg.maxLedgeGrabDistance));
      if hit.None? {
        return;
      }
      output := output.(mantle := Some(MantleOutput(wallNormal, hit.value.point, hit.value.entity)));
      if w.collider(hit.value.entity).Some? {
        CalculatePlatformMovement(w, dt, hit.value.point, w.collider(hit.value.entity).value);
      }
      Climb(w, dt, mantle, wish3d);
    }

    /** The climbing part of `handle_mantle_movement`, for a mantle with `mantle.heightLeft` to go. */
    method Climb(w: World, dt: real, current: MantleState, wish3d: Vec3)
      requires 0.0 < dt
      modifies this
      ensures Snapshot() == ClimbMantle(EnvOf(w, dt), old(Snapshot()), current.heightLeft, wish3d)
    {
      var mantle := current;
      var wishY := ClimbFactor(wish3d, input.lastMovement, state.orientation.forward,
                               cfg.climbReverseSin, cfg.climbSensitivity);
      var climbDist := Min(Mul(Mul(cfg.mantleSpeed, dt), wishY), mantle.heightLeft);
      if mantle.heightLeft - climbDist > cfg.mantleHeight - cfg.LedgeGrabHeight() {
        climbDist := mantle.heightLeft - cfg.mantleHeight + cfg.LedgeGrabHeight();
      }
      var topHit := Cast(w, dt, Scale(Up, climbDist));
      var travelDist := Mul(if topHit.Some? then topHit.value.distance else Abs(climbDist), Signum(climbDist));
      velocity := Add(Vec3(0.0, Div(travelDist, dt), 0.0), state.platformVelocity);
      MoveCharacter(w, dt);
      velocity := Sub(velocity, state.platformVelocity);
      mantle := mantle.(heightLeft := mantle.heightLeft - travelDist);
      if climbDist > 0.0 {
        state := state.(lastStepUp := 0.0);
      } else {
        state := state.(lastStepDown := 0.0);
      }
      state := state.(mantle := Some(mantle));
    }

    method HandleClimbdown(w: World, dt: real, wish: Vec3)
      modifies this
      ensures Snapshot() == KccSteps.HandleClimbdown(EnvOf(w, dt), old(Snapshot()), wish)
    {
      if state.grounded.Some? {
        return;
      }
      if input.lastMovement.None? || input.lastMovement.value.y >= 0.0 {
        return;
      }
      if input.climbdown.None? || input.climbdown.value > cfg.mantleInputBuffer {
        return;
      }
      // Step down
      if Cast(w, dt, Scale(Down, cfg.craneHeight)).Some? {
        return;
      }
      var originalPosition := translation;
      translation := Add(translation, Scale(Down, cfg.craneHeight));
      var found := AvailableMantleHeight(w, dt, Neg(wish));
      if found.None? {
        translation := originalPosition;
        return;
      }
      input := input.(craned := None, mantled := None, jumped := None, climbdown := None);
      state := state.(mantle := Some(found.value.0));
      output := output.(mantle := Some(found.value.1));
    }

    method HandleTac(w: World, dt: real, wish: Vec3) returns (push: Option<Vec3>)
      modifies this
      ensures (Snapshot(), push) == KccSteps.HandleTac(EnvOf(w, dt), old(Snapshot()), wish)
    {
      ghost var c := Snapshot();
      if state.mantle.Some? {
        return None;
      }
      if input.tac.None? || input.tac.value > cfg.tacInputBuffer {
        return None;
      }
      if LengthSq(wish) < 0.1 || state.lastTac < cfg.tacCooldown {
        return None;
      }
      var normal: Vec3;
      var alongVelocity := Cast(w, dt, Scale(velocity, dt));
      if alongVelocity.Some? {
        normal := alongVelocity.value.normal;
      } else {
        var alongWish := Cast(w, dt, Scale(wish, dt));
        if alongWish.Some? {
          normal := alongWish.value.normal;
        } else {
          // No wall to tic-tac off of
          return None;
        }
      }
      ghost var wall := TacWall(w, ActiveShape(state.crouching), translation, velocity, wish, dt);
      assert wall == Some(normal);
      // Not off ceilings or overhangs
      if normal.y < -0.01 {
        return None;
      }
      var wishUnit := NormalizeOrZero(w.sqrt, wish);
      var wishDot := Dot(wishUnit, normal);
      if -wishDot > cfg.maxTacCos {
        return None;
      }
      assert TacAllowed(w, cfg, dt, c, wish);
      // Cancel the velocity that move-and-slide would lose against the wall
      var velDot := Min(Dot(velocity, normal), 0.0);
      velocity := CancelIntoWall(velocity, normal);
      var groundedness := Groundedness(state.tacVelocity, velDot);
      state := state.(tacVelocity := 0.0);
      var tacDir := TacDirection(w.sqrt, cfg, wishUnit, normal);
      push := Some(Scale(Scale(tacDir, groundedness), cfg.tacPower));
      assert velocity == CancelIntoWall(c.velocity, normal);
      assert state == c.state.(tacVelocity := 0.0);
      assert translation == c.translation && input == c.input && output == c.output;
      assert Snapshot() == c.(velocity := CancelIntoWall(c.velocity, normal), state := c.state.(tacVelocity := 0.0));
    }

    method HandleLedgeJumpDir(w: World, dt: real) returns (push: Option<Vec3>)
      modifies this
      ensures (Snapshot(), push) == KccSteps.HandleLedgeJumpDir(EnvOf(w, dt), old(Snapshot()))
    {
      if state.mantle.None? || (input.mantled.Some? && input.mantled.value < cfg.mantleInputBuffer)
         || input.jumped.None? {
        return None;
      }
      if Flat(state.orientation.forward) == Zero {
        return None;
      }
      var flatForward := NormalizeOrZero(w.sqrt, Flat(state.orientation.forward));
      var dir := LedgeJumpDirection(w.sqrt, cfg, flatForward, input.lastMovement.UnwrapOr(Vec2Zero).y);
      state := state.(mantle := None);
      return Some(Scale(dir, cfg.ledgeJumpPower));
    }

    method HandleJump(w: World, dt: real, wish: Vec3)
      modifies this
      ensures Snapshot() == KccSteps.HandleJump(EnvOf(w, dt), old(Snapshot()), wish)
    {
      var jumpDir: Vec3;
      if state.grounded.None? && state.lastGround > cfg.coyoteTime {
        // Tic-tacs when in the air beyond the coyote time
        var tac := HandleTac(w, dt, wish);
        if tac.Some? {
          jumpDir := tac.value;
        } else {
          var ledge := HandleLedgeJumpDir(w, dt);
          if ledge.Some? {
            jumpDir := ledge.value;
          } else {
            return;
          }
        }
      } else {
        if input.jumped.None? || input.jumped.value > cfg.jumpInputBuffer {
          return;
        }
        SetGrounded(w, dt, None);
        // So that the jump ungrounding us does not allow another jump
        state := state.(lastGround := cfg.coyoteTime);
        jumpDir := Up;
      }
      Launch(w, dt, jumpDir);
    }

    /** The common end of `handle_jump`: consume the inputs and add the launch along `jumpDir`. */
    method Launch(w: World, dt: real, jumpDir: Vec3)
      modifies this
      ensures Snapshot() == KccSteps.Launch(EnvOf(w, dt), old(Snapshot()), jumpDir)
    {
      state := state.(lastTac := 0.0);
      input := input.(jumped := None, tac := None);
      var launchSpeed := JumpSpeed(w.sqrt, cfg.gravity, cfg.jumpHeight);
      velocity := Add(velocity, Add(Scale(jumpDir, launchSpeed), Scale(Up, state.platformVelocity.y)));
      if input.craned.Some? {
        input := input.(craned := Some(input.craned.value + CraneChainTick(cfg)));
      }
    }

    /**
      `run_kcc` for this character, with the look orientation (camera or own
      rotation) resolved by the caller.
    */
    method RunKcc(w: World, dt: real, orientation: Orientation)
      requires 0.0 < dt
      modifies this
      ensures Snapshot() == Tick(EnvOf(w, dt), old(Snapshot()), orientation)
      ensures state.grounded.Some? ==> (velocity.y == state.platformVelocity.y && state.lastGround == 0.0
                                        && state.mantle.None?)
    {
      Prepare(w, dt, orientation);
      var wish := WishVelocity(w.sqrt, input.lastMovement, state.orientation, state.crouching, cfg);
      var wish3d := WishVelocity3d(w.sqrt, input.lastMovement, state.orientation, state.crouching, cfg);
      UpdateCraneState(w, dt, wish);
      UpdateMantleState(w, dt, wish);
      Movement(w, dt, wish, wish3d);
      Settle(w, dt, wish);
      if state.grounded.Some? {
        velocity := velocity.(y := state.platformVelocity.y);
        state := state.(lastGround := 0.0);
      }
    }

    /** The first part of `run_kcc`: clear the outputs, advance the timers, ground, crouch, half of gravity. */
    method Prepare(w: World, dt: real, orientation: Orientation)
      modifies this
      ensures Snapshot() == KccSteps.Prepare(EnvOf(w, dt), old(Snapshot()), orientation)
    {
      output := output.(mantle := None, touching := []);
      state := state.(lastGround := state.lastGround + dt, lastTac := state.lastTac + dt,
                      lastStepUp := state.lastStepUp + dt, lastStepDown := state.lastStepDown + dt);
      DepenetrateCharacter(w, dt);
      UpdateGrounded(w, dt);
      HandleCrouching(w, dt);
      if !water.AboveFeet() {
        StartGravity(w, dt);
      }
      state := state.(orientation := orientation);
    }

    /** The movement mode of `run_kcc`: crane, mantle (after a possible ledge jump), or friction and a move. */
    method Movement(w: World, dt: real, wish: Vec3, wish3d: Vec3)
      requires 0.0 < dt
      modifies this
      ensures Snapshot() == KccSteps.Movement(EnvOf(w, dt), old(Snapshot()), wish, wish3d)
    {
      if state.craneHeightLeft.Some? {
        HandleCraneMovement(w, dt, wish);
      } else if state.mantle.Some? {
        HandleJump(w, dt, wish);
        HandleMantleMovement(w, dt, wish3d);
      } else {
        HandleJump(w, dt, wish);
        // Friction comes before the platform's velocity is added
        Friction(w, dt);
        ValidateVelocity(w, dt);
        if water.AboveFeet() {
          WaterMove(w, dt, wish3d);
        } else if state.grounded.Some? {
          GroundMove(w, dt, wish);
        } else {
          AirMove(w, dt, wish);
        }
      }
    }

    /** After the movement: ground again, climb down off a ledge just left, validate and finish gravity. */
    method Settle(w: World, dt: real, wish: Vec3)
      modifies this
      ensures Snapshot() == KccSteps.Settle(EnvOf(w, dt), old(Snapshot()), wish)
    {
      var wasGrounded := state.grounded.Some?;
      UpdateGrounded(w, dt);
      if wasGrounded {
        HandleClimbdown(w, dt, wish);
      }
      ValidateVelocity(w, dt);
      if !water.AboveFeet() {
        FinishGravity(w, dt);
      }
    }
  }
}
