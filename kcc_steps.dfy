/**
  The steps of src/kcc.rs as functions from the controller's context before
  a step to the context after it. Each function follows one Rust function
  of src/kcc.rs; `Tick` composes them in the order `run_kcc` runs them.
  The class in kcc.dfy performs the same steps in place and is proved to
  agree with these functions.
*/
module KccSteps {
  import opened Wrappers
  import opened VecMath
  import opened KccTypes
  import opened KccMath
  import opened KccProbes

  /** What a tick reads but never writes: the collision service, the tunables, the body, the water level, `dt`. */
  datatype Env = Env(w: World, cfg: Config, derived: Derived, water: WaterLevel, dt: real)
  {
    ghost predicate Valid()
    {
      w.Valid() && 0.0 < dt && WellFormed(cfg)
    }
  }

  /** `derived.collider(&state)` */
  function ShapeOf(c: Ctx): Shape
  {
    ActiveShape(c.state.crouching)
  }

  /** `cast_move`: the active collider swept from the translation. */
  function CastMove(e: Env, c: Ctx, movement: Vec3): Option<Hit>
  {
    e.w.cast(ShapeOf(c), c.translation, movement)
  }

  /** `cast_move_hands`: the hand collider swept from the translation. */
  function CastMoveHands(e: Env, c: Ctx, movement: Vec3): Option<Hit>
  {
    e.w.cast(Hands, c.translation, movement)
  }

  /** `depenetrate_character`: only the translation moves. */
  function DepenetrateCharacter(e: Env, c: Ctx): (r: Ctx)
    ensures r.(translation := c.translation) == c
  {
    c.(translation := e.w.Depenetrated(ShapeOf(c), c.translation))
  }

  /**
    `move_character`: slide along the velocity; the touched entities are
    appended to those already reported, and the tac energy decays and gains
    the speed the slide lost.
  */
  function MoveCharacter(e: Env, c: Ctx): (r: Ctx)
    ensures r.input == c.input && r.output.mantle == c.output.mantle
    ensures r.state.(tacVelocity := c.state.tacVelocity) == c.state
    ensures |c.output.touching| <= |r.output.touching| && r.output.touching[..|c.output.touching|] == c.output.touching
  {
    var out := e.w.Slide(ShapeOf(c), c.state.grounded, c.translation, c.velocity, e.dt);
    assert (c.output.touching + out.hits)[..|c.output.touching|] == c.output.touching;
    c.(velocity := out.projectedVelocity, translation := out.position,
       state := c.state.(tacVelocity := TacEnergy(e.w.sqrt, c.state.tacVelocity, c.velocity, out.projectedVelocity)),
       output := c.output.(touching := c.output.touching + out.hits))
  }

  /** A slide never makes non-negative tac energy negative. */
  lemma MoveCharacterKeepsTac(e: Env, c: Ctx)
    requires e.Valid() && 0.0 <= c.state.tacVelocity
    ensures 0.0 <= MoveCharacter(e, c).state.tacVelocity
  {
    var out := e.w.Slide(ShapeOf(c), c.state.grounded, c.translation, c.velocity, e.dt);
    TacEnergyFacts(e.w.sqrt, c.state.tacVelocity, c.velocity, out.projectedVelocity);
  }

  /** `validate_velocity` on real components: clamp the speed to `max_speed`. */
  function ValidateVelocity(e: Env, c: Ctx): (r: Ctx)
    ensures LengthSq(c.velocity) <= e.cfg.maxSpeed * e.cfg.maxSpeed ==> r == c
    ensures r.(velocity := c.velocity) == c
  {
    c.(velocity := ClampLengthMax(e.w.sqrt, c.velocity, e.cfg.maxSpeed))
  }

  /**
    After validation the speed is at most `max_speed`; a faster velocity
    keeps its direction and is cut to exactly `max_speed`.
  */
  lemma ValidatedSpeed(e: Env, c: Ctx)
    requires e.Valid()
    ensures var r := ValidateVelocity(e, c);
            && LengthSq(r.velocity) <= e.cfg.maxSpeed * e.cfg.maxSpeed
            && (e.cfg.maxSpeed * e.cfg.maxSpeed < LengthSq(c.velocity) ==>
                  LengthSq(r.velocity) == e.cfg.maxSpeed * e.cfg.maxSpeed
                  && Scale(r.velocity, Length(e.w.sqrt, c.velocity)) == Scale(c.velocity, e.cfg.maxSpeed))
  {
    ClampFacts(e.w.sqrt, c.velocity, e.cfg.maxSpeed);
  }

  /**
    `start_gravity`: the first half-step of gravity, with the platform's
    vertical speed handed over to the character; then validation.
  */
  function StartGravity(e: Env, c: Ctx): (r: Ctx)
    ensures r.state == c.state.(platformVelocity := c.state.platformVelocity.(y := 0.0))
    ensures r.input == c.input && r.output == c.output && r.translation == c.translation
  {
    var vy := c.velocity.y + Mul(c.state.platformVelocity.y - e.cfg.gravity * 0.5, e.dt);
    ValidateVelocity(e, c.(velocity := c.velocity.(y := vy),
                           state := c.state.(platformVelocity := c.state.platformVelocity.(y := 0.0))))
  }

  /** `finish_gravity`: the second half-step of gravity; then validation. */
  function FinishGravity(e: Env, c: Ctx): (r: Ctx)
    ensures r.(velocity := c.velocity) == c
  {
    ValidateVelocity(e, c.(velocity := c.velocity.(y := c.velocity.y - Mul(e.cfg.gravity * 0.5, e.dt))))
  }

  /**
    The first half of gravity: the vertical speed gains the platform's
    vertical speed less half of gravity, over `dt`; validation only ever
    cuts the result to `max_speed`.
  */
  lemma StartGravityHalfStep(e: Env, c: Ctx)
    requires e.Valid()
    ensures var pre := c.velocity.(y := c.velocity.y + (c.state.platformVelocity.y - e.cfg.gravity * 0.5) * e.dt);
            var r := StartGravity(e, c);
            && (LengthSq(pre) <= e.cfg.maxSpeed * e.cfg.maxSpeed ==> r.velocity == pre)
            && LengthSq(r.velocity) <= e.cfg.maxSpeed * e.cfg.maxSpeed
  {
    var vy := c.velocity.y + Mul(c.state.platformVelocity.y - e.cfg.gravity * 0.5, e.dt);
    ValidatedSpeed(e, c.(velocity := c.velocity.(y := vy),
                         state := c.state.(platformVelocity := c.state.platformVelocity.(y := 0.0))));
  }

  /** The second half of gravity: the vertical speed loses half of gravity over `dt`, cut to `max_speed`. */
  lemma FinishGravityHalfStep(e: Env, c: Ctx)
    requires e.Valid()
    ensures var pre := c.velocity.(y := c.velocity.y - e.cfg.gravity * 0.5 * e.dt);
            var r := FinishGravity(e, c);
            && (LengthSq(pre) <= e.cfg.maxSpeed * e.cfg.maxSpeed ==> r.velocity == pre)
            && LengthSq(r.velocity) <= e.cfg.maxSpeed * e.cfg.maxSpeed
  {
    ValidatedSpeed(e, c.(velocity := c.velocity.(y := c.velocity.y - Mul(e.cfg.gravity * 0.5, e.dt))));
  }

  /**
    The two halves together, when neither is cut by `max_speed`: one whole
    step of gravity plus the platform's vertical speed handed over, with the
    horizontal velocity untouched.
  */
  lemma {:induction false} GravityHalvesMakeAStep(e: Env, c: Ctx)
    requires e.Valid()
    requires LengthSq(c.velocity.(y := c.velocity.y + (c.state.platformVelocity.y - e.cfg.gravity * 0.5) * e.dt))
             <= e.cfg.maxSpeed * e.cfg.maxSpeed
    ensures var s := StartGravity(e, c);
            var pre := s.velocity.(y := s.velocity.y - e.cfg.gravity * 0.5 * e.dt);
            LengthSq(pre) <= e.cfg.maxSpeed * e.cfg.maxSpeed ==>
              FinishGravity(e, s).velocity
              == c.velocity.(y := c.velocity.y + (c.state.platformVelocity.y - e.cfg.gravity) * e.dt)
  {
    StartGravityHalfStep(e, c);
    var s := StartGravity(e, c);
    FinishGravityHalfStep(e, s);
  }

  /** `friction`, with the surface coefficient of the current ground. */
  function Friction(e: Env, c: Ctx): (r: Ctx)
    ensures r.(velocity := c.velocity) == c
  {
    var mu := SurfaceFriction(e.w, c.state.grounded);
    c.(velocity := Frictioned(e.w.sqrt, c.velocity, c.state.grounded.Some?, e.water.AboveFeet(), mu,
                              e.cfg.frictionHz, e.cfg.stopSpeed, e.dt))
  }

  /** The friction step never speeds the character up nor turns it around. */
  lemma FrictionStepSlows(e: Env, c: Ctx)
    requires e.Valid() && 0.0 <= e.cfg.frictionHz
    ensures LengthSq(Friction(e, c).velocity) <= LengthSq(c.velocity)
    ensures 0.0 <= Dot(Friction(e, c).velocity, c.velocity)
  {
    var mu := SurfaceFriction(e.w, c.state.grounded);
    FrictionOnlySlows(e.w.sqrt, c.velocity, c.state.grounded.Some?, e.water.AboveFeet(), mu,
                      e.cfg.frictionHz, e.cfg.stopSpeed, e.dt);
  }

  // ---------------------------------------------------------------- step_move

  /** The direct slide of `step_move` reset for the step-up try: position lifted, velocity and touches restored. */
  function Raised(e: Env, c: Ctx, direct: Ctx): Ctx
  {
    var up := DistanceOr(CastMove(e, c, Scale(Up, e.cfg.stepSize)), e.cfg.stepSize);
    c.(state := direct.state, translation := Add(c.translation, Scale(Up, up)))
  }

  /** The direct slide's position, velocity and touches put back over `c`. */
  function Restored(c: Ctx, pos: Vec3, vel: Vec3, touching: seq<Touch>): Ctx
  {
    c.(translation := pos, velocity := vel, output := c.output.(touching := touching))
  }

  /**
    `step_move`: slide directly; then try the same slide one step higher and
    drop back onto walkable ground; keep whichever got further horizontally.
  */
  function StepMove(e: Env, c: Ctx): (r: Ctx)
  {
    var direct := MoveCharacter(e, c);
    var raised := Raised(e, c, direct);
    if CastMove(e, raised, Scale(NormalizeOrZero(e.w.sqrt, c.velocity), e.cfg.minStepLedgeSpace)).Some? then direct
    else StepUp(e, c.translation, direct.translation, direct.velocity, direct.output.touching, raised)
  }

  /**
    The second half of `step_move`, from the raised position: slide, drop
    back onto walkable ground, and keep the step only when it got further
    than the direct slide (`down*`) from `origin`. Keeping the step resets
    `last_step_up` and keeps the direct vertical speed.
  */
  function StepUp(e: Env, origin: Vec3, downPos: Vec3, downVel: Vec3, downTouching: seq<Touch>, raised: Ctx): Ctx
  {
    var up := MoveCharacter(e, raised);
    var hit := CastMove(e, up, Scale(Down, e.cfg.stepSize));
    if hit.None? || hit.value.normal.y < e.cfg.minWalkCos then Restored(up, downPos, downVel, downTouching)
    else
      var landed := DepenetrateCharacter(e, up.(translation := Add(up.translation, Scale(Down, hit.value.distance))));
      if XzDistanceSq(downPos, origin) >= XzDistanceSq(landed.translation, origin) then
        Restored(landed, downPos, downVel, downTouching)
      else landed.(velocity := landed.velocity.(y := downVel.y), state := landed.state.(lastStepUp := 0.0))
  }

  /**
    The step is taken only onto the landing the step-up probe finds, and
    only when it gets strictly further than the direct slide; otherwise the
    direct slide stands. Either way nothing but the velocity, translation,
    touches, tac energy and `last_step_up` changes.
  */
  lemma {:induction false} StepMoveKeepsFurther(e: Env, c: Ctx)
    requires e.Valid()
    ensures var r := StepMove(e, c);
            var direct := MoveCharacter(e, c);
            var attempt := StepUpAttempt(e.w, e.cfg, e.dt, ShapeOf(c), c.state.grounded, c.translation, c.velocity);
            && XzDistanceSq(direct.translation, c.translation) <= XzDistanceSq(r.translation, c.translation)
            && (r.translation == direct.translation
                || (attempt.Landed? && r.translation == attempt.position
                    && SteppedFurther(c.translation, direct.translation, attempt.position)))
            && (r.translation == direct.translation ==>
                  r.velocity == direct.velocity && r.output.touching == direct.output.touching)
            && r.input == c.input && r.output.mantle == c.output.mantle
            && r.state.(tacVelocity := c.state.tacVelocity, lastStepUp := c.state.lastStepUp) == c.state
            && (r.state.lastStepUp == c.state.lastStepUp
                || (r.state.lastStepUp == 0.0 && attempt.Landed? && r.translation == attempt.position
                    && SteppedFurther(c.translation, direct.translation, attempt.position)))
  {
    var direct := MoveCharacter(e, c);
    var raised := Raised(e, c, direct);
    if CastMove(e, raised, Scale(NormalizeOrZero(e.w.sqrt, c.velocity), e.cfg.minStepLedgeSpace)).None? {
      var up := MoveCharacter(e, raised);
      assert up.translation == e.w.Slide(ShapeOf(c), c.state.grounded, raised.translation, c.velocity, e.dt).position;
    }
  }

  // ---------------------------------------------------------------- ground

  /** `snap_to_ground`: pull the character down onto walkable ground within a step, then depenetrate. */
  function SnapToGround(e: Env, c: Ctx): (r: Ctx)
  {
    var t := SnapTarget(e.w, e.cfg, ShapeOf(c), c.translation);
    if t.None? then c
    else
      var st := if c.translation.y - t.value.y > e.cfg.stepDownDetectionDistance then c.state.(lastStepDown := 0.0)
                else c.state;
      DepenetrateCharacter(e, c.(translation := t.value, state := st))
  }

  /** `set_grounded`: the grounded state is replaced, and landing stops vertical motion. */
  function SetGrounded(e: Env, c: Ctx, g: Option<Hit>): (r: Ctx)
    ensures r.state.grounded == g
    ensures g.Some? ==> r.velocity.y == 0.0 && r.state.mantle.None?
    ensures g.None? ==> r.velocity == c.velocity && r.state.mantle == c.state.mantle
    ensures r.translation == c.translation && r.input == c.input && r.output == c.output
  {
    c.(state := Grounded(e.w, e.dt, c.state, c.translation, g),
       velocity := if g.Some? then c.velocity.(y := 0.0) else c.velocity)
  }

  /** `update_grounded` */
  function UpdateGrounded(e: Env, c: Ctx): (r: Ctx)
    ensures r.state.grounded.Some? ==> r.state.mantle.None? && r.velocity.y == 0.0
    ensures r.state.grounded.Some? ==> e.cfg.minWalkCos <= r.state.grounded.value.normal.y
    ensures e.water.AboveFeet() ==> r.state.grounded.None?
    ensures r.translation == c.translation && r.input == c.input && r.output == c.output
  {
    SetGrounded(e, c, NewGround(e.w, e.cfg, e.water, e.dt, ShapeOf(c), c.translation, c.velocity, c.state))
  }

  /**
    `ground_move`: accelerate horizontally, ride the platform, and move
    along the ground, stepping over obstacles and snapping back down.
  */
  function GroundMove(e: Env, c: Ctx, wish: Vec3): (r: Ctx)
  {
    var accelerated := Accelerated(e.w.sqrt, c.velocity.(y := 0.0), wish, None, e.cfg.accelerationHz, e.dt);
    var pv := c.state.platformVelocity;
    var v := Add(accelerated.(y := 0.0), pv);
    if Length(e.w.sqrt, v) < 0.01 then c.(velocity := Neg(pv))
    else
      var movement := Scale(v, e.dt).(y := 0.0);
      var c1 := c.(velocity := v);
      if CastMove(e, c1, movement).None? then
        SnapToGround(e, DepenetrateCharacter(e, c1.(translation := Add(c1.translation, movement), velocity := Sub(v, pv))))
      else
        var s := StepMove(e, c1);
        SnapToGround(e, s.(velocity := Sub(s.velocity, s.state.platformVelocity)))
  }

  /**
    What a ground move does. Below 0.01 m/s, counting the platform, it only
    cancels the platform velocity and moves nothing. Otherwise it keeps the
    input, the reported mantle, the ground, the crouch and the crane and
    mantle states; only the tac energy and the step timers of the state can
    change. Unobstructed, the character's own velocity is the horizontal
    ground-accelerated one.
  */
  lemma {:induction false} GroundMoveFacts(e: Env, c: Ctx, wish: Vec3)
    requires e.Valid()
    ensures var own := Accelerated(e.w.sqrt, c.velocity.(y := 0.0), wish, None, e.cfg.accelerationHz, e.dt).(y := 0.0);
            var v := Add(own, c.state.platformVelocity);
            var r := GroundMove(e, c, wish);
            && (Length(e.w.sqrt, v) < 0.01 ==> r == c.(velocity := Neg(c.state.platformVelocity)))
            && r.input == c.input && r.output.mantle == c.output.mantle
            && r.state.(tacVelocity := c.state.tacVelocity, lastStepUp := c.state.lastStepUp,
                        lastStepDown := c.state.lastStepDown) == c.state
            && (Length(e.w.sqrt, v) >= 0.01 && CastMove(e, c.(velocity := v), Scale(v, e.dt).(y := 0.0)).None? ==>
                  r.velocity == own && r.velocity.y == 0.0)
  {
    var own := Accelerated(e.w.sqrt, c.velocity.(y := 0.0), wish, None, e.cfg.accelerationHz, e.dt).(y := 0.0);
    var pv := c.state.platformVelocity;
    var v := Add(own, pv);
    if Length(e.w.sqrt, v) >= 0.01 {
      var movement := Scale(v, e.dt).(y := 0.0);
      var c1 := c.(velocity := v);
      if CastMove(e, c1, movement).None? {
        assert Sub(v, pv) == own;
      } else {
        StepMoveKeepsFurther(e, c1);
      }
    }
  }

  /** `air_move`: capped air acceleration, then a step move riding the platform velocity. */
  function AirMove(e: Env, c: Ctx, wish: Vec3): (r: Ctx)
  {
    var v := Accelerated(e.w.sqrt, c.velocity, wish, Some(e.cfg.maxAirWishSpeed), e.cfg.airAccelerationHz, e.dt);
    var s := StepMove(e, c.(velocity := Add(v, c.state.platformVelocity)));
    s.(velocity := Sub(s.velocity, s.state.platformVelocity))
  }

  /** `water_move`: the water wish (which consumes the swim-up input), water acceleration, then a step move. */
  function WaterMove(e: Env, c: Ctx, wish: Vec3): (r: Ctx)
  {
    var target := WaterWish(e.w.sqrt, wish, c.input.swimUp, e.cfg);
    var c1 := if c.input.swimUp then c.(input := c.input.(swimUp := false)) else c;
    var v := Accelerated(e.w.sqrt, c1.velocity, target, None, e.cfg.waterAccelerationHz, e.dt);
    var s := StepMove(e, c1.(velocity := Add(v, c1.state.platformVelocity)));
    s.(velocity := Sub(s.velocity, s.state.platformVelocity))
  }

  // ---------------------------------------------------------------- crouching

  /** Some entity other than water overlaps the shape. */
  predicate AnySolid(w: World, es: seq<Entity>)
  {
    exists i :: 0 <= i < |es| && !w.isWater(es[i])
  }

  /** `is_intersecting` */
  function IsIntersecting(e: Env, c: Ctx): bool
  {
    AnySolid(e.w, e.w.overlaps(ShapeOf(c), c.translation))
  }

  /** `handle_crouching`: crouch on input; otherwise stand up unless the standing shape would overlap something solid. */
  function HandleCrouching(e: Env, c: Ctx): (r: Ctx)
    ensures r.(state := c.state) == c && r.state == c.state.(crouching := r.state.crouching)
    ensures r.state.crouching <==>
              c.input.crouched || (c.state.crouching && AnySolid(e.w, e.w.overlaps(Standing, c.translation)))
  {
    if c.input.crouched then c.(state := c.state.(crouching := true))
    else if c.state.crouching then
      var standing := c.(state := c.state.(crouching := false));
      standing.(state := standing.state.(crouching := IsIntersecting(e, standing)))
    else c
  }

  // ---------------------------------------------------------------- cranes and mantles

  /** `update_crane_state`: a buffered crane input starts a crane onto a ledge the probe finds. */
  function UpdateCraneState(e: Env, c: Ctx, wish: Vec3): (r: Ctx)
    ensures r.state.craneHeightLeft.Some? ==> r.state.mantle.None? || r.state.craneHeightLeft == c.state.craneHeightLeft
    ensures r == c || r.state.craneHeightLeft.None?
            || (r.input.craned.None? && r.input.jumped.None? && r.input.mantled.None? && r.input.tac.None?
                && r.state.mantle.None?)
    ensures r.translation == c.translation && r.velocity == c.velocity && r.output == c.output
  {
    if c.input.craned.None? || c.input.craned.value > e.cfg.craneInputBuffer then c
    else
      var h := LedgeHeight(e.w, e.cfg, ShapeOf(c), c.translation, c.velocity, wish,
                           e.cfg.minCraneLedgeSpace, e.cfg.minCraneCos, e.cfg.craneHeight);
      if h.None? then c.(state := c.state.(craneHeightLeft := None))
      else c.(input := c.input.(craned := None, jumped := None, mantled := None, tac := None),
              state := c.state.(mantle := None, craneHeightLeft := h))
  }

  /** `update_mantle_state`: with no crane going, a buffered mantle input starts a mantle the probe finds. */
  function UpdateMantleState(e: Env, c: Ctx, wish: Vec3): (r: Ctx)
    ensures r.state.craneHeightLeft == c.state.craneHeightLeft
    ensures r.state.craneHeightLeft.Some? ==> r.state.mantle.None?
    ensures c.state.mantle.Some? ==> r.state.mantle.None? || r.state.mantle == c.state.mantle
    ensures r.translation == c.translation && r.velocity == c.velocity
  {
    if c.state.craneHeightLeft.Some? then c.(state := c.state.(mantle := None))
    else if c.state.mantle.Some? then c
    else if c.input.mantled.None? || c.input.mantled.value > e.cfg.mantleInputBuffer then c
    else
      var p := MantleProbe(e.w, e.cfg, e.derived, c.state.crouching, c.translation, c.state.orientation.forward, wish);
      if p.None? then c
      else c.(input := c.input.(craned := None, mantled := None, jumped := None),
              state := c.state.(mantle := Some(p.value.0)),
              output := c.output.(mantle := Some(p.value.1)))
  }

  /** The crane's last move: forward onto the ledge unless blocked, and the crane ends either way. */
  function CraneOnto(e: Env, c: Ctx, velDir: Vec3, speed: real, blockedEnds: bool): (r: Ctx)
    ensures r.state.craneHeightLeft.None? || r == c
  {
    if CastMove(e, c, Scale(velDir, e.cfg.minCraneLedgeSpace)).None? then
      var d := DepenetrateCharacter(e, c.(translation := Add(c.translation, Scale(Scale(velDir, speed), e.dt))));
      d.(state := d.state.(craneHeightLeft := None))
    else if blockedEnds then c.(state := c.state.(craneHeightLeft := None))
    else c
  }

  /**
    `handle_crane_movement`: while a wall is ahead, rise by up to
    `crane_speed * dt`, riding the platform; when the rise is done (or a
    ceiling stops it) move forward onto the ledge and end the crane.
  */
  function HandleCraneMovement(e: Env, c: Ctx, wish: Vec3): (r: Ctx)
  {
    if c.state.craneHeightLeft.None? then c
    else
      var h := c.state.craneHeightLeft.value;
      var pv := c.state.platformVelocity;
      var accelerated := Accelerated(e.w.sqrt, c.velocity.(y := 0.0), wish, None, e.cfg.accelerationHz, e.dt);
      var v := Add(accelerated.(y := 0.0), pv);
      if v == Zero then c.(velocity := Sub(v, pv), state := c.state.(craneHeightLeft := None))
      else
        var velDir := NormalizeOrZero(e.w.sqrt, v);
        var speed := Length(e.w.sqrt, v);
        var wishDir := if wish != Zero then NormalizeOrZero(e.w.sqrt, wish) else velDir;
        var c1 := c.(velocity := Sub(v, pv));
        var wall := CastMove(e, c1, Scale(wishDir, e.cfg.minCraneLedgeSpace));
        if wall.None? then c1.(state := c1.state.(craneHeightLeft := None))
        else
          var n := NormalizeOrZero(e.w.sqrt, Flat(wall.value.normal));
          if Dot(Neg(n), wishDir) < e.cfg.minCraneCos then c1.(state := c1.state.(craneHeightLeft := None))
          else CraneRise(e, c1, h, velDir, speed)
  }

  /**
    The rising part of `handle_crane_movement`, with `h` left to rise: rise by
    up to `crane_speed * dt` riding the platform, then move onto the ledge
    when the rise is done or a ceiling stopped it.
  */
  function CraneRise(e: Env, c: Ctx, h: real, velDir: Vec3, speed: real): (r: Ctx)
  {
    var len := Min(Mul(e.cfg.craneSpeed, e.dt), h);
    var top := CastMove(e, c, Scale(Up, len));
    var travel := DistanceOr(top, len);
    var lifted := MoveCharacter(e, c.(translation := Add(c.translation, Scale(Up, travel)),
                                      velocity := c.state.platformVelocity));
    var left := if top.Some? then 0.0 else Max(h - travel, 0.0);
    var c2 := lifted.(velocity := c.velocity,
                      state := lifted.state.(craneHeightLeft := Some(left), lastStepUp := 0.0));
    CraneOnto(e, c2, velDir, speed, left == 0.0)
  }

  /**
    A crane only ever shrinks: what is left after a step is positive and no
    more than before, and the crane has ended once nothing is left.
  */
  lemma {:induction false} CraneHeightShrinks(e: Env, c: Ctx, wish: Vec3)
    requires e.Valid() && 0.0 <= e.cfg.craneSpeed
    requires c.state.craneHeightLeft.Some? && 0.0 <= c.state.craneHeightLeft.value
    ensures var r := HandleCraneMovement(e, c, wish);
            r.state.craneHeightLeft.Some? ==>
              0.0 < r.state.craneHeightLeft.value <= c.state.craneHeightLeft.value
  {
    var h := c.state.craneHeightLeft.value;
    var pv := c.state.platformVelocity;
    var accelerated := Accelerated(e.w.sqrt, c.velocity.(y := 0.0), wish, None, e.cfg.accelerationHz, e.dt);
    var v := Add(accelerated.(y := 0.0), pv);
    if v != Zero {
      var velDir := NormalizeOrZero(e.w.sqrt, v);
      var speed := Length(e.w.sqrt, v);
      var wishDir := if wish != Zero then NormalizeOrZero(e.w.sqrt, wish) else velDir;
      var c1 := c.(velocity := Sub(v, pv));
      NonNegativeProduct(e.cfg.craneSpeed, e.dt);
      var len := Min(Mul(e.cfg.craneSpeed, e.dt), h);
      assert 0.0 <= len <= h;
      var top := CastMove(e, c1, Scale(Up, len));
      VerticalLengthSq(len);
      DistanceWithin(top, len, Scale(Up, len));
    }
  }

  /** The contacts `closest_wall_normal` looks through: within `dist` plus the skin width. */
  function Contacts(e: Env, c: Ctx, dist: real): seq<Contact>
  {
    e.w.intersections(ShapeOf(c), c.translation, dist + e.cfg.skinWidth)
  }

  /** `closest_wall_normal`: the point and normal of the least penetrating wall contact within reach. */
  function ClosestWallNormal(e: Env, c: Ctx, dist: real): (r: Option<(Vec3, Vec3)>)
    ensures r.Some? <==> exists k :: 0 <= k < |Contacts(e, c, dist)| && IsWallContact(Contacts(e, c, dist)[k], e.cfg.minWalkCos)
    ensures r.Some? ==> exists ct :: ct in Contacts(e, c, dist) && IsWallContact(ct, e.cfg.minWalkCos)
                                     && ct.point == r.value.0 && ct.normal == r.value.1
  {
    var cs := Contacts(e, c, dist);
    var wall := ClosestWall(cs, e.cfg.minWalkCos);
    ClosestWallIsLeastPenetrating(cs, e.cfg.minWalkCos);
    if wall.Some? then Some((wall.value.point, wall.value.normal)) else None
  }

  /**
    `handle_mantle_movement`: stop, find the wall, report it and ride it,
    then climb by the stick's climb factor, never leaving more than
    `mantle_height - min_ledge_grab_space.size().y` to climb. Losing the
    wall ends the mantle.
  */
  function HandleMantleMovement(e: Env, c: Ctx, wish3d: Vec3): (r: Ctx)
    requires 0.0 < e.dt
  {
    if c.state.mantle.None? then c
    else
      var h := c.state.mantle.value.heightLeft;
      var c0 := c.(state := c.state.(mantle := None), velocity := Zero);
      var wall := ClosestWallNormal(e, c0, e.cfg.maxLedgeGrabDistance);
      if wall.None? then c0
      else
        var n := wall.value.1;
        var hit := CastMove(e, c0, Scale(Neg(n), e.cfg.maxLedgeGrabDistance));
        if hit.None? then c0
        else
          var c1 := c0.(output := c0.output.(mantle := Some(MantleOutput(n, hit.value.point, hit.value.entity))),
                        state := FollowPlatform(e.w, e.dt, c0.state, hit.value.entity, hit.value.point, c0.translation));
          ClimbMantle(e, c1, h, wish3d)
  }

  /** The climbing part of `handle_mantle_movement`: move by the climb factor and record the height left. */
  function ClimbMantle(e: Env, c: Ctx, h: real, wish3d: Vec3): (r: Ctx)
    requires 0.0 < e.dt
  {
    var wishY := ClimbFactor(wish3d, c.input.lastMovement, c.state.orientation.forward,
                             e.cfg.climbReverseSin, e.cfg.climbSensitivity);
    var climb := MantleClimb(e.cfg, e.dt, wishY, h);
    var travel := Travel(CastMove(e, c, Scale(Up, climb)), climb);
    var moved := MoveCharacter(e, c.(velocity := Add(Vec3(0.0, Div(travel, e.dt), 0.0), c.state.platformVelocity)));
    var st := if climb > 0.0 then moved.state.(lastStepUp := 0.0) else moved.state.(lastStepDown := 0.0);
    moved.(velocity := Sub(moved.velocity, moved.state.platformVelocity),
           state := st.(mantle := Some(MantleState(h - travel))))
  }

  /**
    The height left to climb stays between zero and the larger of the
    previous height and `mantle_height - min_ledge_grab_space.size().y`.
  */
  lemma {:induction false} MantleHeightBounded(e: Env, c: Ctx, wish3d: Vec3)
    requires e.Valid() && c.state.mantle.Some? && 0.0 <= c.state.mantle.value.heightLeft
    requires e.cfg.LedgeGrabHeight() <= e.cfg.mantleHeight
    ensures var r := HandleMantleMovement(e, c, wish3d);
            var h := c.state.mantle.value.heightLeft;
            r.state.mantle.Some? ==>
              0.0 <= r.state.mantle.value.heightLeft <= Max(h, e.cfg.mantleHeight - e.cfg.LedgeGrabHeight())
  {
    var h := c.state.mantle.value.heightLeft;
    var c0 := c.(state := c.state.(mantle := None), velocity := Zero);
    var wall := ClosestWallNormal(e, c0, e.cfg.maxLedgeGrabDistance);
    if wall.Some? {
      var n := wall.value.1;
      var hit := CastMove(e, c0, Scale(Neg(n), e.cfg.maxLedgeGrabDistance));
      if hit.Some? {
        var c1 := c0.(output := c0.output.(mantle := Some(MantleOutput(n, hit.value.point, hit.value.entity))),
                      state := FollowPlatform(e.w, e.dt, c0.state, hit.value.entity, hit.value.point, c0.translation));
        var wishY := ClimbFactor(wish3d, c1.input.lastMovement, c1.state.orientation.forward,
                                 e.cfg.climbReverseSin, e.cfg.climbSensitivity);
        var climb := MantleClimb(e.cfg, e.dt, wishY, h);
        TravelWithinRequest(CastMove(e, c1, Scale(Up, climb)), climb);
      }
    }
  }

  /**
    `handle_climbdown`: walking backwards off a ledge with the climb-down
    input buffered drops the character by `crane_height` (when nothing is
    below) and starts a mantle back up the ledge behind it.
  */
  function HandleClimbdown(e: Env, c: Ctx, wish: Vec3): (r: Ctx)
    ensures c.state.grounded.Some? ==> r == c
    ensures r == c || (r.state.mantle.Some? && r.output.mantle.Some? && r.input.climbdown.None?
                       && r.translation == Add(c.translation, Scale(Down, e.cfg.craneHeight)))
  {
    if c.state.grounded.Some? then c
    else if c.input.lastMovement.None? || c.input.lastMovement.value.y >= 0.0 then c
    else if c.input.climbdown.None? || c.input.climbdown.value > e.cfg.mantleInputBuffer then c
    else if CastMove(e, c, Scale(Down, e.cfg.craneHeight)).Some? then c
    else
      var low := Add(c.translation, Scale(Down, e.cfg.craneHeight));
      var p := MantleProbe(e.w, e.cfg, e.derived, c.state.crouching, low, c.state.orientation.forward, Neg(wish));
      if p.None? then c
      else c.(translation := low,
              input := c.input.(craned := None, mantled := None, jumped := None, climbdown := None),
              state := c.state.(mantle := Some(p.value.0)),
              output := c.output.(mantle := Some(p.value.1)))
  }

  // ---------------------------------------------------------------- jumping

  /** `handle_tac`: a buffered tic-tac off a wall cancels the velocity into it and returns the push-off. */
  function HandleTac(e: Env, c: Ctx, wish: Vec3): (r: (Ctx, Option<Vec3>))
    ensures r.1.Some? <==> TacAllowed(e.w, e.cfg, e.dt, c, wish)
    ensures r.1.None? ==> r.0 == c
    ensures r.1.Some? ==> r.0 == c.(velocity := r.0.velocity, state := c.state.(tacVelocity := 0.0))
  {
    if !TacAllowed(e.w, e.cfg, e.dt, c, wish) then (c, None)
    else
      var n := TacWall(e.w, ShapeOf(c), c.translation, c.velocity, wish, e.dt).value;
      var wishUnit := NormalizeOrZero(e.w.sqrt, wish);
      var g := Groundedness(c.state.tacVelocity, Min(Dot(c.velocity, n), 0.0));
      (c.(velocity := CancelIntoWall(c.velocity, n), state := c.state.(tacVelocity := 0.0)),
       Some(Scale(Scale(TacDirection(e.w.sqrt, e.cfg, wishUnit, n), g), e.cfg.tacPower)))
  }

  /** A tic-tac never pushes harder than `tac_power` while the tac energy is non-negative. */
  lemma {:induction false} TacBounded(e: Env, c: Ctx, wish: Vec3)
    requires e.Valid() && 0.0 <= c.state.tacVelocity
    requires HandleTac(e, c, wish).1.Some?
    ensures LengthSq(HandleTac(e, c, wish).1.value) <= e.cfg.tacPower * e.cfg.tacPower
  {
    var n := TacWall(e.w, ShapeOf(c), c.translation, c.velocity, wish, e.dt).value;
    var wishUnit := NormalizeOrZero(e.w.sqrt, wish);
    var g := Groundedness(c.state.tacVelocity, Min(Dot(c.velocity, n), 0.0));
    var dir := TacDirection(e.w.sqrt, e.cfg, wishUnit, n);
    assert HandleTac(e, c, wish).1.value == Scale(Scale(dir, g), e.cfg.tacPower);
    TacDirectionUnit(e.w.sqrt, e.cfg, wishUnit, n);
    ImpulseBound(dir, g, e.cfg.tacPower);
  }

  /** After a tic-tac the velocity no longer points into the wall. */
  lemma {:induction false} TacLeavesWall(e: Env, c: Ctx, wish: Vec3)
    requires e.Valid()
    requires HandleTac(e, c, wish).1.Some?
    ensures 0.0 <= Dot(HandleTac(e, c, wish).0.velocity,
                       TacWall(e.w, ShapeOf(c), c.translation, c.velocity, wish, e.dt).value)
  {
    var n := TacWall(e.w, ShapeOf(c), c.translation, c.velocity, wish, e.dt).value;
    TacWallUnit(e.w, ShapeOf(c), c.translation, c.velocity, wish, e.dt);
    assert HandleTac(e, c, wish).0.velocity == CancelIntoWall(c.velocity, n);
    CancelIntoWallLeavesWall(c.velocity, n);
  }

  /** `handle_ledge_jump_dir`: jumping off a mantle, up and forward (or down when pulling back); ends the mantle. */
  function HandleLedgeJumpDir(e: Env, c: Ctx): (r: (Ctx, Option<Vec3>))
    ensures r.1.None? ==> r.0 == c
    ensures r.1.Some? <==> LedgeJumpAllowed(e.cfg, c)
    ensures r.1.Some? ==> r.0 == c.(state := c.state.(mantle := None))
  {
    if !LedgeJumpAllowed(e.cfg, c) then (c, None)
    else
      var flatForward := NormalizeOrZero(e.w.sqrt, Flat(c.state.orientation.forward));
      var dir := LedgeJumpDirection(e.w.sqrt, e.cfg, flatForward, c.input.lastMovement.UnwrapOr(Vec2Zero).y);
      (c.(state := c.state.(mantle := None)), Some(Scale(dir, e.cfg.ledgeJumpPower)))
  }

  /** A ledge jump pushes with exactly `ledge_jump_power`, straight down when the stick pulls back. */
  lemma {:induction false} LedgeJumpPower(e: Env, c: Ctx)
    requires e.Valid() && HandleLedgeJumpDir(e, c).1.Some?
    ensures var push := HandleLedgeJumpDir(e, c).1.value;
            && LengthSq(push) == e.cfg.ledgeJumpPower * e.cfg.ledgeJumpPower
            && (c.input.lastMovement.UnwrapOr(Vec2Zero).y < 0.0 ==> push == Scale(Down, e.cfg.ledgeJumpPower))
  {
    var flat := Flat(c.state.orientation.forward);
    var flatForward := NormalizeOrZero(e.w.sqrt, flat);
    NormalizeFacts(e.w.sqrt, flat);
    var dir := LedgeJumpDirection(e.w.sqrt, e.cfg, flatForward, c.input.lastMovement.UnwrapOr(Vec2Zero).y);
    LedgeJumpDirectionUnit(e.w.sqrt, e.cfg, flatForward, c.input.lastMovement.UnwrapOr(Vec2Zero).y);
    LengthSqScale(dir, e.cfg.ledgeJumpPower);
  }

  /**
    The common end of `handle_jump`: the jump (and tac) input is consumed,
    the tac cooldown restarts, a buffered crane input is aged for chaining,
    and the launch is added along `dir` plus the platform's vertical speed.
    The ground's jump factor is the constant 1.
  */
  function Launch(e: Env, c: Ctx, dir: Vec3): (r: Ctx)
    ensures r.state == c.state.(lastTac := 0.0) && r.translation == c.translation && r.output == c.output
    ensures r.input.jumped.None? && r.input.tac.None?
  {
    var speed := JumpSpeed(e.w.sqrt, e.cfg.gravity, e.cfg.jumpHeight);
    c.(state := c.state.(lastTac := 0.0),
       input := c.input.(jumped := None, tac := None,
                         craned := if c.input.craned.Some? then Some(c.input.craned.value + CraneChainTick(e.cfg)) else None),
       velocity := Add(c.velocity, Add(Scale(dir, speed), Scale(Up, c.state.platformVelocity.y))))
  }

  /** The character counts as airborne once it has been off the ground longer than the coyote time. */
  predicate Airborne(cfg: Config, c: Ctx)
  {
    c.state.grounded.None? && c.state.lastGround > cfg.coyoteTime
  }

  /**
    `handle_jump`: in the air, a tic-tac or else a ledge jump; otherwise a
    buffered jump leaves the ground, pretending the coyote time ran out so
    it cannot jump again.
  */
  function HandleJump(e: Env, c: Ctx, wish: Vec3): (r: Ctx)
  {
    if Airborne(e.cfg, c) then
      var tac := HandleTac(e, c, wish);
      if tac.1.Some? then Launch(e, tac.0, tac.1.value)
      else
        var ledge := HandleLedgeJumpDir(e, c);
        if ledge.1.Some? then Launch(e, ledge.0, ledge.1.value) else c
    else if c.input.jumped.None? || c.input.jumped.value > e.cfg.jumpInputBuffer then c
    else
      var off := SetGrounded(e, c, None);
      Launch(e, off.(state := off.state.(lastGround := e.cfg.coyoteTime)), Up)
  }

  /** A jump either changes nothing or consumes the jump and tac inputs and restarts the tac cooldown. */
  lemma {:induction false} JumpConsumesInput(e: Env, c: Ctx, wish: Vec3)
    requires e.Valid()
    ensures var r := HandleJump(e, c, wish);
            r == c || (r.input.jumped.None? && r.input.tac.None? && r.state.lastTac == 0.0)
  {
    if Airborne(e.cfg, c) {
      var tac := HandleTac(e, c, wish);
      if tac.1.None? {
        var ledge := HandleLedgeJumpDir(e, c);
      }
    }
  }

  /**
    A buffered jump from the ground (or within the coyote time) ungrounds
    the character and adds exactly the launch speed `sqrt(2 g h)` plus the
    platform's vertical speed upwards, leaving the horizontal velocity alone.
  */
  lemma {:induction false} GroundJumpLaunchesUp(e: Env, c: Ctx, wish: Vec3)
    requires e.Valid() && !Airborne(e.cfg, c)
    requires c.input.jumped.Some? && c.input.jumped.value <= e.cfg.jumpInputBuffer
    requires 0.0 <= 2.0 * e.cfg.gravity * e.cfg.jumpHeight
    ensures var r := HandleJump(e, c, wish);
            var s := JumpSpeed(e.w.sqrt, e.cfg.gravity, e.cfg.jumpHeight);
            && r.state.grounded.None? && r.state.lastGround == e.cfg.coyoteTime
            && r.velocity.x == c.velocity.x && r.velocity.z == c.velocity.z
            && r.velocity.y == c.velocity.y + s + r.state.platformVelocity.y
            && 0.0 <= s && s * s == 2.0 * e.cfg.gravity * e.cfg.jumpHeight
  {
    JumpSpeedReachesHeight(e.w.sqrt, e.cfg.gravity, e.cfg.jumpHeight);
  }

  /** A ground jump cannot be repeated at once: the same step run again on its result changes nothing. */
  lemma {:induction false} GroundJumpOnce(e: Env, c: Ctx, wish: Vec3)
    requires !Airborne(e.cfg, c)
    requires c.input.jumped.Some? && c.input.jumped.value <= e.cfg.jumpInputBuffer
    ensures HandleJump(e, HandleJump(e, c, wish), wish) == HandleJump(e, c, wish)
  {
    var r := HandleJump(e, c, wish);
    assert r.state.lastGround == e.cfg.coyoteTime && r.input.jumped.None?;
  }

  // ---------------------------------------------------------------- run_kcc

  /** The start of a tick: outputs cleared and the four state timers advanced by `dt`. */
  function BeginTick(e: Env, c: Ctx): (r: Ctx)
    ensures r.output.touching == [] && r.output.mantle.None?
    ensures r.state.lastGround == c.state.lastGround + e.dt && r.state.lastTac == c.state.lastTac + e.dt
    ensures r.state.lastStepUp == c.state.lastStepUp + e.dt && r.state.lastStepDown == c.state.lastStepDown + e.dt
    ensures r.(output := c.output, state := r.state.(lastGround := c.state.lastGround, lastTac := c.state.lastTac,
                                                     lastStepUp := c.state.lastStepUp, lastStepDown := c.state.lastStepDown))
            == c
  {
    c.(output := c.output.(mantle := None, touching := []),
       state := c.state.(lastGround := c.state.lastGround + e.dt, lastTac := c.state.lastTac + e.dt,
                         lastStepUp := c.state.lastStepUp + e.dt, lastStepDown := c.state.lastStepDown + e.dt))
  }

  /** The movement mode `run_kcc` picks once crane and mantle states are settled. */
  function Movement(e: Env, c: Ctx, wish: Vec3, wish3d: Vec3): (r: Ctx)
    requires 0.0 < e.dt
  {
    if c.state.craneHeightLeft.Some? then HandleCraneMovement(e, c, wish)
    else if c.state.mantle.Some? then HandleMantleMovement(e, HandleJump(e, c, wish), wish3d)
    else
      var j := ValidateVelocity(e, Friction(e, HandleJump(e, c, wish)));
      if e.water.AboveFeet() then WaterMove(e, j, wish3d)
      else if j.state.grounded.Some? then GroundMove(e, j, wish)
      else AirMove(e, j, wish)
  }

  /** After the movement: ground again, climb down off a ledge just left, validate and finish gravity. */
  function Settle(e: Env, c: Ctx, wish: Vec3): (r: Ctx)
    ensures r.state.grounded.Some? ==> r.state.mantle.None?
  {
    var g := UpdateGrounded(e, c);
    var d := if c.state.grounded.Some? then HandleClimbdown(e, g, wish) else g;
    var v := ValidateVelocity(e, d);
    if !e.water.AboveFeet() then FinishGravity(e, v) else v
  }

  /** Settling leaves the speed at most `max_speed`: gravity's second half is followed by validation. */
  lemma SettledSpeed(e: Env, c: Ctx, wish: Vec3)
    requires e.Valid()
    ensures LengthSq(Settle(e, c, wish).velocity) <= e.cfg.maxSpeed * e.cfg.maxSpeed
  {
    var g := UpdateGrounded(e, c);
    var d := if c.state.grounded.Some? then HandleClimbdown(e, g, wish) else g;
    var v := ValidateVelocity(e, d);
    if e.water.AboveFeet() {
      ValidatedSpeed(e, d);
    } else {
      FinishGravityHalfStep(e, v);
    }
  }

  /**
    `run_kcc` for one character: depenetrate, ground, crouch, half of
    gravity, look along `orientation`, settle crane and mantle, move, ground
    again, climb down, finish gravity; a grounded character then rides the
    platform vertically and restarts `last_ground`.
  */
  function Tick(e: Env, c: Ctx, orientation: Orientation): (r: Ctx)
    requires 0.0 < e.dt
  {
    var p := Prepare(e, c, orientation);
    var wish := WishVelocity(e.w.sqrt, p.input.lastMovement, p.state.orientation, p.state.crouching, e.cfg);
    var wish3d := WishVelocity3d(e.w.sqrt, p.input.lastMovement, p.state.orientation, p.state.crouching, e.cfg);
    var s := Settle(e, Movement(e, UpdateMantleState(e, UpdateCraneState(e, p, wish), wish), wish, wish3d), wish);
    if s.state.grounded.Some? then
      s.(velocity := s.velocity.(y := s.state.platformVelocity.y), state := s.state.(lastGround := 0.0))
    else s
  }

  /** The first part of `run_kcc`: ground, crouch and half of gravity, then look along `orientation`. */
  function Prepare(e: Env, c: Ctx, orientation: Orientation): (r: Ctx)
    ensures r.state.orientation == orientation
    ensures r.input == c.input && r.output.touching == [] && r.output.mantle.None?
    ensures r.translation == e.w.Depenetrated(ShapeOf(c), c.translation)
    ensures r.state.lastGround == c.state.lastGround + e.dt && r.state.lastTac == c.state.lastTac + e.dt
    ensures r.state.lastStepUp == c.state.lastStepUp + e.dt && r.state.lastStepDown == c.state.lastStepDown + e.dt
    ensures r.state.grounded.Some? ==> r.state.mantle.None? && e.cfg.minWalkCos <= r.state.grounded.value.normal.y
    ensures e.water.AboveFeet() ==> r.state.grounded.None?
    ensures !e.water.AboveFeet() ==> r.state.platformVelocity.y == 0.0
    ensures r.state.crouching <==>
              c.input.crouched || (c.state.crouching && AnySolid(e.w, e.w.overlaps(Standing, r.translation)))
  {
    var c1 := UpdateGrounded(e, DepenetrateCharacter(e, BeginTick(e, c)));
    var c2 := HandleCrouching(e, c1);
    var c3 := if !e.water.AboveFeet() then StartGravity(e, c2) else c2;
    c3.(state := c3.state.(orientation := orientation))
  }

  /** Out of water, preparation leaves the speed at most `max_speed`: gravity's first half is validated. */
  lemma PreparedSpeed(e: Env, c: Ctx, orientation: Orientation)
    requires e.Valid() && !e.water.AboveFeet()
    ensures LengthSq(Prepare(e, c, orientation).velocity) <= e.cfg.maxSpeed * e.cfg.maxSpeed
  {
    var c2 := HandleCrouching(e, UpdateGrounded(e, DepenetrateCharacter(e, BeginTick(e, c))));
    StartGravityHalfStep(e, c2);
  }

  /**
    What a tick guarantees: a grounded character moves vertically with its
    platform, has just touched the ground and is not mantling; an airborne
    one is no faster than `max_speed`.
  */
  lemma {:induction false} TickPostconditions(e: Env, c: Ctx, orientation: Orientation)
    requires e.Valid()
    ensures var r := Tick(e, c, orientation);
            && (r.state.grounded.Some? ==>
                  r.velocity.y == r.state.platformVelocity.y && r.state.lastGround == 0.0 && r.state.mantle.None?)
            && (r.state.grounded.None? ==> LengthSq(r.velocity) <= e.cfg.maxSpeed * e.cfg.maxSpeed)
  {
    var p := Prepare(e, c, orientation);
    var wish := WishVelocity(e.w.sqrt, p.input.lastMovement, p.state.orientation, p.state.crouching, e.cfg);
    var wish3d := WishVelocity3d(e.w.sqrt, p.input.lastMovement, p.state.orientation, p.state.crouching, e.cfg);
    SettledSpeed(e, Movement(e, UpdateMantleState(e, UpdateCraneState(e, p, wish), wish), wish, wish3d), wish);
  }
}
