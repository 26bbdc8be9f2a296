/**
  The arithmetic of src/kcc.rs that does not touch the controller's state:
  acceleration, friction, the jump impulse, wish velocities, the climb
  factor and distances of mantling, the tic-tac helpers and the
  component sanitisation of `validate_velocity`.
*/
module KccMath {
  import opened Wrappers
  import opened VecMath
  import opened KccTypes

  // ---------------------------------------------------------------- acceleration

  /** The speed acceleration aims for along the wish direction; air acceleration caps it. */
  function AccelTarget(sqrt: real -> real, wish: Vec3, airCap: Option<real>): real
  {
    var wishSpeed := Length(sqrt, wish);
    if airCap.Some? then Min(wishSpeed, airCap.value) else wishSpeed
  }

  /**
    `ground_accelerate` and `water_accelerate` (`airCap == None`) and
    `air_accelerate` (`airCap == Some(max_air_wish_speed)`).
  */
  function Accelerated(sqrt: real -> real, v: Vec3, wish: Vec3, airCap: Option<real>,
                       accelHz: real, dt: real): Vec3
  {
    if wish == Zero then v
    else
      var dir := NormalizeOrZero(sqrt, wish);
      var add := AccelTarget(sqrt, wish, airCap) - Dot(v, dir);
      if add <= 0.0 then v
      else Add(v, Scale(dir, Min(Mul(Mul(Length(sqrt, wish), accelHz), dt), add)))
  }

  lemma NonNegativeProduct(a: real, b: real)
    requires 0.0 <= a && 0.0 <= b
    ensures 0.0 <= a * b
  {
  }

  lemma PositiveProduct(a: real, b: real)
    requires 0.0 < a && 0.0 < b
    ensures 0.0 < a * b
  {
  }

  /**
    Acceleration changes the velocity only along the wish direction, never
    pushes the speed along it past the target, never lowers it, and raises
    it whenever the target is not yet reached and the rate is positive.
  */
  lemma {:induction false} AccelerateAlongWish(sqrt: real -> real, v: Vec3, wish: Vec3, airCap: Option<real>,
                                               accelHz: real, dt: real)
    requires IsSqrt(sqrt) && wish != Zero && 0.0 <= accelHz && 0.0 <= dt
    ensures var d := NormalizeOrZero(sqrt, wish);
            var r := Accelerated(sqrt, v, wish, airCap, accelHz, dt);
            var t := AccelTarget(sqrt, wish, airCap);
            && Sub(r, v) == Scale(d, Dot(r, d) - Dot(v, d))
            && Dot(v, d) <= Dot(r, d) <= Max(Dot(v, d), t)
            && (Dot(v, d) < t && 0.0 < accelHz * dt ==> Dot(v, d) < Dot(r, d))
            && (t <= Dot(v, d) ==> r == v)
  {
    var d := NormalizeOrZero(sqrt, wish);
    var r := Accelerated(sqrt, v, wish, airCap, accelHz, dt);
    var t := AccelTarget(sqrt, wish, airCap);
    var n := Length(sqrt, wish);
    NormalizeFacts(sqrt, wish);
    LengthFacts(sqrt, wish);
    var add := t - Dot(v, d);
    if add > 0.0 {
      var rate := Mul(Mul(n, accelHz), dt);
      assert rate == n * (accelHz * dt);
      NonNegativeProduct(accelHz, dt);
      NonNegativeProduct(n, accelHz * dt);
      if 0.0 < accelHz * dt { PositiveProduct(n, accelHz * dt); }
      var k := Min(rate, add);
      assert r == Add(v, Scale(d, k));
      DotAlongUnit(v, d, k);
      assert Sub(r, v) == Scale(d, k);
    } else {
      assert r == v;
      assert Sub(r, v) == Zero;
      assert Scale(d, 0.0) == Zero;
    }
  }

  /** Acceleration leaves every component perpendicular to the wish direction as it was. */
  lemma {:induction false} AccelerateKeepsPerpendicular(sqrt: real -> real, v: Vec3, wish: Vec3, airCap: Option<real>,
                                                        accelHz: real, dt: real, u: Vec3)
    requires IsSqrt(sqrt) && wish != Zero && 0.0 <= accelHz && 0.0 <= dt
    requires Dot(u, NormalizeOrZero(sqrt, wish)) == 0.0
    ensures Dot(Accelerated(sqrt, v, wish, airCap, accelHz, dt), u) == Dot(v, u)
  {
    var d := NormalizeOrZero(sqrt, wish);
    var r := Accelerated(sqrt, v, wish, airCap, accelHz, dt);
    AccelerateAlongWish(sqrt, v, wish, airCap, accelHz, dt);
    var c := Dot(r, d) - Dot(v, d);
    assert r == Add(v, Scale(d, c));
    DotAddScaled(v, d, c, u);
  }

  // ---------------------------------------------------------------- friction

  /** `friction`: the surface coefficient of the ground, through the collider, its body, then the default. */
  function SurfaceFriction(w: World, grounded: Option<Hit>): (mu: real)
    ensures w.FrictionsValid() ==> 0.0 <= mu
    ensures grounded.None? ==> mu == w.fallbackFriction
  {
    if grounded.Some? && w.collider(grounded.value.entity).Some? then
      var c := w.collider(grounded.value.entity).value;
      if c.friction.Some? then c.friction.value
      else if w.bodyFriction(c.body).Some? then w.bodyFriction(c.body).value
      else w.defaultFriction
    else w.fallbackFriction
  }

  /** The speed `friction` measures: horizontal when grounded, full otherwise. */
  function FrictionSpeed(sqrt: real -> real, v: Vec3, grounded: bool): real
  {
    if grounded then Length(sqrt, Flat(v)) else Length(sqrt, v)
  }

  /** `(speed - max(speed, stop_speed) * friction_hz * mu * dt).max(0.0)` */
  function FrictionNewSpeed(speed: real, stopSpeed: real, frictionHz: real, mu: real, dt: real): (r: real)
    ensures 0.0 <= r
    ensures 0.0 <= speed && 0.0 <= frictionHz && 0.0 <= mu && 0.0 <= dt ==> r <= speed
  {
    var control := Max(speed, stopSpeed);
    var drop := Mul(Mul(control, Mul(frictionHz, mu)), dt);
    assert 0.0 <= speed && 0.0 <= frictionHz && 0.0 <= mu && 0.0 <= dt ==> 0.0 <= drop by {
      if 0.0 <= speed && 0.0 <= frictionHz && 0.0 <= mu && 0.0 <= dt {
        DropNonNegative(control, frictionHz, mu, dt);
      }
    }
    Max(speed - drop, 0.0)
  }

  /** `friction` applied to a velocity, with `mu` the surface coefficient. */
  function Frictioned(sqrt: real -> real, v: Vec3, grounded: bool, aboveFeet: bool, mu: real,
                      frictionHz: real, stopSpeed: real, dt: real): Vec3
  {
    if !grounded && !aboveFeet then v
    else
      var speed := FrictionSpeed(sqrt, v, grounded);
      if speed < 0.001 then v
      else
        var newSpeed := FrictionNewSpeed(speed, stopSpeed, frictionHz, mu, dt);
        if newSpeed != speed then Scale(v, Div(newSpeed, speed)) else v
  }

  lemma UnitRatio(part: real, whole: real)
    requires 0.0 <= part <= whole && 0.0 < whole
    ensures 0.0 <= part / whole <= 1.0
  {
    assert part / whole * whole == part;
  }

  lemma SquareAtMostOne(k: real)
    requires 0.0 <= k <= 1.0
    ensures k * k <= 1.0
  {
    NonNegativeProduct(k, 1.0 - k);
    assert k * (1.0 - k) == k - k * k;
  }

  lemma LengthSqShrinks(a: Vec3, k: real)
    requires 0.0 <= k <= 1.0
    ensures LengthSq(Scale(a, k)) <= LengthSq(a)
  {
    LengthSqScale(a, k);
    SquaresNonNegative(a);
    var l := LengthSq(a);
    var kk := k * k;
    SquareAtMostOne(k);
    NonNegativeProduct(1.0 - kk, l);
    assert (1.0 - kk) * l == l - kk * l;
  }

  lemma ScaledDot(v: Vec3, k: real)
    requires 0.0 <= k
    ensures 0.0 <= Dot(Scale(v, k), v)
  {
    SquaresNonNegative(v);
    assert (k * v.x) * v.x == k * (v.x * v.x);
    assert (k * v.y) * v.y == k * (v.y * v.y);
    assert (k * v.z) * v.z == k * (v.z * v.z);
    NonNegativeProduct(k, LengthSq(v));
  }

  lemma DropNonNegative(control: real, frictionHz: real, mu: real, dt: real)
    requires 0.0 <= control && 0.0 <= frictionHz && 0.0 <= mu && 0.0 <= dt
    ensures 0.0 <= control * (frictionHz * mu) * dt
  {
    NonNegativeProduct(frictionHz, mu);
    NonNegativeProduct(control, frictionHz * mu);
    NonNegativeProduct(control * (frictionHz * mu), dt);
  }

  /** Friction scales the velocity by a factor in [0, 1]; airborne out of water it does nothing. */
  lemma {:induction false} FrictionIsScaling(sqrt: real -> real, v: Vec3, grounded: bool, aboveFeet: bool, mu: real,
                                             frictionHz: real, stopSpeed: real, dt: real)
    requires IsSqrt(sqrt) && 0.0 <= mu && 0.0 <= frictionHz && 0.0 <= dt
    ensures exists k :: 0.0 <= k <= 1.0 && Frictioned(sqrt, v, grounded, aboveFeet, mu, frictionHz, stopSpeed, dt) == Scale(v, k)
    ensures !grounded && !aboveFeet ==> Frictioned(sqrt, v, grounded, aboveFeet, mu, frictionHz, stopSpeed, dt) == v
    ensures FrictionSpeed(sqrt, v, grounded) < 0.001 ==>
              Frictioned(sqrt, v, grounded, aboveFeet, mu, frictionHz, stopSpeed, dt) == v
  {
    var r := Frictioned(sqrt, v, grounded, aboveFeet, mu, frictionHz, stopSpeed, dt);
    var speed := FrictionSpeed(sqrt, v, grounded);
    var newSpeed := FrictionNewSpeed(speed, stopSpeed, frictionHz, mu, dt);
    LengthFacts(sqrt, Flat(v));
    LengthFacts(sqrt, v);
    if (grounded || aboveFeet) && speed >= 0.001 && newSpeed != speed {
      UnitRatio(newSpeed, speed);
      assert r == Scale(v, Div(newSpeed, speed));
    } else {
      assert r == v;
      assert r == Scale(v, 1.0);
    }
  }

  /** Friction never speeds the character up and never turns it around. */
  lemma {:induction false} FrictionOnlySlows(sqrt: real -> real, v: Vec3, grounded: bool, aboveFeet: bool, mu: real,
                                             frictionHz: real, stopSpeed: real, dt: real)
    requires IsSqrt(sqrt) && 0.0 <= mu && 0.0 <= frictionHz && 0.0 <= dt
    ensures LengthSq(Frictioned(sqrt, v, grounded, aboveFeet, mu, frictionHz, stopSpeed, dt)) <= LengthSq(v)
    ensures 0.0 <= Dot(Frictioned(sqrt, v, grounded, aboveFeet, mu, frictionHz, stopSpeed, dt), v)
  {
    FrictionIsScaling(sqrt, v, grounded, aboveFeet, mu, frictionHz, stopSpeed, dt);
    var k :| 0.0 <= k <= 1.0 && Frictioned(sqrt, v, grounded, aboveFeet, mu, frictionHz, stopSpeed, dt) == Scale(v, k);
    LengthSqShrinks(v, k);
    ScaledDot(v, k);
  }

  // ---------------------------------------------------------------- jumping

  /** `(2 g h).sqrt()`: the launch speed that reaches height `h` under gravity `g`. */
  function JumpSpeed(sqrt: real -> real, gravity: real, height: real): real
  {
    sqrt(2.0 * gravity * height)
  }

  /** The launch speed is the non-negative speed whose square is `2 g h`, so the jump peaks at height `h`. */
  lemma JumpSpeedReachesHeight(sqrt: real -> real, gravity: real, height: real)
    requires IsSqrt(sqrt) && 0.0 <= 2.0 * gravity * height
    ensures var s := JumpSpeed(sqrt, gravity, height);
            0.0 <= s && s * s == 2.0 * gravity * height
  {
    SqrtAt(sqrt, 2.0 * gravity * height);
  }

  /**
    The chain-jump tick as written: `Duration` subtraction panics when the
    chain time exceeds the crane buffer (None), before `.max(Duration::ZERO)`
    is reached.
  */
  function CraneChainTickAsWritten(cfg: Config): (r: Option<real>)
    ensures r.None? <==> cfg.craneInputBuffer < cfg.jumpCraneChainTime
    ensures r.Some? ==> 0.0 <= r.value <= cfg.craneInputBuffer - cfg.jumpCraneChainTime
  {
    if cfg.jumpCraneChainTime <= cfg.craneInputBuffer then Some(cfg.craneInputBuffer - cfg.jumpCraneChainTime)
    else None
  }

  /** A chain time longer than the crane buffer makes every jump with a buffered crane input panic. */
  lemma CraneChainTickAsWrittenPanics(cfg: Config)
    requires cfg.craneInputBuffer < cfg.jumpCraneChainTime
    ensures CraneChainTickAsWritten(cfg).None?
  {
  }

  /** For instance a crane buffer of 0.1 s with a chain time of 0.2 s. */
  lemma CraneChainTickAsWrittenExample(cfg: Config)
    requires cfg.craneInputBuffer == 0.1 && cfg.jumpCraneChainTime == 0.2
    ensures CraneChainTickAsWritten(cfg) == None
  {
    CraneChainTickAsWrittenPanics(cfg);
  }

  /**
    The chain-jump tick applied to a buffered crane input, with the
    saturating subtraction the `.max(Duration::ZERO)` asks for: never
    negative, the difference when there is one, zero otherwise, and equal
    to the tick as written wherever that one does not panic.
  */
  function CraneChainTick(cfg: Config): (t: real)
    ensures 0.0 <= t
    ensures cfg.jumpCraneChainTime <= cfg.craneInputBuffer ==> t + cfg.jumpCraneChainTime == cfg.craneInputBuffer
    ensures cfg.craneInputBuffer < cfg.jumpCraneChainTime ==> t == 0.0
    ensures CraneChainTickAsWritten(cfg).Some? ==> CraneChainTickAsWritten(cfg).value == t
  {
    Max(cfg.craneInputBuffer - cfg.jumpCraneChainTime, 0.0)
  }

  // ---------------------------------------------------------------- wish velocity

  /** The walking speed, lowered while crouching. */
  function MoveSpeed(crouching: bool, cfg: Config): real
  {
    if crouching then cfg.speed * cfg.crouchSpeedScale else cfg.speed
  }

  /** A unit-or-zero direction scaled by `s`: the facts both wish velocities promise. */
  lemma {:induction false} ScaledDirection(sqrt: real -> real, raw: Vec3, s: real)
    requires IsSqrt(sqrt)
    ensures var r := Scale(NormalizeOrZero(sqrt, raw), s);
            && (LengthSq(r) == 0.0 || LengthSq(r) == s * s)
            && (raw.y == 0.0 ==> r.y == 0.0)
            && (raw == Zero ==> r == Zero)
  {
    var dir := NormalizeOrZero(sqrt, raw);
    NormalizeFacts(sqrt, raw);
    LengthSqScale(dir, s);
    if raw == Zero {
      assert Scale(dir, s) == Vec3(s * 0.0, s * 0.0, s * 0.0);
    } else {
      assert LengthSq(dir) == 1.0;
      assert s * s * LengthSq(dir) == s * s;
    }
    if raw.y == 0.0 {
      assert Scale(dir, s).y == s * 0.0;
    }
  }

  /** The stick input combined with two frame vectors: `m.y * forward + m.x * right`. */
  function Combine(forward: Vec3, right: Vec3, m: Vec2): (r: Vec3)
    ensures forward.y == 0.0 && right.y == 0.0 ==> r.y == 0.0
    ensures m == Vec2Zero ==> r == Zero
  {
    var r := Add(Scale(forward, m.y), Scale(right, m.x));
    assert r.y == m.y * forward.y + m.x * right.y;
    r
  }

  /**
    `calculate_3d_wish_velocity`: stick input mapped onto the look frame,
    so looking up or down gives a vertical part. The result is either zero
    or exactly as fast as the walking speed; a horizontal frame gives a
    horizontal wish.
  */
  function WishVelocity3d(sqrt: real -> real, movement: Option<Vec2>, o: Orientation, crouching: bool,
                          cfg: Config): (r: Vec3)
    ensures movement.UnwrapOr(Vec2Zero) == Vec2Zero ==> r == Zero
    ensures o.forward.y == 0.0 && o.right.y == 0.0 ==> r.y == 0.0
  {
    var raw := Combine(o.forward, o.right, movement.UnwrapOr(Vec2Zero));
    var dir := NormalizeOrZero(sqrt, raw);
    NormalizeShape(sqrt, raw);
    var r := Scale(dir, MoveSpeed(crouching, cfg));
    assert r.y == MoveSpeed(crouching, cfg) * dir.y;
    r
  }

  /** The 3D wish is either zero or exactly as fast as the walking speed. */
  lemma WishVelocity3dSpeed(sqrt: real -> real, movement: Option<Vec2>, o: Orientation, crouching: bool,
                            cfg: Config)
    requires IsSqrt(sqrt)
    ensures var r := WishVelocity3d(sqrt, movement, o, crouching, cfg);
            LengthSq(r) == 0.0 || LengthSq(r) == MoveSpeed(crouching, cfg) * MoveSpeed(crouching, cfg)
  {
    ScaledDirection(sqrt, Combine(o.forward, o.right, movement.UnwrapOr(Vec2Zero)), MoveSpeed(crouching, cfg));
  }

  /** The look frame with both vectors flattened onto the ground and normalised. */
  function HorizontalFrame(sqrt: real -> real, o: Orientation): (h: Orientation)
    ensures h.forward.y == 0.0 && h.right.y == 0.0
  {
    var f := NormalizeOrZero(sqrt, Flat(o.forward));
    var r := NormalizeOrZero(sqrt, Flat(o.right));
    NormalizeShape(sqrt, Flat(o.forward));
    NormalizeShape(sqrt, Flat(o.right));
    Orientation(f, r)
  }

  /**
    `calculate_wish_velocity`: the 3D wish taken on the horizontal frame, so
    the result is horizontal, and either zero or exactly as fast as the
    walking speed.
  */
  function WishVelocity(sqrt: real -> real, movement: Option<Vec2>, o: Orientation, crouching: bool,
                        cfg: Config): (r: Vec3)
    ensures r.y == 0.0
    ensures movement.UnwrapOr(Vec2Zero) == Vec2Zero ==> r == Zero
  {
    WishVelocity3d(sqrt, movement, HorizontalFrame(sqrt, o), crouching, cfg)
  }

  /** The horizontal wish is either zero or exactly as fast as the walking speed. */
  lemma WishVelocitySpeed(sqrt: real -> real, movement: Option<Vec2>, o: Orientation, crouching: bool,
                          cfg: Config)
    requires IsSqrt(sqrt)
    ensures var r := WishVelocity(sqrt, movement, o, crouching, cfg);
            LengthSq(r) == 0.0 || LengthSq(r) == MoveSpeed(crouching, cfg) * MoveSpeed(crouching, cfg)
  {
    WishVelocity3dSpeed(sqrt, movement, HorizontalFrame(sqrt, o), crouching, cfg);
  }

  /** `water_move`'s wish: swim-up added, capped at the walking speed, sinking when idle, slowed down. */
  function WaterWish(sqrt: real -> real, wish: Vec3, swimUp: bool, cfg: Config): (r: Vec3)
    ensures var capped := WaterCapped(sqrt, wish, swimUp, cfg);
            && (capped == Zero ==> r == Vec3(0.0, -cfg.waterGravity * cfg.waterSlowdown, 0.0))
            && (capped != Zero ==> r == Scale(capped, cfg.waterSlowdown))
  {
    var capped := WaterCapped(sqrt, wish, swimUp, cfg);
    var sinking := if capped == Zero then Sub(capped, Scale(Up, cfg.waterGravity)) else capped;
    Scale(sinking, cfg.waterSlowdown)
  }

  /** The swim wish with swim-up added, capped at the walking speed. */
  function WaterCapped(sqrt: real -> real, wish: Vec3, swimUp: bool, cfg: Config): Vec3
  {
    ClampLengthMax(sqrt, if swimUp then Add(wish, Scale(Up, cfg.speed)) else wish, cfg.speed)
  }

  /** Swimming (up and forward together included) is never faster than the walking speed, slowed down. */
  lemma {:induction false} WaterWishBounded(sqrt: real -> real, wish: Vec3, swimUp: bool, cfg: Config)
    requires IsSqrt(sqrt) && 0.0 <= cfg.speed
    ensures var r := WaterWish(sqrt, wish, swimUp, cfg);
            WaterCapped(sqrt, wish, swimUp, cfg) != Zero ==>
              LengthSq(r) <= cfg.speed * cfg.speed * (cfg.waterSlowdown * cfg.waterSlowdown)
  {
    var raised := if swimUp then Add(wish, Scale(Up, cfg.speed)) else wish;
    var capped := WaterCapped(sqrt, wish, swimUp, cfg);
    ClampFacts(sqrt, raised, cfg.speed);
    var k := cfg.waterSlowdown * cfg.waterSlowdown;
    var m := cfg.speed * cfg.speed;
    LengthSqScale(capped, cfg.waterSlowdown);
    assert 0.0 <= k;
    assert LengthSq(capped) <= m;
    assert k * LengthSq(capped) <= k * m;
    assert m * k == k * m;
  }

  // ---------------------------------------------------------------- climbing

  /**
    `calc_climb_factor`: how strongly stick input climbs a ledge, in [-1, 1];
    zero without a wish, and pulling back climbs down exactly as hard as
    pushing forward climbs up.
  */
  function ClimbFactor(wish: Vec3, movement: Option<Vec2>, forward: Vec3, reverseSin: real,
                       sensitivity: real): (r: real)
    ensures -1.0 <= r <= 1.0
    ensures LengthSq(wish) < 0.01 ==> r == 0.0
  {
    if LengthSq(wish) < 0.01 then 0.0
    else
      var m := movement.UnwrapOr(Vec2Zero).y;
      var factor := ClimbStrength(Abs(m), forward, reverseSin, sensitivity);
      if m < 0.0 then -factor else factor
  }

  /** The unsigned part of `calc_climb_factor`: `((forward * |m|).y + reverse_sin) * sensitivity`, clamped. */
  function ClimbStrength(stick: real, forward: Vec3, reverseSin: real, sensitivity: real): (f: real)
    ensures -1.0 <= f <= 1.0
  {
    var cos := Scale(forward, stick).y;
    Clamp((cos + reverseSin) * sensitivity, -1.0, 1.0)
  }

  /** Reversing the forward stick reverses the climb factor. */
  lemma ClimbFactorOdd(wish: Vec3, x1: real, x2: real, m: real, forward: Vec3, reverseSin: real,
                       sensitivity: real)
    requires m != 0.0
    ensures ClimbFactor(wish, Some(Vec2(x1, -m)), forward, reverseSin, sensitivity)
         == -ClimbFactor(wish, Some(Vec2(x2, m)), forward, reverseSin, sensitivity)
  {
    assert Abs(-m) == Abs(m);
  }

  /**
    `handle_mantle_movement`'s requested climb distance: at most the height
    still to climb, and always enough that what is left fits below
    `mantle_height - min_ledge_grab_space.size().y`.
  */
  function MantleClimb(cfg: Config, dt: real, wishY: real, heightLeft: real): (c: real)
    ensures heightLeft - c <= cfg.mantleHeight - cfg.LedgeGrabHeight()
    ensures cfg.LedgeGrabHeight() <= cfg.mantleHeight ==> c <= heightLeft
  {
    var c := Min(Mul(Mul(cfg.mantleSpeed, dt), wishY), heightLeft);
    if heightLeft - c > cfg.mantleHeight - cfg.LedgeGrabHeight() then
      heightLeft - cfg.mantleHeight + cfg.LedgeGrabHeight()
    else c
  }

  /** The distance actually travelled by a climb cast: the hit distance, or the full request, with its sign. */
  function Travel(hit: Option<Hit>, request: real): real
  {
    Mul(if hit.Some? then hit.value.distance else Abs(request), Signum(request))
  }

  /** A climb never travels further than requested, nor in the other direction. */
  lemma {:induction false} TravelWithinRequest(hit: Option<Hit>, request: real)
    requires hit.Some? ==> HitWithin(hit.value, Scale(Up, request))
    ensures 0.0 <= request ==> 0.0 <= Travel(hit, request) <= request
    ensures request < 0.0 ==> request <= Travel(hit, request) <= 0.0
  {
    if hit.Some? {
      VerticalLengthSq(request);
      assert Abs(request) * Abs(request) == request * request;
      SquareMonotone(hit.value.distance, Abs(request));
    }
  }

  // ---------------------------------------------------------------- tic-tac

  /** `handle_tac`: remove the part of the velocity that points into the wall. */
  function CancelIntoWall(v: Vec3, n: Vec3): Vec3
  {
    Sub(v, Scale(n, Min(Dot(v, n), 0.0)))
  }

  /** After cancelling, the velocity no longer points into the wall; a velocity already off it is kept. */
  lemma {:induction false} CancelIntoWallLeavesWall(v: Vec3, n: Vec3)
    requires LengthSq(n) == 1.0
    ensures 0.0 <= Dot(CancelIntoWall(v, n), n)
    ensures 0.0 <= Dot(v, n) ==> CancelIntoWall(v, n) == v
  {
    var c := Min(Dot(v, n), 0.0);
    assert CancelIntoWall(v, n) == Add(v, Scale(n, -c));
    DotAlongUnit(v, n, -c);
  }

  /** Cancelling keeps every component of the velocity along the wall. */
  lemma {:induction false} CancelIntoWallKeepsAlong(v: Vec3, n: Vec3, u: Vec3)
    requires Dot(u, n) == 0.0
    ensures Dot(CancelIntoWall(v, n), u) == Dot(v, u)
  {
    var c := Min(Dot(v, n), 0.0);
    assert CancelIntoWall(v, n) == Add(v, Scale(n, -c));
    DotAddScaled(v, n, -c, u);
  }

  /** `handle_tac`'s launch direction off a wall with normal `n`, for a unit wish `wishUnit`. */
  function TacDirection(sqrt: real -> real, cfg: Config, wishUnit: Vec3, n: Vec3): Vec3
  {
    NormalizeOrZero(sqrt, TacRaw(cfg, wishUnit, n))
  }

  /** The launch direction before normalising: the wish turned off the wall, plus an upward bias. */
  function TacRaw(cfg: Config, wishUnit: Vec3, n: Vec3): Vec3
  {
    var wishDot := Dot(wishUnit, n);
    var tacWish := Sub(wishUnit, Scale(Flat(n), Min(wishDot, 0.0) - 1.0));
    Add(Scale(Up, cfg.tacJumpFactor), tacWish)
  }

  /** The tic-tac launch direction is a unit vector (or zero when the raw direction is zero). */
  lemma TacDirectionUnit(sqrt: real -> real, cfg: Config, wishUnit: Vec3, n: Vec3)
    requires IsSqrt(sqrt)
    ensures LengthSq(TacDirection(sqrt, cfg, wishUnit, n)) == 0.0 || LengthSq(TacDirection(sqrt, cfg, wishUnit, n)) == 1.0
  {
    NormalizeFacts(sqrt, TacRaw(cfg, wishUnit, n));
  }

  /** `tac_velocity.max(vel_dot).min(1.0)`: how much of the tac power is granted. */
  function Groundedness(tacVelocity: real, velDot: real): (g: real)
    ensures g <= 1.0
    ensures 0.0 <= tacVelocity ==> 0.0 <= g
  {
    Min(Max(tacVelocity, velDot), 1.0)
  }

  /** A unit-or-zero direction scaled by a fraction in [0, 1] and then by `p` is no longer than `p`. */
  lemma {:induction false} ImpulseBound(dir: Vec3, g: real, p: real)
    requires (LengthSq(dir) == 0.0 || LengthSq(dir) == 1.0) && 0.0 <= g <= 1.0
    ensures LengthSq(Scale(Scale(dir, g), p)) <= p * p
  {
    LengthSqScale(dir, g);
    LengthSqScale(Scale(dir, g), p);
    SquareAtMostOne(g);
    var inner := g * g * LengthSq(dir);
    assert 0.0 <= inner <= 1.0;
    assert 0.0 <= p * p;
    assert p * p * inner <= p * p * 1.0;
  }

  /** `move_character`'s tac energy: decays by 1% and gains the speed lost to collisions. */
  function TacEnergy(sqrt: real -> real, tac: real, before: Vec3, after: Vec3): real
  {
    0.99 * tac + Length(sqrt, Sub(before, after))
  }

  /** Non-negative tac energy stays non-negative; a slide that loses no speed only decays it. */
  lemma TacEnergyFacts(sqrt: real -> real, tac: real, before: Vec3, after: Vec3)
    requires IsSqrt(sqrt)
    ensures 0.0 <= tac ==> 0.0 <= TacEnergy(sqrt, tac, before, after)
    ensures before == after ==> TacEnergy(sqrt, tac, before, after) == 0.99 * tac
  {
    LengthFacts(sqrt, Sub(before, after));
    if before == after {
      assert Sub(before, after) == Zero;
    }
  }

  /** `handle_ledge_jump_dir`'s unit direction: up and forward, or straight down when pulling back. */
  function LedgeJumpDirection(sqrt: real -> real, cfg: Config, flatForward: Vec3, stickY: real): (r: Vec3)
    ensures stickY < 0.0 ==> r == Down
  {
    if stickY >= 0.0 then NormalizeOrZero(sqrt, Add(Scale(Up, cfg.ledgeJumpFactor), flatForward))
    else Down
  }

  /** For a horizontal unit forward vector the ledge jump direction is a unit vector. */
  lemma {:induction false} LedgeJumpDirectionUnit(sqrt: real -> real, cfg: Config, flatForward: Vec3, stickY: real)
    requires IsSqrt(sqrt) && LengthSq(flatForward) == 1.0 && flatForward.y == 0.0
    ensures LengthSq(LedgeJumpDirection(sqrt, cfg, flatForward, stickY)) == 1.0
  {
    if stickY >= 0.0 {
      var raw := Add(Scale(Up, cfg.ledgeJumpFactor), flatForward);
      assert raw.y == cfg.ledgeJumpFactor;
      assert LengthSq(raw) == cfg.ledgeJumpFactor * cfg.ledgeJumpFactor + 1.0;
      NormalizeFacts(sqrt, raw);
    }
  }

  // ---------------------------------------------------------------- validate_velocity

  /** An f32 component: finite, infinite or not a number. */
  datatype Float = Finite(value: real) | Infinite(negative: bool) | NaN

  /** Non-finite components become zero; finite ones are kept. */
  function Sanitized(f: Float): (r: Float)
    ensures r.Finite?
    ensures f.Finite? ==> r == f
  {
    if f.Finite? then f else Finite(0.0)
  }

  /** The first half of `validate_velocity`: the component loop that zeroes non-finite entries. */
  method Sanitize(components: array<Float>)
    modifies components
    ensures forall i :: 0 <= i < components.Length ==> components[i] == Sanitized(old(components[i]))
    ensures forall i :: 0 <= i < components.Length ==> components[i].Finite?
  {
    var i := 0;
    while i < components.Length
      invariant 0 <= i <= components.Length
      invariant forall j :: 0 <= j < i ==> components[j] == Sanitized(old(components[j]))
      invariant forall j :: i <= j < components.Length ==> components[j] == old(components[j])
    {
      if !components[i].Finite? {
        components[i] := Finite(0.0);
      }
      i := i + 1;
    }
  }
}
