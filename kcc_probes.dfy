/**
  What the collision probes of src/kcc.rs find, as functions of the
  collision service and the controller's position: the step-up attempt of
  `step_move`, the ledge and mantle probes, the ground snap, the new ground
  of `update_grounded`, the platform bookkeeping of `set_grounded`, the
  tic-tac wall, and the closest wall of `closest_wall_normal`.
*/
module KccProbes {
  import opened Wrappers
  import opened VecMath
  import opened KccTypes
  import opened KccMath

  /** The distance a hit reports, or the full cast length on a miss (`hit.map(|h| h.distance).unwrap_or(len)`). */
  function DistanceOr(hit: Option<Hit>, len: real): real
  {
    if hit.Some? then hit.value.distance else len
  }

  /** A cast of length `len` never reports more than `len`, and never a negative distance. */
  lemma {:induction false} DistanceWithin(hit: Option<Hit>, len: real, movement: Vec3)
    requires 0.0 <= len && LengthSq(movement) == len * len
    requires hit.Some? ==> HitWithin(hit.value, movement)
    ensures 0.0 <= DistanceOr(hit, len) <= len
  {
    if hit.Some? {
      SquareMonotone(hit.value.distance, len);
    }
  }

  // ---------------------------------------------------------------- step_move

  /** The outcome of `step_move`'s attempt to climb a step before sliding. */
  datatype StepAttempt =
    | LedgeBlocked                          // no room to stand above the step
    | NoLanding(slide: SlideOut)            // the raised slide found no walkable ground below
    | Landed(position: Vec3, slide: SlideOut)

  /** `step_move` after the direct slide: raise by up to `step_size`, check headroom, slide, drop back down. */
  function StepUpAttempt(w: World, cfg: Config, dt: real, shape: Shape, grounded: Option<Hit>,
                         pos: Vec3, vel: Vec3): StepAttempt
  {
    var upDist := DistanceOr(w.cast(shape, pos, Scale(Up, cfg.stepSize)), cfg.stepSize);
    var raised := Add(pos, Scale(Up, upDist));
    if w.cast(shape, raised, Scale(NormalizeOrZero(w.sqrt, vel), cfg.minStepLedgeSpace)).Some? then LedgeBlocked
    else
      var slide := w.Slide(shape, grounded, raised, vel, dt);
      var down := w.cast(shape, slide.position, Scale(Down, cfg.stepSize));
      if down.None? || down.value.normal.y < cfg.minWalkCos then NoLanding(slide)
      else Landed(w.Depenetrated(shape, Add(slide.position, Scale(Down, down.value.distance))), slide)
  }

  /** "Use the one that went further": the step is kept only when it got strictly further horizontally. */
  predicate SteppedFurther(origin: Vec3, direct: Vec3, stepped: Vec3)
  {
    XzDistanceSq(direct, origin) < XzDistanceSq(stepped, origin)
  }

  // ---------------------------------------------------------------- ground

  /** `snap_to_ground`: where the character is pulled down to, before depenetration, or None. */
  function SnapTarget(w: World, cfg: Config, shape: Shape, pos: Vec3): Option<Vec3>
  {
    var upDist := DistanceOr(w.cast(shape, pos, Scale(Up, cfg.groundDistance)), cfg.groundDistance);
    var start := Add(pos, Scale(Up, upDist));
    var hit := w.cast(shape, start, Scale(Down, upDist + cfg.stepSize));
    if hit.None? || hit.value.intersects || hit.value.normal.y < cfg.minWalkCos
       || hit.value.distance <= cfg.groundDistance then None
    else Some(Add(start, Scale(Down, hit.value.distance)))
  }

  /**
    Snapping only ever moves straight down, by more than nothing and at most
    one step: it never lifts the character.
  */
  lemma {:induction false} SnapOnlyDown(w: World, cfg: Config, shape: Shape, pos: Vec3)
    requires w.CastsValid() && 0.0 <= cfg.groundDistance && 0.0 <= cfg.stepSize
    requires SnapTarget(w, cfg, shape, pos).Some?
    ensures var t := SnapTarget(w, cfg, shape, pos).value;
            t.x == pos.x && t.z == pos.z && pos.y - cfg.stepSize <= t.y < pos.y
  {
    var up := w.cast(shape, pos, Scale(Up, cfg.groundDistance));
    VerticalLengthSq(cfg.groundDistance);
    DistanceWithin(up, cfg.groundDistance, Scale(Up, cfg.groundDistance));
    var upDist := DistanceOr(up, cfg.groundDistance);
    var start := Add(pos, Scale(Up, upDist));
    var len := upDist + cfg.stepSize;
    var hit := w.cast(shape, start, Scale(Down, len));
    VerticalLengthSq(len);
    SquareMonotone(hit.value.distance, len);
  }

  /** `update_grounded`'s verdict: the walkable ground found below, or None. */
  function NewGround(w: World, cfg: Config, water: WaterLevel, dt: real, shape: Shape, pos: Vec3,
                     vel: Vec3, st: State): (g: Option<Hit>)
    ensures g.Some? ==> !water.AboveFeet() && cfg.minWalkCos <= g.value.normal.y
    ensures g.Some? ==> !(vel.y > cfg.ungroundSpeed && (st.grounded.None? || vel.y - st.platformVelocity.y > cfg.ungroundSpeed))
    ensures water.AboveFeet() ==> g.None?
  {
    if water.AboveFeet() then None
    else
      var rapid := vel.y > cfg.ungroundSpeed
                   && (st.grounded.None? || vel.y - st.platformVelocity.y > cfg.ungroundSpeed);
      if rapid then None
      else
        var dist := if st.platformVelocity.y < 0.0 then cfg.groundDistance - Mul(st.platformVelocity.y, dt)
                    else cfg.groundDistance;
        var hit := w.cast(shape, pos, Scale(Down, dist));
        if hit.Some? && hit.value.normal.y >= cfg.minWalkCos then hit else None
  }

  /**
    `calculate_platform_movement` for the collider `entity` touched at
    `point`: the platform's motion is recorded when the entity is a
    collider, and nothing changes otherwise.
  */
  function FollowPlatform(w: World, dt: real, st: State, entity: Entity, point: Vec3, pos: Vec3): (r: State)
    ensures r.(platformVelocity := st.platformVelocity, platformAngularVelocity := st.platformAngularVelocity) == st
    ensures w.collider(entity).None? ==> r == st
  {
    if w.collider(entity).Some? then
      var m := w.platformMotion(w.collider(entity).value, point, pos, dt);
      st.(platformVelocity := m.velocity, platformAngularVelocity := m.angularVelocity)
    else st
  }

  /**
    `set_grounded`'s new state: the platform motion of the ground being left
    (or else of the new ground) is recorded, the ground is replaced, and
    landing ends a mantle.
  */
  function Grounded(w: World, dt: real, st: State, pos: Vec3, g: Option<Hit>): (r: State)
    ensures r.grounded == g
    ensures g.Some? ==> r.mantle.None?
    ensures g.None? ==> r.mantle == st.mantle
    ensures r.(platformVelocity := st.platformVelocity, platformAngularVelocity := st.platformAngularVelocity,
               grounded := st.grounded, mantle := st.mantle) == st
  {
    var st1 :=
      if g.None? && st.grounded.Some? && w.collider(st.grounded.value.entity).Some? then
        FollowPlatform(w, dt, st, st.grounded.value.entity, st.grounded.value.point, pos)
      else if g.Some? then
        FollowPlatform(w, dt, st, g.value.entity, g.value.point, pos)
      else st;
    st1.(grounded := g, mantle := if g.Some? then None else st1.mantle)
  }

  // ---------------------------------------------------------------- ledges

  /** The horizontal direction a ledge probe looks in: the wish, or else the fallback. */
  function ProbeDirection(sqrt: real -> real, wish: Vec3, fallback: Vec3): (d: Option<Vec3>)
    ensures d.None? <==> wish == Zero && Flat(fallback) == Zero
    ensures wish != Zero ==> d == Some(NormalizeOrZero(sqrt, wish))
  {
    if wish != Zero then Some(NormalizeOrZero(sqrt, wish))
    else if Flat(fallback) != Zero then Some(NormalizeOrZero(sqrt, Flat(fallback)))
    else None
  }

  /**
    `available_ledge_height`: the height of a ledge in front of the
    character that it can climb onto and stand on, or None.
  */
  function LedgeHeight(w: World, cfg: Config, shape: Shape, pos: Vec3, vel: Vec3, wish: Vec3,
                       minDepth: real, minCos: real, maxHeight: real): Option<real>
  {
    var dir := ProbeDirection(w.sqrt, wish, vel);
    if dir.None? then None
    else
      var wall := w.cast(shape, pos, Scale(dir.value, minDepth));
      if wall.None? then None
      else
        var n := NormalizeOrZero(w.sqrt, Flat(wall.value.normal));
        if Dot(Neg(n), dir.value) < minCos then None
        else LedgeOver(w, cfg, shape, pos, n, minDepth, maxHeight)
  }

  /**
    The second half of `available_ledge_height`, facing a wall with
    horizontal normal `n`: rise, reach over the wall, measure the ledge
    below, and check there is room and walkable ground on top.
  */
  function LedgeOver(w: World, cfg: Config, shape: Shape, pos: Vec3, n: Vec3, minDepth: real, maxHeight: real)
    : Option<real>
  {
    var upDist := DistanceOr(w.cast(shape, pos, Scale(Up, maxHeight)), maxHeight);
    var over := Add(Add(pos, Scale(Up, upDist)), Scale(Neg(n), minDepth));
    var down := w.cast(shape, over, Scale(Down, upDist));
    if down.None? then None
    else
      var ledge := upDist - down.value.distance;
      var top := pos.(y := pos.y + ledge);
      if w.cast(shape, top, Scale(Neg(n), minDepth)).Some? then None
      else
        var land := w.cast(shape, Add(top, Scale(Neg(n), minDepth)), Scale(Down, ledge));
        if land.None? || land.value.normal.y < cfg.minWalkCos then None
        else Some(ledge)
  }

  /** A ledge found over a wall is between the feet and the probe's reach. */
  lemma {:induction false} LedgeOverWithinReach(w: World, cfg: Config, shape: Shape, pos: Vec3, n: Vec3,
                                                minDepth: real, maxHeight: real)
    requires w.CastsValid() && 0.0 <= maxHeight
    requires LedgeOver(w, cfg, shape, pos, n, minDepth, maxHeight).Some?
    ensures 0.0 <= LedgeOver(w, cfg, shape, pos, n, minDepth, maxHeight).value <= maxHeight
  {
    var up := w.cast(shape, pos, Scale(Up, maxHeight));
    VerticalLengthSq(maxHeight);
    DistanceWithin(up, maxHeight, Scale(Up, maxHeight));
    var upDist := DistanceOr(up, maxHeight);
    var over := Add(Add(pos, Scale(Up, upDist)), Scale(Neg(n), minDepth));
    var down := w.cast(shape, over, Scale(Down, upDist));
    VerticalLengthSq(upDist);
    assert HitWithin(down.value, Scale(Down, upDist));
    SquareMonotone(down.value.distance, upDist);
  }

  /** A ledge found by the probe is between the feet and the probe's reach. */
  lemma {:induction false} LedgeHeightWithinReach(w: World, cfg: Config, shape: Shape, pos: Vec3, vel: Vec3,
                                                  wish: Vec3, minDepth: real, minCos: real, maxHeight: real)
    requires w.CastsValid() && 0.0 <= maxHeight
    requires LedgeHeight(w, cfg, shape, pos, vel, wish, minDepth, minCos, maxHeight).Some?
    ensures 0.0 <= LedgeHeight(w, cfg, shape, pos, vel, wish, minDepth, minCos, maxHeight).value <= maxHeight
  {
    var dir := ProbeDirection(w.sqrt, wish, vel);
    var wall := w.cast(shape, pos, Scale(dir.value, minDepth));
    var n := NormalizeOrZero(w.sqrt, Flat(wall.value.normal));
    LedgeOverWithinReach(w, cfg, shape, pos, n, minDepth, maxHeight);
  }

  /** The hand probe's reach from the body to the wall. */
  function HandReach(cfg: Config, d: Derived, crouching: bool): real
  {
    d.Radius(crouching) + cfg.skinWidth + cfg.ledgeGrabHalfSize.z
  }

  /**
    `available_mantle_height`: the mantle that starts from here, as the
    height left to climb and what is reported about the wall, or None.
  */
  function MantleProbe(w: World, cfg: Config, d: Derived, crouching: bool, pos: Vec3, forward: Vec3,
                       wish: Vec3): (r: Option<(MantleState, MantleOutput)>)
    ensures r.Some? ==> 0.0 <= r.value.0.heightLeft
  {
    var shape := ActiveShape(crouching);
    var dir := ProbeDirection(w.sqrt, wish, forward);
    if dir.None? then None
    else
      var wall := w.cast(shape, pos, Scale(dir.value, cfg.maxLedgeGrabDistance));
      if wall.None? then None
      else
        var n := wall.value.normal;
        if Dot(Neg(n), dir.value) < cfg.minMantleCos then None
        else MantleOver(w, cfg, d, crouching, w.Depenetrated(shape, Add(pos, Scale(dir.value, wall.value.distance))), n)
  }

  /**
    The second half of `available_mantle_height`, at the wall (`wallPos`,
    normal `n`): reach over with the hands, measure the ledge, check room and
    walkable ground on top, and start the mantle when the ledge is not below
    the head's reach.
  */
  function MantleOver(w: World, cfg: Config, d: Derived, crouching: bool, wallPos: Vec3, n: Vec3)
    : (r: Option<(MantleState, MantleOutput)>)
    ensures r.Some? ==> 0.0 <= r.value.0.heightLeft && r.value.1.wallNormal == n
  {
    var upDist := DistanceOr(w.cast(Hands, wallPos, Scale(Up, cfg.mantleHeight)), cfg.mantleHeight);
    var reach := HandReach(cfg, d, crouching);
    var over := Add(Add(wallPos, Scale(Up, upDist)), Scale(Neg(n), reach));
    var down := w.cast(Hands, over, Scale(Down, upDist));
    if down.None? then None
    else
      var ledge := upDist - down.value.distance;
      var top := wallPos.(y := wallPos.y + ledge);
      if w.cast(Hands, top, Scale(Neg(n), reach)).Some? then None
      else
        var land := w.cast(Hands, Add(top, Scale(Neg(n), reach)), Scale(Down, ledge));
        if land.None? || land.value.normal.y < cfg.minWalkCos then None
        else
          var height := ledge - d.PosToHeadDist(crouching) + cfg.climbPullUpHeight;
          if height < 0.0 then None
          else Some((MantleState(height), MantleOutput(n, land.value.point, land.value.entity)))
  }

  /** A mantle reports the wall it found: a unit normal. */
  lemma {:induction false} MantleProbeWallUnit(w: World, cfg: Config, d: Derived, crouching: bool, pos: Vec3,
                                               forward: Vec3, wish: Vec3)
    requires w.CastsValid()
    requires MantleProbe(w, cfg, d, crouching, pos, forward, wish).Some?
    ensures LengthSq(MantleProbe(w, cfg, d, crouching, pos, forward, wish).value.1.wallNormal) == 1.0
  {
    var dir := ProbeDirection(w.sqrt, wish, forward);
    var wall := w.cast(ActiveShape(crouching), pos, Scale(dir.value, cfg.maxLedgeGrabDistance));
    assert HitWithin(wall.value, Scale(dir.value, cfg.maxLedgeGrabDistance));
  }

  /** Over a given wall, the mantle height found is bounded by the hand probe's reach above it. */
  lemma {:induction false} MantleOverBounded(w: World, cfg: Config, d: Derived, crouching: bool, wallPos: Vec3, n: Vec3)
    requires w.CastsValid() && 0.0 <= cfg.mantleHeight
    requires MantleOver(w, cfg, d, crouching, wallPos, n).Some?
    ensures MantleOver(w, cfg, d, crouching, wallPos, n).value.0.heightLeft
            <= cfg.mantleHeight - d.PosToHeadDist(crouching) + cfg.climbPullUpHeight
  {
    var up := w.cast(Hands, wallPos, Scale(Up, cfg.mantleHeight));
    VerticalLengthSq(cfg.mantleHeight);
    DistanceWithin(up, cfg.mantleHeight, Scale(Up, cfg.mantleHeight));
    var upDist := DistanceOr(up, cfg.mantleHeight);
    var over := Add(Add(wallPos, Scale(Up, upDist)), Scale(Neg(n), HandReach(cfg, d, crouching)));
    var down := w.cast(Hands, over, Scale(Down, upDist));
    assert HitWithin(down.value, Scale(Down, upDist));
  }

  /** Whatever wall the forward probe finds, the mantle height it starts with obeys the same bound. */
  lemma {:induction false} MantleProbeBounded(w: World, cfg: Config, d: Derived, crouching: bool, pos: Vec3,
                                              forward: Vec3, wish: Vec3)
    requires w.CastsValid() && 0.0 <= cfg.mantleHeight
    requires MantleProbe(w, cfg, d, crouching, pos, forward, wish).Some?
    ensures MantleProbe(w, cfg, d, crouching, pos, forward, wish).value.0.heightLeft
            <= cfg.mantleHeight - d.PosToHeadDist(crouching) + cfg.climbPullUpHeight
  {
    var shape := ActiveShape(crouching);
    var dir := ProbeDirection(w.sqrt, wish, forward);
    var wall := w.cast(shape, pos, Scale(dir.value, cfg.maxLedgeGrabDistance));
    MantleOverBounded(w, cfg, d, crouching, w.Depenetrated(shape, Add(pos, Scale(dir.value, wall.value.distance))),
                      wall.value.normal);
  }

  // ---------------------------------------------------------------- tic-tac and walls

  /** `handle_tac`'s wall: the hit along this tick's velocity, else along the wish. */
  function TacWall(w: World, shape: Shape, pos: Vec3, vel: Vec3, wish: Vec3, dt: real): Option<Vec3>
  {
    var a := w.cast(shape, pos, Scale(vel, dt));
    if a.Some? then Some(a.value.normal)
    else
      var b := w.cast(shape, pos, Scale(wish, dt));
      if b.Some? then Some(b.value.normal) else None
  }

  /** The tic-tac wall, when found, has a unit normal; there is none when neither cast hits. */
  lemma TacWallUnit(w: World, shape: Shape, pos: Vec3, vel: Vec3, wish: Vec3, dt: real)
    requires w.CastsValid()
    ensures var n := TacWall(w, shape, pos, vel, wish, dt);
            && (n.Some? ==> LengthSq(n.value) == 1.0)
            && (n.None? <==> w.cast(shape, pos, Scale(vel, dt)).None? && w.cast(shape, pos, Scale(wish, dt)).None?)
  {
    var a := w.cast(shape, pos, Scale(vel, dt));
    if a.Some? {
      assert HitWithin(a.value, Scale(vel, dt));
    } else {
      var b := w.cast(shape, pos, Scale(wish, dt));
      if b.Some? {
        assert HitWithin(b.value, Scale(wish, dt));
      }
    }
  }

  /** Every condition `handle_tac` checks before it changes anything. */
  predicate TacAllowed(w: World, cfg: Config, dt: real, c: Ctx, wish: Vec3)
  {
    && c.state.mantle.None?
    && c.input.tac.Some? && c.input.tac.value <= cfg.tacInputBuffer
    && LengthSq(wish) >= 0.1 && c.state.lastTac >= cfg.tacCooldown
    && var n := TacWall(w, ActiveShape(c.state.crouching), c.translation, c.velocity, wish, dt);
       n.Some? && n.value.y >= -0.01 && -Dot(NormalizeOrZero(w.sqrt, wish), n.value) <= cfg.maxTacCos
  }

  /** Every condition `handle_ledge_jump_dir` checks before it changes anything. */
  predicate LedgeJumpAllowed(cfg: Config, c: Ctx)
  {
    && c.state.mantle.Some?
    && !(c.input.mantled.Some? && c.input.mantled.value < cfg.mantleInputBuffer)
    && c.input.jumped.Some?
    && Flat(c.state.orientation.forward) != Zero
  }

  /** `closest_wall_normal`'s fold: a wall contact (not walkable) with the least penetration, the last among equals. */
  function ClosestWall(cs: seq<Contact>, minWalkCos: real): Option<Contact>
  {
    if cs == [] then None
    else
      var prev := ClosestWall(cs[..|cs| - 1], minWalkCos);
      var c := cs[|cs| - 1];
      if Abs(c.normal.y) < minWalkCos && !(prev.Some? && prev.value.penetration < c.penetration) then Some(c)
      else prev
  }

  predicate IsWallContact(c: Contact, minWalkCos: real) { Abs(c.normal.y) < minWalkCos }

  /**
    The closest wall is a wall contact of the list with no wall contact less
    penetrating; there is none exactly when the list has no wall contact.
  */
  lemma {:induction false} ClosestWallIsLeastPenetrating(cs: seq<Contact>, minWalkCos: real)
    ensures var r := ClosestWall(cs, minWalkCos);
            && (r.None? <==> forall i :: 0 <= i < |cs| ==> !IsWallContact(cs[i], minWalkCos))
            && (r.Some? ==> r.value in cs && IsWallContact(r.value, minWalkCos))
            && (r.Some? ==> forall i :: 0 <= i < |cs| && IsWallContact(cs[i], minWalkCos) ==>
                              r.value.penetration <= cs[i].penetration)
  {
    if cs != [] {
      var init := cs[..|cs| - 1];
      ClosestWallIsLeastPenetrating(init, minWalkCos);
      assert forall i :: 0 <= i < |init| ==> init[i] == cs[i];
      assert cs == init + [cs[|cs| - 1]];
    }
  }
}
