# bevy_ahoy character controller, modelled in Dafny

bevy_ahoy is a kinematic character controller (KCC) for the Bevy engine on
the avian3d physics engine, with movement in the style of the Source
engine. A controller is not moved by the physics solver. Once per fixed step,
`run_kcc` does the following:

- It reads the input accumulated since the last fixed step.
- It depenetrates the character and decides whether it stands on walkable
  ground.
- It crouches or stands up, and applies half of gravity.
- It settles the two ledge-climbing states: a crane (a quick vault onto a
  ledge) and a mantle (a slower climb with the hands).
- It picks one movement mode: crane, mantle, ground, air or water. In the
  air it can jump, tic-tac (kick off a wall) or jump off a ledge.
- It grounds the character again, may climb down backwards off a ledge,
  and applies the other half of gravity.

Around that core:

- Input observers accumulate per-frame input.
- A water system measures how deep every object is in water.
- A hook derives the crouching collider when a controller is added.
- A first-person camera follows the character's eye.
- Dynamic bodies the character touched are pushed.
- Held props are excluded from the character's collision queries.
- In the playground example, trains follow path corners.

Modelling conventions:

- `f32` becomes `real`.
- The square root is a function parameter `sqrt`, with `IsSqrt(sqrt)` as
  its contract.
- Everything the physics engine answers is an oracle field of
  `KccTypes.World`. This covers shape casts, depenetration,
  move-and-slide, intersections, overlaps, friction lookups and platform
  motion. `World.Valid()` states what is assumed of those answers: casts
  report distances within the request, and normals are unit vectors.

Modules:

- `Kcc.Controller` is the controller as an object. Its fields are the
  components `run_kcc` updates in place. Every method is proved to leave
  `Snapshot()` equal to the matching step function of `KccSteps`, applied
  to the state before it.
- `KccSteps`, `KccProbes` and `KccMath` hold those step functions, the
  collision probes and the arithmetic, with the lemmas about them.

| file | source |
|---|---|
| wrappers.dfy, vecmath.dfy | Option, Entity, glam's vector operations |
| kcc_types.dfy | the components `run_kcc` reads and writes, and the collision service |
| kcc_math.dfy, kcc_probes.dfy, kcc_steps.dfy, kcc.dfy | src/kcc.rs |
| water.dfy | src/water.rs |
| input.dfy | src/input.rs |
| lib.dfy | src/lib.rs (the controller's defaults, the `on_add` hook, `CharacterControllerState::collider`) |
| pickup_glue.dfy | src/pickup_glue.rs |
| dynamics.dfy | src/dynamics.rs |
| camera.dfy | src/camera.rs |
| playground.dfy | examples/playground.rs (`move_trains`) |

## Model

| member | source | states |
|---|---|---|
| Kcc.Controller.RunKcc | src/kcc.rs:60-155 | One tick changes the character exactly as `KccSteps.Tick` says. It ends with a grounded character moving vertically with its platform, with `last_ground` restarted and no mantle. An airborne character is no faster than `max_speed`. |
| Kcc.Controller.Prepare | src/kcc.rs:75-95 | The start of a tick, in the order the source runs it: outputs are cleared, the four stopwatches advance by `dt`, the character depenetrates and is grounded, crouches, gets half of gravity unless above the feet in water, and looks along the camera's orientation. |
| Kcc.Controller.Movement | src/kcc.rs:100-131 | The movement mode chosen in order: crane, then mantle (after a possible ledge jump), else jump, friction, validation, and water, ground or air movement. |
| Kcc.Controller.Settle | src/kcc.rs:133-145 | After movement: ground again; climb down only if the character was grounded before; validate; finish gravity unless above the feet in water. |
| KccSteps.TickPostconditions | src/kcc.rs:133-152 | For every tick, a grounded result has `velocity.y == platform_velocity.y`, `last_ground == 0` and no mantle; an airborne result has speed at most `max_speed`. |
| KccSteps.BeginTick | src/kcc.rs:76-81 | The touching list and the mantle output are emptied, all four stopwatches advance by exactly `dt`, and nothing else changes. |
| KccSteps.Prepare | src/kcc.rs:75-95 | After preparation the input is kept, the outputs are empty and all four stopwatches are `dt` further on. The character stands at the depenetrated position. A grounded character stands on walkable ground and is not mantling, and water above the feet means no ground. Out of water the platform's vertical speed has been handed over. The character crouches exactly when asked to, or when it was crouching and standing up would overlap something solid. The orientation is the one looked along. |
| KccSteps.PreparedSpeed | src/kcc.rs:87-90 | Out of water, the prepared velocity is at most `max_speed`, since the first half of gravity ends in validation. |
| KccSteps.Settle | src/kcc.rs:133-145 | Once settled, a grounded character has no mantle. |
| KccSteps.SettledSpeed | src/kcc.rs:137-143 | After settling, the speed is at most `max_speed`. Gravity's second half is itself followed by validation. |
| Kcc.Controller.DepenetrateCharacter | src/kcc.rs:157-166 | The translation moves by the depenetration the collision service gives for the active collider, and nothing else changes. |
| KccSteps.DepenetrateCharacter | src/kcc.rs:157-166 | Depenetration changes only the translation. |
| Kcc.Controller.MoveCharacter | src/kcc.rs:870-893 | Move-and-slide sets the position and velocity. The hits are appended to the touching list, and the tac energy decays by 1% and gains the speed lost. |
| KccSteps.MoveCharacter | src/kcc.rs:870-893 | A slide keeps the input and the mantle output, changes no state but the tac energy, and only appends to the touching list: the old list is a prefix of the new one. |
| KccSteps.MoveCharacterKeepsTac | src/kcc.rs:888-890 | A slide never makes a non-negative tac energy negative. |
| KccMath.TacEnergyFacts | src/kcc.rs:888-890 | The tac energy `0.99 tac + lost` stays non-negative. A slide that loses no speed only decays it. |
| Kcc.Controller.Accelerate | src/kcc.rs:201-216 | `ground_accelerate`, `air_accelerate` and `water_accelerate` change only the velocity, to `KccMath.Accelerated`. |
| KccMath.AccelerateAlongWish | src/kcc.rs:227-244 | Acceleration adds only along the wish direction. It never raises the speed along it beyond the target (the air cap in the air), never lowers it, and raises it whenever the target is not reached and the rate is positive. A velocity already at the target is left alone. |
| KccMath.AccelerateKeepsPerpendicular | src/kcc.rs:201-216 | Every component of the velocity perpendicular to the wish direction is kept. |
| Kcc.Controller.GroundMove | src/kcc.rs:168-199 | Ground movement is exactly `KccSteps.GroundMove`: horizontal acceleration, riding the platform, a direct move or a step move, then a snap to the ground. Its properties are those of `KccSteps.GroundMoveFacts`. |
| KccSteps.GroundMoveFacts | src/kcc.rs:168-199 | Below 0.01 m/s, counting the platform, the move only sets the velocity to minus the platform velocity and changes nothing else. Otherwise the input, reported mantle, ground, crouch, crane and mantle states are kept, and only the tac energy and step timers of the state may change. When nothing is in the way, the character's own velocity is the horizontal ground-accelerated one, the platform's velocity having been added for the move and taken off again. |
| Kcc.Controller.AirMove | src/kcc.rs:218-225 | Air movement is exactly `KccSteps.AirMove`: capped air acceleration, then a step move riding the platform. |
| Kcc.Controller.WaterMove | src/kcc.rs:246-269 | Water movement is exactly `KccSteps.WaterMove`. The swim-up input is consumed, the water wish is accelerated towards, and then comes a step move. |
| KccMath.WaterWish | src/kcc.rs:252-261 | When the capped wish is zero, the character sinks at `water_gravity`; otherwise it swims along the capped wish. Either way the result is scaled by `water_slowdown`. |
| KccMath.WaterWishBounded | src/kcc.rs:252-261 | Swimming, up and forward together included, is never faster than `speed * water_slowdown`. |
| Kcc.Controller.Friction | src/kcc.rs:1085-1131 | Friction changes only the velocity, to `KccSteps.Friction`. |
| KccMath.SurfaceFriction | src/kcc.rs:1104-1120 | The coefficient is looked up from the ground collider, then its body, then `DefaultFriction`. With no ground it is `Friction::default()`. It is non-negative when the lookups are. |
| KccMath.FrictionNewSpeed | src/kcc.rs:1122-1126 | The new speed is never negative, and never above the old one. |
| KccMath.FrictionIsScaling | src/kcc.rs:1085-1131 | Friction scales the velocity by a factor in [0, 1]. It does nothing to an airborne character out of water, or to one slower than 0.001. |
| KccMath.FrictionOnlySlows | src/kcc.rs:1085-1131 | Friction never increases the speed and never turns the velocity around. |
| KccSteps.FrictionStepSlows | src/kcc.rs:1085-1131 | The same holds for the friction step with the current ground's coefficient. |
| Kcc.Controller.ValidateVelocity | src/kcc.rs:1265-1276 | Validation changes only the velocity, to `KccSteps.ValidateVelocity`. |
| KccSteps.ValidateVelocity | src/kcc.rs:1275 | A velocity within `max_speed` is kept. Only the velocity changes. |
| KccSteps.ValidatedSpeed | src/kcc.rs:1275 | After validation the speed is at most `max_speed`. A faster velocity keeps its direction and is cut to exactly `max_speed`. |
| KccMath.Sanitized | src/kcc.rs:1266-1274 | A non-finite component becomes 0, and a finite one is kept. |
| KccMath.Sanitize | src/kcc.rs:1266-1274 | The component loop leaves every component finite, equal to the sanitised old one. |
| Kcc.Controller.StartGravity | src/kcc.rs:1253-1258 | The first half-step of gravity, as `KccSteps.StartGravity`. |
| KccSteps.StartGravity | src/kcc.rs:1253-1258 | The platform's vertical speed is handed to the character: the state changes only in `platform_velocity.y := 0`. Translation, input and output are kept. |
| Kcc.Controller.FinishGravity | src/kcc.rs:1260-1263 | The second half-step of gravity, as `KccSteps.FinishGravity`. |
| KccSteps.FinishGravity | src/kcc.rs:1260-1263 | Only the velocity changes. |
| KccSteps.StartGravityHalfStep | src/kcc.rs:1253-1258 | The vertical speed becomes `v.y + (platform.y - gravity / 2) * dt`. It is kept exactly when within `max_speed`, and in every case the result is at most `max_speed`. |
| KccSteps.FinishGravityHalfStep | src/kcc.rs:1260-1263 | The vertical speed becomes `v.y - gravity / 2 * dt`. It is kept exactly when within `max_speed`, and in every case the result is at most `max_speed`. |
| KccSteps.GravityHalvesMakeAStep | src/kcc.rs:1253-1263 | When neither half is cut by `max_speed`, the two halves together change only the vertical speed, by `(platform.y - gravity) * dt`: one whole step of gravity plus the platform's vertical speed. |
| Kcc.Controller.StepMove | src/kcc.rs:288-356 | The step move is exactly `KccSteps.StepMove`. |
| Kcc.Controller.StepUp | src/kcc.rs:326-356 | The raised half of `step_move` is exactly `KccSteps.StepUp`. |
| KccSteps.StepMoveKeepsFurther | src/kcc.rs:288-356 | The result is never horizontally closer than the direct slide. It is the direct slide, with that slide's velocity and contacts, unless the step-up probe landed on walkable ground strictly further away. Only that case resets `last_step_up`. Nothing else but velocity, translation, touches and tac energy changes. |
| Kcc.Controller.SnapToGround | src/kcc.rs:895-926 | The snap is exactly `KccSteps.SnapToGround`. |
| KccProbes.SnapOnlyDown | src/kcc.rs:895-926 | A snap moves the character straight down, by more than nothing and by at most one `step_size`. |
| Kcc.Controller.CalculatePlatformMovement | src/kcc.rs:1052-1083 | Only the platform's linear and angular velocity are recorded. |
| KccProbes.FollowPlatform | src/kcc.rs:1052-1083 | The platform motion is recorded only for a collider, and nothing else in the state changes. |
| Kcc.Controller.SetGrounded | src/kcc.rs:1022-1050 | Setting the ground is exactly `KccSteps.SetGrounded`. |
| KccSteps.SetGrounded | src/kcc.rs:1022-1050 | The ground is replaced. Landing zeroes the vertical speed and ends a mantle; leaving the ground keeps both. Translation, input and output are kept. |
| KccProbes.Grounded | src/kcc.rs:1022-1050 | The platform motion recorded is that of the ground left (else of the new ground). Otherwise only `grounded` and the mantle change. |
| Kcc.Controller.UpdateGrounded | src/kcc.rs:952-992 | Grounding is exactly `KccSteps.UpdateGrounded`. |
| KccProbes.NewGround | src/kcc.rs:952-992 | There is no ground above the feet in water, or while moving up faster than `unground_speed` (relative to the platform when grounded). Ground that is found is walkable. |
| KccSteps.UpdateGrounded | src/kcc.rs:952-992 | A grounded result stands on walkable ground, has no vertical speed and no mantle. Being above the feet in water ungrounds. |
| Kcc.Controller.IsIntersecting | src/kcc.rs:1329-1349 | The loop answers true exactly when some overlapping entity is not water. |
| Kcc.Controller.HandleCrouching | src/kcc.rs:1318-1327 | Crouching is exactly `KccSteps.HandleCrouching`. |
| KccSteps.HandleCrouching | src/kcc.rs:1318-1327 | The character crouches exactly when crouch was input, or it was crouching and the standing collider would overlap something solid. Nothing else changes. |
| KccMath.WishVelocity | src/kcc.rs:1278-1298 | The wish is horizontal, and zero without stick input. |
| KccMath.WishVelocitySpeed | src/kcc.rs:1278-1298 | The wish is zero or exactly the walking speed (scaled down while crouching). |
| KccMath.WishVelocity3d | src/kcc.rs:1300-1316 | The 3D wish is zero without stick input, and horizontal for a horizontal look frame. |
| KccMath.WishVelocity3dSpeed | src/kcc.rs:1300-1316 | The 3D wish is zero or exactly the walking speed. |
| KccMath.HorizontalFrame | src/kcc.rs:1280-1286 | The flattened look frame has no vertical part. |
| KccMath.Combine | src/kcc.rs:1288 | `m.y * forward + m.x * right` is horizontal for a horizontal frame, and zero for a zero stick. |
| KccMath.ScaledDirection | src/kcc.rs:1289-1297 | A normalised-or-zero direction times `s` has length 0 or `abs(s)`, and keeps a zero vertical part. |
| Kcc.Controller.AvailableLedgeHeight | src/kcc.rs:565-663 | The probe moves the character and puts it back: the snapshot is unchanged. The height is `KccProbes.LedgeHeight`. |
| Kcc.Controller.LedgeOverWall | src/kcc.rs:606-663 | The second half of the ledge probe restores the snapshot, and the height is `KccProbes.LedgeOver`. |
| KccProbes.ProbeDirection | src/kcc.rs:577-584 | The probe looks along the wish, else the flattened velocity or forward vector. There is no direction exactly when both are zero. |
| KccProbes.LedgeHeightWithinReach | src/kcc.rs:565-663 | A ledge that is found lies between the feet and the probe's reach. |
| KccProbes.LedgeOverWithinReach | src/kcc.rs:606-663 | Over a given wall, the ledge found lies between the feet and the reach. |
| Kcc.Controller.UpdateCraneState | src/kcc.rs:519-563 | The crane update is exactly `KccSteps.UpdateCraneState`, with `available_crane_height` as the ledge probe at crane settings. |
| KccSteps.UpdateCraneState | src/kcc.rs:519-563 | A crane that is started ends any mantle and consumes the crane, jump, mantle and tac inputs. Position, velocity and output are kept. |
| Kcc.Controller.AvailableMantleHeight | src/kcc.rs:701-822 | The mantle probe restores the snapshot, and the result is `KccProbes.MantleProbe`. |
| Kcc.Controller.MantleOverWall | src/kcc.rs:740-822 | The hand probe over the wall restores the snapshot, and the result is `KccProbes.MantleOver`. |
| KccProbes.MantleProbe | src/kcc.rs:701-822 | A mantle that is found has a non-negative height left. |
| KccProbes.MantleOver | src/kcc.rs:740-822 | It also reports the wall's normal. |
| KccProbes.MantleProbeWallUnit | src/kcc.rs:701-822 | The reported wall normal is a unit vector. |
| KccProbes.MantleOverBounded | src/kcc.rs:740-822 | The height left is at most `mantle_height - pos_to_head + climb_pull_up_height`. |
| KccProbes.MantleProbeBounded | src/kcc.rs:701-822 | The same bound holds for any wall the forward probe finds. |
| Kcc.Controller.UpdateMantleState | src/kcc.rs:665-699 | The mantle update is exactly `KccSteps.UpdateMantleState`. |
| KccSteps.UpdateMantleState | src/kcc.rs:665-699 | A crane always wins: with a crane going there is no mantle. A running mantle is kept or cleared, never replaced. Position and velocity are kept. |
| Kcc.Controller.HandleCraneMovement | src/kcc.rs:358-437 | Crane movement is exactly `KccSteps.HandleCraneMovement`. |
| Kcc.Controller.Rise | src/kcc.rs:399-437 | The rising part is exactly `KccSteps.CraneRise`. |
| KccSteps.CraneOnto | src/kcc.rs:417-437 | Moving onto the ledge either ends the crane or, when blocked with height left, changes nothing. |
| KccSteps.CraneHeightShrinks | src/kcc.rs:358-437 | The crane height left only shrinks and stays positive. Once nothing is left, the crane has ended. |
| Kcc.Controller.ClosestWallNormal | src/kcc.rs:928-950 | The contact loop returns exactly `KccSteps.ClosestWallNormal`. |
| KccSteps.ClosestWallNormal | src/kcc.rs:928-950 | A wall is reported exactly when some contact within reach is a wall (not walkable), and what is reported is one of those contacts. |
| KccProbes.ClosestWallIsLeastPenetrating | src/kcc.rs:928-950 | The wall kept is a wall contact with no wall contact less penetrating. There is none exactly when no contact is a wall. |
| Kcc.Controller.HandleMantleMovement | src/kcc.rs:439-505 | Mantle movement is exactly `KccSteps.HandleMantleMovement`. |
| Kcc.Controller.Climb | src/kcc.rs:478-505 | The climbing part is exactly `KccSteps.ClimbMantle`. |
| KccSteps.MantleHeightBounded | src/kcc.rs:439-505 | The height left stays between 0 and the larger of the previous height and `mantle_height - min_ledge_grab_space.y`. |
| KccMath.MantleClimb | src/kcc.rs:481-488 | The requested climb leaves at most `mantle_height - min_ledge_grab_space.y` to go, and never asks for more than is left. |
| KccMath.TravelWithinRequest | src/kcc.rs:490-492 | The cast climb travels no further than requested, and in the same direction. |
| KccMath.ClimbFactor | src/kcc.rs:507-517 | The climb factor is in [-1, 1], and zero without a wish. |
| KccMath.ClimbStrength | src/kcc.rs:507-517 | The unsigned factor is clamped to [-1, 1]. |
| KccMath.ClimbFactorOdd | src/kcc.rs:507-517 | Pulling back climbs down exactly as hard as pushing forward climbs up. |
| Kcc.Controller.HandleClimbdown | src/kcc.rs:824-868 | Climbing down is exactly `KccSteps.HandleClimbdown`. |
| KccSteps.HandleClimbdown | src/kcc.rs:824-868 | A grounded character never climbs down. Otherwise nothing changes, or the character drops by exactly `crane_height` into a mantle that is reported, and the climb-down input is consumed. |
| Kcc.Controller.HandleTac | src/kcc.rs:1133-1177 | The tic-tac is exactly `KccSteps.HandleTac`, push included. |
| KccSteps.HandleTac | src/kcc.rs:1133-1177 | A push is returned exactly when every condition the source checks holds. Without one, nothing changes. With one, only the velocity changes and the tac energy becomes 0. |
| KccProbes.TacWallUnit | src/kcc.rs:1149-1158 | The tic-tac wall has a unit normal. There is none exactly when neither cast hits. |
| KccSteps.TacBounded | src/kcc.rs:1169-1176 | The push is never stronger than `tac_power`. |
| KccMath.TacDirectionUnit | src/kcc.rs:1173-1175 | The launch direction is a unit vector or zero. |
| KccMath.Groundedness | src/kcc.rs:1171 | The granted fraction is at most 1, and non-negative for non-negative tac energy. |
| KccMath.ImpulseBound | src/kcc.rs:1171-1176 | A unit direction scaled by a fraction in [0, 1] and then by `p` is no longer than `p`. |
| KccSteps.TacLeavesWall | src/kcc.rs:1169-1170 | After a tic-tac the velocity no longer points into the wall. |
| KccMath.CancelIntoWallLeavesWall | src/kcc.rs:1169-1170 | Cancelling leaves no component into the wall, and keeps a velocity that was already leaving it. |
| KccMath.CancelIntoWallKeepsAlong | src/kcc.rs:1169-1170 | Cancelling keeps every component along the wall. |
| Kcc.Controller.HandleLedgeJumpDir | src/kcc.rs:1179-1199 | The ledge jump is exactly `KccSteps.HandleLedgeJumpDir`. |
| KccSteps.HandleLedgeJumpDir | src/kcc.rs:1179-1199 | A push is returned exactly when the source's conditions hold, and it ends the mantle. Otherwise nothing changes. |
| KccSteps.LedgeJumpPower | src/kcc.rs:1179-1199 | The push has exactly the length `ledge_jump_power`, and points straight down when the stick pulls back. |
| KccMath.LedgeJumpDirection | src/kcc.rs:1192-1196 | Pulling back gives straight down. |
| KccMath.LedgeJumpDirectionUnit | src/kcc.rs:1190-1196 | For a horizontal unit forward vector, the direction is a unit vector. |
| Kcc.Controller.HandleJump | src/kcc.rs:1201-1251 | The jump is exactly `KccSteps.HandleJump`. |
| Kcc.Controller.Launch | src/kcc.rs:1229-1248 | The common end of a jump is exactly `KccSteps.Launch`. |
| KccSteps.Launch | src/kcc.rs:1229-1248 | The jump and tac inputs are consumed and `last_tac` restarts. Nothing else in the state, translation or output changes. |
| KccSteps.JumpConsumesInput | src/kcc.rs:1201-1251 | A jump changes nothing, or consumes the jump and tac inputs and restarts the tac cooldown. |
| KccSteps.GroundJumpLaunchesUp | src/kcc.rs:1219-1244 | A buffered ground or coyote jump ungrounds the character and sets `last_ground` to the coyote time. It adds exactly `sqrt(2 g h)`, plus the platform's vertical speed, upwards, and keeps the horizontal velocity. |
| KccSteps.GroundJumpOnce | src/kcc.rs:1225-1227 | A ground jump cannot repeat at once: the jump step run on its own result changes nothing. |
| KccMath.JumpSpeedReachesHeight | src/kcc.rs:1236-1243 | The launch speed is non-negative with square `2 g h`, so the jump peaks at `jump_height`. |
| KccMath.CraneChainTick | src/kcc.rs:1245-1248 | The chain tick is `crane_input_buffer - jump_crane_chain_time` when that is non-negative, else 0. It equals the tick as written wherever that one does not panic. |
| KccMath.CraneChainTickAsWritten | src/kcc.rs:1247 | The `Duration` subtraction panics exactly when the chain time exceeds the buffer, and otherwise gives the non-negative difference (see Findings). |
| KccMath.CraneChainTickAsWrittenPanics | src/kcc.rs:1247 | A chain time longer than the crane buffer makes the subtraction panic. |
| Water.MaxLevel | src/water.rs:10-16 | `Ord::max` on the declared order: one of the two levels, ranked at least as high as both. |
| Water.VolumesAmong | src/water.rs:40 | `iter_many` yields exactly the colliding entities that are water volumes, in order. |
| Water.ImmersionLevel | src/water.rs:36-49 | The level is the deepest any overlapping volume gives. It is None exactly without volumes, and Center exactly when some volume contains the object's origin. |
| Water.ImmersionSpeed | src/water.rs:36-49 | The speed is the least speed among the volumes, or `f32::MAX` without water. |
| Water.OverlapsWater | src/water.rs:36-49 | An object is in water exactly when one of its colliding entities is a water volume. |
| Water.ObjectImmersion | src/water.rs:37-49 | For one object, starting from no water and `f32::MAX`, the loop over its colliding volumes leaves exactly `Immersion` of those volumes at its waist. |
| Water.UpdateWater | src/water.rs:32-51 | Every object's state is reset and then folded over its volumes, giving exactly `Immersion`. |
| Input.InputSystem.ApplyMovement | src/input.rs:64-71 | The entity's accumulator records the latest movement. An entity without one is ignored, and no message is written. |
| Input.InputSystem.ApplyJump | src/input.rs:73-77 | The jump buffer restarts at 0. |
| Input.InputSystem.ApplyCrouch | src/input.rs:79-83 | Crouch is latched. |
| Input.InputSystem.ApplyPickup | src/input.rs:85-131 | Pull, drop and throw each append exactly one message. Its actor is the controller's camera when it has one, else the context entity. No accumulator changes. |
| Input.InputSystem.ClearAccumulatedInput | src/input.rs:133-141 | After a frame in which a fixed step ran, every accumulator forgets movement and crouch and keeps its jump buffer. Otherwise nothing changes. |
| Input.InputSystem.TickTimers | src/input.rs:143-149 | Every filled jump buffer ages by the frame time, and nothing else changes. |
| Input.MovementIsLatest | src/input.rs:52-71 | Between clears, the movement is the latest one input, else the earlier one. |
| Input.CrouchLatches | src/input.rs:52-83 | Between clears, crouch is requested exactly when some frame asked for it, or it already was. |
| Input.JumpBuffered | src/input.rs:52-77 | Whatever the events, the jump buffer is filled exactly when it was before or a jump was input. Clears keep it. |
| Input.JumpBufferAge | src/input.rs:73-77 | After a jump input, the buffer holds exactly the frame time ticked since. |
| ControllerSetup.ShapeHeight | src/lib.rs:181-182 | A well-formed shape has a non-negative height. |
| ControllerSetup.Height | src/lib.rs:181-182 | A well-formed collider has a non-negative height. |
| ControllerSetup.DefaultTunables | src/lib.rs:128-160 | The defaults nest: crouching eye < crouch height < standing eye < the default cylinder's height. Speeds, rates, the slope limit and the ground distance are in range. |
| ControllerSetup.DefaultCrouchFits | src/lib.rs:128-212 | With the defaults, the crouching collider is exactly 1.3 high, keeps the cylinder's feet, and contains the crouching eye. |
| ControllerSetup.ControllerEntity.OnAdd | src/lib.rs:163-213 | The entity always excludes itself from its own queries. With a collider and a state, the spawned collider becomes the standing one and the crouching one is derived from it, with a capsule's crouch half-height corrected as Findings describes. A missing component ends the hook where the source looks it up. |
| ControllerSetup.CrouchingColliderFits | src/lib.rs:187-212 | For an unscaled standing collider, the crouching collider is exactly `crouch_height` high, and its lowest point is the standing collider's lowest point. For a capsule this holds for the corrected half-height (when the caps fit), not for the source's, which Findings shows to be `radius` too tall. |
| ControllerSetup.CapsuleCrouchHalfHeight | src/lib.rs:195-203 | The corrected half-height is never negative. |
| ControllerSetup.CapsuleCrouchFits | src/lib.rs:195-203 | The corrected capsule is exactly `crouch_height` high when its caps fit, else exactly its two caps. |
| ControllerSetup.CapsuleCrouchAsWrittenTooTall | src/lib.rs:201-202 | As written, the crouching capsule is `crouch_height + radius` high: taller than asked. |
| ControllerSetup.CapsuleCrouchAsWrittenExample | src/lib.rs:201-202 | Crouch height 1.3 with radius 0.4 gives a 1.7 high crouching capsule. |
| ControllerSetup.ActiveColliderHeight | src/lib.rs:230-238 | The active collider is as high as the spawned collider while standing, and `crouch_height` high while crouching. For a capsule the crouching height holds for the corrected half-height of Findings; the source's capsule is `radius` taller. |
| Camera.Synced | src/camera.rs:35-51 | Only a camera following a controller moves, and it moves to the eye. The rotation and the relation are kept. A camera that is itself a controller is skipped. |
| Camera.EyeFacts | src/camera.rs:36-50 | The eye is straight above the origin, the (crouching or standing) view height above the feet of the spawned collider. The crouching collider plays no part. |
| Camera.SyncCameraTransform | src/camera.rs:25-53 | Every camera ends exactly as `Synced` says. |
| PickupGlue.Excluding | src/pickup_glue.rs:30 | The exclusions become the old ones plus exactly the prop's colliders. |
| PickupGlue.Readmitting | src/pickup_glue.rs:48-50 | The exclusions become the old ones minus exactly the prop's colliders. |
| PickupGlue.PickupThenRelease | src/pickup_glue.rs:15-51 | Picking a prop up and releasing it restores the exclusions, less the prop's colliders. They are restored exactly when none was excluded before. |
| PickupGlue.Glue.FilterOutPickedUpProp | src/pickup_glue.rs:15-31 | If actor, controller and prop resolve, only that controller's exclusions change: the prop's colliders are added. Otherwise nothing changes. |
| PickupGlue.Glue.FilterInUnpickedProp | src/pickup_glue.rs:33-51 | If all three resolve, only that controller's exclusions change, by removing the colliders one by one. Otherwise nothing changes. |
| Dynamics.TouchImpulseFacts | src/dynamics.rs:37-40 | The impulse lies along the contact normal and vanishes without approach. For a unit normal, its push into the body is the mass times the approach speed. |
| Dynamics.ApplyTouch | src/dynamics.rs:26-42 | Only the dynamic body the contact's collider belongs to can change. No body appears or disappears. |
| Dynamics.ApplyTouchesFrame | src/dynamics.rs:25-43 | Over all of one controller's contacts, only the dynamic bodies it touched change. |
| Dynamics.PhysicsWorld.ApplyForces | src/dynamics.rs:18-45 | The bodies end exactly as `ApplyKccs` says: every contact of every controller in order, each impulse seeing the velocity the earlier ones left. |
| Playground.FindCorner | examples/playground.rs:339-345 | The first corner whose name is the target, or none when no corner has it. |
| Playground.MoveTrainFacts | examples/playground.rs:325-358 | A train always spins at its rotation and never moves itself. Without a target or matching corner, nothing else changes. At its corner it takes the corner's target. Otherwise it heads straight for the corner at exactly its speed. |
| Playground.HeadingFor | examples/playground.rs:355-356 | Towards any other point, the direction times the speed has exactly that speed, along the offset. |
| Playground.MoveTrains | examples/playground.rs:325-358 | Every train ends exactly as `MoveTrain` says. |

## Left out

- The collision service is not computed but given as oracle fields of
  `World`, as are its contract assumptions. This covers avian3d's shape
  casts, `depenetrate`, `move_and_slide`, `intersections`, overlaps,
  collider lookups and contains-point.
- The internals of `calculate_platform_movement` (src/kcc.rs:1052-1083)
  are left out. The platform motion at a point is an oracle, and the model
  records what it returns.
- The impulse response of `apply_linear_impulse_at_point` is an oracle.
  Angular effects are not modelled.
- Floating point is left out. `f32` is `real`, with no rounding or
  overflow. The exceptions are the non-finite components `validate_velocity`
  zeroes, and the `f32::MAX` start value of the water speed. The
  clamp-length step of validation is on reals.
- `spin_cams`, `forward`/`right` (src/kcc.rs:1352-1379) and `rotate_camera`
  (src/camera.rs:55-78) are quaternion and Euler-angle arithmetic. The
  orientation enters the model as its forward and right vectors.
- Plugin and system registration, and ordering and run conditions, are left
  out. `did_fixed_timestep_run_this_frame` (src/fixed_update_utils.rs) is
  not part of this model. Its answer is the `fixedStepRan` parameter.
- `warn!` and `error!` logging is left out.
- Ladders are left out: `is_on_ladder` is the constant `false` in the
  source.
- Stopwatches are modelled as elapsed seconds. Pausing is not used by the
  source.
- Kcc.Controller.UpdateCraneState: `available_crane_height` is the ledge
  probe with crane settings. It is inlined, not a member of its own.
- ControllerSetup.ControllerEntity.OnAdd: a capsule's crouching collider
  is built with the corrected half-height `(crouch_height - 2 radius) / 2`
  of Findings, not the source's `(crouch_height - radius) / 2`, so the model
  does not capture the source's capsule being `radius` too tall. The other
  shapes follow the source.
- ControllerSetup.CrouchingColliderFits: for a capsule, `crouch_height` is
  the height of the corrected crouching collider (see Findings). The source's
  capsule is `crouch_height + radius` high, which
  `CapsuleCrouchAsWrittenTooTall` states.
- ControllerSetup.ActiveColliderHeight: a crouching capsule is
  `crouch_height` high under the corrected half-height (see Findings), not
  under the source's.
- ControllerSetup.CrouchingColliderFits: stated only for colliders with
  `|scale.y| = 1`. The source measures a scaled collider with its scale
  but rescales only the base shape.
- ControllerSetup.CrouchedChild: a standing collider of height 0 makes the
  source divide by zero (`frac` is not finite). The model keeps the scale
  1 there.
- KccMath.TacDirection: the source normalises with `normalize()`, which
  gives NaN for a zero vector. The model uses normalize-or-zero, so a zero
  launch direction gives no push.
- ControllerSetup.Tunables: the query filter and `move_and_slide`'s other
  settings are left out.
- Kcc: src/kcc.rs reads tunables that src/lib.rs does not declare (tac,
  crane, mantle, climb and water settings). The two files come from
  different revisions. These tunables are fields of `KccTypes.Config`, and
  the model assumes only what `WellFormed` states about them.
- KccTypes.WaterLevel: src/kcc.rs compares the water level with
  `WaterLevel::Feet`, which src/water.rs does not declare (it has None,
  Touching and Center). The controller model keeps its own ordered level
  and uses only whether it is above the feet. `Water` models
  src/water.rs's enum.
- KccTypes.Input: the controller reads the tac, crane, mantle, climb-down
  and swim-up buffers of an input revision newer than src/input.rs. The
  `Input` module models the three fields src/input.rs declares.
- In these places the code may not do what a reader expects, and the
  model follows the code:
  - `set_grounded` ends a mantle, not a crane.
  - `handle_mantle_movement` never ends a mantle when its height reaches 0.
  - Speed is at most `max_speed` only for an airborne character, because
    `velocity.y := platform_velocity.y` follows validation.
  - `closest_wall_normal` keeps the least penetrating wall contact, the
    last among equals.
  - The pick-up actor is the controller's camera entity.

## Findings

| source | as written | input that shows it | evidently intended | confidence | as-written member | corrected member |
|---|---|---|---|---|---|---|
| src/lib.rs:201-203 | The crouching capsule's half-height is `(crouch_height - radius).max(0) / 2`. | `crouch_height = 1.3`, `radius = 0.4`: the capsule is `2 * 0.45 + 2 * 0.4 = 1.7` high, so crouching is as tall as the standing eye. | `(crouch_height - 2 radius).max(0) / 2`, giving a capsule `crouch_height` high. | not executed | ControllerSetup.CapsuleCrouchAsWrittenTooTall | ControllerSetup.CapsuleCrouchFits |
| src/kcc.rs:1247 | `(crane_input_buffer - jump_crane_chain_time).max(Duration::ZERO)`. `Duration` subtraction panics on underflow, so the `max` never clamps. | `crane_input_buffer = 0.1 s`, `jump_crane_chain_time = 0.2 s`, and a jump while a crane input is buffered: the subtraction panics. | The saturating difference `crane_input_buffer.saturating_sub(jump_crane_chain_time)`. | not executed | KccMath.CraneChainTickAsWrittenPanics | KccMath.CraneChainTick |
