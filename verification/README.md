# Retrowave racer: the per-frame simulation rules in Dafny

This project models the per-frame rules of the retrowave racer game: the
collision oracle, the obstacle stream (generation, moving cars, windowing
around the player), the two vehicle rule sets (the physics hook and the
inline tick of the car component, the one the scene actually uses), the
boost and weapon state machines, the plasma bolt and the area missile, the
scene's list reducers, the obstacle manager's change propagation, the missile
trail's ring buffer, the road's chunk window and the heads-up display values.

Every rule is a pure step function over an immutable state record:

- **React state.** A tick reads the values of the previous render and
  returns the next state.
- **Random numbers.** `Math.random` is an infinite stream of draws in
  [0, 1).
- **Clocks and trigonometry.** `Date.now()`, the frame clock, `Math.sin`
  and `Math.cos` are parameters.
- **Square roots.** A square root that is compared with a bound becomes a
  comparison of squares. The square root in the missile's launch
  solution is a non-negative parameter.

Modules, one per source file, with two shared helper modules:

| module | source |
|---|---|
| Maths, Seqs | shared helpers: Vec3, abs/min/max/clamp, floor/ceil/round, Option, Filter, FindFirst |
| Collision | src/utils/collision.ts |
| ObstacleStream | src/utils/obstacleManager.ts |
| Handling | the speed/steer/turn/move formulas both vehicle rule sets share |
| PhysicsHook | src/hooks/useCarPhysics.ts |
| CarTick | the frame tick of src/components/Car.tsx |
| Powerups | src/hooks/useCarPowerups.ts |
| Weapons | src/hooks/useCarWeapons.ts |
| CarHud | src/hooks/useCarHUD.ts |
| Projectile | src/components/PlasmaProjectile.tsx |
| Missile | src/components/AreaMissile.tsx |
| Scene | the reducers of src/components/Scene.tsx |
| ObstacleSync | src/components/ObstacleManager.tsx |
| MissileTrail | src/components/MissileTrail.tsx |
| Road | src/components/Road.tsx |

Behaviours of the code that are easy to miss:

- **Plasma bolt speed.** The bolt flies at a fixed 80 units per second. The
  car's speed at launch is not added.
- **Plasma bolt expiry.** The bolt has no absolute-bounds expiry, only the
  200-unit range.
- **Missile failsafes.** The missile's fail-safe and out-of-world rules
  expire it without a burst. Only reaching y = 1 bursts.
- **Collision response.** checkCollisions has no car-versus-car push
  response. A solid hit stops the car in place (the inline tick) or
  bounces it (the hook).
- **Spread-shot thresholds.** The spread-shot thresholds are fixed
  constants: 500 points in the weapons hook and 1000 in the car tick.

## Model

| member | source | states |
|---|---|---|
| Collision.CarBounds | src/utils/collision.ts:23-28 | the player's box is 2 wide and 4 deep and centred on the car |
| Collision.ObstacleBounds | src/utils/collision.ts:31-57 | rewards and cones get 1 x 1 boxes, cars 1.8 x 3.5, all centred on the obstacle; any other type gets the empty box at the origin |
| Collision.Overlaps | src/utils/collision.ts:60-67 | two boxes collide exactly when their centres are closer than the half-extents on both axes; boxes with no combined extent on an axis never collide |
| Collision.OverlapsSymmetric | src/utils/collision.ts:60-67 | the overlap test does not depend on the order of the two boxes |
| Collision.TouchingBoxesDoNotOverlap | src/utils/collision.ts:60-67 | boxes that only share an edge never collide (all four comparisons are strict) |
| Collision.OverlapByCentres | src/utils/collision.ts:60-67 | two boxes overlap exactly when their centres are closer than the half-extents on both axes |
| Collision.CarHitsObstacle | src/utils/collision.ts:23-67 | the player touches a car exactly when the centres are within 1.9 across and 3.75 along, and a pickup within 1.5 and 2.5 |
| Collision.ObstaclesInRange | src/utils/collision.ts:70-81 | every kept obstacle lies within the range on both axes |
| Collision.ObstaclesInRangeExact | src/utils/collision.ts:70-81 | the filter keeps exactly the in-range obstacles, each with its multiplicity |
| Collision.ObstaclesInRangeAppend | src/utils/collision.ts:70-81 | the filter distributes over concatenation, so it keeps the original order |
| Collision.CheckCollisions | src/utils/collision.ts:84-102 | no hit exactly when no box overlaps; otherwise the first overlapping obstacle in list order, flagged boost iff cone and reward iff reward, never both |
| Collision.RangePrefilterKeepsFirstHit | src/components/Car.tsx:262-263 | for typed obstacles, pre-filtering to range 10 never changes the collision result |
| ObstacleStream.KindFor | src/utils/obstacleManager.ts:44-53 | the draw gives a reward below 0.15, a cone in [0.15, 0.35) and a car from 0.35 up |
| ObstacleStream.PickIndex | src/utils/obstacleManager.ts:62 | floor(r * n) is a valid index, the integer part of r * n |
| ObstacleStream.SpawnAt | src/utils/obstacleManager.ts:56-89 | a spawned car sits on -12 or -6 with velocity 30 and lane left, or on 6 or 12 with velocity -20 and lane right; other types sit on one of the five lane positions with no velocity or lane; originalVelocity equals velocity and the id is built from the position |
| ObstacleStream.CarLaneSplit | src/utils/obstacleManager.ts:60-72 | a car goes into oncoming traffic exactly when the lane draw is below 0.5 |
| ObstacleStream.Spacing | src/utils/obstacleManager.ts:38 | the gap to the next obstacle lies in [30, 60) |
| ObstacleStream.GenerateFrom | src/utils/obstacleManager.ts:36-90 | the scan loop emits spawned obstacles strictly between its start and endZ with gaps in [30, 60), each drawn from three consecutive draws (gap, type, lane); it ends exactly at the first gap that reaches endZ: the gap drawn after the last obstacle (draw k + 3n for n obstacles) reaches endZ, and it emits nothing exactly when the first gap already does |
| ObstacleStream.GeneratedUnique | src/utils/obstacleManager.ts:34-91 | a run after the scan start with those gaps and draws that ends at the first gap reaching endZ is the generated run itself, so the clauses above determine the loop's output |
| ObstacleStream.ChainCount | src/utils/obstacleManager.ts:36-40 | a generated run of n obstacles covers more than 30 n of the scan, and the scan is shorter than 60 (n + 1) |
| ObstacleStream.GenerateObstaclesForRange | src/utils/obstacleManager.ts:18-93 | every obstacle lies in (startZ, endZ) and is freshly spawned; z strictly increases, so ids are pairwise distinct; the first lies one gap past the scan start; obstacle i takes its type from draw 3i + 1; the run is the whole generated run from the scan start: it ends at the first gap, draw 3n, that reaches endZ, and nothing is emitted exactly when the first gap already reaches endZ |
| ObstacleStream.IncreasingFromGaps | src/utils/obstacleManager.ts:38-39 | positive consecutive gaps make the whole run strictly increasing |
| ObstacleStream.ScanStart | src/utils/obstacleManager.ts:34 | scanning starts at the multiple of 10 at or above startZ, less than 10 past it |
| ObstacleStream.GeneratedRangeSurvivesWindow | src/utils/obstacleManager.ts:137-139 | windowing a generated range that the window covers loses nothing |
| ObstacleStream.MoveObstacle | src/utils/obstacleManager.ts:102-120 | static obstacles are untouched; a car whose non-zero recovery time has passed gets its original velocity back (0 when it has none) and loses the timestamp; every moving car then advances by velocity * dt; id, x, type and lane never change |
| ObstacleStream.UpdateMovingObstacles | src/utils/obstacleManager.ts:96-122 | an element-wise step that keeps length, order, ids and types and leaves static obstacles alone; dt = 0 keeps every z |
| ObstacleStream.MinZ | src/utils/obstacleManager.ts:142 | the least z among the obstacles and the initial value, attained by one of them |
| ObstacleStream.Visible | src/utils/obstacleManager.ts:133-139 | every kept obstacle lies strictly inside the window |
| ObstacleStream.Refill | src/utils/obstacleManager.ts:141-151 | new obstacles appear only when the window's far edge is more than 50 past the nearest kept obstacle; then they are the whole generated run from the scan start of the far edge up to minZ - 10, drawn from the first draws and ending at the first gap that reaches minZ - 10; they are spawned, inside the window, ascending, and all beyond every kept obstacle by more than 10 |
| ObstacleStream.UpdateObstacles | src/utils/obstacleManager.ts:125-152 | every moved in-window obstacle survives, in order, at the front; everything lies past the far edge, and inside the window when behind > -9, in which case a moved obstacle survives exactly when it lies inside the window; with m the least z among the survivors and carZ + 1, the survivors are returned alone unless carZ - ahead < m - 50, and then they are followed by the run generated from carZ - ahead up to m - 10 from the first draws (gaps of 30 to 60, ending at the first gap that reaches m - 10); that refill is ascending, spawned and more than 10 beyond each survivor |
| ObstacleStream.RefillFollows | src/utils/obstacleManager.ts:140-151 | the survivors followed by their refill are the survivors alone when carZ - ahead >= m - 50, and otherwise the survivors followed by a run from the first draws up to m - 10 that ends at the first gap reaching m - 10 |
| ObstacleStream.RefillDueUnique | src/utils/obstacleManager.ts:140-151 | conversely, the only list meeting the refill rule is the survivors followed by their refill, so UpdateObstacles' clauses pin its result down |
| ObstacleStream.ZeroStepKeepsWindow | src/utils/obstacleManager.ts:96-139 | with dt = 0 the survivors are exactly the in-window obstacles, with the same ids and z in the same order |
| Handling.Coast | src/hooks/useCarPhysics.ts:45-51 | coasting moves speed toward 0 by the step without crossing 0 |
| Handling.Throttle | src/hooks/useCarPhysics.ts:41-52 | up adds 1.8 b dt; otherwise down subtracts 2 dt; otherwise the speed coasts by 0.8 dt |
| Handling.NextSpeed | src/hooks/useCarPhysics.ts:39-54 | the new speed lies in [-0.45 b, 0.9 b] and equals the throttle result whenever that is inside the bounds |
| Handling.SpeedResponse | src/hooks/useCarPhysics.ts:39-54 | from inside the bounds, up never slows the car, down alone never speeds it up, coasting never grows the speed nor flips its sign |
| Handling.NextSteer | src/hooks/useCarPhysics.ts:57-72 | the angle stays in [-0.8, 0.8]; left adds 3 dt, otherwise right subtracts 3 dt; released steering above 0.1 is scaled by 0.8 and at most 0.1 snaps to 0 |
| Handling.CentringShrinks | src/hooks/useCarPhysics.ts:63-70 | released steering shrinks by at least the factor 0.8 and never changes side |
| Handling.SteeringSettles | src/hooks/useCarPhysics.ts:63-72 | released steering from any reachable angle is exactly straight after 11 frames |
| Handling.TurnFactor | src/hooks/useCarPhysics.ts:76-88 | the factor is 0.8 below speed 0.2, 0.6 in [0.2, 0.4), and the speed from 0.4 up, so never below 0.3 |
| Handling.Turn | src/hooks/useCarPhysics.ts:90-91 | the heading changes by steer * factor * 2 * dt: the way the wheels point, by at least 0.6 * abs(steer) * dt |
| Handling.Travel | src/hooks/useCarPhysics.ts:94-97 | a stopped car or a zero frame proposes the same position |
| Handling.TravelDistance | src/hooks/useCarPhysics.ts:94-97 | with a unit heading the move covers exactly abs(speed) * dt * 60 |
| Handling.ClampToRoad | src/hooks/useCarPhysics.ts:105 | x ends in [-18, 18], is unchanged when already there, and never grows in magnitude |
| PhysicsHook.UpdatePhysics | src/hooks/useCarPhysics.ts:28-100 | speed and steering are bounded; the heading turns by the freshly updated steering at the fresh speed; the position is only proposed, along the new heading |
| PhysicsHook.UpdatePosition | src/hooks/useCarPhysics.ts:103-108 | x is clamped to the road, z is stored as given, nothing else changes |
| PhysicsHook.UpdatePositionIdempotent | src/hooks/useCarPhysics.ts:103-108 | storing a stored position again changes nothing |
| PhysicsHook.HandleCollisionBounce | src/hooks/useCarPhysics.ts:111-134 | below speed 0.05 the car just stops; faster, it is pushed back 4.5 abs(speed) along the heading (x clamped) and reversed at half speed; the result is never forward and at most half as fast |
| PhysicsHook.BounceOpposesTravel | src/hooks/useCarPhysics.ts:111-134 | the bounce displacement points exactly opposite to the forward move from the same heading |
| PhysicsHook.HookFrame | src/hooks/useCarPhysics.ts:28-134 | a frame of physics followed by the bounce or the position update keeps speed, steering and x inside their bounds |
| PhysicsHook.InitialInEnvelope | src/hooks/useCarPhysics.ts:23-26 | the initial state lies inside the bounds for every non-negative multiplier |
| CarTick.SpreadTimer | src/components/Car.tsx:112-122 | the spread shot activates at 1000-point thresholds only when inactive, recording a multiple of 1000 at or below the score, and expires only after its end time; at most one of the two fires |
| CarTick.SpreadThresholdAdvances | src/components/Car.tsx:113-116 | each activation raises the recorded threshold by at least 1000 |
| CarTick.Muzzle | src/components/Car.tsx:139-147 | shots spawn at y = 1 |
| CarTick.SpreadVolley | src/components/Car.tsx:132-147 | the burst is 8 shots at rot + (i - 3.5) pi/42, each 3 units ahead along its own angle |
| CarTick.SpreadVolleySymmetric | src/components/Car.tsx:132-137 | the fan is symmetric about the heading, strictly increasing, and spans pi/12 to each side |
| CarTick.Shoot | src/components/Car.tsx:125-164 | a volley goes out exactly when fire is held with a shot callback and the mode's cool-down has passed; a burst in spread mode, one shot 3 units ahead otherwise; only that mode's clock is restarted |
| CarTick.ShootingIsRateLimited | src/components/Car.tsx:126-163 | no single shot within 300 ms of a single shot, and no burst within 800 ms of a burst |
| CarTick.NextTransition | src/components/Car.tsx:169-178 | the multiplier rises by 5 dt, capped at 1.25, while boosted and falls by 2 dt, floored at 1.0, otherwise, staying in [1, 1.25] |
| CarTick.CommitMove | src/components/Car.tsx:256-320 | a cone or reward hit and no hit commit the move with x clamped; a cone turns the boost on; a pickup reports its id when the parent listens; any other hit keeps the old position and flags a crash |
| CarTick.CrashIffFirstHitIsSolid | src/components/Car.tsx:261-312 | a crash happens exactly when the first obstacle overlapping the proposed position is a car |
| CarTick.BoostTimeRemaining | src/components/Car.tsx:360 | the boost time left is never negative, 0 when not boosted, and the exact time left before the end |
| CarTick.SpreadTimeRemaining | src/components/Car.tsx:361 | the same for the spread shot |
| CarTick.ScoreReport | src/components/Car.tsx:282-287 | a reward reports score + 100 exactly when the parent listens |
| CarTick.RewardBurst | src/components/Car.tsx:290-293 | a reward reports a burst at its own position lifted to y = 1 exactly when the parent listens |
| CarTick.Tick | src/components/Car.tsx:104-369 | the volley is the shooting step's and only its own clock moves to now; the spread shot switches exactly when it activates or expires; the multiplier ramps by at most 5 dt up and 2 dt down within [1, 1.25], the steering stays within 0.8, the heading turns the way the pre-tick wheels point, the speed stays within the pre-tick clamp, and each of these is exactly its formula (ramp, steering response, turn, throttled clamped speed) fed the pre-tick values and the keys, a crash damping the speed to max(0, a tenth); without a crash the car takes the proposed position with x clamped, and a crash keeps the old position with a speed between 0 and 0.09 times the pre-tick multiplier; with typed obstacles it crashes exactly when the first overlapped obstacle is a car, a cone leaves it boosted until now + 5000 whatever the previous expiry, and a reward reports score + 100 and a burst at the reward; a position report carries the pre-tick position and resets the reference point; speed and display reports carry pre-tick values |
| CarTick.Drive | src/components/Car.tsx:165-320 | the driving part of the tick: the multiplier is the ramp of the pre-tick one, the steering the response to the keys, the heading turns by 2 dt steer factor from the pre-tick steering and speed, and the speed is the throttled, clamped speed, damped to max(0, a tenth of it) on a crash; the car is placed as the tick places it, and with typed obstacles crashes, and restarts the boost, as the first overlapped obstacle calls for |
| CarTick.Moved | src/components/Car.tsx:165-320 | from a committed move: the multiplier rises by 5 dt to 1.25 while boosted and falls by 2 dt to 1 otherwise; the steering follows the keys, the heading turns by 2 dt steer factor of the pre-tick speed, and the speed is the throttled speed clamped to the pre-tick multiplier, damped to max(0, a tenth of it) on a crash; position and collision flag are the commit's; a cone restarts the boost until now + 5000, otherwise the expiry is kept and the boost stays on only while it has not passed; the shot clocks, spread timer and report reference point are untouched |
| CarTick.Advance | src/components/Car.tsx:104-356 | the next state moves only the fired volley's clock, switches the spread shot exactly on activation or expiry, and moves the report reference point exactly when a position report goes out |
| CarTick.CommitFacts | src/components/Car.tsx:256-320 | a crash keeps the old position, any other outcome takes the proposed one with x clamped; with typed obstacles the commit follows the first overlapped obstacle in the whole list |
| CarTick.Pickups | src/components/Car.tsx:256-320 | with typed obstacles, crash, boost restart, collected id, score report and burst are exactly those the first overlapped obstacle calls for |
| CarTick.InitialInv | src/components/Car.tsx:23-37 | the initial car lies on the road with the multiplier, steering and speed inside their bounds |
| CarTick.TickPreservesInv | src/components/Car.tsx:170-320 | every tick keeps the car on the road, the multiplier in [1, 1.25], the steering within 0.8 and the speed within the widest clamp |
| CarTick.ReportedPositionLag | src/components/Car.tsx:346-356 | after a tick the last reported position is within 0.25 across and 0.5 along of the pre-tick position |
| CarTick.SceneNeverSpreads | src/components/Scene.tsx:115-123 | as the scene wires the car (no spread or score callback, score 0), the spread shot never activates, every volley is single and no score is reported |
| Powerups.CollectBoost | src/hooks/useCarPowerups.ts:16-26 | the first pickup sets the target to 1.35, a pickup while boosted adds 0.1 up to 2.0, every pickup restarts the 5-second timer |
| Powerups.UpdateBoost | src/hooks/useCarPowerups.ts:29-46 | expiry only strictly after the end time, resetting the target to 1.0; the multiplier rises by 5 dt, capped at the pre-call target, while boosted and falls by 2 dt, floored at 1.0, otherwise |
| Powerups.RampUpIsLinear | src/hooks/useCarPowerups.ts:37-39 | n calls at one clock reading in a boost that has not expired, starting at or below the target, leave the multiplier at min(target, m + 5 dt n) |
| Powerups.RampDownIsLinear | src/hooks/useCarPowerups.ts:40-43 | n calls without a boost, starting at or above 1, leave the multiplier at max(1, m - 2 dt n) |
| Powerups.GetPowerupState | src/hooks/useCarPowerups.ts:49-53 | the time left is never negative, 0 when not boosted, and the exact time left before the end |
| Powerups.InitialInv | src/hooks/useCarPowerups.ts:10-13 | the initial target and multiplier lie in [1, 2] |
| Powerups.OperationsPreserveInv | src/hooks/useCarPowerups.ts:16-46 | both operations keep target and multiplier in [1, 2] |
| Powerups.StackingReachesCap | src/hooks/useCarPowerups.ts:17-25 | after the first pickup and k more, the target is min(2.0, 1.35 + 0.1 k) |
| Powerups.ExpiryRampsDownNextCall | src/hooks/useCarPowerups.ts:31-43 | after an expiry the very next call ramps the multiplier down |
| Weapons.UpdateSpreadShot | src/hooks/useCarWeapons.ts:34-46 | activation at 500-point thresholds only when inactive, recording a multiple of 500 at or below the score; expiry only after the end time; at most one fires and nothing else changes |
| Weapons.SpreadShots | src/hooks/useCarWeapons.ts:61-70 | 8 shots from one start point at rot - 0.3 + i * 0.6/7 |
| Weapons.SpreadShotsSymmetric | src/hooks/useCarWeapons.ts:62-65 | the fan runs from rot - 0.3 to rot + 0.3, symmetric and strictly increasing |
| Weapons.HandleShoot | src/hooks/useCarWeapons.ts:49-82 | a burst needs more than 400 ms, a single shot more than 300 ms and its callback; both restart the shared shot clock; shots start at (x, 1, z) |
| Weapons.ShotsAreRateLimited | src/hooks/useCarWeapons.ts:57-81 | any volley blocks every volley of either mode for the next 300 ms |
| Weapons.TripleShots | src/hooks/useCarWeapons.ts:94-101 | three missiles at heading offsets -0.15, 0, 0.15 and x offsets -0.5, 0, 0.5, at height 2 |
| Weapons.HandleMissileShoot | src/hooks/useCarWeapons.ts:85-111 | nothing happens without ammunition, more than 800 ms and a callback; triple mode fires three and takes max(0, n - 3), normal mode fires one and takes one; ammunition never goes negative |
| Weapons.MissileAccounting | src/hooks/useCarWeapons.ts:93-108 | the ammunition taken equals the missiles launched, except that triple mode launches three from one or two left and empties the count |
| Weapons.AddMissiles | src/hooks/useCarWeapons.ts:114-116 | adds the pack (5 by default) and changes nothing else |
| Weapons.ActivateTripleRocketMode | src/hooks/useCarWeapons.ts:119-123 | 12 seconds of triple mode and 12 more missiles |
| Weapons.UpdateTripleRocketMode | src/hooks/useCarWeapons.ts:126-130 | triple mode ends exactly when it is active and the end time has passed |
| Weapons.GetWeaponState | src/hooks/useCarWeapons.ts:133-139 | times left are never negative, 0 when inactive, exact before the end |
| Weapons.InitialInv | src/hooks/useCarWeapons.ts:20-31 | the initial state has non-negative ammunition and a threshold on a multiple of 500 |
| Weapons.OperationsPreserveInv | src/hooks/useCarWeapons.ts:34-130 | no operation makes the ammunition negative |
| Weapons.SpreadThresholdAdvances | src/hooks/useCarWeapons.ts:36-39 | each activation raises the threshold by at least 500, so one score level activates the spread shot once |
| CarHud.TimerFor | src/hooks/useCarHUD.ts:54-60 | a panel is shown exactly while active; its seconds are the time left rounded up, never negative; its bar is the fraction of 5 seconds |
| CarHud.SpeedPercent | src/hooks/useCarHUD.ts:21 | the percentage is the rounded abs(speed)/1.8, never negative |
| CarHud.View | src/hooks/useCarHUD.ts:20-75 | the bar is the percentage capped at 100; colours follow the boost flag and the ammunition; the panels follow the boost and spread flags |
| CarHud.UpdateHud | src/hooks/useCarHUD.ts:15-18 | the counter always advances and the display is written exactly when it reaches a multiple of 6 |
| CarHud.Writes | src/hooks/useCarHUD.ts:15-18 | n calls write the display at most n times |
| CarHud.WritesCount | src/hooks/useCarHUD.ts:15-18 | n calls write exactly the multiples of 6 in (c, c + n] |
| CarHud.OncePerSixFrames | src/hooks/useCarHUD.ts:15-18 | any six consecutive calls write the display exactly once |
| CarHud.TimersInRange | src/hooks/useCarHUD.ts:51-75 | fed by the hooks' getters, the countdowns show at most 5 seconds and a bar within [0, 100] |
| Projectile.Launch | src/components/PlasmaProjectile.tsx:56 | the bolt starts at its spawn point |
| Projectile.FirstNearCar | src/components/PlasmaProjectile.tsx:41-52 | the first blue car in list order within 2 across and 3 along, or none exactly when there is no such car |
| Projectile.Move | src/components/PlasmaProjectile.tsx:22-27 | the bolt moves 80 dt along its fixed heading |
| Projectile.Frame | src/components/PlasmaProjectile.tsx:19-53 | the bolt moves, then expires exactly when beyond 200 units (no hit test that frame), or reports the first nearby car at y = 1, or flies on; exactly one event per frame |
| Projectile.OnlyCarsMatter | src/components/PlasmaProjectile.tsx:41-42 | removing every non-car obstacle never changes the hit |
| Projectile.HitsOnlyInRange | src/components/PlasmaProjectile.tsx:29-52 | a reported hit is on a blue car near the bolt, and the bolt is still within range |
| Projectile.FlightIsStraight | src/components/PlasmaProjectile.tsx:22-27 | after n equal frames the bolt is n * 80 * dt along its heading from spawn |
| Projectile.FlightRange | src/components/PlasmaProjectile.tsx:29-37 | with a unit heading the bolt expires exactly when n * 80 * dt exceeds 200 |
| Projectile.EscapedAlongHeading | src/components/PlasmaProjectile.tsx:30-34 | a bolt displaced by d along a unit heading is beyond range exactly when d exceeds 200 |
| Missile.FlightTime | src/components/AreaMissile.tsx:46 | the flight time is at least 25/50 |
| Missile.HorizontalSpeed | src/components/AreaMissile.tsx:44-53 | the launch speed exceeds the car's forward speed (|velocity| * 60) plus 15, and the part above that covers exactly the desired 45 units over the flight time |
| Missile.LaunchVelocity | src/components/AreaMissile.tsx:40-69 | the launch goes up at 25; its horizontal part points along the heading, with no sideways component, and with a unit heading has length equal to the car's speed * 60 + 45/flightTime + 15 |
| Missile.OutrunsTheCar | src/components/AreaMissile.tsx:48-53 | the missile is more than 15 units per second faster than the car, and with the true root between 58 and 60 faster |
| Missile.Spawn | src/components/AreaMissile.tsx:29-69 | a new missile starts at its spawn point, unexploded, with the launch velocity |
| Missile.AreaHits | src/components/AreaMissile.tsx:164-183 | every hit id belongs to a blue car within 12 units of the burst |
| Missile.AreaHitsComplete | src/components/AreaMissile.tsx:173-183 | no blue car within 12 units is missed |
| Missile.AreaHitsInOrder | src/components/AreaMissile.tsx:173-183 | the hit ids follow list order: the hits of a concatenation are the hits of each part in turn, and one obstacle contributes its id exactly when it is a blue car within 12 units |
| Missile.Frame | src/components/AreaMissile.tsx:72-156 | the 8-second fail-safe comes first; an exploded missile only ages; otherwise the position advances by the old velocity, gravity acts, and it bursts, at y = 1 with the area hits, exactly when the advanced height reaches 1 |
| Missile.InFlightExpiry | src/components/AreaMissile.tsx:125-155 | in flight, expiry happens exactly when the missile has left the 80 x 300 box after half a second or is beyond 120 units; the y < -20 test can never fire |
| Missile.BurstsOnce | src/components/AreaMissile.tsx:158-162 | after a burst every later frame is idle |
| Scene.ObstaclesUpdate | src/components/Scene.tsx:31-33 | the manager's list replaces the scene's, nothing else changes |
| Scene.ObstacleCollected | src/components/Scene.tsx:35-37 | no obstacle with the id remains and the other lists are untouched |
| Scene.ObstacleCollectedExact | src/components/Scene.tsx:35-37 | collection removes exactly the obstacles with the id, keeping every other one, and repeating it changes nothing |
| Scene.ObstacleCollectedInOrder | src/components/Scene.tsx:35-37 | the survivors keep their order: collection from a concatenation is collection from each part in turn, and one obstacle is dropped exactly when it carries the id |
| Scene.RewardCollected | src/components/Scene.tsx:39-47 | exactly one explosion is appended, at the reward's position |
| Scene.ExplosionComplete | src/components/Scene.tsx:49-51 | no explosion with the id remains, every other explosion is kept as often as before, and the other lists are untouched |
| Scene.Shoot | src/components/Scene.tsx:53-60 | exactly one projectile is appended, with the given position and angle |
| Scene.ProjectileExpire | src/components/Scene.tsx:90-92 | no projectile with the id remains, every other projectile is kept as often as before, and the other lists are untouched |
| Scene.RemovalUndoesCreation | src/components/Scene.tsx:49-60 | expiring a fresh shot, or completing a fresh explosion, restores the scene |
| Scene.ProjectileHit | src/components/Scene.tsx:62-88 | the projectile always goes; the first blue car near the target is removed with one explosion at its position; with no such car the obstacles and explosions are unchanged |
| Scene.RemoveExactlyOne | src/components/Scene.tsx:83 | with unique ids, removing an obstacle's id removes exactly that element |
| Scene.HitDestroysNearestListedCar | src/components/Scene.tsx:62-88 | a hit reported on a car destroys exactly one near car listed no later than it, and the car itself when no earlier one is near |
| Scene.EarlierCarCanBeDestroyedInstead | src/components/Scene.tsx:67-72 | a bolt that strikes one car can destroy a different, earlier-listed car near the reported position |
| ObstacleSync.Seed | src/components/ObstacleManager.tsx:15-24 | an empty list is seeded with the whole generated run over [carZ - 400, carZ - 20) from the first draws, ending at the first gap that reaches carZ - 20: 6 to 12 spawned obstacles in (carZ - 400, carZ - 20); a non-empty one is kept |
| ObstacleSync.SeedStartsClear | src/components/ObstacleManager.tsx:15-24 | a seeded road never starts with the player touching an obstacle |
| ObstacleSync.ChangedIrreflexive | src/components/ObstacleManager.tsx:31-35 | a list identical to the current one is never propagated |
| ObstacleSync.UnchangedMeansClose | src/components/ObstacleManager.tsx:31-35 | a suppressed update agrees in length and ids, and every z moved by at most the threshold |
| ObstacleSync.Frame | src/components/ObstacleManager.tsx:27-37 | the scene ends with either its own list or the step; the step is handed back whenever the lengths differ, an id differs or some z moved by more than 0.1; a kept list agrees with the step in length and ids, with every z within 0.1 |
| ObstacleSync.HandOver | src/components/ObstacleManager.tsx:29-36 | whatever the step, the 0.1 test leaves the scene with the step or its own list, hands over every change of length or id or of some z by more than 0.1, and keeps its own list only when the step agreed in length and ids with every z within 0.1 |
| ObstacleSync.FrozenAtHighFrameRate | src/components/ObstacleManager.tsx:27-37 | at 240 frames per second a same-direction car never moves |
| ObstacleSync.CorrectedFrame | src/components/ObstacleManager.tsx:27-37 | with a zero threshold the scene's list matches the step in length, ids and every z |
| ObstacleSync.ZeroHandOver | src/components/ObstacleManager.tsx:29-36 | with the zero threshold the scene's list agrees with the step in length, ids and every z |
| ObstacleSync.ZeroHandOverKeepsMotion | src/components/ObstacleManager.tsx:29-36 | the zero threshold keeps an unchanged list, hands over every change, and catches everything the 0.1 threshold catches |
| ObstacleSync.CorrectedFrameKeepsMotion | src/components/ObstacleManager.tsx:31-36 | the corrected frame still leaves an unchanged list alone, and propagates everything the original would |
| ObstacleSync.CorrectedFrameMovesParkedCar | src/components/ObstacleManager.tsx:31-36 | on the frozen example the corrected frame moves the car by 1/12 |
| MissileTrail.Push | src/components/MissileTrail.tsx:63-68 | a write advances the head modulo 20, stores the point there and counts up to 20 |
| MissileTrail.RingShape | src/components/MissileTrail.tsx:63-68 | after n writes the ring holds min(n, 20) points with its head at (n - 1) mod 20 |
| MissileTrail.RingKeepsRecent | src/components/MissileTrail.tsx:63-79 | slot i holds the i-th most recent write |
| MissileTrail.SlotAfterPush | src/components/MissileTrail.tsx:63-74 | a write becomes slot 0 and shifts every other slot back by one |
| MissileTrail.FadeScale | src/components/MissileTrail.tsx:96-102 | particle sizes lie in (0, 0.2] |
| MissileTrail.FadeIsDecreasing | src/components/MissileTrail.tsx:96-102 | particles shrink strictly along the trail |
| MissileTrail.LayoutLine | src/components/MissileTrail.tsx:70-86 | the line holds the stored points newest first, and every unused slot repeats the oldest stored point |
| MissileTrail.LayoutParticles | src/components/MissileTrail.tsx:90-112 | stored points get their fading size, unused instances are parked at y = -9999 |
| MissileTrail.Frame | src/components/MissileTrail.tsx:55-114 | inactive frames change nothing; active frames count, and every second one writes the missile's position as the newest slot and rebuilds both layouts |
| Road.ChunkCentre | src/components/Road.tsx:52 | the centre is the multiple of 100 at or below the car |
| Road.Window | src/components/Road.tsx:53-59 | seven chunks at centre + 100 i for i = -3..3 |
| Road.Step | src/components/Road.tsx:46-67 | without a car position nothing changes; otherwise the state holds the window's chunks, replaced only when the chunk sets differ |
| Road.StepReplacesOnlyOnChange | src/components/Road.tsx:61-65 | the state is kept exactly when it already holds the window's chunks, so a second step in the same chunk changes nothing |
| Road.WindowCovers | src/components/Road.tsx:72-74 | the window's road surface covers 250 units ahead of and behind the car |
| Road.LengthwiseLines | src/components/Road.tsx:20-27 | 21 lengthwise lines at x = -20, -18, ..., 20 |
| Road.CrosswiseLines | src/components/Road.tsx:30-37 | 51 crosswise lines every 2 units across [chunkZ - 50, chunkZ + 50] |
| Road.GridLines | src/components/Road.tsx:13-40 | the lengthwise lines followed by the crosswise ones |
| Road.AllGridLines | src/components/Road.tsx:42-44 | each chunk owns its own block of 72 lines, in chunk order |

## Left out

- Rendering is not modelled: JSX meshes and materials, camera follow, mesh transforms, missile orientation and console logging.
- Audio, the keyboard listeners and the DOM writes of the display are not modelled. Keys are a boolean intent record, and the display returns the values it would write.
- `Math.sin`, `Math.cos`, `Math.sqrt`, π and IEEE double rounding have no exact model. Trigonometry is a parameter and π is a real constant. Square roots become comparisons of squares, or a root given as a parameter. Arithmetic is over the reals.
- MissileTrail: the Float32 rounding of the stored coordinates is not modelled.
- `Math.random`, `Date.now()` and the frame clock are parameters. The ids the scene builds from them are injected naturals, and the obstacle id string is its (z, x) pair.
- React scheduling is simplified. Render timing, StrictMode double effects and batching are out. Each component's state update is one step, and the next step sees its result.
- The hooks useCarPhysics, useCarPowerups, useCarWeapons and useCarHUD are modelled each on its own. So are AreaMissile and MissileTrail. The scene does not mount any of them, so none is composed into the scene's tick.
- Missile: the obstacles list is sampled once, at the burst, as the component does. The commented-out mid-air hit test is not modelled.
- Projectile: after a hit the component keeps flying until the scene unmounts it. The model stops at the first reported event.
- Road.Step: after a change the state holds the window in ascending order. The source holds it in `sort()`'s string order. Only the order of the chunks and grid lines differs, not the set.
- CarHud: `toLocaleString` formatting of the score is not modelled, and neither are missing display elements. Every element is taken to exist.
- ObstacleStream: only the default window (300 ahead, 50 behind) is used by ObstacleSync, and the generation weights are the default ones.
- ObstacleSync.FrozenAtHighFrameRate: the example is one concrete car and frame rate. The general statement is ObstacleSync.UnchangedMeansClose.

## Findings

| source | as written | input that shows it | evidently intended | confidence | as-written member | corrected member |
|---|---|---|---|---|---|---|
| src/components/ObstacleManager.tsx:31-35 | a step whose z changes are all at most 0.1 is not handed to the scene. The next frame steps the scene's old list again, so the motion is lost, not deferred. | A same-direction car (velocity -20) 260 units ahead of a stationary player at 240 frames per second moves 1/12 < 0.1 per frame and never moves at all. This happens at any frame rate above 200 for that car. | Moving cars advance at their velocity whatever the frame rate. The threshold was meant to save re-renders, not to stop motion. | medium; not executed | ObstacleSync.FrozenAtHighFrameRate | ObstacleSync.CorrectedFrame |
