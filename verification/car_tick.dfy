/** The frame tick of the player's car as wired into the scene
    (src/components/Car.tsx, the useFrame callback). All of its state is
    React state, so a tick reads the values of the previous render (speed,
    steering angle, heading, position, boost and spread flags) and queues
    updates that become visible on the next tick. Queued updates of one state
    apply in the order they were queued: a cone hit's `setIsBoosted(true)`
    overrides the same tick's expiry, and the crash damping of speed applies
    to the speed this tick computed.

    The frame clock, `Math.sin` and `Math.cos` are parameters, and so is the
    presence of each optional callback. */
module CarTick {
  import opened Maths
  import opened Seqs
  import opened Collision
  import opened Handling

  datatype CarState = CarState(
    x: real, z: real, rotation: real, speed: real, steerAngle: real,
    isColliding: bool,
    isBoosted: bool, boostEndTime: real, transition: real,
    lastShotTime: real, lastSpreadShotTime: real,
    spreadActive: bool, spreadEndTime: real, lastSpreadScore: int,
    lastSentX: real, lastSentZ: real)

  const Initial: CarState :=
    CarState(0.0, 0.0, 0.0, 0.0, 0.0, false, false, 0.0, 1.0, 0.0, 0.0, false, 0.0, 0, 0.0, 0.0)

  /** Which optional callbacks the parent passed. */
  datatype Callbacks = Callbacks(
    onShoot: bool, onSpreadShoot: bool, onScoreUpdate: bool, onRewardCollected: bool,
    onObstacleCollected: bool, onPositionChange: bool, onSpeedChange: bool, onHUDUpdate: bool)

  /** What src/components/Scene.tsx passes: no spread-shot or score callback. */
  const SceneCallbacks: Callbacks := Callbacks(true, false, false, true, true, true, false, true)

  datatype Shot = Shot(position: Vec3, angle: real)
  datatype Volley = Single(shot: Shot) | Spread(shots: seq<Shot>)

  datatype Hud = Hud(speed: real, isBoosted: bool, boostTimeRemaining: real, score: int,
                     spreadShotActive: bool, spreadShotTimeRemaining: real)

  /** Everything a tick hands to its parent, and the next state. */
  datatype TickResult = TickResult(
    next: CarState,
    volley: Option<Volley>,
    collected: Option<ObstacleId>,
    scoreReport: Option<int>,
    rewardBurst: Option<Vec3>,
    positionReport: Option<(real, real)>,
    speedReport: Option<real>,
    hud: Option<Hud>)

  const SpreadScoreStep: int := 1000
  const SpreadDuration: real := 5000.0
  const SpreadCooldown: real := 800.0
  const ShotCooldown: real := 300.0
  const BoostDuration: real := 5000.0
  const MaxTransition: real := 1.25
  const MuzzleDistance: real := 3.0
  const RewardPoints: int := 100
  const CollisionRange: real := 10.0

  // ---------------------------------------------------------------------
  // Spread-shot timer

  /** Activation: every 1000 points, when not already active. */
  predicate SpreadActivates(s: CarState, score: int) {
    score >= s.lastSpreadScore + SpreadScoreStep && !s.spreadActive
  }

  /** Expiry: strictly after the end time. */
  predicate SpreadExpires(s: CarState, now: real) {
    s.spreadActive && now > s.spreadEndTime
  }

  /** The spread-shot timer update; both tests read the pre-tick flag, so at
      most one of them fires. An activation records the last 1000-point
      threshold reached, so the next activation needs 1000 more points
      beyond it. */
  function SpreadTimer(s: CarState, score: int, now: real): (r: CarState)
    ensures !(SpreadActivates(s, score) && SpreadExpires(s, now))
    ensures SpreadActivates(s, score) ==>
              && r.spreadActive && r.spreadEndTime == now + SpreadDuration
              && r.lastSpreadScore <= score < r.lastSpreadScore + SpreadScoreStep
              && r.lastSpreadScore % SpreadScoreStep == 0
              && !SpreadActivates(r.(spreadActive := false), score)
    ensures SpreadExpires(s, now) ==> r == s.(spreadActive := false)
    ensures !SpreadActivates(s, score) && !SpreadExpires(s, now) ==> r == s
    ensures r.spreadActive != s.spreadActive <==> SpreadActivates(s, score) || SpreadExpires(s, now)
  {
    if SpreadActivates(s, score) then
      s.(spreadActive := true, spreadEndTime := now + SpreadDuration,
         lastSpreadScore := (score / SpreadScoreStep) * SpreadScoreStep)
    else if SpreadExpires(s, now) then
      s.(spreadActive := false)
    else
      s
  }

  /** Thresholds reached from 0 are multiples of 1000 and each activation
      moves the recorded threshold up by at least 1000. */
  lemma SpreadThresholdAdvances(s: CarState, score: int, now: real)
    requires s.lastSpreadScore % SpreadScoreStep == 0
    requires SpreadActivates(s, score)
    ensures SpreadTimer(s, score, now).lastSpreadScore >= s.lastSpreadScore + SpreadScoreStep
  {
    var q := score / SpreadScoreStep;
    var p := s.lastSpreadScore / SpreadScoreStep;
    assert s.lastSpreadScore == p * SpreadScoreStep;
    assert q >= p + 1;
  }

  // ---------------------------------------------------------------------
  // Shooting

  /** The angular step of the spread: (pi / 6) / 7. */
  const SpreadStep: real := Pi / 6.0 / 7.0

  function Muzzle(x: real, z: real, angle: real, sin: real -> real, cos: real -> real): (p: Vec3)
    ensures p.y == 1.0
  {
    Vec3(x - sin(angle) * MuzzleDistance, 1.0, z - cos(angle) * MuzzleDistance)
  }

  /** The 8-shot fan: angle rot + (i - 3.5) * step for i = 0..7, each spawned
      three units ahead along its own angle. */
  function SpreadVolley(x: real, z: real, rot: real, sin: real -> real, cos: real -> real): (r: seq<Shot>)
    ensures |r| == 8
    ensures forall i :: 0 <= i < 8 ==> r[i].angle == rot + (i as real - 3.5) * SpreadStep
    ensures forall i :: 0 <= i < 8 ==> r[i].position == Muzzle(x, z, r[i].angle, sin, cos)
  {
    seq(8, i requires 0 <= i < 8 =>
      var angle := rot + (i as real - 3.5) * SpreadStep;
      Shot(Muzzle(x, z, angle, sin, cos), angle))
  }

  /** The fan is symmetric about the heading, strictly ordered, and spans
      exactly pi/12 to each side. */
  lemma SpreadVolleySymmetric(x: real, z: real, rot: real, sin: real -> real, cos: real -> real)
    ensures var r := SpreadVolley(x, z, rot, sin, cos);
            && (forall i :: 0 <= i < 8 ==> r[i].angle + r[7 - i].angle == 2.0 * rot)
            && (forall i :: 0 < i < 8 ==> r[i - 1].angle < r[i].angle)
            && r[0].angle == rot - Pi / 12.0 && r[7].angle == rot + Pi / 12.0
  {
    var r := SpreadVolley(x, z, rot, sin, cos);
    assert SpreadStep > 0.0;
    forall i | 0 <= i < 8
      ensures r[i].angle + r[7 - i].angle == 2.0 * rot
    {
      assert (i as real - 3.5) * SpreadStep + ((7 - i) as real - 3.5) * SpreadStep == 0.0;
    }
    forall i | 0 < i < 8
      ensures r[i - 1].angle < r[i].angle
    {
      assert (i as real - 3.5) * SpreadStep == ((i - 1) as real - 3.5) * SpreadStep + SpreadStep;
    }
  }

  /** Whether pressing fire this tick produces a volley, and which kind. */
  predicate SpreadMode(s: CarState, cb: Callbacks) {
    s.spreadActive && cb.onSpreadShoot
  }

  predicate Fires(s: CarState, now: real, keys: Intent, cb: Callbacks) {
    && keys.shoot && cb.onShoot
    && (if SpreadMode(s, cb) then now - s.lastSpreadShotTime > SpreadCooldown
        else now - s.lastShotTime > ShotCooldown)
  }

  /** The shooting step, from the pre-tick position and heading. */
  function Shoot(s: CarState, now: real, keys: Intent, cb: Callbacks,
                 sin: real -> real, cos: real -> real): (r: (Option<Volley>, CarState))
    ensures r.0.Some? <==> Fires(s, now, keys, cb)
    ensures r.0.Some? && SpreadMode(s, cb) ==>
              && r.0.value == Spread(SpreadVolley(s.x, s.z, s.rotation, sin, cos))
              && r.1 == s.(lastSpreadShotTime := now)
    ensures r.0.Some? && !SpreadMode(s, cb) ==>
              && r.0.value == Single(Shot(Muzzle(s.x, s.z, s.rotation, sin, cos), s.rotation))
              && r.1 == s.(lastShotTime := now)
    ensures r.0.None? ==> r.1 == s
    ensures r.1.lastShotTime == if r.0.Some? && !SpreadMode(s, cb) then now else s.lastShotTime
    ensures r.1.lastSpreadShotTime == if r.0.Some? && SpreadMode(s, cb) then now else s.lastSpreadShotTime
  {
    if !Fires(s, now, keys, cb) then (None, s)
    else if SpreadMode(s, cb) then
      (Some(Spread(SpreadVolley(s.x, s.z, s.rotation, sin, cos))), s.(lastSpreadShotTime := now))
    else
      (Some(Single(Shot(Muzzle(s.x, s.z, s.rotation, sin, cos), s.rotation))), s.(lastShotTime := now))
  }

  /** Cool-downs: after a single shot at t nothing single fires again until
      strictly after t + 300, and after a burst no burst until strictly after
      t + 800. */
  lemma ShootingIsRateLimited(s: CarState, now: real, later: real, keys: Intent, cb: Callbacks,
                              sin: real -> real, cos: real -> real)
    requires Shoot(s, now, keys, cb, sin, cos).0.Some?
    ensures var t := Shoot(s, now, keys, cb, sin, cos).1;
            && (!SpreadMode(s, cb) && later <= now + ShotCooldown && !SpreadMode(t, cb) ==>
                  Shoot(t, later, keys, cb, sin, cos).0.None?)
            && (SpreadMode(s, cb) && later <= now + SpreadCooldown ==>
                  Shoot(t, later, keys, cb, sin, cos).0.None?)
  {
  }

  // ---------------------------------------------------------------------
  // Boost

  /** The speed multiplier ramps toward 1.25 while boosted (by 5 dt) and back
      toward 1.0 otherwise (by 2 dt), reading the pre-tick boost flag. */
  function NextTransition(prev: real, boosted: bool, dt: real): (r: real)
    ensures boosted ==> r <= MaxTransition && (dt >= 0.0 && prev <= MaxTransition ==> r >= prev)
    ensures !boosted ==> r >= 1.0 && (dt >= 0.0 ==> r <= prev || r == 1.0)
    ensures dt >= 0.0 && 1.0 <= prev <= MaxTransition ==> 1.0 <= r <= MaxTransition
    ensures boosted ==> r - prev <= 5.0 * dt && (r == MaxTransition || r == prev + 5.0 * dt)
    ensures !boosted ==> prev - r <= 2.0 * dt && (r == 1.0 || r == prev - 2.0 * dt)
  {
    if boosted then Min(MaxTransition, prev + 5.0 * dt)
    else Max(1.0, prev - 2.0 * dt)
  }

  // ---------------------------------------------------------------------
  // Moving and colliding

  /** The outcome of committing the proposed move against the obstacles. */
  datatype Commit = Commit(
    x: real, z: real, isColliding: bool, crashed: bool,
    boostCollected: bool, collected: Option<ObstacleId>, reward: Option<Obstacle>)

  /** Checks the proposed position against the obstacles within 10 of it.
      A cone or a reward is picked up and the move is committed with x
      clamped; any other hit keeps the old position and flags a crash; no hit
      commits the move with x clamped. */
  function CommitMove(oldX: real, oldZ: real, newX: real, newZ: real, obstacles: seq<Obstacle>,
                      cb: Callbacks): (r: Commit)
    ensures var c := CheckCollisions(newX, newZ, ObstaclesInRange(obstacles, newX, newZ, CollisionRange));
            && (c.NoHit? ==> r == Commit(ClampToRoad(newX), newZ, false, false, false, None, None))
            && (c.Hit? && c.isBoost ==>
                  r == Commit(ClampToRoad(newX), newZ, false, false, true,
                              if cb.onObstacleCollected then Some(c.obstacle.id) else None, None))
            && (c.Hit? && c.isReward ==>
                  r == Commit(ClampToRoad(newX), newZ, false, false, false,
                              if cb.onObstacleCollected then Some(c.obstacle.id) else None, Some(c.obstacle)))
            && (c.Hit? && !c.isBoost && !c.isReward ==>
                  r == Commit(oldX, oldZ, true, true, false, None, None))
    ensures r.crashed <==> r.isColliding
    ensures !r.crashed ==> -RoadHalfWidth <= r.x <= RoadHalfWidth && r.z == newZ
    ensures r.crashed ==> r.x == oldX && r.z == oldZ
  {
    var c := CheckCollisions(newX, newZ, ObstaclesInRange(obstacles, newX, newZ, CollisionRange));
    if c.NoHit? then
      Commit(ClampToRoad(newX), newZ, false, false, false, None, None)
    else
      var id := if cb.onObstacleCollected then Some(c.obstacle.id) else None;
      if c.isBoost then Commit(ClampToRoad(newX), newZ, false, false, true, id, None)
      else if c.isReward then Commit(ClampToRoad(newX), newZ, false, false, false, id, Some(c.obstacle))
      else Commit(oldX, oldZ, true, true, false, None, None)
  }

  /** A crash happens exactly when the first obstacle overlapping the
      proposed position (in list order) is neither a cone nor a reward. */
  lemma CrashIffFirstHitIsSolid(oldX: real, oldZ: real, newX: real, newZ: real, obstacles: seq<Obstacle>,
                                cb: Callbacks)
    requires forall i :: 0 <= i < |obstacles| ==> !obstacles[i].kind.Unknown?
    ensures CommitMove(oldX, oldZ, newX, newZ, obstacles, cb).crashed <==>
              exists i :: 0 <= i < |obstacles| && FirstHitAt(newX, newZ, obstacles, i)
                          && obstacles[i].kind.Car?
  {
    RangePrefilterKeepsFirstHit(newX, newZ, obstacles);
    var c := CheckCollisions(newX, newZ, obstacles);
  }

  /** The throttled position report: only when the pre-tick position has
      drifted more than 0.25 across or 0.5 along from the last report. */
  predicate ReportDue(s: CarState) {
    Abs(s.x - s.lastSentX) > 0.25 || Abs(s.z - s.lastSentZ) > 0.5
  }

  function BoostTimeRemaining(s: CarState, now: real): (t: real)
    ensures t >= 0.0
    ensures !s.isBoosted ==> t == 0.0
    ensures s.isBoosted && now <= s.boostEndTime ==> t == s.boostEndTime - now
  {
    if s.isBoosted then Max(0.0, s.boostEndTime - now) else 0.0
  }

  function SpreadTimeRemaining(s: CarState, now: real): (t: real)
    ensures t >= 0.0
    ensures !s.spreadActive ==> t == 0.0
    ensures s.spreadActive && now <= s.spreadEndTime ==> t == s.spreadEndTime - now
  {
    if s.spreadActive then Max(0.0, s.spreadEndTime - now) else 0.0
  }

  // ---------------------------------------------------------------------
  // The tick

  /** Obstacles of the four known types only, as the generator produces. */
  predicate KnownKinds(obstacles: seq<Obstacle>) {
    forall i :: 0 <= i < |obstacles| ==> !obstacles[i].kind.Unknown?
  }

  /** The position the pre-tick speed and heading propose for this frame. */
  function Proposed(s: CarState, dt: real, sin: real -> real, cos: real -> real): (p: (real, real))
    ensures s.speed == 0.0 || dt == 0.0 ==> p == (s.x, s.z)
  {
    Travel(s.x, s.z, sin(s.rotation), cos(s.rotation), s.speed, dt)
  }

  /** Only the clock of the kind of volley fired moves, to now. */
  ghost predicate ShotClocks(s: CarState, now: real, cb: Callbacks, volley: Option<Volley>, next: CarState) {
    && (volley.None? ==> next.lastShotTime == s.lastShotTime && next.lastSpreadShotTime == s.lastSpreadShotTime)
    && (volley.Some? && !SpreadMode(s, cb) ==>
          next.lastShotTime == now && next.lastSpreadShotTime == s.lastSpreadShotTime)
    && (volley.Some? && SpreadMode(s, cb) ==>
          next.lastSpreadShotTime == now && next.lastShotTime == s.lastShotTime)
  }

  /** The driving bounds of a frame: the multiplier ramps by at most 5 dt up
      and 2 dt down and stays in [1, 1.25]; the steering stays within 0.8;
      the heading turns the way the pre-tick wheels point; the speed stays
      within the clamp of the pre-tick multiplier. */
  ghost predicate Driven(s: CarState, dt: real, next: CarState) {
    && (dt >= 0.0 && 1.0 <= s.transition <= MaxTransition ==> 1.0 <= next.transition <= MaxTransition)
    && (s.isBoosted ==> next.transition - s.transition <= 5.0 * dt)
    && (!s.isBoosted ==> s.transition - next.transition <= 2.0 * dt)
    && -MaxSteerAngle <= next.steerAngle <= MaxSteerAngle
    && (dt > 0.0 ==>
          && (next.rotation > s.rotation <==> s.steerAngle > 0.0)
          && (next.rotation < s.rotation <==> s.steerAngle < 0.0))
    && (s.transition >= 0.0 ==> -0.45 * s.transition <= next.speed <= 0.9 * s.transition)
  }

  /** The driving formulas of a frame, each fed the pre-tick values and the
      held keys: the multiplier ramp, the steering response, the turn of the
      heading, and the throttled, clamped speed, which a crash damps to a
      tenth and floors at 0. */
  ghost predicate Steered(s: CarState, dt: real, keys: Intent, next: CarState) {
    && next.transition == NextTransition(s.transition, s.isBoosted, dt)
    && next.steerAngle == NextSteer(s.steerAngle, dt, keys)
    && next.rotation == s.rotation + Turn(s.steerAngle, Abs(s.speed), dt)
    && next.speed == (if next.isColliding then Max(0.0, NextSpeed(s.speed, s.transition, dt, keys) * 0.1)
                      else NextSpeed(s.speed, s.transition, dt, keys))
  }

  /** Where a frame leaves the car: without a crash at the proposed position
      with x clamped to the road; after a crash at the old position with a
      speed between 0 and a tenth of the clamp. A boost is only on while its
      end time has not passed. */
  ghost predicate Placed(s: CarState, now: real, dt: real, sin: real -> real, cos: real -> real, next: CarState) {
    && (!next.isColliding ==>
          next.x == ClampToRoad(Proposed(s, dt, sin, cos).0) && next.z == Proposed(s, dt, sin, cos).1)
    && (next.isColliding ==>
          && next.x == s.x && next.z == s.z
          && 0.0 <= next.speed && (s.transition >= 0.0 ==> next.speed <= 0.09 * s.transition))
    && (next.isBoosted ==> now <= next.boostEndTime)
  }

  /** The reports of a frame: a reward is worth score + 100; a position
      report is made exactly when the parent listens and the car has moved
      past the thresholds, carries the pre-tick position and resets the
      reference point, which otherwise stays; the speed and HUD reports are
      made exactly when the parent listens and carry pre-tick values. */
  ghost predicate Reported(s: CarState, now: real, score: int, cb: Callbacks, r: TickResult) {
    && (r.scoreReport.Some? ==> r.scoreReport.value == score + RewardPoints)
    && (r.positionReport.Some? <==> cb.onPositionChange && ReportDue(s))
    && (r.positionReport.Some? ==>
          r.positionReport.value == (s.x, s.z) && r.next.lastSentX == s.x && r.next.lastSentZ == s.z)
    && (r.positionReport.None? ==> r.next.lastSentX == s.lastSentX && r.next.lastSentZ == s.lastSentZ)
    && (r.speedReport.Some? <==> cb.onSpeedChange)
    && (r.speedReport.Some? ==> r.speedReport.value == s.speed)
    && (r.hud.Some? <==> cb.onHUDUpdate)
    && (r.hud.Some? ==>
          && r.hud.value.speed == s.speed && r.hud.value.score == score
          && r.hud.value.isBoosted == s.isBoosted && r.hud.value.spreadShotActive == s.spreadActive
          && r.hud.value.boostTimeRemaining == BoostTimeRemaining(s, now)
          && r.hud.value.spreadShotTimeRemaining == SpreadTimeRemaining(s, now))
  }

  /** One frame: spread timer, shooting, boost expiry and transition, speed,
      steering, heading and position (all from pre-tick values), the
      collision commit, and the throttled reports.

      The volley is Shoot's and moves only its own clock; the spread shot
      switches exactly when it activates or expires; the car is Driven and
      Placed as those predicates say; with typed obstacles the outcome is the
      one the first hit in the whole list calls for (a crash on a car, a boost
      until now + 5000 on a cone, score + 100 on a reward). A position report
      carries the pre-tick position and resets the reference point; the
      speed and HUD reports carry pre-tick values. */
  function Tick(s: CarState, now: real, dt: real, keys: Intent, score: int, obstacles: seq<Obstacle>,
                cb: Callbacks, sin: real -> real, cos: real -> real): (r: TickResult)
    ensures r.volley == Shoot(s, now, keys, cb, sin, cos).0
    ensures ShotClocks(s, now, cb, r.volley, r.next)
    ensures r.next.spreadActive != s.spreadActive <==> SpreadActivates(s, score) || SpreadExpires(s, now)
    ensures Driven(s, dt, r.next)
    ensures Placed(s, now, dt, sin, cos, r.next)
    ensures Reported(s, now, score, cb, r)
    ensures Steered(s, dt, keys, r.next)
    ensures KnownKinds(obstacles) ==>
              HitOutcome(s, now, score, cb, FirstHit(s, dt, obstacles, sin, cos),
                         r.next, r.collected, r.scoreReport, r.rewardBurst)
  {
    var fire := Shoot(s, now, keys, cb, sin, cos);
    var p := Proposed(s, dt, sin, cos);
    var m := CommitMove(s.x, s.z, p.0, p.1, obstacles, cb);
    Pickups(s, now, dt, keys, score, obstacles, cb, sin, cos);
    TickResult(
      Advance(s, now, dt, keys, score, obstacles, cb, sin, cos),
      fire.0,
      m.collected,
      ScoreReport(m.reward, score, cb),
      RewardBurst(m.reward, cb),
      if cb.onPositionChange && ReportDue(s) then Some((s.x, s.z)) else None,
      if cb.onSpeedChange then Some(s.speed) else None,
      if cb.onHUDUpdate then
        Some(Hud(s.speed, s.isBoosted, BoostTimeRemaining(s, now), score,
                 s.spreadActive, SpreadTimeRemaining(s, now)))
      else None)
  }

  /** The next car state of a frame: the driving part, then the clock of the
      volley fired, the spread-shot timer and the position-report reference
      point, all read from pre-tick values. */
  function Advance(s: CarState, now: real, dt: real, keys: Intent, score: int, obstacles: seq<Obstacle>,
                   cb: Callbacks, sin: real -> real, cos: real -> real): (t: CarState)
    ensures ShotClocks(s, now, cb, Shoot(s, now, keys, cb, sin, cos).0, t)
    ensures t.spreadActive != s.spreadActive <==> SpreadActivates(s, score) || SpreadExpires(s, now)
    ensures cb.onPositionChange && ReportDue(s) ==> t.lastSentX == s.x && t.lastSentZ == s.z
    ensures !(cb.onPositionChange && ReportDue(s)) ==> t.lastSentX == s.lastSentX && t.lastSentZ == s.lastSentZ
    ensures Driven(s, dt, t)
    ensures Placed(s, now, dt, sin, cos, t)
    ensures Steered(s, dt, keys, t)
    ensures var d := Drive(s, now, dt, keys, obstacles, cb, sin, cos);
            t.isColliding == d.isColliding && t.isBoosted == d.isBoosted && t.boostEndTime == d.boostEndTime
  {
    var timer := SpreadTimer(s, score, now);
    var fire := Shoot(s, now, keys, cb, sin, cos);
    var report := cb.onPositionChange && ReportDue(s);
    Drive(s, now, dt, keys, obstacles, cb, sin, cos).(
      lastShotTime := fire.1.lastShotTime, lastSpreadShotTime := fire.1.lastSpreadShotTime,
      spreadActive := timer.spreadActive, spreadEndTime := timer.spreadEndTime,
      lastSpreadScore := timer.lastSpreadScore,
      lastSentX := if report then s.x else s.lastSentX,
      lastSentZ := if report then s.z else s.lastSentZ)
  }

  /** The driving part of a frame: boost expiry and transition, speed,
      steering and heading from pre-tick values, then the collision commit
      of the proposed position. */
  function Drive(s: CarState, now: real, dt: real, keys: Intent, obstacles: seq<Obstacle>,
                 cb: Callbacks, sin: real -> real, cos: real -> real): (t: CarState)
    ensures Driven(s, dt, t)
    ensures Placed(s, now, dt, sin, cos, t)
    ensures Steered(s, dt, keys, t)
    ensures KnownKinds(obstacles) ==>
              var c := FirstHit(s, dt, obstacles, sin, cos);
              && (t.isColliding <==> c.Hit? && c.obstacle.kind.Car?)
              && (c.Hit? && c.obstacle.kind.Cone? ==> t.isBoosted && t.boostEndTime == now + BoostDuration)
              && (!(c.Hit? && c.obstacle.kind.Cone?) ==>
                    t.boostEndTime == s.boostEndTime && (t.isBoosted <==> s.isBoosted && now <= s.boostEndTime))
  {
    var p := Proposed(s, dt, sin, cos);
    var m := CommitMove(s.x, s.z, p.0, p.1, obstacles, cb);
    CommitFacts(s.x, s.z, p.0, p.1, obstacles, cb);
    MovedFacts(s, now, dt, keys, m);
    Moved(s, now, dt, keys, m)
  }

  /** The first obstacle, in list order, that the proposed position overlaps. */
  function FirstHit(s: CarState, dt: real, obstacles: seq<Obstacle>, sin: real -> real, cos: real -> real): (c: CollisionResult)
    ensures c.Hit? ==> c.obstacle in obstacles
  {
    CheckCollisions(Proposed(s, dt, sin, cos).0, Proposed(s, dt, sin, cos).1, obstacles)
  }

  /** What a first hit c means for the rest of the frame: the car crashes
      exactly when c is a car; a cone restarts the boost until now + 5000
      whatever the previous expiry, and without one the expiry is kept and
      the boost only runs while it has not passed; every non-car hit is
      reported as collected, and a reward as score + 100 with a burst at its
      position. */
  ghost predicate HitOutcome(s: CarState, now: real, score: int, cb: Callbacks, c: CollisionResult,
                             next: CarState, collected: Option<ObstacleId>,
                             scoreReport: Option<int>, burst: Option<Vec3>)
  {
    && (next.isColliding <==> c.Hit? && c.obstacle.kind.Car?)
    && (c.Hit? && c.obstacle.kind.Cone? ==> next.isBoosted && next.boostEndTime == now + BoostDuration)
    && (!(c.Hit? && c.obstacle.kind.Cone?) ==>
          next.boostEndTime == s.boostEndTime && (next.isBoosted <==> s.isBoosted && now <= s.boostEndTime))
    && (collected.Some? <==> cb.onObstacleCollected && c.Hit? && !c.obstacle.kind.Car?)
    && (collected.Some? ==> c.Hit? && collected.value == c.obstacle.id)
    && (scoreReport.Some? <==> cb.onScoreUpdate && c.Hit? && c.obstacle.kind.Reward?)
    && (scoreReport.Some? ==> scoreReport.value == score + RewardPoints)
    && (burst.Some? <==> cb.onRewardCollected && c.Hit? && c.obstacle.kind.Reward?)
    && (burst.Some? ==> c.Hit? && burst.value == Vec3(c.obstacle.x, 1.0, c.obstacle.z))
  }

  /** With typed obstacles, the collision outcome of a frame is the one its
      first hit in the whole list calls for. */
  lemma Pickups(s: CarState, now: real, dt: real, keys: Intent, score: int, obstacles: seq<Obstacle>,
                cb: Callbacks, sin: real -> real, cos: real -> real)
    ensures KnownKinds(obstacles) ==>
              var m := CommitMove(s.x, s.z, Proposed(s, dt, sin, cos).0, Proposed(s, dt, sin, cos).1, obstacles, cb);
              HitOutcome(s, now, score, cb, FirstHit(s, dt, obstacles, sin, cos),
                         Advance(s, now, dt, keys, score, obstacles, cb, sin, cos),
                         m.collected, ScoreReport(m.reward, score, cb), RewardBurst(m.reward, cb))
  {
    var p := Proposed(s, dt, sin, cos);
    CommitFacts(s.x, s.z, p.0, p.1, obstacles, cb);
  }

  /** What the driving update makes of a commit. */
  lemma MovedFacts(s: CarState, now: real, dt: real, keys: Intent, m: Commit)
    requires m.crashed <==> m.isColliding
    ensures var t := Moved(s, now, dt, keys, m);
            && (dt >= 0.0 && 1.0 <= s.transition <= MaxTransition ==> 1.0 <= t.transition <= MaxTransition)
            && (s.isBoosted ==> t.transition - s.transition <= 5.0 * dt)
            && (!s.isBoosted ==> s.transition - t.transition <= 2.0 * dt)
            && -MaxSteerAngle <= t.steerAngle <= MaxSteerAngle
            && (dt > 0.0 ==>
                  && (t.rotation > s.rotation <==> s.steerAngle > 0.0)
                  && (t.rotation < s.rotation <==> s.steerAngle < 0.0))
            && (s.transition >= 0.0 ==> -0.45 * s.transition <= t.speed <= 0.9 * s.transition)
            && (t.isColliding ==> 0.0 <= t.speed && (s.transition >= 0.0 ==> t.speed <= 0.09 * s.transition))
            && t.x == m.x && t.z == m.z && t.isColliding == m.isColliding
            && (t.isBoosted ==> now <= t.boostEndTime)
            && (m.boostCollected ==> t.isBoosted && t.boostEndTime == now + BoostDuration)
            && (!m.boostCollected ==>
                  t.boostEndTime == s.boostEndTime && (t.isBoosted <==> s.isBoosted && now <= s.boostEndTime))
  {
    var v := NextSpeed(s.speed, s.transition, dt, keys);
    var d := Turn(s.steerAngle, Abs(s.speed), dt);
  }

  /** The commit of a proposed move, read against the first obstacle the
      proposed position overlaps in the whole list. */
  lemma CommitFacts(oldX: real, oldZ: real, newX: real, newZ: real, obstacles: seq<Obstacle>, cb: Callbacks)
    ensures var m := CommitMove(oldX, oldZ, newX, newZ, obstacles, cb);
            && (m.crashed <==> m.isColliding)
            && (!m.isColliding ==> m.x == ClampToRoad(newX) && m.z == newZ)
            && (m.isColliding ==> m.x == oldX && m.z == oldZ)
    ensures KnownKinds(obstacles) ==>
              var m := CommitMove(oldX, oldZ, newX, newZ, obstacles, cb);
              var c := CheckCollisions(newX, newZ, obstacles);
              && (m.isColliding <==> c.Hit? && c.obstacle.kind.Car?)
              && (m.boostCollected <==> c.Hit? && c.obstacle.kind.Cone?)
              && (m.collected.Some? <==> cb.onObstacleCollected && c.Hit? && !c.obstacle.kind.Car?)
              && (m.collected.Some? ==> c.Hit? && m.collected.value == c.obstacle.id)
              && (m.reward.Some? <==> c.Hit? && c.obstacle.kind.Reward?)
              && (m.reward.Some? ==> c.Hit? && m.reward.value == c.obstacle)
  {
    if KnownKinds(obstacles) {
      RangePrefilterKeepsFirstHit(newX, newZ, obstacles);
      var c := CheckCollisions(newX, newZ, obstacles);
      if c.Hit? {
        var i :| 0 <= i < |obstacles| && obstacles[i] == c.obstacle && FirstHitAt(newX, newZ, obstacles, i);
      }
    }
  }

  /** The driving part of the next state, from the committed move: the
      position and collision flag of the commit, the multiplier, speed,
      steering and heading from pre-tick values (a crash damps the speed to
      a tenth, never negative), and the boost flag (a cone overrides this
      tick's expiry). */
  function Moved(s: CarState, now: real, dt: real, keys: Intent, m: Commit): (t: CarState)
    ensures t.x == m.x && t.z == m.z && t.isColliding == m.isColliding
    ensures t.transition == NextTransition(s.transition, s.isBoosted, dt)
    ensures t.steerAngle == NextSteer(s.steerAngle, dt, keys)
    ensures t.rotation == s.rotation + Turn(s.steerAngle, Abs(s.speed), dt)
    ensures !m.crashed ==> t.speed == NextSpeed(s.speed, s.transition, dt, keys)
    ensures m.crashed ==> t.speed == Max(0.0, NextSpeed(s.speed, s.transition, dt, keys) * 0.1)
    ensures m.boostCollected ==> t.isBoosted && t.boostEndTime == now + BoostDuration
    ensures !m.boostCollected ==>
              t.boostEndTime == s.boostEndTime && (t.isBoosted <==> s.isBoosted && now <= s.boostEndTime)
    ensures && t.lastShotTime == s.lastShotTime && t.lastSpreadShotTime == s.lastSpreadShotTime
            && t.spreadActive == s.spreadActive && t.spreadEndTime == s.spreadEndTime
            && t.lastSpreadScore == s.lastSpreadScore
            && t.lastSentX == s.lastSentX && t.lastSentZ == s.lastSentZ
  {
    var speed := NextSpeed(s.speed, s.transition, dt, keys);
    s.(x := m.x, z := m.z,
       rotation := s.rotation + Turn(s.steerAngle, Abs(s.speed), dt),
       speed := if m.crashed then Max(0.0, speed * 0.1) else speed,
       steerAngle := NextSteer(s.steerAngle, dt, keys),
       isColliding := m.isColliding,
       isBoosted := if m.boostCollected then true else s.isBoosted && now <= s.boostEndTime,
       boostEndTime := if m.boostCollected then now + BoostDuration else s.boostEndTime,
       transition := NextTransition(s.transition, s.isBoosted, dt))
  }

  /** A picked-up reward is worth 100 points, reported when the parent
      listens. */
  function ScoreReport(reward: Option<Obstacle>, score: int, cb: Callbacks): (r: Option<int>)
    ensures r.Some? <==> reward.Some? && cb.onScoreUpdate
    ensures r.Some? ==> r.value == score + RewardPoints
  {
    match reward
    case Some(_) => if cb.onScoreUpdate then Some(score + RewardPoints) else None
    case None => None
  }

  /** A picked-up reward bursts at its own position, lifted to y = 1. */
  function RewardBurst(reward: Option<Obstacle>, cb: Callbacks): (r: Option<Vec3>)
    ensures r.Some? <==> reward.Some? && cb.onRewardCollected
    ensures r.Some? ==> r.value == Vec3(reward.value.x, 1.0, reward.value.z)
  {
    match reward
    case Some(o) => if cb.onRewardCollected then Some(Vec3(o.x, 1.0, o.z)) else None
    case None => None
  }

  /** The bounds every reachable state keeps: on the road, multiplier in
      [1, 1.25], steering within 0.8, and speed within the widest clamp
      (the clamp uses the pre-tick multiplier, so speed can briefly exceed
      0.9 times the current one while the multiplier falls). */
  predicate Inv(s: CarState) {
    && -RoadHalfWidth <= s.x <= RoadHalfWidth
    && 1.0 <= s.transition <= MaxTransition
    && -MaxSteerAngle <= s.steerAngle <= MaxSteerAngle
    && -0.45 * MaxTransition <= s.speed <= 0.9 * MaxTransition
  }

  lemma InitialInv()
    ensures Inv(Initial)
  {
  }

  /** Every tick with a non-negative frame time preserves the bounds. */
  lemma TickPreservesInv(s: CarState, now: real, dt: real, keys: Intent, score: int, obstacles: seq<Obstacle>,
                         cb: Callbacks, sin: real -> real, cos: real -> real)
    requires Inv(s) && dt >= 0.0
    ensures Inv(Tick(s, now, dt, keys, score, obstacles, cb, sin, cos).next)
  {
    var p := Proposed(s, dt, sin, cos);
    var m := CommitMove(s.x, s.z, p.0, p.1, obstacles, cb);
    MovedKeepsInv(s, now, dt, keys, m);
  }

  /** The driving update keeps the bounds whenever the commit either stays
      put or lands on the road. */
  lemma MovedKeepsInv(s: CarState, now: real, dt: real, keys: Intent, m: Commit)
    requires Inv(s) && dt >= 0.0
    requires m.crashed ==> m.x == s.x
    requires !m.crashed ==> -RoadHalfWidth <= m.x <= RoadHalfWidth
    ensures Inv(Moved(s, now, dt, keys, m))
  {
    var v := NextSpeed(s.speed, s.transition, dt, keys);
    assert -0.45 * s.transition <= v <= 0.9 * s.transition;
  }

  /** After every tick the last reported position is within the report
      thresholds of the position the tick started from, so the parent never
      lags by more than 0.25 across and 0.5 along plus one frame's move. */
  lemma ReportedPositionLag(s: CarState, now: real, dt: real, keys: Intent, score: int, obstacles: seq<Obstacle>,
                            cb: Callbacks, sin: real -> real, cos: real -> real)
    requires cb.onPositionChange
    ensures var n := Tick(s, now, dt, keys, score, obstacles, cb, sin, cos).next;
            Abs(s.x - n.lastSentX) <= 0.25 && Abs(s.z - n.lastSentZ) <= 0.5
  {
  }

  /** As wired in the scene (score fixed at 0, no spread or score callback),
      the spread shot never activates from the initial threshold, every volley
      is a single shot, and no score report is made. */
  lemma SceneNeverSpreads(s: CarState, now: real, dt: real, keys: Intent, obstacles: seq<Obstacle>,
                          sin: real -> real, cos: real -> real)
    requires s.lastSpreadScore >= 0 && !s.spreadActive
    ensures var r := Tick(s, now, dt, keys, 0, obstacles, SceneCallbacks, sin, cos);
            && !r.next.spreadActive
            && (r.volley.Some? ==> r.volley.value.Single?)
            && r.scoreReport.None?
  {
  }
}
