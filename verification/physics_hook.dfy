/** The vehicle physics hook (src/hooks/useCarPhysics.ts). Its state lives in
    mutable refs, so every step reads the values the previous step just wrote:
    the heading change uses the freshly clamped speed and steering angle, and
    the proposed move uses the freshly turned heading. `Math.sin` and
    `Math.cos` are parameters. */
module PhysicsHook {
  import opened Maths
  import opened Handling

  datatype PhysicsState = PhysicsState(x: real, z: real, rotation: real, speed: real, steerAngle: real)

  /** What updatePhysics hands back: the proposed position and the trig of
      the new heading (for the bounce). */
  datatype Proposal = Proposal(newX: real, newZ: real, sinAngle: real, cosAngle: real)

  const Initial: PhysicsState := PhysicsState(0.0, 0.0, 0.0, 0.0, 0.0)

  /** updatePhysics with boost multiplier b: speed, steering and heading are
      updated; the position is not, only proposed. */
  function UpdatePhysics(s: PhysicsState, b: real, dt: real, keys: Intent,
                         sin: real -> real, cos: real -> real): (r: (PhysicsState, Proposal))
    ensures r.0.x == s.x && r.0.z == s.z
    ensures b >= 0.0 ==> -0.45 * b <= r.0.speed <= 0.9 * b
    ensures -MaxSteerAngle <= r.0.steerAngle <= MaxSteerAngle
    ensures r.0.speed == NextSpeed(s.speed, b, dt, keys)
    ensures r.0.steerAngle == NextSteer(s.steerAngle, dt, keys)
    ensures r.0.rotation == s.rotation + Turn(r.0.steerAngle, Abs(r.0.speed), dt)
    ensures r.1.sinAngle == sin(r.0.rotation) && r.1.cosAngle == cos(r.0.rotation)
    ensures (r.1.newX, r.1.newZ) == Travel(s.x, s.z, r.1.sinAngle, r.1.cosAngle, r.0.speed, dt)
  {
    var speed := NextSpeed(s.speed, b, dt, keys);
    var steer := NextSteer(s.steerAngle, dt, keys);
    var rotation := s.rotation + Turn(steer, Abs(speed), dt);
    var sinA := sin(rotation);
    var cosA := cos(rotation);
    var p := Travel(s.x, s.z, sinA, cosA, speed, dt);
    (s.(rotation := rotation, speed := speed, steerAngle := steer), Proposal(p.0, p.1, sinA, cosA))
  }

  /** updatePosition: x is clamped to the road, z is stored as given, and
      nothing else changes. */
  function UpdatePosition(s: PhysicsState, x: real, z: real): (r: PhysicsState)
    ensures -RoadHalfWidth <= r.x <= RoadHalfWidth
    ensures -RoadHalfWidth <= x <= RoadHalfWidth ==> r.x == x
    ensures x < -RoadHalfWidth ==> r.x == -RoadHalfWidth
    ensures x > RoadHalfWidth ==> r.x == RoadHalfWidth
    ensures r.z == z
    ensures r.rotation == s.rotation && r.speed == s.speed && r.steerAngle == s.steerAngle
  {
    s.(x := ClampToRoad(x), z := z)
  }

  /** Storing a stored position again changes nothing. */
  lemma UpdatePositionIdempotent(s: PhysicsState, x: real, z: real)
    ensures var t := UpdatePosition(s, x, z);
            UpdatePosition(t, t.x, t.z) == t
  {
  }

  const BounceThreshold: real := 0.05
  const BounceScale: real := 4.5

  /** handleCollisionBounce: a crawl (|speed| < 0.05) just stops; anything
      faster is pushed back along the heading by 4.5 |speed| (x clamped to the
      road) and reversed at half speed. Heading and steering are untouched. */
  function HandleCollisionBounce(s: PhysicsState, sinA: real, cosA: real): (r: PhysicsState)
    ensures r.rotation == s.rotation && r.steerAngle == s.steerAngle
    ensures Abs(s.speed) < BounceThreshold ==> r.speed == 0.0 && r.x == s.x && r.z == s.z
    ensures Abs(s.speed) >= BounceThreshold ==>
              && r.speed == -Abs(s.speed) * 0.5
              && r.x == ClampToRoad(s.x + sinA * Abs(s.speed) * BounceScale)
              && r.z == s.z + cosA * Abs(s.speed) * BounceScale
    ensures r.speed <= 0.0 && Abs(r.speed) <= Abs(s.speed) / 2.0
  {
    var currentSpeed := Abs(s.speed);
    if currentSpeed < BounceThreshold then
      s.(speed := 0.0)
    else
      var bounceDistance := currentSpeed * BounceScale;
      var bounceX := s.x + sinA * bounceDistance;
      var bounceZ := s.z + cosA * bounceDistance;
      s.(x := ClampToRoad(bounceX), z := bounceZ, speed := -currentSpeed * 0.5)
  }

  /** The bounce pushes the car back exactly along the direction the move
      would have taken it forward: from the same heading, the bounce
      displacement is -4.5 |speed| / (speed dt 60) times the move's. */
  lemma BounceOpposesTravel(s: PhysicsState, sinA: real, cosA: real, dt: real)
    requires Abs(s.speed) >= BounceThreshold && s.speed > 0.0 && dt > 0.0
    requires -RoadHalfWidth <= s.x + sinA * Abs(s.speed) * BounceScale <= RoadHalfWidth
    ensures var p := Travel(s.x, s.z, sinA, cosA, s.speed, dt);
            var r := HandleCollisionBounce(s, sinA, cosA);
            && (r.x - s.x) * (s.speed * dt * UnitsPerSecond) == -(p.0 - s.x) * (s.speed * BounceScale)
            && (r.z - s.z) * (s.speed * dt * UnitsPerSecond) == -(p.1 - s.z) * (s.speed * BounceScale)
  {
    var k := s.speed * dt * UnitsPerSecond;
    var d := s.speed * BounceScale;
    var r := HandleCollisionBounce(s, sinA, cosA);
    assert r.x - s.x == sinA * d;
    assert r.z - s.z == cosA * d;
    var p := Travel(s.x, s.z, sinA, cosA, s.speed, dt);
    assert p.0 - s.x == -(sinA * k);
    assert p.1 - s.z == -(cosA * k);
    assert (sinA * d) * k == (sinA * k) * d;
    assert (cosA * d) * k == (cosA * k) * d;
  }

  /** The envelope every hook state stays in under multiplier b. */
  predicate Envelope(s: PhysicsState, b: real) {
    && -0.45 * b <= s.speed <= 0.9 * b
    && -MaxSteerAngle <= s.steerAngle <= MaxSteerAngle
    && -RoadHalfWidth <= s.x <= RoadHalfWidth
  }

  /** One frame as the hook's caller sequences it: updatePhysics, then either
      the bounce (on a collision at the proposed position) or updatePosition
      with the proposal. */
  function HookFrame(s: PhysicsState, b: real, dt: real, keys: Intent, sin: real -> real, cos: real -> real,
                     collides: bool): (r: PhysicsState)
    ensures b >= 0.0 && Envelope(s, b) ==> Envelope(r, b)
  {
    var u := UpdatePhysics(s, b, dt, keys, sin, cos);
    if collides then
      var t := HandleCollisionBounce(u.0, u.1.sinAngle, u.1.cosAngle);
      assert b >= 0.0 ==> Abs(u.0.speed) <= 0.9 * b;
      t
    else
      UpdatePosition(u.0, u.1.newX, u.1.newZ)
  }

  /** The initial state lies in the envelope of every non-negative multiplier. */
  lemma InitialInEnvelope(b: real)
    requires b >= 0.0
    ensures Envelope(Initial, b)
  {
  }
}
