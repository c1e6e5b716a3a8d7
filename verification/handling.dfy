/** The driving formulas shared, constant for constant, by both vehicle rule
    sets (src/hooks/useCarPhysics.ts and the frame tick of
    src/components/Car.tsx): throttle and brake with coasting, the clamped
    speed, steering with self-centring, the speed-dependent turn factor, and
    the forward move. The two rule sets differ in WHICH values they feed into
    these formulas, and are modelled separately in PhysicsHook and CarTick. */
module Handling {
  import opened Maths

  const BaseMaxSpeed: real := 0.9
  const BaseAcceleration: real := 1.8
  const Deceleration: real := 0.8
  const BrakeDeceleration: real := 2.0
  const MaxSteerAngle: real := 0.8
  const SteerSpeed: real := 3.0
  /** Half the road grid (20) less a car-width margin. */
  const RoadHalfWidth: real := 18.0
  /** World units travelled per unit of speed per second (speed is per 1/60 s). */
  const UnitsPerSecond: real := 60.0

  /** The held keys, as a boolean intent record. */
  datatype Intent = Intent(left: bool, right: bool, up: bool, down: bool, shoot: bool)

  predicate Coasting(keys: Intent) {
    !keys.up && !keys.down
  }

  predicate Centring(keys: Intent) {
    !keys.left && !keys.right
  }

  /** Natural deceleration: move toward 0 by `step` without crossing it. */
  function Coast(v: real, step: real): (r: real)
    ensures step >= 0.0 ==> Abs(r) == Max(0.0, Abs(v) - step)
    ensures step >= 0.0 ==> (v >= 0.0 ==> r >= 0.0) && (v <= 0.0 ==> r <= 0.0)
  {
    if v > 0.0 then Max(0.0, v - step)
    else if v < 0.0 then Min(0.0, v + step)
    else v
  }

  /** The unclamped speed: up wins over down, and coasting applies only when
      neither is held. Acceleration scales with the boost multiplier b,
      braking and coasting do not. */
  function Throttle(v: real, b: real, dt: real, keys: Intent): (r: real)
    ensures keys.up ==> r == v + BaseAcceleration * b * dt
    ensures !keys.up && keys.down ==> r == v - BrakeDeceleration * dt
    ensures Coasting(keys) && dt >= 0.0 ==>
              Abs(r) == Max(0.0, Abs(v) - Deceleration * dt) && r * v >= 0.0
  {
    if keys.up then v + BaseAcceleration * b * dt
    else if keys.down then v - BrakeDeceleration * dt
    else Coast(v, Deceleration * dt)
  }

  /** The speed after one frame: the throttle result clamped to
      [-maxSpeed / 2, maxSpeed] with maxSpeed = 0.9 b. */
  function NextSpeed(v: real, b: real, dt: real, keys: Intent): (r: real)
    ensures b >= 0.0 ==> -0.45 * b <= r <= 0.9 * b
    ensures b >= 0.0 && -0.45 * b <= Throttle(v, b, dt, keys) <= 0.9 * b ==> r == Throttle(v, b, dt, keys)
  {
    var maxSpeed := BaseMaxSpeed * b;
    Clamp(Throttle(v, b, dt, keys), -maxSpeed * 0.5, maxSpeed)
  }

  /** From a speed inside the bounds, holding up never slows the car, holding
      only down never speeds it up, and coasting never increases the speed's
      magnitude nor reverses its direction. */
  lemma SpeedResponse(v: real, b: real, dt: real, keys: Intent)
    requires b >= 0.0 && dt >= 0.0
    requires -0.45 * b <= v <= 0.9 * b
    ensures keys.up ==> NextSpeed(v, b, dt, keys) >= v
    ensures !keys.up && keys.down ==> NextSpeed(v, b, dt, keys) <= v
    ensures Coasting(keys) ==>
              Abs(NextSpeed(v, b, dt, keys)) <= Abs(v) && NextSpeed(v, b, dt, keys) * v >= 0.0
  {
    var t := Throttle(v, b, dt, keys);
    if Coasting(keys) {
      assert -0.45 * b <= t <= 0.9 * b;
    }
  }

  /** The steering angle after one frame: left wins over right; with neither
      held an angle beyond 0.1 decays by a factor 0.8 and a smaller one snaps
      to 0; the result is clamped to [-0.8, 0.8]. */
  function NextSteer(a: real, dt: real, keys: Intent): (r: real)
    ensures -MaxSteerAngle <= r <= MaxSteerAngle
    ensures keys.left ==> r == Clamp(a + SteerSpeed * dt, -MaxSteerAngle, MaxSteerAngle)
    ensures !keys.left && keys.right ==> r == Clamp(a - SteerSpeed * dt, -MaxSteerAngle, MaxSteerAngle)
    ensures Centring(keys) && Abs(a) > 0.1 ==> r == Clamp(0.8 * a, -MaxSteerAngle, MaxSteerAngle)
    ensures Centring(keys) && Abs(a) <= 0.1 ==> r == 0.0
  {
    var raw :=
      if keys.left then a + SteerSpeed * dt
      else if keys.right then a - SteerSpeed * dt
      else if Abs(a) > 0.1 then a * 0.8
      else 0.0;
    Clamp(raw, -MaxSteerAngle, MaxSteerAngle)
  }

  /** Self-centring shrinks the angle by at least a factor 0.8 and never
      flips its side. */
  lemma CentringShrinks(a: real, dt: real, keys: Intent)
    requires Centring(keys)
    ensures Abs(NextSteer(a, dt, keys)) <= 0.8 * Abs(a)
    ensures a >= 0.0 ==> NextSteer(a, dt, keys) >= 0.0
    ensures a <= 0.0 ==> NextSteer(a, dt, keys) <= 0.0
  {
  }

  /** `n` frames with no steering key held. */
  function Centre(a: real, n: nat): (r: real)
    ensures -MaxSteerAngle <= r <= MaxSteerAngle || (n == 0 && r == a)
  {
    if n == 0 then a else NextSteer(Centre(a, n - 1), 0.0, Intent(false, false, false, false, false))
  }

  /** m scaled by 0.8, n times. */
  function Shrunk(m: real, n: nat): (r: real)
    ensures m >= 0.0 ==> 0.0 <= r <= m
  {
    if n == 0 then m else 0.8 * Shrunk(m, n - 1)
  }

  lemma {:induction false} CentreBound(a: real, n: nat)
    ensures Abs(Centre(a, n)) <= Shrunk(Abs(a), n)
  {
    if n > 0 {
      var prev := Centre(a, n - 1);
      CentreBound(a, n - 1);
      CentringShrinks(prev, 0.0, Intent(false, false, false, false, false));
    }
  }

  /** Released steering returns exactly to straight ahead within 11 frames
      from any reachable angle. */
  lemma SteeringSettles(a: real)
    requires -MaxSteerAngle <= a <= MaxSteerAngle
    ensures Centre(a, 11) == 0.0
  {
    CentreBound(a, 10);
    ShrunkMonotone(Abs(a), 0.8, 10);
    assert Shrunk(0.8, 10) < 0.1 by {
      assert Shrunk(0.8, 5) == 0.262144;
    }
  }

  lemma {:induction false} ShrunkMonotone(m: real, m': real, n: nat)
    requires m <= m'
    ensures Shrunk(m, n) <= Shrunk(m', n)
  {
    if n > 0 {
      ShrunkMonotone(m, m', n - 1);
    }
  }

  /** The speed-dependent turn factor: very manoeuvrable below 0.2, less so
      below 0.4, and proportional to speed (but at least 0.3) above. */
  function TurnFactor(absSpeed: real): (f: real)
    ensures f >= 0.3
    ensures absSpeed < 0.2 ==> f == 0.8
    ensures 0.2 <= absSpeed < 0.4 ==> f == 0.6
    ensures absSpeed >= 0.4 ==> f == absSpeed
  {
    if absSpeed < 0.2 then 0.8
    else if absSpeed < 0.4 then 0.6
    else Max(0.3, absSpeed)
  }

  /** The heading change of one frame: steer * factor * 2 * dt. It turns the
      way the wheels point, and only when they are not straight. */
  function Turn(steer: real, absSpeed: real, dt: real): (d: real)
    ensures dt > 0.0 ==> (d > 0.0 <==> steer > 0.0) && (d < 0.0 <==> steer < 0.0)
    ensures d == 2.0 * dt * steer * TurnFactor(absSpeed)
    ensures dt >= 0.0 ==> Abs(d) >= 0.6 * Abs(steer) * dt
  {
    var turnRate := steer * TurnFactor(absSpeed) * 2.0;
    if dt >= 0.0 then
      TurnBound(steer, TurnFactor(absSpeed), dt);
      turnRate * dt
    else
      turnRate * dt
  }

  /** A factor of at least 0.3, doubled, turns by at least 0.6 |steer| dt. */
  lemma TurnBound(steer: real, f: real, dt: real)
    requires f >= 0.3 && dt >= 0.0
    ensures Abs(steer * f * 2.0 * dt) >= 0.6 * Abs(steer) * dt
  {
    var a := Abs(steer) * dt;
    assert a >= 0.0;
    assert Abs(steer * f * 2.0 * dt) == a * (2.0 * f);
    Scale(2.0 * f, 0.6, a);
  }

  /** The forward move: the car drives along -(sin h, cos h) for heading h. */
  function Travel(x: real, z: real, sinH: real, cosH: real, speed: real, dt: real): (p: (real, real))
    ensures speed == 0.0 || dt == 0.0 ==> p == (x, z)
  {
    var k := speed * dt * UnitsPerSecond;
    assert speed == 0.0 || dt == 0.0 ==> k == 0.0 && sinH * k == 0.0 && cosH * k == 0.0;
    (x - sinH * k, z - cosH * k)
  }

  /** With a unit heading vector the move covers exactly |speed| * dt * 60. */
  lemma TravelDistance(x: real, z: real, sinH: real, cosH: real, speed: real, dt: real)
    requires sinH * sinH + cosH * cosH == 1.0
    ensures var p := Travel(x, z, sinH, cosH, speed, dt);
            (p.0 - x) * (p.0 - x) + (p.1 - z) * (p.1 - z)
              == (speed * dt * UnitsPerSecond) * (speed * dt * UnitsPerSecond)
  {
    var k := speed * dt * UnitsPerSecond;
    var p := Travel(x, z, sinH, cosH, speed, dt);
    calc {
      (p.0 - x) * (p.0 - x) + (p.1 - z) * (p.1 - z);
      (sinH * sinH + cosH * cosH) * (k * k);
      k * k;
    }
  }

  /** `Math.max(-18, Math.min(18, x))`. */
  function ClampToRoad(x: real): (r: real)
    ensures -RoadHalfWidth <= r <= RoadHalfWidth
    ensures -RoadHalfWidth <= x <= RoadHalfWidth ==> r == x
    ensures Abs(r) <= Abs(x)
  {
    Clamp(x, -RoadHalfWidth, RoadHalfWidth)
  }
}
