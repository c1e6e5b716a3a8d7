/** The area missile (src/components/AreaMissile.tsx): a ballistic launch
    solution, the per-frame flight with gravity, the ground burst that
    damages every blue car within 12 units, and the three expiry rules (the
    8-second fail-safe, the out-of-world box and the 120-unit range).
    `Math.sin`, `Math.cos` and the one square root of the launch solution are
    parameters; the other square roots become comparisons of squares. */
module Missile {
  import opened Maths
  import opened Seqs
  import opened Collision

  const Gravity: real := 50.0
  const DesiredRange: real := 45.0
  const VerticalSpeed: real := 25.0
  /** Horizontal speed always added on top of the car's. */
  const SpeedMargin: real := 15.0
  const BlastRadius: real := 12.0
  const MaxRange: real := 120.0
  const FailSafeTime: real := 8.0
  const WarmUpTime: real := 0.5
  const GroundLevel: real := 1.0

  datatype MissileState = MissileState(spawn: Vec3, pos: Vec3, vel: Vec3, life: real, exploded: bool)

  /** What a frame tells the parent. */
  datatype Event =
    | Idle
    | Flying
    | Expire
    | Burst(centre: Vec3, hitIds: seq<ObstacleId>)

  /** The launch flight time, (v + sqrt(v^2 + 2g)) / g, with the root given. */
  function FlightTime(root: real): (t: real)
    requires root >= 0.0
    ensures t >= VerticalSpeed / Gravity
  {
    (VerticalSpeed + root) / Gravity
  }

  /** The horizontal launch speed: |carVelocity| * 60 + 45 / flightTime + 15. */
  function HorizontalSpeed(carVelocity: real, root: real): (h: real)
    requires root >= 0.0
    ensures h > Abs(carVelocity) * 60.0 + SpeedMargin
    ensures (h - Abs(carVelocity) * 60.0 - SpeedMargin) * FlightTime(root) == DesiredRange
  {
    Abs(carVelocity) * 60.0 + DesiredRange / FlightTime(root) + SpeedMargin
  }

  /** The launch velocity: 25 upward, and the horizontal speed along the
      heading (-sin a, -cos a) with nothing across it; for a unit heading its
      horizontal part has exactly the horizontal speed as its length. */
  function LaunchVelocity(angle: real, carVelocity: real, root: real, sin: real -> real, cos: real -> real)
    : (v: Vec3)
    requires root >= 0.0
    ensures v.y == VerticalSpeed
    ensures v.x * cos(angle) == v.z * sin(angle)
    ensures -(v.x * sin(angle) + v.z * cos(angle))
         == HorizontalSpeed(carVelocity, root) * (sin(angle) * sin(angle) + cos(angle) * cos(angle))
    ensures sin(angle) * sin(angle) + cos(angle) * cos(angle) == 1.0 ==>
              v.x * v.x + v.z * v.z == HorizontalSpeed(carVelocity, root) * HorizontalSpeed(carVelocity, root)
  {
    var h := HorizontalSpeed(carVelocity, root);
    var sn := sin(angle);
    var cs := cos(angle);
    assert (-sn * h) * cs == (-cs * h) * sn;
    assert -((-sn * h) * sn + (-cs * h) * cs) == h * (sn * sn + cs * cs);
    assert (-sn * h) * (-sn * h) + (-cs * h) * (-cs * h) == (sn * sn + cs * cs) * (h * h);
    Vec3(-sn * h, VerticalSpeed, -cs * h)
  }

  /** The missile always outruns the car by more than 15 units per second;
      with the true root sqrt(725) the margin lies between 58 and 60. */
  lemma OutrunsTheCar(carVelocity: real, root: real)
    requires root >= 0.0
    ensures HorizontalSpeed(carVelocity, root) > Abs(carVelocity) * 60.0 + SpeedMargin
    ensures root * root == VerticalSpeed * VerticalSpeed + 2.0 * Gravity ==>
              Abs(carVelocity) * 60.0 + 58.0 < HorizontalSpeed(carVelocity, root) < Abs(carVelocity) * 60.0 + 60.0
  {
    var t := FlightTime(root);
    assert DesiredRange / t > 0.0;
    if root * root == VerticalSpeed * VerticalSpeed + 2.0 * Gravity {
      RootBetween(root);
      assert 51.0 / 50.0 < t < 52.0 / 50.0;
      assert DesiredRange / t * t == DesiredRange;
      assert 43.0 < DesiredRange / t < 45.0;
    }
  }

  lemma RootBetween(root: real)
    requires root >= 0.0 && root * root == 725.0
    ensures 26.0 < root < 27.0
  {
    var a := root - 26.0;
    var b := root + 26.0;
    assert a * b == root * root - 676.0;
    PositiveFactor(a, b);
    var c := 27.0 - root;
    var d := root + 27.0;
    assert c * d == 729.0 - root * root;
    PositiveFactor(c, d);
  }

  lemma PositiveFactor(a: real, b: real)
    requires a * b > 0.0 && b > 0.0
    ensures a > 0.0
  {
  }

  function Spawn(position: Vec3, angle: real, carVelocity: real, root: real, sin: real -> real, cos: real -> real)
    : (m: MissileState)
    requires root >= 0.0
    ensures m.pos == position && m.spawn == position && m.life == 0.0 && !m.exploded
    ensures m.vel == LaunchVelocity(angle, carVelocity, root, sin, cos)
  {
    MissileState(position, position, LaunchVelocity(angle, carVelocity, root, sin, cos), 0.0, false)
  }

  predicate InBlast(o: Obstacle, cx: real, cz: real) {
    o.kind.Car? && (o.x - cx) * (o.x - cx) + (o.z - cz) * (o.z - cz) <= BlastRadius * BlastRadius
  }

  /** The ids of every blue car within 12 units of the burst, in list order. */
  function AreaHits(obs: seq<Obstacle>, cx: real, cz: real): (ids: seq<ObstacleId>)
    ensures |ids| <= |obs|
    ensures forall i :: 0 <= i < |ids| ==> exists o :: o in obs && o.id == ids[i] && InBlast(o, cx, cz)
  {
    var hit := Filter(obs, o => InBlast(o, cx, cz));
    assert forall i :: 0 <= i < |hit| ==> hit[i] in obs by {
      forall i | 0 <= i < |hit| ensures hit[i] in obs {
        FilterCount(obs, o => InBlast(o, cx, cz), hit[i]);
      }
    }
    var ids := seq(|hit|, i requires 0 <= i < |hit| => hit[i].id);
    assert forall i :: 0 <= i < |ids| ==> hit[i] in obs && hit[i].id == ids[i] && InBlast(hit[i], cx, cz);
    ids
  }

  /** No blue car in the blast is missed. */
  lemma AreaHitsComplete(obs: seq<Obstacle>, cx: real, cz: real)
    ensures forall o :: o in obs && InBlast(o, cx, cz) ==> o.id in AreaHits(obs, cx, cz)
  {
    var p := (o: Obstacle) => InBlast(o, cx, cz);
    var hit := Filter(obs, p);
    forall o | o in obs && InBlast(o, cx, cz)
      ensures o.id in AreaHits(obs, cx, cz)
    {
      FilterCount(obs, p, o);
      var i :| 0 <= i < |hit| && hit[i] == o;
      assert AreaHits(obs, cx, cz)[i] == o.id;
    }
  }

  /** The hit ids come in list order: the blast reports obstacle by
      obstacle, the id of each blue car within 12 units and nothing else. */
  lemma AreaHitsInOrder(a: seq<Obstacle>, b: seq<Obstacle>, x: Obstacle, cx: real, cz: real)
    ensures AreaHits(a + b, cx, cz) == AreaHits(a, cx, cz) + AreaHits(b, cx, cz)
    ensures AreaHits([x], cx, cz) == if InBlast(x, cx, cz) then [x.id] else []
  {
    var p := (o: Obstacle) => InBlast(o, cx, cz);
    FilterAppend(a, b, p);
    var ha := Filter(a, p);
    var hb := Filter(b, p);
    var ids := AreaHits(a + b, cx, cz);
    assert |ids| == |ha| + |hb|;
    forall i | 0 <= i < |ids|
      ensures ids[i] == (AreaHits(a, cx, cz) + AreaHits(b, cx, cz))[i]
    {
      if i < |ha| {
        assert (ha + hb)[i] == ha[i];
      } else {
        assert (ha + hb)[i] == hb[i - |ha|];
      }
    }
    assert [x][1..] == [];
  }

  /** The two nested out-of-world tests: the outer warning box is implied by
      the inner expiry box, so only the inner one decides. */
  predicate OutsideWarning(p: Vec3) {
    Abs(p.x) > 50.0 || Abs(p.z) > 200.0 || p.y > 20.0 || p.y < -10.0
  }

  predicate OutsideWorld(p: Vec3) {
    Abs(p.x) > 80.0 || Abs(p.z) > 300.0 || p.y < -20.0
  }

  predicate BeyondRange(m: MissileState) {
    var dx := m.pos.x - m.spawn.x;
    var dz := m.pos.z - m.spawn.z;
    dx * dx + dz * dz > MaxRange * MaxRange
  }

  /** One frame. The fail-safe is checked first (before the exploded test);
      an exploded missile only ages. Otherwise the position advances by the
      old velocity, gravity then acts on the velocity, and the checks run in
      order: ground burst (y clamped to 1), out-of-world expiry after the
      first half second, then the range limit. */
  function Frame(m: MissileState, obs: seq<Obstacle>, dt: real): (r: (MissileState, Event))
    ensures r.0.life == m.life + dt && r.0.spawn == m.spawn
    ensures m.life + dt > FailSafeTime && !m.exploded ==> r.1 == Expire
    ensures m.exploded ==> r == (m.(life := m.life + dt), Idle)
    ensures r.1.Burst? ==>
              && !m.exploded && r.0.exploded
              && m.pos.y + m.vel.y * dt <= GroundLevel
              && r.0.pos.y == GroundLevel
              && r.1.centre == Vec3(r.0.pos.x, GroundLevel, r.0.pos.z)
              && r.1.hitIds == AreaHits(obs, r.0.pos.x, r.0.pos.z)
    ensures !m.exploded && m.life + dt <= FailSafeTime ==>
              (r.1.Burst? <==> m.pos.y + m.vel.y * dt <= GroundLevel)
    ensures r.0.exploded <==> m.exploded || r.1.Burst?
    ensures !m.exploded && !(m.life + dt > FailSafeTime) ==>
              && r.0.pos.x == m.pos.x + m.vel.x * dt
              && r.0.pos.z == m.pos.z + m.vel.z * dt
              && r.0.vel == m.vel.(y := m.vel.y - Gravity * dt)
  {
    var life := m.life + dt;
    if life > FailSafeTime && !m.exploded then
      (m.(life := life), Expire)
    else if m.exploded then
      (m.(life := life), Idle)
    else
      var pos := Vec3(m.pos.x + m.vel.x * dt, m.pos.y + m.vel.y * dt, m.pos.z + m.vel.z * dt);
      var vel := m.vel.(y := m.vel.y - Gravity * dt);
      var moved := m.(pos := pos, vel := vel, life := life);
      if pos.y <= GroundLevel then
        var landed := moved.(pos := pos.(y := GroundLevel), exploded := true);
        (landed, Burst(Vec3(pos.x, GroundLevel, pos.z), AreaHits(obs, pos.x, pos.z)))
      else if life > WarmUpTime && OutsideWarning(pos) && OutsideWorld(pos) then
        (moved, Expire)
      else if BeyondRange(moved) then
        (moved, Expire)
      else
        (moved, Flying)
  }

  /** An in-flight expiry after the fail-safe window happens exactly when the
      missile has left the 80 x 300 box sideways or lengthways, or is beyond
      120 units: the y < -20 test can never fire, because the missile bursts
      on reaching y = 1 first. */
  lemma InFlightExpiry(m: MissileState, obs: seq<Obstacle>, dt: real)
    requires !m.exploded && m.life + dt <= FailSafeTime
    ensures var r := Frame(m, obs, dt);
            r.1 == Expire <==>
              && r.0.pos.y > GroundLevel
              && ((m.life + dt > WarmUpTime && (Abs(r.0.pos.x) > 80.0 || Abs(r.0.pos.z) > 300.0))
                  || BeyondRange(r.0))
  {
  }

  /** A missile bursts at most once: after the burst every later frame is
      idle, whatever the obstacles. */
  lemma BurstsOnce(m: MissileState, obs: seq<Obstacle>, obs2: seq<Obstacle>, dt: real, dt2: real)
    requires Frame(m, obs, dt).1.Burst?
    ensures Frame(Frame(m, obs, dt).0, obs2, dt2).1 == Idle
  {
  }
}
