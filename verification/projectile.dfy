/** The plasma bolt's frame (src/components/PlasmaProjectile.tsx): it flies
    at 80 units per second along the car's heading, expires beyond 200 units
    from its spawn point, and otherwise reports the first blue car it is
    near. The square root of the range test is replaced by the equivalent
    comparison of squares; `Math.sin` and `Math.cos` of the fixed heading are
    parameters. */
module Projectile {
  import opened Maths
  import opened Seqs
  import opened Collision

  const Speed: real := 80.0
  const MaxDistance: real := 200.0
  /** Half-extents of the hit test, across and along the road. */
  const HitHalfWidth: real := 2.0
  const HitHalfDepth: real := 3.0

  /** The bolt: spawn point, and current ground position (y never changes). */
  datatype Bolt = Bolt(spawn: Vec3, x: real, z: real)

  datatype Event = Flying | Expired | Struck(target: Vec3)

  function Launch(spawn: Vec3): (b: Bolt)
    ensures b.spawn == spawn && b.x == spawn.x && b.z == spawn.z
  {
    Bolt(spawn, spawn.x, spawn.z)
  }

  /** A blue car near the point (x, z): closer than 2 across and 3 along. The
      scene applies the same test when it looks for the car to destroy. */
  predicate NearCar(o: Obstacle, x: real, z: real) {
    o.kind.Car? && Abs(x - o.x) < HitHalfWidth && Abs(z - o.z) < HitHalfDepth
  }

  /** The first obstacle in list order that is a car near (x, z): the
      early-return `for ... of` loop. */
  function FirstNearCar(obs: seq<Obstacle>, x: real, z: real): (r: Option<Obstacle>)
    ensures r.None? <==> forall j :: 0 <= j < |obs| ==> !NearCar(obs[j], x, z)
    ensures r.Some? ==> exists i :: 0 <= i < |obs| && obs[i] == r.value && NearCar(obs[i], x, z)
                                    && forall j :: 0 <= j < i ==> !NearCar(obs[j], x, z)
  {
    if |obs| == 0 then None
    else if NearCar(obs[0], x, z) then
      Some(obs[0])
    else
      var r := FirstNearCar(obs[1..], x, z);
      if r.Some? then
        var i :| 0 <= i < |obs[1..]| && obs[1..][i] == r.value && NearCar(obs[1..][i], x, z)
                 && forall j :: 0 <= j < i ==> !NearCar(obs[1..][j], x, z);
        assert obs[i + 1] == r.value && forall j :: 0 <= j < i + 1 ==> !NearCar(obs[j], x, z);
        r
      else
        r
  }

  predicate Escaped(b: Bolt) {
    var dx := b.x - b.spawn.x;
    var dz := b.z - b.spawn.z;
    dx * dx + dz * dz > MaxDistance * MaxDistance
  }

  /** The frame's motion: 80 units per second along the heading. */
  function Move(b: Bolt, dt: real, sinA: real, cosA: real): (m: Bolt)
    ensures m.spawn == b.spawn
    ensures m.x == b.x - sinA * Speed * dt && m.z == b.z - cosA * Speed * dt
  {
    b.(x := b.x + -sinA * Speed * dt, z := b.z + -cosA * Speed * dt)
  }

  /** One frame: move, then either expire (no hit test on that frame) or
      report the first nearby car, at its own position lifted to y = 1. */
  function Frame(b: Bolt, obs: seq<Obstacle>, dt: real, sinA: real, cosA: real): (r: (Bolt, Event))
    ensures r.0 == Move(b, dt, sinA, cosA)
    ensures r.1.Expired? <==> Escaped(r.0)
    ensures r.1.Struck? ==> exists i :: 0 <= i < |obs| && r.1.target == Vec3(obs[i].x, 1.0, obs[i].z)
                                      && NearCar(obs[i], r.0.x, r.0.z)
                                      && forall j :: 0 <= j < i ==> !NearCar(obs[j], r.0.x, r.0.z)
    ensures r.1.Flying? <==> !Escaped(r.0) && forall j :: 0 <= j < |obs| ==> !NearCar(obs[j], r.0.x, r.0.z)
  {
    var moved := Move(b, dt, sinA, cosA);
    if Escaped(moved) then (moved, Expired)
    else
      match FirstNearCar(obs, moved.x, moved.z)
      case None => (moved, Flying)
      case Some(o) => (moved, Struck(Vec3(o.x, 1.0, o.z)))
  }

  /** Only blue cars matter: cones, rewards and unknown types in the list
      never change what a frame reports. */
  lemma {:induction false} OnlyCarsMatter(obs: seq<Obstacle>, x: real, z: real)
    ensures FirstNearCar(obs, x, z) == FirstNearCar(Filter(obs, (o: Obstacle) => o.kind.Car?), x, z)
  {
    if |obs| > 0 {
      var p := (o: Obstacle) => o.kind.Car?;
      OnlyCarsMatter(obs[1..], x, z);
      var rest := Filter(obs[1..], p);
      if p(obs[0]) {
        assert Filter(obs, p) == [obs[0]] + rest;
        assert ([obs[0]] + rest)[1..] == rest;
      } else {
        assert Filter(obs, p) == rest;
      }
    }
  }

  /** A reported hit is on a blue car near the bolt, and the bolt is still in
      range; nothing is ever reported past 200 units. */
  lemma HitsOnlyInRange(b: Bolt, obs: seq<Obstacle>, dt: real, sinA: real, cosA: real)
    ensures var r := Frame(b, obs, dt, sinA, cosA);
            r.1.Struck? ==>
              && !Escaped(r.0)
              && (exists o :: && o in obs && o.kind.Car?
                              && r.1.target == Vec3(o.x, 1.0, o.z)
                              && Abs(r.0.x - o.x) < HitHalfWidth && Abs(r.0.z - o.z) < HitHalfDepth)
  {
    var r := Frame(b, obs, dt, sinA, cosA);
    if r.1.Struck? {
      var i :| 0 <= i < |obs| && r.1.target == Vec3(obs[i].x, 1.0, obs[i].z) && NearCar(obs[i], r.0.x, r.0.z);
      assert obs[i] in obs;
    }
  }

  /** The bolt's position after n frames of equal length. */
  function Fly(b: Bolt, n: nat, dt: real, sinA: real, cosA: real): (r: Bolt)
    ensures r.spawn == b.spawn
  {
    if n == 0 then b else Move(Fly(b, n - 1, dt, sinA, cosA), dt, sinA, cosA)
  }

  /** With a unit heading the bolt lies on its ray, n * 80 * dt from spawn;
      it is therefore still flying exactly while n * 80 * dt <= 200. */
  lemma {:induction false} FlightIsStraight(spawn: Vec3, n: nat, dt: real, sinA: real, cosA: real)
    ensures var r := Fly(Launch(spawn), n, dt, sinA, cosA);
            var d := n as real * Speed * dt;
            r == Bolt(spawn, spawn.x - sinA * d, spawn.z - cosA * d)
  {
    if n > 0 {
      FlightIsStraight(spawn, n - 1, dt, sinA, cosA);
      var k := (n - 1) as real;
      assert n as real == k + 1.0;
      OneMoreStep(sinA, k, dt);
      OneMoreStep(cosA, k, dt);
    }
  }

  lemma OneMoreStep(s: real, k: real, dt: real)
    ensures s * (k * Speed * dt) + s * Speed * dt == s * ((k + 1.0) * Speed * dt)
  {
  }

  lemma FlightRange(spawn: Vec3, n: nat, dt: real, sinA: real, cosA: real)
    requires sinA * sinA + cosA * cosA == 1.0
    ensures var r := Fly(Launch(spawn), n, dt, sinA, cosA);
            var d := n as real * Speed * dt;
            Escaped(r) <==> d * d > MaxDistance * MaxDistance
  {
    FlightIsStraight(spawn, n, dt, sinA, cosA);
    var d := n as real * Speed * dt;
    EscapedAlongHeading(Bolt(spawn, spawn.x - sinA * d, spawn.z - cosA * d), d, sinA, cosA);
  }

  /** A bolt displaced by d along a unit heading has escaped exactly when
      d^2 > 200^2. */
  lemma EscapedAlongHeading(b: Bolt, d: real, s: real, c: real)
    requires b.x == b.spawn.x - s * d && b.z == b.spawn.z - c * d && s * s + c * c == 1.0
    ensures Escaped(b) <==> d * d > MaxDistance * MaxDistance
  {
    var dx := b.x - b.spawn.x;
    var dz := b.z - b.spawn.z;
    assert dx * dx == (s * s) * (d * d);
    assert dz * dz == (c * c) * (d * d);
    assert (s * s) * (d * d) + (c * c) * (d * d) == (s * s + c * c) * (d * d);
  }
}
