/** The collision oracle (src/utils/collision.ts) and the obstacle record it
    shares with the obstacle stream.

    The source's `ObstacleData` type declares only id, x, z and type, while the
    generator and the kinematics also attach velocity, lane, original velocity
    and a bounce-recovery timestamp; here they are one record with optional
    fields. */
module Collision {
  import opened Maths
  import opened Seqs

  /** Obstacle type. The source types it as 'reward' | 'cone' | 'car' but also
      handles any other tag (the `default` branch of getObstacleBounds). */
  datatype Kind = Reward | Cone | Car | Unknown(tag: string)

  datatype Lane = Left | Right

  /** The id string `obstacle-<z>-<x>` the generator builds from the spawn
      position; JavaScript renders distinct numbers as distinct strings, so the
      pair stands for the string. */
  datatype ObstacleId = ObstacleId(z: real, x: real)

  datatype Obstacle = Obstacle(
    id: ObstacleId,
    x: real,
    z: real,
    kind: Kind,
    velocity: Option<real>,
    lane: Option<Lane>,
    originalVelocity: Option<real>,
    bounceRecoveryTime: Option<real>)

  /** An axis-aligned box: minimum corner (x, z) and extents. */
  datatype Box = Box(x: real, z: real, width: real, depth: real)

  datatype CollisionResult =
    | NoHit
    | Hit(obstacle: Obstacle, isBoost: bool, isReward: bool)

  predicate CentredOn(b: Box, cx: real, cz: real) {
    b.x + b.width / 2.0 == cx && b.z + b.depth / 2.0 == cz
  }

  /** The player's box: 2 wide, 4 deep, centred on the car. */
  function CarBounds(x: real, z: real): (r: Box)
    ensures r.width == 2.0 && r.depth == 4.0
    ensures CentredOn(r, x, z)
  {
    Box(x - 1.0, z - 2.0, 2.0, 4.0)
  }

  /** Type-specific footprints, centred on the obstacle; an unrecognised type
      gets an empty box at the origin. */
  function ObstacleBounds(o: Obstacle): (r: Box)
    ensures (o.kind.Reward? || o.kind.Cone?) ==>
              r.width == 1.0 && r.depth == 1.0 && CentredOn(r, o.x, o.z)
    ensures o.kind.Car? ==> r.width == 1.8 && r.depth == 3.5 && CentredOn(r, o.x, o.z)
    ensures o.kind.Unknown? ==> r == Box(0.0, 0.0, 0.0, 0.0)
  {
    match o.kind
    case Reward => Box(o.x - 0.5, o.z - 0.5, 1.0, 1.0)
    case Cone => Box(o.x - 0.5, o.z - 0.5, 1.0, 1.0)
    case Car => Box(o.x - 0.9, o.z - 1.75, 1.8, 3.5)
    case Unknown(_) => Box(0.0, 0.0, 0.0, 0.0)
  }

  /** checkAABBCollision: all four comparisons are strict. Equivalently the
      centres are closer than the half-extents on both axes, so boxes whose
      extents add up to nothing on an axis never overlap. */
  predicate Overlaps(a: Box, b: Box): (r: bool)
    ensures r <==>
      && Abs((a.x + a.width / 2.0) - (b.x + b.width / 2.0)) < (a.width + b.width) / 2.0
      && Abs((a.z + a.depth / 2.0) - (b.z + b.depth / 2.0)) < (a.depth + b.depth) / 2.0
    ensures a.width + b.width <= 0.0 || a.depth + b.depth <= 0.0 ==> !r
  {
    && a.x < b.x + b.width
    && a.x + a.width > b.x
    && a.z < b.z + b.depth
    && a.z + a.depth > b.z
  }

  lemma OverlapsSymmetric(a: Box, b: Box)
    ensures Overlaps(a, b) <==> Overlaps(b, a)
  {
  }

  /** Boxes that only share an edge do not collide. */
  lemma TouchingBoxesDoNotOverlap(a: Box, b: Box)
    requires a.x + a.width == b.x || b.x + b.width == a.x
          || a.z + a.depth == b.z || b.z + b.depth == a.z
    ensures !Overlaps(a, b)
  {
  }

  /** The overlap test is the same as comparing centre distances with the
      half-extents on each axis. */
  lemma OverlapByCentres(a: Box, b: Box)
    ensures Overlaps(a, b) <==>
      && Abs((a.x + a.width / 2.0) - (b.x + b.width / 2.0)) < (a.width + b.width) / 2.0
      && Abs((a.z + a.depth / 2.0) - (b.z + b.depth / 2.0)) < (a.depth + b.depth) / 2.0
  {
  }

  /** Concretely: the player touches a car whose centre is within 1.9 across
      and 3.75 along, and a pickup within 1.5 across and 2.5 along. */
  lemma CarHitsObstacle(x: real, z: real, o: Obstacle)
    ensures o.kind.Car? ==>
      (Overlaps(CarBounds(x, z), ObstacleBounds(o)) <==> Abs(x - o.x) < 1.9 && Abs(z - o.z) < 3.75)
    ensures (o.kind.Reward? || o.kind.Cone?) ==>
      (Overlaps(CarBounds(x, z), ObstacleBounds(o)) <==> Abs(x - o.x) < 1.5 && Abs(z - o.z) < 2.5)
  {
    OverlapByCentres(CarBounds(x, z), ObstacleBounds(o));
  }

  predicate WithinRange(o: Obstacle, carX: real, carZ: real, range: real) {
    Abs(o.x - carX) < range && Abs(o.z - carZ) < range
  }

  /** getObstaclesInRange: only obstacles with |dx| < range and |dz| < range. */
  function ObstaclesInRange(obs: seq<Obstacle>, carX: real, carZ: real, range: real): (r: seq<Obstacle>)
    ensures forall i :: 0 <= i < |r| ==> WithinRange(r[i], carX, carZ, range)
  {
    Filter(obs, o => WithinRange(o, carX, carZ, range))
  }

  /** The range filter keeps exactly the obstacles within range, each as often
      as in the input. */
  lemma ObstaclesInRangeExact(obs: seq<Obstacle>, carX: real, carZ: real, range: real, o: Obstacle)
    ensures multiset(ObstaclesInRange(obs, carX, carZ, range))[o]
         == if WithinRange(o, carX, carZ, range) then multiset(obs)[o] else 0
    ensures o in ObstaclesInRange(obs, carX, carZ, range) <==> o in obs && WithinRange(o, carX, carZ, range)
  {
    FilterCount(obs, o => WithinRange(o, carX, carZ, range), o);
  }

  /** The range filter keeps relative order: it distributes over concatenation. */
  lemma ObstaclesInRangeAppend(a: seq<Obstacle>, b: seq<Obstacle>, carX: real, carZ: real, range: real)
    ensures ObstaclesInRange(a + b, carX, carZ, range)
         == ObstaclesInRange(a, carX, carZ, range) + ObstaclesInRange(b, carX, carZ, range)
  {
    FilterAppend(a, b, o => WithinRange(o, carX, carZ, range));
  }

  predicate HitsCar(carX: real, carZ: real, o: Obstacle) {
    Overlaps(CarBounds(carX, carZ), ObstacleBounds(o))
  }

  /** checkCollisions: the first obstacle in list order whose box overlaps the
      car's, classified as a boost (cone) or a reward. */
  function CheckCollisions(carX: real, carZ: real, obs: seq<Obstacle>): (r: CollisionResult)
    ensures r.NoHit? <==> forall i :: 0 <= i < |obs| ==> !HitsCar(carX, carZ, obs[i])
    ensures r.Hit? ==> exists i :: 0 <= i < |obs| && obs[i] == r.obstacle && FirstHitAt(carX, carZ, obs, i)
    ensures r.Hit? ==> (r.isBoost <==> r.obstacle.kind.Cone?) && (r.isReward <==> r.obstacle.kind.Reward?)
    ensures r.Hit? ==> !(r.isBoost && r.isReward)
  {
    if |obs| == 0 then NoHit
    else if HitsCar(carX, carZ, obs[0]) then
      assert FirstHitAt(carX, carZ, obs, 0);
      Hit(obs[0], obs[0].kind.Cone?, obs[0].kind.Reward?)
    else
      var r := CheckCollisions(carX, carZ, obs[1..]);
      if r.Hit? then
        var i :| 0 <= i < |obs[1..]| && obs[1..][i] == r.obstacle && FirstHitAt(carX, carZ, obs[1..], i);
        assert FirstHitAt(carX, carZ, obs, i + 1);
        r
      else
        r
  }

  /** obs[i] overlaps the car and no earlier obstacle does. */
  predicate FirstHitAt(carX: real, carZ: real, obs: seq<Obstacle>, i: int)
    requires 0 <= i < |obs|
  {
    HitsCar(carX, carZ, obs[i]) && forall j :: 0 <= j < i ==> !HitsCar(carX, carZ, obs[j])
  }

  /** The range-10 pre-filter the car applies never changes the outcome:
      every typed obstacle that can overlap the car lies within range. */
  lemma {:induction false} RangePrefilterKeepsFirstHit(carX: real, carZ: real, obs: seq<Obstacle>)
    requires forall i :: 0 <= i < |obs| ==> !obs[i].kind.Unknown?
    ensures CheckCollisions(carX, carZ, ObstaclesInRange(obs, carX, carZ, 10.0))
         == CheckCollisions(carX, carZ, obs)
  {
    if |obs| > 0 {
      var o := obs[0];
      CarHitsObstacle(carX, carZ, o);
      assert obs == [o] + obs[1..];
      ObstaclesInRangeAppend([o], obs[1..], carX, carZ, 10.0);
      RangePrefilterKeepsFirstHit(carX, carZ, obs[1..]);
      var rest := ObstaclesInRange(obs[1..], carX, carZ, 10.0);
      if WithinRange(o, carX, carZ, 10.0) {
        assert ObstaclesInRange([o], carX, carZ, 10.0) == [o];
        assert ([o] + rest)[1..] == rest;
      } else {
        assert ObstaclesInRange([o], carX, carZ, 10.0) == [];
      }
    }
  }
}
