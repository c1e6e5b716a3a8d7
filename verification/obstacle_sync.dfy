/** The obstacle manager component (src/components/ObstacleManager.tsx): it
    seeds the scene's empty obstacle list once on mount, and on every frame
    runs the window step on the list it was rendered with, handing the result
    back to the scene only when it differs "enough" from that list. The
    scene's list is what the next frame starts from, so a step that is not
    handed back is lost. */
module ObstacleSync {
  import opened Maths
  import opened Seqs
  import opened Collision
  import opened ObstacleStream

  const AheadDistance: real := 300.0
  const BehindDistance: real := 50.0
  const InitialAhead: real := 400.0
  const InitialGap: real := 20.0
  /** The change threshold on z the component uses. */
  const Tolerance: real := 0.1

  /** The mount effect: an empty list is seeded with the whole run generated
      over [carZ - 400, carZ - 20), which holds between 6 and 12 obstacles; a
      non-empty one is left alone. */
  function Seed(parent: seq<Obstacle>, carZ: real, rng: Rng): (r: seq<Obstacle>)
    requires ValidRng(rng)
    ensures |parent| > 0 ==> r == parent
    ensures |parent| == 0 ==> forall i :: 0 <= i < |r| ==>
              carZ - InitialAhead < r[i].z < carZ - InitialGap && Spawned(r[i])
    ensures |parent| == 0 ==> Generated(ScanStart(carZ - InitialAhead), carZ - InitialGap, r, rng, 0)
    ensures |parent| == 0 ==> 6 <= |r| <= 12
  {
    if |parent| == 0 then
      var r := GenerateObstaclesForRange(carZ - InitialAhead, carZ - InitialGap, rng);
      SeedCount(ScanStart(carZ - InitialAhead), carZ - InitialGap, r);
      r
    else parent
  }

  /** A run over a stretch longer than 370 and at most 380 holds 6 to 12
      obstacles. */
  lemma SeedCount(z: real, endZ: real, r: seq<Obstacle>)
    requires Chain(z, endZ, r)
    requires 370.0 < endZ - z <= 380.0
    ensures 6 <= |r| <= 12
  {
    ChainCount(z, endZ, r);
  }

  /** A seeded road never starts with the player touching an obstacle,
      wherever the player stands across the road. */
  lemma SeedStartsClear(carX: real, carZ: real, rng: Rng)
    requires ValidRng(rng)
    ensures CheckCollisions(carX, carZ, Seed([], carZ, rng)).NoHit?
  {
    var r := Seed([], carZ, rng);
    forall i | 0 <= i < |r|
      ensures !HitsCar(carX, carZ, r[i])
    {
      CarHitsObstacle(carX, carZ, r[i]);
    }
  }

  /** The propagation test with a z threshold: a different length, a
      different id at some position, or a z that moved by more than `tol`. */
  predicate Changed(prev: seq<Obstacle>, updated: seq<Obstacle>, tol: real) {
    || |updated| != |prev|
    || exists i :: 0 <= i < |updated| && i < |prev| &&
         (prev[i].id != updated[i].id || Abs(prev[i].z - updated[i].z) > tol)
  }

  /** A list never differs from itself, whatever the threshold. */
  lemma ChangedIrreflexive(obs: seq<Obstacle>, tol: real)
    requires tol >= 0.0
    ensures !Changed(obs, obs, tol)
  {
    forall i | 0 <= i < |obs|
      ensures obs[i].id == obs[i].id && Abs(obs[i].z - obs[i].z) <= tol
    {
    }
  }

  /** When nothing is handed back, the step agreed with the prev list in
      length and ids, and every z moved by at most the threshold. */
  lemma UnchangedMeansClose(prev: seq<Obstacle>, updated: seq<Obstacle>, tol: real)
    requires !Changed(prev, updated, tol)
    ensures |updated| == |prev|
    ensures forall i :: 0 <= i < |prev| ==> prev[i].id == updated[i].id && Abs(prev[i].z - updated[i].z) <= tol
  {
  }

  /** One frame as written: step the rendered list, hand it back only when
      Changed with the 0.1 threshold. The scene ends up with either the step
      or its old list; a step that changes the length or an id, or moves some
      obstacle by more than 0.1, is always handed back, and a step that is
      not handed back agreed with the old list in length and ids and moved
      nothing by more than 0.1. */
  function Frame(parent: seq<Obstacle>, carZ: real, dt: real, now: real, rng: Rng): (r: seq<Obstacle>)
    requires ValidRng(rng)
    ensures HandedOver(parent, UpdateObstacles(parent, carZ, dt, AheadDistance, BehindDistance, now, rng), r)
  {
    var u := UpdateObstacles(parent, carZ, dt, AheadDistance, BehindDistance, now, rng);
    HandOver(parent, u);
    if Changed(parent, u, Tolerance) then u else parent
  }

  /** What the scene holds after a step u of its list parent: either u or
      parent; always u when the length or an id changed or some z moved by
      more than 0.1; and when not u, u agreed with parent in length and ids
      and moved nothing by more than 0.1. */
  ghost predicate HandedOver(parent: seq<Obstacle>, u: seq<Obstacle>, r: seq<Obstacle>) {
    && (r == u || r == parent)
    && ((|u| != |parent| ||
         exists i :: 0 <= i < |u| && i < |parent| &&
                     (u[i].id != parent[i].id || Abs(u[i].z - parent[i].z) > Tolerance))
        ==> r == u)
    && (r != u ==>
          && |u| == |parent|
          && forall i :: 0 <= i < |parent| ==> u[i].id == parent[i].id && Abs(u[i].z - parent[i].z) <= Tolerance)
  }

  /** The 0.1 test hands over exactly what HandedOver describes. */
  lemma HandOver(parent: seq<Obstacle>, u: seq<Obstacle>)
    ensures HandedOver(parent, u, if Changed(parent, u, Tolerance) then u else parent)
  {
  }

  /** One frame as a step on the scene's list, the player standing still. */
  function Step(carZ: real, dt: real, now: real, rng: Rng): (f: seq<Obstacle> -> seq<Obstacle>)
    requires ValidRng(rng)
    ensures forall p :: f(p) == Frame(p, carZ, dt, now, rng)
  {
    p => Frame(p, carZ, dt, now, rng)
  }

  /** n frames with the player standing still. */
  function Run(parent: seq<Obstacle>, carZ: real, dt: real, now: real, rng: Rng, n: nat): (r: seq<Obstacle>)
    requires ValidRng(rng)
  {
    Iterate(Step(carZ, dt, now, rng), parent, n)
  }

  /** A same-direction car 260 units ahead of a stationary player. */
  const Parked: Obstacle :=
    Obstacle(ObstacleId(-260.0, 6.0), 6.0, -260.0, Car, Some(SameDirectionVelocity), Some(Right),
             Some(SameDirectionVelocity), None)

  /** At 240 frames per second the car's step is 20 / 240 = 1/12 < 0.1, so
      the step is discarded on every frame and the car never moves, although
      it should cover 20 units per second. */
  lemma FrozenAtHighFrameRate(now: real, rng: Rng, n: nat)
    requires ValidRng(rng)
    ensures Run([Parked], 0.0, 1.0 / 240.0, now, rng, n) == [Parked]
  {
    FrozenOneFrame(now, rng);
    IterateFixed(Step(0.0, 1.0 / 240.0, now, rng), [Parked], n);
  }

  lemma FrozenOneFrame(now: real, rng: Rng)
    requires ValidRng(rng)
    ensures Frame([Parked], 0.0, 1.0 / 240.0, now, rng) == [Parked]
  {
    var dt := 1.0 / 240.0;
    var moved := MoveObstacle(Parked, dt, now);
    assert moved.z == -260.0 - 1.0 / 12.0;
    assert UpdateMovingObstacles([Parked], dt, now) == [moved];
    var kept := Visible([Parked], 0.0, dt, AheadDistance, BehindDistance, now);
    assert kept == [moved] by {
      assert [moved] == [moved] + [];
      assert Filter([moved], (o: Obstacle) => InWindow(o, 0.0, AheadDistance, BehindDistance)) == [moved];
    }
    assert MinZ(kept, 1.0) == moved.z;
    assert Refill(kept, 0.0, AheadDistance, rng) == [];
    var u := UpdateObstacles([Parked], 0.0, dt, AheadDistance, BehindDistance, now, rng);
    assert u == [moved] by {
      assert u == u[..|kept|] + u[|kept|..];
    }
    assert !Changed([Parked], u, Tolerance);
  }

  /** The intended frame: any change in z is handed back. */
  function CorrectedFrame(parent: seq<Obstacle>, carZ: real, dt: real, now: real, rng: Rng): (r: seq<Obstacle>)
    requires ValidRng(rng)
    ensures var u := UpdateObstacles(parent, carZ, dt, AheadDistance, BehindDistance, now, rng);
            && |r| == |u|
            && forall i :: 0 <= i < |r| ==> r[i].id == u[i].id && r[i].z == u[i].z
  {
    ZeroHandOver(parent, UpdateObstacles(parent, carZ, dt, AheadDistance, BehindDistance, now, rng))
  }

  /** The hand-over with the zero threshold: what the scene ends up with
      agrees with the step u in length, ids and every z. */
  function ZeroHandOver(parent: seq<Obstacle>, u: seq<Obstacle>): (r: seq<Obstacle>)
    ensures |r| == |u|
    ensures forall i :: 0 <= i < |r| ==> r[i].id == u[i].id && r[i].z == u[i].z
  {
    if Changed(parent, u, 0.0) then u else parent
  }

  /** The zero threshold keeps an unchanged list, hands over every change,
      and catches every change the 0.1 threshold catches. */
  lemma ZeroHandOverKeepsMotion(parent: seq<Obstacle>, u: seq<Obstacle>)
    ensures u == parent ==> ZeroHandOver(parent, u) == parent
    ensures Changed(parent, u, 0.0) ==> ZeroHandOver(parent, u) == u
    ensures Changed(parent, u, Tolerance) ==> Changed(parent, u, 0.0)
  {
  }

  /** With the zero threshold no motion is lost: the scene's list after a
      frame matches the step in length, ids and every z, and a list the step
      leaves alone is still never handed back. */
  lemma CorrectedFrameKeepsMotion(parent: seq<Obstacle>, carZ: real, dt: real, now: real, rng: Rng)
    requires ValidRng(rng)
    ensures var u := UpdateObstacles(parent, carZ, dt, AheadDistance, BehindDistance, now, rng);
            && (u == parent ==> CorrectedFrame(parent, carZ, dt, now, rng) == parent)
            && (Changed(parent, u, 0.0) ==> CorrectedFrame(parent, carZ, dt, now, rng) == u)
            && (Changed(parent, u, Tolerance) ==> Changed(parent, u, 0.0))
  {
    ZeroHandOverKeepsMotion(parent, UpdateObstacles(parent, carZ, dt, AheadDistance, BehindDistance, now, rng));
  }

  /** On the frozen example the corrected frame moves the car by 1/12. */
  lemma CorrectedFrameMovesParkedCar(now: real, rng: Rng)
    requires ValidRng(rng)
    ensures var r := CorrectedFrame([Parked], 0.0, 1.0 / 240.0, now, rng);
            |r| == 1 && r[0].z == -260.0 - 1.0 / 12.0
  {
    var dt := 1.0 / 240.0;
    var moved := MoveObstacle(Parked, dt, now);
    assert UpdateMovingObstacles([Parked], dt, now) == [moved];
    var kept := Visible([Parked], 0.0, dt, AheadDistance, BehindDistance, now);
    assert kept == [moved] by {
      assert Filter([moved], (o: Obstacle) => InWindow(o, 0.0, AheadDistance, BehindDistance)) == [moved];
    }
    assert MinZ(kept, 1.0) == moved.z;
    var u := UpdateObstacles([Parked], 0.0, dt, AheadDistance, BehindDistance, now, rng);
    assert u == [moved] by {
      assert u == u[..|kept|] + u[|kept|..];
    }
  }
}
