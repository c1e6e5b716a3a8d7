/** The obstacle stream (src/utils/obstacleManager.ts): lane-quantised
    generation over a stretch of road, moving-car kinematics with bounce
    recovery, and the window kept around the player. `Math.random` is an
    injected stream of draws and `Date.now()` an injected timestamp. */
module ObstacleStream {
  import opened Maths
  import opened Seqs
  import opened Collision

  const MinSpacing: real := 30.0
  const MaxSpacing: real := 60.0

  /** Oncoming lanes (left of centre) and same-direction lanes (right). */
  const LeftLanes: seq<real> := [-12.0, -6.0]
  const RightLanes: seq<real> := [6.0, 12.0]
  /** Cars never spawn in the centre lane. */
  const CarLanes: seq<real> := LeftLanes + RightLanes
  const AllPositions: seq<real> := [-12.0, -6.0, 0.0, 6.0, 12.0]

  const OncomingVelocity: real := 30.0
  const SameDirectionVelocity: real := -20.0

  /** `Math.random` as an infinite stream of draws. */
  type Rng = nat -> real

  ghost predicate ValidRng(rng: Rng) {
    forall i: nat :: 0.0 <= rng(i) < 1.0
  }

  /** The weighted type draw: 15% reward, 20% cone, 65% car. */
  function KindFor(r: real): (k: Kind)
    ensures k.Reward? <==> r < 0.15
    ensures k.Cone? <==> 0.15 <= r < 0.35
    ensures k.Car? <==> r >= 0.35
  {
    if r < 0.15 then Reward
    else if r < 0.35 then Cone
    else Car
  }

  /** `Math.floor(Math.random() * n)`: an index of an n-element array. */
  function PickIndex(r: real, n: nat): (i: nat)
    requires 0.0 <= r < 1.0 && n > 0
    ensures i < n
    ensures i as real <= r * n as real < i as real + 1.0
  {
    Scale(r, 0.0, n as real);
    Scale(1.0, r, n as real);
    Floor(r * n as real)
  }

  /** What every freshly generated obstacle looks like. */
  predicate Spawned(o: Obstacle) {
    && o.id == ObstacleId(o.z, o.x)
    && o.bounceRecoveryTime.None?
    && o.originalVelocity == o.velocity
    && (o.kind.Car? || o.kind.Reward? || o.kind.Cone?)
    && (o.kind.Car? ==>
          || ((o.x == -12.0 || o.x == -6.0) && o.velocity == Some(OncomingVelocity) && o.lane == Some(Left))
          || ((o.x == 6.0 || o.x == 12.0) && o.velocity == Some(SameDirectionVelocity) && o.lane == Some(Right)))
    && (!o.kind.Car? ==>
          (o.x == -12.0 || o.x == -6.0 || o.x == 0.0 || o.x == 6.0 || o.x == 12.0)
          && o.velocity.None? && o.lane.None?)
  }

  /** One obstacle at z of the given type, placed by the lane draw r. */
  function SpawnAt(z: real, kind: Kind, r: real): (o: Obstacle)
    requires 0.0 <= r < 1.0
    requires kind.Car? || kind.Reward? || kind.Cone?
    ensures Spawned(o) && o.z == z && o.kind == kind
  {
    if kind.Car? then
      var x := CarLanes[PickIndex(r, |CarLanes|)];
      if x in LeftLanes then
        Obstacle(ObstacleId(z, x), x, z, kind,
                 Some(OncomingVelocity), Some(Left), Some(OncomingVelocity), None)
      else
        Obstacle(ObstacleId(z, x), x, z, kind,
                 Some(SameDirectionVelocity), Some(Right), Some(SameDirectionVelocity), None)
    else
      var x := AllPositions[PickIndex(r, |AllPositions|)];
      Obstacle(ObstacleId(z, x), x, z, kind, None, None, None, None)
  }

  /** Half of the lane draws put a car into oncoming traffic. */
  lemma CarLaneSplit(z: real, r: real)
    requires 0.0 <= r < 1.0
    ensures SpawnAt(z, Car, r).lane == Some(Left) <==> r < 0.5
  {
    var i := PickIndex(r, 4);
    assert i < 2 <==> r < 0.5;
  }

  /** The gap to the next obstacle, uniform in [30, 60). */
  function Spacing(r: real): (s: real)
    requires 0.0 <= r < 1.0
    ensures MinSpacing <= s < MaxSpacing
  {
    MinSpacing + r * (MaxSpacing - MinSpacing)
  }

  /** A run generated after scan position z: spawned obstacles strictly
      between z and endZ, the first 30 to 60 past z, each next one 30 to 60
      past the previous, and endZ within 60 of the last one (or of z when
      the run is empty). Which gap ended the scan is Stops. */
  ghost predicate Chain(z: real, endZ: real, r: seq<Obstacle>) {
    && (forall i :: 0 <= i < |r| ==> z < r[i].z < endZ && Spawned(r[i]))
    && (|r| > 0 ==> MinSpacing <= r[0].z - z < MaxSpacing)
    && (forall i, j :: 0 <= i < j < |r| && j == i + 1 ==> MinSpacing <= r[j].z - r[i].z < MaxSpacing)
    && endZ < (if |r| == 0 then z else r[|r| - 1].z) + MaxSpacing
  }

  /** A spawned obstacle one gap past z, followed by a run after it, is a run
      after z. */
  lemma ChainCons(z: real, endZ: real, o: Obstacle, rest: seq<Obstacle>)
    requires z + MinSpacing <= o.z < z + MaxSpacing && o.z < endZ && Spawned(o)
    requires Chain(o.z, endZ, rest)
    ensures Chain(z, endZ, [o] + rest)
  {
    var r := [o] + rest;
    forall i | 0 <= i < |r|
      ensures z < r[i].z < endZ && Spawned(r[i])
    {
      if i > 0 {
        assert r[i] == rest[i - 1];
      }
    }
    forall i, j | 0 <= i < j < |r| && j == i + 1
      ensures MinSpacing <= r[j].z - r[i].z < MaxSpacing
    {
      assert r[j] == rest[i];
      if i > 0 {
        assert r[i] == rest[i - 1];
      }
    }
    if |rest| > 0 {
      assert r[|r| - 1] == rest[|rest| - 1];
    }
  }

  /** The obstacle the three draws k, k + 1 and k + 2 place after prevZ: the
      gap, the type and the lane. */
  function Draw(prevZ: real, rng: Rng, k: nat): (o: Obstacle)
    requires ValidRng(rng)
    ensures o.z == prevZ + Spacing(rng(k)) && o.kind == KindFor(rng(k + 1))
  {
    SpawnAt(prevZ + Spacing(rng(k)), KindFor(rng(k + 1)), rng(k + 2))
  }

  /** Each obstacle of a run after z comes from its own three draws, starting
      at draw k, placed after its predecessor (after z for the first). */
  predicate Drawn(z: real, r: seq<Obstacle>, rng: Rng, k: nat)
    requires ValidRng(rng)
    decreases |r|
  {
    |r| == 0 || (r[0] == Draw(z, rng, k) && Drawn(r[0].z, r[1..], rng, k + 3))
  }

  /** The type of the i-th obstacle of a drawn run is decided by draw
      k + 3 i + 1. */
  lemma {:induction false} DrawnKinds(z: real, r: seq<Obstacle>, rng: Rng, k: nat)
    requires ValidRng(rng)
    requires Drawn(z, r, rng, k)
    ensures forall i :: 0 <= i < |r| ==> r[i].kind == KindFor(rng(k + 3 * i + 1))
    decreases |r|
  {
    if |r| > 0 {
      DrawnKinds(r[0].z, r[1..], rng, k + 3);
      forall i | 0 < i < |r|
        ensures r[i].kind == KindFor(rng(k + 3 * i + 1))
      {
        assert r[i] == r[1..][i - 1];
        assert k + 3 * i + 1 == (k + 3) + 3 * (i - 1) + 1;
      }
    }
  }

  /** An obstacle drawn at k, followed by a run drawn from its z at k + 3,
      is a run drawn at k. */
  lemma DrawnCons(z: real, o: Obstacle, rest: seq<Obstacle>, rng: Rng, k: nat)
    requires ValidRng(rng)
    requires o == Draw(z, rng, k) && Drawn(o.z, rest, rng, k + 3)
    ensures Drawn(z, [o] + rest, rng, k)
  {
    assert ([o] + rest)[1..] == rest;
  }

  /** From draw 0, obstacle i takes its type from draw 3i + 1. */
  lemma KindsFromFirstDraw(z: real, r: seq<Obstacle>, rng: Rng)
    requires ValidRng(rng)
    requires Drawn(z, r, rng, 0)
    ensures forall i :: 0 <= i < |r| ==> r[i].kind == KindFor(rng(3 * i + 1))
  {
    DrawnKinds(z, r, rng, 0);
    forall i | 0 <= i < |r|
      ensures r[i].kind == KindFor(rng(3 * i + 1))
    {
      assert 0 + 3 * i + 1 == 3 * i + 1;
    }
  }

  /** The scan's exit: the gap drawn after the last obstacle of a run drawn
      at k (after z when the run is empty), draw k + 3 |r|, reaches endZ. */
  predicate Stops(z: real, endZ: real, r: seq<Obstacle>, rng: Rng, k: nat)
    requires ValidRng(rng)
  {
    (if |r| == 0 then z else r[|r| - 1].z) + Spacing(rng(k + 3 * |r|)) >= endZ
  }

  /** A run after o.z that stops at draw k + 3 still stops once o, drawn at
      k, is put in front of it. */
  lemma StopsCons(z: real, endZ: real, o: Obstacle, rest: seq<Obstacle>, rng: Rng, k: nat)
    requires ValidRng(rng)
    requires Stops(o.z, endZ, rest, rng, k + 3)
    ensures Stops(z, endZ, [o] + rest, rng, k)
  {
    var r := [o] + rest;
    assert k + 3 * |r| == (k + 3) + 3 * |rest|;
    if |rest| > 0 {
      assert r[|r| - 1] == rest[|rest| - 1];
    }
  }

  /** The generator loop from a scan position z, consuming three draws per
      obstacle (spacing, type, lane) starting at draw k, until a gap reaches
      endZ. */
  function GenerateFrom(z: real, endZ: real, rng: Rng, k: nat): (r: seq<Obstacle>)
    requires ValidRng(rng)
    ensures Chain(z, endZ, r)
    ensures Drawn(z, r, rng, k)
    ensures Stops(z, endZ, r, rng, k)
    ensures z + Spacing(rng(k)) >= endZ <==> |r| == 0
    decreases Steps(z, endZ)
  {
    if z >= endZ then []
    else
      var next := z + Spacing(rng(k));
      if next >= endZ then []
      else
        var o := Draw(z, rng, k);
        StepShrinks(z, next, endZ);
        var rest := GenerateFrom(next, endZ, rng, k + 3);
        ChainCons(z, endZ, o, rest);
        DrawnCons(z, o, rest, rng, k);
        StopsCons(z, endZ, o, rest, rng, k);
        [o] + rest
  }

  /** A whole generated run after z from draw k up to endZ: Chain, Drawn
      and Stops together. */
  ghost predicate Generated(z: real, endZ: real, r: seq<Obstacle>, rng: Rng, k: nat)
    requires ValidRng(rng)
  {
    Chain(z, endZ, r) && Drawn(z, r, rng, k) && Stops(z, endZ, r, rng, k)
  }

  /** Chain, Drawn and Stops pin a run down: the only run after z drawn at
      k that meets all three is the one the loop generates. */
  lemma {:induction false} GeneratedUnique(z: real, endZ: real, r: seq<Obstacle>, rng: Rng, k: nat)
    requires ValidRng(rng)
    requires Generated(z, endZ, r, rng, k)
    ensures r == GenerateFrom(z, endZ, rng, k)
    decreases |r|
  {
    if |r| == 0 {
      assert k + 3 * |r| == k;
    } else {
      var o := r[0];
      var rest := r[1..];
      assert o == Draw(z, rng, k) && Drawn(o.z, rest, rng, k + 3);
      assert z < o.z < endZ;
      ChainTail(z, endZ, r);
      StopsTail(z, endZ, r, rng, k);
      GeneratedUnique(o.z, endZ, rest, rng, k + 3);
      GenerateFromCons(z, endZ, o.z, rng, k);
      HeadTail(r);
    }
  }

  /** A run that stops at draw k + 3 |r| has a tail that stops at the same
      draw, counted from k + 3. */
  lemma StopsTail(z: real, endZ: real, r: seq<Obstacle>, rng: Rng, k: nat)
    requires ValidRng(rng)
    requires Stops(z, endZ, r, rng, k) && |r| > 0
    ensures Stops(r[0].z, endZ, r[1..], rng, k + 3)
  {
    var rest := r[1..];
    assert k + 3 * |r| == (k + 3) + 3 * |rest|;
    if |rest| > 0 {
      assert r[|r| - 1] == rest[|rest| - 1];
    }
  }

  /** When the first gap stays short of endZ the loop emits its draw and
      carries on from there. */
  lemma GenerateFromCons(z: real, endZ: real, next: real, rng: Rng, k: nat)
    requires ValidRng(rng)
    requires next == z + Spacing(rng(k)) && z < next < endZ
    ensures GenerateFrom(z, endZ, rng, k) == [Draw(z, rng, k)] + GenerateFrom(next, endZ, rng, k + 3)
  {
  }

  /** The tail of a run after z is a run after its first obstacle. */
  lemma ChainTail(z: real, endZ: real, r: seq<Obstacle>)
    requires Chain(z, endZ, r) && |r| > 0
    ensures Chain(r[0].z, endZ, r[1..])
  {
    var rest := r[1..];
    forall i | 0 <= i < |rest|
      ensures r[0].z < rest[i].z < endZ && Spawned(rest[i])
    {
      assert rest[i] == r[i + 1];
      var h := i;
      assert MinSpacing <= r[h + 1].z - r[h].z;
      if i > 0 {
        ChainIncreases(z, endZ, r);
      }
    }
    forall i, j | 0 <= i < j < |rest| && j == i + 1
      ensures MinSpacing <= rest[j].z - rest[i].z < MaxSpacing
    {
      assert rest[i] == r[i + 1] && rest[j] == r[j + 1];
    }
    if |rest| > 0 {
      assert MinSpacing <= r[1].z - r[0].z < MaxSpacing;
      assert rest[|rest| - 1] == r[|r| - 1];
    }
  }

  /** How many obstacles a run holds: each of them takes at least 30 of the
      scan, and less than 60 per obstacle (plus one gap) covers it. */
  lemma {:induction false} ChainCount(z: real, endZ: real, r: seq<Obstacle>)
    requires Chain(z, endZ, r)
    ensures |r| > 0 ==> MinSpacing * (|r| as real) < endZ - z
    ensures endZ - z < MaxSpacing * ((|r| + 1) as real)
    decreases |r|
  {
    if |r| > 0 {
      ChainTail(z, endZ, r);
      ChainCount(r[0].z, endZ, r[1..]);
    }
  }

  /** A bound on the number of scan steps left before endZ. */
  function Steps(z: real, endZ: real): nat {
    if z < endZ then (endZ - z).Floor + 1 else 0
  }

  lemma StepShrinks(z: real, next: real, endZ: real)
    requires z + MinSpacing <= next < endZ
    ensures Steps(next, endZ) < Steps(z, endZ)
  {
  }

  /** generateObstaclesForRange: scanning starts at the next multiple of 10
      at or above startZ; obstacles are emitted in strictly increasing z with
      gaps in [30, 60), all before endZ, so their ids are pairwise distinct.
      Each obstacle's gap, type and lane come from its own three draws; the
      run is empty exactly when the first gap already reaches endZ, and it
      stops at the first gap, draw 3 |r|, that reaches endZ. */
  function GenerateObstaclesForRange(startZ: real, endZ: real, rng: Rng): (r: seq<Obstacle>)
    requires ValidRng(rng)
    ensures forall i :: 0 <= i < |r| ==> startZ < r[i].z < endZ && Spawned(r[i])
    ensures forall i, j :: 0 <= i < j < |r| ==> r[i].z < r[j].z && r[i].id != r[j].id
    ensures |r| > 0 ==> startZ + MinSpacing <= r[0].z < startZ + 10.0 + MaxSpacing
    ensures Generated(ScanStart(startZ), endZ, r, rng, 0)
    ensures forall i :: 0 <= i < |r| ==> r[i].kind == KindFor(rng(3 * i + 1))
    ensures ScanStart(startZ) + Spacing(rng(0)) >= endZ <==> |r| == 0
  {
    var r := GenerateFrom(ScanStart(startZ), endZ, rng, 0);
    RangeFacts(startZ, endZ, r);
    KindsFromFirstDraw(ScanStart(startZ), r, rng);
    r
  }

  /** What a run generated from the scan start of startZ satisfies. */
  lemma RangeFacts(startZ: real, endZ: real, r: seq<Obstacle>)
    requires Chain(ScanStart(startZ), endZ, r)
    ensures forall i :: 0 <= i < |r| ==> startZ < r[i].z < endZ && Spawned(r[i])
    ensures forall i, j :: 0 <= i < j < |r| ==> r[i].z < r[j].z && r[i].id != r[j].id
    ensures |r| > 0 ==> startZ + MinSpacing <= r[0].z < startZ + 10.0 + MaxSpacing
  {
    ChainIncreases(ScanStart(startZ), endZ, r);
  }

  /** A run's z values strictly increase, and as spawned obstacles with
      distinct z their ids differ. */
  lemma ChainIncreases(z: real, endZ: real, r: seq<Obstacle>)
    requires Chain(z, endZ, r)
    ensures forall i, j :: 0 <= i < j < |r| ==> r[i].z < r[j].z && r[i].id != r[j].id
  {
    forall i | 0 < i < |r|
      ensures r[i - 1].z < r[i].z
    {
      var h := i - 1;
      assert MinSpacing <= r[h + 1].z - r[h].z;
    }
    IncreasingFromGaps(r);
  }

  /** Positive consecutive gaps make the whole sequence strictly increasing in z. */
  lemma {:induction false} IncreasingFromGaps(s: seq<Obstacle>)
    requires forall i :: 0 < i < |s| ==> s[i - 1].z < s[i].z
    ensures forall i, j :: 0 <= i < j < |s| ==> s[i].z < s[j].z
  {
    if |s| > 1 {
      var n := |s| - 1;
      IncreasingFromGaps(s[..n]);
      forall i, j | 0 <= i < j < |s|
        ensures s[i].z < s[j].z
      {
        assert s[..n][i] == s[i];
        if j < n {
          assert s[..n][j] == s[j];
        } else if i < n - 1 {
          assert s[..n][n - 1] == s[n - 1];
        }
      }
    }
  }

  /** `Math.ceil(startZ / 10) * 10`. */
  function ScanStart(startZ: real): (z: real)
    ensures startZ <= z < startZ + 10.0
  {
    Ceil(startZ / 10.0) as real * 10.0
  }

  /** Generation followed by windowing to a window that covers the generated
      range loses nothing. */
  lemma GeneratedRangeSurvivesWindow(startZ: real, endZ: real, rng: Rng, carZ: real, ahead: real, behind: real)
    requires ValidRng(rng)
    requires carZ - ahead <= startZ && endZ <= carZ + behind
    ensures Filter(GenerateObstaclesForRange(startZ, endZ, rng), o => InWindow(o, carZ, ahead, behind))
         == GenerateObstaclesForRange(startZ, endZ, rng)
  {
    var g := GenerateObstaclesForRange(startZ, endZ, rng);
    FilterKeepsAll(g, o => InWindow(o, carZ, ahead, behind));
  }

  /** A car is driven by its velocity; everything else is static. */
  predicate Moves(o: Obstacle) {
    o.kind.Car? && o.velocity.Some?
  }

  /** A set (non-zero) recovery timestamp that has passed. */
  predicate Recovers(o: Obstacle, now: real) {
    o.bounceRecoveryTime.Some? && o.bounceRecoveryTime.value != 0.0 && now > o.bounceRecoveryTime.value
  }

  /** One obstacle's kinematic step: a recovered car first gets its original
      velocity back (0 when it has none), then every moving car advances by its
      velocity times dt. */
  function MoveObstacle(o: Obstacle, dt: real, now: real): (r: Obstacle)
    ensures r.id == o.id && r.x == o.x && r.kind == o.kind
    ensures r.lane == o.lane && r.originalVelocity == o.originalVelocity
    ensures !Moves(o) ==> r == o
    ensures Moves(o) && Recovers(o, now) ==>
              r.velocity == Some(o.originalVelocity.GetOr(0.0)) && r.bounceRecoveryTime.None?
    ensures Moves(o) && !Recovers(o, now) ==>
              r.velocity == o.velocity && r.bounceRecoveryTime == o.bounceRecoveryTime
    ensures Moves(o) ==> Moves(r) && r.z == o.z + r.velocity.value * dt
    ensures dt == 0.0 ==> r.z == o.z
  {
    if Moves(o) then
      var recovered :=
        if Recovers(o, now) then o.(velocity := Some(o.originalVelocity.GetOr(0.0)), bounceRecoveryTime := None)
        else o;
      recovered.(z := recovered.z + recovered.velocity.value * dt)
    else
      o
  }

  /** updateMovingObstacles: an element-wise step that keeps length, order,
      ids and types, and leaves static obstacles untouched. */
  function UpdateMovingObstacles(obs: seq<Obstacle>, dt: real, now: real): (r: seq<Obstacle>)
    ensures |r| == |obs|
    ensures forall i :: 0 <= i < |r| ==> r[i] == MoveObstacle(obs[i], dt, now)
    ensures forall i :: 0 <= i < |r| ==> r[i].id == obs[i].id && r[i].kind == obs[i].kind
    ensures forall i :: 0 <= i < |r| && !Moves(obs[i]) ==> r[i] == obs[i]
    ensures dt == 0.0 ==> forall i :: 0 <= i < |r| ==> r[i].z == obs[i].z
  {
    seq(|obs|, i requires 0 <= i < |obs| => MoveObstacle(obs[i], dt, now))
  }

  predicate InWindow(o: Obstacle, carZ: real, ahead: real, behind: real) {
    carZ - ahead < o.z < carZ + behind
  }

  /** `Math.min(...obs.map(o => o.z), init)`. */
  function MinZ(obs: seq<Obstacle>, init: real): (m: real)
    ensures m <= init
    ensures forall i :: 0 <= i < |obs| ==> m <= obs[i].z
    ensures m == init || exists i :: 0 <= i < |obs| && m == obs[i].z
  {
    if |obs| == 0 then init
    else
      var rest := MinZ(obs[1..], init);
      assert forall i :: 1 <= i < |obs| ==> obs[i] == obs[1..][i - 1];
      if obs[0].z <= rest then obs[0].z else rest
  }

  /** The moved obstacles that are still inside the window, in order. */
  function Visible(obs: seq<Obstacle>, carZ: real, dt: real, ahead: real, behind: real, now: real): (r: seq<Obstacle>)
    ensures forall i :: 0 <= i < |r| ==> InWindow(r[i], carZ, ahead, behind)
  {
    Filter(UpdateMovingObstacles(obs, dt, now), o => InWindow(o, carZ, ahead, behind))
  }

  /** The refill rule: new obstacles are generated for [carZ - ahead, minZ - 10)
      only when carZ - ahead < minZ - 50, where minZ is the least z among the
      kept obstacles and carZ + 1. A refill is a whole generated run up to
      minZ - 10 (drawn from the first draws, gaps of 30 to 60, ending at the
      first gap that reaches minZ - 10), ascending, and beyond every kept
      obstacle. */
  function Refill(kept: seq<Obstacle>, carZ: real, ahead: real, rng: Rng): (added: seq<Obstacle>)
    requires ValidRng(rng)
    ensures carZ - ahead < MinZ(kept, carZ + 1.0) - 50.0 ==>
              Generated(ScanStart(carZ - ahead), MinZ(kept, carZ + 1.0) - 10.0, added, rng, 0)
    ensures carZ - ahead >= MinZ(kept, carZ + 1.0) - 50.0 ==> |added| == 0
    ensures forall i, j :: 0 <= i < |added| && 0 <= j < |kept| ==> added[i].z < kept[j].z - 10.0
    ensures forall i :: 0 <= i < |added| ==> Spawned(added[i]) && carZ - ahead < added[i].z < carZ - 9.0
    ensures forall i, j :: 0 <= i < j < |added| ==> added[i].z < added[j].z
  {
    var minZ := MinZ(kept, carZ + 1.0);
    if carZ - ahead < minZ - 50.0 then
      var added := GenerateObstaclesForRange(carZ - ahead, minZ - 10.0, rng);
      BeyondKept(kept, carZ + 1.0, added);
      added
    else []
  }

  /** A run that stops before MinZ(kept, init) - 10 lies more than 10 beyond
      every kept obstacle. */
  lemma BeyondKept(kept: seq<Obstacle>, init: real, added: seq<Obstacle>)
    requires forall i :: 0 <= i < |added| ==> added[i].z < MinZ(kept, init) - 10.0
    ensures forall i, j :: 0 <= i < |added| && 0 <= j < |kept| ==> added[i].z < kept[j].z - 10.0
  {
  }

  /** updateObstacles: every obstacle is first moved; the moved obstacles
      inside (carZ - ahead, carZ + behind) survive in their order at the front
      of the result, followed by the refill. Everything lies past the
      window's far edge, and when behind > -9 everything lies inside the
      window and a moved obstacle is kept exactly when it lies inside it. The
      refill is ascending, freshly spawned, and more than 10 beyond every
      survivor. */
  function UpdateObstacles(obs: seq<Obstacle>, carZ: real, dt: real, ahead: real, behind: real,
                           now: real, rng: Rng): (r: seq<Obstacle>)
    requires ValidRng(rng)
    ensures Windowed(obs, carZ, dt, ahead, behind, now, r)
    ensures RefillDue(Visible(obs, carZ, dt, ahead, behind, now), carZ, ahead, rng, r)
  {
    var kept := Visible(obs, carZ, dt, ahead, behind, now);
    var added := Refill(kept, carZ, ahead, rng);
    WindowFacts(obs, carZ, dt, ahead, behind, now, added);
    RefillFollows(kept, carZ, ahead, rng);
    kept + added
  }

  /** The window a step leaves: the moved survivors lead, in order;
      everything lies past the far edge, and when behind > -9 everything lies
      inside the window and a moved obstacle is kept exactly when it lies
      inside it; what follows the survivors is ascending, freshly spawned,
      and more than 10 beyond every survivor. */
  ghost predicate Windowed(obs: seq<Obstacle>, carZ: real, dt: real, ahead: real, behind: real, now: real,
                           r: seq<Obstacle>)
  {
    var kept := Visible(obs, carZ, dt, ahead, behind, now);
    && kept <= r
    && (forall o :: o in r ==> carZ - ahead < o.z)
    && (behind > -9.0 ==> forall o :: o in r ==> InWindow(o, carZ, ahead, behind))
    && (behind > -9.0 ==> forall i :: 0 <= i < |obs| ==>
          (MoveObstacle(obs[i], dt, now) in r <==> InWindow(MoveObstacle(obs[i], dt, now), carZ, ahead, behind)))
    && (forall i, j :: |kept| <= i < j < |r| ==> r[i].z < r[j].z)
    && (forall i, j :: 0 <= i < |kept| <= j < |r| ==> r[j].z < r[i].z - 10.0)
    && (forall i :: |kept| <= i < |r| ==> Spawned(r[i]))
  }

  /** When a refill is due and what it holds: with m the least z among the
      survivors v and carZ + 1, nothing is added unless carZ - ahead < m - 50,
      and then the tail after the survivors is a run after the scan start of
      carZ - ahead, drawn from the first draws, that stops at the first gap
      reaching m - 10: by GeneratedUnique, the generated run itself. */
  ghost predicate RefillDue(v: seq<Obstacle>, carZ: real, ahead: real, rng: Rng, r: seq<Obstacle>)
    requires ValidRng(rng)
  {
    var m := MinZ(v, carZ + 1.0);
    && v <= r
    && (carZ - ahead >= m - 50.0 ==> r == v)
    && (carZ - ahead < m - 50.0 ==> Generated(ScanStart(carZ - ahead), m - 10.0, r[|v|..], rng, 0))
  }

  /** The survivors followed by their refill meet the refill rule. */
  lemma RefillFollows(kept: seq<Obstacle>, carZ: real, ahead: real, rng: Rng)
    requires ValidRng(rng)
    ensures RefillDue(kept, carZ, ahead, rng, kept + Refill(kept, carZ, ahead, rng))
  {
    var added := Refill(kept, carZ, ahead, rng);
    assert (kept + added)[|kept|..] == added;
    assert |added| == 0 ==> kept + added == kept;
  }

  /** The converse of RefillFollows: the refill rule leaves exactly one
      list, the survivors followed by their refill. */
  lemma RefillDueUnique(v: seq<Obstacle>, carZ: real, ahead: real, rng: Rng, r: seq<Obstacle>)
    requires ValidRng(rng)
    requires RefillDue(v, carZ, ahead, rng, r)
    ensures r == v + Refill(v, carZ, ahead, rng)
  {
    PrefixSplit(v, r);
    if carZ - ahead < MinZ(v, carZ + 1.0) - 50.0 {
      DueRefillUnique(v, carZ, ahead, rng, r[|v|..]);
    } else {
      assert r[|v|..] == [];
    }
  }

  /** When a refill is due, the only whole generated run up to m - 10 is
      the refill. */
  lemma DueRefillUnique(v: seq<Obstacle>, carZ: real, ahead: real, rng: Rng, tail: seq<Obstacle>)
    requires ValidRng(rng)
    requires carZ - ahead < MinZ(v, carZ + 1.0) - 50.0
    requires Generated(ScanStart(carZ - ahead), MinZ(v, carZ + 1.0) - 10.0, tail, rng, 0)
    ensures tail == Refill(v, carZ, ahead, rng)
  {
    GeneratedUnique(ScanStart(carZ - ahead), MinZ(v, carZ + 1.0) - 10.0, tail, rng, 0);
  }

  /** The survivors followed by a refill that lies in (carZ - ahead,
      carZ - 9), ascending and beyond the survivors. */
  lemma WindowFacts(obs: seq<Obstacle>, carZ: real, dt: real, ahead: real, behind: real,
                    now: real, added: seq<Obstacle>)
    requires forall i :: 0 <= i < |added| ==> Spawned(added[i]) && carZ - ahead < added[i].z < carZ - 9.0
    requires forall i, j :: 0 <= i < j < |added| ==> added[i].z < added[j].z
    requires forall i, j :: 0 <= i < |added| && 0 <= j < |Visible(obs, carZ, dt, ahead, behind, now)| ==>
               added[i].z < Visible(obs, carZ, dt, ahead, behind, now)[j].z - 10.0
    ensures Windowed(obs, carZ, dt, ahead, behind, now, Visible(obs, carZ, dt, ahead, behind, now) + added)
  {
    var kept := Visible(obs, carZ, dt, ahead, behind, now);
    var r := kept + added;
    forall o | o in r
      ensures carZ - ahead < o.z
      ensures behind > -9.0 ==> InWindow(o, carZ, ahead, behind)
    {
      if o in kept {
        var i :| 0 <= i < |kept| && kept[i] == o;
      } else {
        var i :| 0 <= i < |added| && added[i] == o;
      }
    }
    forall i | |kept| <= i < |r|
      ensures r[i] == added[i - |kept|]
    {
    }
    if behind > -9.0 {
      SurvivorsAreExactlyInWindow(obs, carZ, dt, ahead, behind, now, added);
    }
  }

  lemma SurvivorsAreExactlyInWindow(obs: seq<Obstacle>, carZ: real, dt: real, ahead: real, behind: real,
                                    now: real, added: seq<Obstacle>)
    requires forall i :: 0 <= i < |added| ==> carZ - ahead < added[i].z < carZ - 9.0
    requires behind > -9.0
    ensures forall i :: 0 <= i < |obs| ==>
      ((MoveObstacle(obs[i], dt, now) in Visible(obs, carZ, dt, ahead, behind, now) + added)
       <==> InWindow(MoveObstacle(obs[i], dt, now), carZ, ahead, behind))
  {
    forall i | 0 <= i < |obs|
      ensures (MoveObstacle(obs[i], dt, now) in Visible(obs, carZ, dt, ahead, behind, now) + added)
          <==> InWindow(MoveObstacle(obs[i], dt, now), carZ, ahead, behind)
    {
      var m := MoveObstacle(obs[i], dt, now);
      var moved := UpdateMovingObstacles(obs, dt, now);
      assert moved[i] == m;
      FilterCount(moved, o => InWindow(o, carZ, ahead, behind), m);
      assert m !in added || InWindow(m, carZ, ahead, behind);
    }
  }

  /** With dt = 0 the window step keeps the same obstacles, in the same order,
      at the same z. */
  lemma ZeroStepKeepsWindow(obs: seq<Obstacle>, carZ: real, ahead: real, behind: real, now: real)
    ensures |Visible(obs, carZ, 0.0, ahead, behind, now)| == |Filter(obs, o => InWindow(o, carZ, ahead, behind))|
    ensures forall i :: 0 <= i < |Visible(obs, carZ, 0.0, ahead, behind, now)| ==>
      Visible(obs, carZ, 0.0, ahead, behind, now)[i].id == Filter(obs, o => InWindow(o, carZ, ahead, behind))[i].id
      && Visible(obs, carZ, 0.0, ahead, behind, now)[i].z == Filter(obs, o => InWindow(o, carZ, ahead, behind))[i].z
  {
    var p := (o: Obstacle) => InWindow(o, carZ, ahead, behind);
    FilterAlike(UpdateMovingObstacles(obs, 0.0, now), obs, p);
  }

  /** Two lists that agree pointwise on id and z, filtered by a test both
      agree on, agree pointwise on id and z again. */
  lemma {:induction false} FilterAlike(a: seq<Obstacle>, b: seq<Obstacle>, p: Obstacle -> bool)
    requires |a| == |b|
    requires forall i :: 0 <= i < |a| ==> a[i].id == b[i].id && a[i].z == b[i].z && p(a[i]) == p(b[i])
    ensures |Filter(a, p)| == |Filter(b, p)|
    ensures forall i :: 0 <= i < |Filter(a, p)| ==>
              Filter(a, p)[i].id == Filter(b, p)[i].id && Filter(a, p)[i].z == Filter(b, p)[i].z
  {
    if |a| > 0 {
      FilterAlike(a[1..], b[1..], p);
      var fa := Filter(a[1..], p);
      var fb := Filter(b[1..], p);
      if p(a[0]) {
        assert Filter(a, p) == [a[0]] + fa;
        assert Filter(b, p) == [b[0]] + fb;
        forall i | 0 < i < |Filter(a, p)|
          ensures Filter(a, p)[i].id == Filter(b, p)[i].id && Filter(a, p)[i].z == Filter(b, p)[i].z
        {
          assert Filter(a, p)[i] == fa[i - 1];
          assert Filter(b, p)[i] == fb[i - 1];
        }
      }
    }
  }

}
