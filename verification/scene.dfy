/** The scene's state reducers (src/components/Scene.tsx): the obstacle,
    explosion and projectile lists and the callbacks that edit them. The ids
    the source builds from `Date.now()` and `Math.random()` are parameters. */
module Scene {
  import opened Maths
  import opened Seqs
  import opened Collision
  import Projectile

  type EntityId = nat

  datatype Explosion = Explosion(id: EntityId, position: Vec3)
  datatype Shot = Shot(id: EntityId, position: Vec3, angle: real)

  datatype SceneState = SceneState(obstacles: seq<Obstacle>, explosions: seq<Explosion>, projectiles: seq<Shot>)

  const Initial: SceneState := SceneState([], [], [])

  /** handleObstaclesUpdate: the manager's list replaces the scene's. */
  function ObstaclesUpdate(s: SceneState, newObstacles: seq<Obstacle>): (r: SceneState)
    ensures r.obstacles == newObstacles
    ensures r.explosions == s.explosions && r.projectiles == s.projectiles
  {
    s.(obstacles := newObstacles)
  }

  function WithoutObstacle(obs: seq<Obstacle>, id: ObstacleId): (r: seq<Obstacle>)
    ensures forall i :: 0 <= i < |r| ==> r[i].id != id
  {
    Filter(obs, (o: Obstacle) => o.id != id)
  }

  /** handleObstacleCollected: every obstacle with that id goes. */
  function ObstacleCollected(s: SceneState, id: ObstacleId): (r: SceneState)
    ensures |r.obstacles| <= |s.obstacles|
    ensures forall i :: 0 <= i < |r.obstacles| ==> r.obstacles[i].id != id
    ensures r.explosions == s.explosions && r.projectiles == s.projectiles
  {
    s.(obstacles := WithoutObstacle(s.obstacles, id))
  }

  /** Collection removes exactly the obstacles carrying the id, each other
      one keeping its multiplicity, and collecting the same id again changes
      nothing. */
  lemma ObstacleCollectedExact(s: SceneState, id: ObstacleId, o: Obstacle)
    ensures multiset(ObstacleCollected(s, id).obstacles)[o] == if o.id == id then 0 else multiset(s.obstacles)[o]
    ensures ObstacleCollected(ObstacleCollected(s, id), id) == ObstacleCollected(s, id)
  {
    FilterCount(s.obstacles, (o: Obstacle) => o.id != id, o);
    FilterKeepsAll(WithoutObstacle(s.obstacles, id), (o: Obstacle) => o.id != id);
  }

  /** Collection keeps the order of what survives: it works obstacle by
      obstacle, dropping one exactly when it carries the id. */
  lemma ObstacleCollectedInOrder(a: seq<Obstacle>, b: seq<Obstacle>, x: Obstacle, id: ObstacleId)
    ensures WithoutObstacle(a + b, id) == WithoutObstacle(a, id) + WithoutObstacle(b, id)
    ensures WithoutObstacle([x], id) == if x.id == id then [] else [x]
  {
    FilterAppend(a, b, (o: Obstacle) => o.id != id);
    assert [x][1..] == [];
  }

  /** handleRewardCollected: one explosion at the reward's position. */
  function RewardCollected(s: SceneState, points: int, position: Vec3, explosionId: EntityId): (r: SceneState)
    ensures r.explosions == s.explosions + [Explosion(explosionId, position)]
    ensures r.obstacles == s.obstacles && r.projectiles == s.projectiles
  {
    s.(explosions := s.explosions + [Explosion(explosionId, position)])
  }

  /** handleExplosionComplete: every explosion with that id goes, every
      other one stays with its multiplicity. */
  function ExplosionComplete(s: SceneState, id: EntityId): (r: SceneState)
    ensures |r.explosions| <= |s.explosions|
    ensures forall i :: 0 <= i < |r.explosions| ==> r.explosions[i].id != id
    ensures forall e :: multiset(r.explosions)[e] == if e.id == id then 0 else multiset(s.explosions)[e]
    ensures r.obstacles == s.obstacles && r.projectiles == s.projectiles
  {
    var keep := (e: Explosion) => e.id != id;
    assert forall e :: multiset(Filter(s.explosions, keep))[e] == if e.id == id then 0 else multiset(s.explosions)[e] by {
      forall e
        ensures multiset(Filter(s.explosions, keep))[e] == if e.id == id then 0 else multiset(s.explosions)[e]
      {
        FilterCount(s.explosions, keep, e);
      }
    }
    s.(explosions := Filter(s.explosions, keep))
  }

  /** handleShoot: one projectile record, with the injected id. */
  function Shoot(s: SceneState, start: Vec3, angle: real, projectileId: EntityId): (r: SceneState)
    ensures r.projectiles == s.projectiles + [Shot(projectileId, start, angle)]
    ensures r.obstacles == s.obstacles && r.explosions == s.explosions
  {
    s.(projectiles := s.projectiles + [Shot(projectileId, start, angle)])
  }

  function WithoutShot(ps: seq<Shot>, id: EntityId): (r: seq<Shot>)
    ensures forall i :: 0 <= i < |r| ==> r[i].id != id
    ensures forall p :: multiset(r)[p] == if p.id == id then 0 else multiset(ps)[p]
  {
    var keep := (p: Shot) => p.id != id;
    assert forall p :: multiset(Filter(ps, keep))[p] == if p.id == id then 0 else multiset(ps)[p] by {
      forall p
        ensures multiset(Filter(ps, keep))[p] == if p.id == id then 0 else multiset(ps)[p]
      {
        FilterCount(ps, keep, p);
      }
    }
    Filter(ps, keep)
  }

  /** handleProjectileExpire: every projectile with that id goes, every
      other one stays with its multiplicity. */
  function ProjectileExpire(s: SceneState, id: EntityId): (r: SceneState)
    ensures |r.projectiles| <= |s.projectiles|
    ensures forall i :: 0 <= i < |r.projectiles| ==> r.projectiles[i].id != id
    ensures forall p :: multiset(r.projectiles)[p] == if p.id == id then 0 else multiset(s.projectiles)[p]
    ensures r.obstacles == s.obstacles && r.explosions == s.explosions
  {
    s.(projectiles := WithoutShot(s.projectiles, id))
  }

  /** A created entity can always be removed again: the expire reducer
      undoes a shot with a fresh id, and explosion completion undoes a
      reward burst with a fresh id. */
  lemma RemovalUndoesCreation(s: SceneState, start: Vec3, angle: real, id: EntityId, position: Vec3)
    requires forall i :: 0 <= i < |s.projectiles| ==> s.projectiles[i].id != id
    requires forall i :: 0 <= i < |s.explosions| ==> s.explosions[i].id != id
    ensures ProjectileExpire(Shoot(s, start, angle, id), id) == s
    ensures ExplosionComplete(RewardCollected(s, 0, position, id), id) == s
  {
    var p := (q: Shot) => q.id != id;
    FilterAppend(s.projectiles, [Shot(id, start, angle)], p);
    FilterKeepsAll(s.projectiles, p);
    assert Filter([Shot(id, start, angle)], p) == [];
    var e := (x: Explosion) => x.id != id;
    FilterAppend(s.explosions, [Explosion(id, position)], e);
    FilterKeepsAll(s.explosions, e);
    assert Filter([Explosion(id, position)], e) == [];
  }

  /** handleProjectileHit: the projectile goes; then the FIRST blue car near
      the reported target (the bolt's own test, centred on the target) is
      destroyed, with an explosion at its position lifted to y = 1. With no
      such car the obstacles and explosions are left alone. */
  function ProjectileHit(s: SceneState, projectileId: EntityId, target: Vec3, explosionId: EntityId)
    : (r: SceneState)
    ensures r.projectiles == WithoutShot(s.projectiles, projectileId)
    ensures FindFirst(s.obstacles, (o: Obstacle) => Projectile.NearCar(o, target.x, target.z)).None? ==>
              r.obstacles == s.obstacles && r.explosions == s.explosions
    ensures var k := FindFirst(s.obstacles, (o: Obstacle) => Projectile.NearCar(o, target.x, target.z));
            k.Some? ==>
              && r.obstacles == WithoutObstacle(s.obstacles, s.obstacles[k.value].id)
              && r.explosions == s.explosions + [Explosion(explosionId, Vec3(s.obstacles[k.value].x, 1.0, s.obstacles[k.value].z))]
  {
    var projectiles := WithoutShot(s.projectiles, projectileId);
    match FindFirst(s.obstacles, (o: Obstacle) => Projectile.NearCar(o, target.x, target.z))
    case None => s.(projectiles := projectiles)
    case Some(k) =>
      var hit := s.obstacles[k];
      SceneState(WithoutObstacle(s.obstacles, hit.id),
                 s.explosions + [Explosion(explosionId, Vec3(hit.x, 1.0, hit.z))],
                 projectiles)
  }

  predicate UniqueIds(obs: seq<Obstacle>) {
    forall i, j :: 0 <= i < |obs| && 0 <= j < |obs| && i != j ==> obs[i].id != obs[j].id
  }

  /** With unique ids, removing obs[k]'s id removes exactly that element. */
  lemma RemoveExactlyOne(obs: seq<Obstacle>, k: nat)
    requires k < |obs| && UniqueIds(obs)
    ensures WithoutObstacle(obs, obs[k].id) == obs[..k] + obs[k + 1..]
  {
    var p := (o: Obstacle) => o.id != obs[k].id;
    assert obs == obs[..k] + ([obs[k]] + obs[k + 1..]);
    FilterAppend(obs[..k], [obs[k]] + obs[k + 1..], p);
    FilterAppend([obs[k]], obs[k + 1..], p);
    assert forall i :: 0 <= i < k ==> obs[..k][i] == obs[i];
    FilterKeepsAll(obs[..k], p);
    FilterKeepsAll(obs[k + 1..], p);
    assert Filter([obs[k]], p) == [];
  }

  /** A hit reported on car obs[k] destroys a blue car at index j <= k that
      is near the target; with unique ids exactly that one element goes, and
      when no earlier car is that near, it is obs[k] itself. */
  lemma HitDestroysNearestListedCar(s: SceneState, pid: EntityId, eid: EntityId, k: nat)
    requires k < |s.obstacles| && s.obstacles[k].kind.Car? && UniqueIds(s.obstacles)
    ensures var target := Vec3(s.obstacles[k].x, 1.0, s.obstacles[k].z);
            var r := ProjectileHit(s, pid, target, eid);
            exists j :: && 0 <= j <= k
                        && Projectile.NearCar(s.obstacles[j], target.x, target.z)
                        && r.obstacles == s.obstacles[..j] + s.obstacles[j + 1..]
                        && |r.explosions| == |s.explosions| + 1
                        && ((forall i :: 0 <= i < k ==> !Projectile.NearCar(s.obstacles[i], target.x, target.z))
                            ==> j == k)
  {
    var target := Vec3(s.obstacles[k].x, 1.0, s.obstacles[k].z);
    var p := (o: Obstacle) => Projectile.NearCar(o, target.x, target.z);
    assert p(s.obstacles[k]);
    var f := FindFirst(s.obstacles, p);
    var j := f.value;
    RemoveExactlyOne(s.obstacles, j);
  }

  /** The nearest-listed rule can take the wrong car: car A at (0, 0) listed
      before car B at (0, 2.5); a bolt at (0, 5) strikes B (A is 5 away
      along the road), yet the scene, searching around B's position, finds A
      first and destroys it, leaving B on the road. */
  lemma EarlierCarCanBeDestroyedInstead()
    ensures var a := Obstacle(ObstacleId(0.0, 0.0), 0.0, 0.0, Car, None, None, None, None);
            var b := Obstacle(ObstacleId(2.5, 0.0), 0.0, 2.5, Car, None, None, None, None);
            var s := SceneState([a, b], [], []);
            var bolt := Projectile.Bolt(Vec3(0.0, 1.0, 5.0), 0.0, 5.0);
            var f := Projectile.Frame(bolt, s.obstacles, 0.0, 0.0, 1.0);
            && f.1 == Projectile.Struck(Vec3(0.0, 1.0, 2.5))
            && ProjectileHit(s, 0, f.1.target, 0).obstacles == [b]
  {
    var a := Obstacle(ObstacleId(0.0, 0.0), 0.0, 0.0, Car, None, None, None, None);
    var b := Obstacle(ObstacleId(2.5, 0.0), 0.0, 2.5, Car, None, None, None, None);
    var p := (o: Obstacle) => Projectile.NearCar(o, 0.0, 2.5);
    assert FindFirst([a, b], p) == Some(0);
    assert WithoutObstacle([a, b], a.id) == [b] by {
      assert [a, b] == [a] + [b];
      FilterAppend([a], [b], (o: Obstacle) => o.id != a.id);
    }
  }
}
