/** The weapon state machine (src/hooks/useCarWeapons.ts): the score-driven
    spread shot, the shared shot cool-down, missile ammunition with its own
    cool-down, and the timed triple-rocket mode. Every field is React state,
    so each operation reads the state left by earlier calls. The presence of
    each optional callback is a parameter. */
module Weapons {
  import opened Maths
  import opened Seqs

  datatype WeaponState = WeaponState(
    lastShotTime: real, lastMissileTime: real,
    spreadActive: bool, spreadEndTime: real, lastSpreadScore: int,
    missiles: int,
    tripleActive: bool, tripleEndTime: real)

  const Initial: WeaponState := WeaponState(0.0, 0.0, false, 0.0, 0, 5, false, 0.0)

  const SpreadScoreStep: int := 500
  const SpreadDuration: real := 5000.0
  const SpreadCooldown: real := 400.0
  const ShotCooldown: real := 300.0
  const MissileCooldown: real := 800.0
  const TripleDuration: real := 12000.0
  const TripleBonus: int := 12
  const DefaultMissilePack: int := 5
  /** Half-width of the spread fan, in radians. */
  const MaxOffset: real := 0.3

  /** A fired entity: start position, heading, and the car's speed at launch. */
  datatype Shot = Shot(position: Vec3, angle: real, carVelocity: real)
  datatype Volley = Single(shot: Shot) | Spread(shots: seq<Shot>)

  // ---------------------------------------------------------------------
  // Spread shot

  predicate SpreadActivates(s: WeaponState, score: int) {
    score >= s.lastSpreadScore + SpreadScoreStep && !s.spreadActive
  }

  predicate SpreadExpires(s: WeaponState, now: real) {
    s.spreadActive && now > s.spreadEndTime
  }

  /** updateSpreadShot: activation every 500 points when inactive records
      the last 500-point threshold reached; expiry only strictly after the end
      time. The two tests read the same pre-call flag, so at most one fires. */
  function UpdateSpreadShot(s: WeaponState, score: int, now: real): (r: WeaponState)
    ensures !(SpreadActivates(s, score) && SpreadExpires(s, now))
    ensures SpreadActivates(s, score) ==>
              && r == s.(spreadActive := true, spreadEndTime := now + SpreadDuration,
                         lastSpreadScore := r.lastSpreadScore)
              && r.lastSpreadScore <= score < r.lastSpreadScore + SpreadScoreStep
              && r.lastSpreadScore % SpreadScoreStep == 0
    ensures SpreadExpires(s, now) ==> r == s.(spreadActive := false)
    ensures r.spreadActive != s.spreadActive <==> SpreadActivates(s, score) || SpreadExpires(s, now)
    ensures r.spreadActive == s.spreadActive ==> r == s
  {
    if SpreadActivates(s, score) then
      s.(spreadActive := true, spreadEndTime := now + SpreadDuration,
         lastSpreadScore := (score / SpreadScoreStep) * SpreadScoreStep)
    else if SpreadExpires(s, now) then
      s.(spreadActive := false)
    else
      s
  }

  // ---------------------------------------------------------------------
  // Shooting

  /** The 8 evenly spaced headings -0.3 + i * (0.6 / 7) around the car's. */
  function SpreadShots(start: Vec3, rot: real, carVelocity: real): (r: seq<Shot>)
    ensures |r| == 8
    ensures forall i :: 0 <= i < 8 ==> r[i].position == start && r[i].carVelocity == carVelocity
    ensures forall i :: 0 <= i < 8 ==> r[i].angle == rot + (-MaxOffset + i as real * (MaxOffset * 2.0 / 7.0))
  {
    seq(8, i requires 0 <= i < 8 => Shot(start, rot + (-MaxOffset + i as real * (MaxOffset * 2.0 / 7.0)), carVelocity))
  }

  /** The fan runs from rot - 0.3 to rot + 0.3, symmetric about the heading
      and in strictly increasing order. */
  lemma SpreadShotsSymmetric(start: Vec3, rot: real, carVelocity: real)
    ensures var r := SpreadShots(start, rot, carVelocity);
            && r[0].angle == rot - MaxOffset && r[7].angle == rot + MaxOffset
            && (forall i :: 0 <= i < 8 ==> r[i].angle + r[7 - i].angle == 2.0 * rot)
            && (forall i :: 0 < i < 8 ==> r[i - 1].angle < r[i].angle)
  {
  }

  predicate SpreadMode(s: WeaponState, onSpreadShoot: bool) {
    s.spreadActive && onSpreadShoot
  }

  /** handleShoot: with the spread active and a spread callback, a burst of
      8 needs more than 400 ms since the last shot; otherwise, with a shot
      callback, a single shot needs more than 300 ms. Both modes share
      lastShotTime, and all shots start at (x, 1, z). */
  function HandleShoot(s: WeaponState, now: real, x: real, z: real, rot: real, carVelocity: real,
                       onShoot: bool, onSpreadShoot: bool): (r: (Option<Volley>, WeaponState))
    ensures SpreadMode(s, onSpreadShoot) ==>
              (r.0.Some? <==> now - s.lastShotTime > SpreadCooldown)
    ensures !SpreadMode(s, onSpreadShoot) ==>
              (r.0.Some? <==> onShoot && now - s.lastShotTime > ShotCooldown)
    ensures r.0.Some? && SpreadMode(s, onSpreadShoot) ==>
              r.0.value == Spread(SpreadShots(Vec3(x, 1.0, z), rot, carVelocity))
    ensures r.0.Some? && !SpreadMode(s, onSpreadShoot) ==>
              r.0.value == Single(Shot(Vec3(x, 1.0, z), rot, carVelocity))
    ensures r.0.Some? ==> r.1 == s.(lastShotTime := now)
    ensures r.0.None? ==> r.1 == s
  {
    var start := Vec3(x, 1.0, z);
    if SpreadMode(s, onSpreadShoot) then
      if now - s.lastShotTime > SpreadCooldown then
        (Some(Spread(SpreadShots(start, rot, carVelocity))), s.(lastShotTime := now))
      else (None, s)
    else if onShoot && now - s.lastShotTime > ShotCooldown then
      (Some(Single(Shot(start, rot, carVelocity))), s.(lastShotTime := now))
    else (None, s)
  }

  /** Any volley blocks every volley of either mode for the next 300 ms. */
  lemma ShotsAreRateLimited(s: WeaponState, now: real, later: real, x: real, z: real, rot: real, v: real,
                            onShoot: bool, onSpreadShoot: bool, s2: WeaponState)
    requires HandleShoot(s, now, x, z, rot, v, onShoot, onSpreadShoot).0.Some?
    requires later <= now + ShotCooldown
    requires s2.lastShotTime == HandleShoot(s, now, x, z, rot, v, onShoot, onSpreadShoot).1.lastShotTime
    ensures HandleShoot(s2, later, x, z, rot, v, onShoot, onSpreadShoot).0.None?
  {
  }

  // ---------------------------------------------------------------------
  // Missiles

  predicate MissileReady(s: WeaponState, now: real, onMissileShoot: bool) {
    s.missiles > 0 && now - s.lastMissileTime > MissileCooldown && onMissileShoot
  }

  /** The triple-rocket pattern: heading offsets -0.15, 0, 0.15 paired with
      x offsets -0.5, 0, 0.5, all at height 2. */
  function TripleShots(x: real, z: real, rot: real, carVelocity: real): (r: seq<Shot>)
    ensures |r| == 3
    ensures r[0] == Shot(Vec3(x - 0.5, 2.0, z), rot - 0.15, carVelocity)
    ensures r[1] == Shot(Vec3(x, 2.0, z), rot, carVelocity)
    ensures r[2] == Shot(Vec3(x + 0.5, 2.0, z), rot + 0.15, carVelocity)
  {
    var offsets := [-0.15, 0.0, 0.15];
    seq(3, i requires 0 <= i < 3 =>
      var xOffset := if i == 0 then -0.5 else if i == 2 then 0.5 else 0.0;
      Shot(Vec3(x + xOffset, 2.0, z), rot + offsets[i], carVelocity))
  }

  /** handleMissileShoot: nothing happens unless ammunition is left, more
      than 800 ms have passed and a callback exists. Triple mode launches
      three and takes max(0, n - 3); normal mode launches one and takes one. */
  function HandleMissileShoot(s: WeaponState, now: real, x: real, z: real, rot: real, carVelocity: real,
                              onMissileShoot: bool): (r: (seq<Shot>, WeaponState))
    ensures !MissileReady(s, now, onMissileShoot) ==> r.0 == [] && r.1 == s
    ensures MissileReady(s, now, onMissileShoot) && s.tripleActive ==>
              r.0 == TripleShots(x, z, rot, carVelocity) && r.1.missiles == (if s.missiles >= 3 then s.missiles - 3 else 0)
    ensures MissileReady(s, now, onMissileShoot) && !s.tripleActive ==>
              r.0 == [Shot(Vec3(x, 2.0, z), rot, carVelocity)] && r.1.missiles == s.missiles - 1
    ensures MissileReady(s, now, onMissileShoot) ==>
              r.1 == s.(missiles := r.1.missiles, lastMissileTime := now)
    ensures s.missiles >= 0 ==> r.1.missiles >= 0
  {
    if !MissileReady(s, now, onMissileShoot) then ([], s)
    else if s.tripleActive then
      (TripleShots(x, z, rot, carVelocity),
       s.(missiles := if s.missiles - 3 > 0 then s.missiles - 3 else 0, lastMissileTime := now))
    else
      ([Shot(Vec3(x, 2.0, z), rot, carVelocity)], s.(missiles := s.missiles - 1, lastMissileTime := now))
  }

  /** The ammunition taken equals the missiles launched, except that triple
      mode launches three even with only one or two left (taking what is
      there). */
  lemma MissileAccounting(s: WeaponState, now: real, x: real, z: real, rot: real, v: real, cb: bool)
    requires s.missiles >= 0
    ensures var r := HandleMissileShoot(s, now, x, z, rot, v, cb);
            && s.missiles - r.1.missiles == (if |r.0| <= s.missiles then |r.0| else s.missiles)
            && |r.0| <= 3
            && (|r.0| > s.missiles ==> r.1.missiles == 0 && s.tripleActive)
  {
  }

  /** addMissiles, with the pack size defaulting to 5. */
  function AddMissiles(s: WeaponState, count: int := DefaultMissilePack): (r: WeaponState)
    ensures r.missiles == s.missiles + count
    ensures r == s.(missiles := r.missiles)
  {
    s.(missiles := s.missiles + count)
  }

  /** activateTripleRocketMode: 12 seconds of triple mode and 12 more missiles. */
  function ActivateTripleRocketMode(s: WeaponState, now: real): (r: WeaponState)
    ensures r.tripleActive && r.tripleEndTime == now + TripleDuration
    ensures r.missiles == s.missiles + TripleBonus
    ensures r == s.(tripleActive := true, tripleEndTime := r.tripleEndTime, missiles := r.missiles)
  {
    s.(tripleActive := true, tripleEndTime := now + TripleDuration, missiles := s.missiles + TripleBonus)
  }

  /** updateTripleRocketMode: deactivates only strictly after the end time. */
  function UpdateTripleRocketMode(s: WeaponState, now: real): (r: WeaponState)
    ensures !r.tripleActive <==> !s.tripleActive || now > s.tripleEndTime
    ensures r == s.(tripleActive := r.tripleActive)
  {
    if s.tripleActive && now > s.tripleEndTime then s.(tripleActive := false) else s
  }

  datatype WeaponView = WeaponView(spreadShotActive: bool, spreadShotTimeRemaining: real, missilesRemaining: int,
                                   tripleRocketActive: bool, tripleRocketTimeRemaining: real)

  /** getWeaponState: times left are never negative and 0 when inactive. */
  function GetWeaponState(s: WeaponState, now: real): (v: WeaponView)
    ensures v.spreadShotActive == s.spreadActive && v.tripleRocketActive == s.tripleActive
    ensures v.missilesRemaining == s.missiles
    ensures v.spreadShotTimeRemaining >= 0.0 && v.tripleRocketTimeRemaining >= 0.0
    ensures !s.spreadActive ==> v.spreadShotTimeRemaining == 0.0
    ensures !s.tripleActive ==> v.tripleRocketTimeRemaining == 0.0
    ensures s.spreadActive && now <= s.spreadEndTime ==> v.spreadShotTimeRemaining == s.spreadEndTime - now
    ensures s.tripleActive && now <= s.tripleEndTime ==> v.tripleRocketTimeRemaining == s.tripleEndTime - now
  {
    WeaponView(s.spreadActive, if s.spreadActive then Max(0.0, s.spreadEndTime - now) else 0.0,
               s.missiles,
               s.tripleActive, if s.tripleActive then Max(0.0, s.tripleEndTime - now) else 0.0)
  }

  /** Ammunition is never negative: it starts at 5 and every operation keeps
      it non-negative (adding a non-negative pack). */
  predicate Inv(s: WeaponState) {
    s.missiles >= 0 && s.lastSpreadScore % SpreadScoreStep == 0
  }

  lemma InitialInv()
    ensures Inv(Initial)
  {
  }

  lemma OperationsPreserveInv(s: WeaponState, now: real, score: int, x: real, z: real, rot: real, v: real,
                              cb1: bool, cb2: bool, count: int)
    requires Inv(s) && count >= 0
    ensures Inv(UpdateSpreadShot(s, score, now))
    ensures Inv(HandleShoot(s, now, x, z, rot, v, cb1, cb2).1)
    ensures Inv(HandleMissileShoot(s, now, x, z, rot, v, cb1).1)
    ensures Inv(AddMissiles(s, count)) && Inv(AddMissiles(s))
    ensures Inv(ActivateTripleRocketMode(s, now))
    ensures Inv(UpdateTripleRocketMode(s, now))
  {
  }

  /** With thresholds on multiples of 500, each activation raises the
      recorded threshold by at least 500, so one score level activates the
      spread shot at most once. */
  lemma SpreadThresholdAdvances(s: WeaponState, score: int, now: real)
    requires Inv(s) && SpreadActivates(s, score)
    ensures UpdateSpreadShot(s, score, now).lastSpreadScore >= s.lastSpreadScore + SpreadScoreStep
    ensures !SpreadActivates(UpdateSpreadShot(s, score, now).(spreadActive := false), score)
  {
    var p := s.lastSpreadScore / SpreadScoreStep;
    assert s.lastSpreadScore == p * SpreadScoreStep;
    assert score / SpreadScoreStep >= p + 1;
  }
}
