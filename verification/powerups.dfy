/** The boost power-up state machine (src/hooks/useCarPowerups.ts).
    `isBoosted`, `boostEndTime` and the target multiplier are React state: an
    update made by one call is seen by the next call. The applied multiplier
    is a ref and changes immediately. Within one updateBoost call the ramp
    reads the flag and target as they were before the call, so an expiry
    takes effect on the ramp one call later. */
module Powerups {
  import opened Maths

  datatype PowerupState = PowerupState(isBoosted: bool, boostEndTime: real, target: real, multiplier: real)

  const Initial: PowerupState := PowerupState(false, 0.0, 1.0, 1.0)

  const BoostDuration: real := 5000.0
  const FirstBoost: real := 1.35
  const StackStep: real := 0.1
  const MaxBoost: real := 2.0
  const RampUp: real := 5.0
  const RampDown: real := 2.0

  /** collectBoost: the first pickup sets the target to 1.35, each further
      pickup while boosted adds 0.1 up to 2.0; every pickup restarts the
      5-second timer. The applied multiplier is not touched. */
  function CollectBoost(s: PowerupState, now: real): (r: PowerupState)
    ensures r.isBoosted
    ensures r.boostEndTime == now + BoostDuration
    ensures !s.isBoosted ==> r.target == FirstBoost
    ensures s.isBoosted ==> r.target == Min(MaxBoost, s.target + StackStep)
    ensures s.isBoosted && s.target <= MaxBoost ==> s.target <= r.target <= MaxBoost
    ensures r.multiplier == s.multiplier
  {
    if s.isBoosted then
      s.(target := Min(MaxBoost, s.target + StackStep), boostEndTime := now + BoostDuration)
    else
      s.(isBoosted := true, target := FirstBoost, boostEndTime := now + BoostDuration)
  }

  /** Expiry: only while boosted and strictly after the end time. */
  predicate Expires(s: PowerupState, now: real) {
    s.isBoosted && now > s.boostEndTime
  }

  /** updateBoost: the expiry check clears the flag and resets the target to
      1.0; the multiplier ramps toward the pre-call target at 5 per second
      while boosted, or back toward 1.0 at 2 per second otherwise. Returns
      the new multiplier with the new state. */
  function UpdateBoost(s: PowerupState, now: real, dt: real): (r: (PowerupState, real))
    ensures r.1 == r.0.multiplier
    ensures Expires(s, now) ==> !r.0.isBoosted && r.0.target == 1.0
    ensures !Expires(s, now) ==> r.0.isBoosted == s.isBoosted && r.0.target == s.target
    ensures r.0.boostEndTime == s.boostEndTime
    ensures s.isBoosted ==> r.1 <= s.target && (dt >= 0.0 && s.multiplier <= s.target ==> r.1 >= s.multiplier)
    ensures !s.isBoosted ==> r.1 >= 1.0 && (dt >= 0.0 ==> r.1 <= s.multiplier || r.1 == 1.0)
    ensures s.isBoosted ==> r.1 - s.multiplier <= RampUp * dt && (r.1 == s.target || r.1 == s.multiplier + RampUp * dt)
    ensures !s.isBoosted ==> s.multiplier - r.1 <= RampDown * dt && (r.1 == 1.0 || r.1 == s.multiplier - RampDown * dt)
  {
    var expired := Expires(s, now);
    var multiplier :=
      if s.isBoosted then Min(s.target, s.multiplier + RampUp * dt)
      else Max(1.0, s.multiplier - RampDown * dt);
    var next := if expired then s.(isBoosted := false, target := 1.0) else s;
    (next.(multiplier := multiplier), multiplier)
  }

  datatype PowerupView = PowerupView(isBoosted: bool, boostTimeRemaining: real, boostMultiplier: real)

  /** getPowerupState: the time left is never negative and is 0 when not
      boosted. */
  function GetPowerupState(s: PowerupState, now: real): (v: PowerupView)
    ensures v.isBoosted == s.isBoosted && v.boostMultiplier == s.multiplier
    ensures v.boostTimeRemaining >= 0.0
    ensures !s.isBoosted ==> v.boostTimeRemaining == 0.0
    ensures s.isBoosted && now <= s.boostEndTime ==> v.boostTimeRemaining == s.boostEndTime - now
    ensures s.isBoosted && now > s.boostEndTime ==> v.boostTimeRemaining == 0.0
  {
    PowerupView(s.isBoosted, if s.isBoosted then Max(0.0, s.boostEndTime - now) else 0.0, s.multiplier)
  }

  /** The bounds the hook keeps: target and multiplier both in [1, 2]. */
  predicate Inv(s: PowerupState) {
    1.0 <= s.target <= MaxBoost && 1.0 <= s.multiplier <= MaxBoost
  }

  lemma InitialInv()
    ensures Inv(Initial)
  {
  }

  /** Both operations keep the bounds (for non-negative frame times), so
      stacking pickups can never push the multiplier past 2.0. */
  lemma OperationsPreserveInv(s: PowerupState, now: real, dt: real)
    requires Inv(s) && dt >= 0.0
    ensures Inv(CollectBoost(s, now))
    ensures Inv(UpdateBoost(s, now, dt).0)
  {
  }

  /** k pickups in a row while boosted. */
  function Stack(s: PowerupState, now: real, k: nat): (r: PowerupState)
  {
    if k == 0 then s else CollectBoost(Stack(s, now, k - 1), now)
  }

  /** From the first pickup, the target after k further pickups is
      min(2.0, 1.35 + 0.1 k): it climbs by exactly 0.1 per pickup and then
      stays at the cap. */
  lemma {:induction false} StackingReachesCap(s: PowerupState, now: real, k: nat)
    requires !s.isBoosted
    ensures Stack(CollectBoost(s, now), now, k).target == Min(MaxBoost, FirstBoost + StackStep * k as real)
    ensures Stack(CollectBoost(s, now), now, k).isBoosted
  {
    if k > 0 {
      StackingReachesCap(s, now, k - 1);
    }
  }

  /** n calls of updateBoost at the same clock reading. */
  function Updates(s: PowerupState, now: real, dt: real, n: nat): (r: PowerupState)
  {
    if n == 0 then s else UpdateBoost(Updates(s, now, dt, n - 1), now, dt).0
  }

  /** Calls before the end time change neither the flag nor the target. */
  lemma {:induction false} UpdatesKeepFlag(s: PowerupState, now: real, dt: real, n: nat)
    requires !Expires(s, now)
    ensures Updates(s, now, dt, n).isBoosted == s.isBoosted
    ensures Updates(s, now, dt, n).target == s.target
    ensures Updates(s, now, dt, n).boostEndTime == s.boostEndTime
  {
    if n > 0 {
      UpdatesKeepFlag(s, now, dt, n - 1);
    }
  }

  /** m moved by n steps of size d. */
  function Stepped(m: real, d: real, n: nat): (r: real)
    ensures r == m + d * n as real
  {
    if n == 0 then m else Stepped(m, d, n - 1) + d
  }

  /** Capping before a non-negative step and capping after it agree. */
  lemma CapAfterStep(cap: real, a: real, step: real)
    requires step >= 0.0
    ensures Min(cap, Min(cap, a) + step) == Min(cap, a + step)
    ensures Max(cap, Max(cap, a) - step) == Max(cap, a - step)
  {
  }

  /** While the boost runs, the multiplier climbs linearly at 5 per second
      (m + 5 dt n after n calls) until it meets the target, and then stays
      there. */
  lemma {:induction false} RampUpIsLinear(s: PowerupState, now: real, dt: real, n: nat)
    requires dt >= 0.0 && !Expires(s, now) && s.isBoosted && s.multiplier <= s.target
    ensures Updates(s, now, dt, n).multiplier == Min(s.target, Stepped(s.multiplier, RampUp * dt, n))
  {
    if n > 0 {
      RampUpIsLinear(s, now, dt, n - 1);
      UpdatesKeepFlag(s, now, dt, n - 1);
      CapAfterStep(s.target, Stepped(s.multiplier, RampUp * dt, n - 1), RampUp * dt);
    }
  }

  /** Without a boost the multiplier falls linearly at 2 per second
      (m - 2 dt n after n calls) until it meets 1.0, and then stays there. */
  lemma {:induction false} RampDownIsLinear(s: PowerupState, now: real, dt: real, n: nat)
    requires dt >= 0.0 && !s.isBoosted && s.multiplier >= 1.0
    ensures Updates(s, now, dt, n).multiplier == Max(1.0, Stepped(s.multiplier, -RampDown * dt, n))
  {
    if n > 0 {
      RampDownIsLinear(s, now, dt, n - 1);
      UpdatesKeepFlag(s, now, dt, n - 1);
      CapAfterStep(1.0, Stepped(s.multiplier, -RampDown * dt, n - 1), RampDown * dt);
    }
  }

  /** After an expiry the next call already ramps down: the stale-flag frame
      is the only one that still ramps toward the old target. */
  lemma ExpiryRampsDownNextCall(s: PowerupState, now: real, dt: real, later: real, dt2: real)
    requires Expires(s, now) && dt2 >= 0.0
    ensures var t := UpdateBoost(s, now, dt).0;
            var u := UpdateBoost(t, later, dt2).0;
            !u.isBoosted && u.multiplier == Max(1.0, t.multiplier - RampDown * dt2)
  {
  }
}
