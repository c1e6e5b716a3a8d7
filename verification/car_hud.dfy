/** The throttled heads-up display writer (src/hooks/useCarHUD.ts). The
    original writes text, widths and colours straight into DOM elements;
    here one call returns the values it would write, or nothing on the five
    frames out of six that it skips. A missing element is not modelled: every
    element is taken to exist. */
module CarHud {
  import opened Maths
  import opened Seqs
  import Powerups
  import Weapons

  /** Speed at which the display reads 100% (twice the base top speed). */
  const FullScaleSpeed: real := 1.8
  const Throttle: int := 6
  const TimerScale: real := 5000.0

  const Cruising: string := "#00ffff"
  const Boosted: string := "#00ff00"
  const Armed: string := "#ff4400"
  const Empty: string := "#666666"

  /** A countdown panel: shown or hidden, and, only while shown, whole seconds
      left and the bar width in percent. */
  datatype Timer = Hidden | Shown(seconds: int, barWidth: real)

  datatype HudView = HudView(
    speedPercent: int, speedBarWidth: int, speedColour: string,
    score: int,
    missiles: int, missilesColour: string,
    boost: Timer, spread: Timer)

  /** A countdown panel for time left `ms`: seconds are rounded up and never
      negative; the bar is the fraction of 5 seconds, not clamped. */
  function TimerFor(active: bool, ms: real): (t: Timer)
    ensures active <==> t.Shown?
    ensures t.Shown? && ms > 0.0 ==> ms <= t.seconds as real * 1000.0 < ms + 1000.0
    ensures t.Shown? && ms <= 0.0 ==> t.seconds == 0
    ensures t.Shown? ==> t.barWidth * TimerScale == ms * 100.0
  {
    if active then Shown(if Ceil(ms / 1000.0) > 0 then Ceil(ms / 1000.0) else 0, ms / TimerScale * 100.0)
    else Hidden
  }

  /** Speed as a rounded percentage of full scale. */
  function SpeedPercent(speed: real): (p: int)
    ensures p >= 0
    ensures Abs(speed) * 100.0 - 0.5 * FullScaleSpeed < p as real * FullScaleSpeed <= Abs(speed) * 100.0 + 0.5 * FullScaleSpeed
  {
    Round(Abs(speed) / FullScaleSpeed * 100.0)
  }

  /** What one visible update writes. */
  function View(speed: real, score: int, p: Powerups.PowerupView, w: Weapons.WeaponView): (v: HudView)
    ensures v.speedPercent == SpeedPercent(speed)
    ensures 0 <= v.speedBarWidth <= 100
    ensures v.speedBarWidth == v.speedPercent || (v.speedPercent > 100 && v.speedBarWidth == 100)
    ensures v.speedColour == (if p.isBoosted then Boosted else Cruising)
    ensures v.score == score && v.missiles == w.missilesRemaining
    ensures v.missilesColour == Armed <==> w.missilesRemaining > 0
    ensures v.boost.Shown? <==> p.isBoosted
    ensures v.spread.Shown? <==> w.spreadShotActive
    ensures v.boost == TimerFor(p.isBoosted, p.boostTimeRemaining)
    ensures v.spread == TimerFor(w.spreadShotActive, w.spreadShotTimeRemaining)
  {
    var percent := SpeedPercent(speed);
    HudView(percent, if percent < 100 then percent else 100,
            if p.isBoosted then Boosted else Cruising,
            score,
            w.missilesRemaining, if w.missilesRemaining > 0 then Armed else Empty,
            TimerFor(p.isBoosted, p.boostTimeRemaining),
            TimerFor(w.spreadShotActive, w.spreadShotTimeRemaining))
  }

  /** updateHUD: the frame counter always advances; the display is written
      only when the new count is a multiple of 6. */
  function UpdateHud(count: int, speed: real, score: int, p: Powerups.PowerupView, w: Weapons.WeaponView)
    : (r: (int, Option<HudView>))
    ensures r.0 == count + 1
    ensures r.1.Some? <==> (count + 1) % Throttle == 0
    ensures r.1.Some? ==> r.1.value == View(speed, score, p, w)
  {
    var next := count + 1;
    if next % Throttle != 0 then (next, None) else (next, Some(View(speed, score, p, w)))
  }

  /** The number of visible updates among n calls starting from counter c. */
  function Writes(c: int, n: nat, speed: real, score: int, p: Powerups.PowerupView, w: Weapons.WeaponView): (k: nat)
    ensures k <= n
    decreases n
  {
    if n == 0 then 0
    else
      var r := UpdateHud(c, speed, score, p, w);
      (if r.1.Some? then 1 else 0) + Writes(r.0, n - 1, speed, score, p, w)
  }

  /** Exactly the multiples of 6 in (c, c + n] are written: one frame in
      six, whatever the starting count. */
  lemma {:induction false} WritesCount(c: int, n: nat, speed: real, score: int, p: Powerups.PowerupView,
                                       w: Weapons.WeaponView)
    ensures Writes(c, n, speed, score, p, w) == (c + n) / Throttle - c / Throttle
    decreases n
  {
    if n > 0 {
      WritesCount(c + 1, n - 1, speed, score, p, w);
      assert (c + 1) / Throttle - c / Throttle == (if (c + 1) % Throttle == 0 then 1 else 0);
    }
  }

  /** Any six consecutive calls write the display exactly once. */
  lemma OncePerSixFrames(c: int, speed: real, score: int, p: Powerups.PowerupView, w: Weapons.WeaponView)
    ensures Writes(c, 6, speed, score, p, w) == 1
  {
    WritesCount(c, 6, speed, score, p, w);
  }

  /** Fed by the hooks' own getters, the countdown panels stay in range: at
      most 5 seconds and a bar between 0% and 100%, given that the timers
      were started no earlier than 5 seconds before now. */
  lemma TimersInRange(ps: Powerups.PowerupState, ws: Weapons.WeaponState, now: real)
    requires ps.boostEndTime <= now + Powerups.BoostDuration
    requires ws.spreadEndTime <= now + Weapons.SpreadDuration
    ensures var v := View(0.0, 0, Powerups.GetPowerupState(ps, now), Weapons.GetWeaponState(ws, now));
            && (v.boost.Shown? ==> 0 <= v.boost.seconds <= 5 && 0.0 <= v.boost.barWidth <= 100.0)
            && (v.spread.Shown? ==> 0 <= v.spread.seconds <= 5 && 0.0 <= v.spread.barWidth <= 100.0)
  {
    var pv := Powerups.GetPowerupState(ps, now);
    var wv := Weapons.GetWeaponState(ws, now);
    TimerBounds(pv.isBoosted, pv.boostTimeRemaining);
    TimerBounds(wv.spreadShotActive, wv.spreadShotTimeRemaining);
  }

  lemma TimerBounds(active: bool, ms: real)
    requires 0.0 <= ms <= TimerScale
    ensures var t := TimerFor(active, ms);
            t.Shown? ==> 0 <= t.seconds <= 5 && 0.0 <= t.barWidth <= 100.0
  {
  }
}
