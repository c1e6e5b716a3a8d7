/** Numeric helpers shared by every simulation rule: the JavaScript `Math`
    functions the game uses (abs, min, max, floor, ceil, round) over
    unbounded reals, and the `Math.max(lo, Math.min(hi, x))` clamp idiom. */
module Maths {

  /** A point in world space; y is up, the car drives toward -z. */
  datatype Vec3 = Vec3(x: real, y: real, z: real)

  /** `Math.PI` as an IEEE double, written out in decimal. */
  const Pi: real := 3.141592653589793

  function Abs(x: real): (r: real)
    ensures r >= 0.0
    ensures r == x || r == -x
    ensures r >= x && r >= -x
  {
    if x < 0.0 then -x else x
  }

  function Min(a: real, b: real): (r: real)
    ensures r <= a && r <= b
    ensures r == a || r == b
  {
    if a <= b then a else b
  }

  function Max(a: real, b: real): (r: real)
    ensures r >= a && r >= b
    ensures r == a || r == b
  {
    if a >= b then a else b
  }

  /** `Math.max(lo, Math.min(hi, x))`: when the bounds are ordered the result
      lies between them and a value already inside is left alone. */
  function Clamp(x: real, lo: real, hi: real): (r: real)
    ensures lo <= hi ==> lo <= r <= hi
    ensures lo <= x <= hi ==> r == x
    ensures lo <= hi && x < lo ==> r == lo
    ensures lo <= hi && x > hi ==> r == hi
  {
    Max(lo, Min(hi, x))
  }

  /** Clamping is idempotent: a clamped value is a fixed point. */
  lemma ClampIdempotent(x: real, lo: real, hi: real)
    requires lo <= hi
    ensures Clamp(Clamp(x, lo, hi), lo, hi) == Clamp(x, lo, hi)
  {
  }

  /** Scaling by a non-negative factor keeps an order, and scaling by a
      positive one keeps a strict order. */
  lemma Scale(a: real, b: real, c: real)
    requires a >= b && c >= 0.0
    ensures c * a >= c * b
    ensures a > b && c > 0.0 ==> c * a > c * b
  {
  }

  /** `Math.floor`. */
  function Floor(x: real): (r: int)
    ensures r as real <= x < r as real + 1.0
  {
    x.Floor
  }

  /** `Math.ceil`: the least integer not below x. */
  function Ceil(x: real): (r: int)
    ensures x <= r as real < x + 1.0
  {
    -((-x).Floor)
  }

  /** `Math.round`: the nearest integer, with halves rounded towards +infinity. */
  function Round(x: real): (r: int)
    ensures x - 0.5 < r as real <= x + 0.5
  {
    (x + 0.5).Floor
  }
}
