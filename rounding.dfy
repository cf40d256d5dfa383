/**
 * Python's `round(x, 3)` on scores, taken on exact reals with halves rounded
 * up, and the clamp `max(0.0, min(1.0, x))`.
 */
module Rounding {

  /** A score in the closed unit interval. */
  predicate InUnit(x: real) { 0.0 <= x <= 1.0 }

  /** Rounds to three decimals: the nearest multiple of 0.001. */
  function Round3(x: real): (r: real)
    ensures x - 0.0005 < r <= x + 0.0005
    ensures (r * 1000.0).Floor as real == r * 1000.0
  {
    var k := (x * 1000.0 + 0.5).Floor;
    assert (k as real / 1000.0) * 1000.0 == k as real;
    k as real / 1000.0
  }

  lemma Round3Monotone(a: real, b: real)
    requires a <= b
    ensures Round3(a) <= Round3(b)
  {
    var ka := (a * 1000.0 + 0.5).Floor;
    var kb := (b * 1000.0 + 0.5).Floor;
    assert ka as real <= b * 1000.0 + 0.5;
    assert ka <= kb;
  }

  /** A multiple of 0.001 is left as it is. */
  lemma Round3Exact(k: int)
    ensures Round3(k as real / 1000.0) == k as real / 1000.0
  {
    var x := k as real / 1000.0;
    assert x * 1000.0 + 0.5 == k as real + 0.5;
    assert (x * 1000.0 + 0.5).Floor == k;
  }

  /** Rounding keeps a score inside [0, 1]. */
  lemma Round3InUnit(x: real)
    requires InUnit(x)
    ensures InUnit(Round3(x))
  {
    Round3Monotone(0.0, x);
    Round3Monotone(x, 1.0);
    Round3Exact(0);
    Round3Exact(1000);
  }

  /** Rounding never lifts a value above a multiple of 0.001 that bounds it, such as 0.3. */
  lemma Round3AtMost(x: real, k: int)
    requires x <= k as real / 1000.0
    ensures Round3(x) <= k as real / 1000.0
  {
    Round3Monotone(x, k as real / 1000.0);
    Round3Exact(k);
  }

  /** `max(0.0, min(1.0, x))`. */
  function Clamp01(x: real): (r: real)
    ensures InUnit(r)
    ensures InUnit(x) ==> r == x
    ensures x < 0.0 ==> r == 0.0
    ensures x > 1.0 ==> r == 1.0
  {
    if x < 0.0 then 0.0 else if x > 1.0 then 1.0 else x
  }
}
