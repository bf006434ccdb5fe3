/**
 * Heading derived from a raw magnetometer sample (frontend/components/Magnetometer.jsx).
 *
 * `Math.atan2` is not modelled: the caller supplies it as the function `atan2`,
 * of which only the range [-Pi, Pi] at the sample is assumed. The model covers
 * the quadrant correction, the radians-to-degrees conversion and `Math.round`.
 */
module Magnetometer {
  import opened Angles
  import opened Optional

  /** One magnetometer sample; `z` is carried but not used by the heading. */
  datatype Reading = Reading(x: real, y: real, z: real)

  /** The atan2 value lies in its mathematical range at this sample. */
  predicate Atan2InRange(atan2: (real, real) -> real, reading: Reading)
  {
    -Pi <= atan2(reading.y, reading.x) <= Pi
  }

  /**
   * The angle before rounding: an arctangent `t` in [-Pi, Pi] turned into a
   * compass angle in [0, 360), negative values taken one turn further round.
   * Converting back to radians gives `t` itself, or `t + 2 Pi` for negative `t`.
   */
  function DegreesFromArctangent(t: real): (a: real)
    requires -Pi <= t <= Pi
    ensures 0.0 <= a < 360.0
    ensures t >= 0.0 ==> a * Pi / 180.0 == t
    ensures t < 0.0 ==> a * Pi / 180.0 == t + 2.0 * Pi
  {
    if t >= 0.0 then t * (180.0 / Pi) else (t + 2.0 * Pi) * (180.0 / Pi)
  }

  /**
   * `_angle`: no sample gives 0; otherwise the corrected angle, rounded to a
   * whole degree. Rounding can reach 360 itself.
   */
  function Angle(reading: Option<Reading>, atan2: (real, real) -> real): (r: int)
    requires reading.Some? ==> Atan2InRange(atan2, reading.value)
    ensures 0 <= r <= 360
    ensures reading.None? ==> r == 0
    ensures reading.Some? ==>
      var a := DegreesFromArctangent(atan2(reading.value.y, reading.value.x));
      a - 0.5 < r as real <= a + 0.5
  {
    var angle := if reading.Some? then DegreesFromArctangent(atan2(reading.value.y, reading.value.x)) else 0.0;
    Round(angle)
  }

  /** An arctangent just below zero (within half a degree) makes `_angle` return 360, not 0. */
  lemma AngleCanBe360()
    ensures Angle(Some(Reading(1.0, -0.001, 0.0)), (y: real, x: real) => -Pi / 1000.0) == 360
  {
    var t := -Pi / 1000.0;
    assert (t + 2.0 * Pi) * (180.0 / Pi) == 359.82;
  }

  /**
   * `_degree`: turns a compass angle a quarter turn back, where angles below 90
   * are moved up by 271 (not 270).
   */
  function Degree(m: int): (r: int)
    ensures 0 <= m <= 360 ==> 0 <= r <= 360
    ensures 90 <= m <= 360 ==> r <= 270
    ensures 0 <= m < 90 ==> 271 <= r
  {
    if m - 90 >= 0 then m - 90 else m + 271
  }

  /** The inverse of `Degree` on [0, 360]. */
  function UnDegree(d: int): int
  {
    if d <= 270 then d + 90 else d - 271
  }

  /** On the integers 0..360, `Degree` is a bijection: no two angles share a result, and every value is reached. */
  lemma DegreeBijective(m: int, d: int)
    requires 0 <= m <= 360 && 0 <= d <= 360
    ensures UnDegree(Degree(m)) == m
    ensures 0 <= UnDegree(d) <= 360 && Degree(UnDegree(d)) == d
  {
  }

  /** Sample values: 90 maps to 0, 89 to 360, 0 to 271. */
  lemma DegreeSamples()
    ensures Degree(90) == 0 && Degree(89) == 360 && Degree(0) == 271
  {
  }
}
