/**
 * Angle arithmetic shared by the app and the hills service, on exact reals.
 *
 * - `Round` is JavaScript's `Math.round` (ties go toward +infinity).
 * - `TruncMod360` is JavaScript's `x % 360` (the remainder has the sign of the dividend).
 * - `FloorMod360` is Python's `x % 360` (the remainder has the sign of the divisor).
 */
module Angles {

  /** Full turn, in degrees. */
  const FullTurn: real := 360.0

  /** The value of JavaScript's `Math.PI`, written as a decimal. */
  const Pi: real := 3.141592653589793

  /** `a` and `b` denote the same compass direction: they differ by a whole number of turns. */
  ghost predicate Congruent360(a: real, b: real)
  {
    var q := (a - b) / 360.0;
    q == q.Floor as real
  }

  /** JavaScript `Math.round`: the nearest integer, ties toward +infinity. */
  function Round(x: real): (r: int)
    ensures r as real - 0.5 <= x < r as real + 0.5
  {
    (x + 0.5).Floor
  }

  /** Truncation toward zero, the quotient JavaScript's `%` is based on. */
  function Trunc(x: real): (r: int)
    ensures 0.0 <= x ==> r as real <= x < r as real + 1.0
    ensures x < 0.0 ==> r as real - 1.0 < x <= r as real
  {
    if x >= 0.0 then x.Floor else -((-x).Floor)
  }

  /** JavaScript's `x % 360`: congruent to `x`, with the sign of `x`. */
  function TruncMod360(x: real): (r: real)
    ensures Congruent360(r, x)
    ensures 0.0 <= x ==> 0.0 <= r < FullTurn
    ensures x < 0.0 ==> -FullTurn < r <= 0.0
  {
    var y := x / 360.0;
    var q := Trunc(y);
    assert x == 360.0 * y;
    WholeTurns(x, q);
    x - 360.0 * q as real
  }

  /** Python's `x % 360`: congruent to `x`, always in [0, 360). */
  function FloorMod360(x: real): (r: real)
    ensures Congruent360(r, x)
    ensures 0.0 <= r < FullTurn
  {
    var y := x / 360.0;
    var q := y.Floor;
    assert q as real <= y < q as real + 1.0;
    assert x == 360.0 * y;
    WholeTurns(x, q);
    x - 360.0 * q as real
  }

  /** Removing whole turns does not change the direction. */
  lemma WholeTurns(x: real, q: int)
    ensures Congruent360(x - 360.0 * q as real, x)
  {
    var d := (x - 360.0 * q as real - x) / 360.0;
    assert d == -(q as real);
    assert d.Floor == -q;
  }

  /** Within one turn there is exactly one representative of each direction. */
  lemma CongruentInTurnUnique(a: real, b: real)
    requires 0.0 <= a < FullTurn && 0.0 <= b < FullTurn
    requires Congruent360(a, b)
    ensures a == b
  {
    var q := (a - b) / 360.0;
    assert -1.0 < q < 1.0;
    assert q.Floor == 0 || q.Floor == -1;
  }

  /** Two directions congruent to a third are congruent to each other. */
  lemma CongruentViaCommon(a: real, b: real, c: real)
    requires Congruent360(a, b) && Congruent360(c, b)
    ensures Congruent360(a, c)
  {
    var p := (a - b) / 360.0;
    var q := (c - b) / 360.0;
    assert (a - c) / 360.0 == p - q;
    assert (p - q).Floor == p.Floor - q.Floor;
  }

  /** Python's `%` is the one representative in [0, 360): anything in range and congruent to `x` equals it. */
  lemma FloorMod360Characterised(x: real, r: real)
    requires 0.0 <= r < FullTurn && Congruent360(r, x)
    ensures FloorMod360(x) == r
  {
    var m := FloorMod360(x);
    CongruentViaCommon(m, x, r);
    CongruentInTurnUnique(m, r);
  }

  /** On non-negative dividends JavaScript's `%` and Python's `%` agree. */
  lemma TruncModIsFloorModWhenNonNegative(x: real)
    requires 0.0 <= x
    ensures TruncMod360(x) == FloorMod360(x)
  {
    FloorMod360Characterised(x, TruncMod360(x));
  }
}
