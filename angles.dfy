/**
 * Longitude arithmetic shared, as identical copies, by precision_landing.py,
 * LonTargeting.py and longitude_targeting.py: Python's float `% 360.0`
 * (floor-based, so never negative) and the signed shortest-path difference
 * between two longitudes.  Floats are read as reals.
 */
module Angles {

  /** `normalize_longitude(x)`, i.e. Python's `x % 360.0`. */
  function Mod360(x: real): (r: real)
    ensures 0.0 <= r < 360.0
    ensures Congruent(r, x)
  {
    var f := (x / 360.0).Floor;
    assert f as real <= x / 360.0 < f as real + 1.0;
    TurnsCongruent(x, -f);
    x - 360.0 * f as real
  }

  /** a and b name the same direction: they differ by a whole number of turns. */
  predicate Congruent(a: real, b: real)
  {
    ((a - b) / 360.0).Floor as real == (a - b) / 360.0
  }

  lemma TurnsCongruent(b: real, k: int)
    ensures Congruent(b + 360.0 * k as real, b)
  {
    assert (b + 360.0 * k as real - b) / 360.0 == k as real;
  }

  lemma CongruentTurns(a: real, b: real) returns (k: int)
    requires Congruent(a, b)
    ensures a == b + 360.0 * k as real
  {
    k := ((a - b) / 360.0).Floor;
  }

  lemma CongruentSymmetric(a: real, b: real)
    requires Congruent(a, b)
    ensures Congruent(b, a)
  {
    var k := CongruentTurns(a, b);
    TurnsCongruent(a, -k);
  }

  lemma CongruentTransitive(a: real, b: real, c: real)
    requires Congruent(a, b) && Congruent(b, c)
    ensures Congruent(a, c)
  {
    var k := CongruentTurns(a, b);
    var j := CongruentTurns(b, c);
    TurnsCongruent(c, k + j);
  }

  /** Adding whole turns does not change the normalized longitude. */
  lemma {:induction false} Mod360Periodic(x: real, k: int)
    ensures Mod360(x + 360.0 * k as real) == Mod360(x)
  {
    var y := x + 360.0 * k as real;
    assert y / 360.0 == x / 360.0 + k as real;
    var f := (x / 360.0).Floor;
    assert f as real <= x / 360.0 < f as real + 1.0;
    assert (f + k) as real <= y / 360.0 < (f + k) as real + 1.0;
    assert (y / 360.0).Floor == f + k;
  }

  /** Mod360 is the one representative of x's direction in [0, 360). */
  lemma Mod360Unique(x: real, r: real)
    requires 0.0 <= r < 360.0 && Congruent(r, x)
    ensures r == Mod360(x)
  {
    var k := CongruentTurns(r, x);
    Mod360Periodic(x, k);
    var f := (r / 360.0).Floor;
    assert f as real <= r / 360.0 < f as real + 1.0;
    assert f == 0;
  }

  /** Longitudes already in [0, 360) are left unchanged. */
  lemma Mod360Fixed(x: real)
    requires 0.0 <= x < 360.0
    ensures Mod360(x) == x
  {
    TurnsCongruent(x, 0);
    Mod360Unique(x, x);
  }

  /** `calculate_longitude_difference(current, target)`: the signed turn from current to target. */
  function LongitudeDifference(current: real, target: real): (diff: real)
    ensures -180.0 <= diff <= 180.0
    ensures Congruent(diff, target - current)
    ensures current == target ==> diff == 0.0
  {
    var c := Mod360(current);
    var t := Mod360(target);
    var d := t - c;
    var r := if d > 180.0 then d - 360.0 else if d < -180.0 then d + 360.0 else d;
    var kc := -(current / 360.0).Floor;
    var kt := -(target / 360.0).Floor;
    assert c == current + 360.0 * kc as real;
    assert t == target + 360.0 * kt as real;
    assert d == (target - current) + 360.0 * (kt - kc) as real;
    if d > 180.0 then TurnsCongruent(target - current, kt - kc - 1); r
    else if d < -180.0 then TurnsCongruent(target - current, kt - kc + 1); r
    else TurnsCongruent(target - current, kt - kc); r
  }

  /** The difference is a shortest turn: no other turn to the same direction is shorter. */
  lemma DifferenceIsShortest(current: real, target: real, y: real)
    requires Congruent(y, target - current)
    ensures Abs(LongitudeDifference(current, target)) <= Abs(y)
  {
    var d := LongitudeDifference(current, target);
    CongruentSymmetric(d, target - current);
    CongruentTransitive(y, target - current, d);
    var k := CongruentTurns(y, d);
    assert k != 0 ==> Abs(y) >= 180.0;
  }

  /**
   * Going the other way reverses the sign.  The wrap is strict on both sides,
   * so even the half-turn tie flips: 180 one way is -180 the other.
   */
  lemma DifferenceAntisymmetric(current: real, target: real)
    ensures LongitudeDifference(target, current) == -LongitudeDifference(current, target)
  {
    var c := Mod360(current);
    var t := Mod360(target);
    assert -360.0 < t - c < 360.0;
  }

  /** Adding whole turns to either longitude does not change the difference. */
  lemma DifferencePeriodic(current: real, target: real, k: int, j: int)
    ensures LongitudeDifference(current + 360.0 * k as real, target + 360.0 * j as real)
         == LongitudeDifference(current, target)
  {
    Mod360Periodic(current, k);
    Mod360Periodic(target, j);
  }

  function Abs(x: real): (r: real)
    ensures r >= 0.0 && (r == x || r == -x)
  {
    if x < 0.0 then -x else x
  }

  function Clamp(x: real, lo: real, hi: real): (r: real)
    requires lo <= hi
    ensures lo <= r <= hi
    ensures lo <= x <= hi ==> r == x
  {
    if x < lo then lo else if x > hi then hi else x
  }
}
