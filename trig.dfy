/** Angle-unit factors and the reciprocal trigonometric functions
    (constants/trig.py). Angles given to `Csc` and `Cot` are in radians. */
module Trig {
  import opened Maths

  /** `degrees2radians`, pi/180. */
  function DegreesToRadians(m: Math): (k: real)
    requires m.pi > 0.0
    ensures k > 0.0
  {
    m.pi / 180.0
  }

  /** `radians2degrees`, 180/pi: the reciprocal of `DegreesToRadians`. */
  function RadiansToDegrees(m: Math): (k: real)
    requires m.pi > 0.0
    ensures k > 0.0
    ensures k * DegreesToRadians(m) == 1.0 && DegreesToRadians(m) * k == 1.0
  {
    180.0 / m.pi
  }

  /** `piover2`: a right angle is 90 degrees. */
  function PiOver2(m: Math): (h: real)
    requires m.pi > 0.0
    ensures h == 90.0 * DegreesToRadians(m)
    ensures 180.0 * DegreesToRadians(m) == m.pi
  {
    m.pi / 2.0
  }

  /** `csc`: the reciprocal of sine; a ZeroDivisionError where sine vanishes. */
  function Csc(m: Math, theta: real): (r: Result<real>)
    requires Lawful(m)
    ensures r.Ok? <==> m.sin(theta) != 0.0
    ensures r.Err? ==> r.error == ZeroDivision
    ensures r.Ok? ==> r.value * m.sin(theta) == 1.0
  {
    Div(1.0, m.sin(theta))
  }

  /** `cot`: cosine over sine; a ZeroDivisionError where sine vanishes. */
  function Cot(m: Math, theta: real): (r: Result<real>)
    requires Lawful(m)
    ensures r.Ok? <==> m.sin(theta) != 0.0
    ensures r.Err? ==> r.error == ZeroDivision
    ensures r.Ok? ==> r.value * m.sin(theta) == m.cos(theta)
  {
    Div(m.cos(theta), m.sin(theta))
  }

  /** Where both are defined, cot = cos * csc. */
  lemma CotIsCosTimesCsc(m: Math, theta: real)
    requires Lawful(m) && m.sin(theta) != 0.0
    ensures Cot(m, theta).Ok? && Csc(m, theta).Ok?
    ensures Cot(m, theta).value == m.cos(theta) * Csc(m, theta).value
  {
    DivIsMulReciprocal(m.cos(theta), m.sin(theta));
  }

  /** Degrees -> radians -> degrees is the identity. */
  lemma DegreesRoundTrip(m: Math, x: real)
    requires m.pi > 0.0
    ensures x * DegreesToRadians(m) * RadiansToDegrees(m) == x
  {
    var p := DegreesToRadians(m) * RadiansToDegrees(m);
    assert p == 1.0;
    assert x * DegreesToRadians(m) * RadiansToDegrees(m) == x * p;
  }

  /** Radians -> degrees -> radians is the identity. */
  lemma RadiansRoundTrip(m: Math, x: real)
    requires m.pi > 0.0
    ensures x * RadiansToDegrees(m) * DegreesToRadians(m) == x
  {
    var p := RadiansToDegrees(m) * DegreesToRadians(m);
    assert p == 1.0;
    assert x * RadiansToDegrees(m) * DegreesToRadians(m) == x * p;
  }

  /** An angle given in degrees, in radians: `deg * degrees2radians`. */
  function Radians(m: Math, deg: real): (rad: real)
    requires m.pi > 0.0
    ensures deg == 0.0 ==> rad == 0.0
    ensures deg == 90.0 ==> rad == m.pi / 2.0
    ensures deg == 180.0 ==> rad == m.pi
    ensures Degrees(m, rad) == deg
  {
    var rad := deg * DegreesToRadians(m);
    DegreesRoundTrip(m, deg);
    rad
  }

  /** An angle given in radians, in degrees: `rad * radians2degrees`. */
  function Degrees(m: Math, rad: real): (deg: real)
    requires m.pi > 0.0
    ensures rad == 0.0 ==> deg == 0.0
    ensures rad == m.pi ==> deg == 180.0
  {
    var p := m.pi * RadiansToDegrees(m);
    assert p == 180.0;
    rad * RadiansToDegrees(m)
  }

  /** Converting radians to degrees and back is the identity. */
  lemma RadiansOfDegrees(m: Math, rad: real)
    requires m.pi > 0.0
    ensures Radians(m, Degrees(m, rad)) == rad
  {
    RadiansRoundTrip(m, rad);
  }

  /** Both conversions preserve order, in both directions. */
  lemma RadiansMonotone(m: Math, a: real, b: real)
    requires m.pi > 0.0
    ensures a <= b <==> Radians(m, a) <= Radians(m, b)
    ensures a < b <==> Radians(m, a) < Radians(m, b)
  {
    ProductSign(DegreesToRadians(m), b - a);
    assert Radians(m, b) - Radians(m, a) == DegreesToRadians(m) * (b - a);
  }

  lemma DegreesMonotone(m: Math, a: real, b: real)
    requires m.pi > 0.0
    ensures a <= b <==> Degrees(m, a) <= Degrees(m, b)
    ensures a < b <==> Degrees(m, a) < Degrees(m, b)
  {
    ProductSign(RadiansToDegrees(m), b - a);
    assert Degrees(m, b) - Degrees(m, a) == RadiansToDegrees(m) * (b - a);
  }

  /** Both conversions are linear. */
  lemma RadiansLinear(m: Math, a: real, b: real)
    requires m.pi > 0.0
    ensures Radians(m, a + b) == Radians(m, a) + Radians(m, b)
    ensures Radians(m, a - b) == Radians(m, a) - Radians(m, b)
    ensures Radians(m, a / 2.0) == Radians(m, a) / 2.0
  {
  }

  lemma DegreesLinear(m: Math, a: real, b: real)
    requires m.pi > 0.0
    ensures Degrees(m, a + b) == Degrees(m, a) + Degrees(m, b)
    ensures Degrees(m, a - b) == Degrees(m, a) - Degrees(m, b)
    ensures Degrees(m, a / 2.0) == Degrees(m, a) / 2.0
  {
  }

  /** Radians in [0, pi] become degrees in [0, 180]. */
  lemma DegreesRange(m: Math, a: real)
    requires m.pi > 0.0 && 0.0 <= a <= m.pi
    ensures 0.0 <= Degrees(m, a) <= 180.0
  {
    DegreesMonotone(m, 0.0, a);
    DegreesMonotone(m, a, m.pi);
  }
}
