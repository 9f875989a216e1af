/** The general ballistic missile problem: the nondimensional parameter Q,
    the free-flight range equation and its inverses, maximum range and time
    of free flight (section 6.2;
    six_ballisticMissileTrajectories/six_02_general_ballistic_missile_problem.py). */
module BallisticMissile {
  import opened Maths
  import opened Earth
  import opened Trig
  import CircularOrbit
  import ConstantsOfTheMotion
  import TimeOfFlight

  /** `six21` and `solveForNondimentionalParametericParameter621`: Q = v^2 r / mu
      (equation 6.2-1). mu is positive, so this never fails; Q vanishes
      exactly when the speed or the radius does. */
  function NondimensionalParameter(v: real, r: real, t: ReturnType): (q: real)
    ensures r >= 0.0 ==> q >= 0.0
    ensures q == 0.0 <==> (v == 0.0 || r == 0.0)
  {
    ProductZero(v, v);
    ProductZero(v * v, r);
    assert r >= 0.0 ==> v * v * r >= 0.0 by {
      if r >= 0.0 { ProductNonNegative(v * v, r); }
    }
    QuotientSign(v * v * r, Mu(t));
    v * v * r / Mu(t)
  }

  /** `solveForVelocity621`: sqrt(mu (q / r)). A zero radius is a division
      error and a negative q / r a square-root domain error. */
  function VelocityFromNondimensionalParameter(m: Math, q: real, r: real, t: ReturnType): (v: Result<real>)
    requires Lawful(m)
    ensures v.Ok? <==> (r != 0.0 && q / r >= 0.0)
    ensures v.Err? ==> v.error == (if r == 0.0 then ZeroDivision else DomainError)
    ensures v.Ok? ==> v.value >= 0.0 && v.value * v.value == Mu(t) * (q / r)
  {
    var qOverR :- Div(q, r);
    ProductSign(Mu(t), qOverR);
    Sqrt(m, Mu(t) * qOverR)
  }

  /** Velocity from Q, then Q from that velocity, gives Q back. */
  lemma NondimensionalParameterOfVelocity(m: Math, q: real, r: real, t: ReturnType)
    requires Lawful(m) && r != 0.0 && q / r >= 0.0
    ensures NondimensionalParameter(VelocityFromNondimensionalParameter(m, q, r, t).value, r, t) == q
  {
    ParameterOfSquaredSpeed(q, r, t, VelocityFromNondimensionalParameter(m, q, r, t).value);
  }

  /** A speed v with v^2 = mu (q / r) has nondimensional parameter q. */
  lemma ParameterOfSquaredSpeed(q: real, r: real, t: ReturnType, v: real)
    requires r != 0.0 && v * v == Mu(t) * (q / r)
    ensures NondimensionalParameter(v, r, t) == q
  {
    ScaledQuotient(Mu(t), q, r, v * v);
  }

  /** Q from a velocity, then the velocity from that Q, gives the speed |v|. */
  lemma VelocityOfNondimensionalParameter(m: Math, v: real, r: real, t: ReturnType)
    requires Lawful(m) && r != 0.0
    ensures VelocityFromNondimensionalParameter(m, NondimensionalParameter(v, r, t), r, t) == Ok(Abs(v))
  {
    SquaredSpeedOfParameter(v, r, t);
    SqrtUnique(m, Mu(t) * (NondimensionalParameter(v, r, t) / r), Abs(v));
  }

  /** mu (Q / r) is the squared speed that gave Q. */
  lemma SquaredSpeedOfParameter(v: real, r: real, t: ReturnType)
    requires r != 0.0
    ensures Mu(t) * (NondimensionalParameter(v, r, t) / r) == Abs(v) * Abs(v)
  {
    UnscaledQuotient(Mu(t), v * v, r);
    assert Abs(v) * Abs(v) == v * v;
  }

  /** `solveForNondimentionalParameter622`: (v / v_cs)^2 with v_cs the
      circular speed at r (equation 6.2-2). It fails where the circular
      speed does (r <= 0); elsewhere it agrees with equation 6.2-1. */
  function NondimensionalParameterFromCircularSpeed(m: Math, v: real, r: real, t: ReturnType): (q: Result<real>)
    requires Lawful(m)
    ensures q.Ok? <==> r > 0.0
    ensures q.Err? ==> q.error == (if r == 0.0 then ZeroDivision else DomainError)
    ensures q.Ok? ==> q.value == NondimensionalParameter(v, r, t)
  {
    var vcs :- CircularOrbit.CircularSatelliteSpeed(m, r, t);
    SquaredRatio(v, vcs, Mu(t), r);
    Ok((v / vcs) * (v / vcs))
  }

  /** (v / w)^2 = v^2 r / mu when w^2 = mu / r. */
  lemma SquaredRatio(v: real, w: real, mu: real, r: real)
    requires w > 0.0 && mu > 0.0 && r > 0.0 && w * w == mu / r
    ensures (v / w) * (v / w) == v * v * r / mu
  {
    var x := v / w;
    assert x * w == v;
    var xx := x * x;
    assert xx * (w * w) == v * v;
    assert xx * mu == v * v * r by {
      var ww := w * w;
      assert ww * r == mu;
      assert xx * ww * r == xx * mu;
    }
    QuotientUnique(v * v * r, mu, xx);
  }

  /** The circular speed has Q = 1. */
  lemma CircularSpeedNondimensionalParameter(m: Math, r: real, t: ReturnType)
    requires Lawful(m) && r > 0.0
    ensures NondimensionalParameter(CircularOrbit.CircularSatelliteSpeed(m, r, t).value, r, t) == 1.0
  {
    assert Mu(t) / r == Mu(t) * (1.0 / r);
    ParameterOfSquaredSpeed(1.0, r, t, CircularOrbit.CircularSatelliteSpeed(m, r, t).value);
  }

  /** `solveForSemiMajorAxis`: a = r / (2 - Q); Q = 2 (a parabola) is a
      division error. */
  function SemiMajorAxis(r: real, q: real): (a: Result<real>)
    ensures a.Ok? <==> q != 2.0
    ensures a.Err? ==> a.error == ZeroDivision
    ensures a.Ok? ==> a.value * (2.0 - q) == r
  {
    Div(r, 2.0 - q)
  }

  /** `solveForNondimentionalParameter624`: Q = 2 - r / a (equation 6.2-4). */
  function NondimensionalParameterFromSemiMajorAxis(r: real, a: real): (q: Result<real>)
    ensures q.Ok? <==> a != 0.0
    ensures q.Err? ==> q.error == ZeroDivision
    ensures q.Ok? ==> (2.0 - q.value) * a == r
  {
    var rOverA :- Div(r, a);
    Ok(2.0 - rOverA)
  }

  /** Q -> a -> Q is the identity for r != 0 and Q != 2. */
  lemma SemiMajorAxisRoundTrip(r: real, q: real)
    requires r != 0.0 && q != 2.0
    ensures SemiMajorAxis(r, q).Ok? && SemiMajorAxis(r, q).value != 0.0
    ensures NondimensionalParameterFromSemiMajorAxis(r, SemiMajorAxis(r, q).value) == Ok(q)
  {
    var a := r / (2.0 - q);
    assert a * (2.0 - q) == r;
    ProductZero(a, 2.0 - q);
    QuotientUnique(r, a, 2.0 - q);
  }

  /** a -> Q -> a is the identity for r != 0 and a != 0. */
  lemma NondimensionalParameterRoundTrip(r: real, a: real)
    requires r != 0.0 && a != 0.0
    ensures NondimensionalParameterFromSemiMajorAxis(r, a).Ok? && NondimensionalParameterFromSemiMajorAxis(r, a).value != 2.0
    ensures SemiMajorAxis(r, NondimensionalParameterFromSemiMajorAxis(r, a).value) == Ok(a)
  {
    var k := r / a;
    assert k * a == r;
    ProductZero(k, a);
    QuotientUnique(r, k, a);
  }

  /** The semi-major axis from Q is the one the energy equation 1.4-2
      gives: the specific energy at burnout is -mu / (2 a). */
  lemma VisViva(v: real, r: real, t: ReturnType)
    requires r > 0.0 && NondimensionalParameter(v, r, t) != 2.0
    ensures SemiMajorAxis(r, NondimensionalParameter(v, r, t)).Ok?
    ensures ConstantsOfTheMotion.SpecificMechanicalEnergy(v, r, t)
              == Ok(-(Mu(t) / (2.0 * SemiMajorAxis(r, NondimensionalParameter(v, r, t)).value)))
  {
    var q := NondimensionalParameter(v, r, t);
    VisVivaArithmetic(v * v, r, Mu(t), q);
  }

  /** v^2 / 2 - mu / r = -mu / (2 a) with a = r / (2 - Q), Q = v^2 r / mu. */
  lemma VisVivaArithmetic(vv: real, r: real, mu: real, q: real)
    requires r > 0.0 && mu > 0.0 && q == vv * r / mu && q != 2.0
    ensures vv / 2.0 - mu / r == -(mu / (2.0 * (r / (2.0 - q))))
  {
    var a := r / (2.0 - q);
    assert a * (2.0 - q) == r;
    assert q * mu == vv * r;
    var lhs := vv / 2.0 - mu / r;
    var p := mu / r;
    assert p * r == mu;
    assert lhs * r == vv * r / 2.0 - mu;
    assert lhs * r * 2.0 == q * mu - 2.0 * mu;
    var rhs := mu / (2.0 * a);
    assert rhs * (2.0 * a) == mu;
    assert rhs * 2.0 * a * (2.0 - q) == mu * (2.0 - q);
    assert rhs * 2.0 * r == mu * (2.0 - q);
    assert lhs * r * 2.0 == -(rhs * 2.0 * r);
    var d := lhs + rhs;
    assert d * r * 2.0 == 0.0;
    ProductZero(d, r * 2.0);
  }

  /** Equation 6.2-5 once cos v is known: p / (1 + e cos v). */
  function RadiusOfEllipseOfCosine(p: real, e: real, c: real): (r: Result<real>)
    ensures r.Ok? <==> 1.0 + e * c != 0.0
    ensures r.Err? ==> r.error == ZeroDivision
    ensures r.Ok? ==> r.value * (1.0 + e * c) == p
  {
    Div(p, 1.0 + e * c)
  }

  /** `solveForRadiusOfEllipse`: the radius at true anomaly v (degrees),
      r (1 + e cos v) = p, failing exactly when 1 + e cos v = 0. At v = 0 it
      is the periapsis radius p / (1 + e), at v = 180 the apoapsis radius
      p / (1 - e). */
  function RadiusOfEllipse(m: Math, p: real, e: real, v: real): (r: Result<real>)
    requires Lawful(m)
    ensures r.Ok? <==> 1.0 + e * m.cos(Radians(m, v)) != 0.0
    ensures r.Err? ==> r.error == ZeroDivision
    ensures r.Ok? ==> r.value * (1.0 + e * m.cos(Radians(m, v))) == p
    ensures v == 0.0 ==> r == Div(p, 1.0 + e)
    ensures v == 180.0 ==> r == Div(p, 1.0 - e)
  {
    RadiusOfEllipseOfCosine(p, e, m.cos(Radians(m, v)))
  }

  /** Equation 6.2-6 as the book states it: v = acos((p - r) / (e r)) in
      degrees. This is the corrected `solveForAnomalyOfEllipse`. */
  function AnomalyOfEllipse(m: Math, p: real, e: real, r: real): (v: Result<real>)
    requires Lawful(m)
    ensures v.Ok? <==> (e * r != 0.0 && -1.0 <= (p - r) / (e * r) <= 1.0)
    ensures v.Err? ==> v.error == (if e * r == 0.0 then ZeroDivision else DomainError)
    ensures v.Ok? ==> 0.0 <= v.value <= 180.0 && m.cos(Radians(m, v.value)) == (p - r) / (e * r)
  {
    var cosV :- Div(p - r, e * r);
    var a :- Acos(m, cosV);
    DegreesRange(m, a);
    RadiansOfDegrees(m, a);
    Ok(Degrees(m, a))
  }

  /** `solveForAnomalyOfEllipse` as written: it applies cos where acos is
      meant, so its result is a cosine scaled by 180 / pi and can never
      exceed that factor in magnitude. */
  function AnomalyOfEllipseAsWritten(m: Math, p: real, e: real, r: real): (v: Result<real>)
    requires Lawful(m)
    ensures v.Ok? <==> e * r != 0.0
    ensures v.Err? ==> v.error == ZeroDivision
    ensures v.Ok? ==> -RadiansToDegrees(m) <= v.value <= RadiansToDegrees(m)
  {
    var tmp :- Div(p - r, e * r);
    MulAbsBound(RadiansToDegrees(m), m.cos(tmp));
    Ok(m.cos(tmp) * RadiansToDegrees(m))
  }

  /** The corrected anomaly inverts the radius formula, at the cosine level. */
  lemma AnomalyOfRadiusAtCosine(m: Math, p: real, e: real, c: real)
    requires Lawful(m) && p != 0.0 && e != 0.0 && -1.0 <= c <= 1.0
    requires RadiusOfEllipseOfCosine(p, e, c).Ok?
    ensures AnomalyOfEllipse(m, p, e, RadiusOfEllipseOfCosine(p, e, c).value) == Ok(Degrees(m, m.acos(c)))
  {
    var r := RadiusOfEllipseOfCosine(p, e, c).value;
    assert Div(p - r, e * r) == Ok(c) by {
      EllipseCosineRecovered(p, e, c, r);
    }
    AnomalyOfEllipseOfCosine(m, p, e, r, c);
  }

  /** The last two steps of `AnomalyOfEllipse` once the quotient is known. */
  lemma AnomalyOfEllipseOfCosine(m: Math, p: real, e: real, r: real, c: real)
    requires Lawful(m) && Div(p - r, e * r) == Ok(c) && -1.0 <= c <= 1.0
    ensures AnomalyOfEllipse(m, p, e, r) == Ok(Degrees(m, m.acos(c)))
  {
  }

  /** r (1 + e c) = p gives back c = (p - r) / (e r). */
  lemma EllipseCosineRecovered(p: real, e: real, c: real, r: real)
    requires p != 0.0 && e != 0.0 && r * (1.0 + e * c) == p
    ensures e * r != 0.0 && (p - r) / (e * r) == c
  {
    ProductZero(r, 1.0 + e * c);
    ProductZero(e, r);
    var er := e * r;
    assert c * er == p - r;
    QuotientUnique(p - r, er, c);
  }

  /** For 0 <= v <= 180 the corrected anomaly recovers v from the radius
      that `RadiusOfEllipse` gives at v. */
  lemma AnomalyOfRadius(m: Math, p: real, e: real, v: real)
    requires Lawful(m) && p != 0.0 && e != 0.0 && 0.0 <= v <= 180.0
    requires RadiusOfEllipse(m, p, e, v).Ok?
    ensures AnomalyOfEllipse(m, p, e, RadiusOfEllipse(m, p, e, v).value) == Ok(v)
  {
    var x := Radians(m, v);
    RadiansMonotone(m, 0.0, v);
    RadiansMonotone(m, v, 180.0);
    AnomalyOfRadiusAtCosine(m, p, e, m.cos(x));
    assert m.acos(m.cos(x)) == x;
  }

  /** At v = 90 the as-written anomaly cannot return 90 (it is at most
      180 / pi < 57.4), while the corrected one does. */
  lemma AnomalyOfEllipseAsWrittenMissesRightAngle(m: Math, p: real, e: real)
    requires Lawful(m) && p != 0.0 && e != 0.0
    requires RadiusOfEllipse(m, p, e, 90.0).Ok?
    ensures AnomalyOfEllipseAsWritten(m, p, e, RadiusOfEllipse(m, p, e, 90.0).value) != Ok(90.0)
    ensures AnomalyOfEllipse(m, p, e, RadiusOfEllipse(m, p, e, 90.0).value) == Ok(90.0)
  {
    RadiansToDegreesBound(m);
    AnomalyOfRadius(m, p, e, 90.0);
  }

  /** 180 / pi, for 3.14 < pi < 3.15. */
  lemma RadiansToDegreesBound(m: Math)
    requires Lawful(m)
    ensures 57.1 < RadiansToDegrees(m) < 57.4
  {
    var k := RadiansToDegrees(m);
    assert k * m.pi == 180.0;
  }

  /** The one-argument `solveForFreeFlightAngle`: psi = 2 acos(-cos v_bo)
      in degrees, from the true anomaly at burnout (equation 6.2-7,
      cos(psi / 2) = -cos v_bo). Never fails. */
  function FreeFlightAngleFromAnomaly(m: Math, vbo: real): (psi: real)
    requires Lawful(m)
    ensures 0.0 <= psi <= 360.0
    ensures m.cos(Radians(m, psi / 2.0)) == -m.cos(Radians(m, vbo))
  {
    DoubledInDegrees(m, m.acos(-m.cos(Radians(m, vbo))))
  }

  /** Twice an angle h given in radians, in degrees. Half of it is h again
      in radians; h in [0, pi] gives [0, 360] and h in (0, pi) gives
      (0, 360). */
  function DoubledInDegrees(m: Math, h: real): (psi: real)
    requires m.pi > 0.0
    ensures Radians(m, psi / 2.0) == h
    ensures 0.0 <= h <= m.pi ==> 0.0 <= psi <= 360.0
    ensures 0.0 < h < m.pi ==> 0.0 < psi < 360.0
    ensures -m.pi / 2.0 <= h <= m.pi / 2.0 ==> -180.0 <= psi <= 180.0
  {
    var p := RadiansToDegrees(m) * DegreesToRadians(m);
    assert p == 1.0;
    assert h * 2.0 * RadiansToDegrees(m) / 2.0 * DegreesToRadians(m) == h * p;
    assert h * 2.0 * RadiansToDegrees(m) == 2.0 * Degrees(m, h);
    DegreesMonotone(m, 0.0, h);
    DegreesMonotone(m, h, m.pi);
    DegreesMonotone(m, -m.pi / 2.0, h);
    DegreesMonotone(m, h, m.pi / 2.0);
    DegreesLinear(m, m.pi, 0.0);
    h * 2.0 * RadiansToDegrees(m)
  }

  /** `solveForAnomalyAngleAtBurnout`: v_bo = acos(-cos(psi / 2)) in degrees
      (equation 6.2-7). Never fails. */
  function AnomalyAtBurnout(m: Math, psi: real): (vbo: real)
    requires Lawful(m)
    ensures 0.0 <= vbo <= 180.0
    ensures m.cos(Radians(m, vbo)) == -m.cos(Radians(m, psi / 2.0))
  {
    var a := m.acos(-m.cos(Radians(m, psi / 2.0)));
    DegreesRange(m, a);
    RadiansOfDegrees(m, a);
    Degrees(m, a)
  }

  /** For 0 <= psi <= 360, range angle -> burnout anomaly -> range angle
      is the identity. */
  lemma FreeFlightAngleOfAnomalyAtBurnout(m: Math, psi: real)
    requires Lawful(m) && 0.0 <= psi <= 360.0
    ensures FreeFlightAngleFromAnomaly(m, AnomalyAtBurnout(m, psi)) == psi
  {
    RadiansMonotone(m, 0.0, psi / 2.0);
    RadiansMonotone(m, psi / 2.0, 180.0);
    assert m.acos(m.cos(Radians(m, psi / 2.0))) == Radians(m, psi / 2.0);
    HalfAnglesEqual(m, FreeFlightAngleFromAnomaly(m, AnomalyAtBurnout(m, psi)), psi);
  }

  /** Angles with the same half in radians are equal. */
  lemma HalfAnglesEqual(m: Math, a: real, b: real)
    requires m.pi > 0.0 && Radians(m, a / 2.0) == Radians(m, b / 2.0)
    ensures a == b
  {
    assert Degrees(m, Radians(m, a / 2.0)) == Degrees(m, Radians(m, b / 2.0));
  }

  /** For 0 <= v_bo <= 180, burnout anomaly -> range angle -> burnout
      anomaly is the identity. */
  lemma AnomalyAtBurnoutOfFreeFlightAngle(m: Math, vbo: real)
    requires Lawful(m) && 0.0 <= vbo <= 180.0
    ensures AnomalyAtBurnout(m, FreeFlightAngleFromAnomaly(m, vbo)) == vbo
  {
    var x := Radians(m, vbo);
    RadiansMonotone(m, 0.0, vbo);
    RadiansMonotone(m, vbo, 180.0);
    assert m.acos(m.cos(x)) == x;
  }

  /** `math.isclose(a, b)` with its defaults rel_tol = 1e-9, abs_tol = 0. */
  predicate IsClose(a: real, b: real) {
    a == b || Abs(a - b) <= 0.000000001 * (if Abs(a) < Abs(b) then Abs(b) else Abs(a))
  }

  /** The guard of the two-argument `solveForFreeFlightAngle`: a value in
      [-1, 1] passes unchanged, one outside but close to +1 or -1 snaps to
      it, any other raises. A value that passes moves by at most 1e-9 of
      its magnitude. */
  function ClampCosine(x: real): (c: Result<real>)
    ensures c.Ok? ==> -1.0 <= c.value <= 1.0 && Abs(c.value - x) <= 0.000000001 * Abs(x)
    ensures -1.0 <= x <= 1.0 ==> c == Ok(x)
    ensures c.Ok? && x > 1.0 ==> c.value == 1.0
    ensures c.Ok? && x < -1.0 ==> c.value == -1.0
    ensures c.Err? <==> (!(-1.0 <= x <= 1.0) && !IsClose(x, 1.0) && !IsClose(x, -1.0))
    ensures c.Err? ==> c.error == OutOfBounds
  {
    if !(1.0 >= x >= -1.0) then
      if IsClose(x, 1.0) then Ok(1.0)
      else if IsClose(x, -1.0) then Ok(-1.0)
      else Err(OutOfBounds)
    else
      Ok(x)
  }

  /** The radicand of equation 6.2-12 exceeds the square of its numerator
      by Q^2 s (1 - s), s being cos^2 of the flight path angle. */
  lemma RadicandExceedsSquare(q: real, s: real)
    requires 0.0 <= s <= 1.0
    ensures (1.0 - q * s) * (1.0 - q * s) + q * q * s * (1.0 - s) == 1.0 + q * (q - 2.0) * s
    ensures q * q * s * (1.0 - s) >= 0.0
    ensures 1.0 + q * (q - 2.0) * s >= 0.0
  {
    SquareNonNegative(1.0 - q * s);
    ProductNonNegative(q * q, s);
    ProductNonNegative(q * q * s, 1.0 - s);
  }

  /** With s = cos^2(fpa): the denominator of equation 6.2-12 vanishes
      only for Q = 1 and s = 1, and otherwise the quotient lies in [-1, 1],
      because den^2 - num^2 = Q^2 s (1 - s) >= 0. */
  lemma FreeFlightCosineBounds(q: real, s: real, num: real, den: real)
    requires 0.0 <= s <= 1.0 && num == 1.0 - q * s && den >= 0.0 && den * den == 1.0 + q * (q - 2.0) * s
    ensures den == 0.0 <==> (q == 1.0 && s == 1.0)
    ensures den != 0.0 ==> -1.0 <= num / den <= 1.0
  {
    RadicandExceedsSquare(q, s);
    var excess := q * q * s * (1.0 - s);
    assert num * num + excess == den * den;
    AbsFromSquares(num, den);
    if den == 0.0 {
      SquareZero(num);
      var qs := q * s;
      assert qs == 1.0;
      assert excess == 0.0;
      ProductZero(q * q * s, 1.0 - s);
      assert q * q * s == q * qs;
    }
    if q == 1.0 && s == 1.0 {
      SquareZero(den);
    }
    if den != 0.0 {
      QuotientInUnit(num, den);
    }
  }

  /** c^2 lies in [0, 1] for c in [-1, 1]. */
  lemma SquareInUnit(c: real)
    requires -1.0 <= c <= 1.0
    ensures 0.0 <= c * c <= 1.0
  {
    MulAbsBound(c, c);
  }

  /** cos(psi / 2) by equation 6.2-12 from Q and s = cos^2(fpa):
      (1 - Q s) / sqrt(1 + Q (Q - 2) s). The square root never fails; the
      only error is 0 / 0 at Q = 1, s = 1, and the quotient is always in
      [-1, 1]. */
  function FreeFlightHalfAngleCosine(m: Math, q: real, s: real): (x: Result<real>)
    requires Lawful(m) && 0.0 <= s <= 1.0
    ensures x.Ok? <==> !(q == 1.0 && s == 1.0)
    ensures x.Err? ==> x.error == ZeroDivision
    ensures x.Ok? ==> -1.0 <= x.value <= 1.0
    ensures x.Ok? ==> x.value * m.sqrt(1.0 + q * (q - 2.0) * s) == 1.0 - q * s
  {
    RadicandExceedsSquare(q, s);
    HalfAngleQuotient(q, s, m.sqrt(1.0 + q * (q - 2.0) * s))
  }

  /** (1 - Q s) / den for den the root of the radicand of equation 6.2-12. */
  function HalfAngleQuotient(q: real, s: real, den: real): (x: Result<real>)
    requires 0.0 <= s <= 1.0 && den >= 0.0 && den * den == 1.0 + q * (q - 2.0) * s
    ensures x.Ok? <==> !(q == 1.0 && s == 1.0)
    ensures x.Err? ==> x.error == ZeroDivision
    ensures x.Ok? ==> -1.0 <= x.value <= 1.0
    ensures x.Ok? ==> x.value * den == 1.0 - q * s
  {
    FreeFlightCosineBounds(q, s, 1.0 - q * s, den);
    Div(1.0 - q * s, den)
  }

  /** The two-argument `solveForFreeFlightAngle` once cos(fpa) is known:
      2 acos of the clamped quotient, in degrees. The clamp never raises,
      so the only failure is the division error at Q = 1 with a horizontal
      (or reversed) burnout. */
  function FreeFlightAngleOfCosine(m: Math, q: real, c: real): (psi: Result<real>)
    requires Lawful(m) && -1.0 <= c <= 1.0
    ensures psi.Ok? <==> !(q == 1.0 && c * c == 1.0)
    ensures psi.Err? ==> psi.error == ZeroDivision
    ensures psi.Ok? ==> 0.0 <= psi.value <= 360.0
    ensures psi.Ok? ==> (SquareInUnit(c); m.cos(Radians(m, psi.value / 2.0)) == FreeFlightHalfAngleCosine(m, q, c * c).value)
  {
    SquareInUnit(c);
    var cosHalfPsi :- FreeFlightHalfAngleCosine(m, q, c * c);
    var clamped := ClampCosine(cosHalfPsi).value;
    Ok(DoubledInDegrees(m, Acos(m, clamped).value))
  }

  /** The two-argument `solveForFreeFlightAngle(Q_bo, FPA_bo)`, FPA in
      degrees. It succeeds for every Q other than 1, and for Q = 1 unless
      the burnout is horizontal or vertical; a result is a range angle in
      [0, 360] whose half has the cosine of equation 6.2-12. */
  function FreeFlightAngleFromQAndFpa(m: Math, q: real, fpa: real): (psi: Result<real>)
    requires Lawful(m)
    ensures psi.Ok? <==> !(q == 1.0 && m.cos(Radians(m, fpa)) * m.cos(Radians(m, fpa)) == 1.0)
    ensures q != 1.0 ==> psi.Ok?
    ensures psi.Err? ==> psi.error == ZeroDivision
    ensures psi.Ok? ==> 0.0 <= psi.value <= 360.0
    ensures psi.Ok? ==> (SquareInUnit(m.cos(Radians(m, fpa)));
      m.cos(Radians(m, psi.value / 2.0))
        == FreeFlightHalfAngleCosine(m, q, m.cos(Radians(m, fpa)) * m.cos(Radians(m, fpa))).value)
  {
    FreeFlightAngleOfCosine(m, q, m.cos(Radians(m, fpa)))
  }

  /** A horizontal burnout (fpa = 0) at circular speed (Q = 1) has no
      free-flight angle: the numerator and denominator of cos(psi / 2) both
      vanish. */
  lemma CircularHorizontalBurnoutUndefined(m: Math)
    requires Lawful(m)
    ensures FreeFlightAngleFromQAndFpa(m, 1.0, 0.0) == Err(ZeroDivision)
  {
    assert m.cos(Radians(m, 0.0)) == 1.0;
  }

  /** The four-argument `solveForFreeFlightAngle(r_bo, v_bo, FPA_bo, t)`:
      the two-argument form at Q = v^2 r / mu. It fails, with a division
      error, exactly when the burnout speed is circular (v^2 r = mu) and the
      burnout is horizontal or vertical (sin fpa = 0). Otherwise the range
      angle lies in [0, 360] and solves equation 6.2-12 at that Q. */
  function FreeFlightAngleFromBurnout(m: Math, r: real, v: real, fpa: real, t: ReturnType): (psi: Result<real>)
    requires Lawful(m)
    ensures psi.Ok? ==> 0.0 <= psi.value <= 360.0
    ensures psi.Err? <==> v * v * r == Mu(t) && m.sin(Radians(m, fpa)) == 0.0
    ensures psi.Err? ==> psi.error == ZeroDivision
    ensures psi.Ok? ==> BurnoutHalfAngle(m, NondimensionalParameter(v, r, t), m.cos(Radians(m, fpa)),
                                         m.cos(Radians(m, psi.value / 2.0)))
  {
    var q := NondimensionalParameter(v, r, t);
    BurnoutFailure(m, r, v, fpa, t);
    var psi := FreeFlightAngleFromQAndFpa(m, q, fpa);
    if psi.Ok? then
      HalfAngleOfFreeFlight(m, q, fpa);
      psi
    else
      psi
  }

  /** The two-argument form at Q = v^2 r / mu fails exactly for a circular
      speed with a horizontal or vertical burnout. */
  lemma BurnoutFailure(m: Math, r: real, v: real, fpa: real, t: ReturnType)
    requires Lawful(m)
    ensures FreeFlightAngleFromQAndFpa(m, NondimensionalParameter(v, r, t), fpa).Err? <==>
              v * v * r == Mu(t) && m.sin(Radians(m, fpa)) == 0.0
  {
    CircularParameter(v, r, t);
    UnitCosine(m, Radians(m, fpa));
  }

  /** Equation 6.2-12 for Q, cos fpa = c and cos(psi / 2) = h:
      h sqrt(1 + Q (Q - 2) c^2) = 1 - Q c^2. */
  predicate BurnoutHalfAngle(m: Math, q: real, c: real, h: real) {
    h * m.sqrt(1.0 + q * (q - 2.0) * (c * c)) == 1.0 - q * (c * c)
  }

  /** The two-argument range angle solves equation 6.2-12. */
  lemma HalfAngleOfFreeFlight(m: Math, q: real, fpa: real)
    requires Lawful(m) && FreeFlightAngleFromQAndFpa(m, q, fpa).Ok?
    ensures BurnoutHalfAngle(m, q, m.cos(Radians(m, fpa)),
                             m.cos(Radians(m, FreeFlightAngleFromQAndFpa(m, q, fpa).value / 2.0)))
  {
    SquareInUnit(m.cos(Radians(m, fpa)));
  }

  /** Q = 1 exactly when v^2 r = mu. */
  lemma CircularParameter(v: real, r: real, t: ReturnType)
    ensures NondimensionalParameter(v, r, t) == 1.0 <==> v * v * r == Mu(t)
  {
    var x := v * v * r;
    assert x / Mu(t) * Mu(t) == x;
  }

  /** A cosine is +1 or -1 exactly where the sine vanishes. */
  lemma UnitCosine(m: Math, x: real)
    requires Lawful(m)
    ensures m.cos(x) * m.cos(x) == 1.0 <==> m.sin(x) == 0.0
  {
    if m.cos(x) * m.cos(x) == 1.0 {
      SquareZero(m.sin(x));
    }
  }

  /** The arguments `solveForFreeFlightAngle` can be called with. */
  datatype FreeFlightArguments =
    | BurnoutAnomaly(vbo: real)
    | QAndFpa(q: real, fpa: real)
    | BurnoutState(r: real, v: real, fpa: real, t: ReturnType)

  /** The name `solveForFreeFlightAngle` as the module leaves it bound: a
      multipledispatch Dispatcher holding only the (float, float) and
      (float, float, float, ReturnType) signatures. The undecorated
      one-argument definition is replaced by the Dispatcher, so a
      one-argument call raises NotImplementedError. */
  function SolveForFreeFlightAngleAsWritten(m: Math, args: FreeFlightArguments): (psi: Result<real>)
    requires Lawful(m)
    ensures psi.Ok? ==> 0.0 <= psi.value <= 360.0
    ensures args.BurnoutAnomaly? ==> psi == Err(NoMatchingSignature)
  {
    match args
    case BurnoutAnomaly(_) => Err(NoMatchingSignature)
    case QAndFpa(q, fpa) => FreeFlightAngleFromQAndFpa(m, q, fpa)
    case BurnoutState(r, v, fpa, t) => FreeFlightAngleFromBurnout(m, r, v, fpa, t)
  }

  /** The dispatcher with the one-argument form registered as well. */
  function SolveForFreeFlightAngle(m: Math, args: FreeFlightArguments): (psi: Result<real>)
    requires Lawful(m)
    ensures psi.Ok? ==> 0.0 <= psi.value <= 360.0
    ensures psi.Err? ==> psi.error == ZeroDivision
    ensures !args.BurnoutAnomaly? ==> psi == SolveForFreeFlightAngleAsWritten(m, args)
  {
    match args
    case BurnoutAnomaly(vbo) => Ok(FreeFlightAngleFromAnomaly(m, vbo))
    case QAndFpa(q, fpa) => FreeFlightAngleFromQAndFpa(m, q, fpa)
    case BurnoutState(r, v, fpa, t) => FreeFlightAngleFromBurnout(m, r, v, fpa, t)
  }

  /** A one-argument call with a valid burnout anomaly fails as written;
      with the one-argument form registered it returns the range angle. */
  lemma OneArgumentFormUnreachable(m: Math, psi: real)
    requires Lawful(m) && 0.0 <= psi <= 360.0
    ensures SolveForFreeFlightAngleAsWritten(m, BurnoutAnomaly(AnomalyAtBurnout(m, psi))) == Err(NoMatchingSignature)
    ensures SolveForFreeFlightAngle(m, BurnoutAnomaly(AnomalyAtBurnout(m, psi))) == Ok(psi)
  {
    FreeFlightAngleOfAnomalyAtBurnout(m, psi);
  }

  /** The two burnout flight path angles once a0 = asin(right side) is
      known: 2 phi + psi / 2 is a0 for the first and pi - a0 for the
      second, so the two sum to 90 - psi / 2. */
  function FlightPathAnglesOfAsin(m: Math, halfAngle: real, a0: real): (fpa: (real, real))
    requires m.pi > 0.0
    ensures fpa.0 + fpa.1 == 90.0 - Degrees(m, halfAngle)
    ensures Radians(m, 2.0 * fpa.0) + halfAngle == a0
    ensures Radians(m, 2.0 * fpa.1) + halfAngle == m.pi - a0
  {
    var a1 := Radians(m, 180.0 - Degrees(m, a0));
    RadiansLinear(m, 180.0, Degrees(m, a0));
    RadiansOfDegrees(m, a0);
    RadiansOfDegrees(m, a0 - halfAngle);
    RadiansOfDegrees(m, a1 - halfAngle);
    DegreesLinear(m, a0 - halfAngle, a1 - halfAngle);
    DegreesLinear(m, m.pi, halfAngle + halfAngle);
    DegreesLinear(m, halfAngle, halfAngle);
    (Degrees(m, a0 - halfAngle) / 2.0, Degrees(m, a1 - halfAngle) / 2.0)
  }

  /** The two roots of sin(2 phi + psi / 2) = rightSide, in the source's
      order: for the first, 2 phi + psi / 2 is the principal asin of the
      right side (in [-pi/2, pi/2]); for the second it is pi minus that. */
  function FlightPathAnglesOfRightSide(m: Math, halfAngle: real, rightSide: real): (fpa: Result<(real, real)>)
    requires Lawful(m) && SineSymmetry(m)
    ensures fpa.Ok? <==> -1.0 <= rightSide <= 1.0
    ensures fpa.Err? ==> fpa.error == DomainError
    ensures fpa.Ok? ==> fpa.value.0 + fpa.value.1 == 90.0 - Degrees(m, halfAngle)
    ensures fpa.Ok? ==> Radians(m, 2.0 * fpa.value.0) + halfAngle == m.asin(rightSide)
    ensures fpa.Ok? ==> Radians(m, 2.0 * fpa.value.1) + halfAngle == m.pi - m.asin(rightSide)
    ensures fpa.Ok? ==> -m.pi / 2.0 <= Radians(m, 2.0 * fpa.value.0) + halfAngle <= m.pi / 2.0
    ensures fpa.Ok? ==> m.sin(Radians(m, 2.0 * fpa.value.0) + halfAngle) == rightSide
    ensures fpa.Ok? ==> m.sin(Radians(m, 2.0 * fpa.value.1) + halfAngle) == rightSide
  {
    var a0 :- Asin(m, rightSide);
    assert m.sin(m.pi - a0) == m.sin(a0);
    Ok(FlightPathAnglesOfAsin(m, halfAngle, a0))
  }

  /** `solveForFlightPathAngle`: the two burnout flight path angles (degrees)
      solving sin(2 phi + psi / 2) = (2 - Q) / Q sin(psi / 2) (equation
      6.2-16). Q = 0 is a division error and a right side outside [-1, 1]
      an asin domain error. The two roots sum to 90 - psi / 2; the first is
      the principal asin branch and the second its supplement. */
  function FlightPathAngles(m: Math, psi: real, q: real): (fpa: Result<(real, real)>)
    requires Lawful(m) && SineSymmetry(m)
    ensures fpa.Ok? <==> (q != 0.0 && -1.0 <= (2.0 - q) / q * m.sin(Radians(m, psi) / 2.0) <= 1.0)
    ensures fpa.Err? ==> fpa.error == (if q == 0.0 then ZeroDivision else DomainError)
    ensures fpa.Ok? ==> fpa.value.0 + fpa.value.1 == 90.0 - psi / 2.0
    ensures fpa.Ok? ==> Radians(m, 2.0 * fpa.value.0) + Radians(m, psi) / 2.0
                        == m.asin((2.0 - q) / q * m.sin(Radians(m, psi) / 2.0))
    ensures fpa.Ok? ==> Radians(m, 2.0 * fpa.value.1) + Radians(m, psi) / 2.0
                        == m.pi - m.asin((2.0 - q) / q * m.sin(Radians(m, psi) / 2.0))
    ensures fpa.Ok? ==> -m.pi / 2.0 <= Radians(m, 2.0 * fpa.value.0) + Radians(m, psi) / 2.0 <= m.pi / 2.0
    ensures fpa.Ok? ==> m.sin(Radians(m, 2.0 * fpa.value.0) + Radians(m, psi) / 2.0)
                        == (2.0 - q) / q * m.sin(Radians(m, psi) / 2.0)
    ensures fpa.Ok? ==> m.sin(Radians(m, 2.0 * fpa.value.1) + Radians(m, psi) / 2.0)
                        == (2.0 - q) / q * m.sin(Radians(m, psi) / 2.0)
  {
    RadiansOfDegrees(m, Radians(m, psi) / 2.0);
    RadiansLinear(m, psi, 0.0);
    if q == 0.0 then Err(ZeroDivision)
    else FlightPathAnglesOfRightSide(m, Radians(m, psi) / 2.0, (2.0 - q) / q * m.sin(Radians(m, psi) / 2.0))
  }

  /** `solveForMaxBurnoutFlightPathAngle`: (180 - psi) / 4 (equation 6.2-18). */
  function MaxBurnoutFpa(psi: real): (fpa: real)
    ensures 0.0 <= psi <= 180.0 ==> 0.0 <= fpa <= 45.0
  {
    0.25 * (180.0 - psi)
  }

  /** The maximum-range flight path angle is the mean of the two roots. */
  lemma FlightPathAnglesAverage(m: Math, psi: real, q: real)
    requires Lawful(m) && SineSymmetry(m) && FlightPathAngles(m, psi, q).Ok?
    ensures FlightPathAngles(m, psi, q).value.0 + FlightPathAngles(m, psi, q).value.1 == 2.0 * MaxBurnoutFpa(psi)
  {
  }

  /** `solveForMaxRangeAngle`: 2 asin(Q / (2 - Q)) in degrees (equation
      6.2-19). Q = 2 is a division error and |Q / (2 - Q)| > 1 an asin
      domain error. */
  function MaxRangeAngle(m: Math, q: real): (psi: Result<real>)
    requires Lawful(m)
    ensures psi.Ok? <==> (q != 2.0 && -1.0 <= q / (2.0 - q) <= 1.0)
    ensures psi.Err? ==> psi.error == (if q == 2.0 then ZeroDivision else DomainError)
    ensures psi.Ok? ==> -180.0 <= psi.value <= 180.0
    ensures psi.Ok? ==> m.sin(Radians(m, psi.value / 2.0)) * (2.0 - q) == q
  {
    var x :- Div(q, 2.0 - q);
    var a :- Asin(m, x);
    Ok(DoubledInDegrees(m, a))
  }

  /** Equation 6.2-20 once s = sin(psi / 2) is known: 2 s / (1 + s). */
  function RequiredQOfSine(s: real): (q: Result<real>)
    ensures q.Ok? <==> s != -1.0
    ensures q.Err? ==> q.error == ZeroDivision
    ensures q.Ok? ==> q.value * (1.0 + s) == 2.0 * s
  {
    Div(2.0 * s, 1.0 + s)
  }

  /** `solveForRequiredQAtMaxRange`, psi in degrees: with s = sin(psi / 2),
      Q (1 + s) = 2 s, and it fails (division error) exactly when s = -1.
      For 0 <= psi <= 180 it never fails and lies in [0, 1]. */
  function RequiredQAtMaxRange(m: Math, psi: real): (q: Result<real>)
    requires Lawful(m)
    ensures q.Ok? <==> m.sin(Radians(m, psi / 2.0)) != -1.0
    ensures q.Err? ==> q.error == ZeroDivision
    ensures q.Ok? ==> q.value * (1.0 + m.sin(Radians(m, psi / 2.0))) == 2.0 * m.sin(Radians(m, psi / 2.0))
    ensures 0.0 <= psi <= 180.0 ==> q.Ok? && 0.0 <= q.value <= 1.0
  {
    RequiredQOfSineBounds(m, psi);
    RequiredQOfSine(m.sin(Radians(m, psi / 2.0)))
  }

  /** sin(psi / 2) lies in [0, 1] for 0 <= psi <= 180. */
  lemma RequiredQOfSineBounds(m: Math, psi: real)
    requires Lawful(m)
    ensures 0.0 <= psi <= 180.0 ==> 0.0 <= m.sin(Radians(m, psi / 2.0)) <= 1.0
  {
    if 0.0 <= psi <= 180.0 {
      RadiansMonotone(m, 0.0, psi / 2.0);
      RadiansMonotone(m, psi / 2.0, 180.0);
      SinNonNegative(m, Radians(m, psi / 2.0));
    }
  }

  /** Q = 2 s / (1 + s) for s in [0, 1] gives Q / (2 - Q) = s. */
  lemma RequiredQRatio(s: real, q: real)
    requires 0.0 <= s <= 1.0 && q * (1.0 + s) == 2.0 * s
    ensures q != 2.0 && q / (2.0 - q) == s
  {
    var d := 2.0 - q;
    assert d * (1.0 + s) == 2.0;
    assert s * d == q by {
      assert s * d * (1.0 + s) == q * (1.0 + s);
      var k := s * d - q;
      assert k * (1.0 + s) == 0.0;
      ProductZero(k, 1.0 + s);
    }
    QuotientUnique(q, d, s);
  }

  /** x = q / (2 - q) for q in [0, 1] lies in [0, 1] and 2 x / (1 + x) = q. */
  lemma RatioRequiredQ(q: real, x: real)
    requires 0.0 <= q <= 1.0 && x * (2.0 - q) == q
    ensures 0.0 <= x <= 1.0 && 2.0 * x / (1.0 + x) == q
  {
    assert x * (2.0 - q) >= 0.0;
    assert x < 0.0 ==> x * (2.0 - q) < 0.0;
    assert x > 1.0 ==> x * (2.0 - q) > 2.0 - q;
    assert q * (1.0 + x) == 2.0 * x;
    QuotientUnique(2.0 * x, 1.0 + x, q);
  }

  /** Required Q then maximum range, at the sine level. */
  lemma MaxRangeOfRequiredQAtSine(m: Math, x: real, s: real)
    requires Lawful(m) && 0.0 <= x <= m.pi / 2.0 && s == m.sin(x)
    ensures RequiredQOfSine(s).Ok?
    ensures MaxRangeAngle(m, RequiredQOfSine(s).value) == Ok(Degrees(m, x) * 2.0)
  {
    SinNonNegative(m, x);
    var q := RequiredQOfSine(s).value;
    RequiredQRatio(s, q);
    assert Div(q, 2.0 - q) == Ok(s);
    assert m.asin(m.sin(x)) == x;
  }

  /** For 0 <= psi <= 180 the Q required for maximum range psi has maximum
      range psi. */
  lemma MaxRangeOfRequiredQ(m: Math, psi: real)
    requires Lawful(m) && 0.0 <= psi <= 180.0
    ensures RequiredQAtMaxRange(m, psi).Ok?
    ensures MaxRangeAngle(m, RequiredQAtMaxRange(m, psi).value) == Ok(psi)
  {
    var x := Radians(m, psi / 2.0);
    RadiansMonotone(m, 0.0, psi / 2.0);
    RadiansMonotone(m, psi / 2.0, 90.0);
    MaxRangeOfRequiredQAtSine(m, x, m.sin(x));
  }

  /** For 0 <= Q <= 1 the Q required for the maximum range of Q is Q. */
  lemma RequiredQOfMaxRange(m: Math, q: real)
    requires Lawful(m) && SineSymmetry(m) && 0.0 <= q <= 1.0
    ensures MaxRangeAngle(m, q).Ok?
    ensures RequiredQAtMaxRange(m, MaxRangeAngle(m, q).value) == Ok(q)
  {
    var x := q / (2.0 - q);
    assert x * (2.0 - q) == q;
    RatioRequiredQ(q, x);
    var psi := MaxRangeAngle(m, q).value;
    assert m.sin(Radians(m, psi / 2.0)) == x;
  }

  /** `solveForEccentricAnomalyFromMaxRange`: acos((e - cos(psi / 2)) /
      (1 - e cos(psi / 2))) in degrees (equation 6.2-21). It is the
      eccentric anomaly formula 4.2-8 at cos v = -cos(psi / 2), and never
      fails on an ellipse. */
  function EccentricAnomalyFromMaxRange(m: Math, e: real, psi: real): (ea: Result<real>)
    requires Lawful(m)
    ensures ea == TimeOfFlight.EccentricAnomalyOfCosine(m, e, -m.cos(Radians(m, psi / 2.0)))
    ensures 0.0 <= e < 1.0 ==> ea.Ok?
  {
    assert 0.0 <= e < 1.0 ==> TimeOfFlight.EccentricAnomalyOfCosine(m, e, -m.cos(Radians(m, psi / 2.0))).Ok? by {
      if 0.0 <= e < 1.0 {
        TimeOfFlight.EllipticCosineDefined(m, e, -m.cos(Radians(m, psi / 2.0)));
      }
    }
    var tmp :- Div(e - m.cos(Radians(m, psi / 2.0)), 1.0 - e * m.cos(Radians(m, psi / 2.0)));
    var a :- Acos(m, tmp);
    Ok(Degrees(m, a))
  }

  /** It equals the eccentric anomaly of the burnout point whose true
      anomaly `AnomalyAtBurnout` gives. */
  lemma EccentricAnomalyAtBurnout(m: Math, e: real, psi: real)
    requires Lawful(m)
    ensures EccentricAnomalyFromMaxRange(m, e, psi) == TimeOfFlight.EccentricAnomaly(m, e, AnomalyAtBurnout(m, psi))
  {
  }

  /** `solveForTimeOfFreeFlight`: 2 sqrt(a^3 / mu) (pi - E + e sin E), E in
      degrees (equation 6.2-22). A negative semi-major axis is a
      square-root domain error. For E in [0, 180] and e >= 0 the time is
      non-negative, and burnout at apogee (E = 180) leaves no free flight. */
  function TimeOfFreeFlight(m: Math, ea: real, e: real, a: real, t: ReturnType): (tff: Result<real>)
    requires Lawful(m)
    ensures tff.Ok? <==> a >= 0.0
    ensures tff.Err? ==> tff.error == DomainError
    ensures tff.Ok? && 0.0 <= ea <= 180.0 && e >= 0.0 ==> tff.value >= 0.0
    ensures tff.Ok? && ea == 180.0 ==> tff.value == 0.0
  {
    var x := Radians(m, ea);
    CubeSign(a);
    QuotientSign(Cube(a), Mu(t));
    var tmp1 :- Sqrt(m, Cube(a) / Mu(t));
    var tmp2 := m.pi - x + e * m.sin(x);
    SinZero(m);
    assert 0.0 <= ea <= 180.0 && e >= 0.0 ==> 2.0 * tmp1 * tmp2 >= 0.0 by {
      if 0.0 <= ea <= 180.0 && e >= 0.0 {
        RadiansMonotone(m, 0.0, ea);
        RadiansMonotone(m, ea, 180.0);
        SinNonNegative(m, x);
        ProductNonNegative(e, m.sin(x));
        ProductNonNegative(2.0 * tmp1, tmp2);
      }
    }
    Ok(2.0 * tmp1 * tmp2)
  }

  /** For a > 0 the time is 2 (pi - M) / n, with M = E - e sin E the mean
      anomaly and n = v_cs(a) / a the mean motion: t v_cs(a) = 2 a (pi - M). */
  lemma TimeOfFreeFlightIsMeanMotion(m: Math, ea: real, e: real, a: real, t: ReturnType)
    requires Lawful(m) && a > 0.0
    ensures TimeOfFreeFlight(m, ea, e, a, t).Ok?
    ensures TimeOfFreeFlight(m, ea, e, a, t).value * CircularOrbit.CircularSatelliteSpeed(m, a, t).value
              == 2.0 * a * (m.pi - (Radians(m, ea) - e * m.sin(Radians(m, ea))))
  {
    CubeSign(a);
    QuotientSign(Cube(a), Mu(t));
    var root := Sqrt(m, Cube(a) / Mu(t)).value;
    var speed := CircularOrbit.CircularSatelliteSpeed(m, a, t).value;
    RootProduct(root, speed, a, Mu(t));
    var x := Radians(m, ea);
    var k := m.pi - x + e * m.sin(x);
    assert 2.0 * root * k * speed == 2.0 * (root * speed) * k;
  }

  /** `solveForFreeFlightTime`: 2 pi sqrt(r^3 / mu) (equation 6.2-23). */
  function FreeFlightTime(m: Math, r: real, t: ReturnType): (tff: Result<real>)
    requires Lawful(m)
    ensures tff.Ok? <==> r >= 0.0
    ensures tff.Err? ==> tff.error == DomainError
    ensures tff.Ok? ==> tff.value >= 0.0
  {
    CubeSign(r);
    QuotientSign(Cube(r), Mu(t));
    var root :- Sqrt(m, Cube(r) / Mu(t));
    ProductNonNegative(2.0 * m.pi, root);
    Ok(2.0 * m.pi * root)
  }

  /** Burnout at perigee (E = 0) gives a whole period, whatever e. */
  lemma TimeOfFreeFlightFromPerigee(m: Math, e: real, a: real, t: ReturnType)
    requires Lawful(m)
    ensures TimeOfFreeFlight(m, 0.0, e, a, t) == FreeFlightTime(m, a, t)
  {
    SinZero(m);
  }

  /** sqrt(r^3 / mu) sqrt(mu / r) = r. */
  lemma RootProduct(x: real, y: real, r: real, mu: real)
    requires x >= 0.0 && y >= 0.0 && r > 0.0 && mu > 0.0
    requires x * x == Cube(r) / mu && y * y == mu / r
    ensures x * y == r
  {
    var a, b := Cube(r) / mu, mu / r;
    assert a * mu == Cube(r);
    assert b * r == mu;
    var ab := a * b;
    assert ab * mu * r == Cube(r) * mu;
    assert ab * (mu * r) == (r * r) * (mu * r);
    ProductZero(ab - r * r, mu * r);
    var xy := x * y;
    assert xy * xy == ab;
    ProductNonNegative(x, y);
    SquareRootUnique(xy, r);
  }

  /** That period is the circumference over the circular speed:
      t v_cs = 2 pi r. */
  lemma FreeFlightTimeIsCircularPeriod(m: Math, r: real, t: ReturnType)
    requires Lawful(m) && r > 0.0
    ensures FreeFlightTime(m, r, t).Ok?
    ensures FreeFlightTime(m, r, t).value * CircularOrbit.CircularSatelliteSpeed(m, r, t).value == 2.0 * m.pi * r
  {
    CubeSign(r);
    QuotientSign(Cube(r), Mu(t));
    var root := Sqrt(m, Cube(r) / Mu(t)).value;
    var speed := CircularOrbit.CircularSatelliteSpeed(m, r, t).value;
    RootProduct(root, speed, r, Mu(t));
    var p := root * speed;
    assert 2.0 * m.pi * root * speed == 2.0 * m.pi * p;
  }
}
