/** Launching errors and their effect on range: cross-range errors from a
    lateral or azimuthal cutoff error, the down-range angle, and the
    influence coefficients of the burnout flight path angle, height and
    speed (section 6.3;
    six_ballisticMissileTrajectories/six_03_launching_errors_on_range.py).
    All angles are in degrees. */
module LaunchingErrors {
  import opened Maths
  import opened Earth
  import opened Trig
  import BallisticMissile

  // Cross-range errors

  /** The cosine of the cross-range error by the spherical law of cosines:
      a^2 + b^2 k with a^2 + b^2 = 1 and k the cosine of the cutoff error.
      Equation 6.3-1 takes (a, b) = (sin psi, cos psi), equation 6.3-3
      takes (cos psi, sin psi). The value is a cosine, it is never below k
      (the cross-range error never exceeds the cutoff error), and it is 1
      when k is. */
  function CrossRangeCosine(a: real, b: real, k: real): (c: real)
    requires a * a + b * b == 1.0 && -1.0 <= k <= 1.0
    ensures -1.0 <= c <= 1.0
    ensures k <= c
    ensures k == 1.0 ==> c == 1.0
  {
    var aa, bb := a * a, b * b;
    SquareNonNegative(a);
    SquareNonNegative(b);
    ProductNonNegative(aa, 1.0 - k);
    ProductNonNegative(bb, 1.0 - k);
    assert aa + bb * k - k == aa * (1.0 - k);
    assert 1.0 - (aa + bb * k) == bb * (1.0 - k);
    aa + bb * k
  }

  /** The angle in [0, 180] degrees whose cosine is c, for c in [-1, 1]. */
  function AngleOfCosine(m: Math, c: real): (d: real)
    requires Lawful(m) && -1.0 <= c <= 1.0
    ensures 0.0 <= d <= 180.0
    ensures m.cos(Radians(m, d)) == c
  {
    var a := m.acos(c);
    DegreesRange(m, a);
    RadiansOfDegrees(m, a);
    Degrees(m, a)
  }

  /** `solveForCrossRangeErrorLateral` (equation 6.3-1): the cross-range
      error for range angle psi and lateral cutoff error dx. The acos
      argument is always in [-1, 1], so it never fails; the error lies in
      [0, 180] and its cosine is never below that of dx. */
  function CrossRangeErrorLateral(m: Math, psi: real, dx: real): (dc: real)
    requires Lawful(m)
    ensures 0.0 <= dc <= 180.0
    ensures m.cos(Radians(m, dc))
              == CrossRangeCosine(m.sin(Radians(m, psi)), m.cos(Radians(m, psi)), m.cos(Radians(m, dx)))
    ensures m.cos(Radians(m, dc)) >= m.cos(Radians(m, dx))
  {
    var x := Radians(m, psi);
    AngleOfCosine(m, CrossRangeCosine(m.sin(x), m.cos(x), m.cos(Radians(m, dx))))
  }

  /** `solveForCrossRangeErrorAzimuthal` (equation 6.3-3): the cross-range
      error for range angle psi and azimuth error db; the law of cosines
      with the roles of sine and cosine exchanged. */
  function CrossRangeErrorAzimuthal(m: Math, psi: real, db: real): (dc: real)
    requires Lawful(m)
    ensures 0.0 <= dc <= 180.0
    ensures m.cos(Radians(m, dc))
              == CrossRangeCosine(m.cos(Radians(m, psi)), m.sin(Radians(m, psi)), m.cos(Radians(m, db)))
    ensures m.cos(Radians(m, dc)) >= m.cos(Radians(m, db))
  {
    var x := Radians(m, psi);
    AngleOfCosine(m, CrossRangeCosine(m.cos(x), m.sin(x), m.cos(Radians(m, db))))
  }

  /** No lateral cutoff error, no cross-range error. */
  lemma LateralErrorZero(m: Math, psi: real)
    requires Lawful(m)
    ensures CrossRangeErrorLateral(m, psi, 0.0) == 0.0
  {
    assert m.acos(m.cos(0.0)) == 0.0;
  }

  /** No azimuth error, no cross-range error. */
  lemma AzimuthalErrorZero(m: Math, psi: real)
    requires Lawful(m)
    ensures CrossRangeErrorAzimuthal(m, psi, 0.0) == 0.0
  {
    assert m.acos(m.cos(0.0)) == 0.0;
  }

  /** An azimuth error moves nothing at zero range or at a half circle. */
  lemma AzimuthalErrorAtLaunchAndAntipode(m: Math, db: real)
    requires Lawful(m)
    ensures CrossRangeErrorAzimuthal(m, 0.0, db) == 0.0
    ensures CrossRangeErrorAzimuthal(m, 180.0, db) == 0.0
  {
    SinZero(m);
    assert m.acos(m.cos(0.0)) == 0.0;
  }

  /** `solveForCrossRangeErrorLateralSmallAngleApprox` (equation 6.3-2):
      the small-angle form, which reduces to dx cos psi and so is never
      larger in magnitude than dx. */
  function CrossRangeErrorLateralSmallAngle(m: Math, psi: real, dx: real): (dc: real)
    requires Lawful(m)
    ensures dc == dx * m.cos(Radians(m, psi))
    ensures Abs(dc) <= Abs(dx)
  {
    ScaledAngle(m, dx, m.cos(Radians(m, psi)))
  }

  /** `solveForCrossRangeErrorAzimuthalSmallAngleApprox` (equation 6.3-4):
      the small-angle form, which reduces to db sin psi. */
  function CrossRangeErrorAzimuthalSmallAngle(m: Math, psi: real, db: real): (dc: real)
    requires Lawful(m)
    ensures dc == db * m.sin(Radians(m, psi))
    ensures Abs(dc) <= Abs(db)
  {
    ScaledAngle(m, db, m.sin(Radians(m, psi)))
  }

  /** An angle d in degrees taken to radians, scaled by k and taken back to
      degrees: d k, no larger in magnitude than d when |k| <= 1. */
  function ScaledAngle(m: Math, d: real, k: real): (a: real)
    requires m.pi > 0.0 && -1.0 <= k <= 1.0
    ensures a == d * k
    ensures Abs(a) <= Abs(d)
  {
    var p := DegreesToRadians(m) * RadiansToDegrees(m);
    assert p == 1.0;
    assert d * DegreesToRadians(m) * k * RadiansToDegrees(m) == d * k * p;
    MulAbsBound(d, k);
    Degrees(m, Radians(m, d) * k)
  }

  /** Both small-angle forms are linear in the error: additive, odd, and
      zero for a zero error. */
  lemma SmallAngleLinear(m: Math, psi: real, e1: real, e2: real)
    requires Lawful(m)
    ensures CrossRangeErrorLateralSmallAngle(m, psi, e1 + e2)
              == CrossRangeErrorLateralSmallAngle(m, psi, e1) + CrossRangeErrorLateralSmallAngle(m, psi, e2)
    ensures CrossRangeErrorLateralSmallAngle(m, psi, -e1) == -CrossRangeErrorLateralSmallAngle(m, psi, e1)
    ensures CrossRangeErrorLateralSmallAngle(m, psi, 0.0) == 0.0
    ensures CrossRangeErrorAzimuthalSmallAngle(m, psi, e1 + e2)
              == CrossRangeErrorAzimuthalSmallAngle(m, psi, e1) + CrossRangeErrorAzimuthalSmallAngle(m, psi, e2)
    ensures CrossRangeErrorAzimuthalSmallAngle(m, psi, -e1) == -CrossRangeErrorAzimuthalSmallAngle(m, psi, e1)
    ensures CrossRangeErrorAzimuthalSmallAngle(m, psi, 0.0) == 0.0
  {
  }

  // Influence coefficients

  /** `solveForInfluenceCoefficientFPAError` (equation 6.3-13): the partial
      derivative of the range angle with respect to the burnout flight path
      angle, 2 sin(psi + 2 fpa) / sin(2 fpa) - 2. A zero sin(2 fpa) is a
      division error. */
  function FpaInfluenceCoefficient(m: Math, psi: real, fpa: real): (ic: Result<real>)
    requires Lawful(m)
    ensures ic.Ok? <==> m.sin(Radians(m, 2.0 * fpa)) != 0.0
    ensures ic.Err? ==> ic.error == ZeroDivision
    ensures ic.Ok? ==> (ic.value + 2.0) * m.sin(Radians(m, 2.0 * fpa)) == 2.0 * m.sin(Radians(m, psi + 2.0 * fpa))
  {
    var ratio := Div(2.0 * m.sin(Radians(m, psi + 2.0 * fpa)), m.sin(Radians(m, 2.0 * fpa)));
    if ratio.Err? then Err(ZeroDivision) else Ok(ratio.value - 2.0)
  }

  /** At the flight path angle of maximum range (equation 6.2-18) the range
      does not change to first order with the flight path angle: the
      coefficient is zero, because psi + 2 fpa and 2 fpa are supplementary. */
  lemma FpaInfluenceVanishesAtMaxRange(m: Math, psi: real)
    requires Lawful(m) && SineSymmetry(m) && -180.0 < psi < 180.0
    ensures FpaInfluenceCoefficient(m, psi, BallisticMissile.MaxBurnoutFpa(psi)) == Ok(0.0)
  {
    var fpa := BallisticMissile.MaxBurnoutFpa(psi);
    var a, b := Radians(m, psi + 2.0 * fpa), Radians(m, 2.0 * fpa);
    RadiansLinear(m, psi + 2.0 * fpa, 2.0 * fpa);
    assert a + b == m.pi;
    assert m.sin(a) == m.sin(b);
    RadiansMonotone(m, 0.0, 2.0 * fpa);
    RadiansMonotone(m, 2.0 * fpa, 180.0);
    assert m.sin(b) > 0.0;
    QuotientUnique(2.0 * m.sin(a), m.sin(b), 2.0);
  }

  /** sin^2(psi / 2) / sin(2 fpa), the factor that the height and speed
      coefficients share. It is non-negative for 0 < fpa < 90. */
  function RangeSensitivity(m: Math, psi: real, fpa: real): (f: Result<real>)
    requires Lawful(m)
    ensures f.Ok? <==> m.sin(Radians(m, 2.0 * fpa)) != 0.0
    ensures f.Err? ==> f.error == ZeroDivision
    ensures f.Ok? ==> f.value * m.sin(Radians(m, 2.0 * fpa))
                        == m.sin(Radians(m, psi) / 2.0) * m.sin(Radians(m, psi) / 2.0)
    ensures f.Ok? && 0.0 < fpa < 90.0 ==> f.value >= 0.0
  {
    var s := m.sin(Radians(m, psi) / 2.0);
    var s2 := m.sin(Radians(m, 2.0 * fpa));
    DoubledAcuteSine(m, fpa);
    SquareOverPositive(s, s2);
    Div(s * s, s2)
  }

  /** sin(2 fpa) > 0 for 0 < fpa < 90. */
  lemma DoubledAcuteSine(m: Math, fpa: real)
    requires Lawful(m)
    ensures 0.0 < fpa < 90.0 ==> m.sin(Radians(m, 2.0 * fpa)) > 0.0
  {
    if 0.0 < fpa < 90.0 {
      RadiansMonotone(m, 0.0, 2.0 * fpa);
      RadiansMonotone(m, 2.0 * fpa, 180.0);
    }
  }

  lemma SquareOverPositive(s: real, d: real)
    ensures d > 0.0 ==> s * s / d >= 0.0
  {
    SquareNonNegative(s);
    if d > 0.0 { QuotientSign(s * s, d); }
  }

  /** v^2 r^2 and v^3 r vanish exactly when v or r does; the first is
      positive otherwise, the second has the sign of v r. */
  lemma BurnoutProducts(v: real, r: real)
    ensures v * v * r * r == 0.0 <==> v == 0.0 || r == 0.0
    ensures v * v * r * r >= 0.0
    ensures Cube(v) * r == 0.0 <==> v == 0.0 || r == 0.0
    ensures v > 0.0 && r > 0.0 ==> Cube(v) * r > 0.0
  {
    var vv, vr := v * v, v * r;
    assert v * v * r * r == vr * vr;
    SquareNonNegative(vr);
    ProductZero(v, r);
    ProductZero(vr, vr);
    CubeSign(v);
    ProductZero(Cube(v), r);
    if v > 0.0 && r > 0.0 {
      assert Cube(v) > 0.0;
      ProductSign(Cube(v), r);
    }
  }

  /** `solveForInfluenceCoefficientBurnoutHeight` (equation 6.3-16):
      4 mu / (v^2 r^2) times `RangeSensitivity`. A zero speed, radius or
      sin(2 fpa) is a division error; for 0 < fpa < 90 the coefficient is
      non-negative. */
  function HeightInfluenceCoefficient(m: Math, r: real, v: real, fpa: real, psi: real, t: ReturnType): (ic: Result<real>)
    requires Lawful(m)
    ensures ic.Ok? <==> v != 0.0 && r != 0.0 && m.sin(Radians(m, 2.0 * fpa)) != 0.0
    ensures ic.Err? ==> ic.error == ZeroDivision
    ensures ic.Ok? && 0.0 < fpa < 90.0 ==> ic.value >= 0.0
    ensures ic.Ok? ==> ic.value * (v * v * r * r) == 4.0 * Mu(t) * RangeSensitivity(m, psi, fpa).value
  {
    var f := RangeSensitivity(m, psi, fpa);
    if v == 0.0 || r == 0.0 || f.Err? then Err(ZeroDivision)
    else
      assert 0.0 < fpa < 90.0 ==> HeightCoefficientOf(Mu(t), r, v, f.value) >= 0.0 by {
        if 0.0 < fpa < 90.0 {
          HeightCoefficientSign(Mu(t), r, v, f.value);
        }
      }
      Ok(HeightCoefficientOf(Mu(t), r, v, f.value))
  }

  /** Equation 6.3-16 with the sensitivity factor multiplied out: the
      coefficient times v * v * r * r sin(2 fpa) is 4.0 mu sin^2(psi / 2). */
  lemma HeightInfluenceEquation(m: Math, r: real, v: real, fpa: real, psi: real, t: ReturnType)
    requires Lawful(m) && HeightInfluenceCoefficient(m, r, v, fpa, psi, t).Ok?
    ensures HeightInfluenceCoefficient(m, r, v, fpa, psi, t).value * (v * v * r * r) * m.sin(Radians(m, 2.0 * fpa))
              == 4.0 * Mu(t) * (m.sin(Radians(m, psi) / 2.0) * m.sin(Radians(m, psi) / 2.0))
  {
    var c := HeightInfluenceCoefficient(m, r, v, fpa, psi, t).value;
    var f := RangeSensitivity(m, psi, fpa).value;
    var s := m.sin(Radians(m, psi) / 2.0);
    ClearedCoefficient(c, v * v * r * r, 4.0 * Mu(t), f, m.sin(Radians(m, 2.0 * fpa)), s * s);
  }

  /** c p = k f and f d = n give c p d = k n. */
  lemma ClearedCoefficient(c: real, p: real, k: real, f: real, d: real, n: real)
    requires c * p == k * f && f * d == n
    ensures c * p * d == k * n
  {
    assert c * p * d == k * (f * d);
  }

  /** The value of equation 6.3-16 for sensitivity factor f; v^2 r^2 is
      zero exactly when v or r is. */
  function HeightCoefficientOf(mu: real, r: real, v: real, f: real): (c: real)
    requires v != 0.0 && r != 0.0
    ensures c * (v * v * r * r) == 4.0 * mu * f
  {
    BurnoutProducts(v, r);
    4.0 * mu / (v * v * r * r) * f
  }

  /** The value of equation 6.3-18 for sensitivity factor f; v^3 r is zero
      exactly when v or r is. */
  function VelocityCoefficientOf(mu: real, r: real, v: real, f: real): (c: real)
    requires v != 0.0 && r != 0.0
    ensures c * (Cube(v) * r) == 8.0 * mu * f
  {
    BurnoutProducts(v, r);
    8.0 * mu / (Cube(v) * r) * f
  }

  lemma HeightCoefficientSign(mu: real, r: real, v: real, f: real)
    requires mu > 0.0 && v != 0.0 && r != 0.0 && f >= 0.0
    ensures HeightCoefficientOf(mu, r, v, f) >= 0.0
  {
    BurnoutProducts(v, r);
    ScaledNonNegative(4.0 * mu, v * v * r * r, f);
  }

  lemma VelocityCoefficientSign(mu: real, r: real, v: real, f: real)
    requires mu > 0.0 && v > 0.0 && r > 0.0 && f >= 0.0
    ensures VelocityCoefficientOf(mu, r, v, f) >= 0.0
  {
    BurnoutProducts(v, r);
    ScaledNonNegative(8.0 * mu, Cube(v) * r, f);
  }

  /** k / d times x is non-negative for k > 0, d > 0 and x >= 0. */
  lemma ScaledNonNegative(k: real, d: real, x: real)
    requires k > 0.0
    ensures d > 0.0 && x >= 0.0 ==> k / d * x >= 0.0
  {
    if d > 0.0 && x >= 0.0 {
      QuotientSign(k, d);
      ProductNonNegative(k / d, x);
    }
  }

  /** `solveForInfluenceCoefficientBurnoutVelocity` (equation 6.3-18):
      8 mu / (v^3 r) times `RangeSensitivity`. A zero speed, radius or
      sin(2 fpa) is a division error; for r, v > 0 and 0 < fpa < 90 the
      coefficient is non-negative. */
  function VelocityInfluenceCoefficient(m: Math, r: real, v: real, fpa: real, psi: real, t: ReturnType): (ic: Result<real>)
    requires Lawful(m)
    ensures ic.Ok? <==> v != 0.0 && r != 0.0 && m.sin(Radians(m, 2.0 * fpa)) != 0.0
    ensures ic.Err? ==> ic.error == ZeroDivision
    ensures ic.Ok? && v > 0.0 && r > 0.0 && 0.0 < fpa < 90.0 ==> ic.value >= 0.0
    ensures ic.Ok? ==> ic.value * (Cube(v) * r) == 8.0 * Mu(t) * RangeSensitivity(m, psi, fpa).value
  {
    var f := RangeSensitivity(m, psi, fpa);
    if v == 0.0 || r == 0.0 || f.Err? then Err(ZeroDivision)
    else
      assert v > 0.0 && r > 0.0 && 0.0 < fpa < 90.0 ==> VelocityCoefficientOf(Mu(t), r, v, f.value) >= 0.0 by {
        if v > 0.0 && r > 0.0 && 0.0 < fpa < 90.0 {
          VelocityCoefficientSign(Mu(t), r, v, f.value);
        }
      }
      Ok(VelocityCoefficientOf(Mu(t), r, v, f.value))
  }

  /** Equation 6.3-18 with the sensitivity factor multiplied out: the
      coefficient times Cube(v) * r sin(2 fpa) is 8.0 mu sin^2(psi / 2). */
  lemma VelocityInfluenceEquation(m: Math, r: real, v: real, fpa: real, psi: real, t: ReturnType)
    requires Lawful(m) && VelocityInfluenceCoefficient(m, r, v, fpa, psi, t).Ok?
    ensures VelocityInfluenceCoefficient(m, r, v, fpa, psi, t).value * (Cube(v) * r) * m.sin(Radians(m, 2.0 * fpa))
              == 8.0 * Mu(t) * (m.sin(Radians(m, psi) / 2.0) * m.sin(Radians(m, psi) / 2.0))
  {
    var c := VelocityInfluenceCoefficient(m, r, v, fpa, psi, t).value;
    var f := RangeSensitivity(m, psi, fpa).value;
    var s := m.sin(Radians(m, psi) / 2.0);
    ClearedCoefficient(c, Cube(v) * r, 8.0 * Mu(t), f, m.sin(Radians(m, 2.0 * fpa)), s * s);
  }

  /** `solveForInfluenceCoefficientBurnoutVelocityAlternative`: the speed
      coefficient from the height coefficient, 2 r / v times it. A zero
      speed is a division error. */
  function VelocityInfluenceFromHeight(r: real, v: real, icHeight: real): (ic: Result<real>)
    ensures ic.Ok? <==> v != 0.0
    ensures ic.Err? ==> ic.error == ZeroDivision
    ensures ic.Ok? ==> ic.value * v == 2.0 * r * icHeight
  {
    if v == 0.0 then Err(ZeroDivision) else Ok(2.0 * r / v * icHeight)
  }

  /** The shortcut agrees with the direct speed coefficient: it fails
      exactly when the height coefficient does, and otherwise gives the
      same value. */
  lemma VelocityInfluenceShortcut(m: Math, r: real, v: real, fpa: real, psi: real, t: ReturnType)
    requires Lawful(m)
    ensures HeightInfluenceCoefficient(m, r, v, fpa, psi, t).Err?
              == VelocityInfluenceCoefficient(m, r, v, fpa, psi, t).Err?
    ensures HeightInfluenceCoefficient(m, r, v, fpa, psi, t).Ok? ==>
              VelocityInfluenceFromHeight(r, v, HeightInfluenceCoefficient(m, r, v, fpa, psi, t).value)
                == VelocityInfluenceCoefficient(m, r, v, fpa, psi, t)
  {
    var f := RangeSensitivity(m, psi, fpa);
    if f.Ok? && v != 0.0 && r != 0.0 {
      ShortcutArithmetic(Mu(t), r, v, f.value);
    }
  }

  /** (2 r / v) (4 mu / (v^2 r^2)) f == (8 mu / (v^3 r)) f. */
  lemma ShortcutArithmetic(mu: real, r: real, v: real, f: real)
    requires r != 0.0 && v != 0.0
    ensures VelocityInfluenceFromHeight(r, v, HeightCoefficientOf(mu, r, v, f)).Ok?
    ensures VelocityInfluenceFromHeight(r, v, HeightCoefficientOf(mu, r, v, f)).value == VelocityCoefficientOf(mu, r, v, f)
  {
    BurnoutProducts(v, r);
    ProductZero(Cube(v) * r, r);
    assert 2.0 * r / v * v == 2.0 * r;
    assert 4.0 * mu / (v * v * r * r) * (v * v * r * r) == 4.0 * mu;
    assert 8.0 * mu / (Cube(v) * r) * (Cube(v) * r) == 8.0 * mu;
    assert 2.0 * r / v * (4.0 * mu / (v * v * r * r)) * (Cube(v) * r * r)
      == (2.0 * r / v * v) * (4.0 * mu / (v * v * r * r) * (v * v * r * r));
    assert 8.0 * mu / (Cube(v) * r) * (Cube(v) * r * r) == (8.0 * mu / (Cube(v) * r) * (Cube(v) * r)) * r;
    QuotientUnique(8.0 * mu * r, Cube(v) * r * r, 2.0 * r / v * (4.0 * mu / (v * v * r * r)));
    QuotientUnique(8.0 * mu * r, Cube(v) * r * r, 8.0 * mu / (Cube(v) * r));
    assert 2.0 * r / v * (4.0 * mu / (v * v * r * r) * f) == 8.0 * mu / (Cube(v) * r) * f;
  }

  // Down-range angle

  /** The quantity that `solveForDownRangeError` calls `cosPsi`:
      (2 / Q) csc(2 fpa) - cot(fpa), fpa in degrees. Each of sin(2 fpa) = 0,
      sin(fpa) = 0 and Q = 0 is a division error; otherwise the quotient x
      satisfies Q sin(2 fpa) (x sin fpa + cos fpa) = 2 sin fpa. */
  function DownRangeQuotient(m: Math, q: real, fpa: real): (x: Result<real>)
    requires Lawful(m)
    ensures x.Ok? <==> m.sin(2.0 * Radians(m, fpa)) != 0.0 && m.sin(Radians(m, fpa)) != 0.0 && q != 0.0
    ensures x.Err? ==> x.error == ZeroDivision
    ensures x.Ok? ==> q * m.sin(2.0 * Radians(m, fpa)) * (x.value * m.sin(Radians(m, fpa)) + m.cos(Radians(m, fpa)))
                        == 2.0 * m.sin(Radians(m, fpa))
  {
    var fpaRad := Radians(m, fpa);
    if m.sin(2.0 * fpaRad) == 0.0 || m.sin(fpaRad) == 0.0 || q == 0.0 then Err(ZeroDivision)
    else
      QuotientCleared(q, m.sin(fpaRad), m.cos(fpaRad), m.sin(2.0 * fpaRad),
                      Csc(m, 2.0 * fpaRad).value, Cot(m, fpaRad).value);
      Ok(2.0 / q * Csc(m, 2.0 * fpaRad).value - Cot(m, fpaRad).value)
  }

  /** With cs s2 = 1 and ct s = c, x = (2 / q) cs - ct gives
      q s2 (x s + c) = 2 s. */
  lemma QuotientCleared(q: real, s: real, c: real, s2: real, cs: real, ct: real)
    requires q != 0.0 && cs * s2 == 1.0 && ct * s == c
    ensures q * s2 * ((2.0 / q * cs - ct) * s + c) == 2.0 * s
  {
    calc {
      q * s2 * ((2.0 / q * cs - ct) * s + c);
      q * s2 * (2.0 / q * cs * s);
      { assert q * (2.0 / q) == 2.0; }
      2.0 * (cs * s2) * s;
    }
  }

  /** Where sine obeys the double-angle formula, the quotient is
      (1 - Q cos^2 fpa) / (Q sin fpa cos fpa): by equation 6.2-12 the
      cotangent of half the free-flight range. */
  lemma DownRangeQuotientIsHalfRangeCotangent(m: Math, q: real, fpa: real)
    requires Lawful(m) && DoubleAngle(m) && DownRangeQuotient(m, q, fpa).Ok?
    ensures CotangentOfLegs(q, m.sin(Radians(m, fpa)), m.cos(Radians(m, fpa)), DownRangeQuotient(m, q, fpa).value)
  {
    HalfRangeCotangent(q, m.sin(Radians(m, fpa)), m.cos(Radians(m, fpa)), m.sin(2.0 * Radians(m, fpa)));
  }

  /** (2 / q) csc(2 phi) - cot(phi) == (1 - q c^2) / (q s c) for s = sin phi,
      c = cos phi and sin(2 phi) = 2 s c. */
  lemma HalfRangeCotangent(q: real, s: real, c: real, s2: real)
    requires q != 0.0 && s != 0.0 && s2 != 0.0
    ensures s2 == 2.0 * s * c ==> (2.0 / q * (1.0 / s2) - c / s) * (q * s * c) == 1.0 - q * c * c
  {
    if s2 == 2.0 * s * c {
      assert 2.0 / q * q == 2.0;
      assert 1.0 / s2 * s2 == 1.0;
      assert c / s * s == c;
      assert 1.0 / s2 * (s * c) * 2.0 == 1.0 / s2 * s2;
      assert 2.0 / q * (1.0 / s2) * (q * s * c) == (2.0 / q * q) * (1.0 / s2 * (s * c));
      assert c / s * (q * s * c) == q * c * (c / s * s);
    }
  }

  /** `solveForDownRangeError` as written: twice the arc cosine of the
      quotient, in degrees. Beyond the quotient's division errors, a
      quotient outside [-1, 1] is a domain error. A result psi has
      cos(psi / 2) equal to the quotient. */
  function DownRangeErrorAsWritten(m: Math, q: real, fpa: real): (psi: Result<real>)
    requires Lawful(m)
    ensures psi.Ok? <==> DownRangeQuotient(m, q, fpa).Ok? && -1.0 <= DownRangeQuotient(m, q, fpa).value <= 1.0
    ensures psi.Err? ==> psi.error == (if DownRangeQuotient(m, q, fpa).Err? then ZeroDivision else DomainError)
    ensures psi.Ok? ==> 0.0 <= psi.value <= 360.0
    ensures psi.Ok? ==> m.cos(Radians(m, psi.value / 2.0)) == DownRangeQuotient(m, q, fpa).value
  {
    var cosPsi :- DownRangeQuotient(m, q, fpa);
    var a :- Acos(m, cosPsi);
    Ok(BallisticMissile.DoubledInDegrees(m, a))
  }

  /** The angle h (radians) has cotangent x and a positive sine. */
  predicate HasCotangent(m: Math, h: real, x: real) {
    m.sin(h) > 0.0 && m.cos(h) == x * m.sin(h)
  }

  /** The range angle psi in (0, 360) with cot(psi / 2) = x: twice the arc
      cotangent of x in degrees, through acos(x / sqrt(1 + x^2)). */
  function AngleOfHalfCotangent(m: Math, x: real): (psi: real)
    requires Lawful(m)
    ensures 0.0 < psi < 360.0
    ensures HasCotangent(m, Radians(m, psi / 2.0), x)
  {
    RootPositive(m, x);
    ArcCotangent(m, x);
    BallisticMissile.DoubledInDegrees(m, m.acos(x / m.sqrt(1.0 + x * x)))
  }

  /** sqrt(1 + x^2) > 0. */
  lemma RootPositive(m: Math, x: real)
    requires Lawful(m)
    ensures m.sqrt(1.0 + x * x) > 0.0
  {
    SquareNonNegative(x);
    var root := m.sqrt(1.0 + x * x);
    assert root * root == 1.0 + x * x;
  }

  /** h = acos(x / sqrt(1 + x^2)) lies strictly between 0 and pi, with
      cot h = x. */
  lemma ArcCotangent(m: Math, x: real)
    requires Lawful(m)
    ensures 0.0 < m.acos(x / m.sqrt(1.0 + x * x)) < m.pi
    ensures HasCotangent(m, m.acos(x / m.sqrt(1.0 + x * x)), x)
  {
    SquareNonNegative(x);
    var root := m.sqrt(1.0 + x * x);
    CotangentQuotientInUnit(x, root);
    var y := x / root;
    var h := m.acos(y);
    assert m.cos(h) == y;
    SinNonNegative(m, h);
    CotangentSine(x, root, y, m.sin(h));
    SinZero(m);
  }

  lemma CotangentQuotientInUnit(x: real, root: real)
    requires root >= 0.0 && root * root == 1.0 + x * x
    ensures root > 0.0 && -1.0 < x / root < 1.0
  {
    SquareNonNegative(x);
    assert root != 0.0;
    var y := x / root;
    assert y * root == x;
    var yy := y * y;
    assert yy * (root * root) == x * x;
    assert yy < 1.0 by {
      if yy >= 1.0 {
        ProductNonNegative(yy - 1.0, root * root);
      }
    }
    if y >= 1.0 { ProductNonNegative(y - 1.0, y); }
    if y <= -1.0 { ProductNonNegative(-1.0 - y, -y); }
  }

  /** With root^2 = 1 + x^2 and y = x / root, a non-negative sn with
      y^2 + sn^2 = 1 is 1 / root, so y = x sn and sn > 0. */
  lemma CotangentSine(x: real, root: real, y: real, sn: real)
    requires root > 0.0 && root * root == 1.0 + x * x && y * root == x
    requires sn >= 0.0 && y * y + sn * sn == 1.0
    ensures sn > 0.0 && y == x * sn
  {
    var t := 1.0 / root;
    assert t * root == 1.0;
    var rr := root * root;
    assert y * y * rr == x * x;
    assert sn * sn * rr == rr - y * y * rr;
    assert sn * sn * rr == 1.0;
    assert t * t * rr == 1.0;
    QuotientUnique(1.0, rr, sn * sn);
    QuotientUnique(1.0, rr, t * t);
    QuotientSign(1.0, root);
    SquareRootUnique(sn, t);
    assert x * t * root == x;
    QuotientUnique(x, root, x * t);
  }

  /** `solveForDownRangeError` as evidently intended: the quotient is
      cot(psi / 2), so psi is twice its arc cotangent. The only errors are
      the quotient's division errors; a result lies in (0, 360). */
  function DownRangeError(m: Math, q: real, fpa: real): (psi: Result<real>)
    requires Lawful(m)
    ensures psi.Ok? <==> DownRangeQuotient(m, q, fpa).Ok?
    ensures psi.Err? ==> psi.error == ZeroDivision
    ensures psi.Ok? ==> 0.0 < psi.value < 360.0
    ensures psi.Ok? ==> HasCotangent(m, Radians(m, psi.value / 2.0), DownRangeQuotient(m, q, fpa).value)
  {
    if DownRangeQuotient(m, q, fpa).Err? then Err(ZeroDivision)
    else Ok(AngleOfHalfCotangent(m, DownRangeQuotient(m, q, fpa).value))
  }

  // The corrected down-range angle against the free-flight range angle

  /** At a burnout angle strictly between 0 and 90 degrees, sin fpa,
      cos fpa and sin(2 fpa) are all positive. */
  lemma AcuteBurnout(m: Math, fpa: real)
    requires Lawful(m) && DoubleAngle(m) && 0.0 < fpa < 90.0
    ensures m.sin(Radians(m, fpa)) > 0.0 && m.sin(2.0 * Radians(m, fpa)) > 0.0
    ensures m.cos(Radians(m, fpa)) > 0.0
  {
    RadiansMonotone(m, 0.0, fpa);
    RadiansMonotone(m, fpa, 90.0);
    assert 0.0 < 2.0 * Radians(m, fpa) < m.pi;
    assert m.sin(2.0 * Radians(m, fpa)) == 2.0 * m.sin(Radians(m, fpa)) * m.cos(Radians(m, fpa));
    ProductSign(2.0 * m.sin(Radians(m, fpa)), m.cos(Radians(m, fpa)));
  }

  /** (q s c)^2 + (1 - q c^2)^2 = 1 + q (q - 2) c^2 when s^2 + c^2 = 1: the
      radicand of equation 6.2-12 is the squared hypotenuse of the right
      triangle whose legs are the numerator and denominator of cot(psi / 2). */
  lemma RadicandIdentity(q: real, s: real, c: real)
    requires s * s + c * c == 1.0
    ensures (q * s * c) * (q * s * c) + (1.0 - q * c * c) * (1.0 - q * c * c) == 1.0 + q * (q - 2.0) * (c * c)
  {
    var qc := q * c;
    assert (q * s * c) * (q * s * c) == qc * qc * (s * s);
    assert (1.0 - q * c * c) * (1.0 - q * c * c) == 1.0 - 2.0 * qc * c + qc * qc * (c * c);
    assert qc * qc * (s * s) + qc * qc * (c * c) == qc * qc;
  }

  /** An angle with cotangent x = n / k (k > 0) has cosine u with
      u^2 (1 + x^2) = x^2 and the sign of x; so does n / sqrt(k^2 + n^2).
      The two cosines are therefore equal. */
  lemma SameHalfCosine(k: real, n: real, x: real, sn: real, u: real, root: real, w: real)
    requires k > 0.0 && x * k == n
    requires sn > 0.0 && sn * sn + u * u == 1.0 && u == x * sn
    requires root > 0.0 && root * root == k * k + n * n && w * root == n
    ensures u == w
  {
    CosineOfCotangent(x, sn, u);
    ScaledSquares(k, n, x, u, root);
    SquaresFromScaled(u, w, root, n);
    SignsAgree(k, n, x, sn, u, root, w);
    SameSignSquares(u, w);
  }

  lemma SquaresFromScaled(u: real, w: real, root: real, n: real)
    requires root > 0.0 && u * u * (root * root) == n * n && w * root == n
    ensures u * u == w * w
  {
    assert w * w * (root * root) == n * n;
    assert (u * u - w * w) * (root * root) == 0.0;
    ProductZero(u * u - w * w, root * root);
    ProductZero(root, root);
  }

  /** u = x sn (sn >= 0), n = x k (k > 0) and w = n / root (root > 0) all
      have the sign of x. */
  lemma SignsAgree(k: real, n: real, x: real, sn: real, u: real, root: real, w: real)
    requires k > 0.0 && x * k == n && sn > 0.0 && u == x * sn && root > 0.0 && w * root == n
    ensures u >= 0.0 <==> w >= 0.0
  {
    ProductSign(k, x);
    ProductSign(root, w);
    ProductSign(sn, x);
  }

  lemma SameSignSquares(u: real, w: real)
    requires u * u == w * w && (u >= 0.0 <==> w >= 0.0)
    ensures u == w
  {
    if u >= 0.0 {
      SquareRootUnique(u, w);
    } else {
      SquareRootUnique(-u, -w);
    }
  }

  /** sn^2 + u^2 = 1 and u = x sn give u^2 (1 + x^2) = x^2. */
  lemma CosineOfCotangent(x: real, sn: real, u: real)
    requires sn * sn + u * u == 1.0 && u == x * sn
    ensures u * u * (1.0 + x * x) == x * x
  {
    assert u * u == x * x * (sn * sn);
    assert x * x * (sn * sn) == x * x * (1.0 - u * u);
  }

  /** Scaling u^2 (1 + x^2) = x^2 by k^2, with x k = n. */
  lemma ScaledSquares(k: real, n: real, x: real, u: real, root: real)
    requires x * k == n && u * u * (1.0 + x * x) == x * x && root * root == k * k + n * n
    ensures u * u * (root * root) == n * n
  {
    assert n * n == x * x * (k * k);
    assert u * u * (1.0 + x * x) * (k * k) == x * x * (k * k);
    assert u * u * (root * root) == u * u * (1.0 + x * x) * (k * k);
  }

  /** Range angles in [0, 360] whose halves have the same cosine are equal. */
  lemma HalfAngleCosineUnique(m: Math, a: real, b: real)
    requires Lawful(m) && 0.0 <= a <= 360.0 && 0.0 <= b <= 360.0
    requires m.cos(Radians(m, a / 2.0)) == m.cos(Radians(m, b / 2.0))
    ensures a == b
  {
    RadiansMonotone(m, 0.0, a / 2.0);
    RadiansMonotone(m, a / 2.0, 180.0);
    RadiansMonotone(m, 0.0, b / 2.0);
    RadiansMonotone(m, b / 2.0, 180.0);
    assert m.acos(m.cos(Radians(m, a / 2.0))) == Radians(m, a / 2.0);
    assert m.acos(m.cos(Radians(m, b / 2.0))) == Radians(m, b / 2.0);
    RadiansMonotone(m, a / 2.0, b / 2.0);
    RadiansMonotone(m, b / 2.0, a / 2.0);
  }

  /** The corrected down-range angle is the free-flight range angle of
      equation 6.2-12 for every burnout with Q > 0 and 0 < fpa < 90: the
      quotient is cot(psi / 2), where 6.2-12 gives cos(psi / 2). */
  lemma DownRangeIsFreeFlightAngle(m: Math, q: real, fpa: real)
    requires Lawful(m) && DoubleAngle(m) && q > 0.0 && 0.0 < fpa < 90.0
    ensures DownRangeError(m, q, fpa).Ok? && BallisticMissile.FreeFlightAngleFromQAndFpa(m, q, fpa).Ok?
    ensures DownRangeError(m, q, fpa).value == BallisticMissile.FreeFlightAngleFromQAndFpa(m, q, fpa).value
  {
    QuotientOfAcuteBurnout(m, q, fpa);
    SquaredCosineBelowOne(m, fpa);
    FreeFlightDefined(m, q, fpa);
    FreeFlightOfAcuteBurnout(m, q, fpa);
    HalfAngleCosinesAgree(m, q, fpa,
      DownRangeQuotient(m, q, fpa).value,
      BallisticMissile.FreeFlightHalfAngleCosine(m, q, m.cos(Radians(m, fpa)) * m.cos(Radians(m, fpa))).value,
      DownRangeError(m, q, fpa).value,
      BallisticMissile.FreeFlightAngleFromQAndFpa(m, q, fpa).value);
    HalfAngleCosineUnique(m, DownRangeError(m, q, fpa).value, BallisticMissile.FreeFlightAngleFromQAndFpa(m, q, fpa).value);
  }

  /** For an acute burnout the down-range quotient is defined and is the
      cotangent (1 - q c^2) / (q s c) of the burnout legs. */
  lemma QuotientOfAcuteBurnout(m: Math, q: real, fpa: real)
    requires Lawful(m) && DoubleAngle(m) && q > 0.0 && 0.0 < fpa < 90.0
    ensures m.sin(Radians(m, fpa)) > 0.0 && m.cos(Radians(m, fpa)) > 0.0
    ensures DownRangeQuotient(m, q, fpa).Ok?
    ensures CotangentOfLegs(q, m.sin(Radians(m, fpa)), m.cos(Radians(m, fpa)), DownRangeQuotient(m, q, fpa).value)
  {
    AcuteBurnout(m, fpa);
    DownRangeQuotientIsHalfRangeCotangent(m, q, fpa);
  }

  /** Where the burnout sine is positive, the squared cosine lies in [0, 1). */
  lemma SquaredCosineBelowOne(m: Math, fpa: real)
    requires Lawful(m) && m.sin(Radians(m, fpa)) > 0.0
    ensures 0.0 <= m.cos(Radians(m, fpa)) * m.cos(Radians(m, fpa)) <= 1.0 && m.cos(Radians(m, fpa)) * m.cos(Radians(m, fpa)) != 1.0
  {
    PositiveSineSquare(m.sin(Radians(m, fpa)), m.cos(Radians(m, fpa)));
  }

  /** c^2 lies in [0, 1). */
  predicate SquareBelowOne(c: real) {
    0.0 <= c * c <= 1.0 && c * c != 1.0
  }

  lemma PositiveSineSquare(s: real, c: real)
    requires s > 0.0 && s * s + c * c == 1.0 && -1.0 <= c <= 1.0
    ensures SquareBelowOne(c)
  {
    NotUnitCosine(s, c);
    BallisticMissile.SquareInUnit(c);
  }

  /** Then the free-flight angle of equation 6.2-12 is defined, its
      half-angle cosine being (1 - q c^2) / root. */
  lemma FreeFlightOfAcuteBurnout(m: Math, q: real, fpa: real)
    requires Lawful(m) && 0.0 <= m.cos(Radians(m, fpa)) * m.cos(Radians(m, fpa)) <= 1.0 && m.cos(Radians(m, fpa)) * m.cos(Radians(m, fpa)) != 1.0
    ensures CosineOverRoot(q, m.cos(Radians(m, fpa)) * m.cos(Radians(m, fpa)),
      BallisticMissile.FreeFlightHalfAngleCosine(m, q, m.cos(Radians(m, fpa)) * m.cos(Radians(m, fpa))).value,
      m.sqrt(1.0 + q * (q - 2.0) * (m.cos(Radians(m, fpa)) * m.cos(Radians(m, fpa)))))
  {
  }

  /** x is the cotangent (1 - q c^2) / (q s c). */
  predicate CotangentOfLegs(q: real, s: real, c: real, x: real) {
    x * (q * s * c) == 1.0 - q * c * c
  }

  /** w is the quotient (1 - q cc) / root of equation 6.2-12. */
  predicate CosineOverRoot(q: real, cc: real, w: real, root: real) {
    w * root == 1.0 - q * cc
  }

  /** Off the unit cosine, the free-flight angle is defined. */
  lemma FreeFlightDefined(m: Math, q: real, fpa: real)
    requires Lawful(m) && m.cos(Radians(m, fpa)) * m.cos(Radians(m, fpa)) != 1.0
    ensures BallisticMissile.FreeFlightAngleFromQAndFpa(m, q, fpa).Ok?
  {
  }

  /** An angle psi1 whose half has cotangent x = (1 - q c^2) / (q s c),
      and an angle psi2 whose half has the cosine w of equation 6.2-12,
      have halves with the same cosine. */
  lemma HalfAngleCosinesAgree(m: Math, q: real, fpa: real, x: real, w: real, psi1: real, psi2: real)
    requires Lawful(m) && q > 0.0
    requires m.sin(Radians(m, fpa)) > 0.0 && m.cos(Radians(m, fpa)) > 0.0
    requires m.cos(Radians(m, fpa)) * m.cos(Radians(m, fpa)) != 1.0
    requires CotangentOfLegs(q, m.sin(Radians(m, fpa)), m.cos(Radians(m, fpa)), x)
    requires HasCotangent(m, Radians(m, psi1 / 2.0), x)
    requires CosineOverRoot(q, m.cos(Radians(m, fpa)) * m.cos(Radians(m, fpa)), w,
               m.sqrt(1.0 + q * (q - 2.0) * (m.cos(Radians(m, fpa)) * m.cos(Radians(m, fpa)))))
    requires m.cos(Radians(m, psi2 / 2.0)) == w
    ensures m.cos(Radians(m, psi1 / 2.0)) == m.cos(Radians(m, psi2 / 2.0))
  {
    BallisticMissile.SquareInUnit(m.cos(Radians(m, fpa)));
    RootPositiveWhereDefined(m, q, m.cos(Radians(m, fpa)) * m.cos(Radians(m, fpa)));
    assert HalfRangeTriangle(q, m.sin(Radians(m, fpa)), m.cos(Radians(m, fpa)), x,
      m.sin(Radians(m, psi1 / 2.0)), m.cos(Radians(m, psi1 / 2.0)),
      m.sqrt(1.0 + q * (q - 2.0) * (m.cos(Radians(m, fpa)) * m.cos(Radians(m, fpa)))), w);
    HalfRangeCosines(q, m.sin(Radians(m, fpa)), m.cos(Radians(m, fpa)), x,
      m.sin(Radians(m, psi1 / 2.0)), m.cos(Radians(m, psi1 / 2.0)),
      m.sqrt(1.0 + q * (q - 2.0) * (m.cos(Radians(m, fpa)) * m.cos(Radians(m, fpa)))), w);
  }

  /** The setting of the half-range triangle: an acute burnout (s = sin fpa,
      c = cos fpa), the cotangent x = (1 - q c^2) / (q s c) of a half-angle
      with sine sn > 0 and cosine u, and the cosine w = (1 - q c^2) / root
      of equation 6.2-12, root being the square root of its radicand. */
  predicate HalfRangeTriangle(q: real, s: real, c: real, x: real, sn: real, u: real, root: real, w: real) {
    && q > 0.0 && s > 0.0 && c > 0.0 && s * s + c * c == 1.0
    && x * (q * s * c) == 1.0 - q * c * c
    && sn > 0.0 && sn * sn + u * u == 1.0 && u == x * sn
    && root > 0.0 && (1.0 + q * (q - 2.0) * (c * c) >= 0.0 ==> root * root == 1.0 + q * (q - 2.0) * (c * c))
    && w * root == 1.0 - q * (c * c)
  }

  /** In that setting the two half-range cosines are equal. */
  lemma HalfRangeCosines(q: real, s: real, c: real, x: real, sn: real, u: real, root: real, w: real)
    requires HalfRangeTriangle(q, s, c, x, sn, u, root, w)
    ensures u == w
  {
    TriangleCosines(q, s, c, x, sn, u, root, w);
  }

  lemma TriangleCosines(q: real, s: real, c: real, x: real, sn: real, u: real, root: real, w: real)
    requires q > 0.0 && s > 0.0 && c > 0.0 && s * s + c * c == 1.0
    requires x * (q * s * c) == 1.0 - q * c * c
    requires sn > 0.0 && sn * sn + u * u == 1.0 && u == x * sn
    requires root > 0.0 && (1.0 + q * (q - 2.0) * (c * c) >= 0.0 ==> root * root == 1.0 + q * (q - 2.0) * (c * c))
    requires w * root == 1.0 - q * (c * c)
    ensures u == w
  {
    LegsAndHypotenuse(q, s, c, root);
    SameHalfCosine(q * s * c, 1.0 - q * c * c, x, sn, u, root, w);
  }

  lemma LegsAndHypotenuse(q: real, s: real, c: real, root: real)
    requires q > 0.0 && s > 0.0 && c > 0.0 && s * s + c * c == 1.0
    requires 1.0 + q * (q - 2.0) * (c * c) >= 0.0 ==> root * root == 1.0 + q * (q - 2.0) * (c * c)
    ensures q * s * c > 0.0
    ensures root * root == (q * s * c) * (q * s * c) + (1.0 - q * c * c) * (1.0 - q * c * c)
  {
    ProductSign(q, s);
    ProductSign(q * s, c);
    BallisticMissile.SquareInUnit(c);
    BallisticMissile.RadicandExceedsSquare(q, c * c);
    RadicandIdentity(q, s, c);
  }

  /** Where equation 6.2-12 is defined, the square root in its denominator
      is positive. */
  lemma RootPositiveWhereDefined(m: Math, q: real, s: real)
    requires Lawful(m) && 0.0 <= s <= 1.0 && !(q == 1.0 && s == 1.0)
    ensures m.sqrt(1.0 + q * (q - 2.0) * s) > 0.0
  {
    BallisticMissile.RadicandExceedsSquare(q, s);
    BallisticMissile.FreeFlightCosineBounds(q, s, 1.0 - q * s, m.sqrt(1.0 + q * (q - 2.0) * s));
  }

  /** A positive sine leaves the cosine's square short of one. */
  lemma NotUnitCosine(s: real, c: real)
    requires s > 0.0 && s * s + c * c == 1.0
    ensures c * c != 1.0
  {
    ProductZero(s, s);
  }

  /** The finding: wherever the quotient is defined and non-zero, the
      as-written angle is not the intended one (it differs or it fails),
      since a half-angle whose cosine and cotangent are both x needs x = 0. */
  lemma DownRangeAsWrittenDisagrees(m: Math, q: real, fpa: real)
    requires Lawful(m) && DownRangeQuotient(m, q, fpa).Ok? && DownRangeQuotient(m, q, fpa).value != 0.0
    ensures DownRangeErrorAsWritten(m, q, fpa) != DownRangeError(m, q, fpa)
  {
    NoHalfAngleHasCosineAndCotangent(m, DownRangeQuotient(m, q, fpa).value, DownRangeError(m, q, fpa).value);
  }

  /** No angle psi has cot(psi / 2) = cos(psi / 2) = x for x other than 0. */
  lemma NoHalfAngleHasCosineAndCotangent(m: Math, x: real, psi: real)
    requires Lawful(m) && x != 0.0 && HasCotangent(m, Radians(m, psi / 2.0), x)
    ensures m.cos(Radians(m, psi / 2.0)) != x
  {
    CosineIsNotCotangent(x, m.sin(Radians(m, psi / 2.0)), m.cos(Radians(m, psi / 2.0)));
  }

  /** sn^2 + cs^2 = 1 and cs = x sn leave cs = x only for x = 0. */
  lemma CosineIsNotCotangent(x: real, sn: real, cs: real)
    requires sn * sn + cs * cs == 1.0 && cs == x * sn
    ensures cs == x ==> x == 0.0
  {
    if cs == x {
      assert x * (sn - 1.0) == 0.0;
      ProductZero(x, sn - 1.0);
      ProductZero(cs, cs);
    }
  }
}
