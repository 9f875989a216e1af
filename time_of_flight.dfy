/** Eccentric anomaly from true anomaly, equation 4.2-8
    (four_position_and_velocity_a_funcion_of_time/four_02_time_of_flight_eccentric_anomoly.py). */
module TimeOfFlight {
  import opened Maths
  import opened Trig

  /** The formula once the cosine of the true anomaly is known:
      acos((e + c) / (1 + e c)) in degrees. It fails with a division error
      when 1 + e c = 0 and with a domain error when the quotient leaves
      [-1, 1]. A result E lies in [0, 180] and cos E (1 + e c) = e + c. */
  function EccentricAnomalyOfCosine(m: Math, e: real, c: real): (ea: Result<real>)
    requires Lawful(m)
    ensures ea.Ok? <==> (1.0 + e * c != 0.0 && -1.0 <= (e + c) / (1.0 + e * c) <= 1.0)
    ensures ea.Err? ==> ea.error == (if 1.0 + e * c == 0.0 then ZeroDivision else DomainError)
    ensures ea.Ok? ==> 0.0 <= ea.value <= 180.0
    ensures ea.Ok? ==> m.cos(Radians(m, ea.value)) * (1.0 + e * c) == e + c
  {
    var tmp :- Div(e + c, 1.0 + e * c);
    var a :- Acos(m, tmp);
    DegreesRange(m, a);
    RadiansOfDegrees(m, a);
    Ok(Degrees(m, a))
  }

  /** `solveforEccentricAnomoly`: the formula above applied to
      c = cos(v * degrees2radians), for eccentricity e and true anomaly v in
      degrees: it fails exactly as the formula does at c, and a result E
      lies in [0, 180] with cos E (1 + e c) = e + c. */
  function EccentricAnomaly(m: Math, e: real, v: real): (ea: Result<real>)
    requires Lawful(m)
    ensures ea.Ok? <==> (1.0 + e * m.cos(Radians(m, v)) != 0.0 &&
                         -1.0 <= (e + m.cos(Radians(m, v))) / (1.0 + e * m.cos(Radians(m, v))) <= 1.0)
    ensures ea.Err? ==> ea.error == (if 1.0 + e * m.cos(Radians(m, v)) == 0.0 then ZeroDivision else DomainError)
    ensures ea.Ok? ==> 0.0 <= ea.value <= 180.0
    ensures ea.Ok? ==> m.cos(Radians(m, ea.value)) * (1.0 + e * m.cos(Radians(m, v))) == e + m.cos(Radians(m, v))
  {
    EccentricAnomalyOfCosine(m, e, m.cos(Radians(m, v)))
  }

  /** On an ellipse or circle (0 <= e < 1) the formula never fails for any
      cosine: 1 + e c > 0, and the quotient lies in [-1, 1] because
      (1 + e c) - (e + c) = (1 - e)(1 - c) and (1 + e c) + (e + c) =
      (1 + e)(1 + c) are non-negative. */
  lemma EllipticCosineDefined(m: Math, e: real, c: real)
    requires Lawful(m) && 0.0 <= e < 1.0 && -1.0 <= c <= 1.0
    ensures EccentricAnomalyOfCosine(m, e, c).Ok?
  {
    EllipticQuotientInUnit(e, c);
  }

  lemma EllipticQuotientInUnit(e: real, c: real)
    requires 0.0 <= e < 1.0 && -1.0 <= c <= 1.0
    ensures 1.0 + e * c > 0.0 && -1.0 <= (e + c) / (1.0 + e * c) <= 1.0
  {
    var ec := e * c;
    ProductNonNegative(1.0 - e, 1.0 - c);
    ProductNonNegative(1.0 + e, 1.0 + c);
    ProductNonNegative(e, 1.0 + c);
    assert 1.0 + ec - (e + c) == (1.0 - e) * (1.0 - c);
    assert 1.0 + ec + (e + c) == (1.0 + e) * (1.0 + c);
    QuotientInUnit(e + c, 1.0 + ec);
  }

  lemma EllipticAnomalyDefined(m: Math, e: real, v: real)
    requires Lawful(m) && 0.0 <= e < 1.0
    ensures EccentricAnomaly(m, e, v).Ok?
  {
    EllipticCosineDefined(m, e, m.cos(Radians(m, v)));
  }

  /** At periapsis (v = 0) the eccentric anomaly is 0. */
  lemma EccentricAnomalyAtPeriapsis(m: Math, e: real)
    requires Lawful(m) && e != -1.0
    ensures EccentricAnomaly(m, e, 0.0) == Ok(0.0)
  {
    assert m.cos(Radians(m, 0.0)) == 1.0;
    var den := 1.0 + e * 1.0;
    QuotientUnique(e + 1.0, den, 1.0);
    assert m.acos(m.cos(0.0)) == 0.0;
  }

  /** At apoapsis (v = 180) of an orbit with e < 1 the eccentric anomaly
      is 180. */
  lemma EccentricAnomalyAtApoapsis(m: Math, e: real)
    requires Lawful(m) && e < 1.0
    ensures EccentricAnomaly(m, e, 180.0) == Ok(180.0)
  {
    assert m.cos(Radians(m, 180.0)) == -1.0;
    var den := 1.0 + e * -1.0;
    QuotientUnique(e + -1.0, den, -1.0);
    assert m.acos(m.cos(m.pi)) == m.pi;
  }

  /** On a circle (e = 0) the eccentric anomaly is the true anomaly. */
  lemma CircularEccentricAnomaly(m: Math, v: real)
    requires Lawful(m) && 0.0 <= v <= 180.0
    ensures EccentricAnomaly(m, 0.0, v) == Ok(v)
  {
    var x := Radians(m, v);
    RadiansMonotone(m, 0.0, v);
    RadiansMonotone(m, v, 180.0);
    assert m.acos(m.cos(x)) == x;
  }
}
