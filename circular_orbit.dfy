/** The speed of a circular orbit, equation 1.8-2
    (one_twoBodyOrbitalMecanics/one_08_circular_orbit.py). */
module CircularOrbit {
  import opened Maths
  import opened Earth
  import ConstantsOfTheMotion

  /** `circularSatelliteSpeed`: sqrt(mu / r). A zero radius is a division
      error and a negative one a square-root domain error, so the speed is
      defined exactly for r > 0, where it is positive and its square is
      mu / r. */
  function CircularSatelliteSpeed(m: Math, r: real, t: ReturnType): (v: Result<real>)
    requires Lawful(m)
    ensures v.Ok? <==> r > 0.0
    ensures v.Err? ==> v.error == (if r == 0.0 then ZeroDivision else DomainError)
    ensures v.Ok? ==> v.value > 0.0 && v.value * v.value == Mu(t) / r
  {
    var muOverR :- Div(Mu(t), r);
    assert r > 0.0 ==> muOverR > 0.0;
    assert r < 0.0 ==> muOverR < 0.0;
    Sqrt(m, muOverR)
  }

  /** In canonical units the circular speed at one Earth radius is one. */
  lemma CanonicalCircularSpeed(m: Math)
    requires Lawful(m)
    ensures CircularSatelliteSpeed(m, 1.0, Canonical) == Ok(1.0)
  {
    SqrtUnique(m, 1.0, 1.0);
  }

  /** Higher circular orbits are slower. */
  lemma CircularSpeedDecreasing(m: Math, r1: real, r2: real, t: ReturnType)
    requires Lawful(m) && 0.0 < r1 < r2
    ensures CircularSatelliteSpeed(m, r2, t).value < CircularSatelliteSpeed(m, r1, t).value
  {
    var v1, v2 := CircularSatelliteSpeed(m, r1, t).value, CircularSatelliteSpeed(m, r2, t).value;
    QuotientDecreasing(Mu(t), r1, r2);
    if v1 <= v2 {
      if v1 < v2 { SquareLess(v1, v2); }
    }
  }

  /** A circular orbit has specific energy -mu / (2 r): the vis-viva energy
      of an orbit whose semi-major axis is its radius. */
  lemma CircularOrbitEnergy(m: Math, r: real, t: ReturnType)
    requires Lawful(m) && r > 0.0
    ensures ConstantsOfTheMotion.SpecificMechanicalEnergy(CircularSatelliteSpeed(m, r, t).value, r, t)
              == Ok(-(Mu(t) / (2.0 * r)))
  {
    var vv := CircularSatelliteSpeed(m, r, t).value * CircularSatelliteSpeed(m, r, t).value;
    assert vv == Mu(t) / r;
    assert ConstantsOfTheMotion.SpecificMechanicalEnergy(CircularSatelliteSpeed(m, r, t).value, r, t).value
      == vv / 2.0 - Mu(t) / r;
    assert Mu(t) / (2.0 * r) == (Mu(t) / r) / 2.0;
  }
}
