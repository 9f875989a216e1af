/** The two constants of two-body motion: specific mechanical energy
    (equation 1.4-2) and specific angular momentum (equations 1.4-3 and
    1.4-4), with the inverses the source solves for
    (one_twoBodyOrbitalMecanics/one_04_constants_of_the_motion.py). */
module ConstantsOfTheMotion {
  import opened Maths
  import opened Earth
  import opened Trig

  /** `solveForSpecificMechanicalEnergy`: v^2/2 - mu/r. A zero radius is a
      division by zero. The kinetic term makes the energy at least the
      potential term -mu/r. */
  function SpecificMechanicalEnergy(v: real, r: real, t: ReturnType): (e: Result<real>)
    ensures e.Ok? <==> r != 0.0
    ensures e.Err? ==> e.error == ZeroDivision
    ensures e.Ok? ==> Mu(t) / r + e.value >= 0.0
  {
    var potential :- Div(Mu(t), r);
    var kinetic := v * v / 2.0;
    assert kinetic >= 0.0;
    Ok(kinetic - potential)
  }

  /** `solveForVelocityFromSpecificEnergy`: sqrt(2 (mu/r + energy)). It
      fails with a division error at r = 0 and with a domain error when the
      radicand is negative, i.e. when the energy lies below -mu/r. */
  function VelocityFromSpecificEnergy(m: Math, energy: real, r: real, t: ReturnType): (v: Result<real>)
    requires Lawful(m)
    ensures v.Ok? <==> r != 0.0 && Mu(t) / r + energy >= 0.0
    ensures v.Err? ==> v.error == (if r == 0.0 then ZeroDivision else DomainError)
    ensures v.Ok? ==> v.value >= 0.0 && v.value * v.value / 2.0 - Mu(t) / r == energy
  {
    var potential :- Div(Mu(t), r);
    Sqrt(m, 2.0 * (potential + energy))
  }

  /** Energy then velocity recovers the speed: the magnitude of v. */
  lemma VelocityOfEnergy(m: Math, v: real, r: real, t: ReturnType)
    requires Lawful(m) && r != 0.0
    ensures VelocityFromSpecificEnergy(m, SpecificMechanicalEnergy(v, r, t).value, r, t) == Ok(Abs(v))
  {
    var e := SpecificMechanicalEnergy(v, r, t).value;
    var vv := v * v;
    assert 2.0 * (Mu(t) / r + e) == vv;
    assert Abs(v) * Abs(v) == vv;
    SqrtUnique(m, vv, Abs(v));
  }

  /** Velocity then energy recovers the energy. */
  lemma EnergyOfVelocity(m: Math, energy: real, r: real, t: ReturnType)
    requires Lawful(m) && r != 0.0 && Mu(t) / r + energy >= 0.0
    ensures SpecificMechanicalEnergy(VelocityFromSpecificEnergy(m, energy, r, t).value, r, t) == Ok(energy)
  {
  }

  /** `solveForAngularMomentum`: h = v r, for a velocity perpendicular to the
      radius. It vanishes exactly when the speed or the radius does. */
  function AngularMomentum(v: real, r: real): (h: real)
    ensures h == 0.0 <==> v == 0.0 || r == 0.0
  {
    ProductZero(v, r);
    v * r
  }

  /** `solveForAngularmoment`: h = v r cos(fpa), fpa in degrees. A flight
      path angle never increases the magnitude beyond that of v r. */
  function AngularMomentumAt(m: Math, v: real, r: real, fpa: real): (h: real)
    requires Lawful(m)
    ensures Abs(h) <= Abs(AngularMomentum(v, r))
  {
    MulAbsBound(AngularMomentum(v, r), m.cos(Radians(m, fpa)));
    AngularMomentum(v, r) * m.cos(Radians(m, fpa))
  }

  /** A horizontal velocity (fpa = 0) gives the perpendicular form. */
  lemma AngularMomentumLevelFlight(m: Math, v: real, r: real)
    requires Lawful(m)
    ensures AngularMomentumAt(m, v, r, 0.0) == AngularMomentum(v, r)
  {
  }

  /** `solveForFPAFromAngularMomentum`: acos(h / (r v)) in degrees. It fails
      with a division error when r v = 0 and with a domain error when
      |h / (r v)| > 1. A result is an angle in [0, 180] at which the angular
      momentum of (v, r) is h. */
  function FpaFromAngularMomentum(m: Math, h: real, v: real, r: real): (fpa: Result<real>)
    requires Lawful(m)
    ensures fpa.Ok? <==> r * v != 0.0 && -1.0 <= h / (r * v) <= 1.0
    ensures fpa.Err? ==> fpa.error == (if r * v == 0.0 then ZeroDivision else DomainError)
    ensures fpa.Ok? ==> 0.0 <= fpa.value <= 180.0
    ensures fpa.Ok? ==> AngularMomentumAt(m, v, r, fpa.value) == h
  {
    var hOverRv :- Div(h, r * v);
    var a :- Acos(m, hOverRv);
    DegreesRange(m, a);
    RadiansOfDegrees(m, a);
    MomentumOfQuotient(v, r, h, hOverRv);
    Ok(Degrees(m, a))
  }

  /** x = h / (r v) scales the perpendicular angular momentum back to h. */
  lemma MomentumOfQuotient(v: real, r: real, h: real, x: real)
    requires x * (r * v) == h
    ensures AngularMomentum(v, r) * x == h
  {
  }

  /** For a flight path angle in [0, 180] and r v != 0, the angular momentum
      it gives leads back to the same angle. */
  lemma FpaOfAngularMomentum(m: Math, v: real, r: real, fpa: real)
    requires Lawful(m) && r * v != 0.0 && 0.0 <= fpa <= 180.0
    ensures FpaFromAngularMomentum(m, AngularMomentumAt(m, v, r, fpa), v, r) == Ok(fpa)
  {
    RadiansMonotone(m, 0.0, fpa);
    RadiansMonotone(m, fpa, 180.0);
    QuotientOfMomentum(m, v, r, fpa);
    assert Acos(m, m.cos(Radians(m, fpa))) == Ok(Radians(m, fpa));
  }

  /** Dividing the angular momentum at fpa by r v gives cos(fpa) back. */
  lemma QuotientOfMomentum(m: Math, v: real, r: real, fpa: real)
    requires Lawful(m) && r * v != 0.0
    ensures Div(AngularMomentumAt(m, v, r, fpa), r * v) == Ok(m.cos(Radians(m, fpa)))
  {
    QuotientUnique(AngularMomentumAt(m, v, r, fpa), r * v, m.cos(Radians(m, fpa)));
  }

  /** The canonical test firing: burnout at height 1/5 with speed 2/3 and
      apogee at height 1/2. The energy is -11/18, the apogee speed 1/3, the
      apogee angular momentum 1/2 and the burnout flight path angle is the
      one whose cosine is 5/8. */
  lemma CanonicalTestFiring(m: Math)
    requires Lawful(m)
    ensures SpecificMechanicalEnergy(2.0 / 3.0, MeanEquatorialRadius(Canonical) + 1.0 / 5.0, Canonical)
              == Ok(-11.0 / 18.0)
    ensures VelocityFromSpecificEnergy(m, -11.0 / 18.0, MeanEquatorialRadius(Canonical) + 0.5, Canonical)
              == Ok(1.0 / 3.0)
    ensures AngularMomentum(1.0 / 3.0, MeanEquatorialRadius(Canonical) + 0.5) == 0.5
    ensures FpaFromAngularMomentum(m, 0.5, 2.0 / 3.0, MeanEquatorialRadius(Canonical) + 1.0 / 5.0).Ok?
    ensures m.cos(Radians(m, FpaFromAngularMomentum(m, 0.5, 2.0 / 3.0, 6.0 / 5.0).value)) == 5.0 / 8.0
  {
    SqrtUnique(m, 1.0 / 9.0, 1.0 / 3.0);
    var fpa := FpaFromAngularMomentum(m, 0.5, 2.0 / 3.0, 6.0 / 5.0).value;
    assert AngularMomentum(2.0 / 3.0, 6.0 / 5.0) == 4.0 / 5.0;
    assert 4.0 / 5.0 * m.cos(Radians(m, fpa)) == 0.5;
  }
}
