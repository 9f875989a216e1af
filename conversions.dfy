/** Scale factors between canonical units and physical units, and the
    degree / nautical-mile / kilometre factors (constants/conversions.py).
    Every conversion multiplies by a positive constant; the reverse direction
    multiplies by the reciprocal constant, as the source does. */
module Conversions {
  import Earth
  import opened Maths

  /** The physical units the canonical system converts to and from. */
  datatype Unit = Feet | Miles | NauticalMiles | Kilometers | Seconds | FeetPerSecond | KilometersPerSecond

  /** How many of `u` make one canonical unit (`c2ft`, `c2mi`, ..., `c2kmPerSec`). */
  function CanonicalFactor(u: Unit): (k: real)
    ensures k > 0.0
  {
    match u
    case Feet => 20925672.57
    case Miles => 3963.195563
    case NauticalMiles => 3443.922786
    case Kilometers => 6378.145
    case Seconds => 806.8118744
    case FeetPerSecond => 25936.24764
    case KilometersPerSecond => 7.90536828
  }

  /** `convertCanonical2Feet`, ..., `convertCanonical2KmPerSec`: c * factor.
      A positive factor makes the conversion preserve the sign of its input. */
  function FromCanonical(u: Unit, c: real): (x: real)
    ensures x == 0.0 <==> c == 0.0
    ensures x > 0.0 <==> c > 0.0
  {
    c * CanonicalFactor(u)
  }

  /** `convertFeet2Canonical`, ..., `convertKmPerSec2Canonical`: x times the
      precomputed reciprocal `1.0 / factor`. */
  function ToCanonical(u: Unit, x: real): (c: real)
    ensures c == 0.0 <==> x == 0.0
    ensures c > 0.0 <==> x > 0.0
  {
    x * (1.0 / CanonicalFactor(u))
  }

  /** Converting out of canonical units and back is the identity. */
  lemma FromCanonicalRoundTrip(u: Unit, c: real)
    ensures ToCanonical(u, FromCanonical(u, c)) == c
  {
    var p := CanonicalFactor(u) * (1.0 / CanonicalFactor(u));
    assert p == 1.0;
    assert c * CanonicalFactor(u) * (1.0 / CanonicalFactor(u)) == c * p;
  }

  /** Converting into canonical units and back is the identity. */
  lemma ToCanonicalRoundTrip(u: Unit, x: real)
    ensures FromCanonical(u, ToCanonical(u, x)) == x
  {
    var p := (1.0 / CanonicalFactor(u)) * CanonicalFactor(u);
    assert p == 1.0;
    assert x * (1.0 / CanonicalFactor(u)) * CanonicalFactor(u) == x * p;
  }

  /** Both directions are linear maps. */
  lemma ConversionsLinear(u: Unit, a: real, b: real, s: real)
    ensures FromCanonical(u, s * a + b) == s * FromCanonical(u, a) + FromCanonical(u, b)
    ensures ToCanonical(u, s * a + b) == s * ToCanonical(u, a) + ToCanonical(u, b)
  {
    var k, j := CanonicalFactor(u), 1.0 / CanonicalFactor(u);
    assert (s * a + b) * k == s * (a * k) + b * k;
    assert (s * a + b) * j == s * (a * j) + b * j;
  }

  /** Both directions preserve order (and so the overshoot/undershoot verdict
      that a caller reads off the sign of a converted miss distance). */
  lemma ConversionsMonotone(u: Unit, a: real, b: real)
    requires a <= b
    ensures FromCanonical(u, a) <= FromCanonical(u, b)
    ensures ToCanonical(u, a) <= ToCanonical(u, b)
  {
    var d := b - a;
    assert FromCanonical(u, b) - FromCanonical(u, a) == FromCanonical(u, d) by {
      ConversionsLinear(u, 1.0, d, a);
    }
    assert ToCanonical(u, b) - ToCanonical(u, a) == ToCanonical(u, d) by {
      ConversionsLinear(u, 1.0, d, a);
    }
  }

  /** One canonical distance unit is the Earth's mean equatorial radius in
      the English and metric systems. */
  lemma CanonicalDistanceIsEarthRadius()
    ensures FromCanonical(Feet, 1.0) == Earth.MeanEquatorialRadius(Earth.English)
    ensures FromCanonical(Kilometers, 1.0) == Earth.MeanEquatorialRadius(Earth.Metric)
  {
  }

  /** The canonical factors describe one consistent system, up to the
      rounding of the published constants: a distance unit is a speed unit
      times a time unit, a mile is 5280 feet, and the canonical time unit
      makes mu equal to one (distance unit cubed over time unit squared). */
  lemma CanonicalFactorsConsistent()
    ensures Abs(CanonicalFactor(FeetPerSecond) * CanonicalFactor(Seconds) - CanonicalFactor(Feet)) < 0.01
    ensures Abs(CanonicalFactor(KilometersPerSecond) * CanonicalFactor(Seconds) - CanonicalFactor(Kilometers)) < 0.000001
    ensures Abs(CanonicalFactor(Miles) * 5280.0 - CanonicalFactor(Feet)) < 0.01
    ensures Abs(NauticalMilesToKilometers(CanonicalFactor(NauticalMiles)) - CanonicalFactor(Kilometers)) < 0.000001
    ensures Abs(Cube(CanonicalFactor(Kilometers)) - Earth.Mu(Earth.Metric) * CanonicalFactor(Seconds) * CanonicalFactor(Seconds))
              < 0.000000001 * Earth.Mu(Earth.Metric) * CanonicalFactor(Seconds) * CanonicalFactor(Seconds)
  {
  }

  /** `convertDeg2NM`: one degree of great-circle arc is 60 nautical miles. */
  function DegreesToNauticalMiles(deg: real): (nm: real)
    ensures nm > 0.0 <==> deg > 0.0
  {
    deg * 60.0
  }

  /** `convertNM2KM`: a nautical mile is 1.852 km. */
  function NauticalMilesToKilometers(nm: real): (km: real)
    ensures km > 0.0 <==> nm > 0.0
  {
    nm * 1.852
  }

  /** `convertKM2NM`: km times the precomputed reciprocal of 1.852. */
  function KilometersToNauticalMiles(km: real): (nm: real)
    ensures nm > 0.0 <==> km > 0.0
  {
    km * (1.0 / 1.852)
  }

  /** `convertDEG2KM`: one degree of arc is 111.12 km. */
  function DegreesToKilometers(deg: real): (km: real)
    ensures km > 0.0 <==> deg > 0.0
  {
    deg * 111.12
  }

  /** nm -> km -> nm and km -> nm -> km are the identity. */
  lemma NauticalMilesKilometersRoundTrip(nm: real, km: real)
    ensures KilometersToNauticalMiles(NauticalMilesToKilometers(nm)) == nm
    ensures NauticalMilesToKilometers(KilometersToNauticalMiles(km)) == km
  {
  }

  /** The degree factors agree: 60 nm per degree at 1.852 km per nm is
      111.12 km per degree. */
  lemma DegreesToKilometersViaNauticalMiles(deg: real)
    ensures NauticalMilesToKilometers(DegreesToNauticalMiles(deg)) == DegreesToKilometers(deg)
  {
  }
}
