/** The unit systems and the two Earth constants each one fixes
    (constants/earth.py). */
module Earth {

  /** The unit convention of every quantity passed to, and returned by, a
      formula. */
  datatype ReturnType = English | Metric | Canonical

  /** Gravitational parameter mu: ft^3/s^2, km^3/s^2, or 1 DU^3/TU^2. The
      lookup is total over the closed datatype, so the source's raising
      `else` branch has no counterpart. */
  function Mu(t: ReturnType): (mu: real)
    ensures mu > 0.0
    ensures t == Canonical ==> mu == 1.0
  {
    match t
    case English => 14076540000000000.0
    case Metric => 398601.2
    case Canonical => 1.0
  }

  /** Mean equatorial radius: ft, km, or the canonical distance unit. */
  function MeanEquatorialRadius(t: ReturnType): (r: real)
    ensures r > 0.0
    ensures t == Canonical ==> r == 1.0
  {
    match t
    case English => 20925672.57
    case Metric => 6378.145
    case Canonical => 1.0
  }

  /** The literal constants of the two physical unit systems. */
  lemma PhysicalConstants()
    ensures Mu(English) == 14076540000000000.0 && MeanEquatorialRadius(English) == 20925672.57
    ensures Mu(Metric) == 398601.2 && MeanEquatorialRadius(Metric) == 6378.145
  {
  }
}
