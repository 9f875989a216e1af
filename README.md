# Ballistic missile and two-body formulas, modelled in Dafny

This project models the closed-form astrodynamics layer of BMW_test_package.
That layer implements the formulas of Bate, Mueller and White,
*Fundamentals of Astrodynamics*. It covers:

- **Constants.** The unit systems (English, metric, canonical) with the Earth's
  gravitational parameter mu and mean equatorial radius, the degree/radian
  factors with `csc` and `cot`, and the canonical-unit conversion table.
- **Two-body motion.** Specific mechanical energy and angular momentum with
  their inverses, circular satellite speed, and the eccentric anomaly from the
  true anomaly.
- **The general ballistic missile problem (section 6.2).** The nondimensional
  burnout parameter Q, the semi-major axis, the ellipse radius and anomaly,
  the free-flight angle in its three call forms, the two flight path angles for
  a given range, maximum range, and free-flight time.
- **Launching errors (section 6.3).** Cross-range errors (exact and
  small-angle), the down-range angle, and the influence coefficients of
  flight path angle, burnout height and burnout speed.

Each module is one source file, and each formula is a pure function over
`real`. A Python exception becomes an `Err` of `Maths.Result`:

- `ZeroDivision` stands for a float division by zero.
- `DomainError` stands for `math.sqrt`, `math.acos` or `math.asin` outside
  their domain.
- `OutOfBounds` stands for the explicit raise of the free-flight clamp.
- `NoMatchingSignature` stands for a `multipledispatch` call that matches no
  registered signature.

The `math` module cannot be computed in Dafny, so every formula receives a
value `m: Maths.Math` holding pi, sin, cos, asin, acos and sqrt.
`Maths.Lawful(m)` lists the facts about them that the proofs use:

- the bounds of sine and cosine, and sin² + cos² = 1;
- cos 0 = 1 and cos pi = -1;
- the inverse-function identities on the principal ranges;
- sine is positive on (0, pi);
- the square root squares back;
- 3.14 < pi < 3.15.

Two more facts are separate assumptions, each required only where it is used:

- `Maths.DoubleAngle(m)`, the double-angle formula for sine. Only the
  down-range angle needs it.
- `Maths.SineSymmetry(m)`: supplementary angles have equal sines. The two
  burnout flight path angles of a range need it, and so do the maximum-range
  results.

Every one of these facts holds for the real functions.

Files:

- `maths.dfy`: the library value, `Result`, the wrappers `Div`, `Sqrt`, `Acos`
  and `Asin`, and facts about real arithmetic.
- `earth.dfy`, `trig.dfy`, `conversions.dfy`: the constants.
- `constants_of_the_motion.dfy`, `circular_orbit.dfy`, `time_of_flight.dfy`:
  two-body motion.
- `ballistic_missile.dfy`: section 6.2.
- `launching_errors.dfy`: section 6.3.

## Model

| member | source | states |
|---|---|---|
| Earth.Mu | constants/earth.py:21-36 | mu is defined and positive for every unit system, and it is 1 in canonical units |
| Earth.MeanEquatorialRadius | constants/earth.py:39-54 | the radius is defined and positive for every unit system, and it is 1 in canonical units |
| Earth.PhysicalConstants | constants/earth.py:10-18 | English and metric mu and radius have the published values 1.407654e16, 2.092567257e7, 3.986012e5 and 6378.145 |
| Trig.DegreesToRadians | constants/trig.py:5 | the degree-to-radian factor is positive |
| Trig.RadiansToDegrees | constants/trig.py:6 | the radian-to-degree factor is positive and is the reciprocal of the degree-to-radian factor |
| Trig.PiOver2 | constants/trig.py:5-7 | pi/2 is 90 degrees converted to radians, and 180 degrees is pi |
| Trig.Csc | constants/trig.py:10-17 | csc is defined exactly where sine is non-zero (otherwise a division error) and is the reciprocal of sine |
| Trig.Cot | constants/trig.py:20-27 | cot is defined exactly where sine is non-zero (otherwise a division error), and cot times sine is cosine |
| Trig.CotIsCosTimesCsc | constants/trig.py:10-27 | where sine is non-zero, cot = cos * csc |
| Trig.DegreesRoundTrip | constants/trig.py:5-6 | degrees -> radians -> degrees is the identity |
| Trig.RadiansRoundTrip | constants/trig.py:5-6 | radians -> degrees -> radians is the identity |
| Trig.Radians | constants/trig.py:5 | conversion to radians maps 0, 90 and 180 degrees to 0, pi/2 and pi, and is undone by `Degrees` |
| Trig.Degrees | constants/trig.py:6 | conversion to degrees maps 0 and pi to 0 and 180 |
| Trig.RadiansOfDegrees | constants/trig.py:5-6 | `Radians` undoes `Degrees` |
| Trig.RadiansMonotone | constants/trig.py:5 | conversion to radians preserves and reflects order, strict and non-strict |
| Trig.DegreesMonotone | constants/trig.py:6 | conversion to degrees preserves and reflects order, strict and non-strict |
| Trig.RadiansLinear | constants/trig.py:5 | conversion to radians commutes with sums, differences and halving |
| Trig.DegreesLinear | constants/trig.py:6 | conversion to degrees commutes with sums, differences and halving |
| Trig.DegreesRange | constants/trig.py:6 | radians in [0, pi] become degrees in [0, 180] |
| Conversions.CanonicalFactor | constants/conversions.py:10-189 | every canonical-unit factor (feet, miles, nm, km, s, ft/s, km/s) is positive |
| Conversions.FromCanonical | constants/conversions.py:14-22 | each `convertCanonical2*` maps zero to zero and preserves the sign of its input |
| Conversions.ToCanonical | constants/conversions.py:37-45 | each `convert*2Canonical` maps zero to zero and preserves the sign of its input |
| Conversions.FromCanonicalRoundTrip | constants/conversions.py:10-45 | converting out of canonical units and back returns the input, for all seven units |
| Conversions.ToCanonicalRoundTrip | constants/conversions.py:10-45 | converting into canonical units and back returns the input, for all seven units |
| Conversions.ConversionsLinear | constants/conversions.py:10-212 | both directions are linear maps |
| Conversions.ConversionsMonotone | constants/conversions.py:10-212 | both directions preserve order |
| Conversions.CanonicalDistanceIsEarthRadius | constants/conversions.py:10-11 | one canonical distance unit is the Earth's mean equatorial radius in feet and in km |
| Conversions.CanonicalFactorsConsistent | constants/conversions.py:10-189 | the published factors are mutually consistent up to their rounding: speed unit times time unit is the distance unit, a mile is 5280 ft, 1 DU in nm is 1 DU in km, and the time unit makes mu = 1 |
| Conversions.DegreesToNauticalMiles | constants/conversions.py:215-225 | a positive arc gives a positive distance, and only a positive arc does |
| Conversions.NauticalMilesToKilometers | constants/conversions.py:228-238 | nm to km preserves positivity both ways |
| Conversions.KilometersToNauticalMiles | constants/conversions.py:241-251 | km to nm preserves positivity both ways |
| Conversions.DegreesToKilometers | constants/conversions.py:254-264 | degrees to km preserves positivity both ways |
| Conversions.NauticalMilesKilometersRoundTrip | constants/conversions.py:228-251 | nm -> km -> nm and km -> nm -> km are the identity |
| Conversions.DegreesToKilometersViaNauticalMiles | constants/conversions.py:215-264 | degrees to km equals degrees to nm followed by nm to km |
| ConstantsOfTheMotion.SpecificMechanicalEnergy | one_twoBodyOrbitalMecanics/one_04_constants_of_the_motion.py:7-21 | energy fails exactly at r = 0, with a division error, and is never below the potential term -mu/r |
| ConstantsOfTheMotion.VelocityFromSpecificEnergy | one_twoBodyOrbitalMecanics/one_04_constants_of_the_motion.py:24-39 | speed is defined exactly when r != 0 and energy >= -mu/r (division error at r = 0, domain error otherwise), is non-negative, and satisfies the energy equation |
| ConstantsOfTheMotion.VelocityOfEnergy | one_twoBodyOrbitalMecanics/one_04_constants_of_the_motion.py:7-39 | speed from the energy of (v, r) is \|v\| |
| ConstantsOfTheMotion.EnergyOfVelocity | one_twoBodyOrbitalMecanics/one_04_constants_of_the_motion.py:7-39 | energy of the speed obtained from an energy is that energy |
| ConstantsOfTheMotion.AngularMomentum | one_twoBodyOrbitalMecanics/one_04_constants_of_the_motion.py:42-53 | h vanishes exactly when v or r does |
| ConstantsOfTheMotion.AngularMomentumAt | one_twoBodyOrbitalMecanics/one_04_constants_of_the_motion.py:56-70 | a flight path angle never makes \|h\| exceed \|v r\| |
| ConstantsOfTheMotion.AngularMomentumLevelFlight | one_twoBodyOrbitalMecanics/one_04_constants_of_the_motion.py:42-70 | at fpa = 0 the general form equals v r |
| ConstantsOfTheMotion.FpaFromAngularMomentum | one_twoBodyOrbitalMecanics/one_04_constants_of_the_motion.py:73-87 | defined exactly when r v != 0 and \|h/(r v)\| <= 1 (division and domain errors otherwise); the angle lies in [0, 180] and gives back h |
| ConstantsOfTheMotion.FpaOfAngularMomentum | one_twoBodyOrbitalMecanics/one_04_constants_of_the_motion.py:56-87 | for fpa in [0, 180] and r v != 0, angle -> h -> angle is the identity |
| ConstantsOfTheMotion.CanonicalTestFiring | bmw_test_package/chapter_tests/chapter_06/six_02_tests.py:27-54 | the canonical test firing gives energy -11/18, apogee speed 1/3, angular momentum 1/2 and a burnout angle with cosine 5/8, exactly |
| CircularOrbit.CircularSatelliteSpeed | one_twoBodyOrbitalMecanics/one_08_circular_orbit.py:7-19 | defined exactly for r > 0 (division error at 0, domain error below); the speed is positive and its square is mu/r |
| CircularOrbit.CanonicalCircularSpeed | one_twoBodyOrbitalMecanics/one_08_circular_orbit.py:7-19 | canonical speed at r = 1 is 1 |
| CircularOrbit.CircularSpeedDecreasing | one_twoBodyOrbitalMecanics/one_08_circular_orbit.py:7-19 | circular speed strictly decreases as r grows |
| CircularOrbit.CircularOrbitEnergy | one_twoBodyOrbitalMecanics/one_08_circular_orbit.py:7-19 | a circular orbit has energy -mu/(2r) |
| TimeOfFlight.EccentricAnomalyOfCosine | four_position_and_velocity_a_funcion_of_time/four_02_time_of_flight_eccentric_anomoly.py:17-19 | defined exactly when 1 + e c != 0 and the quotient lies in [-1, 1] (division and domain errors otherwise); E is in [0, 180] and cos E (1 + e c) = e + c |
| TimeOfFlight.EccentricAnomaly | four_position_and_velocity_a_funcion_of_time/four_02_time_of_flight_eccentric_anomoly.py:6-19 | with c = cos v: fails with a division error exactly when 1 + e c = 0, and with a domain error exactly when (e + c)/(1 + e c) leaves [-1, 1]; otherwise E lies in [0, 180] and cos E (1 + e c) = e + c |
| TimeOfFlight.EllipticCosineDefined | four_position_and_velocity_a_funcion_of_time/four_02_time_of_flight_eccentric_anomoly.py:17-19 | for 0 <= e < 1 and any cosine the acos argument is legal |
| TimeOfFlight.EllipticAnomalyDefined | four_position_and_velocity_a_funcion_of_time/four_02_time_of_flight_eccentric_anomoly.py:6-19 | for 0 <= e < 1 the function never fails |
| TimeOfFlight.EccentricAnomalyAtPeriapsis | four_position_and_velocity_a_funcion_of_time/four_02_time_of_flight_eccentric_anomoly.py:6-19 | v = 0 gives E = 0 |
| TimeOfFlight.EccentricAnomalyAtApoapsis | four_position_and_velocity_a_funcion_of_time/four_02_time_of_flight_eccentric_anomoly.py:6-19 | for e < 1, v = 180 gives E = 180 |
| TimeOfFlight.CircularEccentricAnomaly | four_position_and_velocity_a_funcion_of_time/four_02_time_of_flight_eccentric_anomoly.py:6-19 | on a circle E equals v for v in [0, 180] |
| BallisticMissile.NondimensionalParameter | six_ballisticMissileTrajectories/six_02_general_ballistic_missile_problem.py:9-28 | Q is non-negative for r >= 0 and vanishes exactly when v or r does |
| BallisticMissile.VelocityFromNondimensionalParameter | six_ballisticMissileTrajectories/six_02_general_ballistic_missile_problem.py:31-44 | defined exactly when r != 0 and q/r >= 0 (division and domain errors otherwise); v >= 0 and v² = mu q / r |
| BallisticMissile.NondimensionalParameterOfVelocity | six_ballisticMissileTrajectories/six_02_general_ballistic_missile_problem.py:9-44 | Q of the speed obtained from q is q |
| BallisticMissile.VelocityOfNondimensionalParameter | six_ballisticMissileTrajectories/six_02_general_ballistic_missile_problem.py:9-44 | speed from Q of (v, r) is \|v\| |
| BallisticMissile.NondimensionalParameterFromCircularSpeed | six_ballisticMissileTrajectories/six_02_general_ballistic_missile_problem.py:47-60 | (v / v_cs)² is defined exactly for r > 0 (errors from the circular speed otherwise) and then equals Q by equation 6.2-1 |
| BallisticMissile.CircularSpeedNondimensionalParameter | six_ballisticMissileTrajectories/six_02_general_ballistic_missile_problem.py:9-28 | circular speed has Q = 1 |
| BallisticMissile.SemiMajorAxis | six_ballisticMissileTrajectories/six_02_general_ballistic_missile_problem.py:63-73 | defined exactly for Q != 2 (division error), and a (2 - Q) = r |
| BallisticMissile.NondimensionalParameterFromSemiMajorAxis | six_ballisticMissileTrajectories/six_02_general_ballistic_missile_problem.py:76-87 | defined exactly for a != 0 (division error), and (2 - Q) a = r |
| BallisticMissile.SemiMajorAxisRoundTrip | six_ballisticMissileTrajectories/six_02_general_ballistic_missile_problem.py:63-87 | Q -> a -> Q is the identity for r != 0, Q != 2 |
| BallisticMissile.NondimensionalParameterRoundTrip | six_ballisticMissileTrajectories/six_02_general_ballistic_missile_problem.py:63-87 | a -> Q -> a is the identity for r, a != 0 |
| BallisticMissile.VisViva | six_ballisticMissileTrajectories/six_02_general_ballistic_missile_problem.py:9-73 | the energy of (v, r) is -mu/(2a) with a from Q, which ties section 6.2 to equation 1.4-2 |
| BallisticMissile.RadiusOfEllipseOfCosine | six_ballisticMissileTrajectories/six_02_general_ballistic_missile_problem.py:101-102 | defined exactly when 1 + e c != 0 (division error), and r (1 + e c) = p |
| BallisticMissile.RadiusOfEllipse | six_ballisticMissileTrajectories/six_02_general_ballistic_missile_problem.py:90-103 | fails (division error) exactly when 1 + e cos v = 0, and otherwise r (1 + e cos v) = p; at v = 0 and v = 180 it is p/(1+e) and p/(1-e), including their errors |
| BallisticMissile.AnomalyOfEllipse | six_ballisticMissileTrajectories/six_02_general_ballistic_missile_problem.py:106-119 | corrected form: defined exactly when e r != 0 and the cosine lies in [-1, 1]; the angle is in [0, 180] with cosine (p - r)/(e r) |
| BallisticMissile.AnomalyOfEllipseAsWritten | six_ballisticMissileTrajectories/six_02_general_ballistic_missile_problem.py:106-119 | as written (cos, not acos): fails only when e r = 0, and the result is bounded by 180/pi in size, so it is not an angle in [0, 180] |
| BallisticMissile.AnomalyOfRadiusAtCosine | six_ballisticMissileTrajectories/six_02_general_ballistic_missile_problem.py:90-119 | the corrected anomaly recovers acos c from the radius at cosine c |
| BallisticMissile.AnomalyOfEllipseOfCosine | six_ballisticMissileTrajectories/six_02_general_ballistic_missile_problem.py:106-119 | if (p - r)/(e r) = c in [-1, 1] the corrected anomaly is acos c in degrees |
| BallisticMissile.AnomalyOfRadius | six_ballisticMissileTrajectories/six_02_general_ballistic_missile_problem.py:90-119 | anomaly -> radius -> anomaly is the identity on [0, 180] for the corrected form |
| BallisticMissile.AnomalyOfEllipseAsWrittenMissesRightAngle | six_ballisticMissileTrajectories/six_02_general_ballistic_missile_problem.py:90-119 | at v = 90 the as-written anomaly does not return 90, the corrected one does |
| BallisticMissile.FreeFlightAngleFromAnomaly | six_ballisticMissileTrajectories/six_02_general_ballistic_missile_problem.py:122-134 | psi is in [0, 360] and cos(psi/2) = -cos v_bo (equation 6.2-7) |
| BallisticMissile.DoubledInDegrees | six_ballisticMissileTrajectories/six_02_general_ballistic_missile_problem.py:134 | twice a half-angle in degrees: halving it gives the radian half-angle back, and it maps [0, pi], (0, pi) and [-pi/2, pi/2] into [0, 360], (0, 360) and [-180, 180] |
| BallisticMissile.AnomalyAtBurnout | six_ballisticMissileTrajectories/six_02_general_ballistic_missile_problem.py:137-149 | v_bo is in [0, 180] and cos v_bo = -cos(psi/2) |
| BallisticMissile.FreeFlightAngleOfAnomalyAtBurnout | six_ballisticMissileTrajectories/six_02_general_ballistic_missile_problem.py:122-149 | psi -> v_bo -> psi is the identity on [0, 360] |
| BallisticMissile.AnomalyAtBurnoutOfFreeFlightAngle | six_ballisticMissileTrajectories/six_02_general_ballistic_missile_problem.py:122-149 | v_bo -> psi -> v_bo is the identity on [0, 180] |
| BallisticMissile.ClampCosine | six_ballisticMissileTrajectories/six_02_general_ballistic_missile_problem.py:173-180 | in-range values pass unchanged; a value above 1 within isclose of 1 becomes exactly 1, and one below -1 within isclose of -1 becomes exactly -1; any other value raises (out of bounds), and only those |
| BallisticMissile.RadicandExceedsSquare | six_ballisticMissileTrajectories/six_02_general_ballistic_missile_problem.py:165-171 | den² - num² = Q² c² (1 - c²) >= 0, so the radicand is never negative |
| BallisticMissile.FreeFlightCosineBounds | six_ballisticMissileTrajectories/six_02_general_ballistic_missile_problem.py:165-180 | the denominator is zero exactly when Q = 1 and cos² fpa = 1, and otherwise num/den lies in [-1, 1], so the clamp's raise is unreachable in exact arithmetic |
| BallisticMissile.FreeFlightHalfAngleCosine | six_ballisticMissileTrajectories/six_02_general_ballistic_missile_problem.py:165-171 | cos(psi/2) of equation 6.2-12 fails (division error) exactly when Q = 1 and cos² fpa = 1, and is otherwise a cosine |
| BallisticMissile.HalfAngleQuotient | six_ballisticMissileTrajectories/six_02_general_ballistic_missile_problem.py:169-171 | the quotient fails exactly when the root vanishes and otherwise lies in [-1, 1] |
| BallisticMissile.FreeFlightAngleOfCosine | six_ballisticMissileTrajectories/six_02_general_ballistic_missile_problem.py:152-186 | given cos fpa: fails exactly when Q = 1 and cos² fpa = 1; psi is in [0, 360] with cos(psi/2) from equation 6.2-12 |
| BallisticMissile.FreeFlightAngleFromQAndFpa | six_ballisticMissileTrajectories/six_02_general_ballistic_missile_problem.py:152-186 | two-argument form: fails (division error) exactly when Q = 1 and the burnout is horizontal or vertical; psi is in [0, 360] and solves equation 6.2-12 |
| BallisticMissile.CircularHorizontalBurnoutUndefined | six_ballisticMissileTrajectories/six_02_general_ballistic_missile_problem.py:165-171 | circular speed with a horizontal burnout is a division error |
| BallisticMissile.FreeFlightAngleFromBurnout | six_ballisticMissileTrajectories/six_02_general_ballistic_missile_problem.py:189-204 | four-argument form: fails (division error) exactly when v² r = mu and sin fpa = 0; otherwise psi is in [0, 360] and cos(psi/2) solves equation 6.2-12 at Q = v² r / mu |
| BallisticMissile.BurnoutFailure | six_ballisticMissileTrajectories/six_02_general_ballistic_missile_problem.py:189-204 | the two-argument form at Q = v² r / mu fails exactly when v² r = mu and sin fpa = 0 |
| BallisticMissile.HalfAngleOfFreeFlight | six_ballisticMissileTrajectories/six_02_general_ballistic_missile_problem.py:165-186 | a result of the two-argument form has cos(psi/2) sqrt(1 + Q(Q - 2) cos² fpa) = 1 - Q cos² fpa (equation 6.2-12) |
| BallisticMissile.SolveForFreeFlightAngleAsWritten | six_ballisticMissileTrajectories/six_02_general_ballistic_missile_problem.py:122-204 | the name as bound by the module: a one-argument call matches no signature, the other forms give angles in [0, 360] |
| BallisticMissile.SolveForFreeFlightAngle | six_ballisticMissileTrajectories/six_02_general_ballistic_missile_problem.py:122-204 | corrected dispatch: the same as written for two and four arguments, and only division errors |
| BallisticMissile.OneArgumentFormUnreachable | six_ballisticMissileTrajectories/six_02_general_ballistic_missile_problem.py:122-152 | a one-argument call fails as written but returns psi when dispatched to equation 6.2-7 |
| BallisticMissile.FlightPathAnglesOfAsin | six_ballisticMissileTrajectories/six_02_general_ballistic_missile_problem.py:224-234 | the two roots sum to 90 - psi/2 and are the two supplementary arcsine branches |
| BallisticMissile.FlightPathAnglesOfRightSide | six_ballisticMissileTrajectories/six_02_general_ballistic_missile_problem.py:219-234 | defined exactly when the right side is in [-1, 1] (domain error); both angles solve sin(2 fpa + psi/2) = right side and sum to 90 - psi/2; for the first, 2 fpa + psi/2 is asin(right side), in [-pi/2, pi/2], and for the second it is pi minus that |
| BallisticMissile.FlightPathAngles | six_ballisticMissileTrajectories/six_02_general_ballistic_missile_problem.py:207-234 | defined exactly when Q != 0 and the right side of equation 6.2-16 is in [-1, 1]; both angles solve it and they sum to 90 - psi/2; the first is the principal asin root and the second its supplement, in the order the source returns them |
| BallisticMissile.MaxBurnoutFpa | six_ballisticMissileTrajectories/six_02_general_ballistic_missile_problem.py:237-248 | for psi in [0, 180] the maximum-range angle is in [0, 45] |
| BallisticMissile.FlightPathAnglesAverage | six_ballisticMissileTrajectories/six_02_general_ballistic_missile_problem.py:207-248 | the two flight path angles average to the maximum-range angle |
| BallisticMissile.MaxRangeAngle | six_ballisticMissileTrajectories/six_02_general_ballistic_missile_problem.py:251-262 | defined exactly when Q != 2 and Q/(2 - Q) is in [-1, 1]; psi is in [-180, 180] with sin(psi/2) = Q/(2 - Q) |
| BallisticMissile.RequiredQOfSine | six_ballisticMissileTrajectories/six_02_general_ballistic_missile_problem.py:276-278 | defined exactly when sin(psi/2) != -1, and Q (1 + s) = 2 s |
| BallisticMissile.RequiredQAtMaxRange | six_ballisticMissileTrajectories/six_02_general_ballistic_missile_problem.py:265-278 | with s = sin(psi/2): fails (division error) exactly when s = -1, and otherwise Q (1 + s) = 2 s; for psi in [0, 180] the required Q is defined and lies in [0, 1] |
| BallisticMissile.MaxRangeOfRequiredQ | six_ballisticMissileTrajectories/six_02_general_ballistic_missile_problem.py:251-278 | psi -> required Q -> maximum range angle is the identity on [0, 180] |
| BallisticMissile.RequiredQOfMaxRange | six_ballisticMissileTrajectories/six_02_general_ballistic_missile_problem.py:251-278 | Q -> maximum range angle -> required Q is the identity on [0, 1] |
| BallisticMissile.EccentricAnomalyFromMaxRange | six_ballisticMissileTrajectories/six_02_general_ballistic_missile_problem.py:281-295 | it is the eccentric-anomaly formula at cosine -cos(psi/2), and never fails on an ellipse |
| BallisticMissile.EccentricAnomalyAtBurnout | six_ballisticMissileTrajectories/six_02_general_ballistic_missile_problem.py:137-149 | it equals the eccentric anomaly of the true anomaly at burnout (equation 4.2-8) |
| BallisticMissile.TimeOfFreeFlight | six_ballisticMissileTrajectories/six_02_general_ballistic_missile_problem.py:298-315 | defined exactly when a >= 0 (domain error); non-negative for E in [0, 180], and zero at E = 180 |
| BallisticMissile.TimeOfFreeFlightIsMeanMotion | six_ballisticMissileTrajectories/six_02_general_ballistic_missile_problem.py:298-315 | for a > 0 and every E: time × circular speed at a = 2 a (pi - (E - e sin E)), so the time is 2 (pi - M) / n with mean anomaly M and mean motion n |
| BallisticMissile.FreeFlightTime | six_ballisticMissileTrajectories/six_02_general_ballistic_missile_problem.py:318-332 | defined exactly when r >= 0 (domain error) and non-negative |
| BallisticMissile.TimeOfFreeFlightFromPerigee | six_ballisticMissileTrajectories/six_02_general_ballistic_missile_problem.py:298-332 | from E = 0 the time of free flight is the full orbital period 2 pi sqrt(a³/mu) |
| BallisticMissile.FreeFlightTimeIsCircularPeriod | six_ballisticMissileTrajectories/six_02_general_ballistic_missile_problem.py:318-332 | that period times the circular speed is the circumference 2 pi r |
| LaunchingErrors.CrossRangeCosine | six_ballisticMissileTrajectories/six_03_launching_errors_on_range.py:25 | the law-of-cosines value (also line 65) is a cosine, never below the cutoff error's cosine, and 1 when that cosine is 1 |
| LaunchingErrors.AngleOfCosine | six_ballisticMissileTrajectories/six_03_launching_errors_on_range.py:26 | acos in degrees lies in [0, 180] and its cosine is the input |
| LaunchingErrors.CrossRangeErrorLateral | six_ballisticMissileTrajectories/six_03_launching_errors_on_range.py:7-26 | never fails; the error is in [0, 180], solves equation 6.3-1 and never exceeds the cutoff error |
| LaunchingErrors.CrossRangeErrorAzimuthal | six_ballisticMissileTrajectories/six_03_launching_errors_on_range.py:47-66 | never fails; the error is in [0, 180], solves equation 6.3-3 and never exceeds the azimuth error |
| LaunchingErrors.LateralErrorZero | six_ballisticMissileTrajectories/six_03_launching_errors_on_range.py:7-26 | zero lateral error gives zero cross-range error |
| LaunchingErrors.AzimuthalErrorZero | six_ballisticMissileTrajectories/six_03_launching_errors_on_range.py:47-66 | zero azimuth error gives zero cross-range error |
| LaunchingErrors.AzimuthalErrorAtLaunchAndAntipode | six_ballisticMissileTrajectories/six_03_launching_errors_on_range.py:47-66 | at range 0 or 180 an azimuth error causes no cross-range error |
| LaunchingErrors.CrossRangeErrorLateralSmallAngle | six_ballisticMissileTrajectories/six_03_launching_errors_on_range.py:29-44 | the small-angle lateral error is dx cos psi and never exceeds \|dx\| |
| LaunchingErrors.CrossRangeErrorAzimuthalSmallAngle | six_ballisticMissileTrajectories/six_03_launching_errors_on_range.py:69-84 | the small-angle azimuthal error is db sin psi and never exceeds \|db\| |
| LaunchingErrors.SmallAngleLinear | six_ballisticMissileTrajectories/six_03_launching_errors_on_range.py:29-84 | both small-angle forms are additive, odd and zero at zero in the error |
| LaunchingErrors.FpaInfluenceCoefficient | six_ballisticMissileTrajectories/six_03_launching_errors_on_range.py:107-125 | defined exactly when sin 2 fpa != 0 (division error); (coefficient + 2) sin 2 fpa = 2 sin(psi + 2 fpa) |
| LaunchingErrors.FpaInfluenceVanishesAtMaxRange | six_ballisticMissileTrajectories/six_03_launching_errors_on_range.py:107-125 | at the maximum-range flight path angle the coefficient is zero |
| LaunchingErrors.RangeSensitivity | six_ballisticMissileTrajectories/six_03_launching_errors_on_range.py:144-149 | sin²(psi/2)/sin 2 fpa is defined exactly when sin 2 fpa != 0 (division error); it times sin 2 fpa is sin²(psi/2), and it is non-negative for 0 < fpa < 90 |
| LaunchingErrors.HeightInfluenceCoefficient | six_ballisticMissileTrajectories/six_03_launching_errors_on_range.py:128-151 | defined exactly when v, r and sin 2 fpa are non-zero (division error); non-negative for 0 < fpa < 90; coefficient × v² r² = 4 mu × the range sensitivity |
| LaunchingErrors.HeightInfluenceEquation | six_ballisticMissileTrajectories/six_03_launching_errors_on_range.py:128-151 | equation 6.3-16 multiplied out: coefficient × v² r² × sin 2 fpa = 4 mu sin²(psi/2) |
| LaunchingErrors.VelocityInfluenceCoefficient | six_ballisticMissileTrajectories/six_03_launching_errors_on_range.py:154-178 | defined exactly when v, r and sin 2 fpa are non-zero (division error); non-negative for v, r > 0 and 0 < fpa < 90; coefficient × v³ r = 8 mu × the range sensitivity |
| LaunchingErrors.VelocityInfluenceEquation | six_ballisticMissileTrajectories/six_03_launching_errors_on_range.py:154-178 | equation 6.3-18 multiplied out: coefficient × v³ r × sin 2 fpa = 8 mu sin²(psi/2) |
| LaunchingErrors.VelocityInfluenceFromHeight | six_ballisticMissileTrajectories/six_03_launching_errors_on_range.py:180-194 | defined exactly when v != 0 (division error), and coefficient times v = 2 r times the height coefficient |
| LaunchingErrors.VelocityInfluenceShortcut | six_ballisticMissileTrajectories/six_03_launching_errors_on_range.py:128-194 | the shortcut from the height coefficient fails where the direct velocity coefficient fails, and otherwise equals it |
| LaunchingErrors.DownRangeQuotient | six_ballisticMissileTrajectories/six_03_launching_errors_on_range.py:98-103 | 2/Q csc 2 fpa - cot fpa is defined exactly when sin 2 fpa, sin fpa and Q are non-zero (division error), and then x satisfies Q sin 2 fpa (x sin fpa + cos fpa) = 2 sin fpa |
| LaunchingErrors.DownRangeQuotientIsHalfRangeCotangent | six_ballisticMissileTrajectories/six_03_launching_errors_on_range.py:98-103 | the quotient x satisfies x Q sin fpa cos fpa = 1 - Q cos² fpa, which is cot(psi/2) from equation 6.2-12 |
| LaunchingErrors.DownRangeErrorAsWritten | six_ballisticMissileTrajectories/six_03_launching_errors_on_range.py:87-104 | as written (acos): defined exactly when the quotient is defined (division error) and in [-1, 1] (domain error); cos(psi/2) equals the quotient |
| LaunchingErrors.AngleOfHalfCotangent | six_ballisticMissileTrajectories/six_03_launching_errors_on_range.py:104 | corrected last step: an angle in (0, 360) whose half has cotangent x |
| LaunchingErrors.ArcCotangent | six_ballisticMissileTrajectories/six_03_launching_errors_on_range.py:104 | acos(x / sqrt(1 + x²)) lies in (0, pi) and has cotangent x |
| LaunchingErrors.DownRangeError | six_ballisticMissileTrajectories/six_03_launching_errors_on_range.py:87-104 | corrected form: fails (division error) exactly where the quotient does; psi is in (0, 360) and cot(psi/2) is the quotient |
| LaunchingErrors.DownRangeIsFreeFlightAngle | six_ballisticMissileTrajectories/six_03_launching_errors_on_range.py:87-104 | for Q > 0 and 0 < fpa < 90 the corrected down-range angle equals the two-argument free-flight angle of section 6.2 |
| LaunchingErrors.HalfAngleCosineUnique | six_ballisticMissileTrajectories/six_03_launching_errors_on_range.py:104 | two range angles in [0, 360] with the same half-angle cosine are equal |
| LaunchingErrors.DownRangeAsWrittenDisagrees | six_ballisticMissileTrajectories/six_03_launching_errors_on_range.py:87-104 | whenever the quotient is defined and non-zero, the as-written result differs from the corrected one |
| LaunchingErrors.NoHalfAngleHasCosineAndCotangent | six_ballisticMissileTrajectories/six_03_launching_errors_on_range.py:104 | no half angle has both cosine x and cotangent x for x != 0 |

## Left out

- Floating-point rounding: all arithmetic is on `real`. Results are exact where
  Python's are rounded. The `isclose` tolerance of the free-flight clamp is kept
  as a real predicate (relative tolerance 1e-9).
- The NaN-to-0 fallback of the two-argument `solveForFreeFlightAngle`
  (six_02 lines 183-184) is left out. It has no counterpart over the reals,
  and `acos` of an in-range value is never NaN.
- Numeric values of sin, cos, acos, asin, sqrt and pi: the library is a
  parameter constrained only by `Lawful` (and `DoubleAngle` and `SineSymmetry`). Test
  expectations that depend on those values are not stated: about 100° for the
  free-flight angle, 2.7535, 6.649 and -1.21 for the influence coefficients,
  and 36.4° and 39.36° in the section 6.2 tests.
- `multipledispatch` is modelled only by argument count, as the datatype
  `BallisticMissile.FreeFlightArguments`. It does not check float-versus-int
  argument types, so a call such as `solveForFreeFlightAngle(1, 30.0)` with an
  int is not modelled as a dispatch failure.
- The raising `else` branches of `getMu` and `getMeanEquatorialRadius`
  (constants/earth.py lines 35-36 and 53-54) are unreachable. `ReturnType` is
  a closed datatype with three variants.
- `math.pow(x, 3.0)` and `math.pow(x, 2.0)` are written as products. Float
  `pow` of a negative base with an integral exponent agrees with the product.
- Tests, plots and the unittest runner (`six_02_tests.py`, `six_03_tests.py`,
  `six_02_plots.py`, `BMW_test_package.py`) are not part of this model. The
  exception is the canonical test firing, stated as
  `ConstantsOfTheMotion.CanonicalTestFiring`.
- The `print` output of the tests is I/O and is left out.

## Findings

| source | as written | input that shows it | evidently intended | confidence | as-written member | corrected member |
|---|---|---|---|---|---|---|
| six_ballisticMissileTrajectories/six_02_general_ballistic_missile_problem.py:119 | `math.cos((p - r)/(e r))` in degrees | any ellipse at v = 90 (r = p): the result is cos 0 × 180/pi ≈ 57.3, not 90 | `math.acos`, which inverts `solveForRadiusOfEllipse` | not executed | BallisticMissile.AnomalyOfEllipseAsWritten, BallisticMissile.AnomalyOfEllipseAsWrittenMissesRightAngle | BallisticMissile.AnomalyOfEllipse, BallisticMissile.AnomalyOfRadius |
| six_ballisticMissileTrajectories/six_02_general_ballistic_missile_problem.py:122-152 | the undecorated one-argument `solveForFreeFlightAngle` is replaced by the Dispatcher that `@dispatch(float, float)` binds to the same name | `solveForFreeFlightAngle(90.0)` raises NotImplementedError | a one-argument signature that evaluates equation 6.2-7 | not executed | BallisticMissile.SolveForFreeFlightAngleAsWritten, BallisticMissile.OneArgumentFormUnreachable | BallisticMissile.SolveForFreeFlightAngle |
| six_ballisticMissileTrajectories/six_03_launching_errors_on_range.py:103-104 | `acos` of 2/Q csc 2 fpa - cot fpa, which is cot(psi/2) | Q = 0.9009, fpa = 30 (the six_03 test burnout): the quotient is about 0.83, acos gives about 67.5°, while the free-flight angle is about 100.5° | the arc cotangent, so that the result is the free-flight angle | not executed | LaunchingErrors.DownRangeErrorAsWritten, LaunchingErrors.DownRangeAsWrittenDisagrees | LaunchingErrors.DownRangeError, LaunchingErrors.DownRangeIsFreeFlightAngle |
