/**
 * `MoonCalculator`: the Moon's coordinates from its mean orbital elements
 * with the main periodic terms, its illuminated fraction from the
 * Sun-Moon elongation, and the phase name.
 */
module MoonCalc {
  import opened Maths
  import opened Ephemeris
  import opened Positions
  import SunCalc

  /**
   * `calculateSunEclipticLongitude`, in radians, for `d` days after J2000.
   * It is the Sun calculator's ecliptic longitude, except that the mean
   * longitude is the bare remainder: before about 1999 March 22, where
   * `280.460 + 0.9856474 d` is negative, it may be one full turn less.
   */
  function SunEclipticLongitude(t: Trig, d: real): (lambda: real)
    ensures 280.460 + 0.9856474 * d >= 0.0 ==> lambda == SunCalc.EclipticLongitude(t, d)
    ensures lambda == SunCalc.EclipticLongitude(t, d) ||
            lambda == SunCalc.EclipticLongitude(t, d) - ToRadians(360.0)
  {
    var l := ToRadians(JavaRem(280.460 + 0.9856474 * d, 360.0));
    var g := ToRadians(JavaRem(357.528 + 0.9856003 * d, 360.0));
    MeanLongitudeTurn(d);
    l + ToRadians(1.915 * t.sin(g) + 0.020 * t.sin(2.0 * g))
  }

  /** The bare remainder is the Sun calculator's mean longitude, or one turn less for a negative argument. */
  lemma MeanLongitudeTurn(d: real)
    ensures var x := 280.460 + 0.9856474 * d;
      (x >= 0.0 ==> JavaRem(x, 360.0) == SunCalc.MeanLongitude(d)) &&
      (JavaRem(x, 360.0) == SunCalc.MeanLongitude(d) || JavaRem(x, 360.0) == SunCalc.MeanLongitude(d) - 360.0)
  {
  }

  /** `(1 + cos phaseAngle) / 2`: 0 at new moon, 1 at full moon. */
  function Illumination(t: Trig, phaseAngle: real): (f: real)
    requires Lawful(t)
    ensures 0.0 <= f <= 1.0
    ensures phaseAngle == 0.0 ==> f == 1.0
  {
    (1.0 + t.cos(phaseAngle)) / 2.0
  }

  /** The phase angle brought into [0, 2 PI) and converted to degrees. */
  function PhaseDegrees(phaseAngle: real): (deg: real)
    ensures 0.0 <= deg < 360.0
  {
    var a := Wrap(phaseAngle, 2.0 * PI);
    MulStrict(a, 2.0 * PI, 180.0 / PI);
    ToDegrees(a)
  }

  const NEW_MOON: string := "New Moon"
  const WAXING_CRESCENT: string := "Waxing Crescent"
  const FIRST_QUARTER: string := "First Quarter"
  const WAXING_GIBBOUS: string := "Waxing Gibbous"
  const FULL_MOON: string := "Full Moon"
  const WANING_GIBBOUS: string := "Waning Gibbous"
  const LAST_QUARTER: string := "Last Quarter"
  const WANING_CRESCENT: string := "Waning Crescent"

  const PHASE_NAMES: seq<string> := [NEW_MOON, WAXING_CRESCENT, FIRST_QUARTER, WAXING_GIBBOUS,
                                     FULL_MOON, WANING_GIBBOUS, LAST_QUARTER, WANING_CRESCENT]

  /**
   * `getMoonPhaseName`: an if-chain over the illumination and the phase
   * angle in degrees, tried in order; the first matching condition names
   * the phase.
   */
  function MoonPhaseName(illumination: real, phaseAngle: real): (name: string)
    ensures name in PHASE_NAMES
  {
    var deg := PhaseDegrees(phaseAngle);
    if illumination < 0.05 then NEW_MOON
    else if deg < 90.0 && illumination < 0.5 then WAXING_CRESCENT
    else if 80.0 <= deg <= 100.0 && 0.4 <= illumination <= 0.6 then FIRST_QUARTER
    else if deg < 180.0 && illumination < 0.95 then WAXING_GIBBOUS
    else if illumination >= 0.95 then FULL_MOON
    else if 180.0 < deg < 270.0 && illumination > 0.5 then WANING_GIBBOUS
    else if 260.0 <= deg <= 280.0 && 0.4 <= illumination <= 0.6 then LAST_QUARTER
    else WANING_CRESCENT
  }

  /** New and full moon depend on the illumination alone, whatever the angle. */
  lemma NewAndFullMoon(illumination: real, phaseAngle: real)
    ensures MoonPhaseName(illumination, phaseAngle) == NEW_MOON <==> illumination < 0.05
    ensures MoonPhaseName(illumination, phaseAngle) == FULL_MOON <==> illumination >= 0.95
  {
  }

  /** The angle conditions each of the remaining names implies. */
  lemma PhaseNameConditions(illumination: real, phaseAngle: real)
    ensures var name := MoonPhaseName(illumination, phaseAngle);
      var deg := PhaseDegrees(phaseAngle);
      (name == WAXING_CRESCENT ==> deg < 90.0 && illumination < 0.5) &&
      (name == WAXING_GIBBOUS ==> deg < 180.0) &&
      (name == WANING_GIBBOUS ==> 180.0 < deg < 270.0) &&
      (name == FIRST_QUARTER ==> 80.0 <= deg <= 100.0 && 0.4 <= illumination <= 0.6) &&
      (name == LAST_QUARTER ==> 260.0 <= deg <= 280.0 && 0.4 <= illumination <= 0.6)
  {
  }

  /**
   * The declination in degrees of ecliptic longitude `lon` and latitude
   * `lat` (radians) under obliquity `epsilon`:
   * `asin(sin lat cos epsilon + cos lat sin epsilon sin lon)`.
   */
  function Declination(t: Trig, lon: real, lat: real, epsilon: real): (dec: real)
    requires Lawful(t)
    ensures -90.0 <= dec <= 90.0
  {
    var x := t.sin(lat) * t.cos(epsilon) + t.cos(lat) * t.sin(epsilon) * t.sin(lon);
    UnitSineCross(t, lat, epsilon, t.sin(lon));
    AsinDegrees(t, x);
    ToDegrees(t.asin(x))
  }

  /**
   * `calculateMoonPosition` for a local date and time: mean longitude,
   * anomaly and argument of latitude, the ecliptic position with its main
   * periodic terms, RA/Dec, illumination and phase name, and the horizontal
   * coordinates at the local sidereal time. (The distance the source also
   * computes is never used.)
   */
  function MoonPositionAt(t: Trig, dt: Date, hour: int, minute: int, second: int,
                          latitude: real, longitude: real): (p: MoonPosition)
    requires Lawful(t)
    ensures 0.0 <= p.ra < 24.0 && -90.0 <= p.dec <= 90.0
    ensures -90.0 <= p.altitude <= 90.0 && 0.0 <= p.azimuth < 360.0
    ensures 0.0 <= p.illumination <= 1.0 && p.phaseName in PHASE_NAMES
    ensures p.visible <==> p.altitude > 0.0
  {
    var jd := JulianDate(dt, hour, minute, second);
    var d := jd - J2000;
    var l := ToRadians(JavaRem(218.316 + 13.176396 * d, 360.0));
    var m := ToRadians(JavaRem(134.963 + 13.064993 * d, 360.0));
    var f := ToRadians(JavaRem(93.272 + 13.229350 * d, 360.0));
    var lonMoon := l + ToRadians(6.289 * t.sin(m) + 1.274 * t.sin(2.0 * l - m) + 0.658 * t.sin(2.0 * l) +
                                 0.214 * t.sin(2.0 * m) + 0.110 * t.sin(m + 2.0 * l));
    var latMoon := ToRadians(5.128 * t.sin(f) + 0.281 * t.sin(m + f) + 0.278 * t.sin(m - f) +
                             0.173 * t.sin(2.0 * l - f));
    var epsilon := ToRadians(23.439 - 0.0000004 * d);
    var alpha := t.atan2(t.sin(lonMoon) * t.cos(epsilon) - t.tan(latMoon) * t.sin(epsilon), t.cos(lonMoon));
    var ra := RaHours(alpha);
    var dec := Declination(t, lonMoon, latMoon, epsilon);
    var phaseAngle := lonMoon - SunEclipticLongitude(t, d);
    var illumination := Illumination(t, phaseAngle);
    var c := ToHorizontal(t, ra, dec, LocalSiderealTime(jd, longitude), latitude);
    NewMoonPosition(ra, dec, c.altitude, c.azimuth, illumination, MoonPhaseName(illumination, phaseAngle))
  }
}
