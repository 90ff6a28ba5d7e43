/**
 * `SunCalculator`: the Sun's equatorial and horizontal coordinates from a
 * simplified form of Meeus's algorithm, and the iterative search for
 * sunrise and sunset.
 */
module SunCalc {
  import opened Maths
  import opened Options
  import opened Ephemeris
  import opened Positions

  /** The Sun's mean longitude in degrees, `(280.460 + 0.9856474 n) % 360` made non-negative. */
  function MeanLongitude(n: real): (l: real)
    ensures 0.0 <= l < 360.0
    ensures 0.0 <= 280.460 + 0.9856474 * n < 360.0 ==> l == 280.460 + 0.9856474 * n
  {
    var x := 280.460 + 0.9856474 * n;
    if 0.0 <= x < 360.0 then WrapIdentity(x, 360.0); Wrap(x, 360.0) else Wrap(x, 360.0)
  }

  /**
   * The Sun's ecliptic longitude in radians `n` days after J2000: the mean
   * longitude plus the equation of centre `1.915 sin g + 0.020 sin 2g` for
   * the mean anomaly `g`.
   */
  function EclipticLongitude(t: Trig, n: real): real
  {
    var g := ToRadians(JavaRem(357.528 + 0.9856003 * n, 360.0));
    ToRadians(MeanLongitude(n) + 1.915 * t.sin(g) + 0.020 * t.sin(2.0 * g))
  }

  /**
   * `calculateSunPosition` for a local date and time: mean longitude and
   * anomaly, ecliptic longitude, obliquity, then RA/Dec and the horizontal
   * coordinates at the local sidereal time.
   */
  function SunPositionAt(t: Trig, d: Date, hour: int, minute: int, second: int,
                         latitude: real, longitude: real): (p: SunPosition)
    requires Lawful(t)
    ensures 0.0 <= p.ra < 24.0 && -90.0 <= p.dec <= 90.0
    ensures -90.0 <= p.altitude <= 90.0 && 0.0 <= p.azimuth < 360.0
    ensures p.visible <==> p.altitude > 0.0
  {
    var jd := JulianDate(d, hour, minute, second);
    var n := jd - J2000;
    var lambda := EclipticLongitude(t, n);
    var epsilon := ToRadians(23.439 - 0.0000004 * n);
    var alpha := t.atan2(t.cos(epsilon) * t.sin(lambda), t.cos(lambda));
    var delta := t.asin(t.sin(epsilon) * t.sin(lambda));
    var ra := RaHours(alpha);
    ProductUnit(t.sin(epsilon), t.sin(lambda));
    AsinDegrees(t, t.sin(epsilon) * t.sin(lambda));
    var dec := ToDegrees(delta);
    var lst := LocalSiderealTime(jd, longitude);
    var c := ToHorizontal(t, ra, dec, lst, latitude);
    NewSunPosition(ra, dec, c.altitude, c.azimuth)
  }

  /** Close enough to the horizon to stop searching. */
  predicate AtHorizon(altitude: real)
  {
    Abs(altitude) < 0.1
  }

  /**
   * The correction in hours for an altitude: `-altitude / 15` (the Sun
   * moves about 15 degrees an hour), negated again when looking for sunrise.
   */
  function HoursToHorizon(altitude: real, sunrise: bool): real
  {
    var h := -altitude / 15.0;
    if sunrise then -h else h
  }

  /** Sunrise and sunset differ only in the sign of the step. */
  lemma SunriseStepOpposite(altitude: real)
    ensures HoursToHorizon(altitude, true) == -HoursToHorizon(altitude, false)
    ensures Truncate(HoursToHorizon(altitude, true) * 60.0) == -Truncate(HoursToHorizon(altitude, false) * 60.0)
  {
    assert HoursToHorizon(altitude, true) * 60.0 == -(HoursToHorizon(altitude, false) * 60.0);
    TruncateNegate(HoursToHorizon(altitude, false) * 60.0);
  }

  /**
   * The i-th guess, in minutes after 12:00:00 of the date: the first is
   * noon, and each next one moves by the step truncated to whole minutes.
   * `altitudeAt(m)` is the Sun's altitude m minutes after that noon.
   */
  function Guess(altitudeAt: int -> real, sunrise: bool, i: nat): int
  {
    if i == 0 then 0
    else
      var g := Guess(altitudeAt, sunrise, i - 1);
      g + Truncate(HoursToHorizon(altitudeAt(g), sunrise) * 60.0)
  }

  /** The number of positions the search evaluates at most. */
  const MAX_ITERATIONS: nat := 10

  /**
   * `calculateSunEvent`: evaluates at most ten guesses and returns the
   * first at the horizon, or `None` (Java's `null`) when none of the ten
   * is.
   */
  method SunEvent(altitudeAt: int -> real, sunrise: bool) returns (event: Option<int>)
    ensures event.Some? ==>
      exists i :: 0 <= i < MAX_ITERATIONS && event.value == Guess(altitudeAt, sunrise, i) &&
        AtHorizon(altitudeAt(event.value)) &&
        (forall j :: 0 <= j < i ==> !AtHorizon(altitudeAt(Guess(altitudeAt, sunrise, j))))
    ensures event.None? <==> forall i :: 0 <= i < MAX_ITERATIONS ==> !AtHorizon(altitudeAt(Guess(altitudeAt, sunrise, i)))
  {
    var guess := 0;
    var i := 0;
    while i < MAX_ITERATIONS
      invariant 0 <= i <= MAX_ITERATIONS
      invariant guess == Guess(altitudeAt, sunrise, i)
      invariant forall j :: 0 <= j < i ==> !AtHorizon(altitudeAt(Guess(altitudeAt, sunrise, j)))
    {
      var altitude := altitudeAt(guess);
      if AtHorizon(altitude) {
        return Some(guess);
      }
      guess := guess + Truncate(HoursToHorizon(altitude, sunrise) * 60.0);
      i := i + 1;
    }
    return None;
  }
}
