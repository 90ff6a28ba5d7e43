/**
 * `PlanetService`: positions of the planets, Pluto and three asteroids
 * from Keplerian elements that vary linearly in Julian centuries since
 * J2000.
 */
module PlanetServices {
  import opened Maths
  import opened Options
  import opened Ephemeris
  import opened Planets

  /**
   * `calculateJulianDate`: days since 1970-01-01 plus the Julian Date of
   * that midnight, plus the second of the day as a fraction of a day.
   */
  function JulianDateFromEpoch(epochDay: int, secondOfDay: int): (jd: real)
    ensures 0 <= secondOfDay < 86400 ==>
      epochDay as real + 2440587.5 <= jd < epochDay as real + 2440588.5
  {
    epochDay as real + 2440587.5 + secondOfDay as real / 86400.0
  }

  /** Julian centuries since J2000. */
  function Centuries(jd: real): real
  {
    (jd - 2451545.0) / 36525.0
  }

  /** Noon of 2000 January 1 (epoch day 10957) is J2000, where T = 0, as for the calendar algorithm. */
  lemma EpochNoonIsJ2000()
    ensures JulianDateFromEpoch(10957, 43200) == J2000 == 2451545.0
    ensures Centuries(JulianDateFromEpoch(10957, 43200)) == 0.0
    ensures JulianDateFromEpoch(10957, 43200) == JulianDate(Date(2000, 1, 1), 12, 0, 0)
  {
    J2000Noon();
  }

  /**
   * On 1970 January 1 the epoch form agrees with the calendar algorithm of
   * the Sun and Moon calculators at every time of day.
   */
  lemma EpochAgreesWithCalendar(hour: int, minute: int, second: int)
    ensures JulianDateFromEpoch(0, hour * 3600 + minute * 60 + second) ==
            JulianDate(Date(1970, 1, 1), hour, minute, second)
  {
    assert DayNumber(Date(1970, 1, 1)) == 2442112 by {
      assert JavaDiv(1969, 100) == 19;
      assert (365.25 * 6685 as real).Floor == 2441696;
      assert (30.6001 * 14 as real).Floor == 428;
    }
  }

  /** One more epoch day is one more Julian day. */
  lemma EpochDayStep(epochDay: int, secondOfDay: int)
    ensures JulianDateFromEpoch(epochDay + 1, secondOfDay) == JulianDateFromEpoch(epochDay, secondOfDay) + 1.0
  {
  }

  /** `normalizeAngle`: `angle % 360`, plus 360 when negative. */
  function NormalizeAngle(angle: real): (r: real)
    ensures 0.0 <= r < 360.0
    ensures 0.0 <= angle < 360.0 ==> r == angle
  {
    if 0.0 <= angle < 360.0 then WrapIdentity(angle, 360.0); Wrap(angle, 360.0)
    else Wrap(angle, 360.0)
  }

  /** Normalising twice is normalising once. */
  lemma NormalizeIdempotent(angle: real)
    ensures NormalizeAngle(NormalizeAngle(angle)) == NormalizeAngle(angle)
  {
    var r := NormalizeAngle(angle);
    assert 0.0 <= r < 360.0;
  }

  const FULL: string := "Full"

  /** `getPhaseDescription`: strict thresholds 0.9, 0.6, 0.4 and 0.1, tested from the top. */
  function PhaseDescription(phase: real): (d: string)
    ensures phase > 0.9 ==> d == FULL
    ensures 0.6 < phase <= 0.9 ==> d == "Gibbous"
    ensures 0.4 < phase <= 0.6 ==> d == "Quarter"
    ensures 0.1 < phase <= 0.4 ==> d == "Crescent"
    ensures phase <= 0.1 ==> d == "New"
  {
    if phase > 0.9 then FULL
    else if phase > 0.6 then "Gibbous"
    else if phase > 0.4 then "Quarter"
    else if phase > 0.1 then "Crescent"
    else "New"
  }

  /** The position of a description in the order New, Crescent, Quarter, Gibbous, Full. */
  function PhaseRank(d: string): int
  {
    if d == "New" then 0 else if d == "Crescent" then 1 else if d == "Quarter" then 2
    else if d == "Gibbous" then 3 else 4
  }

  /** A larger phase never gets an earlier description. */
  lemma PhaseDescriptionMonotone(a: real, b: real)
    requires a <= b
    ensures PhaseRank(PhaseDescription(a)) <= PhaseRank(PhaseDescription(b))
  {
  }

  /** What `calculatePlanetPosition` returns. */
  datatype Position = Position(ra: real, dec: real, distance: real, phase: real, phaseDescription: string)

  /** Mean longitude, semi-major axis, eccentricity, inclination, node and perihelion at some T. */
  datatype Orbit = Orbit(l: real, a: real, e: real, i: real, node: real, w: real)

  /** Heliocentric ecliptic rectangular coordinates and the true anomaly they came from. */
  datatype Ecliptic = Ecliptic(xe: real, ye: real, ze: real, v: real)

  /**
   * The orbital-plane part of `calculatePlanetPosition`: mean anomaly, one
   * correction step for the eccentric anomaly, true anomaly and radius,
   * then the rotation by perihelion, node and inclination.
   */
  function EclipticOf(t: Trig, o: Orbit): Ecliptic
  {
    var iRad := ToRadians(o.i);
    var nodeRad := ToRadians(o.node);
    var wRad := ToRadians(o.w);
    var m := ToRadians(o.l) - wRad;
    var e := m + o.e * t.sin(m) * (1.0 + o.e * t.cos(m));
    var v := 2.0 * t.atan2(t.sqrt(1.0 + o.e) * t.sin(e / 2.0), t.sqrt(1.0 - o.e) * t.cos(e / 2.0));
    var r := o.a * (1.0 - o.e * t.cos(e));
    var x := r * t.cos(v);
    var y := r * t.sin(v);
    Ecliptic(
      x * (t.cos(wRad) * t.cos(nodeRad) - t.sin(wRad) * t.sin(nodeRad) * t.cos(iRad)) +
      y * (-t.sin(wRad) * t.cos(nodeRad) - t.cos(wRad) * t.sin(nodeRad) * t.cos(iRad)),
      x * (t.cos(wRad) * t.sin(nodeRad) + t.sin(wRad) * t.cos(nodeRad) * t.cos(iRad)) +
      y * (-t.sin(wRad) * t.sin(nodeRad) + t.cos(wRad) * t.cos(nodeRad) * t.cos(iRad)),
      x * (t.sin(wRad) * t.sin(iRad)) + y * (t.cos(wRad) * t.sin(iRad)),
      v)
  }

  /** `0.5 (1 + cos v)`: the illuminated fraction, in [0, 1]. */
  function Phase(t: Trig, v: real): (phase: real)
    requires Lawful(t)
    ensures 0.0 <= phase <= 1.0
  {
    0.5 * (1.0 + t.cos(v))
  }

  /** The obliquity of the ecliptic `T` Julian centuries from J2000, in radians. */
  function Obliquity(centuries: real): real
  {
    ToRadians(23.439291 - 0.0130102 * centuries)
  }

  /** The distance `sqrt(xe^2 + ye^2 + ze^2)` of the ecliptic point from the origin. */
  function Distance(t: Trig, c: Ecliptic): (d: real)
    ensures Lawful(t) ==> 0.0 <= d && d * d == c.xe * c.xe + c.ye * c.ye + c.ze * c.ze
  {
    t.sqrt(c.xe * c.xe + c.ye * c.ye + c.ze * c.ze)
  }

  /**
   * The equatorial z coordinate `ye sin(obliquity) + ze cos(obliquity)`:
   * the distance times the sine of the declination, and exactly what the
   * source hands to `Math.asin`.
   */
  function EquatorialZ(t: Trig, c: Ecliptic, obliquity: real): real
  {
    c.ye * t.sin(obliquity) + c.ze * t.cos(obliquity)
  }

  /** The equatorial z coordinate never exceeds the distance in size. */
  lemma EquatorialZWithinDistance(t: Trig, c: Ecliptic, obliquity: real)
    requires Lawful(t)
    ensures -Distance(t, c) <= EquatorialZ(t, c, obliquity) <= Distance(t, c)
  {
    var s, k := t.sin(obliquity), t.cos(obliquity);
    var z, w := EquatorialZ(t, c, obliquity), c.ye * k - c.ze * s;
    var d := Distance(t, c);
    assert z * z + w * w == (c.ye * c.ye + c.ze * c.ze) * (s * s + k * k);
    assert s * s + k * k == 1.0;
    assert z * z <= d * d;
    if z > d {
      SquareMonotone(d, z);
    } else if z < -d {
      SquareMonotone(d, -z);
    }
  }

  /** A non-negative square root of `d * d` is `d` itself. */
  lemma SquareRootOfSquare(r: real, d: real)
    requires 0.0 <= r && 0.0 <= d && r * r == d * d
    ensures r == d
  {
    if r < d {
      SquareMonotone(r, d);
    } else if d < r {
      SquareMonotone(d, r);
    }
  }

  /**
   * The part of `calculatePlanetPosition` shared by the code as written and
   * its correction: RA brought into [0, 24) from
   * `atan2(ye cos(obliquity) - ze sin(obliquity), xe)`, the distance, and
   * the phase with its description; the declination is passed in.
   */
  function Located(t: Trig, c: Ecliptic, obliquity: real, dec: real): (p: Position)
    requires Lawful(t)
    ensures 0.0 <= p.ra < 24.0 && p.dec == dec && p.distance == Distance(t, c) && p.distance >= 0.0
    ensures 0.0 <= p.phase <= 1.0 && p.phaseDescription == PhaseDescription(p.phase)
  {
    var alpha := t.atan2(c.ye * t.cos(obliquity) - c.ze * t.sin(obliquity), c.xe);
    var phase := Phase(t, c.v);
    Position(RaHours(alpha), dec, Distance(t, c), phase, PhaseDescription(phase))
  }

  /**
   * `calculatePlanetPosition` as written: the declination is
   * `toDegrees(asin(z))` of the equatorial z coordinate itself, in AU, not
   * of `z / distance`. For a body further than 1 AU away that argument can
   * leave [-1, 1], where `Math.asin` returns NaN (see
   * `AsWrittenArgumentLeavesDomain`).
   */
  function PlanetPositionAsWritten(t: Trig, o: Orbit, centuries: real): (p: Position)
    requires Lawful(t)
    ensures 0.0 <= p.ra < 24.0 && p.distance >= 0.0
    ensures 0.0 <= p.phase <= 1.0 && p.phaseDescription == PhaseDescription(p.phase)
    ensures p.dec == ToDegrees(t.asin(EquatorialZ(t, EclipticOf(t, o), Obliquity(centuries))))
  {
    var c := EclipticOf(t, o);
    var obliquity := Obliquity(centuries);
    Located(t, c, obliquity, ToDegrees(t.asin(EquatorialZ(t, c, obliquity))))
  }

  /**
   * The argument the code as written hands to `Math.asin` is the distance
   * itself for a body at distance `d` whose position lies in the direction
   * of the equatorial pole: for every `d > 1` it is outside asin's domain.
   */
  lemma AsWrittenArgumentLeavesDomain(t: Trig, obliquity: real, d: real)
    requires Lawful(t) && d > 1.0
    ensures var c := Ecliptic(0.0, d * t.sin(obliquity), d * t.cos(obliquity), 0.0);
            Distance(t, c) == d && EquatorialZ(t, c, obliquity) == d && EquatorialZ(t, c, obliquity) > 1.0
  {
    var c := Ecliptic(0.0, d * t.sin(obliquity), d * t.cos(obliquity), 0.0);
    UnitScaled(d, t.sin(obliquity), t.cos(obliquity));
    SquareRootOfSquare(Distance(t, c), d);
  }

  /** Scaling a unit pair `(s, k)` by `d`: its dot product with `(s, k)` and its squared length. */
  lemma UnitScaled(d: real, s: real, k: real)
    requires s * s + k * k == 1.0
    ensures (d * s) * s + (d * k) * k == d
    ensures 0.0 * 0.0 + (d * s) * (d * s) + (d * k) * (d * k) == d * d
  {
    assert (d * s) * s + (d * k) * k == d * (s * s + k * k);
    assert (d * s) * (d * s) + (d * k) * (d * k) == (d * d) * (s * s + k * k);
  }

  /**
   * `calculatePlanetPosition` corrected: the declination is
   * `toDegrees(asin(z / distance))`, and 0 for a body at the origin; it
   * always lies in [-90, 90].
   */
  function PlanetPosition(t: Trig, o: Orbit, centuries: real): (p: Position)
    requires Lawful(t)
    ensures 0.0 <= p.ra < 24.0 && -90.0 <= p.dec <= 90.0 && p.distance >= 0.0
    ensures 0.0 <= p.phase <= 1.0 && p.phaseDescription == PhaseDescription(p.phase)
  {
    var c := EclipticOf(t, o);
    var obliquity := Obliquity(centuries);
    var d := Distance(t, c);
    if d == 0.0 then
      Located(t, c, obliquity, 0.0)
    else
      var x := EquatorialZ(t, c, obliquity) / d;
      EquatorialZWithinDistance(t, c, obliquity);
      assert -1.0 <= x <= 1.0 by {
        MulLeft(-d, EquatorialZ(t, c, obliquity), 1.0 / d);
        MulLeft(EquatorialZ(t, c, obliquity), d, 1.0 / d);
      }
      AsinDegrees(t, x);
      Located(t, c, obliquity, ToDegrees(t.asin(x)))
  }

  /** At a distance of exactly 1 AU the correction changes nothing. */
  lemma CorrectionAtUnitDistance(t: Trig, o: Orbit, centuries: real)
    requires Lawful(t) && Distance(t, EclipticOf(t, o)) == 1.0
    ensures PlanetPosition(t, o, centuries) == PlanetPositionAsWritten(t, o, centuries)
  {
    var c := EclipticOf(t, o);
    assert EquatorialZ(t, c, Obliquity(centuries)) / 1.0 == EquatorialZ(t, c, Obliquity(centuries));
  }

  /** The eleven bodies, in the order the service lists them. */
  datatype Body = Mercury | Venus | Mars | Jupiter | Saturn | Uranus | Neptune | Pluto | Ceres | Pallas | Juno
  {
    function Name(): string
    {
      match this
      case Mercury => "Mercury" case Venus => "Venus" case Mars => "Mars"
      case Jupiter => "Jupiter" case Saturn => "Saturn" case Uranus => "Uranus"
      case Neptune => "Neptune" case Pluto => "Pluto" case Ceres => "Ceres"
      case Pallas => "Pallas" case Juno => "Juno"
    }

    /** The `type` each builder sets, if any. */
    function Kind(): Option<string>
    {
      match this
      case Mercury => Some("planet") case Jupiter => Some("planet") case Neptune => Some("planet")
      case Pluto => Some("dwarf_planet")
      case Ceres => Some("asteroid") case Pallas => Some("asteroid") case Juno => Some("asteroid")
      case _ => None
    }

    /** Whether the builder records the orbital elements. */
    predicate RecordsElements()
    {
      !(Venus? || Mars? || Saturn? || Uranus?)
    }

    /** The bodies beyond Saturn and the asteroids report "Full" whatever their computed phase. */
    predicate AlwaysFull()
    {
      !(Mercury? || Venus? || Mars? || Jupiter? || Saturn?)
    }

    /** The elements at `T` Julian centuries since J2000, the mean longitude not yet normalised. */
    function RawOrbit(T: real): Orbit
    {
      match this
      case Mercury => Orbit(252.250906 + 149472.674635 * T, 0.387098, 0.205635 + 0.000020 * T, 7.004986,
                            48.330893 - 0.125234 * T, 77.456119 + 0.158902 * T)
      case Venus => Orbit(181.979801 + 58517.815676 * T, 0.723330, 0.006773 - 0.000042 * T, 3.394662,
                          76.679920 - 0.278008 * T, 131.563707 + 0.048646 * T)
      case Mars => Orbit(355.433275 + 19140.299331 * T, 1.523688, 0.093405 + 0.000092 * T, 1.849726,
                         49.558093 - 0.295025 * T, 336.060234 + 0.439292 * T)
      case Jupiter => Orbit(34.351484 + 3034.905700 * T, 5.202887, 0.048498 - 0.000016 * T, 1.303270,
                            100.464441 - 0.176174 * T, 14.331309 + 0.215581 * T)
      case Saturn => Orbit(50.077471 + 1222.113850 * T, 9.536676, 0.055546 - 0.000034 * T, 2.488878,
                           113.665524 - 0.256745 * T, 93.056787 + 0.565314 * T)
      case Uranus => Orbit(314.055005 + 428.466998 * T, 19.189916, 0.047318 + 0.000007 * T, 0.773196,
                           74.005947 + 0.521127 * T, 173.005159 + 1.486379 * T)
      case Neptune => Orbit(304.348665 + 218.485952 * T, 30.069923, 0.008606 + 0.000002 * T, 1.770042,
                            131.784057 - 0.006173 * T, 48.123691 + 1.426294 * T)
      case Pluto => Orbit(238.92881 + 145.18042 * T, 39.48211675, 0.24882730 + 0.00006465 * T, 17.14001206,
                          110.30393684 - 0.01183482 * T, 224.06891629 + 0.04062942 * T)
      case Ceres => Orbit(352.23052 + 214.14998 * T, 2.76773431, 0.07600902, 10.59340979,
                          80.39319872, 72.58981084)
      case Pallas => Orbit(249.16139 + 162.64053 * T, 2.77286964, 0.23138298, 34.84096718,
                           173.09690041, 310.14996769)
      case Juno => Orbit(13.04695 + 225.51310 * T, 2.66865814, 0.25695579, 12.98145418,
                         169.87670505, 248.18149689)
    }

    /**
     * The magnitude from the distance (and, for Mercury and Venus, the
     * phase): a constant plus a multiple of `log10(distance^2)` or
     * `log10(distance^2 / phase)`.
     */
    function Magnitude(t: Trig, distance: real, phase: real): (m: real)
      ensures this == Neptune ==> m == 7.84
    {
      var d2 := distance * distance;
      match this
      case Mercury => -0.42 + 3.80 * t.log10(if phase == 0.0 then 0.0 else d2 / phase)
      case Venus => -4.40 + 0.09 * t.log10(if phase == 0.0 then 0.0 else d2 / phase)
      case Mars => -1.52 + 1.60 * t.log10(d2)
      case Jupiter => -9.40 + 0.50 * t.log10(d2)
      case Saturn => -8.88 + 0.44 * t.log10(d2)
      case Uranus => 5.52 + 0.31 * t.log10(d2)
      case Neptune => 7.84 + 0.00 * t.log10(d2)
      case Pluto => 15.1 + 0.04 * t.log10(d2)
      case Ceres => 3.36 + 0.12 * t.log10(d2)
      case Pallas => 4.13 + 0.11 * t.log10(d2)
      case Juno => 5.33 + 0.21 * t.log10(d2)
    }
  }

  /** With the phase fixed, a body further away is never brighter. */
  lemma MagnitudeGrowsWithDistance(t: Trig, b: Body, d1: real, d2: real, phase: real)
    requires Lawful(t) && 0.0 < d1 <= d2 && phase >= 0.0
    ensures b.Magnitude(t, d1, phase) <= b.Magnitude(t, d2, phase)
  {
    Log10OfSquares(t, d1, d2, phase);
  }

  /** `log10(d^2)` and, for a positive phase, `log10(d^2 / phase)` grow with the distance `d`. */
  lemma Log10OfSquares(t: Trig, d1: real, d2: real, phase: real)
    requires Lawful(t) && 0.0 < d1 <= d2 && phase >= 0.0
    ensures t.log10(d1 * d1) <= t.log10(d2 * d2)
    ensures phase > 0.0 ==> t.log10(d1 * d1 / phase) <= t.log10(d2 * d2 / phase)
  {
    SquaresOrdered(d1, d2, phase);
  }

  function Square(x: real): real
  {
    x * x
  }

  lemma SquaresOrdered(d1: real, d2: real, phase: real)
    requires 0.0 < d1 <= d2 && phase >= 0.0
    ensures 0.0 < Square(d1) <= Square(d2)
    ensures phase > 0.0 ==> 0.0 < Square(d1) / phase <= Square(d2) / phase
  {
    SquareMonotone(0.0, d1);
    if d1 < d2 {
      SquareMonotone(d1, d2);
    }
    if phase > 0.0 {
      var inv := 1.0 / phase;
      MulLeft(d1 * d1, d2 * d2, inv);
      MulStrict(0.0, d1 * d1, inv);
    }
  }

  const BODIES: seq<Body> := [Mercury, Venus, Mars, Jupiter, Saturn, Uranus, Neptune, Pluto, Ceres, Pallas, Juno]

  /** The elements with the mean longitude normalised, as each `calculateX` computes them. */
  function OrbitAt(b: Body, centuries: real): (o: Orbit)
    ensures 0.0 <= o.l < 360.0
  {
    var raw := b.RawOrbit(centuries);
    raw.(l := NormalizeAngle(raw.l))
  }

  /**
   * The builder calls of `calculateMercury` ... `calculateJuno`: name,
   * kind, position, magnitude, the phase description ("Full" for the bodies
   * beyond Saturn and the asteroids) and, for the bodies that record them,
   * the elements with the argument of perihelion `w - node`.
   */
  function BuildPlanet(b: Body, o: Orbit, pos: Position, magnitude: real): (p: Planet)
    ensures p.name == b.Name() && p.kind == b.Kind()
    ensures p.ra == pos.ra && p.dec == pos.dec && p.distance == pos.distance && p.magnitude == magnitude
    ensures p.phase == if b.AlwaysFull() then FULL else pos.phaseDescription
    ensures p.elements.Some? <==> b.RecordsElements()
    ensures p.elements.Some? ==>
      p.elements.value == Elements(o.a, o.e, o.i, o.node, o.w - o.node, o.l)
  {
    Planet(b.Name(), b.Kind(), pos.ra, pos.dec, magnitude, pos.distance,
           if b.AlwaysFull() then FULL else pos.phaseDescription,
           if b.RecordsElements() then Some(Elements(o.a, o.e, o.i, o.node, o.w - o.node, o.l)) else None)
  }

  /** The six outer bodies report "Full" even when the computed phase says otherwise. */
  lemma OuterBodiesFull(b: Body, o: Orbit, pos: Position, magnitude: real)
    requires b in BODIES[5..]
    ensures BuildPlanet(b, o, pos, magnitude).phase == FULL
  {
  }

  /** `calculateMercury` ... `calculateJuno`: the body's elements at `T`, its position and magnitude. */
  function CalculateBody(t: Trig, b: Body, centuries: real): (p: Planet)
    requires Lawful(t)
    ensures p.name == b.Name() && p.kind == b.Kind()
    ensures 0.0 <= p.ra < 24.0 && -90.0 <= p.dec <= 90.0 && p.distance >= 0.0
    ensures p.phase in {FULL, "Gibbous", "Quarter", "Crescent", "New"}
    ensures p.elements.Some? ==> 0.0 <= p.elements.value.meanLongitude < 360.0
  {
    var o := OrbitAt(b, centuries);
    var pos := PlanetPosition(t, o, centuries);
    BuildPlanet(b, o, pos, b.Magnitude(t, pos.distance, pos.phase))
  }

  /**
   * `calculatePlanetPositions`: the Julian Date from the date-time, `T`,
   * and one `Planet` per body, in the fixed order.
   */
  function PlanetPositions(t: Trig, epochDay: int, secondOfDay: int): (ps: seq<Planet>)
    requires Lawful(t)
    ensures |ps| == |BODIES| == 11
    ensures forall k | 0 <= k < |ps| :: ps[k] == CalculateBody(t, BODIES[k], Centuries(JulianDateFromEpoch(epochDay, secondOfDay)))
    ensures forall k | 0 <= k < |ps| :: ps[k].name == BODIES[k].Name()
  {
    var T := Centuries(JulianDateFromEpoch(epochDay, secondOfDay));
    seq(|BODIES|, k requires 0 <= k < |BODIES| => CalculateBody(t, BODIES[k], T))
  }

  /** Every computed body passes the planet's coordinate check. */
  lemma PositionsHaveValidCoordinates(t: Trig, epochDay: int, secondOfDay: int)
    requires Lawful(t)
    ensures var ps := PlanetPositions(t, epochDay, secondOfDay);
      forall k | 0 <= k < |ps| :: HasValidCoordinates(ps[k])
  {
  }

  /** The names come out as Mercury, Venus, Mars, Jupiter, Saturn, Uranus, Neptune, Pluto, Ceres, Pallas, Juno. */
  lemma PlanetNamesInOrder(t: Trig, epochDay: int, secondOfDay: int)
    requires Lawful(t)
    ensures var ps := PlanetPositions(t, epochDay, secondOfDay);
      |ps| == 11 && forall k | 0 <= k < 11 :: ps[k].name == BODY_NAMES[k]
  {
    var names := seq(11, k requires 0 <= k < 11 => BODIES[k].Name());
    assert names == BODY_NAMES;
  }

  const BODY_NAMES: seq<string> := ["Mercury", "Venus", "Mars", "Jupiter", "Saturn", "Uranus", "Neptune",
                                    "Pluto", "Ceres", "Pallas", "Juno"]
}
