/**
 * `AstroService`: the legacy plotting of a star onto a screen, after an
 * Apple II program, with a northern (polar azimuthal) and a southern
 * (rectangular) layout.
 *
 * The southern layout reads the local sidereal time from the system clock;
 * here that time is a parameter. `Double.valueOf` is a parameter too:
 * `parse` returns `None` where Java throws `NumberFormatException`.
 */
module Astro {
  import opened Maths
  import opened Options
  import opened Sky
  import opened Text
  import Ephemeris

  const THREE_SIXTY: real := 360.0
  const ONE_EIGHTY: real := THREE_SIXTY / 2.0
  const NINETY: real := ONE_EIGHTY / 2.0
  const HALF_PI: real := PI / 2.0
  const TWELVE_HOURS: real := 12.0
  const X_FACTOR: real := 536.5
  const Y_FACTOR: real := X_FACTOR * (140.0 / 160.0)
  const VIEW_HORIZON_HEIGHT_RATIO: real := 5.75
  const SOUTHERN_DEFAULT_FACTOR: real := 3.28

  /** The drawing area. */
  datatype Screen = Screen(width: real, height: real)

  /** The observer settings the plotting reads: latitude in degrees and sidereal time "HH:MM", both as text. */
  datatype Config = Config(latitudeDegrees: string, siderealTime: string)

  /** A plotted point with the star's magnitude and name. */
  datatype Coordinate = Coordinate(x: real, y: real, mag: real, name: string)

  datatype Horizon = North | South | Undefined

  /** What plotting yields: a point, Java's `null` (not drawn), or an exception from parsing the configuration. */
  datatype Plot = Plotted(coordinate: Coordinate) | Hidden | ParseFailure

  /** `fromHMStoDegrees`: `h - m/60 - s/3600`; the minutes and seconds are always subtracted. */
  function FromHMSToDegrees(hours: real, minute: real, second: real): (deg: real)
    ensures deg == hours - (minute * 60.0 + second) / 3600.0
  {
    hours + (-1.0 * minute) / 60.0 + (-1.0 * second) / 3600.0
  }

  /** The longitude the tests use: 112 degrees 2 minutes 20.6592 seconds West. */
  lemma FromHMSExample()
    ensures FromHMSToDegrees(-112.0, 2.0, 20.6592) == -112.039072
  {
  }

  /**
   * `hasRisen` (named after the Apple II routine; it holds for a star BELOW
   * the horizon): `cos l cos d cos h < -sin l sin d` with latitude `l`,
   * declination `d` and hour angle `h = PI (lst - ra) / 12`.
   */
  predicate HasRisen(t: Trig, ra: real, dec: real, latitude: real, lst: real)
  {
    var l := latitude * PI / ONE_EIGHTY;
    var d := dec * PI / ONE_EIGHTY;
    var h := (PI * (lst - ra)) / TWELVE_HOURS;
    t.cos(l) * t.cos(d) * t.cos(h) < (-1.0 * t.sin(l)) * t.sin(d)
  }

  /**
   * `hasRisen` holds exactly when the sine of the body's altitude is
   * negative, that is when the body is below the horizon.
   */
  lemma HasRisenBelowHorizon(t: Trig, ra: real, dec: real, latitude: real, lst: real)
    ensures HasRisen(t, ra, dec, latitude, lst) <==>
      Ephemeris.AltitudeSine(t, latitude * PI / ONE_EIGHTY, dec * PI / ONE_EIGHTY, (PI * (lst - ra)) / TWELVE_HOURS) < 0.0
  {
  }

  /** The hour offset `lst - ra`, plus 24 below -12, minus 24 above 12. */
  function SouthernHourOffset(lst: real, ra: real): (xp: real)
    ensures 0.0 <= lst < 24.0 && 0.0 <= ra < 24.0 ==> -12.0 <= xp <= 12.0
    ensures xp == lst - ra || xp == lst - ra + 24.0 || xp == lst - ra - 24.0
  {
    var xp := lst - ra;
    var xp1 := if xp < -12.0 then xp + 24.0 else xp;
    if xp1 > 12.0 then xp1 - 24.0 else xp1
  }

  /** The sidereal time "HH:MM" read as HH + MM / 60; a missing part or a bad number is a parse failure. */
  function SiderealHours(text: string, parse: string -> Option<real>): (lst: Option<real>)
    ensures lst.Some? <==> |JavaSplit(text, ':')| >= 2 && parse(JavaSplit(text, ':')[0]).Some? && parse(JavaSplit(text, ':')[1]).Some?
    ensures lst.Some? ==> lst.value == parse(JavaSplit(text, ':')[0]).value + parse(JavaSplit(text, ':')[1]).value / 60.0
  {
    var parts := JavaSplit(text, ':');
    if |parts| < 2 then None
    else match (parse(parts[0]), parse(parts[1]))
      case (Some(h), Some(m)) => Some(h + m / 60.0)
      case _ => None
  }

  class AstroService {
    var screen: Screen
    var southernDefaultFactor: real

    constructor(screen: Screen)
      ensures this.screen == screen && southernDefaultFactor == SOUTHERN_DEFAULT_FACTOR
    {
      this.screen := screen;
      southernDefaultFactor := SOUTHERN_DEFAULT_FACTOR;
    }

    method SetSouthernDefaultFactor(factor: real)
      modifies this
      ensures southernDefaultFactor == factor && screen == old(screen)
    {
      southernDefaultFactor := factor;
    }

    method SetScreen(screen: Screen)
      modifies this
      ensures this.screen == screen && southernDefaultFactor == old(southernDefaultFactor)
    {
      this.screen := screen;
    }

    /**
     * `getNorthernCoordinate`: nothing for a southern declination or a star
     * below the horizon; otherwise the star at distance
     * `Y_FACTOR / (PI/2) * (PI/2 - |dec|)` from the pole, at the angle of
     * its hour offset turned by 90 degrees, kept only inside the screen.
     */
    function NorthernCoordinate(t: Trig, config: Config, star: Star, parse: string -> Option<real>): (p: Plot)
      reads this
      ensures p == ParseFailure <==> parse(config.latitudeDegrees).None? || SiderealHours(config.siderealTime, parse).None?
      ensures p != ParseFailure && star.dec < 0.0 ==> p == Hidden
      ensures p != ParseFailure ==>
        var lt := parse(config.latitudeDegrees).value;
        var lst := SiderealHours(config.siderealTime, parse).value;
        HasRisen(t, star.ra, star.dec, lt, lst) ==> p == Hidden
      ensures p.Plotted? ==> 0.0 <= p.coordinate.x <= screen.width && 0.0 <= p.coordinate.y <= screen.height
      ensures p.Plotted? ==> p.coordinate.mag == star.mag && p.coordinate.name == star.name
    {
      match (parse(config.latitudeDegrees), SiderealHours(config.siderealTime, parse))
      case (Some(lt), Some(lst)) =>
        if star.dec < 0.0 then Hidden
        else if HasRisen(t, star.ra, star.dec, lt, lst) then Hidden
        else
          var yp := star.dec * PI / ONE_EIGHTY;
          var xp := ((star.ra - lst) * 15.0 * PI / ONE_EIGHTY) - HALF_PI;
          var f := Y_FACTOR / HALF_PI;
          var r1 := f * (HALF_PI - Abs(yp));
          var x := r1 * t.cos(xp) + Y_FACTOR;
          var y := r1 * t.sin(xp) + X_FACTOR - (VIEW_HORIZON_HEIGHT_RATIO * lt);
          if x > screen.width || x < 0.0 || y > screen.height || y < 0.0 then Hidden
          else Plotted(Coordinate(x, y, star.mag, star.name))
      case _ => ParseFailure
    }

    /**
     * `getSouthernCoordinate`: nothing for a declination above the latitude
     * or more than 90 degrees below it, or a star below the horizon;
     * otherwise x from the wrapped hour offset and y from the distance
     * below the latitude, each kept only inside its range.
     */
    function SouthernCoordinate(t: Trig, config: Config, star: Star, lst: real, parse: string -> Option<real>): (p: Plot)
      reads this
      ensures p == ParseFailure <==> parse(config.latitudeDegrees).None?
      ensures p != ParseFailure ==>
        (star.dec > parse(config.latitudeDegrees).value || star.dec < parse(config.latitudeDegrees).value - NINETY ==>
         p == Hidden)
      ensures p != ParseFailure && HasRisen(t, star.ra, star.dec, parse(config.latitudeDegrees).value, lst) ==> p == Hidden
      ensures p.Plotted? ==> 0.0 <= p.coordinate.x <= screen.width && 0.0 <= p.coordinate.y <= X_FACTOR - 1.0
      ensures p.Plotted? ==> p.coordinate.mag == star.mag && p.coordinate.name == star.name
    {
      match parse(config.latitudeDegrees)
      case None => ParseFailure
      case Some(lt) =>
        if star.dec > lt || star.dec < lt - NINETY then Hidden
        else if HasRisen(t, star.ra, star.dec, lt, lst) then Hidden
        else
          var x := Y_FACTOR + SouthernHourOffset(lst, star.ra) * (23.33 * southernDefaultFactor);
          var y := (1.73 * southernDefaultFactor) * (lt - star.dec);
          if x > screen.width || x < 0.0 then Hidden
          else if y < 0.0 || y > X_FACTOR - 1.0 then Hidden
          else Plotted(Coordinate(x, y, star.mag, star.name))
    }

    /** `getCoordinate`: the northern layout for `NORTH` only; `SOUTH`, `UNDEFINED` and `null` take the southern one. */
    function GetCoordinate(t: Trig, horizon: Option<Horizon>, config: Config, star: Star,
                           clockLst: real, parse: string -> Option<real>): (p: Plot)
      reads this
      ensures horizon == Some(North) ==> p == NorthernCoordinate(t, config, star, parse)
      ensures horizon != Some(North) ==> p == SouthernCoordinate(t, config, star, clockLst, parse)
    {
      if horizon == Some(North) then NorthernCoordinate(t, config, star, parse)
      else SouthernCoordinate(t, config, star, clockLst, parse)
    }
  }
}
