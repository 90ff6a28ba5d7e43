/**
 * The calendar, sidereal-time and coordinate arithmetic the Sun and Moon
 * calculators share (each has its own identical copy): the
 * Gregorian-to-Julian-Date algorithm of Meeus, "Astronomical Algorithms",
 * chapter 7, local mean sidereal time, and the conversion of equatorial
 * coordinates to hour angle, altitude and azimuth.
 */
module Ephemeris {
  import opened Maths

  /** Julian Date of 2000 January 1, 12:00. */
  const J2000: real := 2451545.0

  /** A calendar date. */
  datatype Date = Date(year: int, month: int, day: int)

  predicate IsLeapYear(y: int)
  {
    y % 4 == 0 && (y % 100 != 0 || y % 400 == 0)
  }

  function DaysInMonth(y: int, m: int): int
    requires 1 <= m <= 12
  {
    if m == 2 then (if IsLeapYear(y) then 29 else 28)
    else if m == 4 || m == 6 || m == 9 || m == 11 then 30
    else 31
  }

  predicate ValidDate(d: Date)
  {
    1 <= d.month <= 12 && 1 <= d.day <= DaysInMonth(d.year, d.month)
  }

  /** The following day of the Gregorian calendar. */
  function NextDay(d: Date): (n: Date)
    requires ValidDate(d)
    ensures ValidDate(n)
  {
    if d.day < DaysInMonth(d.year, d.month) then d.(day := d.day + 1)
    else if d.month < 12 then Date(d.year, d.month + 1, 1)
    else Date(d.year + 1, 1, 1)
  }

  /** The time of day in hours. */
  function HourOfDay(hour: int, minute: int, second: int): real
  {
    hour as real + minute as real / 60.0 + second as real / 3600.0
  }

  /** The whole-day part of `toJulianDate`, before the half-day shift. */
  function DayNumber(d: Date): int
  {
    var y := if d.month <= 2 then d.year - 1 else d.year;
    var m := if d.month <= 2 then d.month + 12 else d.month;
    var a := JavaDiv(y, 100);
    var b := 2 - a + JavaDiv(a, 4);
    (365.25 * (y + 4716) as real).Floor + (30.6001 * (m + 1) as real).Floor + d.day + b
  }

  /**
   * Java's `toJulianDate`: January and February count as months 13 and 14
   * of the previous year, `a = year / 100` and `b = 2 - a + a / 4` (Java's
   * truncating integer division) give the Gregorian correction, and the
   * time of day is added as a fraction of a day.
   */
  function JulianDate(d: Date, hour: int, minute: int, second: int): (jd: real)
    ensures jd == DayNumber(d) as real + HourOfDay(hour, minute, second) / 24.0 - 1524.5
  {
    var y := if d.month <= 2 then d.year - 1 else d.year;
    var m := if d.month <= 2 then d.month + 12 else d.month;
    var a := JavaDiv(y, 100);
    var b := 2 - a + JavaDiv(a, 4);
    (365.25 * (y + 4716) as real).Floor as real + (30.6001 * (m + 1) as real).Floor as real +
    d.day as real + HourOfDay(hour, minute, second) / 24.0 + b as real - 1524.5
  }

  /** Noon of 2000 January 1 is the J2000 epoch. */
  lemma J2000Noon()
    ensures JulianDate(Date(2000, 1, 1), 12, 0, 0) == J2000
  {
    assert (365.25 * 6715 as real).Floor == 2452653;
    assert (30.6001 * 14 as real).Floor == 428;
    assert DayNumber(Date(2000, 1, 1)) == 2452653 + 428 + 1 - 13;
  }

  /** `floor(365.25 * n)` is `365 n + floor(n / 4)`. */
  lemma YearDays(n: int)
    ensures (365.25 * n as real).Floor == 365 * n + n / 4
  {
    var q, r := n / 4, n % 4;
    assert n == 4 * q + r;
    assert 365.25 * n as real == (365 * n + q) as real + r as real / 4.0;
  }

  /** `floor(30.6001 * (m + 1))` for the shifted months 3 (March) to 14 (February). */
  function MonthStart(m: int): int
    requires 3 <= m <= 14
  {
    [122, 153, 183, 214, 244, 275, 306, 336, 367, 397, 428, 459][m - 3]
  }

  lemma MonthDays(m: int)
    requires 3 <= m <= 14
    ensures (30.6001 * (m + 1) as real).Floor == MonthStart(m)
  {
  }

  /** The Gregorian correction of a (shifted) year, for years from -1 on. */
  function Correction(y: int): int
  {
    var a := JavaDiv(y, 100);
    2 - a + JavaDiv(a, 4)
  }

  /** Across a year boundary the correction drops by one, except at multiples of 400. */
  lemma CorrectionStep(y: int)
    requires y >= 0
    ensures Correction(y) - Correction(y - 1) ==
      (if y % 100 == 0 && y % 400 != 0 then -1 else 0)
  {
    if y == 0 {
      assert JavaDiv(-1, 100) == 0;
    } else {
      var a := y / 100;
      CenturyPredecessor(y);
      if y % 100 == 0 {
        DivPredecessor(a);
        CenturyMultiple(y);
      }
    }
  }

  /** Euclidean division by 100 of a predecessor. */
  lemma CenturyPredecessor(n: int)
    ensures (n - 1) / 100 == if n % 100 == 0 then n / 100 - 1 else n / 100
  {
    var q, r := n / 100, n % 100;
    if r == 0 {
      assert n - 1 == 100 * (q - 1) + 99;
    } else {
      assert n - 1 == 100 * q + (r - 1);
    }
  }

  /** A century year is a multiple of 400 exactly when its century is a multiple of 4. */
  lemma CenturyMultiple(y: int)
    requires y % 100 == 0
    ensures y % 400 == 0 <==> (y / 100) % 4 == 0
  {
    var a := y / 100;
    assert y == 100 * a;
    var q, r := a / 4, a % 4;
    assert y == 400 * q + 100 * r;
  }

  /** The day number in closed form, for a shifted year `y` and month `m` in 3..14. */
  function DayCount(y: int, m: int, day: int): int
    requires 3 <= m <= 14
  {
    365 * (y + 4716) + (y + 4716) / 4 + MonthStart(m) + day + Correction(y)
  }

  lemma DayNumberForm(d: Date)
    requires 1 <= d.month <= 12
    ensures DayNumber(d) ==
      if d.month <= 2 then DayCount(d.year - 1, d.month + 12, d.day) else DayCount(d.year, d.month, d.day)
  {
    var y := if d.month <= 2 then d.year - 1 else d.year;
    var m := if d.month <= 2 then d.month + 12 else d.month;
    YearDays(y + 4716);
    MonthDays(m);
  }

  /** Euclidean division of a predecessor. */
  lemma DivPredecessor(n: int)
    ensures (n - 1) / 4 == if n % 4 == 0 then n / 4 - 1 else n / 4
  {
    var q, r := n / 4, n % 4;
    assert n - 1 == 4 * q + r - 1;
    if r == 0 {
      assert n - 1 == 4 * (q - 1) + 3;
    } else {
      assert n - 1 == 4 * q + (r - 1);
    }
  }

  /**
   * For years from 0 on, consecutive calendar days, across month and year
   * ends and leap days included, are exactly one Julian day apart.
   */
  lemma NextDayIsOneLater(d: Date)
    requires ValidDate(d) && d.year >= 0
    ensures DayNumber(NextDay(d)) == DayNumber(d) + 1
  {
    if d.day < DaysInMonth(d.year, d.month) {
      WithinMonth(d);
    } else if d.month == 2 {
      AcrossFebruary(d);
    } else {
      AcrossMonth(d);
    }
  }

  lemma WithinMonth(d: Date)
    requires 1 <= d.month <= 12
    ensures DayNumber(d.(day := d.day + 1)) == DayNumber(d) + 1
  {
    DayNumberForm(d);
    DayNumberForm(d.(day := d.day + 1));
  }

  /** The last day of February, in a leap year or not, is followed by the first of March. */
  lemma AcrossFebruary(d: Date)
    requires d.month == 2 && d.day == DaysInMonth(d.year, 2) && d.year >= 0
    ensures DayNumber(Date(d.year, 3, 1)) == DayNumber(d) + 1
  {
    DayNumberForm(d);
    DayNumberForm(Date(d.year, 3, 1));
    LeapDay(d.year);
  }

  /** The last day of a month other than February. */
  lemma AcrossMonth(d: Date)
    requires 1 <= d.month <= 12 && d.month != 2 && d.day == DaysInMonth(d.year, d.month)
    ensures DayNumber(if d.month < 12 then Date(d.year, d.month + 1, 1) else Date(d.year + 1, 1, 1)) ==
      DayNumber(d) + 1
  {
    var n := if d.month < 12 then Date(d.year, d.month + 1, 1) else Date(d.year + 1, 1, 1);
    DayNumberForm(d);
    DayNumberForm(n);
    if d.month == 1 {
      assert DayNumber(d) == DayCount(d.year - 1, 13, 31);
      assert DayNumber(n) == DayCount(d.year - 1, 14, 1);
      MonthEnd(d.year - 1, 13);
    } else if d.month == 12 {
      assert DayNumber(d) == DayCount(d.year, 12, 31);
      assert DayNumber(n) == DayCount(d.year, 13, 1);
      MonthEnd(d.year, 12);
    } else {
      assert DayNumber(d) == DayCount(d.year, d.month, DaysInMonth(d.year, d.month));
      assert DayNumber(n) == DayCount(d.year, d.month + 1, 1);
      MonthEnd(d.year, d.month);
    }
  }

  /** The last day of a shifted month other than February is followed by the first of the next. */
  lemma MonthEnd(y: int, m: int)
    requires 3 <= m <= 13
    ensures DayCount(y, m + 1, 1) ==
      DayCount(y, m, if m == 13 then 31 else DaysInMonth(y, m)) + 1
  {
  }

  /** From the last of February to the first of March: the shifted year changes. */
  lemma LeapDay(y: int)
    requires y >= 0
    ensures DayCount(y, 3, 1) == DayCount(y - 1, 14, DaysInMonth(y, 2)) + 1
  {
    LeapYearStep(y);
    assert MonthStart(3) == 122 && MonthStart(14) == 459;
  }

  /** The year terms of the day count grow by one more than 365 exactly into a leap year. */
  lemma LeapYearStep(y: int)
    requires y >= 0
    ensures (y + 4716) / 4 - (y + 4715) / 4 + Correction(y) - Correction(y - 1) == if IsLeapYear(y) then 1 else 0
  {
    var c := Correction(y) - Correction(y - 1);
    CorrectionStep(y);
    assert c == if y % 100 == 0 && y % 400 != 0 then -1 else 0;
    var d := (y + 4716) / 4 - (y + 4715) / 4;
    QuarterStep(y);
    assert d == if y % 4 == 0 then 1 else 0;
    CenturyLeap(y);
  }

  /** Between the shifted years the quarter count grows exactly into a multiple of 4. */
  lemma QuarterStep(y: int)
    ensures (y + 4716) / 4 - (y + 4715) / 4 == if y % 4 == 0 then 1 else 0
  {
    DivPredecessor(y + 4716);
    assert y + 4716 == y + 4 * 1179;
  }

  /** Every century year is a multiple of 4. */
  lemma CenturyLeap(y: int)
    ensures y % 100 == 0 ==> y % 4 == 0
  {
    if y % 100 == 0 {
      assert y == 4 * (25 * (y / 100));
    }
  }

  /** Consecutive days at the same time of day are one Julian day apart. */
  lemma JulianDateNextDay(d: Date, hour: int, minute: int, second: int)
    requires ValidDate(d) && d.year >= 0
    ensures JulianDate(NextDay(d), hour, minute, second) == JulianDate(d, hour, minute, second) + 1.0
  {
    NextDayIsOneLater(d);
  }

  /** The time of day adds its fraction of a day to the Julian Date. */
  lemma TimeOfDay(d: Date, hour: int, minute: int, second: int)
    ensures JulianDate(d, hour, minute, second) ==
      JulianDate(d, 0, 0, 0) + (hour as real + minute as real / 60.0 + second as real / 3600.0) / 24.0
  {
  }

  /**
   * Java's `calculateLocalSiderealTime`: Greenwich mean sidereal time from
   * the days since J2000, wrapped into [0, 24), plus the longitude in
   * hours, then brought back by one day if it left [0, 24).
   */
  function LocalSiderealTime(jd: real, longitude: real): (lst: real)
    ensures -180.0 <= longitude <= 180.0 ==> 0.0 <= lst < 24.0
  {
    var n := jd - J2000;
    var gmst := Wrap(18.697374558 + 24.06570982441908 * n, 24.0);
    var lst0 := gmst + longitude / 15.0;
    var lst1 := if lst0 < 0.0 then lst0 + 24.0 else lst0;
    if lst1 >= 24.0 then lst1 - 24.0 else lst1
  }

  /** `Math.toDegrees(alpha) / 15`, brought into [0, 24) by one `+ 24` when negative. */
  function RaHours(alpha: real): (ra: real)
    ensures -PI <= alpha <= PI ==> 0.0 <= ra < 24.0
  {
    var ra := ToDegrees(alpha) / 15.0;
    if ra < 0.0 then ra + 24.0 else ra
  }

  /** RA in hours is the angle in degrees over 15, modulo a day. */
  lemma RaHoursTurns(alpha: real)
    ensures Turns(ToDegrees(alpha) / 15.0, RaHours(alpha), 24.0, 0) ||
            Turns(ToDegrees(alpha) / 15.0, RaHours(alpha), 24.0, 1)
  {
  }

  /**
   * `lst - ra`, plus 24 when negative, minus 24 when above 24. For a
   * sidereal time and an RA both in [0, 24) the result is in [0, 24) and
   * the second correction never applies.
   */
  function HourAngle(lst: real, ra: real): (h: real)
    ensures 0.0 <= lst < 24.0 && 0.0 <= ra < 24.0 ==>
      0.0 <= h < 24.0 && h == (if lst - ra < 0.0 then lst - ra + 24.0 else lst - ra)
  {
    var h0 := lst - ra;
    var h1 := if h0 < 0.0 then h0 + 24.0 else h0;
    if h1 > 24.0 then h1 - 24.0 else h1
  }

  /** `Math.toDegrees(a)`, plus 360 when negative. */
  function AzimuthDegrees(a: real): (az: real)
    ensures -PI <= a <= PI ==> 0.0 <= az < 360.0
  {
    var az := ToDegrees(a);
    if az < 0.0 then az + 360.0 else az
  }

  /** `Math.toDegrees` of an arcsine of a value in [-1, 1]: within [-90, 90]. */
  lemma AsinDegrees(t: Trig, x: real)
    requires Lawful(t) && -1.0 <= x <= 1.0
    ensures -90.0 <= ToDegrees(t.asin(x)) <= 90.0
  {
    var a := t.asin(x);
    assert -PI / 2.0 <= a <= PI / 2.0;
    MulLeft(-PI / 2.0, a, 180.0 / PI);
    MulLeft(a, PI / 2.0, 180.0 / PI);
  }

  /**
   * The sine of the altitude of a body at declination `dec` and hour angle
   * `h` seen from latitude `lat`, all in radians:
   * `sin lat sin dec + cos lat cos dec cos h`.
   */
  function AltitudeSine(t: Trig, lat: real, dec: real, h: real): real
  {
    t.sin(lat) * t.sin(dec) + t.cos(lat) * t.cos(dec) * t.cos(h)
  }

  /** Altitude and azimuth in degrees, and the hour angle they came from. */
  datatype Horizontal = Horizontal(hourAngle: real, altitude: real, azimuth: real)

  /**
   * The horizontal coordinates of a body at (ra hours, dec degrees) for a
   * sidereal time and a latitude: the hour angle, then
   * `asin(sin lat sin dec + cos lat cos dec cos h)` and
   * `atan2(-sin h, tan dec cos lat - sin lat cos h)` in degrees, the
   * azimuth moved into [0, 360).
   */
  function ToHorizontal(t: Trig, ra: real, dec: real, lst: real, latitude: real): (c: Horizontal)
    requires Lawful(t)
    ensures c.hourAngle == HourAngle(lst, ra)
    ensures -90.0 <= c.altitude <= 90.0 && 0.0 <= c.azimuth < 360.0
  {
    var hourAngle := HourAngle(lst, ra);
    var h := ToRadians(hourAngle * 15.0);
    var lat := ToRadians(latitude);
    var decRad := ToRadians(dec);
    var alt := t.asin(t.sin(lat) * t.sin(decRad) + t.cos(lat) * t.cos(decRad) * t.cos(h));
    var az := t.atan2(-t.sin(h), t.tan(decRad) * t.cos(lat) - t.sin(lat) * t.cos(h));
    UnitSine(t, lat, decRad, t.cos(h));
    AsinDegrees(t, t.sin(lat) * t.sin(decRad) + t.cos(lat) * t.cos(decRad) * t.cos(h));
    Horizontal(hourAngle, ToDegrees(alt), AzimuthDegrees(az))
  }
}
