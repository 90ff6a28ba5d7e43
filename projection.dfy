/**
 * The planetarium's sky projection: converts a position (RA in hours, Dec
 * in degrees) to canvas pixels in one of three view modes, or to "not
 * shown". The projection object is a record whose setters are record
 * updates.
 */
module Projection {
  import opened Maths
  import opened Options

  datatype SkyViewMode = SingleHemisphere | DualHemisphere | FullSkyMercator

  /** A canvas position in pixels. */
  datatype Point = Point(x: real, y: real)

  datatype SkyProjection = SkyProjection(
    centerRA: real, centerDec: real, fieldOfView: real,
    canvasWidth: real, canvasHeight: real,
    latitude: real, localSiderealTime: real,
    viewMode: SkyViewMode)
  {
    /** `setViewMode`. */
    function WithViewMode(mode: SkyViewMode): (p: SkyProjection)
      ensures p.viewMode == mode && p.(viewMode := viewMode) == this
    {
      this.(viewMode := mode)
    }

    /** The point lies on the canvas, edges included. */
    predicate OnCanvas(pt: Point)
    {
      0.0 <= pt.x <= canvasWidth && 0.0 <= pt.y <= canvasHeight
    }
  }

  /**
   * The five-argument constructor: single-hemisphere mode; latitude and
   * sidereal time keep Java's default of 0.
   */
  function NewProjection(centerRA: real, centerDec: real, fieldOfView: real,
                         canvasWidth: real, canvasHeight: real): (p: SkyProjection)
    ensures p.viewMode == SingleHemisphere
    ensures p.centerRA == centerRA && p.centerDec == centerDec && p.fieldOfView == fieldOfView
    ensures p.canvasWidth == canvasWidth && p.canvasHeight == canvasHeight
  {
    SkyProjection(centerRA, centerDec, fieldOfView, canvasWidth, canvasHeight, 0.0, 0.0, SingleHemisphere)
  }

  /**
   * Java's `raDecToScreen`: dispatch on the view mode, single hemisphere
   * being the default branch. Only the single mode divides by the field of
   * view in radians, so only there must it not be zero.
   */
  function RaDecToScreen(p: SkyProjection, t: Trig, ra: real, dec: real): (r: Option<Point>)
    requires p.viewMode == SingleHemisphere ==> p.fieldOfView != 0.0
    ensures p.viewMode == DualHemisphere ==> r == DualScreen(p, t, ra, dec)
    ensures p.viewMode == FullSkyMercator ==> r == MercatorScreen(p, ra, dec)
    ensures p.viewMode == SingleHemisphere ==> r == SingleScreen(p, t, ra, dec)
  {
    match p.viewMode
    case DualHemisphere => DualScreen(p, t, ra, dec)
    case FullSkyMercator => MercatorScreen(p, ra, dec)
    case SingleHemisphere => SingleScreen(p, t, ra, dec)
  }

  /** The cosine of the angle between the position and the view centre. */
  function CosDistance(p: SkyProjection, t: Trig, ra: real, dec: real): real
  {
    var raRad := ToRadians(ra * 15.0);
    var decRad := ToRadians(dec);
    var centerRARad := ToRadians(p.centerRA * 15.0);
    var centerDecRad := ToRadians(p.centerDec);
    t.sin(decRad) * t.sin(centerDecRad) +
    t.cos(decRad) * t.cos(centerDecRad) * t.cos(raRad - centerRARad)
  }

  /** The stereographic x offset, in radians, before scaling. */
  function StereoX(p: SkyProjection, t: Trig, ra: real, dec: real): real
    requires CosDistance(p, t, ra, dec) >= 0.0
  {
    var raRad := ToRadians(ra * 15.0);
    var decRad := ToRadians(dec);
    var centerRARad := ToRadians(p.centerRA * 15.0);
    var k := 2.0 / (1.0 + CosDistance(p, t, ra, dec));
    k * t.cos(decRad) * t.sin(raRad - centerRARad)
  }

  /** The stereographic y offset, in radians, before scaling. */
  function StereoY(p: SkyProjection, t: Trig, ra: real, dec: real): real
    requires CosDistance(p, t, ra, dec) >= 0.0
  {
    var raRad := ToRadians(ra * 15.0);
    var decRad := ToRadians(dec);
    var centerRARad := ToRadians(p.centerRA * 15.0);
    var centerDecRad := ToRadians(p.centerDec);
    var k := 2.0 / (1.0 + CosDistance(p, t, ra, dec));
    k * (t.cos(centerDecRad) * t.sin(decRad) -
         t.sin(centerDecRad) * t.cos(decRad) * t.cos(raRad - centerRARad))
  }

  /**
   * The single-hemisphere (stereographic) projection: nothing for the far
   * side of the sphere (cosine of the distance below zero) or for a point
   * that falls off the canvas; otherwise the scaled projected point.
   */
  function SingleScreen(p: SkyProjection, t: Trig, ra: real, dec: real): (r: Option<Point>)
    requires p.fieldOfView != 0.0
    ensures CosDistance(p, t, ra, dec) < 0.0 ==> r.None?
    ensures r.Some? ==> p.OnCanvas(r.value)
  {
    if CosDistance(p, t, ra, dec) < 0.0 then None
    else
      var scale := Min(p.canvasWidth, p.canvasHeight) / ToRadians(p.fieldOfView);
      var screenX := p.canvasWidth / 2.0 + StereoX(p, t, ra, dec) * scale;
      var screenY := p.canvasHeight / 2.0 - StereoY(p, t, ra, dec) * scale;
      if screenX < 0.0 || screenX > p.canvasWidth || screenY < 0.0 || screenY > p.canvasHeight then None
      else Some(Point(screenX, screenY))
  }

  /**
   * The view centre lands in the middle of the canvas. Only sin 0 = 0,
   * cos 0 = 1 and sin^2 + cos^2 = 1 are used.
   */
  lemma CentreMapsToMiddle(p: SkyProjection, t: Trig)
    requires Lawful(t) && p.fieldOfView != 0.0 && p.canvasWidth >= 0.0 && p.canvasHeight >= 0.0
    ensures SingleScreen(p, t, p.centerRA, p.centerDec) == Some(Point(p.canvasWidth / 2.0, p.canvasHeight / 2.0))
  {
    var c := ToRadians(p.centerDec);
    var d := ToRadians(p.centerRA * 15.0);
    assert d - d == 0.0;
    assert t.sin(d - d) == 0.0 && t.cos(d - d) == 1.0;
    assert t.sin(c) * t.sin(c) + t.cos(c) * t.cos(c) == 1.0;
    assert CosDistance(p, t, p.centerRA, p.centerDec) == 1.0;
    assert StereoX(p, t, p.centerRA, p.centerDec) == 0.0;
    assert t.cos(c) * t.sin(c) - t.sin(c) * t.cos(c) * 1.0 == 0.0;
    assert StereoY(p, t, p.centerRA, p.centerDec) == 0.0;
  }

  /** Dec 0 or above goes to the northern (left) half, below 0 to the southern (right) half. */
  predicate IsNorthern(dec: real)
  {
    dec >= 0.0
  }

  /**
   * The dual-hemisphere projection: an azimuthal projection around the
   * north pole into the left half of the canvas for Dec >= 0, around the
   * south pole into the right half otherwise; nothing when the scaled
   * distance from the pole exceeds half the canvas height or the point
   * leaves its half.
   */
  function DualScreen(p: SkyProjection, t: Trig, ra: real, dec: real): (r: Option<Point>)
    ensures r.Some? && IsNorthern(dec) ==> 0.0 <= r.value.x <= p.canvasWidth / 2.0
    ensures r.Some? && !IsNorthern(dec) ==> p.canvasWidth / 2.0 <= r.value.x <= p.canvasWidth
    ensures r.Some? ==> 0.0 <= r.value.y <= p.canvasHeight
    ensures PoleCos(t, dec) < 0.0 || PoleDistance(p, t, dec) > p.canvasHeight / 2.0 ==> r.None?
  {
    var raRad := ToRadians(ra * 15.0);
    var decRad := ToRadians(dec);
    var isNorthern := IsNorthern(dec);
    var hemisphereWidth := p.canvasWidth / 2.0;
    var hemisphereHeight := p.canvasHeight;
    if PoleCos(t, dec) < 0.0 then None
    else
      var azimuth := t.atan2(t.cos(decRad) * t.sin(raRad), t.cos(decRad) * t.cos(raRad));
      var radius := PoleDistance(p, t, dec);
      if radius > hemisphereHeight / 2.0 then None
      else
        var x := radius * t.sin(azimuth);
        var y := radius * t.cos(azimuth);
        var hemisphereOffsetX := if isNorthern then 0.0 else hemisphereWidth;
        var screenX := hemisphereOffsetX + hemisphereWidth / 2.0 + x;
        var screenY := hemisphereHeight / 2.0 - y;
        if screenX < hemisphereOffsetX || screenX > hemisphereOffsetX + hemisphereWidth ||
           screenY < 0.0 || screenY > hemisphereHeight then None
        else Some(Point(screenX, screenY))
  }

  /**
   * The cosine of the distance from the pole of the position's hemisphere
   * (the north pole for Dec >= 0, the south pole otherwise).
   */
  function PoleCos(t: Trig, dec: real): real
  {
    var decRad := ToRadians(dec);
    var centerDecRad := if IsNorthern(dec) then ToRadians(90.0) else ToRadians(-90.0);
    t.sin(decRad) * t.sin(centerDecRad) + t.cos(decRad) * t.cos(centerDecRad)
  }

  /** The angular distance from the pole, scaled so that the full PI spans the canvas height. */
  function PoleDistance(p: SkyProjection, t: Trig, dec: real): real
  {
    var angularDist := t.acos(Max(-1.0, Min(1.0, PoleCos(t, dec))));
    angularDist * p.canvasHeight / PI
  }

  /**
   * The full-sky projection: RA scaled linearly across the width (with at
   * most one wrap by the width), Dec linearly down the height; nothing when
   * y leaves the canvas.
   */
  function MercatorScreen(p: SkyProjection, ra: real, dec: real): (r: Option<Point>)
    ensures var y := p.canvasHeight / 2.0 - (dec / 180.0) * p.canvasHeight;
      (r.None? <==> (y < 0.0 || y > p.canvasHeight)) && (r.Some? ==> r.value.y == y)
    ensures r.Some? && 0.0 <= ra <= 24.0 && p.canvasWidth >= 0.0 ==>
      r.value.x == (ra / 24.0) * p.canvasWidth && 0.0 <= r.value.x <= p.canvasWidth
  {
    var x := MercatorX(p.canvasWidth, ra);
    var y := MercatorY(p.canvasHeight, dec);
    assert y == p.canvasHeight / 2.0 - (dec / 180.0) * p.canvasHeight;
    if y < 0.0 || y > p.canvasHeight then None else Some(Point(x, y))
  }

  /** The column: RA over 24 hours of the width, brought back by one width if it falls outside. */
  function MercatorX(width: real, ra: real): (x: real)
    ensures 0.0 <= ra <= 24.0 && width >= 0.0 ==> x == (ra / 24.0) * width && 0.0 <= x <= width
  {
    var x0 := (ra / 24.0) * width;
    var x1 := if x0 < 0.0 then x0 + width else x0;
    MercatorColumn(ra, width);
    if x1 > width then x1 - width else x1
  }

  /** The row: Dec in radians over PI of the height, measured down from the middle; PI cancels. */
  function MercatorY(height: real, dec: real): (y: real)
    ensures y == height / 2.0 - (dec / 180.0) * height
  {
    MercatorCancelsPi(dec);
    height / 2.0 - (ToRadians(dec) / PI) * height
  }

  lemma MercatorCancelsPi(dec: real)
    ensures ToRadians(dec) / PI == dec / 180.0
  {
  }

  lemma MercatorColumn(ra: real, width: real)
    ensures 0.0 <= ra <= 24.0 && width >= 0.0 ==> 0.0 <= (ra / 24.0) * width <= width
  {
    if 0.0 <= ra <= 24.0 && width > 0.0 {
      MulLeft(ra / 24.0, 1.0, width);
    }
  }

  /**
   * The three reference declinations: the north pole at the top, the
   * equator in the middle, the south pole at the bottom; with a positive
   * height no declination in [-90, 90] is rejected.
   */
  lemma MercatorRows(p: SkyProjection, ra: real, dec: real)
    requires p.canvasHeight > 0.0 && -90.0 <= dec <= 90.0
    ensures MercatorScreen(p, ra, dec).Some?
    ensures MercatorScreen(p, ra, 90.0).value.y == 0.0
    ensures MercatorScreen(p, ra, 0.0).value.y == p.canvasHeight / 2.0
    ensures MercatorScreen(p, ra, -90.0).value.y == p.canvasHeight
  {
    var h := p.canvasHeight;
    MulLeft(dec / 180.0, 0.5, h);
    MulLeft(-0.5, dec / 180.0, h);
  }

  /**
   * Java's `isInViewport`: the position is shown in the current mode. The
   * far side of the view centre is never shown in the single mode, nor a
   * position too far from its pole in the dual mode; in the full-sky mode
   * exactly the declinations whose row lies on the canvas are shown.
   */
  function IsInViewport(p: SkyProjection, t: Trig, ra: real, dec: real): (shown: bool)
    requires p.viewMode == SingleHemisphere ==> p.fieldOfView != 0.0
    ensures p.viewMode == SingleHemisphere && CosDistance(p, t, ra, dec) < 0.0 ==> !shown
    ensures p.viewMode == DualHemisphere && (PoleCos(t, dec) < 0.0 || PoleDistance(p, t, dec) > p.canvasHeight / 2.0)
      ==> !shown
    ensures p.viewMode == FullSkyMercator ==>
      (shown <==> 0.0 <= p.canvasHeight / 2.0 - (dec / 180.0) * p.canvasHeight <= p.canvasHeight)
  {
    RaDecToScreen(p, t, ra, dec) != None
  }

  /** In every mode, a position in the viewport is drawn on the canvas. */
  lemma ViewportOnCanvas(p: SkyProjection, t: Trig, ra: real, dec: real)
    requires p.viewMode == SingleHemisphere ==> p.fieldOfView != 0.0
    requires IsInViewport(p, t, ra, dec)
    requires p.viewMode == DualHemisphere || p.viewMode == FullSkyMercator ==> p.canvasWidth >= 0.0
    requires p.viewMode == FullSkyMercator ==> 0.0 <= ra <= 24.0
    ensures p.OnCanvas(RaDecToScreen(p, t, ra, dec).value)
  {
  }

  /** Java's `getHemisphere`: which half a column shows in dual mode; "Single" in the other modes. */
  function Hemisphere(p: SkyProjection, screenX: real): (s: string)
    ensures p.viewMode != DualHemisphere <==> s == "Single"
    ensures p.viewMode == DualHemisphere ==> (s == "North" <==> screenX < p.canvasWidth / 2.0)
  {
    if p.viewMode == DualHemisphere then
      (if screenX < p.canvasWidth / 2.0 then "North" else "South")
    else "Single"
  }
}
