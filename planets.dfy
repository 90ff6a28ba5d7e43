/**
 * `Planet`: a solar-system body with its computed position, and the
 * display rules the chart applies to it.
 */
module Planets {
  import opened Maths
  import opened Options
  import opened Text

  /**
   * The orbital elements some bodies record: semi-major axis (AU),
   * eccentricity, inclination, longitude of the ascending node, argument of
   * perihelion and mean longitude (degrees).
   */
  datatype Elements = Elements(
    semiMajorAxis: real, eccentricity: real, inclination: real,
    ascendingNode: real, argumentOfPerihelion: real, meanLongitude: real)

  /**
   * A body: name, RA (hours), Dec (degrees), magnitude, distance (AU) and
   * phase description, plus the kind ("planet", "asteroid", ...) and the
   * elements where the service records them.
   */
  datatype Planet = Planet(
    name: string, kind: Option<string>, ra: real, dec: real, magnitude: real,
    distance: real, phase: string, elements: Option<Elements>)

  const WHITE: string := "#FFFFFF"

  /** The seven major planets, lower-case, in the order of the colour switch. */
  const MAJOR_PLANETS: seq<string> := ["mercury", "venus", "mars", "jupiter", "saturn", "uranus", "neptune"]

  /** The switch of `getDisplayColor` on an already lower-cased name. */
  function ColourOf(key: string): (c: string)
    ensures c != WHITE <==> key in MAJOR_PLANETS
  {
    if key == "mercury" then "#A0A0A0"
    else if key == "venus" then "#FFF8DC"
    else if key == "mars" then "#CD5C5C"
    else if key == "jupiter" then "#DAA520"
    else if key == "saturn" then "#F0E68C"
    else if key == "uranus" then "#4FD0E0"
    else if key == "neptune" then "#4169E1"
    else WHITE
  }

  /** `getDisplayColor`: the colour of the lower-cased name; white for Pluto, the asteroids and any other name. */
  function DisplayColour(p: Planet): (c: string)
    ensures c != WHITE <==> ToLower(p.name) in MAJOR_PLANETS
  {
    ColourOf(ToLower(p.name))
  }

  /** Different major planets get different colours. */
  lemma MajorColoursDistinct(a: string, b: string)
    requires a in MAJOR_PLANETS && b in MAJOR_PLANETS && a != b
    ensures ColourOf(a) != ColourOf(b)
  {
  }

  /** Colour depends on the name only up to case. */
  lemma ColourIgnoresCase(p: Planet, q: Planet)
    requires ToLower(p.name) == ToLower(q.name)
    ensures DisplayColour(p) == DisplayColour(q)
  {
  }

  /** `getDisplaySize`: `max(4, 10 - 1.5 magnitude)`; brighter bodies are drawn larger. */
  function DisplaySize(p: Planet): (size: real)
    ensures size >= 4.0
    ensures p.magnitude >= 4.0 ==> size == 4.0
    ensures p.magnitude < 4.0 ==> size == 10.0 - p.magnitude * 1.5
  {
    Max(4.0, 10.0 - p.magnitude * 1.5)
  }

  /** A fainter body is never drawn larger. */
  lemma DisplaySizeMonotone(p: Planet, q: Planet)
    requires p.magnitude <= q.magnitude
    ensures DisplaySize(q) <= DisplaySize(p)
  {
  }

  /** `hasValidCoordinates`: RA in [0, 24] and Dec in [-90, 90], ends included. */
  predicate HasValidCoordinates(p: Planet)
  {
    0.0 <= p.ra <= 24.0 && -90.0 <= p.dec <= 90.0
  }
}
