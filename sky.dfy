/**
 * The plain data records the star index and the catalog loader pass around.
 */
module Sky {
  import opened Options

  /**
   * A catalogue star: right ascension in hours, declination in degrees,
   * visual magnitude and a display name.
   */
  datatype Star = Star(ra: real, dec: real, mag: real, name: string)

  /** A loaded catalogue document; its `objects` list may be absent. */
  datatype Stars = Stars(starList: Option<seq<Star>>)
}
