/**
 * The value classes the Sun and Moon calculators return: a position in
 * equatorial (RA in hours, Dec in degrees) and horizontal (altitude,
 * azimuth in degrees) coordinates with a derived visibility flag, and for
 * the Moon its illuminated fraction and phase name.
 *
 * Java's `String.format` of a double (`%.1f`, `%.0f`) is not modelled: the
 * display functions take the formatter as a parameter.
 */
module Positions {
  import opened Maths

  datatype SunPosition = SunPosition(ra: real, dec: real, altitude: real, azimuth: real, visible: bool)

  /** The 4-argument constructor: the coordinates are kept and visibility is derived. */
  function NewSunPosition(ra: real, dec: real, altitude: real, azimuth: real): (p: SunPosition)
    ensures p.ra == ra && p.dec == dec && p.altitude == altitude && p.azimuth == azimuth
    ensures p.visible <==> altitude > 0.0
  {
    SunPosition(ra, dec, altitude, azimuth, altitude > 0.0)
  }

  /** A Sun exactly on the horizon does not count as visible. */
  lemma SunOnHorizonHidden(ra: real, dec: real, azimuth: real)
    ensures !NewSunPosition(ra, dec, 0.0, azimuth).visible
  {
  }

  const SUN_VISIBLE_PREFIX: string := "☀ Sun: Visible (alt: "
  const SUN_BELOW_PREFIX: string := "☀ Sun: Below horizon ("

  /**
   * `getDisplayStatus`: the "Visible" message with the altitude when the Sun
   * is visible, otherwise the "Below horizon" message with the altitude's
   * magnitude. `fmt` stands for the `%.1f` conversion.
   */
  function SunDisplayStatus(p: SunPosition, fmt: real -> string): (s: string)
    ensures p.visible ==> s == SUN_VISIBLE_PREFIX + fmt(p.altitude) + "°)"
    ensures !p.visible ==> s == SUN_BELOW_PREFIX + fmt(Abs(p.altitude)) + "° below)"
  {
    if p.visible then SUN_VISIBLE_PREFIX + fmt(p.altitude) + "°)"
    else SUN_BELOW_PREFIX + fmt(Abs(p.altitude)) + "° below)"
  }

  /** The two messages are told apart by their prefixes, so the branch taken is the visibility. */
  lemma SunStatusShowsVisibility(p: SunPosition, fmt: real -> string)
    ensures SunDisplayStatus(p, fmt)[..|SUN_VISIBLE_PREFIX|] == SUN_VISIBLE_PREFIX <==> p.visible
  {
    var s := SunDisplayStatus(p, fmt);
    if !p.visible {
      assert s[7] == SUN_BELOW_PREFIX[7] != SUN_VISIBLE_PREFIX[7];
    }
  }

  datatype MoonPosition = MoonPosition(
    ra: real, dec: real, altitude: real, azimuth: real,
    illumination: real, phaseName: string, visible: bool)

  /** The 6-argument constructor: the inputs are kept and visibility is derived. */
  function NewMoonPosition(ra: real, dec: real, altitude: real, azimuth: real,
                           illumination: real, phaseName: string): (p: MoonPosition)
    ensures p.ra == ra && p.dec == dec && p.altitude == altitude && p.azimuth == azimuth
    ensures p.illumination == illumination && p.phaseName == phaseName
    ensures p.visible <==> altitude > 0.0
  {
    MoonPosition(ra, dec, altitude, azimuth, illumination, phaseName, altitude > 0.0)
  }

  /** The eight phase glyphs, from new to waning crescent. */
  const NEW: string := "\U{1F311}"
  const WAXING_CRESCENT: string := "\U{1F312}"
  const FIRST_QUARTER: string := "\U{1F313}"
  const WAXING_GIBBOUS: string := "\U{1F314}"
  const FULL: string := "\U{1F315}"
  const WANING_GIBBOUS: string := "\U{1F316}"
  const LAST_QUARTER: string := "\U{1F317}"
  const WANING_CRESCENT: string := "\U{1F318}"

  /** `getPhaseEmoji`: an if-chain over the illumination with ascending cut-offs. */
  function PhaseEmoji(illumination: real): (e: string)
    ensures illumination < 0.05 ==> e == NEW
    ensures 0.05 <= illumination < 0.25 ==> e == WAXING_CRESCENT
    ensures 0.25 <= illumination < 0.35 ==> e == FIRST_QUARTER
    ensures 0.35 <= illumination < 0.65 ==> e == WAXING_GIBBOUS
    ensures 0.65 <= illumination < 0.85 ==> e == FULL
    ensures 0.85 <= illumination < 0.95 ==> e == WANING_GIBBOUS
    ensures 0.95 <= illumination ==> e == LAST_QUARTER
  {
    if illumination < 0.05 then NEW
    else if illumination < 0.25 then WAXING_CRESCENT
    else if illumination < 0.35 then FIRST_QUARTER
    else if illumination < 0.65 then WAXING_GIBBOUS
    else if illumination < 0.85 then FULL
    else if illumination < 0.95 then WANING_GIBBOUS
    else if illumination > 0.65 then LAST_QUARTER
    else WANING_CRESCENT
  }

  /** The last branch of the chain is dead: every illumination maps to one of the first seven glyphs. */
  lemma NoWaningCrescentGlyph(illumination: real)
    ensures PhaseEmoji(illumination) != WANING_CRESCENT
  {
  }

  /** The glyph never moves backwards through the chain as illumination grows. */
  function GlyphRank(e: string): int
  {
    if e == NEW then 0 else if e == WAXING_CRESCENT then 1 else if e == FIRST_QUARTER then 2
    else if e == WAXING_GIBBOUS then 3 else if e == FULL then 4 else if e == WANING_GIBBOUS then 5
    else if e == LAST_QUARTER then 6 else 7
  }

  lemma PhaseEmojiMonotone(a: real, b: real)
    requires a <= b
    ensures GlyphRank(PhaseEmoji(a)) <= GlyphRank(PhaseEmoji(b))
  {
  }

  /** `Math.round`: the nearest integer, halves rounded up. */
  function Round(x: real): (r: int)
    ensures x - 0.5 < r as real <= x + 0.5
  {
    (x + 0.5).Floor
  }

  /** `getIlluminationPercent`: the illumination as a rounded percentage. */
  function IlluminationPercent(p: MoonPosition): (pct: int)
    ensures p.illumination * 100.0 - 0.5 < pct as real <= p.illumination * 100.0 + 0.5
    ensures 0.0 <= p.illumination <= 1.0 ==> 0 <= pct <= 100
  {
    Round(p.illumination * 100.0)
  }

  const BELOW_HORIZON: string := " - Below horizon"

  /**
   * `getDisplayStatus`: glyph, phase name and the `%.0f` percentage, then
   * " - Below horizon" exactly when the Moon is not visible.
   */
  function MoonDisplayStatus(p: MoonPosition, fmt: real -> string): (s: string)
    ensures var base := PhaseEmoji(p.illumination) + " " + p.phaseName + " (" + fmt(p.illumination * 100.0) + "% lit)";
      s == if p.visible then base else base + BELOW_HORIZON
  {
    var status := PhaseEmoji(p.illumination) + " " + p.phaseName + " (" + fmt(p.illumination * 100.0) + "% lit)";
    if !p.visible then status + BELOW_HORIZON else status
  }

  /** The status ends with the below-horizon suffix exactly when the Moon is hidden (the base ends in ')'). */
  lemma BelowHorizonSuffix(p: MoonPosition, fmt: real -> string)
    ensures var s := MoonDisplayStatus(p, fmt);
      (|s| >= |BELOW_HORIZON| && s[|s| - |BELOW_HORIZON|..] == BELOW_HORIZON) <==> !p.visible
  {
    var s := MoonDisplayStatus(p, fmt);
    if p.visible {
      assert s[|s| - 1] == ')' != BELOW_HORIZON[|BELOW_HORIZON| - 1];
    }
  }
}
