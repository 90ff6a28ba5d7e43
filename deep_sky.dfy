/**
 * `DeepSkyObject`: a Messier object (galaxy, nebula, cluster, ...) and the
 * chart's display rules for it. Name and type may be absent (Java `null`).
 */
module DeepSky {
  import opened Options
  import opened Text

  datatype DeepSkyObject = DeepSkyObject(
    messierNumber: string, name: Option<string>, kind: Option<string>,
    ra: real, dec: real, magnitude: real, size: real, constellation: string)

  const SEPARATOR: string := " - "

  /** `getDisplayName`: "M31 - Andromeda Galaxy" when there is a non-empty name, else the Messier number alone. */
  function DisplayName(o: DeepSkyObject): (s: string)
    ensures o.name.Some? && o.name.value != "" ==> s == o.messierNumber + SEPARATOR + o.name.value
    ensures o.name.None? || o.name.value == "" ==> s == o.messierNumber
  {
    if o.name.Some? && o.name.value != "" then o.messierNumber + SEPARATOR + o.name.value
    else o.messierNumber
  }

  /** The Messier number always leads the display name, and the name, when shown, ends it. */
  lemma DisplayNameParts(o: DeepSkyObject)
    ensures var s := DisplayName(o);
      |s| >= |o.messierNumber| && s[..|o.messierNumber|] == o.messierNumber &&
      (o.name.Some? && o.name.value != "" ==> s[|s| - |o.name.value|..] == o.name.value)
  {
    var s := DisplayName(o);
    if o.name.Some? && o.name.value != "" {
      assert s == (o.messierNumber + SEPARATOR) + o.name.value;
    }
  }

  /** `hasValidCoordinates`: RA in [0, 24] and Dec in [-90, 90], ends included. */
  predicate HasValidCoordinates(o: DeepSkyObject)
  {
    0.0 <= o.ra <= 24.0 && -90.0 <= o.dec <= 90.0
  }

  const GOLD: string := "#FFD700"
  const GREEN: string := "#00FF00"
  const SKY_BLUE: string := "#87CEEB"
  const TOMATO: string := "#FF6347"
  const LIGHT_GRAY: string := "#CCCCCC"

  /** The switch of `getDisplayColor` on a lower-cased type. */
  function TypeColour(key: string): (c: string)
    ensures c == GOLD <==> key == "galaxy"
    ensures c == GREEN <==> key == "nebula" || key == "planetary nebula"
    ensures c == SKY_BLUE <==> key == "open cluster" || key == "globular cluster"
    ensures c == TOMATO <==> key == "supernova remnant"
    ensures c == LIGHT_GRAY <==>
      key !in ["galaxy", "nebula", "planetary nebula", "open cluster", "globular cluster", "supernova remnant"]
  {
    if key == "galaxy" then GOLD
    else if key == "nebula" || key == "planetary nebula" then GREEN
    else if key == "open cluster" || key == "globular cluster" then SKY_BLUE
    else if key == "supernova remnant" then TOMATO
    else LIGHT_GRAY
  }

  /** `getDisplayColor`: light gray without a type, otherwise the colour of the lower-cased type. */
  function DisplayColour(o: DeepSkyObject): (c: string)
    ensures o.kind.None? ==> c == LIGHT_GRAY
    ensures o.kind.Some? ==> c == TypeColour(ToLower(o.kind.value))
  {
    match o.kind
    case None => LIGHT_GRAY
    case Some(k) => TypeColour(ToLower(k))
  }

  /** Type matching ignores case. */
  lemma ColourIgnoresCase(o: DeepSkyObject, p: DeepSkyObject)
    requires o.kind.Some? && p.kind.Some? && ToLower(o.kind.value) == ToLower(p.kind.value)
    ensures DisplayColour(o) == DisplayColour(p)
  {
  }
}
