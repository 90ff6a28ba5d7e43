/**
 * The star catalog validator: it counts one issue per missing required
 * field and per out-of-range RA, Dec or magnitude, prints statistics, and
 * passes the catalog exactly when no issue was found. A document that fails
 * to load is the `None` document.
 */
module Validate {
  import opened Options

  /** A JSON `name` value: text, or `null` (as the SAO converter writes for unnamed stars). */
  datatype NameValue = Text(text: string) | Null

  /** One JSON star object; `None` where the key is absent. */
  datatype JsonStar = JsonStar(ra: Option<real>, dec: Option<real>, mag: Option<real>, name: Option<NameValue>)

  /** The loaded document; `objects` is `None` when the key is absent. */
  datatype Document = Document(objects: Option<seq<JsonStar>>)

  /** The function's result: it returns a verdict, or it raises. */
  datatype Outcome = Returns(passed: bool) | Raises

  /** The fields every star must have, in the order they are checked. */
  const REQUIRED: seq<string> := ["ra", "dec", "mag", "name"]

  /** `field in star`. */
  predicate Has(star: JsonStar, field: string)
  {
    match field
    case "ra" => star.ra.Some?
    case "dec" => star.dec.Some?
    case "mag" => star.mag.Some?
    case "name" => star.name.Some?
    case _ => false
  }

  /** How many of `fields` the star lacks. */
  function MissingCount(star: JsonStar, fields: seq<string>): (n: nat)
    ensures n <= |fields|
    ensures n == 0 <==> forall k | 0 <= k < |fields| :: Has(star, fields[k])
  {
    if fields == [] then 0
    else
      var init := fields[..|fields| - 1];
      MissingCount(star, init) + (if Has(star, fields[|fields| - 1]) then 0 else 1)
  }

  /** Right ascension is valid in hours `[0, 24)`. */
  predicate RaInRange(ra: real)
  {
    0.0 <= ra < 24.0
  }

  /** Declination is valid in degrees `[-90, 90]`. */
  predicate DecInRange(dec: real)
  {
    -90.0 <= dec <= 90.0
  }

  /** Magnitude is plausible in `[-2, 15]`. */
  predicate MagInRange(mag: real)
  {
    -2.0 <= mag <= 15.0
  }

  /** One issue for each present coordinate or magnitude out of its range. */
  function RangeIssues(star: JsonStar): (n: nat)
    ensures n <= 3
    ensures n == 0 <==> (star.ra.Some? ==> RaInRange(star.ra.value)) &&
                        (star.dec.Some? ==> DecInRange(star.dec.value)) &&
                        (star.mag.Some? ==> MagInRange(star.mag.value))
  {
    (if star.ra.Some? && !RaInRange(star.ra.value) then 1 else 0) +
    (if star.dec.Some? && !DecInRange(star.dec.value) then 1 else 0) +
    (if star.mag.Some? && !MagInRange(star.mag.value) then 1 else 0)
  }

  /** A star that the validator accepts without an issue. */
  predicate ValidStar(star: JsonStar)
  {
    star.ra.Some? && star.dec.Some? && star.mag.Some? && star.name.Some? &&
    RaInRange(star.ra.value) && DecInRange(star.dec.value) && MagInRange(star.mag.value)
  }

  /** The issues one star contributes. */
  function Issues(star: JsonStar): (n: nat)
    ensures n == 0 <==> ValidStar(star)
    ensures n <= 7
  {
    var missing := MissingCount(star, REQUIRED);
    assert missing == 0 <==> star.ra.Some? && star.dec.Some? && star.mag.Some? && star.name.Some? by {
      assert Has(star, REQUIRED[0]) == star.ra.Some?;
      assert Has(star, REQUIRED[1]) == star.dec.Some?;
      assert Has(star, REQUIRED[2]) == star.mag.Some?;
      assert Has(star, REQUIRED[3]) == star.name.Some?;
    }
    missing + RangeIssues(star)
  }

  /** The issues of the first stars, as the loop has counted them. */
  function TotalIssues(stars: seq<JsonStar>): nat
  {
    if stars == [] then 0 else TotalIssues(stars[..|stars| - 1]) + Issues(stars[|stars| - 1])
  }

  /** No issue at all exactly when every star is valid. */
  lemma {:induction false} NoIssuesIffAllValid(stars: seq<JsonStar>)
    ensures TotalIssues(stars) == 0 <==> forall k | 0 <= k < |stars| :: ValidStar(stars[k])
  {
    if stars != [] {
      var init := stars[..|stars| - 1];
      NoIssuesIffAllValid(init);
      assert forall k | 0 <= k < |init| :: init[k] == stars[k];
      assert (forall k | 0 <= k < |stars| :: ValidStar(stars[k])) <==>
             (forall k | 0 <= k < |init| :: ValidStar(init[k])) && ValidStar(stars[|stars| - 1]);
    }
  }

  /**
   * The statistics raise: `min` of the magnitudes when no star has one
   * (an empty catalog included), and `.strip()` on a `null` name.
   */
  predicate StatisticsRaise(stars: seq<JsonStar>)
  {
    (forall k | 0 <= k < |stars| :: stars[k].mag.None?) ||
    (exists k | 0 <= k < |stars| :: stars[k].name == Some(Null))
  }

  /**
   * `validate_star_catalog`: `false` when the document did not load or has
   * no "objects"; otherwise, unless the statistics raise, `true` exactly
   * when every star is valid.
   */
  method ValidateStarCatalog(doc: Option<Document>) returns (outcome: Outcome)
    ensures doc.None? ==> outcome == Returns(false)
    ensures doc.Some? && doc.value.objects.None? ==> outcome == Returns(false)
    ensures doc.Some? && doc.value.objects.Some? ==>
              var stars := doc.value.objects.value;
              outcome == if StatisticsRaise(stars) then Raises else Returns(TotalIssues(stars) == 0)
  {
    if doc.None? || doc.value.objects.None? {
      return Returns(false);
    }
    var stars := doc.value.objects.value;
    var issues := 0;
    var i := 0;
    while i < |stars|
      invariant i <= |stars|
      invariant issues == TotalIssues(stars[..i])
    {
      var star := stars[i];
      var before := issues;
      var j := 0;
      while j < |REQUIRED|
        invariant j <= |REQUIRED|
        invariant issues == before + MissingCount(star, REQUIRED[..j])
      {
        assert REQUIRED[..j + 1][..j] == REQUIRED[..j];
        if !Has(star, REQUIRED[j]) {
          issues := issues + 1;
        }
        j := j + 1;
      }
      assert REQUIRED[..j] == REQUIRED;
      if star.ra.Some? && !RaInRange(star.ra.value) {
        issues := issues + 1;
      }
      if star.dec.Some? && !DecInRange(star.dec.value) {
        issues := issues + 1;
      }
      if star.mag.Some? && !MagInRange(star.mag.value) {
        issues := issues + 1;
      }
      assert stars[..i + 1][..i] == stars[..i];
      i := i + 1;
    }
    assert stars[..i] == stars;
    if StatisticsRaise(stars) {
      return Raises;
    }
    outcome := Returns(issues == 0);
  }

  /** A catalog the validator passes has only valid stars, and at least one of them. */
  lemma PassedMeansValid(doc: Document)
    requires doc.objects.Some? && !StatisticsRaise(doc.objects.value) && TotalIssues(doc.objects.value) == 0
    ensures |doc.objects.value| > 0
    ensures forall k | 0 <= k < |doc.objects.value| :: ValidStar(doc.objects.value[k])
  {
    NoIssuesIffAllValid(doc.objects.value);
  }
}
