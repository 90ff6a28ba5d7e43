/**
 * The converter from the SAO star catalog CSV (columns name, hd, ra, dec,
 * vmag, class) to the planetarium's JSON star list. Python's `float()` on
 * text is the parameter `parse` (`None` where it raises `ValueError`) and
 * `round(x, n)` the parameter `round`.
 */
module Sao {
  import opened Options
  import opened Text
  import opened CatalogRecords

  /** `convert_ra_to_hours`: fifteen degrees of right ascension make an hour. */
  function ConvertRaToHours(raDegrees: real): (hours: real)
    ensures hours * 15.0 == raDegrees
  {
    raDegrees / 15.0
  }

  /** A right ascension within one turn of degrees lies within one day of hours. */
  lemma HoursWithinDay(raDegrees: real)
    requires 0.0 <= raDegrees < 360.0
    ensures 0.0 <= ConvertRaToHours(raDegrees) < 24.0
  {
  }

  /**
   * `determine_spectral_type`: the first one or two characters of the
   * trimmed class when it starts with a main class letter; `None` for a
   * missing or empty class, for "STAR", and for anything else.
   */
  function DetermineSpectralType(classText: Option<string>): (r: Option<string>)
    ensures r.None? <==> classText.None? || Blank(classText.value) || Strip(classText.value)[0] !in SPECTRAL_CLASSES
    ensures r.Some? ==> StartsWith(Strip(classText.value), r.value)
    ensures r.Some? ==> |r.value| == if |Strip(classText.value)| >= 2 then 2 else 1
    ensures r.Some? ==> r.value[0] in SPECTRAL_CLASSES
  {
    if classText.None? || classText.value == [] || Strip(classText.value) == "STAR" then None
    else
      var c := Strip(classText.value);
      if c != [] && c[0] in SPECTRAL_CLASSES then Some(if |c| >= 2 then c[..2] else c[..1]) else None
  }

  /** `clean_name`: the trimmed name, or `None` when there is none. */
  function CleanName(name: Option<string>): (r: Option<string>)
    ensures r.None? <==> name.None? || Blank(name.value)
    ensures r.Some? ==> r.value != [] && !IsSpace(r.value[0]) && !IsSpace(r.value[|r.value| - 1])
    ensures r.Some? ==> r.value == Strip(name.value)
  {
    if name.None? || name.value == [] || Blank(name.value) then None
    else Some(Strip(name.value))
  }

  /** Cleaning a cleaned name changes nothing. */
  lemma CleanNameIdempotent(name: Option<string>)
    ensures CleanName(CleanName(name)) == CleanName(name)
  {
    if CleanName(name).Some? {
      StripStripped(CleanName(name).value);
    }
  }

  /** What `float(row[key])` does: a number, a `KeyError` or `ValueError` (caught), or a `TypeError` on a short row's `None` (not caught). */
  datatype Field = Number(value: real) | Skip | Raise

  function FloatField(row: Row, key: string, parse: string -> Option<real>): (f: Field)
    ensures f.Raise? <==> key in row && row[key].None?
    ensures f.Skip? <==> key !in row || (row[key].Some? && parse(row[key].value).None?)
    ensures f.Number? ==> f.value == parse(row[key].value).value
  {
    if key !in row then Skip
    else match row[key]
      case None => Raise
      case Some(text) => if parse(text).Some? then Number(parse(text).value) else Skip
  }

  /** The outcome of one row: a star, a row skipped with a warning, or an exception that ends the run. */
  datatype RowResult = Star(entry: Entry) | Skipped | Raised

  /**
   * The body of the row loop. RA, Dec and magnitude are read in that order,
   * so the first field that fails decides between skipping and raising.
   */
  function RowStar(row: Row, parse: string -> Option<real>, round: (real, int) -> real): (r: RowResult)
    ensures var ra, dec, mag := FloatField(row, "ra", parse), FloatField(row, "dec", parse), FloatField(row, "vmag", parse);
            r.Raised? <==> ra.Raise? || (ra.Number? && (dec.Raise? || (dec.Number? && mag.Raise?)))
    ensures var ra, dec, mag := FloatField(row, "ra", parse), FloatField(row, "dec", parse), FloatField(row, "vmag", parse);
            r.Star? <==> ra.Number? && dec.Number? && mag.Number? && "name" in row && "class" in row
    ensures r.Star? ==>
              var ra, dec, mag := FloatField(row, "ra", parse), FloatField(row, "dec", parse), FloatField(row, "vmag", parse);
              r.entry == Entry(round(ConvertRaToHours(ra.value), 4), round(dec.value, 2), round(mag.value, 1),
                               CleanName(row["name"]), DetermineSpectralType(row["class"]))
  {
    match FloatField(row, "ra", parse)
    case Raise => Raised
    case Skip => Skipped
    case Number(ra) =>
      match FloatField(row, "dec", parse)
      case Raise => Raised
      case Skip => Skipped
      case Number(dec) =>
        match FloatField(row, "vmag", parse)
        case Raise => Raised
        case Skip => Skipped
        case Number(mag) =>
          if "name" !in row || "class" !in row then Skipped
          else Star(Entry(round(ConvertRaToHours(ra), 4), round(dec, 2), round(mag, 1),
                          CleanName(row["name"]), DetermineSpectralType(row["class"])))
  }

  /** The stars of `rows` in file order, or `None` once a row raises. */
  function Converted(rows: seq<Row>, parse: string -> Option<real>, round: (real, int) -> real): (r: Option<seq<Entry>>)
    ensures r.Some? ==> |r.value| <= |rows|
  {
    if rows == [] then Some([])
    else
      match Converted(rows[..|rows| - 1], parse, round)
      case None => None
      case Some(prev) =>
        match RowStar(rows[|rows| - 1], parse, round)
        case Raised => None
        case Skipped => Some(prev)
        case Star(e) => Some(prev + [e])
  }

  /** Once a row has raised, no later row brings the run back. */
  lemma {:induction false} RaisedSticks(rows: seq<Row>, i: nat, j: nat, parse: string -> Option<real>, round: (real, int) -> real)
    requires i <= j <= |rows|
    requires Converted(rows[..i], parse, round).None?
    ensures Converted(rows[..j], parse, round).None?
    decreases j - i
  {
    if i < j {
      RaisedSticks(rows, i, j - 1, parse, round);
      assert rows[..j][..j - 1] == rows[..j - 1];
    }
  }

  /** `max_stars` is a limit only when truthy, i.e. given and not zero. */
  predicate Limited(maxStars: Option<int>)
  {
    maxStars.Some? && maxStars.value != 0
  }

  /** How many leading rows the loop looks at: `max_stars` of them, skipped rows included. */
  function Examined(rows: seq<Row>, maxStars: Option<int>): (n: nat)
    ensures n <= |rows|
    ensures !Limited(maxStars) ==> n == |rows|
    ensures Limited(maxStars) && maxStars.value >= 0 ==> n == if maxStars.value < |rows| then maxStars.value else |rows|
    ensures Limited(maxStars) && maxStars.value < 0 ==> n == 0
  {
    if !Limited(maxStars) then |rows|
    else if maxStars.value < 0 then 0
    else if maxStars.value < |rows| then maxStars.value
    else |rows|
  }

  /**
   * `convert_catalog`: the stars of the first `max_stars` rows, stably
   * sorted by magnitude, or `None` when it raises: when a row raises, or
   * when no star was converted, since the statistics then take `min` of an
   * empty sequence (after the file has been written).
   */
  method ConvertCatalog(rows: seq<Row>, maxStars: Option<int>, parse: string -> Option<real>, round: (real, int) -> real)
    returns (stars: Option<seq<Entry>>)
    ensures var found := Converted(rows[..Examined(rows, maxStars)], parse, round);
            stars == if found.None? || found.value == [] then None else Some(SortByMag(found.value))
    ensures stars.Some? ==> stars.value != []
    ensures Limited(maxStars) && maxStars.value > 0 && stars.Some? ==> |stars.value| <= Examined(rows, maxStars) <= maxStars.value
    ensures Limited(maxStars) && maxStars.value < 0 ==> stars == None
  {
    var found: seq<Entry> := [];
    var i := 0;
    while i < |rows|
      invariant i <= Examined(rows, maxStars)
      invariant Converted(rows[..i], parse, round) == Some(found)
    {
      if maxStars.Some? && maxStars.value != 0 && i >= maxStars.value {
        break;
      }
      assert rows[..i + 1][..i] == rows[..i];
      var row := RowStar(rows[i], parse, round);
      if row.Raised? {
        RaisedSticks(rows, i + 1, Examined(rows, maxStars), parse, round);
        return None;
      }
      if row.Star? {
        found := found + [row.entry];
      }
      i := i + 1;
    }
    assert rows[..Examined(rows, maxStars)] == rows[..i];
    if found == [] {
      // `min(s['mag'] for s in stars)` raises on an empty list.
      return None;
    }
    stars := Some(SortByMag(found));
    assert |SortByMag(found)| == |found| by {
      assert |multiset(SortByMag(found))| == |multiset(found)|;
    }
  }
}
