/**
 * The two converters from the HYG star database CSV to the planetarium's
 * JSON star list: one whose RA column is already in hours, and one that
 * converts RA from degrees. Both keep the rows whose position and magnitude
 * parse and whose magnitude is within the limit, name each star by the
 * first identifier present, stop after `max_stars` stars, and sort the
 * result by magnitude. Python's `float()` is the parameter `parse` and
 * `round(x, n)` the parameter `round`.
 */
module Hyg {
  import opened Options
  import opened Text
  import opened CatalogRecords

  /**
   * `float(row[key]) if row[key] else None`: a missing column (a caught
   * `KeyError`), a short row's `None`, empty text and unparsable text (a
   * caught `ValueError`) all lose the row.
   */
  function Number(row: Row, key: string, parse: string -> Option<real>): (r: Option<real>)
    ensures r.Some? <==> Cell(row, key).Some? && Cell(row, key).value != [] && parse(Cell(row, key).value).Some?
    ensures r.Some? ==> r == parse(Cell(row, key).value)
  {
    var cell := Cell(row, key);
    if cell.None? || cell.value == [] then None else parse(cell.value)
  }

  /** `row.get(key) and row[key].strip()`: the column holds more than whitespace. */
  predicate Filled(row: Row, key: string)
  {
    Cell(row, key).Some? && !Blank(Cell(row, key).value)
  }

  /**
   * The star's name: the proper name upper-cased, else the Bayer/Flamsteed
   * designation, else "HR" or "HD" and the catalog number as written.
   */
  function StarName(row: Row): (name: Option<string>)
    ensures name.None? <==> !Filled(row, "proper") && !Filled(row, "bf") && !Filled(row, "hr") && !Filled(row, "hd")
    ensures name.Some? ==> name.value != []
    ensures Filled(row, "proper") ==> name == Some(ToUpper(Strip(Cell(row, "proper").value)))
    ensures !Filled(row, "proper") && Filled(row, "bf") ==> name == Some(Strip(Cell(row, "bf").value))
    ensures !Filled(row, "proper") && !Filled(row, "bf") && Filled(row, "hr") ==>
              name == Some("HR" + Cell(row, "hr").value)
    ensures !Filled(row, "proper") && !Filled(row, "bf") && !Filled(row, "hr") && Filled(row, "hd") ==>
              name == Some("HD" + Cell(row, "hd").value)
  {
    if Filled(row, "proper") then Some(ToUpper(Strip(Cell(row, "proper").value)))
    else if Filled(row, "bf") then Some(Strip(Cell(row, "bf").value))
    else if Filled(row, "hr") then Some("HR" + Cell(row, "hr").value)
    else if Filled(row, "hd") then Some("HD" + Cell(row, "hd").value)
    else None
  }

  /** The trimmed spectral type, present only when the column holds more than whitespace. */
  function SpectralType(row: Row): (r: Option<string>)
    ensures r.Some? <==> Filled(row, "spect")
    ensures r.Some? ==> r.value == Strip(Cell(row, "spect").value) && r.value != []
  {
    if Filled(row, "spect") then Some(Strip(Cell(row, "spect").value)) else None
  }

  /**
   * The star of one row, if it has a parsable position and magnitude and the
   * magnitude does not exceed `maxMagnitude` (a star exactly at the limit is
   * kept). `raInDegrees` selects the converter that divides RA by 15.
   */
  function RowStar(row: Row, maxMagnitude: real, raInDegrees: bool,
                   parse: string -> Option<real>, round: (real, int) -> real): (r: Option<Entry>)
    ensures var ra, dec, mag := Number(row, "ra", parse), Number(row, "dec", parse), Number(row, "mag", parse);
            r.Some? <==> ra.Some? && dec.Some? && mag.Some? && mag.value <= maxMagnitude
    ensures r.Some? ==>
              var ra := Number(row, "ra", parse).value;
              r.value.ra == round(if raInDegrees then ra / 15.0 else ra, 6)
    ensures r.Some? ==> r.value.dec == round(Number(row, "dec", parse).value, 6)
    ensures r.Some? ==> r.value.mag == round(Number(row, "mag", parse).value, 2)
    ensures r.Some? ==> r.value.name == StarName(row) && r.value.spectralType == SpectralType(row)
  {
    match (Number(row, "ra", parse), Number(row, "dec", parse), Number(row, "mag", parse))
    case (Some(ra), Some(dec), Some(mag)) =>
      if mag > maxMagnitude then None
      else
        var raHours := if raInDegrees then ra / 15.0 else ra;
        Some(Entry(round(raHours, 6), round(dec, 6), round(mag, 2), StarName(row), SpectralType(row)))
    case _ => None
  }

  /** Every star the rows yield, in file order, with no cap. */
  function Accepted(rows: seq<Row>, maxMagnitude: real, raInDegrees: bool,
                    parse: string -> Option<real>, round: (real, int) -> real): (r: seq<Entry>)
    ensures |r| <= |rows|
  {
    if rows == [] then []
    else
      var star := RowStar(rows[|rows| - 1], maxMagnitude, raInDegrees, parse, round);
      Accepted(rows[..|rows| - 1], maxMagnitude, raInDegrees, parse, round) + (if star.Some? then [star.value] else [])
  }

  /** The stars of a leading part of the rows begin the stars of all of them. */
  lemma {:induction false} AcceptedPrefix(rows: seq<Row>, i: nat, maxMagnitude: real, raInDegrees: bool,
                                          parse: string -> Option<real>, round: (real, int) -> real)
    requires i <= |rows|
    ensures Accepted(rows[..i], maxMagnitude, raInDegrees, parse, round) <= Accepted(rows, maxMagnitude, raInDegrees, parse, round)
    decreases |rows|
  {
    if i < |rows| {
      var init := rows[..|rows| - 1];
      AcceptedPrefix(init, i, maxMagnitude, raInDegrees, parse, round);
      assert init[..i] == rows[..i];
    } else {
      assert rows[..i] == rows;
    }
  }

  /** One more row extends the stars by that row's star, if it has one. */
  lemma AcceptedStep(rows: seq<Row>, i: nat, maxMagnitude: real, raInDegrees: bool,
                     parse: string -> Option<real>, round: (real, int) -> real)
    requires i < |rows|
    ensures var star := RowStar(rows[i], maxMagnitude, raInDegrees, parse, round);
            Accepted(rows[..i + 1], maxMagnitude, raInDegrees, parse, round) ==
            Accepted(rows[..i], maxMagnitude, raInDegrees, parse, round) + (if star.Some? then [star.value] else [])
  {
    assert rows[..i + 1][..i] == rows[..i];
  }

  /** The loop stops as soon as it holds `max_stars` stars, and never before it holds one. */
  function Cap(maxStars: int): (n: nat)
    ensures n >= 1 && n >= maxStars
  {
    if maxStars < 1 then 1 else maxStars
  }

  /** The first `n` stars, or all of them when there are fewer. */
  function FirstStars(all: seq<Entry>, n: nat): (r: seq<Entry>)
    ensures r <= all
    ensures |r| == if |all| <= n then |all| else n
  {
    if |all| <= n then all else all[..n]
  }

  /** Once the stars of the first rows reach the cap, they are the capped stars of all rows. */
  lemma StopAtCap(rows: seq<Row>, i: nat, maxMagnitude: real, maxStars: int, raInDegrees: bool,
                  parse: string -> Option<real>, round: (real, int) -> real)
    requires i <= |rows|
    requires |Accepted(rows[..i], maxMagnitude, raInDegrees, parse, round)| == Cap(maxStars)
    ensures Accepted(rows[..i], maxMagnitude, raInDegrees, parse, round) ==
            FirstStars(Accepted(rows, maxMagnitude, raInDegrees, parse, round), Cap(maxStars))
  {
    AcceptedPrefix(rows, i, maxMagnitude, raInDegrees, parse, round);
  }

  /**
   * The row loop both converters share: the first `Cap(maxStars)` stars in
   * file order, or all of them when there are fewer.
   */
  method CollectStars(rows: seq<Row>, maxMagnitude: real, maxStars: int, raInDegrees: bool,
                      parse: string -> Option<real>, round: (real, int) -> real)
    returns (stars: seq<Entry>)
    ensures stars == FirstStars(Accepted(rows, maxMagnitude, raInDegrees, parse, round), Cap(maxStars))
  {
    stars := [];
    var i := 0;
    while i < |rows|
      invariant i <= |rows|
      invariant stars == Accepted(rows[..i], maxMagnitude, raInDegrees, parse, round)
      invariant |stars| < Cap(maxStars)
    {
      AcceptedStep(rows, i, maxMagnitude, raInDegrees, parse, round);
      var star := RowStar(rows[i], maxMagnitude, raInDegrees, parse, round);
      if star.Some? {
        stars := stars + [star.value];
        if |stars| >= maxStars {
          StopAtCap(rows, i + 1, maxMagnitude, maxStars, raInDegrees, parse, round);
          return;
        }
      }
      i := i + 1;
    }
    assert rows[..i] == rows;
  }

  /** What both converters return and write: the stars sorted by magnitude, and their count. */
  datatype Output = Output(objects: seq<Entry>, starCount: int)

  /**
   * `convert_hyg_to_json` of the converter whose RA is already in hours:
   * the capped stars, stably sorted by magnitude; `starCount` is their number.
   */
  method ConvertHygSimple(rows: seq<Row>, maxMagnitude: real, maxStars: int,
                          parse: string -> Option<real>, round: (real, int) -> real)
    returns (out: Output)
    ensures out.objects == SortByMag(FirstStars(Accepted(rows, maxMagnitude, false, parse, round), Cap(maxStars)))
    ensures out.starCount == |out.objects| <= Cap(maxStars)
  {
    var stars := CollectStars(rows, maxMagnitude, maxStars, false, parse, round);
    stars := SortByMag(stars);
    assert |stars| <= Cap(maxStars) by {
      assert |multiset(stars)| <= Cap(maxStars);
    }
    out := Output(stars, |stars|);
  }

  /**
   * `convert_hyg_to_json` of the converter whose RA column is in degrees:
   * the same rules with RA divided by 15.
   */
  method ConvertHyg(rows: seq<Row>, maxMagnitude: real, maxStars: int,
                    parse: string -> Option<real>, round: (real, int) -> real)
    returns (out: Output)
    ensures out.objects == SortByMag(FirstStars(Accepted(rows, maxMagnitude, true, parse, round), Cap(maxStars)))
    ensures out.starCount == |out.objects| <= Cap(maxStars)
  {
    var stars := CollectStars(rows, maxMagnitude, maxStars, true, parse, round);
    stars := SortByMag(stars);
    assert |stars| <= Cap(maxStars) by {
      assert |multiset(stars)| <= Cap(maxStars);
    }
    out := Output(stars, |stars|);
  }

  /** A star is kept exactly when its magnitude is at most the limit, whichever unit RA is in. */
  lemma MagnitudeLimit(row: Row, maxMagnitude: real, raInDegrees: bool,
                       parse: string -> Option<real>, round: (real, int) -> real)
    requires Number(row, "ra", parse).Some? && Number(row, "dec", parse).Some? && Number(row, "mag", parse).Some?
    ensures RowStar(row, maxMagnitude, raInDegrees, parse, round).Some? <==> Number(row, "mag", parse).value <= maxMagnitude
  {
  }
}
