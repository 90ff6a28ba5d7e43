/**
 * The converter from the FK5-SAO-HD cross index (a '|'-separated ASU export)
 * to the planetarium's JSON star list. Python's `float()` is the parameter
 * `parse` (`None` where it raises `ValueError`) and `round(x, n)` the
 * parameter `round`; neither is given any property.
 */
module Asu {
  import opened Options
  import opened Maths
  import opened Text
  import opened CatalogRecords

  /** The magnitude that stands for "missing". */
  const MISSING_MAGNITUDE: real := 99.0

  /** Records fainter than this are dropped. */
  const FAINTEST: real := 11.0

  /** Degrees (or hours), minutes and seconds as one magnitude; the sign is applied separately. */
  function Sexagesimal(whole: real, minutes: real, seconds: real): real
  {
    Abs(whole) + minutes / 60.0 + seconds / 3600.0
  }

  /** The coordinate text stripped of whitespace and then of double quotes. */
  function Unquote(s: string): string
  {
    Trim(Strip(s), c => c == '"')
  }

  /**
   * `parse_coordinates`: three whitespace-separated numbers read as
   * sexagesimal, negative when the first is negative or the text starts
   * with '-'; 0.0 for anything else.
   */
  function ParseCoordinates(text: string, parse: string -> Option<real>): (r: real)
    ensures Blank(text) ==> r == 0.0
    ensures |Words(Unquote(text))| != 3 ==> r == 0.0
    ensures var p := Words(Unquote(text));
            |p| == 3 && (parse(p[0]).None? || parse(p[1]).None? || parse(p[2]).None?) ==> r == 0.0
    ensures var p := Words(Unquote(text));
            !Blank(text) && |p| == 3 && parse(p[0]).Some? && parse(p[1]).Some? && parse(p[2]).Some? ==>
              var h, m, s := parse(p[0]).value, parse(p[1]).value, parse(p[2]).value;
              var negative := h < 0.0 || StartsWith(Unquote(text), "-");
              (negative ==> r == -Sexagesimal(h, m, s)) && (!negative ==> r == Sexagesimal(h, m, s))
  {
    if Blank(text) then 0.0
    else
      var coord := Unquote(text);
      var parts := Words(coord);
      if |parts| != 3 then 0.0
      else
        match (parse(parts[0]), parse(parts[1]), parse(parts[2]))
        case (Some(h), Some(m), Some(s)) =>
          var decimal := Sexagesimal(h, m, s);
          if h < 0.0 || StartsWith(coord, "-") then -decimal else decimal
        case _ => 0.0
  }

  /**
   * A negative declination whose degrees read as zero keeps its sign
   * through the leading '-': "-00 30 00" is half a degree south, not north.
   */
  lemma NegativeZeroDegrees(text: string, parse: string -> Option<real>, m: real, s: real)
    requires var p := Words(Unquote(text));
             |p| == 3 && parse(p[0]) == Some(0.0) && parse(p[1]) == Some(m) && parse(p[2]) == Some(s)
    requires StartsWith(Unquote(text), "-")
    ensures ParseCoordinates(text, parse) == -(m / 60.0 + s / 3600.0)
  {
  }

  /**
   * `clean_name`: trimmed, inner whitespace runs collapsed to one space,
   * upper-cased. The result is the name's words, upper-cased and in order,
   * joined by single spaces.
   */
  function CleanName(name: string): (r: string)
    ensures r == [] <==> Blank(name)
    ensures forall k | 0 <= k < |r| :: !('a' <= r[k] <= 'z')
    ensures r == [] || (!IsSpace(r[0]) && !IsSpace(r[|r| - 1]))
    ensures NoSpaceRuns(r)
    ensures forall k | 0 <= k < |r| :: IsSpace(r[k]) ==> r[k] == ' '
    ensures Words(r) == Words(ToUpper(name))
    ensures !Blank(name) ==> |Words(ToUpper(name))| >= 1 && r == Join(Words(ToUpper(name)), ' ')
  {
    CleaningKeepsWords(name);
    if Blank(name) then ""
    else
      CleanedWords(name);
      ToUpper(Collapse(Strip(name)))
  }

  /** The cleaned form of a non-blank name is its upper-cased words joined by single spaces. */
  lemma CleanedWords(name: string)
    requires !Blank(name)
    ensures var r := ToUpper(Collapse(Strip(name)));
            r != [] && !IsSpace(r[0]) && !IsSpace(r[|r| - 1]) && NoSpaceRuns(r) &&
            (forall k | 0 <= k < |r| :: IsSpace(r[k]) ==> r[k] == ' ') &&
            (forall k | 0 <= k < |r| :: !('a' <= r[k] <= 'z')) &&
            |Words(ToUpper(name))| >= 1 && r == Join(Words(ToUpper(name)), ' ')
  {
    var r := ToUpper(Collapse(Strip(name)));
    UpperCollapsed(Strip(name));
    JoinWords(r);
    CleaningKeepsWords(name);
    assert Words(r) == Words(ToUpper(name));
  }

  /** Collapsing and upper-casing trimmed, non-empty text keeps it trimmed and leaves single spaces. */
  lemma UpperCollapsed(s: string)
    requires s != [] && !IsSpace(s[0]) && !IsSpace(s[|s| - 1])
    ensures var r := ToUpper(Collapse(s));
            r != [] && !IsSpace(r[0]) && !IsSpace(r[|r| - 1]) && NoSpaceRuns(r) &&
            (forall k | 0 <= k < |r| :: IsSpace(r[k]) ==> r[k] == ' ') &&
            (forall k | 0 <= k < |r| :: !('a' <= r[k] <= 'z'))
  {
    CollapseNoRuns(s);
    CollapseLast(s);
    var c := Collapse(s);
    var r := ToUpper(c);
    forall k | 0 <= k < |c|
      ensures IsSpace(r[k]) <==> IsSpace(c[k])
      ensures IsSpace(r[k]) ==> r[k] == c[k]
    {
      UpperKeepsSpace(c[k]);
    }
  }

  /** Cleaning a cleaned name changes nothing. */
  lemma CleanNameIdempotent(name: string)
    ensures CleanName(CleanName(name)) == CleanName(name)
  {
    var r := CleanName(name);
    if r != [] {
      CleanedIsClean(r);
    }
  }

  /** Trimmed upper-case text with single plain spaces is its own clean name. */
  lemma CleanedIsClean(r: string)
    requires r != [] && !IsSpace(r[0]) && !IsSpace(r[|r| - 1]) && NoSpaceRuns(r)
    requires forall k | 0 <= k < |r| :: IsSpace(r[k]) ==> r[k] == ' '
    requires forall k | 0 <= k < |r| :: !('a' <= r[k] <= 'z')
    ensures CleanName(r) == r
  {
    StripStripped(r);
    assert !Blank(r);
    CollapseCollapsed(r);
    assert ToUpper(r) == r;
  }

  /** `parse_magnitude`: the number in the text, or 99.0 when there is none. */
  function ParseMagnitude(text: string, parse: string -> Option<real>): (r: real)
    ensures Blank(text) ==> r == MISSING_MAGNITUDE
    ensures !Blank(text) && parse(Strip(text)).None? ==> r == MISSING_MAGNITUDE
    ensures !Blank(text) && parse(Strip(text)).Some? ==> r == parse(Strip(text)).value
  {
    if Blank(text) then MISSING_MAGNITUDE
    else
      match parse(Strip(text))
      case Some(v) => v
      case None => MISSING_MAGNITUDE
  }

  /**
   * `parse_spectral_type`: a main class letter and the digits after it, or
   * the trimmed text when it does not start with a class letter.
   */
  function ParseSpectralType(text: string): (r: string)
    ensures StartsWith(Strip(text), r)
    ensures r == [] <==> Blank(text)
    ensures r != [] && r[0] in SPECTRAL_CLASSES ==>
              (forall k | 1 <= k < |r| :: IsDigit(r[k])) &&
              (|r| == |Strip(text)| || !IsDigit(Strip(text)[|r|]))
    ensures !Blank(text) && Strip(text)[0] !in SPECTRAL_CLASSES ==> r == Strip(text)
  {
    ClassPrefix(Strip(text))
  }

  /** The spectral type read from already stripped text. */
  function ClassPrefix(sp: string): (r: string)
    ensures StartsWith(sp, r)
    ensures r == [] <==> sp == []
    ensures r != [] && r[0] in SPECTRAL_CLASSES ==>
              (forall k | 1 <= k < |r| :: IsDigit(r[k])) && (|r| == |sp| || !IsDigit(sp[|r|]))
    ensures sp != [] && sp[0] !in SPECTRAL_CLASSES ==> r == sp
  {
    if sp == [] then ""
    else if sp[0] in SPECTRAL_CLASSES then
      var digits := TakeWhile(sp[1..], IsDigit);
      var r := [sp[0]] + digits;
      assert sp[..|r|] == r by {
        assert sp == [sp[0]] + sp[1..];
      }
      assert forall k | 1 <= k < |r| :: r[k] == digits[k - 1];
      r
    else sp
  }

  /**
   * The record made from the stripped catalog number, position, magnitude,
   * spectral and name fields of one data line: `None` when it has no
   * position (RA and Dec both 0.0) or is fainter than magnitude 11, a
   * missing magnitude included.
   */
  function Record(fk5: string, raText: string, decText: string, vmagText: string, spectral: string, nameText: string,
                  parse: string -> Option<real>, round: (real, int) -> real): (r: Option<Entry>)
    ensures var ra, dec := ParseCoordinates(raText, parse), ParseCoordinates(decText, parse);
            r.None? <==> (ra == 0.0 && dec == 0.0) || ParseMagnitude(vmagText, parse) > FAINTEST
    ensures r.Some? ==> r.value.ra == round(ParseCoordinates(raText, parse), 6)
    ensures r.Some? ==> r.value.dec == round(ParseCoordinates(decText, parse), 5)
    ensures r.Some? ==> r.value.mag == round(ParseMagnitude(vmagText, parse), 2)
    ensures r.Some? ==> r.value.name.Some? && r.value.name.value != []
    ensures r.Some? && !Blank(nameText) ==> r.value.name == Some(CleanName(nameText))
    ensures r.Some? && Blank(nameText) ==> r.value.name == Some("FK5 " + fk5)
    ensures r.Some? ==> (r.value.spectralType.None? <==> Blank(spectral))
    ensures r.Some? && !Blank(spectral) ==> r.value.spectralType == Some(ParseSpectralType(spectral))
  {
    var ra := ParseCoordinates(raText, parse);
    var dec := ParseCoordinates(decText, parse);
    var mag := ParseMagnitude(vmagText, parse);
    var name := CleanName(nameText);
    var sp := ParseSpectralType(spectral);
    if (ra == 0.0 && dec == 0.0) || mag > FAINTEST then None
    else
      Some(Entry(round(ra, 6), round(dec, 5), round(mag, 2),
                 Some(if name != [] then name else "FK5 " + fk5),
                 if sp != [] then Some(sp) else None))
  }

  /** A stripped line that carries no data: empty, a comment, or the column header. */
  predicate Ignored(line: string)
  {
    line == [] || StartsWith(line, "#") || StartsWith(line, "FK5|")
  }

  /** The dashed line under the header, after which data lines begin. */
  predicate IsSeparator(line: string)
  {
    StartsWith(line, "----")
  }

  /** Whether a separator line occurs among `lines`. */
  predicate Started(lines: seq<string>)
  {
    if lines == [] then false
    else
      var line := Strip(lines[|lines| - 1]);
      Started(lines[..|lines| - 1]) || (!Ignored(line) && IsSeparator(line))
  }

  /** The record of one stripped data line, if it has enough fields and passes the record rules. */
  function LineRecord(line: string, parse: string -> Option<real>, round: (real, int) -> real): (r: Option<Entry>)
    ensures |Split(line, '|')| < 11 ==> r.None?
  {
    var f := Split(line, '|');
    if |f| < 11 then None
    else Record(Strip(f[0]), Strip(f[1]), Strip(f[3]), Strip(f[5]), Strip(f[6]), Strip(f[10]), parse, round)
  }

  /** A line with enough fields yields the record of its FK5, RA, Dec, magnitude, spectral and name fields. */
  lemma LineFields(line: string, parse: string -> Option<real>, round: (real, int) -> real)
    requires |Split(line, '|')| >= 11
    ensures var f := Split(line, '|');
            LineRecord(line, parse, round) ==
            Record(Strip(f[0]), Strip(f[1]), Strip(f[3]), Strip(f[5]), Strip(f[6]), Strip(f[10]), parse, round)
  {
  }

  /** The record a stripped line contributes, given whether the separator has been seen. */
  function Found(line: string, started: bool, parse: string -> Option<real>, round: (real, int) -> real): (r: Option<Entry>)
    ensures Ignored(line) || IsSeparator(line) || !started ==> r.None?
  {
    if !Ignored(line) && !IsSeparator(line) && started then LineRecord(line, parse, round) else None
  }

  /** The records of `lines` in file order, before sorting. */
  function Converted(lines: seq<string>, parse: string -> Option<real>, round: (real, int) -> real): seq<Entry>
  {
    if lines == [] then []
    else
      var init := lines[..|lines| - 1];
      var line := Strip(lines[|lines| - 1]);
      var found := Found(line, Started(init), parse, round);
      Converted(init, parse, round) + (if found.Some? then [found.value] else [])
  }

  /** Nothing is read before the separator line. */
  lemma {:induction false} NothingBeforeSeparator(lines: seq<string>, parse: string -> Option<real>, round: (real, int) -> real)
    requires !Started(lines)
    ensures Converted(lines, parse, round) == []
  {
    if lines != [] {
      var init := lines[..|lines| - 1];
      assert !Started(init);
      NothingBeforeSeparator(init, parse, round);
      assert Converted(lines, parse, round) == Converted(init, parse, round);
    }
  }

  /** Every record carries a non-empty name, and a spectral type only when there is one. */
  lemma {:induction false} ConvertedNamed(lines: seq<string>, parse: string -> Option<real>, round: (real, int) -> real)
    ensures forall e | e in Converted(lines, parse, round) ::
              e.name.Some? && e.name.value != [] && (e.spectralType.None? || e.spectralType.value != [])
  {
    if lines != [] {
      ConvertedNamed(lines[..|lines| - 1], parse, round);
    }
  }

  /** One more line extends the records and the separator flag as the loop body does. */
  lemma ConvertedStep(lines: seq<string>, i: nat, parse: string -> Option<real>, round: (real, int) -> real)
    requires i < |lines|
    ensures var line := Strip(lines[i]);
            var found := Found(line, Started(lines[..i]), parse, round);
            Converted(lines[..i + 1], parse, round) == Converted(lines[..i], parse, round) + (if found.Some? then [found.value] else []) &&
            Started(lines[..i + 1]) == (Started(lines[..i]) || (!Ignored(line) && IsSeparator(line)))
  {
    assert lines[..i + 1][..i] == lines[..i];
  }

  /**
   * `convert_asu_to_json`: reads the lines in order, starts taking data after
   * the separator, and returns the records stably sorted by magnitude.
   */
  method ConvertAsuToJson(lines: seq<string>, parse: string -> Option<real>, round: (real, int) -> real)
    returns (stars: seq<Entry>)
    ensures stars == SortByMag(Converted(lines, parse, round))
  {
    stars := [];
    var dataStartFound := false;
    var i := 0;
    while i < |lines|
      invariant i <= |lines|
      invariant dataStartFound == Started(lines[..i])
      invariant stars == Converted(lines[..i], parse, round)
    {
      ConvertedStep(lines, i, parse, round);
      var line := Strip(lines[i]);
      ghost var found := Found(line, dataStartFound, parse, round);
      if Ignored(line) {
      } else if IsSeparator(line) {
        dataStartFound := true;
      } else if dataStartFound {
        var fields := Split(line, '|');
        if |fields| >= 11 {
          var fk5Num, raStr, decStr := Strip(fields[0]), Strip(fields[1]), Strip(fields[3]);
          var vmagStr, spectral, nameStr := Strip(fields[5]), Strip(fields[6]), Strip(fields[10]);
          var star := Record(fk5Num, raStr, decStr, vmagStr, spectral, nameStr, parse, round);
          LineFields(line, parse, round);
          assert star == found;
          if star.Some? {
            stars := stars + [star.value];
          }
        }
      }
      i := i + 1;
    }
    assert lines[..i] == lines;
    stars := SortByMag(stars);
  }
}
