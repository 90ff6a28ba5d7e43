/**
 * The star catalogues the application can load (Java's `StarCatalog` enum):
 * a fixed table of display name, file name, advertised star count and
 * description, and the UI guidance derived from the star count.
 */
module Catalogs {
  import opened Text

  datatype StarCatalog =
    | BrightStars166
    | Hyg1000 | Hyg5000 | Hyg10000 | Hyg25000 | Hyg50000 | Hyg100000 | HygFull
    | SaoCatalog | SaoFk5

  /** Every catalogue, in declaration order. */
  const AllCatalogs: seq<StarCatalog> :=
    [BrightStars166, Hyg1000, Hyg5000, Hyg10000, Hyg25000, Hyg50000, Hyg100000, HygFull,
     SaoCatalog, SaoFk5]

  function DisplayName(c: StarCatalog): string
  {
    match c
    case BrightStars166 => "Bright Stars"
    case Hyg1000 => "1,000 Brightest"
    case Hyg5000 => "5,000 Bright Stars"
    case Hyg10000 => "10,000 Stars"
    case Hyg25000 => "25,000 Stars"
    case Hyg50000 => "50,000 Stars"
    case Hyg100000 => "100,000 Stars"
    case HygFull => "Full HYG Catalog"
    case SaoCatalog => "SAO Catalog"
    case SaoFk5 => "SAO FK5"
  }

  /** The JSON file the catalogue is loaded from. */
  function Filename(c: StarCatalog): string
  {
    match c
    case BrightStars166 => "stars.json"
    case Hyg1000 => "stars_1k.json"
    case Hyg5000 => "stars_5k.json"
    case Hyg10000 => "stars_10k.json"
    case Hyg25000 => "stars_25k.json"
    case Hyg50000 => "stars_50k.json"
    case Hyg100000 => "stars_100k.json"
    case HygFull => "stars_full.json"
    case SaoCatalog => "stars_sao.json"
    case SaoFk5 => "stars_sao_fk5.json"
  }

  /** The advertised number of stars. */
  function StarCount(c: StarCatalog): nat
  {
    match c
    case BrightStars166 => 166
    case Hyg1000 => 1000
    case Hyg5000 => 5000
    case Hyg10000 => 10000
    case Hyg25000 => 25000
    case Hyg50000 => 50000
    case Hyg100000 => 100000
    case HygFull => 119433
    case SaoCatalog => 37000
    case SaoFk5 => 1500
  }

  function Description(c: StarCatalog): string
  {
    match c
    case BrightStars166 => "Original bright star catalog"
    case Hyg1000 => "1,000 brightest stars (mag ≤ 4.5)"
    case Hyg5000 => "5,000 bright stars (mag ≤ 6.0)"
    case Hyg10000 => "10,000 stars (mag ≤ 7.0)"
    case Hyg25000 => "25,000 stars (mag ≤ 8.0)"
    case Hyg50000 => "50,000 stars (mag ≤ 9.0)"
    case Hyg100000 => "100,000 stars (mag ≤ 10.0)"
    case HygFull => "Complete HYG catalog (119,433 stars)"
    case SaoCatalog => "SAO star catalog"
    case SaoFk5 => "SAO FK5 subset"
  }

  /** The table has ten distinct catalogues, and no two of them share a file. */
  lemma {:induction false} FilenamesDistinct()
    ensures |AllCatalogs| == 10
    ensures forall c: StarCatalog :: c in AllCatalogs
    ensures forall i, j | 0 <= i < j < |AllCatalogs| ::
      AllCatalogs[i] != AllCatalogs[j] && Filename(AllCatalogs[i]) != Filename(AllCatalogs[j])
  {
    forall c: StarCatalog
      ensures c in AllCatalogs
    {
      match c
      case BrightStars166 => assert AllCatalogs[0] == c;
      case Hyg1000 => assert AllCatalogs[1] == c;
      case Hyg5000 => assert AllCatalogs[2] == c;
      case Hyg10000 => assert AllCatalogs[3] == c;
      case Hyg25000 => assert AllCatalogs[4] == c;
      case Hyg50000 => assert AllCatalogs[5] == c;
      case Hyg100000 => assert AllCatalogs[6] == c;
      case HygFull => assert AllCatalogs[7] == c;
      case SaoCatalog => assert AllCatalogs[8] == c;
      case SaoFk5 => assert AllCatalogs[9] == c;
    }
    forall i, j | 0 <= i < j < |AllCatalogs|
      ensures Filename(AllCatalogs[i]) != Filename(AllCatalogs[j])
    {
      var a, b := Filename(AllCatalogs[i]), Filename(AllCatalogs[j]);
      assert a[|a| - 6] != b[|b| - 6] || |a| != |b| || a[6] != b[6] || a[7] != b[7] || a[8] != b[8];
    }
  }

  // ---------------------------------------------------------------------
  // Display text: `%d` and the grouped `%,d`
  // ---------------------------------------------------------------------

  function DigitChar(d: int): char
    requires 0 <= d < 10
  {
    "0123456789"[d]
  }

  /** `%d` of a non-negative number: its decimal digits. */
  function Digits(n: nat): (s: string)
    ensures |s| >= 1 && forall i | 0 <= i < |s| :: IsDigit(s[i])
  {
    if n < 10 then [DigitChar(n)] else Digits(n / 10) + [DigitChar(n % 10)]
  }

  /** Exactly three digits, with leading zeros. */
  function Pad3(m: nat): (s: string)
    requires m < 1000
    ensures |s| == 3
  {
    [DigitChar(m / 100), DigitChar(m / 10 % 10), DigitChar(m % 10)]
  }

  /** `%,d` of a non-negative number: its digits with a comma before every group of three from the right. */
  function Grouped(n: nat): string
  {
    if n < 1000 then Digits(n) else Grouped(n / 1000) + "," + Pad3(n % 1000)
  }

  /** The characters of `s` other than commas. */
  function Uncomma(s: string): string
  {
    if s == [] then [] else (if s[0] == ',' then [] else [s[0]]) + Uncomma(s[1..])
  }

  lemma {:induction false} UncommaConcat(a: string, b: string)
    ensures Uncomma(a + b) == Uncomma(a) + Uncomma(b)
    decreases |a|
  {
    if a == [] {
      assert a + b == b;
    } else {
      assert (a + b)[1..] == a[1..] + b;
      UncommaConcat(a[1..], b);
    }
  }

  lemma {:induction false} UncommaDigits(s: string)
    requires forall i | 0 <= i < |s| :: IsDigit(s[i])
    ensures Uncomma(s) == s
    decreases |s|
  {
    if s != [] {
      UncommaDigits(s[1..]);
    }
  }

  /** The last three digits of a number of at least 1000 are `Pad3` of its remainder. */
  lemma DigitsSplit(n: nat)
    requires n >= 1000
    ensures Digits(n) == Digits(n / 1000) + Pad3(n % 1000)
  {
    var q1, q2, q3 := n / 10, n / 100, n / 1000;
    ThousandDigits(n);
    var a, b, c := DigitChar(q2 % 10), DigitChar(q1 % 10), DigitChar(n % 10);
    assert Pad3(n % 1000) == [a, b, c];
    assert Digits(q2) == Digits(q3) + [a];
    assert Digits(q1) == Digits(q2) + [b];
    assert Digits(n) == Digits(q1) + [c];
    assert Digits(q3) + [a] + [b] + [c] == Digits(q3) + [a, b, c];
  }

  /** The digit arithmetic behind `DigitsSplit`. */
  lemma ThousandDigits(n: nat)
    requires n >= 1000
    ensures n / 10 / 10 == n / 100 && n / 100 / 10 == n / 1000
    ensures n / 100 >= 10 && n / 10 >= 10
    ensures (n % 1000) / 100 == n / 100 % 10
    ensures (n % 1000) / 10 % 10 == n / 10 % 10
    ensures (n % 1000) % 10 == n % 10
  {
    var m1, c := n / 10, n % 10;
    var m2, b := m1 / 10, m1 % 10;
    var m3, a := m2 / 10, m2 % 10;
    var t := 100 * a + 10 * b + c;
    assert n == 1000 * m3 + t && 0 <= t < 1000;
    assert n / 1000 == m3 && n % 1000 == t;
    assert n == 100 * m2 + (10 * b + c);
    assert n / 100 == m2;
    assert t / 100 == a && t / 10 == 10 * a + b && t % 10 == c;
  }

  /** Dropping the separator in front of a group of digits. */
  lemma UncommaGroup(head: string, group: string)
    requires forall i | 0 <= i < |group| :: IsDigit(group[i])
    ensures Uncomma(head + "," + group) == Uncomma(head) + group
  {
    var comma := ",";
    var withComma := head + comma;
    assert Uncomma(comma) == [] by {
      assert comma[1..] == [];
    }
    UncommaConcat(head, comma);
    assert Uncomma(withComma) == Uncomma(head);
    UncommaConcat(withComma, group);
    UncommaDigits(group);
  }

  /** Dropping the separators from `%,d` gives `%d`. */
  lemma {:induction false} GroupedDigits(n: nat)
    ensures Uncomma(Grouped(n)) == Digits(n)
  {
    if n < 1000 {
      UncommaDigits(Digits(n));
    } else {
      var q, r := n / 1000, n % 1000;
      GroupedDigits(q);
      UncommaGroup(Grouped(q), Pad3(r));
      DigitsSplit(n);
    }
  }

  /**
   * Java's `getDisplayText`: the name and the star count, grouped from
   * 1000 stars on. Both upper branches use the same format, and below 1000
   * grouping changes nothing, so the text is always the grouped count.
   */
  function DisplayText(c: StarCatalog): (text: string)
    ensures text == DisplayName(c) + " (" + Grouped(StarCount(c)) + " stars)"
  {
    var n := StarCount(c);
    if n >= 100000 then DisplayName(c) + " (" + Grouped(n) + " stars)"
    else if n >= 1000 then DisplayName(c) + " (" + Grouped(n) + " stars)"
    else DisplayName(c) + " (" + Digits(n) + " stars)"
  }

  // ---------------------------------------------------------------------
  // Memory and performance guidance
  // ---------------------------------------------------------------------

  /** `getEstimatedMemoryMB`: 100 bytes per star, in MiB. */
  function EstimatedMemoryMB(starCount: int): (mb: real)
    ensures mb * 1048576.0 == 100.0 * starCount as real
    ensures starCount >= 0 ==> mb >= 0.0
    ensures starCount <= 10485 ==> mb < 1.0
  {
    (starCount as real * 100.0) / (1024.0 * 1024.0)
  }

  /** The estimate is non-negative and proportional to the star count. */
  lemma EstimatedMemoryProportional(a: nat, b: nat)
    ensures EstimatedMemoryMB(a) >= 0.0
    ensures EstimatedMemoryMB(a + b) == EstimatedMemoryMB(a) + EstimatedMemoryMB(b)
    ensures a <= b ==> EstimatedMemoryMB(a) <= EstimatedMemoryMB(b)
  {
  }

  datatype Performance = Excellent | VeryGood | Good | Fair | Challenging
  {
    /** The label `getPerformanceCategory` returns. */
    function Label(): string
    {
      match this
      case Excellent => "Excellent"
      case VeryGood => "Very Good"
      case Good => "Good"
      case Fair => "Fair (may impact performance)"
      case Challenging => "Challenging (high-end systems only)"
    }

    /** Position from best (0) to worst (4). */
    function Rank(): nat
    {
      match this
      case Excellent => 0
      case VeryGood => 1
      case Good => 2
      case Fair => 3
      case Challenging => 4
    }
  }

  /** `getPerformanceCategory`, over the star count; every upper bound is inclusive. */
  function PerformanceCategory(starCount: int): (p: Performance)
    ensures p == Excellent <==> starCount <= 1000
    ensures p == VeryGood <==> 1000 < starCount <= 10000
    ensures p == Good <==> 10000 < starCount <= 50000
    ensures p == Fair <==> 50000 < starCount <= 100000
    ensures p == Challenging <==> starCount > 100000
  {
    if starCount <= 1000 then Excellent
    else if starCount <= 10000 then VeryGood
    else if starCount <= 50000 then Good
    else if starCount <= 100000 then Fair
    else Challenging
  }

  /** More stars never give a better category. */
  lemma PerformanceMonotone(a: int, b: int)
    requires a <= b
    ensures PerformanceCategory(a).Rank() <= PerformanceCategory(b).Rank()
  {
  }

  /**
   * `isRecommendedFor`, with the use case matched after lower-casing: the
   * catalogues of 1,000 to 10,000 stars for teaching, of 5,000 to 25,000
   * for amateurs, of at least 25,000 for research, of at most 5,000 for a
   * slow computer, and of at most 10,000 for any other use.
   */
  function IsRecommendedFor(c: StarCatalog, useCase: string): (r: bool)
    ensures ToLower(useCase) in {"education", "classroom"} ==>
      (r <==> c in {Hyg1000, Hyg5000, Hyg10000, SaoFk5})
    ensures ToLower(useCase) in {"amateur", "hobbyist"} ==>
      (r <==> c in {Hyg5000, Hyg10000, Hyg25000})
    ensures ToLower(useCase) in {"professional", "research"} ==>
      (r <==> c in {Hyg25000, Hyg50000, Hyg100000, HygFull, SaoCatalog})
    ensures ToLower(useCase) in {"performance", "slow_computer"} ==>
      (r <==> c in {BrightStars166, Hyg1000, Hyg5000, SaoFk5})
    ensures ToLower(useCase) !in USE_CASES ==>
      (r <==> c in {BrightStars166, Hyg1000, Hyg5000, Hyg10000, SaoFk5})
  {
    var n := StarCount(c);
    var key := ToLower(useCase);
    if key == "education" || key == "classroom" then 1000 <= n <= 10000
    else if key == "amateur" || key == "hobbyist" then 5000 <= n <= 25000
    else if key == "professional" || key == "research" then n >= 25000
    else if key == "performance" || key == "slow_computer" then n <= 5000
    else n <= 10000
  }

  /** The use cases `isRecommendedFor` knows, in lower case. */
  const USE_CASES: set<string> := {"education", "classroom", "amateur", "hobbyist", "professional", "research",
                                   "performance", "slow_computer"}

  /** Use cases that differ only in letter case get the same answer. */
  lemma RecommendationIgnoresCase(c: StarCatalog, a: string, b: string)
    requires ToLower(a) == ToLower(b)
    ensures IsRecommendedFor(c, a) == IsRecommendedFor(c, b)
  {
  }

  /** Mixed-case keys are recognised: the education catalogues. */
  lemma RecommendedForEducation(c: StarCatalog)
    ensures IsRecommendedFor(c, "Education") <==> c in {Hyg1000, Hyg5000, Hyg10000, SaoFk5}
  {
    assert ToLower("Education") == "education";
  }

  /** Mixed-case keys are recognised: the research catalogues. */
  lemma RecommendedForResearch(c: StarCatalog)
    ensures IsRecommendedFor(c, "RESEARCH") <==> c in {Hyg25000, Hyg50000, Hyg100000, HygFull, SaoCatalog}
  {
    assert ToLower("RESEARCH") == "research";
  }
}
