/**
 * What the Python catalog tools have in common: a CSV row as `csv.DictReader`
 * yields it, the star record they write into the JSON "objects" list, and
 * the `list.sort(key=mag)` that orders that list. Python's sort is stable,
 * so it is modelled by a stable insertion sort whose result is proved
 * ordered, a permutation of its input, and order-preserving among records
 * of equal magnitude.
 */
module CatalogRecords {
  import opened Options

  /**
   * A `csv.DictReader` row: the header's column names mapped to the row's
   * text. A row shorter than the header maps the missing columns to `None`;
   * a column the header lacks is not a key at all.
   */
  type Row = map<string, Option<string>>

  /**
   * One star as written to JSON. `name` and `spectralType` are `None` where
   * the tool leaves the key out or writes `null`.
   */
  datatype Entry = Entry(ra: real, dec: real, mag: real, name: Option<string>, spectralType: Option<string>)

  /** The first letters of the main spectral classes O, B, A, F, G, K and M. */
  const SPECTRAL_CLASSES: string := "OBAFGKM"

  /** Ascending by magnitude. */
  predicate SortedByMag(s: seq<Entry>)
  {
    forall i, j | 0 <= i < j < |s| :: s[i].mag <= s[j].mag
  }

  /** `x` placed before the first record that is not fainter than it. */
  function InsertByMag(x: Entry, t: seq<Entry>): (r: seq<Entry>)
    ensures multiset(r) == multiset(t) + multiset{x}
  {
    if t == [] || x.mag <= t[0].mag then [x] + t
    else
      assert t == [t[0]] + t[1..];
      [t[0]] + InsertByMag(x, t[1..])
  }

  /** Inserting into an ordered list keeps it ordered. */
  lemma {:induction false} InsertSorted(x: Entry, t: seq<Entry>)
    requires SortedByMag(t)
    ensures SortedByMag(InsertByMag(x, t))
    decreases |t|
  {
    if t != [] && x.mag > t[0].mag {
      var rest := InsertByMag(x, t[1..]);
      InsertSorted(x, t[1..]);
      forall k | 0 <= k < |rest|
        ensures t[0].mag <= rest[k].mag
      {
        assert rest[k] in multiset(rest);
        assert rest[k] == x || rest[k] in t[1..];
      }
    }
  }

  /** `stars.sort(key=lambda s: s['mag'])`. */
  function SortByMag(s: seq<Entry>): (r: seq<Entry>)
    ensures multiset(r) == multiset(s)
    ensures SortedByMag(r)
  {
    if s == [] then []
    else
      assert s == [s[0]] + s[1..];
      InsertSorted(s[0], SortByMag(s[1..]));
      InsertByMag(s[0], SortByMag(s[1..]))
  }

  /** The records of magnitude `m`, in order. */
  function WithMag(s: seq<Entry>, m: real): (r: seq<Entry>)
    ensures |r| <= |s| && multiset(r) <= multiset(s)
    ensures forall k | 0 <= k < |r| :: r[k].mag == m
    ensures forall x :: x in r <==> x in s && x.mag == m
  {
    if s == [] then []
    else
      assert s == [s[0]] + s[1..];
      if s[0].mag == m then [s[0]] + WithMag(s[1..], m)
      else WithMag(s[1..], m)
  }

  /** Inserting `x` adds it in front of the records of its own magnitude and nowhere else. */
  lemma {:induction false} InsertStable(x: Entry, t: seq<Entry>, m: real)
    ensures WithMag(InsertByMag(x, t), m) == if x.mag == m then [x] + WithMag(t, m) else WithMag(t, m)
    decreases |t|
  {
    if t == [] || x.mag <= t[0].mag {
      assert ([x] + t)[1..] == t;
    } else {
      var rest := InsertByMag(x, t[1..]);
      InsertStable(x, t[1..], m);
      assert ([t[0]] + rest)[1..] == rest;
      if x.mag == m {
        assert t[0].mag != m;
      }
    }
  }

  /** The sort is stable: records of equal magnitude keep their relative order. */
  lemma {:induction false} SortStable(s: seq<Entry>, m: real)
    ensures WithMag(SortByMag(s), m) == WithMag(s, m)
    decreases |s|
  {
    if s != [] {
      SortStable(s[1..], m);
      InsertStable(s[0], SortByMag(s[1..]), m);
    }
  }

  /** Sorting records that are already in order changes nothing. */
  lemma {:induction false} SortSorted(s: seq<Entry>)
    requires SortedByMag(s)
    ensures SortByMag(s) == s
    decreases |s|
  {
    if s != [] {
      assert SortedByMag(s[1..]);
      SortSorted(s[1..]);
      if |s| > 1 {
        assert s[0].mag <= s[1].mag;
        assert s == [s[0]] + s[1..];
      }
    }
  }

  /** A column that is present and not `None`, as `row.get(key)` would return it. */
  function Cell(row: Row, key: string): (r: Option<string>)
    ensures r.Some? <==> key in row && row[key].Some?
  {
    if key in row then row[key] else None
  }
}
