/**
 * The star spatial index: a capacity-bounded quadtree over right ascension
 * (hours) and declination (degrees). Each node keeps up to MAX_CAPACITY stars
 * in its own list; a full node below MAX_DEPTH splits into four quadrants
 * (NE, NW, SE, SW) and hands further stars to the first quadrant that accepts
 * them.
 *
 * Every node carries a ghost `Contents`, the stars it stores in pre-order
 * (its own list, then each child's contents in NE, NW, SE, SW order), which is
 * exactly the order in which `Query` reports them.
 */
module Spatial {
  import opened Maths
  import opened Options
  import opened Sky
  import opened Seqs

  /** Stars a node keeps in its own list before it splits. */
  const MAX_CAPACITY: int := 50

  /** Nodes at this depth never split. */
  const MAX_DEPTH: int := 8

  /** A closed rectangle of the sky: RA in hours, Dec in degrees. */
  datatype Bounds = Bounds(raMin: real, raMax: real, decMin: real, decMax: real)
  {
    /** The point lies in the rectangle, all four edges included; only a non-empty rectangle has one. */
    function Contains(ra: real, dec: real): (inside: bool)
      ensures inside ==> WellFormed()
      ensures inside ==> Bounds(ra, ra, dec, dec).Intersects(this)
    {
      ra >= raMin && ra <= raMax && dec >= decMin && dec <= decMax
    }

    /** The part of the plane both rectangles cover (empty when they are apart). */
    function Overlap(other: Bounds): Bounds
    {
      Bounds(Max(raMin, other.raMin), Min(raMax, other.raMax), Max(decMin, other.decMin), Min(decMax, other.decMax))
    }

    /**
     * The rectangles are not separated along either axis. For non-empty
     * rectangles that is exactly a non-empty overlap.
     */
    function Intersects(other: Bounds): (meet: bool)
      ensures WellFormed() && other.WellFormed() ==> (meet <==> Overlap(other).WellFormed())
    {
      !(other.raMax < raMin || other.raMin > raMax ||
        other.decMax < decMin || other.decMin > decMax)
    }

    /** Neither interval is empty. */
    predicate WellFormed()
    {
      raMin <= raMax && decMin <= decMax
    }

    /**
     * Quadrant `i` of the split at the RA and Dec midpoints, in the order
     * NE, NW, SE, SW.
     */
    function Quadrant(i: int): (q: Bounds)
      requires 0 <= i < 4
      ensures q.raMin == (if i % 2 == 0 then (raMin + raMax) / 2.0 else raMin)
      ensures q.raMax == (if i % 2 == 0 then raMax else (raMin + raMax) / 2.0)
      ensures q.decMin == (if i < 2 then (decMin + decMax) / 2.0 else decMin)
      ensures q.decMax == (if i < 2 then decMax else (decMin + decMax) / 2.0)
    {
      var raMid := (raMin + raMax) / 2.0;
      var decMid := (decMin + decMax) / 2.0;
      if i == 0 then Bounds(raMid, raMax, decMid, decMax)
      else if i == 1 then Bounds(raMin, raMid, decMid, decMax)
      else if i == 2 then Bounds(raMid, raMax, decMin, decMid)
      else Bounds(raMin, raMid, decMin, decMid)
    }

    /**
     * The first quadrant that contains a point of this rectangle: the
     * quadrants cover their parent.
     */
    function FirstQuadrant(ra: real, dec: real): (i: int)
      requires Contains(ra, dec)
      ensures 0 <= i < 4 && Quadrant(i).Contains(ra, dec)
      ensures forall k | 0 <= k < i :: !Quadrant(k).Contains(ra, dec)
    {
      var raMid := (raMin + raMax) / 2.0;
      var decMid := (decMin + decMax) / 2.0;
      if ra >= raMid && dec >= decMid then 0
      else if dec >= decMid then 1
      else if ra >= raMid then 2
      else 3
    }
  }

  /** `intersects` does not depend on the order of its operands. */
  lemma IntersectsSymmetric(a: Bounds, b: Bounds)
    ensures a.Intersects(b) <==> b.Intersects(a)
  {
  }

  /**
   * For non-empty rectangles, `intersects` holds exactly when some point lies
   * in both.
   */
  lemma IntersectsIffCommonPoint(a: Bounds, b: Bounds)
    requires a.WellFormed() && b.WellFormed()
    ensures a.Intersects(b) <==> exists ra, dec :: a.Contains(ra, dec) && b.Contains(ra, dec)
  {
    if a.Intersects(b) {
      var ra := Max(a.raMin, b.raMin);
      var dec := Max(a.decMin, b.decMin);
      assert a.Contains(ra, dec) && b.Contains(ra, dec);
    }
  }

  /** A point common to two rectangles makes them intersect. */
  lemma CommonPointIntersects(a: Bounds, b: Bounds, ra: real, dec: real)
    requires a.Contains(ra, dec) && b.Contains(ra, dec)
    ensures a.Intersects(b)
  {
  }

  /** A point of a quadrant is a point of its parent. */
  lemma QuadrantInside(b: Bounds, i: int, ra: real, dec: real)
    requires 0 <= i < 4 && b.Quadrant(i).Contains(ra, dec)
    ensures b.Contains(ra, dec)
  {
  }

  /** The test `query` applies to each star. */
  function InBox(range: Bounds): Star -> bool
  {
    (x: Star) => range.Contains(x.ra, x.dec)
  }

  /** The stars of `s` that lie in `range`, in order. */
  function InRange(s: seq<Star>, range: Bounds): (r: seq<Star>)
    ensures |r| <= |s|
  {
    Select(s, InBox(range))
  }

  /** `InRange` holds exactly the stars of `s` whose position lies in `range`. */
  lemma InRangeMembers(s: seq<Star>, range: Bounds)
    ensures forall x :: x in InRange(s, range) <==> x in s && range.Contains(x.ra, x.dec)
  {
    SelectMembers(s, InBox(range));
  }

  /** `InRange` keeps every matching star as often as it is stored. */
  lemma InRangeMultiset(s: seq<Star>, range: Bounds)
    ensures forall x :: (multiset(InRange(s, range))[x] ==
      if range.Contains(x.ra, x.dec) then multiset(s)[x] else 0)
  {
    SelectMultiset(s, InBox(range));
  }

  /**
   * The haversine term of Java's `angularDistance` for two positions given
   * in hours and degrees, with the trigonometric functions left abstract.
   */
  function Haversine(t: Trig, ra1: real, dec1: real, ra2: real, dec2: real): real
  {
    HalfChord(t, ToRadians(dec1), ToRadians(dec2), ToRadians(ra2 * 15.0) - ToRadians(ra1 * 15.0))
  }

  /** Java's `angularDistance`, in radians: `2 asin(sqrt(haversine))`, within [0, PI]. */
  function AngularDistance(t: Trig, ra1: real, dec1: real, ra2: real, dec2: real): (d: real)
    ensures Lawful(t) ==> 0.0 <= d <= PI
  {
    HaversineRoot(t, ra1, dec1, ra2, dec2);
    2.0 * t.asin(t.sqrt(Haversine(t, ra1, dec1, ra2, dec2)))
  }

  /** For lawful trigonometry the square root of the haversine term lies in [0, 1]. */
  lemma HaversineRoot(t: Trig, ra1: real, dec1: real, ra2: real, dec2: real)
    ensures Lawful(t) ==> 0.0 <= t.sqrt(Haversine(t, ra1, dec1, ra2, dec2)) <= 1.0
  {
    if Lawful(t) {
      SqrtUnit(t, Haversine(t, ra1, dec1, ra2, dec2));
    }
  }

  /** The bounding box `queryRadius` searches: the centre plus or minus the radius on both axes. */
  function RadiusBox(centerRA: real, centerDec: real, radiusDeg: real): Bounds
  {
    Bounds(centerRA - radiusDeg, centerRA + radiusDeg,
           centerDec - radiusDeg, centerDec + radiusDeg)
  }

  /** The test `queryRadius` applies to each candidate. */
  function Near(t: Trig, centerRA: real, centerDec: real, radiusDeg: real): Star -> bool
  {
    (x: Star) => AngularDistance(t, centerRA, centerDec, x.ra, x.dec) <= ToRadians(radiusDeg)
  }

  /** The candidates within `radiusDeg` degrees of the centre, in order. */
  function WithinRadius(t: Trig, cands: seq<Star>, centerRA: real, centerDec: real, radiusDeg: real): (r: seq<Star>)
    ensures |r| <= |cands|
  {
    Select(cands, Near(t, centerRA, centerDec, radiusDeg))
  }

  /**
   * The cone filter keeps exactly the candidates whose angular distance is
   * at most the radius converted to radians.
   */
  lemma WithinRadiusMembers(t: Trig, cands: seq<Star>, centerRA: real, centerDec: real, radiusDeg: real)
    ensures forall x :: x in WithinRadius(t, cands, centerRA, centerDec, radiusDeg) <==>
      (x in cands && AngularDistance(t, centerRA, centerDec, x.ra, x.dec) <= ToRadians(radiusDeg))
  {
    SelectMembers(cands, Near(t, centerRA, centerDec, radiusDeg));
  }

  /** The distance `findNearest` compares: from (ra, dec) to the star. */
  function DistanceTo(t: Trig, ra: real, dec: real, s: Star): (d: real)
    ensures Lawful(t) ==> 0.0 <= d <= PI
  {
    AngularDistance(t, ra, dec, s.ra, s.dec)
  }

  /**
   * `cands[i]` is at minimal distance from (ra, dec), and every earlier
   * candidate is strictly farther.
   */
  predicate IsFirstNearest(t: Trig, ra: real, dec: real, cands: seq<Star>, i: int)
  {
    0 <= i < |cands| &&
    (forall j | 0 <= j < i :: DistanceTo(t, ra, dec, cands[j]) > DistanceTo(t, ra, dec, cands[i])) &&
    (forall j | 0 <= j < |cands| :: DistanceTo(t, ra, dec, cands[j]) >= DistanceTo(t, ra, dec, cands[i]))
  }

  /** Every angular distance is below `Double.MAX_VALUE`, the scan's starting best. */
  lemma DistancesBelowMax(t: Trig, ra: real, dec: real)
    requires Lawful(t)
    ensures forall x :: DistanceTo(t, ra, dec, x) < DOUBLE_MAX
  {
    forall x
      ensures DistanceTo(t, ra, dec, x) < DOUBLE_MAX
    {
      assert DistanceTo(t, ra, dec, x) <= PI;
    }
  }

  /**
   * The scan of `findNearest`: starting from `Double.MAX_VALUE`, keep the
   * first candidate whose distance is strictly smaller than the best so far.
   * Since every distance is below that start, the scan finds a star exactly
   * when there is a candidate.
   */
  method Nearest(t: Trig, ra: real, dec: real, candidates: seq<Star>) returns (nearest: Option<Star>)
    requires Lawful(t)
    ensures nearest.None? <==> candidates == []
    ensures nearest.Some? ==>
      exists i :: IsFirstNearest(t, ra, dec, candidates, i) && candidates[i] == nearest.value
  {
    DistancesBelowMax(t, ra, dec);
    nearest := Scan(t, ra, dec, candidates);
  }

  /** The loop of `findNearest`, for distances that are all below its starting best. */
  method Scan(t: Trig, ra: real, dec: real, candidates: seq<Star>) returns (nearest: Option<Star>)
    requires forall x :: DistanceTo(t, ra, dec, x) < DOUBLE_MAX
    ensures nearest.None? <==> candidates == []
    ensures nearest.Some? ==>
      exists i :: IsFirstNearest(t, ra, dec, candidates, i) && candidates[i] == nearest.value
  {
    nearest := None;
    var minDistance := DOUBLE_MAX;
    var best := 0;
    var i := 0;
    while i < |candidates|
      invariant 0 <= i <= |candidates| && 0 <= best <= i
      invariant i == 0 <==> nearest.None?
      invariant i == 0 ==> minDistance == DOUBLE_MAX
      invariant i > 0 ==> (best < i && nearest == Some(candidates[best]) &&
        minDistance == DistanceTo(t, ra, dec, candidates[best]))
      invariant forall j | 0 <= j < best :: DistanceTo(t, ra, dec, candidates[j]) > minDistance
      invariant forall j | 0 <= j < i :: DistanceTo(t, ra, dec, candidates[j]) >= minDistance
    {
      var distance := DistanceTo(t, ra, dec, candidates[i]);
      if distance < minDistance {
        minDistance := distance;
        nearest := Some(candidates[i]);
        best := i;
      }
      i := i + 1;
    }
    if nearest.Some? {
      assert IsFirstNearest(t, ra, dec, candidates, best);
    }
  }


  /**
   * One node of the index with everything below it. `children` holds the
   * quadrants NE, NW, SE, SW once the node is `divided`, and is empty
   * (Java's `null`) before.
   */
  datatype QuadTree = QuadTree(bounds: Bounds, depth: int, stars: seq<Star>,
                               children: seq<QuadTree>, divided: bool)

  /** The stars stored in a subtree, in pre-order: the node's own list, then each child's. */
  function Contents(t: QuadTree): seq<Star>
    decreases t
  {
    t.stars + Forest(t.children)
  }

  /** The contents of a list of subtrees, one after another. */
  function Forest(cs: seq<QuadTree>): seq<Star>
    decreases cs
  {
    if cs == [] then [] else Forest(cs[..|cs| - 1]) + Contents(cs[|cs| - 1])
  }

  /**
   * The shape every node keeps: its own stars lie in its bounds; it has
   * children exactly when divided; only nodes above MAX_DEPTH divide, and
   * then child `k` covers quadrant `k`, one level deeper, and is itself
   * valid.
   */
  predicate Valid(t: QuadTree)
    decreases t
  {
    (forall k | 0 <= k < |t.stars| :: t.bounds.Contains(t.stars[k].ra, t.stars[k].dec)) &&
    if !t.divided then t.children == []
    else
      t.depth < MAX_DEPTH && |t.children| == 4 &&
      forall k | 0 <= k < 4 ::
        t.children[k].bounds == t.bounds.Quadrant(k) && t.children[k].depth == t.depth + 1 &&
        Valid(t.children[k])
  }

  /** Levels left below a node before MAX_DEPTH; it drops by one per level. */
  function Height(t: QuadTree): nat
  {
    if t.depth >= MAX_DEPTH then 0 else MAX_DEPTH - t.depth
  }

  /** Java's constructor: an empty, undivided node. */
  function Empty(bounds: Bounds, depth: int): (t: QuadTree)
    ensures Valid(t) && Contents(t) == [] && !t.divided
    ensures t.bounds == bounds && t.depth == depth
  {
    QuadTree(bounds, depth, [], [], false)
  }

  /** Adding one more subtree appends its contents. */
  lemma ForestSnoc(cs: seq<QuadTree>, k: nat)
    requires k < |cs|
    ensures Forest(cs[..k + 1]) == Forest(cs[..k]) + Contents(cs[k])
  {
    assert cs[..k + 1][..k] == cs[..k];
  }

  /** Growing either side of a concatenation by a star grows the whole by that star. */
  lemma GrowConcat(a: seq<Star>, a': seq<Star>, b: seq<Star>, b': seq<Star>, star: Star)
    requires (a' == a && multiset(b') == multiset(b) + multiset{star}) ||
             (b' == b && multiset(a') == multiset(a) + multiset{star})
    ensures multiset(a' + b') == multiset(a + b) + multiset{star}
  {
    assert multiset(a' + b') == multiset(a') + multiset(b');
    assert multiset(a + b) == multiset(a) + multiset(b);
  }

  /** Replacing the last subtree replaces the last part of the forest. */
  lemma ForestReplaceLast(cs: seq<QuadTree>, c: QuadTree)
    requires cs != []
    ensures var n := |cs| - 1;
            Forest(cs[n := c]) == Forest(cs[..n]) + Contents(c)
  {
    var n := |cs| - 1;
    assert cs[n := c][..n] == cs[..n];
  }

  /** Replacing an earlier subtree leaves the last part of the forest alone. */
  lemma ForestReplaceInit(cs: seq<QuadTree>, i: nat, c: QuadTree)
    requires i < |cs| - 1
    ensures var n := |cs| - 1;
            Forest(cs[i := c]) == Forest(cs[..n][i := c]) + Contents(cs[n])
  {
    var n := |cs| - 1;
    assert cs[i := c][..n] == cs[..n][i := c];
  }

  /** Growing one subtree by a star grows the forest by that star. */
  lemma {:induction false} ForestGrows(cs: seq<QuadTree>, i: nat, c: QuadTree, star: Star)
    requires i < |cs| && multiset(Contents(c)) == multiset(Contents(cs[i])) + multiset{star}
    ensures multiset(Forest(cs[i := c])) == multiset(Forest(cs)) + multiset{star}
    decreases |cs|
  {
    var n := |cs| - 1;
    if i == n {
      ForestReplaceLast(cs, c);
      GrowConcat(Forest(cs[..n]), Forest(cs[..n]), Contents(cs[n]), Contents(c), star);
    } else {
      ForestGrows(cs[..n], i, c, star);
      ForestReplaceInit(cs, i, c);
      GrowConcat(Forest(cs[..n]), Forest(cs[..n][i := c]), Contents(cs[n]), Contents(cs[n]), star);
    }
  }

  /** Subtrees that store nothing make an empty forest. */
  lemma {:induction false} ForestOfEmpty(cs: seq<QuadTree>)
    requires forall k | 0 <= k < |cs| :: Contents(cs[k]) == []
    ensures Forest(cs) == []
    decreases |cs|
  {
    if cs != [] {
      ForestOfEmpty(cs[..|cs| - 1]);
    }
  }

  /** Every stored star lies in the bounds of the subtree that stores it. */
  lemma {:induction false} ContentsInBounds(t: QuadTree)
    requires Valid(t)
    ensures forall x | x in Contents(t) :: t.bounds.Contains(x.ra, x.dec)
    decreases t, 1
  {
    forall x | x in Contents(t)
      ensures t.bounds.Contains(x.ra, x.dec)
    {
      if x !in t.stars {
        var k := ForestMember(t.children, x);
        ContentsInBounds(t.children[k]);
        QuadrantInside(t.bounds, k, x.ra, x.dec);
      }
    }
  }

  /** A star of a forest comes from one of its subtrees. */
  lemma {:induction false} ForestMember(cs: seq<QuadTree>, x: Star) returns (k: nat)
    requires x in Forest(cs)
    ensures k < |cs| && x in Contents(cs[k])
    decreases |cs|
  {
    if x in Contents(cs[|cs| - 1]) {
      k := |cs| - 1;
    } else {
      k := ForestMember(cs[..|cs| - 1], x);
    }
  }

  /** A subtree whose bounds miss the range holds no star in the range. */
  lemma MissedRange(t: QuadTree, range: Bounds)
    requires Valid(t) && !t.bounds.Intersects(range)
    ensures InRange(Contents(t), range) == []
  {
    ContentsInBounds(t);
    forall x | x in Contents(t)
      ensures !range.Contains(x.ra, x.dec)
    {
      if range.Contains(x.ra, x.dec) {
        CommonPointIntersects(t.bounds, range, x.ra, x.dec);
      }
    }
    SelectNone(Contents(t), InBox(range));
  }

  /**
   * Java's `insert`: a star outside the node's bounds is refused and the
   * node is left as it was; otherwise it goes into the node's own list while
   * the list has fewer than MAX_CAPACITY stars or the node is at MAX_DEPTH,
   * and else into the first quadrant that accepts it, the node splitting
   * first if it has not yet.
   */
  method Insert(t: QuadTree, star: Star) returns (r: QuadTree, inserted: bool)
    requires Valid(t)
    ensures Valid(r) && r.bounds == t.bounds && r.depth == t.depth
    ensures inserted <==> t.bounds.Contains(star.ra, star.dec)
    ensures inserted ==> multiset(Contents(r)) == multiset(Contents(t)) + multiset{star}
    ensures !inserted ==> r == t
    ensures inserted && (|t.stars| < MAX_CAPACITY || t.depth >= MAX_DEPTH) ==>
      r == t.(stars := t.stars + [star])
    ensures inserted && !(|t.stars| < MAX_CAPACITY || t.depth >= MAX_DEPTH) ==>
      r.divided && r.stars == (if t.divided then t.stars else []) &&
      star in Contents(r.children[t.bounds.FirstQuadrant(star.ra, star.dec)])
    ensures inserted && !(|t.stars| < MAX_CAPACITY || t.depth >= MAX_DEPTH) && t.divided ==>
      PlacedInFirstQuadrant(t, r, star)
    ensures (inserted && !(|t.stars| < MAX_CAPACITY || t.depth >= MAX_DEPTH) &&
             (t.divided ==> HeldByFirstQuadrant(t))) ==> HeldByFirstQuadrant(r)
    decreases Height(t), 3
  {
    if !t.bounds.Contains(star.ra, star.dec) {
      return t, false;
    }
    if |t.stars| < MAX_CAPACITY || t.depth >= MAX_DEPTH {
      return t.(stars := t.stars + [star]), true;
    }
    r := t;
    if !r.divided {
      r := Subdivide(r);
    }
    var split := r;
    var placed;
    r, placed := InsertIntoChildren(r, star);
    if !placed {
      // The source's fallback (keep the star in this node) cannot run: the
      // four quadrants cover the node, so one of them accepts the star.
      assert false;
    }
    GainedStar(split, r, star);
    if HeldByFirstQuadrant(split) {
      PlacementKeepsOrder(split, r, star);
    }
    inserted := true;
  }

  /** The node with four empty quadrant children one level deeper and its own list emptied. */
  function Quartered(t: QuadTree): (r: QuadTree)
    requires t.depth < MAX_DEPTH
    ensures Valid(r) && r.bounds == t.bounds && r.depth == t.depth
    ensures r.divided && r.stars == [] && Contents(r) == []
    ensures |r.children| == 4 && forall j | 0 <= j < 4 :: Contents(r.children[j]) == []
  {
    var b := t.bounds;
    var raMid := (b.raMin + b.raMax) / 2.0;
    var decMid := (b.decMin + b.decMax) / 2.0;
    var ne := Empty(Bounds(raMid, b.raMax, decMid, b.decMax), t.depth + 1);
    var nw := Empty(Bounds(b.raMin, raMid, decMid, b.decMax), t.depth + 1);
    var se := Empty(Bounds(raMid, b.raMax, b.decMin, decMid), t.depth + 1);
    var sw := Empty(Bounds(b.raMin, raMid, b.decMin, decMid), t.depth + 1);
    ForestOfEmpty([ne, nw, se, sw]);
    t.(children := [ne, nw, se, sw], divided := true, stars := [])
  }

  /**
   * Java's `subdivide`: four empty quadrant children one level deeper, the
   * own list emptied, and each of its stars re-inserted into the first
   * child that accepts it.
   */
  method Subdivide(t: QuadTree) returns (r: QuadTree)
    requires Valid(t) && !t.divided && t.depth < MAX_DEPTH
    ensures Valid(r) && r.bounds == t.bounds && r.depth == t.depth
    ensures r.divided && r.stars == []
    ensures multiset(Contents(r)) == multiset(Contents(t))
    ensures HeldByFirstQuadrant(r)
    decreases Height(t), 2
  {
    var existing := t.stars;
    r := Quartered(t);
    var k := 0;
    while k < |existing|
      invariant 0 <= k <= |existing|
      invariant Valid(r) && r.bounds == t.bounds && r.depth == t.depth
      invariant r.divided && r.stars == []
      invariant multiset(Contents(r)) == multiset(existing[..k])
      invariant HeldByFirstQuadrant(r)
    {
      var before := r;
      var placed;
      r, placed := InsertIntoChildren(r, existing[k]);
      if !placed {
        // Unreachable for the same reason as in Insert: the star lay in
        // this node's bounds.
        assert false;
      }
      PlacementKeepsOrder(before, r, existing[k]);
      assert existing[..k + 1] == existing[..k] + [existing[k]];
      k := k + 1;
    }
    assert existing[..k] == existing;
  }

  /** Putting a child that gained one star in place of the old one keeps the node valid and gains that star. */
  lemma ReplaceChild(t: QuadTree, i: nat, c: QuadTree, star: Star)
    requires Valid(t) && t.divided && i < 4
    requires Valid(c) && c.bounds == t.bounds.Quadrant(i) && c.depth == t.depth + 1
    requires multiset(Contents(c)) == multiset(Contents(t.children[i])) + multiset{star}
    ensures var r := t.(children := t.children[i := c]);
            Valid(r) && multiset(Contents(r)) == multiset(Contents(t)) + multiset{star}
  {
    ForestGrows(t.children, i, c, star);
    var r := t.(children := t.children[i := c]);
    forall k | 0 <= k < 4
      ensures r.children[k].bounds == r.bounds.Quadrant(k) && r.children[k].depth == r.depth + 1
      ensures Valid(r.children[k])
    {
      if k != i {
        assert r.children[k] == t.children[k];
      }
    }
    assert Contents(r) == t.stars + Forest(r.children);
  }

  /**
   * `r` is the divided node `t` with `star` added to the subtree of the
   * first quadrant that contains it, every other child as it was.
   */
  predicate PlacedInFirstQuadrant(t: QuadTree, r: QuadTree, star: Star)
  {
    t.bounds.Contains(star.ra, star.dec) && |t.children| == |r.children| == 4 &&
    var k := t.bounds.FirstQuadrant(star.ra, star.dec);
    multiset(Contents(r.children[k])) == multiset(Contents(t.children[k])) + multiset{star} &&
    forall j | 0 <= j < 4 && j != k :: r.children[j] == t.children[j]
  }

  /**
   * Every star below each child of the node lies in the node's bounds and
   * the child is the first quadrant that contains it.
   */
  predicate HeldByFirstQuadrant(t: QuadTree)
  {
    |t.children| == 4 &&
    forall j, x | 0 <= j < 4 && x in Contents(t.children[j]) ::
      t.bounds.Contains(x.ra, x.dec) && t.bounds.FirstQuadrant(x.ra, x.dec) == j
  }

  /** Placing a star in its first quadrant keeps every star in its first quadrant. */
  lemma PlacementKeepsOrder(t: QuadTree, r: QuadTree, star: Star)
    requires HeldByFirstQuadrant(t) && PlacedInFirstQuadrant(t, r, star) && r.bounds == t.bounds
    ensures HeldByFirstQuadrant(r)
  {
    var k := t.bounds.FirstQuadrant(star.ra, star.dec);
    forall j, x | 0 <= j < 4 && x in Contents(r.children[j])
      ensures t.bounds.Contains(x.ra, x.dec) && t.bounds.FirstQuadrant(x.ra, x.dec) == j
    {
      if j == k {
        assert x in multiset(Contents(r.children[k]));
        assert x == star || x in multiset(Contents(t.children[k]));
      } else {
        assert r.children[j] == t.children[j];
      }
    }
  }

  /** After a placement the first quadrant's subtree holds the star. */
  lemma GainedStar(t: QuadTree, r: QuadTree, star: Star)
    requires PlacedInFirstQuadrant(t, r, star)
    ensures star in Contents(r.children[t.bounds.FirstQuadrant(star.ra, star.dec)])
  {
    var k := t.bounds.FirstQuadrant(star.ra, star.dec);
    assert star in multiset(Contents(r.children[k]));
  }

  /** The quadrant a scan in NE, NW, SE, SW order stops at is the first that contains the point. */
  lemma FirstAcceptingIsFirstQuadrant(b: Bounds, i: int, star: Star)
    requires 0 <= i < 4 && b.Quadrant(i).Contains(star.ra, star.dec)
    requires forall k | 0 <= k < i :: !b.Quadrant(k).Contains(star.ra, star.dec)
    ensures b.Contains(star.ra, star.dec) && b.FirstQuadrant(star.ra, star.dec) == i
  {
    QuadrantInside(b, i, star.ra, star.dec);
  }

  /**
   * The loop over the children shared by `insert` and `subdivide`: offers
   * `star` to NE, NW, SE and SW in turn and stops at the first that accepts
   * it.
   */
  method InsertIntoChildren(t: QuadTree, star: Star) returns (r: QuadTree, placed: bool)
    requires Valid(t) && t.divided
    ensures Valid(r) && r.bounds == t.bounds && r.depth == t.depth
    ensures r.divided && r.stars == t.stars
    ensures placed <==> t.bounds.Contains(star.ra, star.dec)
    ensures placed ==> multiset(Contents(r)) == multiset(Contents(t)) + multiset{star}
    ensures placed ==> PlacedInFirstQuadrant(t, r, star)
    ensures !placed ==> r == t
    decreases Height(t), 1
  {
    var i := 0;
    while i < 4
      invariant 0 <= i <= 4
      invariant forall k | 0 <= k < i :: !t.bounds.Quadrant(k).Contains(star.ra, star.dec)
    {
      var child, ok := Insert(t.children[i], star);
      if ok {
        QuadrantInside(t.bounds, i, star.ra, star.dec);
        ReplaceChild(t, i, child, star);
        FirstAcceptingIsFirstQuadrant(t.bounds, i, star);
        return t.(children := t.children[i := child]), true;
      }
      i := i + 1;
    }
    if t.bounds.Contains(star.ra, star.dec) {
      var q := t.bounds.FirstQuadrant(star.ra, star.dec);
      assert false;
    }
    return t, false;
  }

  /** One more child adds its own answer to the range answer of the children before it. */
  lemma InRangeForestSnoc(cs: seq<QuadTree>, k: nat, range: Bounds)
    requires k < |cs|
    ensures InRange(Forest(cs[..k + 1]), range) == InRange(Forest(cs[..k]), range) + InRange(Contents(cs[k]), range)
  {
    ForestSnoc(cs, k);
    SelectConcat(Forest(cs[..k]), Contents(cs[k]), InBox(range));
  }

  /** The loop over a node's own list in `query`: the stars inside the range, in list order. */
  method Filter(stars: seq<Star>, range: Bounds) returns (found: seq<Star>)
    ensures found == InRange(stars, range)
  {
    found := [];
    var i := 0;
    while i < |stars|
      invariant 0 <= i <= |stars|
      invariant found == InRange(stars[..i], range)
    {
      SelectSnoc(stars, i, InBox(range));
      if range.Contains(stars[i].ra, stars[i].dec) {
        found := found + [stars[i]];
      }
      i := i + 1;
    }
    assert stars[..i] == stars;
  }

  /**
   * Java's `query`: nothing when the range misses the node's bounds;
   * otherwise the node's own stars that lie in the range, then each child's
   * answer in NE, NW, SE, SW order. Pruning loses nothing, so the answer is
   * every stored star in the range, in pre-order.
   */
  method Query(t: QuadTree, range: Bounds) returns (found: seq<Star>)
    requires Valid(t)
    ensures found == InRange(Contents(t), range)
    decreases t
  {
    found := [];
    if !t.bounds.Intersects(range) {
      MissedRange(t, range);
      return;
    }
    found := Filter(t.stars, range);
    if t.divided {
      var k := 0;
      while k < |t.children|
        invariant 0 <= k <= |t.children|
        invariant found == InRange(t.stars, range) + InRange(Forest(t.children[..k]), range)
      {
        var sub := Query(t.children[k], range);
        InRangeForestSnoc(t.children, k, range);
        found := found + sub;
        k := k + 1;
      }
      assert t.children[..k] == t.children;
    }
    SelectConcat(t.stars, Forest(t.children), InBox(range));
  }

  /**
   * A star that `insert` accepted is reported by every later `query` whose
   * range contains it, and the other answers are unchanged.
   */
  lemma QueryAfterInsert(before: QuadTree, after: QuadTree, star: Star, range: Bounds)
    requires multiset(Contents(after)) == multiset(Contents(before)) + multiset{star}
    ensures multiset(InRange(Contents(after), range)) ==
      multiset(InRange(Contents(before), range)) +
      (if range.Contains(star.ra, star.dec) then multiset{star} else multiset{})
  {
    InRangeMultiset(Contents(after), range);
    InRangeMultiset(Contents(before), range);
  }

  /** One more candidate joins the cone answer exactly when it is within the radius. */
  lemma NearStep(t: Trig, cands: seq<Star>, i: nat, centerRA: real, centerDec: real, radiusDeg: real)
    requires i < |cands|
    ensures var x := cands[i];
            WithinRadius(t, cands[..i + 1], centerRA, centerDec, radiusDeg) ==
            WithinRadius(t, cands[..i], centerRA, centerDec, radiusDeg) +
            (if AngularDistance(t, centerRA, centerDec, x.ra, x.dec) <= ToRadians(radiusDeg) then [x] else [])
  {
    SelectSnoc(cands, i, Near(t, centerRA, centerDec, radiusDeg));
  }

  /**
   * Java's `queryRadius`: the stars of the bounding box whose angular
   * distance from the centre is at most the radius.
   */
  method QueryRadius(t: QuadTree, tr: Trig, centerRA: real, centerDec: real, radiusDeg: real)
    returns (found: seq<Star>)
    requires Valid(t)
    ensures found == WithinRadius(tr, InRange(Contents(t), RadiusBox(centerRA, centerDec, radiusDeg)),
                                  centerRA, centerDec, radiusDeg)
  {
    var candidates := Query(t, RadiusBox(centerRA, centerDec, radiusDeg));
    found := [];
    var radiusRad := ToRadians(radiusDeg);
    var i := 0;
    while i < |candidates|
      invariant 0 <= i <= |candidates|
      invariant found == WithinRadius(tr, candidates[..i], centerRA, centerDec, radiusDeg)
    {
      NearStep(tr, candidates, i, centerRA, centerDec, radiusDeg);
      var distance := AngularDistance(tr, centerRA, centerDec, candidates[i].ra, candidates[i].dec);
      if distance <= radiusRad {
        found := found + [candidates[i]];
      }
      i := i + 1;
    }
    assert candidates[..i] == candidates;
  }

  /**
   * A star is in the cone answer exactly when it is stored, lies in the
   * bounding box and is within the radius.
   */
  lemma QueryRadiusMembers(t: QuadTree, tr: Trig, centerRA: real, centerDec: real, radiusDeg: real, x: Star)
    ensures x in WithinRadius(tr, InRange(Contents(t), RadiusBox(centerRA, centerDec, radiusDeg)),
                              centerRA, centerDec, radiusDeg) <==>
      x in Contents(t) && RadiusBox(centerRA, centerDec, radiusDeg).Contains(x.ra, x.dec) &&
      AngularDistance(tr, centerRA, centerDec, x.ra, x.dec) <= ToRadians(radiusDeg)
  {
    var box := RadiusBox(centerRA, centerDec, radiusDeg);
    WithinRadiusMembers(tr, InRange(Contents(t), box), centerRA, centerDec, radiusDeg);
    InRangeMembers(Contents(t), box);
  }

  /**
   * Java's `findNearest`: no star when the cone around the position is
   * empty, otherwise the first candidate at minimal angular distance.
   */
  method FindNearest(t: QuadTree, tr: Trig, ra: real, dec: real, maxRadius: real)
    returns (nearest: Option<Star>)
    requires Valid(t) && Lawful(tr)
    ensures var cands := WithinRadius(tr, InRange(Contents(t), RadiusBox(ra, dec, maxRadius)), ra, dec, maxRadius);
      (nearest.None? <==> cands == []) &&
      (nearest.Some? ==> exists i :: IsFirstNearest(tr, ra, dec, cands, i) && cands[i] == nearest.value)
  {
    var candidates := QueryRadius(t, tr, ra, dec, maxRadius);
    if candidates == [] {
      return None;
    }
    nearest := Nearest(tr, ra, dec, candidates);
  }

  /** Java's `size`: the node's own stars plus each child's size. */
  method Size(t: QuadTree) returns (count: int)
    requires Valid(t)
    ensures count == |Contents(t)|
    decreases t
  {
    count := |t.stars|;
    if t.divided {
      var k := 0;
      while k < |t.children|
        invariant 0 <= k <= |t.children|
        invariant count == |t.stars| + |Forest(t.children[..k])|
      {
        var sub := Size(t.children[k]);
        ForestSnoc(t.children, k);
        count := count + sub;
        k := k + 1;
      }
      assert t.children[..k] == t.children;
    }
  }

  /**
   * Java's `clear`: the own list emptied and, on a divided node, the
   * children cleared and dropped. What remains is exactly a freshly
   * constructed node with the same bounds and depth.
   */
  function Clear(t: QuadTree): (r: QuadTree)
    requires Valid(t)
    ensures r == Empty(t.bounds, t.depth)
    ensures Valid(r) && Contents(r) == [] && !r.divided
  {
    if t.divided then t.(stars := [], children := [], divided := false)
    else t.(stars := [])
  }
}
