/**
 * The star service: holds the loaded catalogue document, the catalogue it
 * came from and the spatial index built over it, and answers region, cone
 * and nearest-star queries through the index, or from the full list when no
 * index has been built.
 *
 * Reading a catalogue file is not modelled: `LoadCatalog` receives the
 * loader as a function from file name to document, `None` standing for a
 * load that throws. The per-star check `hasValidCoordinates` is likewise a
 * predicate the service is constructed with, because the `Star` class does
 * not define it.
 */
module StarServices {
  import opened Maths
  import opened Options
  import opened Seqs
  import opened Sky
  import opened Spatial
  import opened Catalogs
  import Planets
  import DeepSky

  /** The root bounds of the index: RA 0 to 24 hours, Dec -90 to +90 degrees. */
  const WholeSky: Bounds := Bounds(0.0, 24.0, -90.0, 90.0)

  /**
   * The coordinate checks of planets and deep-sky objects accept exactly
   * the positions the root of the index covers.
   */
  lemma ValidCoordinatesAreWholeSky(p: Planets.Planet, o: DeepSky.DeepSkyObject)
    ensures Planets.HasValidCoordinates(p) <==> WholeSky.Contains(p.ra, p.dec)
    ensures DeepSky.HasValidCoordinates(o) <==> WholeSky.Contains(o.ra, o.dec)
  {
  }

  /** The stars the index ends up holding: those with valid coordinates that the root accepts. */
  function Indexable(valid: Star -> bool): Star -> bool
  {
    (x: Star) => valid(x) && WholeSky.Contains(x.ra, x.dec)
  }

  /**
   * The loop of `buildSpatialIndex`: a fresh depth-0 tree over the whole sky,
   * offered every star of the list that has valid coordinates.
   */
  method BuildIndex(list: seq<Star>, valid: Star -> bool) returns (index: QuadTree)
    ensures Valid(index) && index.bounds == WholeSky && index.depth == 0
    ensures multiset(Contents(index)) == multiset(Select(list, Indexable(valid)))
  {
    index := Empty(WholeSky, 0);
    var i := 0;
    while i < |list|
      invariant 0 <= i <= |list|
      invariant Valid(index) && index.bounds == WholeSky && index.depth == 0
      invariant multiset(Contents(index)) == multiset(Select(list[..i], Indexable(valid)))
    {
      SelectSnoc(list, i, Indexable(valid));
      if valid(list[i]) {
        var inserted;
        index, inserted := Insert(index, list[i]);
      }
      i := i + 1;
    }
    assert list[..i] == list;
  }

  /** The index never holds more stars than the list it was built from. */
  lemma IndexNoLargerThanList(index: QuadTree, list: seq<Star>, valid: Star -> bool)
    requires multiset(Contents(index)) == multiset(Select(list, Indexable(valid)))
    ensures |Contents(index)| <= |list|
  {
    assert |multiset(Contents(index))| == |Contents(index)|;
    assert |multiset(Select(list, Indexable(valid)))| == |Select(list, Indexable(valid))|;
  }

  class StarService {
    /** The loaded document (`null` before any load). */
    var stars: Option<Stars>
    var spatialIndex: Option<QuadTree>
    var currentCatalog: StarCatalog
    /** `Star.hasValidCoordinates`. */
    const hasValidCoordinates: Star -> bool

    /** Every index the service holds keeps the quadtree invariant. */
    ghost predicate IndexValid()
      reads this
    {
      spatialIndex.Some? ==> Valid(spatialIndex.value)
    }

    /**
     * The index is the one built from `list`: a valid depth-0 tree over the
     * whole sky holding exactly the indexable stars of the list.
     */
    ghost predicate IndexedFrom(list: seq<Star>)
      reads this
    {
      spatialIndex.Some? && Valid(spatialIndex.value) &&
      spatialIndex.value.bounds == WholeSky && spatialIndex.value.depth == 0 &&
      multiset(Contents(spatialIndex.value)) == multiset(Select(list, Indexable(hasValidCoordinates)))
    }

    /** The document and the catalogue were stored together and, when the document has a list, indexed. */
    ghost predicate Committed(catalog: StarCatalog, doc: Stars)
      reads this
    {
      stars == Some(doc) && currentCatalog == catalog &&
      (doc.starList.Some? ==> IndexedFrom(doc.starList.value))
    }

    /** A new service has no stars and no index, and names the bright-star catalogue as current. */
    constructor (hasValidCoordinates: Star -> bool)
      ensures stars == None && spatialIndex == None && currentCatalog == BrightStars166
      ensures this.hasValidCoordinates == hasValidCoordinates && IndexValid()
    {
      stars := None;
      spatialIndex := None;
      currentCatalog := BrightStars166;
      this.hasValidCoordinates := hasValidCoordinates;
    }

    /**
     * Java's `buildSpatialIndex`: nothing happens when there is no document
     * or it has no list; otherwise the index is replaced by one built from
     * the list.
     */
    method BuildSpatialIndex()
      requires IndexValid()
      modifies this
      ensures IndexValid() && stars == old(stars) && currentCatalog == old(currentCatalog)
      ensures stars.None? || stars.value.starList.None? ==> spatialIndex == old(spatialIndex)
      ensures stars.Some? && stars.value.starList.Some? ==> IndexedFrom(stars.value.starList.value)
    {
      if stars.None? || stars.value.starList.None? {
        return;
      }
      var index := BuildIndex(stars.value.starList.value, hasValidCoordinates);
      spatialIndex := Some(index);
    }

    /**
     * Java's `loadCatalog`. The document and the catalogue are committed
     * together, and the index rebuilt, only when loading the catalogue's
     * file succeeds; on failure both keep their values, except that a
     * service with no document at all falls back to the bright-star
     * catalogue.
     */
    method LoadCatalog(catalog: StarCatalog, load: string -> Option<Stars>)
      requires IndexValid()
      modifies this
      ensures IndexValid()
      ensures load(Filename(catalog)).Some? ==> Committed(catalog, load(Filename(catalog)).value)
      ensures load(Filename(catalog)).None? && old(stars).None? && load(Filename(BrightStars166)).Some? ==>
        Committed(BrightStars166, load(Filename(BrightStars166)).value)
      ensures load(Filename(catalog)).None? && (old(stars).Some? || load(Filename(BrightStars166)).None?) ==>
        stars == old(stars) && currentCatalog == old(currentCatalog) && spatialIndex == old(spatialIndex)
      ensures load(Filename(catalog)).Some? && load(Filename(catalog)).value.starList.None? ==>
        spatialIndex == old(spatialIndex)
    {
      var loaded := load(Filename(catalog));
      if loaded.Some? {
        Commit(catalog, loaded.value);
      } else if stars.None? {
        var fallback := load(Filename(BrightStars166));
        if fallback.Some? {
          Commit(BrightStars166, fallback.value);
        }
      }
    }

    /** The success path of `loadCatalog`: store the document and the catalogue, then rebuild the index. */
    method Commit(catalog: StarCatalog, loaded: Stars)
      requires IndexValid()
      modifies this
      ensures IndexValid() && Committed(catalog, loaded)
      ensures loaded.starList.None? ==> spatialIndex == old(spatialIndex)
    {
      stars := Some(loaded);
      currentCatalog := catalog;
      BuildSpatialIndex();
    }

    /** Java's `getCurrentStarCount`: the list's length, or 0 without a document or a list. */
    function CurrentStarCount(): (n: nat)
      reads this
      ensures n == (if stars.Some? && stars.value.starList.Some? then |stars.value.starList.value| else 0)
    {
      match stars
      case None => 0
      case Some(doc) =>
        match doc.starList
        case None => 0
        case Some(list) => |list|
    }

    /** Java's `setStars`: replace the document and rebuild the index from it. */
    method SetStars(newStars: Option<Stars>)
      requires IndexValid()
      modifies this
      ensures IndexValid() && stars == newStars && currentCatalog == old(currentCatalog)
      ensures newStars.None? || newStars.value.starList.None? ==> spatialIndex == old(spatialIndex)
      ensures newStars.Some? && newStars.value.starList.Some? ==> IndexedFrom(newStars.value.starList.value)
    {
      stars := newStars;
      BuildSpatialIndex();
    }

    /**
     * Java's `getStarsInRegion`: the stars of the index inside the
     * rectangle, or the whole list when there is no index. Without an index
     * and without a document Java throws, which the precondition excludes.
     */
    method StarsInRegion(raMin: real, raMax: real, decMin: real, decMax: real)
      returns (found: Option<seq<Star>>)
      requires IndexValid() && (spatialIndex.Some? || stars.Some?)
      ensures spatialIndex.None? ==> found == stars.value.starList
      ensures spatialIndex.Some? ==>
        found == Some(InRange(Contents(spatialIndex.value), Bounds(raMin, raMax, decMin, decMax)))
    {
      if spatialIndex.None? {
        return stars.value.starList;
      }
      var result := Query(spatialIndex.value, Bounds(raMin, raMax, decMin, decMax));
      found := Some(result);
    }

    /** Java's `getStarsInRadius`: the cone query of the index, or the whole list without one. */
    method StarsInRadius(tr: Trig, centerRA: real, centerDec: real, radiusDeg: real)
      returns (found: Option<seq<Star>>)
      requires IndexValid() && (spatialIndex.Some? || stars.Some?)
      ensures spatialIndex.None? ==> found == stars.value.starList
      ensures spatialIndex.Some? ==> found == Some(WithinRadius(tr,
        InRange(Contents(spatialIndex.value), RadiusBox(centerRA, centerDec, radiusDeg)),
        centerRA, centerDec, radiusDeg))
    {
      if spatialIndex.None? {
        return stars.value.starList;
      }
      var result := QueryRadius(spatialIndex.value, tr, centerRA, centerDec, radiusDeg);
      found := Some(result);
    }

    /** Java's `findNearestStar`: no star without an index, otherwise the index's answer. */
    method NearestStar(tr: Trig, ra: real, dec: real, maxRadiusDeg: real) returns (nearest: Option<Star>)
      requires IndexValid() && Lawful(tr)
      ensures spatialIndex.None? ==> nearest.None?
      ensures spatialIndex.Some? ==>
        var cands := WithinRadius(tr, InRange(Contents(spatialIndex.value), RadiusBox(ra, dec, maxRadiusDeg)),
                                  ra, dec, maxRadiusDeg);
        (nearest.None? <==> cands == []) &&
        (nearest.Some? ==> exists i :: IsFirstNearest(tr, ra, dec, cands, i) && cands[i] == nearest.value)
    {
      if spatialIndex.None? {
        return None;
      }
      nearest := FindNearest(spatialIndex.value, tr, ra, dec, maxRadiusDeg);
    }
  }
}
