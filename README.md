# Planetarium core in Dafny

This project models the computational core of the dqromney *planetarium*.
On the Java side:

- the star quadtree, its range, cone and nearest-star queries;
- the star service that loads a catalogue and keeps the spatial index;
- the catalogue enumeration;
- the three sky projections (single hemisphere, dual hemisphere and full-sky Mercator);
- the Julian-date and sidereal-time ephemeris;
- the Sun, Moon and planet position calculators and their display helpers;
- the deep-sky object helpers;
- the legacy horizon-coordinate service.

On the Python side it models the catalogue tools: the ASU, SAO and HYG
converters and the catalogue validator.

How the model represents the source:

- Java `double` becomes `real`.
- Java's truncating `int` division and `%` are written out, in `Maths.JavaDiv` and `Maths.JavaRem`.
- Sine, cosine, tangent, their inverses, square root and base-10 logarithm come from a `Maths.Trig` bundle of functions.
  The predicate `Maths.Lawful` constrains the bundle by facts true of the exact functions:
  sine and cosine lie in [-1, 1] with sin² + cos² = 1, sin 0 = 0 and cos 0 = 1;
  arcsine and arccosine have their ranges on [-1, 1] only; atan2 lies in [-pi, pi];
  the square root of a non-negative number is its non-negative root; log10 is increasing;
  and the haversine term lies in [0, 1].
- The star service is a class with the same fields as the source.
- The quadtree is a value whose insert, subdivide and query operations keep the recursion and loops of the source.
- Python's `float()` and `round()` are parameters.
- A CSV row is a map from column name to cell, where `None` is the filler a short row gets.
- `list.sort(key=...)` is a stable insertion sort by magnitude.

Source cells in the table are paths within the repository.

## Model

| member | source | states |
|---|---|---|
| Spatial.Bounds.Quadrant | logic/src/main/java/com/dqrapps/planetarium/logic/spatial/QuadTree.java:93-123 | quadrant 0 takes the upper halves of right ascension and declination, 1 the lower right ascension and upper declination, 2 the upper right ascension and lower declination, and 3 the lower halves |
| Spatial.Bounds.FirstQuadrant | logic/src/main/java/com/dqrapps/planetarium/logic/spatial/QuadTree.java:78-83 | every point of a box lies in some quadrant, so the insert loop always finds a child and never keeps a point in a split node |
| Spatial.Bounds.Contains | logic/src/main/java/com/dqrapps/planetarium/logic/spatial/QuadTree.java:38-40 | a box that contains a point is non-empty and meets the point's own degenerate box |
| Spatial.Bounds.Intersects | logic/src/main/java/com/dqrapps/planetarium/logic/spatial/QuadTree.java:42-45 | two non-empty boxes intersect exactly when their overlap is non-empty |
| Spatial.IntersectsSymmetric | logic/src/main/java/com/dqrapps/planetarium/logic/spatial/QuadTree.java:42-45 | box intersection is symmetric |
| Spatial.IntersectsIffCommonPoint | logic/src/main/java/com/dqrapps/planetarium/logic/spatial/QuadTree.java:38-45 | two well-formed boxes intersect exactly when some point lies in both |
| Spatial.CommonPointIntersects | logic/src/main/java/com/dqrapps/planetarium/logic/spatial/QuadTree.java:38-45 | a point inside two boxes makes them intersect |
| Spatial.QuadrantInside | logic/src/main/java/com/dqrapps/planetarium/logic/spatial/QuadTree.java:93-123 | a point of a quadrant lies in the parent box |
| Spatial.InRangeMembers | logic/src/main/java/com/dqrapps/planetarium/logic/spatial/QuadTree.java:146-169 | a range query keeps exactly the stars that lie in the box |
| Spatial.InRangeMultiset | logic/src/main/java/com/dqrapps/planetarium/logic/spatial/QuadTree.java:146-169 | a range query never adds stars and never duplicates them |
| Spatial.AngularDistance | logic/src/main/java/com/dqrapps/planetarium/logic/spatial/QuadTree.java:203-218 | with lawful trigonometry the haversine angular distance, in radians, lies in [0, pi] |
| Spatial.WithinRadiusMembers | logic/src/main/java/com/dqrapps/planetarium/logic/spatial/QuadTree.java:174-198 | the cone filter keeps exactly the candidates whose angular distance is within the radius |
| Spatial.Nearest | logic/src/main/java/com/dqrapps/planetarium/logic/spatial/QuadTree.java:226-241 | returns no star exactly when there is no candidate; otherwise returns the first candidate of least distance |
| Spatial.Empty | logic/src/main/java/com/dqrapps/planetarium/logic/spatial/QuadTree.java:51-56 | a fresh node is a valid leaf holding no star |
| Spatial.ContentsInBounds | logic/src/main/java/com/dqrapps/planetarium/logic/spatial/QuadTree.java:61-88 | every star stored in a valid tree lies inside the tree's box |
| Spatial.MissedRange | logic/src/main/java/com/dqrapps/planetarium/logic/spatial/QuadTree.java:149-152 | pruning a node whose box misses the range loses no star of the range |
| Spatial.Insert | logic/src/main/java/com/dqrapps/planetarium/logic/spatial/QuadTree.java:61-88 | a point outside the box is refused and the tree is unchanged; a node holding fewer than 50 stars, or at the maximum depth, appends the star to its own list, split or not; otherwise a leaf is split first and the star goes to the first quadrant, in NE, NW, SE, SW order, that contains it, with the other children unchanged; the tree stays valid, gains exactly that star, and a split node keeps every star below it in its first quadrant |
| Spatial.Subdivide | logic/src/main/java/com/dqrapps/planetarium/logic/spatial/QuadTree.java:93-141 | splitting a full leaf gives a valid node that keeps no star itself and whose four children hold exactly the node's former stars, each in the first quadrant that contains it |
| Spatial.InsertIntoChildren | logic/src/main/java/com/dqrapps/planetarium/logic/spatial/QuadTree.java:78-87 | a point inside a split node goes to the first quadrant that contains it, which gains exactly that star, while the other three children and the node's own list are unchanged; a point outside changes nothing |
| Spatial.FirstAcceptingIsFirstQuadrant | logic/src/main/java/com/dqrapps/planetarium/logic/spatial/QuadTree.java:78-83 | the child the loop stops at is the first quadrant that contains the point |
| Spatial.PlacementKeepsOrder | logic/src/main/java/com/dqrapps/planetarium/logic/spatial/QuadTree.java:78-87 | placing a star in its first quadrant keeps every star below the node in its own first quadrant |
| Spatial.Filter | logic/src/main/java/com/dqrapps/planetarium/logic/spatial/QuadTree.java:154-159 | the node's own stars that lie in the range, in list order |
| Spatial.Query | logic/src/main/java/com/dqrapps/planetarium/logic/spatial/QuadTree.java:146-169 | the range query returns the stored stars that lie in the range, in the order the tree stores them |
| Spatial.QueryAfterInsert | logic/src/main/java/com/dqrapps/planetarium/logic/spatial/QuadTree.java:146-169 | after an insert, the range query's result gains the new star exactly when the star lies in the range |
| Spatial.QueryRadius | logic/src/main/java/com/dqrapps/planetarium/logic/spatial/QuadTree.java:174-198 | the cone query is the range query of the cone's bounding box filtered by angular distance |
| Spatial.QueryRadiusMembers | logic/src/main/java/com/dqrapps/planetarium/logic/spatial/QuadTree.java:174-198 | a star is returned by the cone query exactly when it is stored, lies in the bounding box and is within the radius |
| Spatial.FindNearest | logic/src/main/java/com/dqrapps/planetarium/logic/spatial/QuadTree.java:223-242 | returns the first closest star within the search radius, or none when the cone holds none |
| Spatial.Size | logic/src/main/java/com/dqrapps/planetarium/logic/spatial/QuadTree.java:247-255 | the counted size is the number of stored stars |
| Spatial.Clear | logic/src/main/java/com/dqrapps/planetarium/logic/spatial/QuadTree.java:260-269 | clearing leaves a valid, empty, unsplit node with the same box and depth |
| StarServices.BuildIndex | logic/src/main/java/com/dqrapps/planetarium/logic/service/StarService.java:102-120 | the index is a valid depth-0 tree over the whole sky that holds exactly the list's stars with valid coordinates |
| StarServices.IndexNoLargerThanList | logic/src/main/java/com/dqrapps/planetarium/logic/service/StarService.java:102-120 | the index never holds more stars than the list |
| StarServices.ValidCoordinatesAreWholeSky | logic/src/main/java/com/dqrapps/planetarium/logic/model/Planet.java:64-66 | a planet's coordinates, and a deep-sky object's (DeepSkyObject.java:45-47), are valid exactly when they lie in the whole-sky box the star index covers |
| StarServices.StarService.constructor | logic/src/main/java/com/dqrapps/planetarium/logic/service/StarService.java:29-32 | a new service has no document and no index, and its catalogue is the default |
| StarServices.StarService.BuildSpatialIndex | logic/src/main/java/com/dqrapps/planetarium/logic/service/StarService.java:102-120 | with a star list the index is rebuilt from it; without one the index is left as it was |
| StarServices.StarService.LoadCatalog | logic/src/main/java/com/dqrapps/planetarium/logic/service/StarService.java:47-83 | a loaded document is committed with its catalogue; when loading fails with no document yet, the bright-star catalogue is committed if it loads; otherwise nothing changes; the index stays consistent |
| StarServices.StarService.Commit | logic/src/main/java/com/dqrapps/planetarium/logic/service/StarService.java:54-73 | stores the document and the catalogue and rebuilds the index from the document's list |
| StarServices.StarService.CurrentStarCount | logic/src/main/java/com/dqrapps/planetarium/logic/service/StarService.java:95-97 | the list's length, or 0 without a document or a list |
| StarServices.StarService.SetStars | logic/src/main/java/com/dqrapps/planetarium/logic/service/StarService.java:232-235 | replaces the document, keeps the catalogue and re-indexes the new list; a missing list keeps the old index |
| StarServices.StarService.StarsInRegion | logic/src/main/java/com/dqrapps/planetarium/logic/service/StarService.java:125-132 | the indexed stars inside the box, or the whole list when there is no index |
| StarServices.StarService.StarsInRadius | logic/src/main/java/com/dqrapps/planetarium/logic/service/StarService.java:137-143 | the indexed stars within the cone, or the whole list when there is no index |
| StarServices.StarService.NearestStar | logic/src/main/java/com/dqrapps/planetarium/logic/service/StarService.java:148-154 | no star without an index; otherwise none exactly when the cone is empty, else the first closest indexed star within the radius |
| Catalogs.FilenamesDistinct | logic/src/main/java/com/dqrapps/planetarium/logic/type/StarCatalog.java:10-23 | the ten catalogues are all listed and no two share a file name |
| Catalogs.GroupedDigits | logic/src/main/java/com/dqrapps/planetarium/logic/type/StarCatalog.java:56-64 | removing the group separators from the grouped count gives the count's decimal digits |
| Catalogs.DisplayText | logic/src/main/java/com/dqrapps/planetarium/logic/type/StarCatalog.java:56-64 | both branches give the display name followed by the star count grouped by thousands |
| Catalogs.EstimatedMemoryProportional | logic/src/main/java/com/dqrapps/planetarium/logic/type/StarCatalog.java:69-72 | the memory estimate is non-negative, additive in the star count and grows with it |
| Catalogs.EstimatedMemoryMB | logic/src/main/java/com/dqrapps/planetarium/logic/type/StarCatalog.java:69-72 | 100 bytes per star, in units of 2^20 bytes: non-negative for a non-negative count and below 1 up to 10485 stars |
| Catalogs.IsRecommendedFor | logic/src/main/java/com/dqrapps/planetarium/logic/type/StarCatalog.java:94-111 | for each of the four pairs of use cases, in any case, exactly its listed catalogues; for any other use case the 166-star catalogue, the 1000-, 5000- and 10000-star HYG catalogues and SAO FK5 |
| Catalogs.PerformanceCategory | logic/src/main/java/com/dqrapps/planetarium/logic/type/StarCatalog.java:77-89 | each category is returned exactly on its range of star counts |
| Catalogs.PerformanceMonotone | logic/src/main/java/com/dqrapps/planetarium/logic/type/StarCatalog.java:77-89 | a larger catalogue never gets a better performance category |
| Catalogs.RecommendationIgnoresCase | logic/src/main/java/com/dqrapps/planetarium/logic/type/StarCatalog.java:94-111 | the recommendation does not depend on the case of the use-case text |
| Catalogs.RecommendedForEducation | logic/src/main/java/com/dqrapps/planetarium/logic/type/StarCatalog.java:94-111 | education use recommends exactly the 1000-, 5000- and 10000-star HYG catalogues and SAO FK5 |
| Catalogs.RecommendedForResearch | logic/src/main/java/com/dqrapps/planetarium/logic/type/StarCatalog.java:94-111 | research use recommends exactly the HYG catalogues from 25000 stars up and the full SAO catalogue |
| Projection.SkyProjection.WithViewMode | logic/src/main/java/com/dqrapps/planetarium/logic/service/SkyProjection.java:201-203 | only the view mode changes |
| Projection.NewProjection | logic/src/main/java/com/dqrapps/planetarium/logic/service/SkyProjection.java:22-30 | a new projection keeps its canvas, centre and field of view and starts in single-hemisphere mode |
| Projection.RaDecToScreen | logic/src/main/java/com/dqrapps/planetarium/logic/service/SkyProjection.java:39-49 | dispatches to the projection of the current view mode; only the single-hemisphere projection needs a non-zero field of view |
| Projection.SingleScreen | logic/src/main/java/com/dqrapps/planetarium/logic/service/SkyProjection.java:54-88 | a point more than 90 degrees from the centre is not drawn; a drawn point lies on the canvas |
| Projection.CentreMapsToMiddle | logic/src/main/java/com/dqrapps/planetarium/logic/service/SkyProjection.java:63-81 | the projection centre lands in the middle of the canvas |
| Projection.DualScreen | logic/src/main/java/com/dqrapps/planetarium/logic/service/SkyProjection.java:93-146 | a drawn northern point lies in the left half and a southern one in the right half, on the canvas; a point below its pole's horizon or outside its disk is not drawn |
| Projection.MercatorScreen | logic/src/main/java/com/dqrapps/planetarium/logic/service/SkyProjection.java:151-172 | a point is drawn exactly when its row falls on the canvas, with the row linear in declination and the column linear in right ascension |
| Projection.MercatorX | logic/src/main/java/com/dqrapps/planetarium/logic/service/SkyProjection.java:156-164 | right ascension 0 to 24 hours maps linearly onto the canvas width |
| Projection.MercatorY | logic/src/main/java/com/dqrapps/planetarium/logic/service/SkyProjection.java:159-160 | the row is linear in declination, with the equator at the middle |
| Projection.MercatorRows | logic/src/main/java/com/dqrapps/planetarium/logic/service/SkyProjection.java:159-169 | every declination in [-90, 90] is drawn: +90 on the top row, the equator in the middle and -90 on the bottom row |
| Projection.ViewportOnCanvas | logic/src/main/java/com/dqrapps/planetarium/logic/service/SkyProjection.java:181-184 | a point the viewport test accepts is drawn on the canvas |
| Projection.IsInViewport | logic/src/main/java/com/dqrapps/planetarium/logic/service/SkyProjection.java:181-184 | false in single-hemisphere mode for a point more than 90 degrees from the centre, and in dual mode for a point below its pole's horizon or outside its disk; in Mercator mode true exactly when the point's row falls on the canvas |
| Projection.Hemisphere | logic/src/main/java/com/dqrapps/planetarium/logic/service/SkyProjection.java:191-196 | 'Single' exactly outside dual mode; in dual mode 'North' exactly on the left half |
| Ephemeris.J2000Noon | logic/src/main/java/com/dqrapps/planetarium/logic/service/SunCalculator.java:89-110 | noon of 1 January 2000 is Julian date 2451545 |
| Ephemeris.JulianDate | logic/src/main/java/com/dqrapps/planetarium/logic/service/SunCalculator.java:89-110 | the day number of the date plus the time of day as a fraction of a day, less 1524.5, so that J2000Noon and JulianDateNextDay tie it to the calendar |
| Ephemeris.YearDays | logic/src/main/java/com/dqrapps/planetarium/logic/service/SunCalculator.java:105-107 | floor(365.25 n) is 365 n plus the leap days up to year n |
| Ephemeris.MonthDays | logic/src/main/java/com/dqrapps/planetarium/logic/service/SunCalculator.java:105-107 | floor(30.6001 (m + 1)) is the offset of month m, counted from March |
| Ephemeris.CorrectionStep | logic/src/main/java/com/dqrapps/planetarium/logic/service/SunCalculator.java:96-103 | the Gregorian correction drops a day exactly at each century year that is not a multiple of 400 |
| Ephemeris.DayNumberForm | logic/src/main/java/com/dqrapps/planetarium/logic/service/SunCalculator.java:89-110 | the day number is the day count of the date with January and February shifted to the end of the previous year |
| Ephemeris.NextDayIsOneLater | logic/src/main/java/com/dqrapps/planetarium/logic/service/SunCalculator.java:89-110 | the next calendar day has the next day number |
| Ephemeris.WithinMonth | logic/src/main/java/com/dqrapps/planetarium/logic/service/SunCalculator.java:89-110 | within a month, consecutive days have consecutive day numbers |
| Ephemeris.AcrossMonth | logic/src/main/java/com/dqrapps/planetarium/logic/service/SunCalculator.java:89-110 | the first day of a month follows the last day of the previous one |
| Ephemeris.MonthEnd | logic/src/main/java/com/dqrapps/planetarium/logic/service/SunCalculator.java:89-110 | the first day of each shifted month follows the last day of the month before it |
| Ephemeris.LeapDay | logic/src/main/java/com/dqrapps/planetarium/logic/service/SunCalculator.java:96-103 | 1 March follows the last day of February, which has 29 days exactly in Gregorian leap years |
| Ephemeris.JulianDateNextDay | logic/src/main/java/com/dqrapps/planetarium/logic/service/SunCalculator.java:89-110 | the same time on the next valid day is one Julian day later |
| Ephemeris.TimeOfDay | logic/src/main/java/com/dqrapps/planetarium/logic/service/SunCalculator.java:105-107 | the time of day adds hours, minutes and seconds as a fraction of a day |
| Ephemeris.LocalSiderealTime | logic/src/main/java/com/dqrapps/planetarium/logic/service/SunCalculator.java:115-131 | for longitudes within plus or minus 180 degrees the sidereal time lies in [0, 24) hours |
| Ephemeris.RaHours | logic/src/main/java/com/dqrapps/planetarium/logic/service/SunCalculator.java:50-51 | the right ascension in hours lies in [0, 24) |
| Ephemeris.RaHoursTurns | logic/src/main/java/com/dqrapps/planetarium/logic/service/SunCalculator.java:50-51 | the right ascension differs from the angle in hours by whole days |
| Ephemeris.HourAngle | logic/src/main/java/com/dqrapps/planetarium/logic/service/SunCalculator.java:58-60 | for times within a day the hour angle lies in [0, 24) hours and the second correction never applies |
| Ephemeris.AzimuthDegrees | logic/src/main/java/com/dqrapps/planetarium/logic/service/SunCalculator.java:80-81 | an angle in [-pi, pi] gives an azimuth in [0, 360) degrees |
| Ephemeris.ToHorizontal | logic/src/main/java/com/dqrapps/planetarium/logic/service/SunCalculator.java:58-81 | the altitude lies in [-90, 90] degrees and the azimuth in [0, 360) |
| Ephemeris.AsinDegrees | logic/src/main/java/com/dqrapps/planetarium/logic/service/SunCalculator.java:68-79 | an arcsine argument in [-1, 1] gives an angle in [-90, 90] degrees |
| SunCalc.MeanLongitude | logic/src/main/java/com/dqrapps/planetarium/logic/service/SunCalculator.java:32-33 | the mean longitude lies in [0, 360) degrees |
| SunCalc.SunPositionAt | logic/src/main/java/com/dqrapps/planetarium/logic/service/SunCalculator.java:24-84 | the Sun's right ascension lies in [0, 24) hours, its declination and altitude in [-90, 90] and its azimuth in [0, 360); it is visible exactly when its altitude is positive |
| SunCalc.SunriseStepOpposite | logic/src/main/java/com/dqrapps/planetarium/logic/service/SunCalculator.java:166-172 | sunrise and sunset steps move the guess in opposite directions |
| SunCalc.SunEvent | logic/src/main/java/com/dqrapps/planetarium/logic/service/SunCalculator.java:152-176 | the returned time is a guess of the ten-step iteration at which the Sun is within 0.1 degree of the horizon; no time means none of the ten guesses was |
| MoonCalc.Illumination | logic/src/main/java/com/dqrapps/planetarium/logic/service/MoonCalculator.java:80-81 | the illuminated fraction lies in [0, 1] and is 1 at phase angle 0 |
| MoonCalc.PhaseDegrees | logic/src/main/java/com/dqrapps/planetarium/logic/service/MoonCalculator.java:136-141 | the phase angle lies in [0, 360) degrees |
| MoonCalc.MoonPhaseName | logic/src/main/java/com/dqrapps/planetarium/logic/service/MoonCalculator.java:135-160 | the phase name is one of the eight names |
| MoonCalc.NewAndFullMoon | logic/src/main/java/com/dqrapps/planetarium/logic/service/MoonCalculator.java:143-152 | the name is New Moon exactly below 5% illumination and Full Moon exactly from 95% |
| MoonCalc.PhaseNameConditions | logic/src/main/java/com/dqrapps/planetarium/logic/service/MoonCalculator.java:145-156 | each crescent, quarter and gibbous name is returned only within its range of phase angle and illumination |
| MoonCalc.MoonPositionAt | logic/src/main/java/com/dqrapps/planetarium/logic/service/MoonCalculator.java:23-116 | the Moon's coordinates are in range, its illumination is in [0, 1], its phase name is one of the eight, and it is visible exactly when its altitude is positive |
| MoonCalc.SunEclipticLongitude | logic/src/main/java/com/dqrapps/planetarium/logic/service/MoonCalculator.java:118-129 | the Moon calculator's copy of the Sun's longitude equals the Sun calculator's when the mean-longitude dividend is non-negative, and is otherwise one full turn less, because Java's % keeps the dividend's sign |
| MoonCalc.Declination | logic/src/main/java/com/dqrapps/planetarium/logic/service/MoonCalculator.java:68-71 | the Moon's declination lies in [-90, 90] degrees, its arcsine argument lying in [-1, 1] |
| Positions.NewSunPosition | logic/src/main/java/com/dqrapps/planetarium/logic/model/SunPosition.java:23-29 | the Sun is visible exactly when its altitude is positive |
| Positions.SunOnHorizonHidden | logic/src/main/java/com/dqrapps/planetarium/logic/model/SunPosition.java:28 | a Sun exactly on the horizon is not visible |
| Positions.SunDisplayStatus | logic/src/main/java/com/dqrapps/planetarium/logic/model/SunPosition.java:34-40 | a visible Sun shows its altitude; a hidden one shows how far below the horizon it is |
| Positions.SunStatusShowsVisibility | logic/src/main/java/com/dqrapps/planetarium/logic/model/SunPosition.java:34-40 | the status starts with the visible prefix exactly when the Sun is visible |
| Positions.NewMoonPosition | logic/src/main/java/com/dqrapps/planetarium/logic/model/MoonPosition.java:25-34 | the Moon is visible exactly when its altitude is positive |
| Positions.PhaseEmoji | logic/src/main/java/com/dqrapps/planetarium/logic/model/MoonPosition.java:39-48 | each illumination range gets its glyph |
| Positions.NoWaningCrescentGlyph | logic/src/main/java/com/dqrapps/planetarium/logic/model/MoonPosition.java:46-47 | the last glyph range is unreachable, so no phase gets the waning-crescent glyph |
| Positions.PhaseEmojiMonotone | logic/src/main/java/com/dqrapps/planetarium/logic/model/MoonPosition.java:39-48 | a later phase never gets an earlier glyph |
| Positions.IlluminationPercent | logic/src/main/java/com/dqrapps/planetarium/logic/model/MoonPosition.java:67-69 | the percentage is the nearest whole number, and lies in [0, 100] for an illumination in [0, 1] |
| Positions.Round | logic/src/main/java/com/dqrapps/planetarium/logic/model/MoonPosition.java:67-69 | the nearest integer, halves rounded up |
| Positions.MoonDisplayStatus | logic/src/main/java/com/dqrapps/planetarium/logic/model/MoonPosition.java:53-62 | the status shows the glyph, the phase name and the percentage, and marks a Moon below the horizon |
| Positions.BelowHorizonSuffix | logic/src/main/java/com/dqrapps/planetarium/logic/model/MoonPosition.java:53-62 | the status ends with the below-horizon suffix exactly when the Moon is hidden |
| Planets.ColourOf | logic/src/main/java/com/dqrapps/planetarium/logic/model/Planet.java:33-50 | a colour other than the default exactly for the major planets |
| Planets.DisplayColour | logic/src/main/java/com/dqrapps/planetarium/logic/model/Planet.java:32-51 | a colour other than the default exactly when the lower-cased name is a major planet |
| Planets.MajorColoursDistinct | logic/src/main/java/com/dqrapps/planetarium/logic/model/Planet.java:34-47 | no two major planets share a colour |
| Planets.ColourIgnoresCase | logic/src/main/java/com/dqrapps/planetarium/logic/model/Planet.java:33 | names that differ only in case get the same colour |
| Planets.DisplaySize | logic/src/main/java/com/dqrapps/planetarium/logic/model/Planet.java:56-59 | at least 4 pixels; 4 for magnitude 4 or fainter, otherwise 10 minus 1.5 times the magnitude |
| Planets.DisplaySizeMonotone | logic/src/main/java/com/dqrapps/planetarium/logic/model/Planet.java:56-59 | a brighter planet never gets a smaller dot |
| DeepSky.DisplayName | logic/src/main/java/com/dqrapps/planetarium/logic/model/DeepSkyObject.java:35-40 | the catalogue identifier alone, or followed by the separator and the common name when a non-empty one is present |
| DeepSky.DisplayNameParts | logic/src/main/java/com/dqrapps/planetarium/logic/model/DeepSkyObject.java:35-40 | the display name begins with the identifier and, when shown, ends with the common name |
| DeepSky.TypeColour | logic/src/main/java/com/dqrapps/planetarium/logic/model/DeepSkyObject.java:55-68 | each colour is returned exactly for its object types, and the default for any other type |
| DeepSky.DisplayColour | logic/src/main/java/com/dqrapps/planetarium/logic/model/DeepSkyObject.java:52-69 | the colour of the lower-cased type, and the default without a type |
| DeepSky.ColourIgnoresCase | logic/src/main/java/com/dqrapps/planetarium/logic/model/DeepSkyObject.java:55 | types that differ only in case get the same colour |
| PlanetServices.EpochNoonIsJ2000 | logic/src/main/java/com/dqrapps/planetarium/logic/service/PlanetService.java:62-66 | noon of 1 January 2000 is Julian date 2451545, zero centuries, and agrees with the Sun calculator's Julian date |
| PlanetServices.EpochDayStep | logic/src/main/java/com/dqrapps/planetarium/logic/service/PlanetService.java:62-66 | each further day adds one Julian day |
| PlanetServices.JulianDateFromEpoch | logic/src/main/java/com/dqrapps/planetarium/logic/service/PlanetService.java:62-66 | within a day, the Julian date lies in the day that starts 2440587.5 days after the epoch day |
| PlanetServices.EpochAgreesWithCalendar | logic/src/main/java/com/dqrapps/planetarium/logic/service/PlanetService.java:62-66 | on 1 January 1970 the epoch-day Julian date equals the Sun calculator's calendar Julian date at every time of day |
| PlanetServices.NormalizeAngle | logic/src/main/java/com/dqrapps/planetarium/logic/service/PlanetService.java:488-494 | the result lies in [0, 360), and an angle already there is unchanged |
| PlanetServices.NormalizeIdempotent | logic/src/main/java/com/dqrapps/planetarium/logic/service/PlanetService.java:488-494 | normalising a normalised angle changes nothing |
| PlanetServices.PhaseDescription | logic/src/main/java/com/dqrapps/planetarium/logic/service/PlanetService.java:499-515 | each description is returned on its range of illuminated fraction |
| PlanetServices.PhaseDescriptionMonotone | logic/src/main/java/com/dqrapps/planetarium/logic/service/PlanetService.java:499-515 | a larger illuminated fraction never gets a description of a thinner phase |
| PlanetServices.Phase | logic/src/main/java/com/dqrapps/planetarium/logic/service/PlanetService.java:472 | the illuminated fraction lies in [0, 1] |
| PlanetServices.PlanetPosition | logic/src/main/java/com/dqrapps/planetarium/logic/service/PlanetService.java:425-483 | the corrected position: the right ascension lies in [0, 24) hours, the declination, the arcsine of the equatorial height over the distance, in [-90, 90] degrees, the distance is non-negative and the phase in [0, 1] with its description |
| PlanetServices.PlanetPositionAsWritten | logic/src/main/java/com/dqrapps/planetarium/logic/service/PlanetService.java:456-461 | as written: the declination is the arcsine of the equatorial height itself, not divided by the distance; right ascension, distance and phase are as in the corrected member |
| PlanetServices.AsWrittenArgumentLeavesDomain | logic/src/main/java/com/dqrapps/planetarium/logic/service/PlanetService.java:456-461 | for every distance d greater than 1 some position at distance d gives the as-written arcsine the argument d, outside [-1, 1] |
| PlanetServices.EquatorialZWithinDistance | logic/src/main/java/com/dqrapps/planetarium/logic/service/PlanetService.java:449-461 | the equatorial height never exceeds the distance in size, so the corrected arcsine argument lies in [-1, 1] |
| PlanetServices.CorrectionAtUnitDistance | logic/src/main/java/com/dqrapps/planetarium/logic/service/PlanetService.java:456-461 | at distance exactly 1 the corrected and the as-written positions agree |
| PlanetServices.Body.Magnitude | logic/src/main/java/com/dqrapps/planetarium/logic/service/PlanetService.java:517-560 | Neptune's magnitude is 7.84 at every distance, its distance coefficient being 0 |
| PlanetServices.MagnitudeGrowsWithDistance | logic/src/main/java/com/dqrapps/planetarium/logic/service/PlanetService.java:517-560 | at a fixed phase a body farther away is never brighter |
| PlanetServices.OrbitAt | logic/src/main/java/com/dqrapps/planetarium/logic/service/PlanetService.java:73 | the mean longitude at the date is normalised into [0, 360) degrees |
| PlanetServices.BuildPlanet | logic/src/main/java/com/dqrapps/planetarium/logic/service/PlanetService.java:83-101 | the planet keeps its name, kind and position, and records its elements only where the source does |
| PlanetServices.OuterBodiesFull | logic/src/main/java/com/dqrapps/planetarium/logic/service/PlanetService.java:218-227 | the bodies beyond Saturn and the asteroids are always described as full |
| PlanetServices.CalculateBody | logic/src/main/java/com/dqrapps/planetarium/logic/service/PlanetService.java:71-102 | each body's planet carries its name and kind, coordinates in range (with the corrected declination of the Findings row), one of the five phase descriptions and a normalised mean longitude |
| PlanetServices.PlanetPositions | logic/src/main/java/com/dqrapps/planetarium/logic/service/PlanetService.java:32-57 | one planet per body in the source's order, all computed at the same date, with the corrected declination |
| PlanetServices.PlanetNamesInOrder | logic/src/main/java/com/dqrapps/planetarium/logic/service/PlanetService.java:32-57 | the list holds the eight planets followed by Pluto, Ceres, Pallas and Juno |
| PlanetServices.PositionsHaveValidCoordinates | logic/src/main/java/com/dqrapps/planetarium/logic/model/Planet.java:64-66 | with the corrected declination, every computed planet passes the valid-coordinates check |
| Astro.FromHMSToDegrees | logic/src/main/java/com/dqrapps/planetarium/logic/service/AstroService.java:162-164 | the minutes and seconds are always subtracted from the hours, whatever the sign of the hours |
| Astro.FromHMSExample | logic/src/test/java/com/dqrapps/planetarium/logic/service/AstroServiceTest.java:36-42 | -112 h 2 m 20.6592 s gives -112.039072, as the test expects |
| Astro.SouthernHourOffset | logic/src/main/java/com/dqrapps/planetarium/logic/service/AstroService.java:105-111 | the offset differs from the sidereal time minus the right ascension by a whole day or nothing, and lies in [-12, 12] hours for times within a day |
| Astro.SiderealHours | logic/src/main/java/com/dqrapps/planetarium/logic/service/AstroService.java:131-134 | parses exactly when the text has two parsable parts separated by ':', giving hours plus minutes over 60 |
| Astro.HasRisenBelowHorizon | logic/src/main/java/com/dqrapps/planetarium/logic/service/AstroService.java:166-176 | the test the source names `hasRisen` holds exactly when the sine of the star's altitude is negative, that is when the star is below the horizon |
| Astro.AstroService.constructor | logic/src/main/java/com/dqrapps/planetarium/logic/service/AstroService.java:67-69 | a new service keeps its screen and uses the default southern factor |
| Astro.AstroService.SetSouthernDefaultFactor | logic/src/main/java/com/dqrapps/planetarium/logic/service/AstroService.java:188-190 | only the southern factor changes |
| Astro.AstroService.SetScreen | logic/src/main/java/com/dqrapps/planetarium/logic/service/AstroService.java:199-201 | only the screen changes |
| Astro.AstroService.NorthernCoordinate | logic/src/main/java/com/dqrapps/planetarium/logic/service/AstroService.java:130-160 | fails exactly when the latitude or sidereal time does not parse; southern stars and stars below the horizon are not plotted; a plotted point lies on the screen and keeps the star's magnitude and name |
| Astro.AstroService.SouthernCoordinate | logic/src/main/java/com/dqrapps/planetarium/logic/service/AstroService.java:83-127 | fails exactly when the latitude does not parse; stars above the latitude, more than 90 degrees below it or below the horizon are not plotted; a plotted point lies in range and keeps the star's magnitude and name |
| Astro.AstroService.GetCoordinate | logic/src/main/java/com/dqrapps/planetarium/logic/service/AstroService.java:72-80 | the northern layout for North only; South, Undefined and null take the southern layout |
| Asu.ParseCoordinates | convert_asu_to_json.py:11-39 | three parsable sexagesimal fields give their decimal value, negated when the degrees are negative or the text starts with '-'; anything else gives 0 |
| Asu.NegativeZeroDegrees | convert_asu_to_json.py:25-36 | a coordinate written as '-00 mm ss' stays negative |
| Asu.CleanName | convert_asu_to_json.py:41-49 | empty exactly when blank; otherwise the name's words, upper-cased and in their order, joined by single spaces, so it has no lower-case letters, no leading, trailing or repeated whitespace and only plain spaces |
| Asu.CleanNameIdempotent | convert_asu_to_json.py:41-49 | cleaning a cleaned name changes nothing |
| Asu.ParseMagnitude | convert_asu_to_json.py:51-59 | a blank or unparsable field gives the missing-magnitude value; otherwise its number |
| Asu.ParseSpectralType | convert_asu_to_json.py:61-71 | a prefix of the stripped field, empty exactly when blank; after a main class letter it keeps all the digits that follow and nothing else |
| Asu.Record | convert_asu_to_json.py:119-150 | a line gives no star exactly when both coordinates are 0 or the magnitude is too faint; otherwise the rounded values, the cleaned name or 'FK5' and the number, and the spectral type when one is given |
| Asu.LineRecord | convert_asu_to_json.py:100-117 | a line with fewer than 11 fields gives no star |
| Asu.NothingBeforeSeparator | convert_asu_to_json.py:85-97 | no line before the dashed separator gives a star |
| Asu.ConvertedNamed | convert_asu_to_json.py:145 | every converted star has a non-empty name, and a spectral type only when it is non-empty |
| Asu.ConvertAsuToJson | convert_asu_to_json.py:73-162 | the stars of the lines after the separator, stably sorted by magnitude |
| CatalogRecords.SortByMag | convert_asu_to_json.py:162 | the sorted list is a permutation of its input and is ordered by magnitude |
| CatalogRecords.SortStable | gui/convert_hyg.py:90 | stars of equal magnitude keep their input order |
| CatalogRecords.SortSorted | gui/convert_sao_catalog.py:94 | an already ordered list is left unchanged |
| Sao.ConvertRaToHours | gui/convert_sao_catalog.py:11-13 | fifteen degrees make one hour |
| Sao.HoursWithinDay | gui/convert_sao_catalog.py:11-13 | a right ascension in [0, 360) degrees lies in [0, 24) hours |
| Sao.DetermineSpectralType | gui/convert_sao_catalog.py:15-29 | the first one or two characters of the class when it starts with a main class letter, and none otherwise |
| Sao.CleanName | gui/convert_sao_catalog.py:31-39 | the stripped name, or none when the name is missing or blank |
| Sao.CleanNameIdempotent | gui/convert_sao_catalog.py:31-39 | cleaning a cleaned name changes nothing |
| Sao.FloatField | gui/convert_sao_catalog.py:63-70 | a missing column or unparsable text skips the row; a short row's missing cell raises |
| Sao.RowStar | gui/convert_sao_catalog.py:61-91 | the first failing field decides between skipping the row and raising; a row with all fields gives the rounded star |
| Sao.RaisedSticks | gui/convert_sao_catalog.py:61-91 | once a row raises, the conversion fails whatever follows |
| Sao.Examined | gui/convert_sao_catalog.py:57-59 | the loop looks at the first max_stars rows, skipped rows included; a zero or absent limit looks at all rows |
| Sao.ConvertCatalog | gui/convert_sao_catalog.py:41-119 | the stars of the examined rows sorted by magnitude; failure when one of them raises or when no star is converted, since the statistics take the minimum of an empty list; never more stars than the limit, and none for a negative limit |
| Hyg.Number | gui/convert_hyg_simple.py:55-61 | a number exactly when the cell is present, non-empty and parsable |
| Hyg.StarName | gui/convert_hyg_simple.py:70-79 | the proper name upper-cased, else the Bayer or Flamsteed designation, else HR or HD and the number; none when all are blank |
| Hyg.SpectralType | gui/convert_hyg_simple.py:82 | the stripped type, present exactly when the column holds more than whitespace |
| Hyg.RowStar | gui/convert_hyg_simple.py:53-97 | a star exactly when position and magnitude parse and the magnitude is within the limit, with the rounded values |
| Hyg.Cap | gui/convert_hyg_simple.py:100-101 | the loop keeps at least one star, and at least max_stars stars, before it stops |
| Hyg.StopAtCap | gui/convert_hyg_simple.py:100-101 | stopping at the cap gives the first capped stars of the whole file |
| Hyg.CollectStars | gui/convert_hyg_simple.py:48-104 | the first capped stars in file order |
| Hyg.ConvertHygSimple | gui/convert_hyg_simple.py:39-122 | the capped stars sorted by magnitude, and their count |
| Hyg.ConvertHyg | gui/convert_hyg.py:27-105 | the same with right ascension converted from degrees |
| Hyg.MagnitudeLimit | gui/convert_hyg_simple.py:64-65 | a star with parsable fields is kept exactly when its magnitude is at most the limit |
| Validate.MissingCount | validate_catalog.py:32-37 | no field is missing exactly when the star has every required field |
| Validate.RangeIssues | validate_catalog.py:40-57 | no range issue exactly when every present value is in its range |
| Validate.Issues | validate_catalog.py:32-57 | a star has no issue exactly when it is valid |
| Validate.NoIssuesIffAllValid | validate_catalog.py:87-92 | a catalogue has no issue exactly when all its stars are valid |
| Validate.ValidateStarCatalog | validate_catalog.py:9-92 | false for a missing document or missing objects; otherwise, unless the statistics raise, true exactly when there is no issue |
| Validate.PassedMeansValid | validate_catalog.py:87-92 | a passed catalogue is non-empty and all its stars are valid |

## Left out

- The quadtree is a value. The model does not capture updating nodes in place or aliasing between nodes.
- IEEE-754 behaviour is not modelled: NaN, infinities, negative zero and rounding.
- Transcendental functions are abstract. Only the facts `Maths.Lawful` lists are assumed of them; nothing is assumed of arcsine or arccosine outside [-1, 1], where Java returns NaN.
- PlanetServices.Magnitude: Mercury and Venus at phase 0 take the abstract `log10(0)`, where Java divides by a zero phase and takes the logarithm of infinity.
- Projection.RaDecToScreen requires a non-zero field of view in single-hemisphere mode, the only projection that divides by it, because Java would divide by zero.
- Projection.SingleScreen requires a non-zero field of view, for the same reason.
- Projection.IsInViewport has the same single-hemisphere requirement, since it calls the projection.
- The Lombok-generated setters of SkyProjection other than `setViewMode` are plain record updates and have no members.
- Locale-dependent formatting (`%,d`, `%.1f`, `%.0f`) is not modelled. Grouping uses ',' and numbers are formatted by a parameter.
- Case conversion and whitespace are ASCII only.
- StarServices.StarService.LoadCatalog: reading the JSON file is the parameter `load`.
- StarServices.StarService.LoadCatalog: the fallback to the bright-star catalogue is tried once. Java would recurse without end if that load also failed.
- StarServices.StarService.StarsInRegion requires an index or a document. Without either, Java throws a NullPointerException.
- StarServices.StarService.StarsInRadius has the same requirement, for the same reason.
- StarServices: setting or loading a document with no star list keeps the previous index, as the source does.
- StarServices: `Star.hasValidCoordinates()` is not part of this model. The service takes it as a predicate given to the constructor.
- Astro: the `Coordinate` constructor the service calls is not part of this model. Coordinate is modelled as x, y, magnitude and name.
- Astro: the southern plot's sidereal time comes from the clock. It is a parameter.
- The calendar fields of `LocalDateTime` are inputs.
- SunCalc.SunEvent: the altitude at each guess is a parameter, and minute arithmetic across days is left to the caller.
- The Sun and Moon calculators each have their own copy of the Julian-date and sidereal-time code. The copies are identical (MoonCalculator.java:165-207), so both use Ephemeris.
- The Moon's distance is computed by the source but never used, so the model leaves it out.
- Descriptive planet data (diameter, description, discoverer) is left out.
- Planets: the `Planet` record has the kind and orbital-element fields that PlanetService.java:85-98 sets through the builder. Planet.java:17-22 does not declare them; the model follows the builder calls.
- Planets: a null planet name is not modelled. Java's `getDisplayColor` would throw a NullPointerException.
- DeepSky: a null Messier number is not modelled. Java's `getDisplayName` would print "null". A missing name or type is modelled.
- The singletons, the GUI, ConfigService, SetupService and ConstellationService are left out.
- gui/generate_catalogs.py is left out.
- Python's `float()` and `round()` are abstract parameters.
- CSV, JSON and file I/O, the download helpers and `main()` are left out.
- Hyg.CollectStars: the `processed` counter only feeds printing and is left out.
- Hyg.Cap: with `max_stars` at most 0 the loop still keeps one star, modelled as written.
- Sao.CleanName: the "SAO " branch, despite its comment, returns the same stripped name as the default branch, so the model has one branch.
- Validate.ValidateStarCatalog: the printed statistics and the famous-star check are reduced to the conditions under which they raise.
- Spatial.Nearest requires lawful trigonometry, so that every distance is below the `Double.MAX_VALUE` the loop starts from.
- PlanetServices.PlanetPosition divides the equatorial height by the distance before the arcsine (see Findings), and gives declination 0 for a body at distance 0, where the quotient is undefined.
- Validate.RangeIssues: a JSON `null` or a non-numeric ra, dec or mag makes the comparisons at validate_catalog.py:40-57 raise `TypeError`; the model's values are numbers, so that case is not modelled.
- PlanetServices.CalculateBody uses the corrected declination of the Findings row. As written, a body more than 1 AU away can get a NaN declination.
- PlanetServices.PlanetPositions uses the corrected declination for the same reason.
- PlanetServices.PositionsHaveValidCoordinates holds for the corrected declination only. As written, a NaN declination fails `hasValidCoordinates` (Planet.java:65).

## Findings

| source | as written | input that shows it | evidently intended | confidence | as-written member | corrected member |
|---|---|---|---|---|---|---|
| logic/src/main/java/com/dqrapps/planetarium/logic/service/PlanetService.java:461 | the declination is `asin(ye sin ob + ze cos ob)`, the equatorial height of a vector whose length is the distance in AU | a body more than 1 AU away towards the celestial pole, e.g. Jupiter at about 5 AU: the argument is near 5 and `Math.asin` returns NaN | `asin((ye sin ob + ze cos ob) / distance)`, a declination in [-90, 90] degrees | not executed | PlanetServices.PlanetPositionAsWritten, PlanetServices.AsWrittenArgumentLeavesDomain | PlanetServices.PlanetPosition, PlanetServices.EquatorialZWithinDistance |
