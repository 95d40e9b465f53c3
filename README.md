# Walkability scoring — a Dafny model

This project models the scoring core of a small walkability analysis. The core computes three densities for a road network and a cadastre:
- road length per km², where the area is floored at 1e-9 km²;
- intersections per km², estimated from LineString endpoints and the pairwise intersections of road segments;
- parcels per km².

It combines them into a 0–100 score: each density is divided by a saturation scale (5, 100, 500) and capped at 1, the results are weighted (0.4 / 0.4 / 0.2 by default), and the sum is scaled to a percentage and clamped.

Two drivers apply the score per group:
- **Per locality:** address points are grouped by locality. Each locality's area is the convex hull of its points plus a buffer. Localities with too few points are skipped.
- **Per area:** parcels are grouped by an area field, and each group's area is the union of its parcels.

In both drivers, a group whose scoring raises gets an error row instead of a score, and the loop goes on. Both drivers first reproject geographic frames to Web Mercator (EPSG:3857).

Geometry is not interpreted. Every shapely/geopandas operation is a field of the record `Spatial.Geo`, a bundle of function values:
- clip, intersects, length, area, envelope area and pairwise intersection;
- distinct-point count, union, convex hull plus buffer, and reprojection.

Operations that can raise return `Result`, and the error is carried as its message text. Floats are modelled as `real`.

Files:
- `results.dfy`: `Option`, `Result`.
- `spatial.dfy`: points, geometries, intersection results, CRS, frames, groups, and the `Geo` oracle.
- `candidates.dfy`: the specification of the intersection candidate list. This covers:
  - endpoints;
  - the enumeration of pairs `i < j`;
  - what each intersection result contributes;
  - lemmas about all of the above.
- `walkability.dfy`: the area mask, the three densities, the score, and lemmas about the score.
- `projection.dfy`: `ensure_projected`, which both scripts define identically, so it is modelled once.
- `per_locality.dfy`, `per_area.dfy`: the two group loops.

`compute_intersection_density` builds its list with loops, and it is modelled as the method `Walkability.IntersectionDensity`. That method calls `Walkability.CollectCandidates`, which runs the source's endpoint loop (`Walkability.SeedEndpoints`) and then its nested pair loops (`Walkability.AddPairPoints`). `Walkability.IntersectionDensity` is proved equal to the function `Walkability.IntersectionDensityOf`, which the score uses. The two group loops are methods proved against specification functions of the group sequence.

## Model

| member | source | states |
|---|---|---|
| Walkability.AreaMask | src/walkability.py:39-47 | frame is unchanged without an area or without a CRS; otherwise its rows are the clip of the rows to the area; CRS and columns are always kept |
| Walkability.AreaKm2 | src/walkability.py:76 | the area in km² is at least the 1e-9 floor and at least area/1e6, and equals one of the two |
| Walkability.PerKm2 | src/walkability.py:76-78 | density times the floored area gives back the quantity (so it is defined for zero area), and it is non-negative for a non-negative quantity |
| Walkability.TotalLength | src/walkability.py:64 | summed road length is non-negative whenever the library's lengths are |
| Walkability.RoadLengthDensity | src/walkability.py:50-78 | 0.0 for an empty frame; non-negative when the library's lengths are; otherwise density × floored area = total km over the masked rows, with the area of interest or else the envelope area, falling back to 1.0 when the envelope raises |
| Walkability.IntersectionDensityOf | src/walkability.py:81-155 | 0.0 for an empty frame and for an empty candidate list; non-negative; fails exactly when a masked LineString has no coordinates or, with candidates and no area of interest, when the envelope raises, with the IndexError text or the envelope's message; otherwise, with candidates, density × floored area = the distinct-count of the candidate list, the area being the area of interest or else the envelope area |
| Walkability.CollectCandidates | src/walkability.py:91-128 | the loops fail with "list index out of range" exactly when some LineString has no coordinates, and otherwise return exactly `CandidateList`: endpoints in row order, then every pair's points |
| Walkability.SeedEndpoints | src/walkability.py:93-99 | the endpoint loop fails with "list index out of range" exactly when some LineString has no coordinates, and otherwise returns exactly `Endpoints`: first and last coordinate of every LineString, in row order |
| Walkability.AddPairPoints | src/walkability.py:102-128 | the nested loops append, after the seeds they start from, exactly the points of the pairs of every round of the outer loop, in visiting order |
| Walkability.IntersectionDensity | src/walkability.py:81-155 | the imperative density returns exactly what `IntersectionDensityOf` specifies, error cases included |
| Walkability.ParcelDensity | src/walkability.py:158-170 | 0.0 for an empty frame; non-negative; fails exactly when the frame is non-empty and the envelope raises (so never with an area of interest), with the envelope's message; otherwise density × floored area = number of masked parcels, the area being the area of interest or else the envelope area |
| Walkability.ResolveWeights | src/walkability.py:189-204 | no dict gives 0.4 / 0.4 / 0.2; a dict succeeds iff it has all three keys, and then yields their values; a missing key fails with the KeyError text of the first key looked up that is missing |
| Walkability.Normalized | src/walkability.py:196-198 | a normalised density is at most 1, equals 1 exactly when the density reaches its scale, and is non-negative for a non-negative density |
| Walkability.Clamp100 | src/walkability.py:205 | result lies in [0, 100] and is the input itself when the input already does |
| Walkability.ReportedRoadDensity | scripts/per_locality_scores.py:73 | the road density both drivers report (also scripts/per_area_scores.py:56) is 0.0 when no road is kept; otherwise it is taken over the kept roads' own envelope, not the group's area: density × floored envelope area (1.0 when the envelope raises) = total km of the kept roads; non-negative when the library's lengths are |
| Walkability.ScoreOf | src/walkability.py:196-205 | the score lies in [0, 100] for any densities and any weights |
| Walkability.WalkabilityScore | src/walkability.py:173-205 | succeeds iff the intersection density, the parcel density and the weights all do; a failure carries the message of the first of these that fails, in that order; the value is `ScoreOf` of the three densities and the weights in effect, hence in [0, 100] |
| Walkability.NormalizedSaturates | src/walkability.py:194-198 | any two densities at or above the scale normalise to the same value, 1 |
| Walkability.NormalizedMonotone | src/walkability.py:196-198 | a larger density never normalises lower |
| Walkability.WeightedSumMonotone | src/walkability.py:200-204 | with non-negative weights, raising any of the three normalised scores never lowers the weighted sum |
| Walkability.WeightedSumBounds | src/walkability.py:200-204 | normalised scores in [0, 1] under non-negative weights totalling at most 1 give a weighted sum in [0, 1] |
| Walkability.ScoreMonotone | src/walkability.py:196-205 | with non-negative weights the score never decreases when any of the three densities grows |
| Walkability.SaturatedScore | src/walkability.py:194-205 | with every density saturated, the score is the clamped sum of the weights as a percentage |
| Walkability.DefaultSaturatedScore | src/walkability.py:190-205 | with the default weights and every density saturated, the score is exactly 100 |
| Walkability.ScoreUnclamped | src/walkability.py:200-205 | with non-negative weights summing to at most 1 and non-negative densities, the clamp is inactive: score = 100 × weighted sum |
| Candidates.EndpointsCount | src/walkability.py:93-99 | with no coordinate-less LineString, the seeded list has exactly two points per LineString; None and other geometries add none |
| Candidates.EndpointsOfRow | src/walkability.py:96-99 | the two points seeded for a LineString are its first and last coordinates, at positions given by the LineStrings before it |
| Candidates.PairsVisitedOnce | src/walkability.py:102-106 | the nested loops over n rows visit pair (a, b) exactly once when a < b < n and never otherwise |
| Candidates.PairsCount | src/walkability.py:102-106 | the nested loops visit n(n-1)/2 pairs |
| Candidates.MemberPoints | src/walkability.py:117-121 | a collection member contributes its own point if it is a Point and its representative point otherwise, one per member, in order |
| Candidates.Contribution | src/walkability.py:107-128 | a raised/None or empty result adds nothing, a Point adds itself, a MultiPoint/GeometryCollection adds one point per member, anything else adds its representative point unless computing it raised |
| Candidates.RowPointsArePairPoints | src/walkability.py:105-128 | the inner loop for row i adds the contributions of pairs (i, i+1) … (i, j-1), in order |
| Candidates.PointsBelowArePairPoints | src/walkability.py:103-128 | the first i rounds of the outer loop add the contributions of the pairs they visit, in visiting order |
| Candidates.CandidatesFollowPairs | src/walkability.py:91-128 | the candidate list is the endpoints followed by the contributions of every pair i < j in visiting order |
| Candidates.CandidateListSize | src/walkability.py:91-128 | the candidate list has 2 points per LineString plus, per visited pair, 0, 1 or one per member as classified |
| Candidates.EmptyCandidatesHaveNoLines | src/walkability.py:130-131 | an empty candidate list (the early 0.0 return) means the masked frame holds no LineString |
| Projection.ProjectAll | scripts/per_locality_scores.py:39 | reprojection keeps the number and order of rows and maps each row on its own; None stays None |
| Projection.EnsureProjected | scripts/per_locality_scores.py:33-40 | None stays None; an empty, CRS-less or projected frame is returned unchanged; a non-empty geographic frame is reprojected row by row to EPSG:3857; columns and row count are always kept |
| Projection.ProjectedIsNotGeographic | scripts/per_area_scores.py:22-29 | after the call a frame is in a geographic CRS only if it is empty |
| Projection.EnsureProjectedIdempotent | scripts/per_area_scores.py:22-29 | applying the projection twice is the same as applying it once |
| PerLocality.Meeting | scripts/per_locality_scores.py:65-66 | the kept rows are exactly the present rows that meet the area, never more than the input |
| PerLocality.MeetingCounts | scripts/per_locality_scores.py:65-66 | each row that meets the area is kept as many times as it occurs, and every other row zero times, so the kept count is the number of meeting rows |
| PerLocality.MeetingAppend | scripts/per_locality_scores.py:65-66 | filtering keeps row order: filtering a concatenation is concatenating the filtered parts |
| PerLocality.LocalityArea | scripts/per_locality_scores.py:62-63 | the area is the hull-and-buffer of the union of the points; a union failure is passed on with its message |
| PerLocality.LocalityRowFor | scripts/per_locality_scores.py:61-76 | the row carries the group key; it is an error row exactly when the area or the score fails, and then carries the message of the area's failure or else the score's; a scored row has n_points = group size, n_parcels = kept parcels, a score in [0, 100] equal to the score of the kept roads and parcels over the area, and road density = `ReportedRoadDensity` of the kept roads (0.0 when no road is kept) |
| PerLocality.LargeGroupsMembers | scripts/per_locality_scores.py:58-60 | a group is scored iff it is one of the groups and has at least min_points members |
| PerLocality.RowsFollowLargeGroups | scripts/per_locality_scores.py:57-76 | the loop emits exactly one row per kept group, in group order, and row k is the row for kept group k |
| PerLocality.ScoredRowsAreLarge | scripts/per_locality_scores.py:58-70 | every scored row has at least min_points points |
| PerLocality.ComputePerLocality | scripts/per_locality_scores.py:43-78 | a field not among the G-NAF columns yields the ValueError, with no row processed; otherwise the rows are exactly `LocalityRows` over the groups of the projected points, against the projected roads and cadastre |
| PerArea.Clipped | scripts/per_area_scores.py:49-50 | the clipped frame's rows are the clip of its rows to the area, whatever its CRS; CRS and columns are kept |
| PerArea.AreaRowFor | scripts/per_area_scores.py:46-59 | the row carries the group key; it is an error row exactly when the union or the score fails, and then carries the message of the union's failure or else the score's; a scored row's score is in [0, 100] and is the score of the clipped frames, n_parcels is the clipped cadastre size, and road density = `ReportedRoadDensity` of the clipped roads (0.0 when no road survives the clip) |
| PerArea.ComputePerArea | scripts/per_area_scores.py:32-62 | a field not among the cadastre columns yields the ValueError, with no row processed; otherwise there is exactly one row per group, in group order, row k being the row for group k (failed or scored) |

## Left out

- Geometry: clip, intersects, length, area, envelope, intersection, representative point, union, the deduplicating union of candidate points, convex hull and buffer. Each is an uninterpreted field of `Spatial.Geo`, and nothing is claimed about how many candidate points survive deduplication.
- Exceptions from the library calls that the model treats as total: clip, intersects, length, area, the point union and its count (src/walkability.py:133-145), and the `representative_point()` of a non-point member of a MultiPoint/GeometryCollection intersection (src/walkability.py:121, outside any `try`). A group whose scoring fails in one of these calls is not modelled as an error row. Reprojection (`to_crs`, the field `Geo.project`, scripts/per_locality_scores.py:39 and scripts/per_area_scores.py:28) is also treated as total, although it can raise before any group is processed.
- Walkability.IntersectionDensityOf: the counting branches of the deduplicated union (MultiPoint / Point / other, src/walkability.py:136-145) are folded into the single count `distinctCount`.
- Walkability.RoadLengthDensity: the dead `total_bounds` assignment (src/walkability.py:67) is omitted. Any failure of the envelope computation is modelled as the 1.0 fallback.
- IEEE floating point (rounding, NaN, infinities): all arithmetic is on `real`. A None geometry's NaN length is modelled as contributing 0, which is what pandas' `sum` does with it.
- `to_crs` mathematics: reprojection is the per-geometry function `project`.
- Loading and output: `load_gpkg`, the parquet/WKB decoding in `points_from_parquet`, argparse, output directories, CSV writing, the top-10 printout, and scripts/run_analysis.py.
- The pandas `groupby`: groups are supplied by a `groupBy` function in whatever order it returns them. Keys are opaque, and NaN keys are not modelled.
- PerLocality.ComputePerLocality: the ValueError is modelled as `FieldNotFound(field, columns)` rather than as its formatted message text. The same holds for PerArea.ComputePerArea.
- The weights argument is modelled as a map from strings to reals. Non-numeric values are not modelled, and extra keys are ignored, as in the source.
- Per-call saturation scales are not modelled: the code (src/walkability.py:173, 194) accepts weights only and fixes the scales at 5, 100 and 500.
