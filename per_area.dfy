/**
 * `compute_per_area`: cadastre parcels grouped by an area field (an SA4 code, say);
 * every group's parcels are merged into one area, the roads and parcels are clipped
 * to it and scored with the walkability library.
 */
module PerArea {
  import opened Results
  import opened Spatial
  import opened Walkability
  import opened Projection

  /** One output row: a scored area, or the text of the exception its scoring raised. */
  datatype AreaRow<K> =
    | Scored(key: K, score: real, nParcels: nat, roadKmPerKm2: real)
    | Failed(key: K, error: string)

  /** `gpd.clip(f, area)`: unlike the library's mask, applied whatever the frame's CRS. */
  function Clipped(geo: Geo, f: Frame, area: Geom): (r: Frame)
    ensures r.geoms == geo.clip(f.geoms, area)
    ensures r.crs == f.crs && r.columns == f.columns
  {
    f.(geoms := geo.clip(f.geoms, area))
  }

  /** The row for one area group (the body of the `try`). */
  function AreaRowFor<K>(geo: Geo, g: Group<K>, roads: Frame, cad: Frame): (r: AreaRow<K>)
    ensures r.key == g.key
    ensures r.Failed? <==>
      geo.union(g.members).Err?
      || (var area := geo.union(g.members).value;
          WalkabilityScore(geo, Clipped(geo, roads, area), Clipped(geo, cad, area), Some(area), None).Err?)
    ensures r.Failed? ==>
      r.error == if geo.union(g.members).Err? then geo.union(g.members).error
                 else var area := geo.union(g.members).value;
                      WalkabilityScore(geo, Clipped(geo, roads, area), Clipped(geo, cad, area), Some(area), None).error
    ensures r.Scored? ==>
      var area := geo.union(g.members).value;
      && 0.0 <= r.score <= 100.0
      && r.nParcels == |geo.clip(cad.geoms, area)|
      && (|geo.clip(roads.geoms, area)| == 0 ==> r.roadKmPerKm2 == 0.0)
      && r.roadKmPerKm2 == ReportedRoadDensity(geo, Clipped(geo, roads, area))
      && r.score == WalkabilityScore(geo, Clipped(geo, roads, area), Clipped(geo, cad, area), Some(area), None).value
  {
    match geo.union(g.members)
    case Err(e) => Failed(g.key, e)
    case Ok(area) =>
      var cadClip := Clipped(geo, cad, area);
      var roadsClip := Clipped(geo, roads, area);
      match WalkabilityScore(geo, roadsClip, cadClip, Some(area), None)
      case Err(e) => Failed(g.key, e)
      case Ok(score) =>
        Scored(g.key, score, |cadClip.geoms|, ReportedRoadDensity(geo, roadsClip))
  }

  /**
   * `compute_per_area` over frames that are already loaded.  The grouping of the
   * projected cadastre by `field` is supplied by `groupBy`.
   */
  method ComputePerArea<K>(geo: Geo, roads: Frame, cad: Frame,
                           groupBy: (Frame, string) -> seq<Group<K>>, field: string)
    returns (r: Report<AreaRow<K>>)
    ensures r.FieldNotFound? <==> field !in cad.columns
    ensures r.FieldNotFound? ==> r.field == field && r.columns == cad.columns
    ensures r.Rows? ==>
      var cadP := EnsureProjected(geo, Some(cad)).value;
      var roadsP := EnsureProjected(geo, Some(roads)).value;
      var groups := groupBy(cadP, field);
      |r.rows| == |groups|
      && forall k :: 0 <= k < |groups| ==> r.rows[k] == AreaRowFor(geo, groups[k], roadsP, cadP)
  {
    var cadP := EnsureProjected(geo, Some(cad)).value;
    var roadsP := EnsureProjected(geo, Some(roads)).value;
    if field !in cadP.columns {
      return FieldNotFound(field, cadP.columns);
    }
    var groups := groupBy(cadP, field);
    var rows: seq<AreaRow<K>> := [];
    var k := 0;
    while k != |groups|
      invariant k <= |groups|
      invariant |rows| == k
      invariant forall m :: 0 <= m < k ==> rows[m] == AreaRowFor(geo, groups[m], roadsP, cadP)
    {
      rows := rows + [AreaRowFor(geo, groups[k], roadsP, cadP)];
      k := k + 1;
    }
    r := Rows(rows);
  }
}
