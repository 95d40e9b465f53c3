/**
 * `ensure_projected`, shared by both per-group scripts: a frame in a geographic
 * CRS is reprojected to Web Mercator (EPSG:3857) so that lengths and areas come
 * out in metres; every other frame is passed through untouched.
 */
module Projection {
  import opened Results
  import opened Spatial

  /** Reprojects one row; a None geometry stays None. */
  function ProjectGeom(geo: Geo, g: Geom): Geom
  {
    if g.Missing? then Missing else geo.project(g)
  }

  /** `to_crs` applied row by row, in order. */
  function ProjectAll(geo: Geo, gs: seq<Geom>): (r: seq<Geom>)
    ensures |r| == |gs|
    ensures forall k :: 0 <= k < |gs| ==> r[k] == ProjectGeom(geo, gs[k])
  {
    if gs == [] then [] else ProjectAll(geo, gs[..|gs| - 1]) + [ProjectGeom(geo, gs[|gs| - 1])]
  }

  /** Whether a frame's CRS is geographic (degrees rather than metres). */
  predicate IsGeographic(f: Frame)
  {
    f.crs.Epsg? && f.crs.isGeographic
  }

  /** `ensure_projected`: absent, empty and CRS-less frames and projected frames are kept. */
  function EnsureProjected(geo: Geo, f: Option<Frame>): (r: Option<Frame>)
    ensures r.Some? <==> f.Some?
    ensures f.Some? ==> r.value.columns == f.value.columns && |r.value.geoms| == |f.value.geoms|
    ensures f.Some? && !(IsGeographic(f.value) && |f.value.geoms| > 0) ==> r == f
    ensures f.Some? && IsGeographic(f.value) && |f.value.geoms| > 0 ==>
      r.value.crs == WebMercator
      && forall k :: 0 <= k < |f.value.geoms| ==> r.value.geoms[k] == ProjectGeom(geo, f.value.geoms[k])
  {
    match f
    case None => None
    case Some(frame) =>
      if |frame.geoms| == 0 || frame.crs.NoCrs? then f
      else if frame.crs.isGeographic then Some(Frame(ProjectAll(geo, frame.geoms), WebMercator, frame.columns))
      else f
  }

  /** A frame that went through `ensure_projected` is never left in a geographic CRS, unless it is empty. */
  lemma ProjectedIsNotGeographic(geo: Geo, f: Frame)
    ensures var r := EnsureProjected(geo, Some(f)).value;
      IsGeographic(r) ==> |r.geoms| == 0
  {
  }

  /** Projecting twice is projecting once. */
  lemma EnsureProjectedIdempotent(geo: Geo, f: Option<Frame>)
    ensures EnsureProjected(geo, EnsureProjected(geo, f)) == EnsureProjected(geo, f)
  {
  }
}
