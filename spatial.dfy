/**
 * The geometric vocabulary of the walkability analysis.
 *
 * Geometry itself is never interpreted here: every shapely/geopandas
 * operation the analysis relies on is a field of the record `Geo`, a bundle
 * of function values that stands for the foreign library.  The model only
 * fixes how the analysis combines what those operations return.
 */
module Spatial {
  import opened Results

  /** A planar coordinate pair (metres in a projected reference system). */
  datatype Point = Point(x: real, y: real)

  /** The geometry of one row of a GeoDataFrame. */
  datatype Geom =
    | Missing                    // the row's geometry is None
    | Line(coords: seq<Point>)   // a LineString, with its coordinate list
    | Other(id: nat)             // any other geometry (polygon, point, multi-part, ...)

  /** One member of a MultiPoint or GeometryCollection intersection result. */
  datatype Member =
    | PointMember(at: Point)                // a Point member
    | ShapeMember(representative: Point)    // a non-point member, by its representative point

  /** What `gi.intersection(gj)` produced, as the analysis classifies it. */
  datatype Inter =
    | Raised                                // the call raised, or returned None
    | EmptyInter                            // a result whose `is_empty` holds
    | PointInter(at: Point)                 // geom_type "Point"
    | Collection(members: seq<Member>)      // geom_type "MultiPoint" or "GeometryCollection"
    | OtherInter(representative: Option<Point>)  // anything else; None when representative_point raised

  /** A coordinate reference system tag. */
  datatype Crs = NoCrs | Epsg(code: nat, isGeographic: bool)

  /** The planar system that geographic data is reprojected to. */
  const WebMercator: Crs := Epsg(3857, false)

  /** A GeoDataFrame: its geometry column, its reference system and its column names. */
  datatype Frame = Frame(geoms: seq<Geom>, crs: Crs, columns: seq<string>)

  /** One group of a `groupby`: its key and the geometries of its rows. */
  datatype Group<K> = Group(key: K, members: seq<Geom>)

  /** What an aggregation driver returns: its rows, or the ValueError for a missing field. */
  datatype Report<R> = Rows(rows: seq<R>) | FieldNotFound(field: string, columns: seq<string>)

  /** The foreign geometry library, as function values. */
  datatype Geo = Geo(
    clip: (seq<Geom>, Geom) -> seq<Geom>,       // gpd.clip(gdf, polygon)
    intersects: (Geom, Geom) -> bool,           // GeoSeries.intersects(polygon), per row
    length: Geom -> real,                       // .length of a present geometry
    area: Geom -> real,                         // .area of a polygon
    envelopeArea: seq<Geom> -> Result<real>,    // unary_union(...).envelope.area, which may raise
    intersection: (Geom, Geom) -> Inter,        // gi.intersection(gj), classified
    distinctCount: seq<Point> -> nat,           // unary_union of the points, then counted
    union: seq<Geom> -> Result<Geom>,           // unary_union of a group, which may raise
    hullBuffer: (Geom, real) -> Result<Geom>,   // g.convex_hull.buffer(radius), which may raise
    project: Geom -> Geom                       // to_crs(epsg=3857), per geometry
  )

  /** Lengths reported by the library are never negative. */
  ghost predicate LengthsNonNegative(geo: Geo)
  {
    forall g :: geo.length(g) >= 0.0
  }
}
