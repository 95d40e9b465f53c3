/**
 * The scoring library: area masking, the three densities and the combined
 * 0-100 walkability score.  Float arithmetic is modelled with `real`.
 */
module Walkability {
  import opened Results
  import opened Spatial
  import opened Candidates

  const MetresPerKm: real := 1000.0
  const SquareMetresPerKm2: real := 1000000.0
  /** The floor on an area in km^2 that keeps every density defined. */
  const MinAreaKm2: real := 0.000000001

  /** Saturation scales: a density at or above its scale earns the full weight. */
  const RoadScale: real := 5.0
  const IntersectionScale: real := 100.0
  const ParcelScale: real := 500.0

  /** The text of the IndexError raised by `pts[0]` on a LineString without coordinates. */
  const IndexErrorText: string := "list index out of range"

  /** Clip a frame to the area of interest; skipped without an area or without a CRS. */
  function AreaMask(geo: Geo, f: Frame, aoi: Option<Geom>): (r: Frame)
    ensures aoi.None? || f.crs.NoCrs? ==> r == f
    ensures aoi.Some? && f.crs.Epsg? ==> r.geoms == geo.clip(f.geoms, aoi.value)
    ensures r.crs == f.crs && r.columns == f.columns
  {
    if aoi.None? || f.crs.NoCrs? then f else f.(geoms := geo.clip(f.geoms, aoi.value))
  }

  /** An area in m^2 as km^2, floored at MinAreaKm2. */
  function AreaKm2(areaM2: real): (r: real)
    ensures r >= MinAreaKm2 && r >= areaM2 / SquareMetresPerKm2
    ensures r == MinAreaKm2 || r == areaM2 / SquareMetresPerKm2
  {
    if areaM2 / SquareMetresPerKm2 >= MinAreaKm2 then areaM2 / SquareMetresPerKm2 else MinAreaKm2
  }

  /** A quantity per km^2 of an area given in m^2; defined for every area, zero included. */
  function PerKm2(quantity: real, areaM2: real): (r: real)
    ensures r * AreaKm2(areaM2) == quantity
    ensures quantity >= 0.0 ==> r >= 0.0
  {
    quantity / AreaKm2(areaM2)
  }

  /** The length pandas sums for one row: a None geometry counts as nothing. */
  function RowLength(geo: Geo, g: Geom): real
  {
    if g.Missing? then 0.0 else geo.length(g)
  }

  /** `gdf.geometry.length.sum()`, in metres. */
  function TotalLength(geo: Geo, gs: seq<Geom>): (r: real)
    ensures LengthsNonNegative(geo) ==> r >= 0.0
  {
    if gs == [] then 0.0 else TotalLength(geo, gs[..|gs| - 1]) + RowLength(geo, gs[|gs| - 1])
  }

  /** The area a density is taken over when the envelope fallback may not raise:
      the area of interest, or the envelope of the rows, or 1.0 when that raised. */
  function RoadAreaM2(geo: Geo, gs: seq<Geom>, aoi: Option<Geom>): real
  {
    if aoi.Some? then geo.area(aoi.value)
    else match geo.envelopeArea(gs)
      case Ok(a) => a
      case Err(_) => 1.0
  }

  /** `compute_road_length_density`: km of road per km^2. */
  function RoadLengthDensity(geo: Geo, roads: Frame, aoi: Option<Geom>): (r: real)
    ensures |roads.geoms| == 0 ==> r == 0.0
    ensures LengthsNonNegative(geo) ==> r >= 0.0
    ensures |roads.geoms| > 0 ==>
      var gs := AreaMask(geo, roads, aoi).geoms;
      r * AreaKm2(RoadAreaM2(geo, gs, aoi)) == TotalLength(geo, gs) / MetresPerKm
  {
    if |roads.geoms| == 0 then 0.0
    else
      var gs := AreaMask(geo, roads, aoi).geoms;
      PerKm2(TotalLength(geo, gs) / MetresPerKm, RoadAreaM2(geo, gs, aoi))
  }

  /**
   * The road density both drivers report beside the score: over the kept roads' own
   * envelope, or 0.0 when no road is kept.
   */
  function ReportedRoadDensity(geo: Geo, roads: Frame): (r: real)
    ensures |roads.geoms| == 0 ==> r == 0.0
    ensures LengthsNonNegative(geo) ==> r >= 0.0
    ensures |roads.geoms| > 0 ==>
      r * AreaKm2(RoadAreaM2(geo, roads.geoms, None)) == TotalLength(geo, roads.geoms) / MetresPerKm
  {
    if |roads.geoms| > 0 then RoadLengthDensity(geo, roads, None) else 0.0
  }

  /** The area a density is taken over when the envelope computation may raise. */
  function AreaM2(geo: Geo, gs: seq<Geom>, aoi: Option<Geom>): Result<real>
  {
    if aoi.Some? then Ok(geo.area(aoi.value)) else geo.envelopeArea(gs)
  }

  /** `compute_intersection_density`: distinct candidate points per km^2. */
  function IntersectionDensityOf(geo: Geo, roads: Frame, aoi: Option<Geom>): (r: Result<real>)
    ensures |roads.geoms| == 0 ==> r == Ok(0.0)
    ensures r.Ok? ==> r.value >= 0.0
    ensures
      (|roads.geoms| > 0 &&
       var gs := AreaMask(geo, roads, aoi).geoms;
       !HasEmptyLine(gs) && CandidateList(geo.intersection, gs) == []) ==> r == Ok(0.0)
    ensures r.Err? <==>
      (|roads.geoms| > 0 &&
       var gs := AreaMask(geo, roads, aoi).geoms;
       HasEmptyLine(gs) || (CandidateList(geo.intersection, gs) != [] && AreaM2(geo, gs, aoi).Err?))
    ensures r.Err? ==>
      var gs := AreaMask(geo, roads, aoi).geoms;
      r.error == if HasEmptyLine(gs) then IndexErrorText else AreaM2(geo, gs, aoi).error
    ensures
      (|roads.geoms| > 0 &&
       var gs := AreaMask(geo, roads, aoi).geoms;
       !HasEmptyLine(gs) && CandidateList(geo.intersection, gs) != [] && AreaM2(geo, gs, aoi).Ok?) ==>
      var gs := AreaMask(geo, roads, aoi).geoms;
      r.Ok? && r.value * AreaKm2(AreaM2(geo, gs, aoi).value)
               == geo.distinctCount(CandidateList(geo.intersection, gs)) as real
  {
    if |roads.geoms| == 0 then Ok(0.0)
    else
      var gs := AreaMask(geo, roads, aoi).geoms;
      if HasEmptyLine(gs) then Err(IndexErrorText)
      else
        var points := CandidateList(geo.intersection, gs);
        if points == [] then Ok(0.0)
        else
          var count := geo.distinctCount(points);
          match AreaM2(geo, gs, aoi)
          case Err(e) => Err(e)
          case Ok(a) => Ok(PerKm2(count as real, a))
  }

  /**
   * The candidate list as the source builds it: both endpoints of every LineString
   * (an empty one raises), then the points of every pairwise intersection, pair `i < j`
   * visited once in row order.
   */
  method CollectCandidates(intersect: (Geom, Geom) -> Inter, gs: seq<Geom>) returns (r: Result<seq<Point>>)
    ensures r.Err? <==> HasEmptyLine(gs)
    ensures r.Err? ==> r.error == IndexErrorText
    ensures r.Ok? ==> r.value == CandidateList(intersect, gs)
  {
    var seeded := SeedEndpoints(gs);
    if seeded.Err? {
      return seeded;
    }
    var points := AddPairPoints(intersect, gs, seeded.value);
    r := Ok(points);
  }

  /** The first loop: both endpoints of every LineString, in row order. */
  method SeedEndpoints(gs: seq<Geom>) returns (r: Result<seq<Point>>)
    ensures r.Err? <==> HasEmptyLine(gs)
    ensures r.Err? ==> r.error == IndexErrorText
    ensures r.Ok? ==> r.value == Endpoints(gs)
  {
    var points: seq<Point> := [];
    var k := 0;
    while k != |gs|
      invariant k <= |gs|
      invariant !HasEmptyLine(gs[..k])
      invariant points == Endpoints(gs[..k])
    {
      var g := gs[k];
      if g.Line? && |g.coords| == 0 {
        return Err(IndexErrorText);
      }
      SeedRow(gs, k, points);
      if g.Line? {
        points := points + [g.coords[0], g.coords[|g.coords| - 1]];
      }
      k := k + 1;
    }
    assert gs[..|gs|] == gs;
    r := Ok(points);
  }

  /** The nested loops: the points of every pair `i < j`, appended in visiting order. */
  method AddPairPoints(intersect: (Geom, Geom) -> Inter, gs: seq<Geom>, seed: seq<Point>) returns (points: seq<Point>)
    ensures points == seed + PointsBelow(intersect, gs, |gs|)
  {
    points := seed;
    var i := 0;
    while i != |gs|
      invariant i <= |gs|
      invariant points == seed + PointsBelow(intersect, gs, i)
    {
      ghost var before := points;
      StartRow(intersect, gs, before, i);
      var j := i + 1;
      while j != |gs|
        invariant i < j <= |gs|
        invariant points == before + RowPoints(intersect, gs, i, j)
      {
        VisitPair(intersect, gs, before, points, i, j);
        points := points + Contribution(PairInter(intersect, gs[i], gs[j]));
        j := j + 1;
      }
      FinishRow(intersect, gs, seed, points, i);
      i := i + 1;
    }
  }

  /** `compute_intersection_density` with the source's control flow. */
  method IntersectionDensity(geo: Geo, roads: Frame, aoi: Option<Geom>) returns (r: Result<real>)
    ensures r == IntersectionDensityOf(geo, roads, aoi)
  {
    if |roads.geoms| == 0 {
      return Ok(0.0);
    }
    var gs := AreaMask(geo, roads, aoi).geoms;
    var collected := CollectCandidates(geo.intersection, gs);
    if collected.Err? {
      return Err(collected.error);
    }
    var points := collected.value;
    if |points| == 0 {
      return Ok(0.0);
    }
    var count := geo.distinctCount(points);
    var areaM2: real;
    if aoi.None? {
      var envelope := geo.envelopeArea(gs);
      if envelope.Err? {
        return Err(envelope.error);
      }
      areaM2 := envelope.value;
    } else {
      areaM2 := geo.area(aoi.value);
    }
    r := Ok(PerKm2(count as real, areaM2));
  }

  /** `compute_parcel_density`: parcels per km^2. */
  function ParcelDensity(geo: Geo, cadastre: Frame, aoi: Option<Geom>): (r: Result<real>)
    ensures |cadastre.geoms| == 0 ==> r == Ok(0.0)
    ensures r.Ok? ==> r.value >= 0.0
    ensures r.Err? ==> aoi.None?
    ensures r.Err? <==>
      |cadastre.geoms| > 0 && AreaM2(geo, AreaMask(geo, cadastre, aoi).geoms, aoi).Err?
    ensures r.Err? ==> r.error == AreaM2(geo, AreaMask(geo, cadastre, aoi).geoms, aoi).error
    ensures
      (|cadastre.geoms| > 0 && AreaM2(geo, AreaMask(geo, cadastre, aoi).geoms, aoi).Ok?) ==>
      var gs := AreaMask(geo, cadastre, aoi).geoms;
      r.Ok? && r.value * AreaKm2(AreaM2(geo, gs, aoi).value) == |gs| as real
  {
    if |cadastre.geoms| == 0 then Ok(0.0)
    else
      var gs := AreaMask(geo, cadastre, aoi).geoms;
      match AreaM2(geo, gs, aoi)
      case Err(e) => Err(e)
      case Ok(a) => Ok(PerKm2(|gs| as real, a))
  }

  /** The weights of the three normalised densities. */
  datatype Weights = Weights(road: real, intersection: real, parcel: real)

  /** The weights used when none are supplied. */
  const DefaultWeights: Weights := Weights(0.4, 0.4, 0.2)

  /** The dictionary keys the score reads, in the order it reads them. */
  const RoadKey: string := "road"
  const IntersectionKey: string := "intersection"
  const ParcelKey: string := "parcel"

  /** The text of the KeyError for a missing key. */
  function KeyErrorText(key: string): string
  {
    "'" + key + "'"
  }

  /** The weights in effect: the defaults, or the three entries of the supplied dictionary. */
  function ResolveWeights(weights: Option<map<string, real>>): (r: Result<Weights>)
    ensures weights.None? ==> r == Ok(DefaultWeights)
    ensures weights.Some? ==>
      (r.Ok? <==> RoadKey in weights.value && IntersectionKey in weights.value && ParcelKey in weights.value)
    ensures weights.Some? && r.Ok? ==>
      r.value == Weights(weights.value[RoadKey], weights.value[IntersectionKey], weights.value[ParcelKey])
    ensures weights.Some? && RoadKey !in weights.value ==> r == Err(KeyErrorText(RoadKey))
    ensures weights.Some? && RoadKey in weights.value && IntersectionKey !in weights.value ==>
      r == Err(KeyErrorText(IntersectionKey))
    ensures (weights.Some? && RoadKey in weights.value && IntersectionKey in weights.value
             && ParcelKey !in weights.value) ==> r == Err(KeyErrorText(ParcelKey))
  {
    match weights
    case None => Ok(DefaultWeights)
    case Some(m) =>
      if RoadKey !in m then Err(KeyErrorText(RoadKey))
      else if IntersectionKey !in m then Err(KeyErrorText(IntersectionKey))
      else if ParcelKey !in m then Err(KeyErrorText(ParcelKey))
      else Ok(Weights(m[RoadKey], m[IntersectionKey], m[ParcelKey]))
  }

  /** A density divided by its saturation scale, capped at 1. */
  function Normalized(density: real, scale: real): (r: real)
    requires scale > 0.0
    ensures r <= 1.0
    ensures r == 1.0 <==> density >= scale
    ensures density >= 0.0 ==> r >= 0.0
  {
    if density / scale <= 1.0 then density / scale else 1.0
  }

  /** `max(0.0, min(x, 100.0))`. */
  function Clamp100(x: real): (r: real)
    ensures 0.0 <= r <= 100.0
    ensures 0.0 <= x <= 100.0 ==> r == x
  {
    if x <= 100.0 then (if 0.0 >= x then 0.0 else x) else 100.0
  }

  /** The weighted sum of the three normalised scores, before scaling. */
  function WeightedSum(roadScore: real, intScore: real, parcScore: real, w: Weights): real
  {
    w.road * roadScore + w.intersection * intScore + w.parcel * parcScore
  }

  /** The weighted sum of the normalised scores of three densities. */
  function DensitySum(rd: real, idens: real, pdens: real, w: Weights): real
  {
    WeightedSum(Normalized(rd, RoadScale), Normalized(idens, IntersectionScale), Normalized(pdens, ParcelScale), w)
  }

  /** The score for three densities: the weighted sum scaled to 0-100 and clamped. */
  function ScoreOf(rd: real, idens: real, pdens: real, w: Weights): (r: real)
    ensures 0.0 <= r <= 100.0
  {
    Clamp100(DensitySum(rd, idens, pdens, w) * 100.0)
  }

  /** `compute_walkability_score`: the three densities over the same area, combined. */
  function WalkabilityScore(geo: Geo, roads: Frame, cadastre: Frame, aoi: Option<Geom>,
                            weights: Option<map<string, real>>): (r: Result<real>)
    ensures r.Ok? ==> 0.0 <= r.value <= 100.0
    ensures r.Ok? <==> IntersectionDensityOf(geo, roads, aoi).Ok?
                       && ParcelDensity(geo, cadastre, aoi).Ok?
                       && ResolveWeights(weights).Ok?
    ensures r.Err? ==>
      r.error == if IntersectionDensityOf(geo, roads, aoi).Err? then IntersectionDensityOf(geo, roads, aoi).error
                 else if ParcelDensity(geo, cadastre, aoi).Err? then ParcelDensity(geo, cadastre, aoi).error
                 else ResolveWeights(weights).error
    ensures r.Ok? ==> r.value == ScoreOf(RoadLengthDensity(geo, roads, aoi),
                                         IntersectionDensityOf(geo, roads, aoi).value,
                                         ParcelDensity(geo, cadastre, aoi).value,
                                         ResolveWeights(weights).value)
  {
    var rd := RoadLengthDensity(geo, roads, aoi);
    match IntersectionDensityOf(geo, roads, aoi)
    case Err(e) => Err(e)
    case Ok(idens) =>
      match ParcelDensity(geo, cadastre, aoi)
      case Err(e) => Err(e)
      case Ok(pdens) =>
        match ResolveWeights(weights)
        case Err(e) => Err(e)
        case Ok(w) => Ok(ScoreOf(rd, idens, pdens, w))
  }

  /** A density at or above its scale earns the full weight, however far above it is. */
  lemma NormalizedSaturates(density: real, other: real, scale: real)
    requires scale > 0.0 && density >= scale && other >= scale
    ensures Normalized(density, scale) == Normalized(other, scale) == 1.0
  {
  }

  /** A larger density never normalises lower. */
  lemma NormalizedMonotone(d: real, e: real, scale: real)
    requires scale > 0.0 && d <= e
    ensures Normalized(d, scale) <= Normalized(e, scale)
  {
    assert d / scale <= e / scale by {
      assert e / scale - d / scale == (e - d) / scale;
    }
  }

  lemma ScaleMonotone(w: real, a: real, b: real)
    requires w >= 0.0 && a <= b
    ensures w * a <= w * b
  {
    assert w * b - w * a == w * (b - a);
  }

  lemma SumMonotone(p: real, q: real, r: real, p': real, q': real, r': real)
    requires p <= p' && q <= q' && r <= r'
    ensures p + q + r <= p' + q' + r'
  {
  }

  /** A non-negative weight times a share in [0, 1] lies between 0 and the weight. */
  lemma WeightedShare(w: real, a: real) returns (share: real)
    requires w >= 0.0 && 0.0 <= a <= 1.0
    ensures share == w * a
    ensures 0.0 <= share <= w
  {
    share := w * a;
    assert w * 1.0 - w * a == w * (1.0 - a);
  }

  /** Three shares each between 0 and its weight, with weights totalling at most 1, total between 0 and 1. */
  lemma ShareSumBounds(p: real, q: real, r: real, wp: real, wq: real, wr: real)
    requires 0.0 <= p <= wp && 0.0 <= q <= wq && 0.0 <= r <= wr
    requires wp + wq + wr <= 1.0
    ensures 0.0 <= p + q + r <= 1.0
  {
  }

  lemma Clamp100Monotone(x: real, y: real)
    requires x <= y
    ensures Clamp100(x) <= Clamp100(y)
  {
  }

  /**
   * With non-negative weights the score is monotone in each density: more road, more
   * intersections or more parcels never lower it.
   */
  lemma ScoreMonotone(rd: real, idens: real, pdens: real, rd': real, idens': real, pdens': real, w: Weights)
    requires w.road >= 0.0 && w.intersection >= 0.0 && w.parcel >= 0.0
    requires rd <= rd' && idens <= idens' && pdens <= pdens'
    ensures ScoreOf(rd, idens, pdens, w) <= ScoreOf(rd', idens', pdens', w)
  {
    NormalizedMonotone(rd, rd', RoadScale);
    NormalizedMonotone(idens, idens', IntersectionScale);
    NormalizedMonotone(pdens, pdens', ParcelScale);
    WeightedSumMonotone(Normalized(rd, RoadScale), Normalized(idens, IntersectionScale), Normalized(pdens, ParcelScale),
                        Normalized(rd', RoadScale), Normalized(idens', IntersectionScale), Normalized(pdens', ParcelScale), w);
    Clamp100Monotone(DensitySum(rd, idens, pdens, w) * 100.0, DensitySum(rd', idens', pdens', w) * 100.0);
  }

  /** With non-negative weights, raising any of the three scores never lowers the weighted sum. */
  lemma WeightedSumMonotone(a: real, b: real, c: real, a': real, b': real, c': real, w: Weights)
    requires w.road >= 0.0 && w.intersection >= 0.0 && w.parcel >= 0.0
    requires a <= a' && b <= b' && c <= c'
    ensures WeightedSum(a, b, c, w) <= WeightedSum(a', b', c', w)
  {
    ScaleMonotone(w.road, a, a');
    ScaleMonotone(w.intersection, b, b');
    ScaleMonotone(w.parcel, c, c');
    SumMonotone(w.road * a, w.intersection * b, w.parcel * c, w.road * a', w.intersection * b', w.parcel * c');
  }


  /** When every density is at or above its scale, the score is the weights' total, as a percentage. */
  lemma SaturatedScore(rd: real, idens: real, pdens: real, w: Weights)
    requires rd >= RoadScale && idens >= IntersectionScale && pdens >= ParcelScale
    ensures ScoreOf(rd, idens, pdens, w) == Clamp100((w.road + w.intersection + w.parcel) * 100.0)
  {
    NormalizedSaturates(rd, rd, RoadScale);
    NormalizedSaturates(idens, idens, IntersectionScale);
    NormalizedSaturates(pdens, pdens, ParcelScale);
    assert DensitySum(rd, idens, pdens, w) == w.road + w.intersection + w.parcel;
  }

  /** The default weights add up to 1, so saturating every density under them scores exactly 100. */
  lemma DefaultSaturatedScore(rd: real, idens: real, pdens: real)
    requires rd >= RoadScale && idens >= IntersectionScale && pdens >= ParcelScale
    ensures ScoreOf(rd, idens, pdens, DefaultWeights) == 100.0
  {
    SaturatedScore(rd, idens, pdens, DefaultWeights);
  }

  /**
   * Non-negative weights adding up to at most 1 and non-negative densities never need the
   * clamp: the score is the weighted sum scaled to a percentage.
   */
  lemma ScoreUnclamped(rd: real, idens: real, pdens: real, w: Weights)
    requires w.road >= 0.0 && w.intersection >= 0.0 && w.parcel >= 0.0
    requires w.road + w.intersection + w.parcel <= 1.0
    requires rd >= 0.0 && idens >= 0.0 && pdens >= 0.0
    ensures ScoreOf(rd, idens, pdens, w) == DensitySum(rd, idens, pdens, w) * 100.0
  {
    WeightedSumBounds(Normalized(rd, RoadScale), Normalized(idens, IntersectionScale), Normalized(pdens, ParcelScale), w);
  }

  /** Scores in [0, 1] under non-negative weights totalling at most 1 give a weighted sum in [0, 1]. */
  lemma WeightedSumBounds(a: real, b: real, c: real, w: Weights)
    requires w.road >= 0.0 && w.intersection >= 0.0 && w.parcel >= 0.0
    requires w.road + w.intersection + w.parcel <= 1.0
    requires 0.0 <= a <= 1.0 && 0.0 <= b <= 1.0 && 0.0 <= c <= 1.0
    ensures 0.0 <= WeightedSum(a, b, c, w) <= 1.0
  {
    var p := WeightedShare(w.road, a);
    var q := WeightedShare(w.intersection, b);
    var r := WeightedShare(w.parcel, c);
    ShareSumBounds(p, q, r, w.road, w.intersection, w.parcel);
    assert WeightedSum(a, b, c, w) == p + q + r;
  }


}
