/**
 * `compute_per_locality`: G-NAF address points grouped by a locality field; every
 * locality with enough points gets a convex hull buffered by a distance, and the
 * roads and parcels meeting that area are scored with the walkability library.
 */
module PerLocality {
  import opened Results
  import opened Spatial
  import opened Walkability
  import opened Projection

  /** One output row: a scored locality, or the text of the exception its scoring raised. */
  datatype LocalityRow<K> =
    | Scored(key: K, nPoints: nat, score: real, nParcels: nat, roadKmPerKm2: real)
    | Failed(key: K, error: string)

  /** Whether one row survives `f[f.intersects(area)]`; a None geometry meets nothing. */
  predicate Meets(geo: Geo, g: Geom, area: Geom)
  {
    !g.Missing? && geo.intersects(g, area)
  }

  /** The rows of `gs` meeting the area, in order, each as often as it occurs. */
  function Meeting(geo: Geo, gs: seq<Geom>, area: Geom): (r: seq<Geom>)
    ensures |r| <= |gs|
    ensures forall g :: g in r <==> g in gs && Meets(geo, g, area)
  {
    if gs == [] then []
    else
      var g := gs[|gs| - 1];
      assert gs == gs[..|gs| - 1] + [g];
      Meeting(geo, gs[..|gs| - 1], area) + (if Meets(geo, g, area) then [g] else [])
  }

  /** Every row meeting the area is kept as often as it occurs, and no other row is kept. */
  lemma {:induction false} MeetingCounts(geo: Geo, gs: seq<Geom>, area: Geom)
    ensures forall g :: multiset(Meeting(geo, gs, area))[g] == if Meets(geo, g, area) then multiset(gs)[g] else 0
  {
    if gs != [] {
      var init, last := gs[..|gs| - 1], gs[|gs| - 1];
      MeetingCounts(geo, init, area);
      assert gs == init + [last];
    }
  }

  /** Filtering keeps row order: the rows kept from `a + b` are those kept from `a`, then those kept from `b`. */
  lemma {:induction false} MeetingAppend(geo: Geo, a: seq<Geom>, b: seq<Geom>, area: Geom)
    ensures Meeting(geo, a + b, area) == Meeting(geo, a, area) + Meeting(geo, b, area)
  {
    if b == [] {
      assert a + b == a;
    } else {
      var init, last := b[..|b| - 1], b[|b| - 1];
      var tail := if Meets(geo, last, area) then [last] else [];
      assert b == init + [last];
      assert a + b == (a + init) + [last];
      calc {
        Meeting(geo, a + b, area);
        { MeetingSnoc(geo, a + init, last, area); }
        Meeting(geo, a + init, area) + tail;
        { MeetingAppend(geo, a, init, area); }
        (Meeting(geo, a, area) + Meeting(geo, init, area)) + tail;
        Meeting(geo, a, area) + (Meeting(geo, init, area) + tail);
        { MeetingSnoc(geo, init, last, area); }
        Meeting(geo, a, area) + Meeting(geo, b, area);
      }
    }
  }

  /** Appending one row appends it to the kept rows exactly when it meets the area. */
  lemma MeetingSnoc(geo: Geo, gs: seq<Geom>, g: Geom, area: Geom)
    ensures Meeting(geo, gs + [g], area) == Meeting(geo, gs, area) + (if Meets(geo, g, area) then [g] else [])
  {
    assert (gs + [g])[..|gs|] == gs;
  }


  /** `f[f.intersects(area)]`: the frame restricted to the rows meeting the area. */
  function Near(geo: Geo, f: Frame, area: Geom): Frame
  {
    f.(geoms := Meeting(geo, f.geoms, area))
  }

  /** The locality's area: the convex hull of the union of its points, buffered by `bufferM`. */
  function LocalityArea(geo: Geo, points: seq<Geom>, bufferM: real): (r: Result<Geom>)
    ensures geo.union(points).Err? ==> r == Err(geo.union(points).error)
    ensures geo.union(points).Ok? ==> r == geo.hullBuffer(geo.union(points).value, bufferM)
  {
    match geo.union(points)
    case Err(e) => Err(e)
    case Ok(u) => geo.hullBuffer(u, bufferM)
  }

  /** The row for one locality that has enough points (the body of the `try`). */
  function LocalityRowFor<K>(geo: Geo, g: Group<K>, roads: Frame, cad: Frame, bufferM: real): (r: LocalityRow<K>)
    ensures r.key == g.key
    ensures r.Failed? <==>
      LocalityArea(geo, g.members, bufferM).Err?
      || (var area := LocalityArea(geo, g.members, bufferM).value;
          WalkabilityScore(geo, Near(geo, roads, area), Near(geo, cad, area), Some(area), None).Err?)
    ensures r.Failed? ==>
      r.error == if LocalityArea(geo, g.members, bufferM).Err? then LocalityArea(geo, g.members, bufferM).error
                 else var area := LocalityArea(geo, g.members, bufferM).value;
                      WalkabilityScore(geo, Near(geo, roads, area), Near(geo, cad, area), Some(area), None).error
    ensures r.Scored? ==>
      var area := LocalityArea(geo, g.members, bufferM).value;
      && r.nPoints == |g.members|
      && 0.0 <= r.score <= 100.0
      && r.nParcels == |Near(geo, cad, area).geoms|
      && (|Near(geo, roads, area).geoms| == 0 ==> r.roadKmPerKm2 == 0.0)
      && r.roadKmPerKm2 == ReportedRoadDensity(geo, Near(geo, roads, area))
      && r.score == WalkabilityScore(geo, Near(geo, roads, area), Near(geo, cad, area), Some(area), None).value
  {
    match LocalityArea(geo, g.members, bufferM)
    case Err(e) => Failed(g.key, e)
    case Ok(area) =>
      var cadClip := Near(geo, cad, area);
      var roadsClip := Near(geo, roads, area);
      match WalkabilityScore(geo, roadsClip, cadClip, Some(area), None)
      case Err(e) => Failed(g.key, e)
      case Ok(score) =>
        Scored(g.key, |g.members|, score, |cadClip.geoms|, ReportedRoadDensity(geo, roadsClip))
  }

  /** Whether a locality is large enough to be scored. */
  predicate Kept<K>(g: Group<K>, minPoints: int)
  {
    |g.members| >= minPoints
  }

  /** The localities that are scored, in group order. */
  function LargeGroups<K>(groups: seq<Group<K>>, minPoints: int): seq<Group<K>>
  {
    if groups == [] then []
    else
      var last := groups[|groups| - 1];
      LargeGroups(groups[..|groups| - 1], minPoints) + (if Kept(last, minPoints) then [last] else [])
  }

  /** The rows the loop produces over `groups`, one per kept locality. */
  function LocalityRows<K>(geo: Geo, groups: seq<Group<K>>, roads: Frame, cad: Frame, bufferM: real,
                           minPoints: int): seq<LocalityRow<K>>
  {
    if groups == [] then []
    else
      var last := groups[|groups| - 1];
      LocalityRows(geo, groups[..|groups| - 1], roads, cad, bufferM, minPoints)
        + (if Kept(last, minPoints) then [LocalityRowFor(geo, last, roads, cad, bufferM)] else [])
  }

  /** Exactly the groups with at least `minPoints` members are kept, and nothing else. */
  lemma {:induction false} LargeGroupsMembers<K>(groups: seq<Group<K>>, minPoints: int, g: Group<K>)
    ensures g in LargeGroups(groups, minPoints) <==> g in groups && Kept(g, minPoints)
  {
    if groups != [] {
      var init := groups[..|groups| - 1];
      LargeGroupsMembers(init, minPoints, g);
      assert groups == init + [groups[|groups| - 1]];
    }
  }

  /** The loop emits one row per kept locality, in order, each the row for that locality. */
  lemma {:induction false} RowsFollowLargeGroups<K>(geo: Geo, groups: seq<Group<K>>, roads: Frame, cad: Frame,
                                                    bufferM: real, minPoints: int)
    ensures var rows := LocalityRows(geo, groups, roads, cad, bufferM, minPoints);
      var kept := LargeGroups(groups, minPoints);
      |rows| == |kept|
      && forall k :: 0 <= k < |rows| ==> rows[k] == LocalityRowFor(geo, kept[k], roads, cad, bufferM)
  {
    if groups != [] {
      RowsFollowLargeGroups(geo, groups[..|groups| - 1], roads, cad, bufferM, minPoints);
    }
  }

  /** Every scored row belongs to a locality with at least `minPoints` points. */
  lemma ScoredRowsAreLarge<K>(geo: Geo, groups: seq<Group<K>>, roads: Frame, cad: Frame, bufferM: real,
                              minPoints: int)
    ensures forall row :: row in LocalityRows(geo, groups, roads, cad, bufferM, minPoints) && row.Scored? ==>
      row.nPoints >= minPoints
  {
    var rows := LocalityRows(geo, groups, roads, cad, bufferM, minPoints);
    var kept := LargeGroups(groups, minPoints);
    RowsFollowLargeGroups(geo, groups, roads, cad, bufferM, minPoints);
    forall row | row in rows && row.Scored?
      ensures row.nPoints >= minPoints
    {
      var k :| 0 <= k < |rows| && rows[k] == row;
      LargeGroupsMembers(groups, minPoints, kept[k]);
    }
  }

  /** One step of the loop: group `k` adds its row when it is kept and nothing otherwise. */
  lemma NextGroup<K>(geo: Geo, groups: seq<Group<K>>, k: nat, roads: Frame, cad: Frame, bufferM: real,
                     minPoints: int)
    requires k < |groups|
    ensures LocalityRows(geo, groups[..k + 1], roads, cad, bufferM, minPoints)
            == LocalityRows(geo, groups[..k], roads, cad, bufferM, minPoints)
               + (if Kept(groups[k], minPoints) then [LocalityRowFor(geo, groups[k], roads, cad, bufferM)] else [])
  {
    assert groups[..k + 1][..k] == groups[..k];
  }

  /**
   * `compute_per_locality` over frames that are already loaded.  The grouping of the
   * projected points by `field` is supplied by `groupBy`.
   */
  method ComputePerLocality<K>(geo: Geo, gnaf: Frame, roads: Frame, cad: Frame,
                               groupBy: (Frame, string) -> seq<Group<K>>, field: string,
                               bufferM: real, minPoints: int)
    returns (r: Report<LocalityRow<K>>)
    ensures r.FieldNotFound? <==> field !in gnaf.columns
    ensures r.FieldNotFound? ==> r.field == field && r.columns == gnaf.columns
    ensures r.Rows? ==>
      var points := EnsureProjected(geo, Some(gnaf)).value;
      r.rows == LocalityRows(geo, groupBy(points, field), EnsureProjected(geo, Some(roads)).value,
                             EnsureProjected(geo, Some(cad)).value, bufferM, minPoints)
  {
    var points := EnsureProjected(geo, Some(gnaf)).value;
    var roadsP := EnsureProjected(geo, Some(roads)).value;
    var cadP := EnsureProjected(geo, Some(cad)).value;
    if field !in points.columns {
      return FieldNotFound(field, points.columns);
    }
    var groups := groupBy(points, field);
    var rows: seq<LocalityRow<K>> := [];
    var k := 0;
    while k != |groups|
      invariant k <= |groups|
      invariant rows == LocalityRows(geo, groups[..k], roadsP, cadP, bufferM, minPoints)
    {
      NextGroup(geo, groups, k, roadsP, cadP, bufferM, minPoints);
      var g := groups[k];
      if |g.members| >= minPoints {
        rows := rows + [LocalityRowFor(geo, g, roadsP, cadP, bufferM)];
      }
      k := k + 1;
    }
    assert groups[..|groups|] == groups;
    r := Rows(rows);
  }
}
