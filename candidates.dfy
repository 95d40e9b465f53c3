/**
 * The candidate intersection points of `compute_intersection_density`:
 * both endpoints of every LineString, then, for every unordered pair of rows
 * `i < j` in row order, the points its intersection contributes.
 *
 * The functions here are the specification that the loops of
 * `Walkability.IntersectionDensity` are proved against.
 */
module Candidates {
  import opened Results
  import opened Spatial

  /** A pair of row indices `i, j`. */
  datatype Pair = Pair(i: nat, j: nat)

  /** The pairs `(i, i+1), (i, i+2), ..., (i, j-1)`: the inner loop over `j` up to `j`. */
  function RowUpTo(i: nat, j: nat): seq<Pair>
  {
    if j <= i + 1 then [] else RowUpTo(i, j - 1) + [Pair(i, j - 1)]
  }

  /** The pairs visited by the first `i` rounds of the outer loop over `n` rows. */
  function PairsBelow(i: nat, n: nat): seq<Pair>
  {
    if i == 0 then [] else PairsBelow(i - 1, n) + RowUpTo(i - 1, n)
  }

  /** Every pair the nested loops over `n` rows visit, in visiting order. */
  function Pairs(n: nat): seq<Pair>
  {
    PairsBelow(n, n)
  }

  /** How many times pair `p` occurs in `ps`. */
  function Occurrences(ps: seq<Pair>, p: Pair): nat
  {
    if ps == [] then 0 else Occurrences(ps[..|ps| - 1], p) + (if ps[|ps| - 1] == p then 1 else 0)
  }

  lemma {:induction false} OccurrencesAppend(xs: seq<Pair>, ys: seq<Pair>, p: Pair)
    ensures Occurrences(xs + ys, p) == Occurrences(xs, p) + Occurrences(ys, p)
    decreases |ys|
  {
    if ys == [] {
      assert xs + ys == xs;
    } else {
      var init := ys[..|ys| - 1];
      assert (xs + ys)[..|xs + ys| - 1] == xs + init;
      OccurrencesAppend(xs, init, p);
    }
  }

  lemma {:induction false} RowOccurrences(i: nat, j: nat, a: nat, b: nat)
    ensures Occurrences(RowUpTo(i, j), Pair(a, b)) == if a == i && i < b < j then 1 else 0
  {
    if j > i + 1 {
      RowOccurrences(i, j - 1, a, b);
      assert RowUpTo(i, j)[..|RowUpTo(i, j)| - 1] == RowUpTo(i, j - 1);
    }
  }

  lemma {:induction false} PairsBelowOccurrences(i: nat, n: nat, a: nat, b: nat)
    ensures Occurrences(PairsBelow(i, n), Pair(a, b)) == if a < i && a < b < n then 1 else 0
  {
    if i > 0 {
      PairsBelowOccurrences(i - 1, n, a, b);
      RowOccurrences(i - 1, n, a, b);
      OccurrencesAppend(PairsBelow(i - 1, n), RowUpTo(i - 1, n), Pair(a, b));
    }
  }

  /** Each unordered pair of distinct rows is visited exactly once, and nothing else is. */
  lemma PairsVisitedOnce(n: nat, a: nat, b: nat)
    ensures Occurrences(Pairs(n), Pair(a, b)) == if a < b < n then 1 else 0
  {
    PairsBelowOccurrences(n, n, a, b);
  }

  lemma {:induction false} RowUpToLength(i: nat, j: nat)
    ensures |RowUpTo(i, j)| == if j > i then j - i - 1 else 0
  {
    if j > i + 1 {
      RowUpToLength(i, j - 1);
    }
  }

  lemma {:induction false} PairsBelowLength(i: nat, n: nat)
    requires i <= n
    ensures 2 * |PairsBelow(i, n)| == i * (2 * n - i - 1)
  {
    if i > 0 {
      PairsBelowLength(i - 1, n);
      RowUpToLength(i - 1, n);
      assert (i - 1) * (2 * n - i) + 2 * (n - i) == i * (2 * n - i - 1);
    }
  }

  /** The nested loops perform n(n-1)/2 intersection tests. */
  lemma PairsCount(n: nat)
    ensures 2 * |Pairs(n)| == n * (n - 1)
  {
    PairsBelowLength(n, n);
  }

  /** The endpoints one row adds: first and last coordinate of a non-empty LineString. */
  function EndpointsOf(g: Geom): seq<Point>
  {
    if g.Line? && |g.coords| > 0 then [g.coords[0], g.coords[|g.coords| - 1]] else []
  }

  /** The endpoint seeds of the candidate list, in row order. */
  function Endpoints(gs: seq<Geom>): seq<Point>
  {
    if gs == [] then [] else Endpoints(gs[..|gs| - 1]) + EndpointsOf(gs[|gs| - 1])
  }

  /** Some row is a LineString with no coordinates, so `pts[0]` raises. */
  predicate HasEmptyLine(gs: seq<Geom>)
  {
    exists k :: 0 <= k < |gs| && gs[k].Line? && |gs[k].coords| == 0
  }

  /** The number of LineString rows. */
  function LineCount(gs: seq<Geom>): nat
  {
    if gs == [] then 0 else LineCount(gs[..|gs| - 1]) + (if gs[|gs| - 1].Line? then 1 else 0)
  }

  /** Exactly two endpoints per LineString; missing and other geometries add none. */
  lemma {:induction false} EndpointsCount(gs: seq<Geom>)
    requires !HasEmptyLine(gs)
    ensures |Endpoints(gs)| == 2 * LineCount(gs)
  {
    if gs != [] {
      NoEmptyLineInPrefix(gs, |gs| - 1);
      EndpointsCount(gs[..|gs| - 1]);
    }
  }

  lemma {:induction false} EndpointsAppend(a: seq<Geom>, b: seq<Geom>)
    ensures Endpoints(a + b) == Endpoints(a) + Endpoints(b)
    decreases |b|
  {
    if b == [] {
      assert a + b == a;
    } else {
      var init := b[..|b| - 1];
      assert (a + b)[..|a + b| - 1] == a + init;
      EndpointsAppend(a, init);
    }
  }

  lemma NoEmptyLineInPrefix(gs: seq<Geom>, k: nat)
    requires !HasEmptyLine(gs) && k <= |gs|
    ensures !HasEmptyLine(gs[..k])
  {
    var prefix := gs[..k];
    forall m | 0 <= m < |prefix| ensures !(prefix[m].Line? && |prefix[m].coords| == 0) {
      assert prefix[m] == gs[m];
    }
  }

  /** One step of the seeding loop: row `k` appends its endpoints, if any. */
  lemma SeedRow(gs: seq<Geom>, k: nat, points: seq<Point>)
    requires k < |gs| && !HasEmptyLine(gs[..k]) && points == Endpoints(gs[..k])
    requires !(gs[k].Line? && |gs[k].coords| == 0)
    ensures !HasEmptyLine(gs[..k + 1])
    ensures gs[k].Line? ==> Endpoints(gs[..k + 1]) == points + [gs[k].coords[0], gs[k].coords[|gs[k].coords| - 1]]
    ensures !gs[k].Line? ==> Endpoints(gs[..k + 1]) == points
  {
    var upto := gs[..k + 1];
    assert upto[..k] == gs[..k];
    forall m | 0 <= m < |upto| ensures !(upto[m].Line? && |upto[m].coords| == 0) {
      if m < k {
        assert upto[m] == gs[..k][m];
      }
    }
  }

  /** The LineString in row `k` puts its first and last coordinate at the positions
      just after the endpoints of the LineStrings before it. */
  lemma EndpointsOfRow(gs: seq<Geom>, k: nat)
    requires !HasEmptyLine(gs) && k < |gs| && gs[k].Line?
    ensures var m := 2 * LineCount(gs[..k]);
            m + 1 < |Endpoints(gs)|
            && Endpoints(gs)[m] == gs[k].coords[0]
            && Endpoints(gs)[m + 1] == gs[k].coords[|gs[k].coords| - 1]
  {
    var g, before, upto := gs[k], gs[..k], gs[..k + 1];
    assert |g.coords| > 0;
    assert upto[..k] == before;
    assert Endpoints(upto) == Endpoints(before) + [g.coords[0], g.coords[|g.coords| - 1]];
    NoEmptyLineInPrefix(gs, k);
    EndpointsCount(before);
    assert gs == upto + gs[k + 1..];
    EndpointsAppend(upto, gs[k + 1..]);
  }

  /** How many points one intersection result adds to the candidate list. */
  function AddedCount(inter: Inter): nat
  {
    match inter
    case Raised => 0
    case EmptyInter => 0
    case PointInter(_) => 1
    case Collection(ms) => |ms|
    case OtherInter(rep) => if rep.Some? then 1 else 0
  }

  /** The point a collection member contributes. */
  function MemberPoint(m: Member): Point
  {
    match m
    case PointMember(p) => p
    case ShapeMember(p) => p
  }

  /** The points of a collection's members, in order. */
  function MemberPoints(ms: seq<Member>): (r: seq<Point>)
    ensures |r| == |ms|
    ensures forall k :: 0 <= k < |r| ==> r[k] == MemberPoint(ms[k])
  {
    if ms == [] then [] else MemberPoints(ms[..|ms| - 1]) + [MemberPoint(ms[|ms| - 1])]
  }

  /** The points one intersection result adds, in order. */
  function Contribution(inter: Inter): (r: seq<Point>)
    ensures |r| == AddedCount(inter)
    ensures inter.PointInter? ==> r == [inter.at]
    ensures inter.Collection? ==> forall k :: 0 <= k < |r| ==> r[k] == MemberPoint(inter.members[k])
    ensures inter.OtherInter? && inter.representative.Some? ==> r == [inter.representative.value]
  {
    match inter
    case Raised => []
    case EmptyInter => []
    case PointInter(p) => [p]
    case Collection(ms) => MemberPoints(ms)
    case OtherInter(rep) => if rep.Some? then [rep.value] else []
  }

  /** `gi.intersection(gj)`; a missing geometry on either side yields nothing. */
  function PairInter(intersect: (Geom, Geom) -> Inter, a: Geom, b: Geom): Inter
  {
    if a.Missing? || b.Missing? then Raised else intersect(a, b)
  }

  /** The points that pair `p` of rows `gs` contributes. */
  function PairPoints(intersect: (Geom, Geom) -> Inter, gs: seq<Geom>, p: Pair): seq<Point>
  {
    if p.i < |gs| && p.j < |gs| then Contribution(PairInter(intersect, gs[p.i], gs[p.j])) else []
  }

  /** The points the pairs `ps` contribute, in the order of `ps`. */
  function PointsOf(intersect: (Geom, Geom) -> Inter, gs: seq<Geom>, ps: seq<Pair>): seq<Point>
  {
    if ps == [] then [] else PointsOf(intersect, gs, ps[..|ps| - 1]) + PairPoints(intersect, gs, ps[|ps| - 1])
  }

  lemma PointsOfSnoc(intersect: (Geom, Geom) -> Inter, gs: seq<Geom>, ps: seq<Pair>, p: Pair)
    ensures PointsOf(intersect, gs, ps + [p]) == PointsOf(intersect, gs, ps) + PairPoints(intersect, gs, p)
  {
    assert (ps + [p])[..|ps|] == ps;
  }

  lemma PairAt(intersect: (Geom, Geom) -> Inter, gs: seq<Geom>, i: nat, j: nat)
    requires i < j < |gs|
    ensures PairPoints(intersect, gs, Pair(i, j)) == Contribution(PairInter(intersect, gs[i], gs[j]))
  {
  }

  lemma AppendAssoc(a: seq<Point>, b: seq<Point>, c: seq<Point>)
    ensures (a + b) + c == a + (b + c)
  {
  }

  /** The points row `i` of the nested loops has added once the inner loop reaches `j`. */
  function RowPoints(intersect: (Geom, Geom) -> Inter, gs: seq<Geom>, i: nat, j: nat): seq<Point>
  {
    if j <= i + 1 then [] else RowPoints(intersect, gs, i, j - 1) + PairPoints(intersect, gs, Pair(i, j - 1))
  }

  /** The points the first `i` rounds of the outer loop have added. */
  function PointsBelow(intersect: (Geom, Geom) -> Inter, gs: seq<Geom>, i: nat): seq<Point>
  {
    if i == 0 then [] else PointsBelow(intersect, gs, i - 1) + RowPoints(intersect, gs, i - 1, |gs|)
  }

  /** Before the inner loop of row `i` runs, the row has added nothing. */
  lemma StartRow(intersect: (Geom, Geom) -> Inter, gs: seq<Geom>, before: seq<Point>, i: nat)
    ensures before == before + RowPoints(intersect, gs, i, i + 1)
  {
    assert RowPoints(intersect, gs, i, i + 1) == [];
  }

  /** One step of the inner loop: visiting pair `(i, j)` appends its contribution. */
  lemma VisitPair(intersect: (Geom, Geom) -> Inter, gs: seq<Geom>, start: seq<Point>, points: seq<Point>, i: nat, j: nat)
    requires i < j < |gs|
    requires points == start + RowPoints(intersect, gs, i, j)
    ensures points + Contribution(PairInter(intersect, gs[i], gs[j])) == start + RowPoints(intersect, gs, i, j + 1)
  {
    PairAt(intersect, gs, i, j);
    AppendAssoc(start, RowPoints(intersect, gs, i, j), PairPoints(intersect, gs, Pair(i, j)));
  }

  /** The end of the inner loop completes one more round of the outer loop. */
  lemma FinishRow(intersect: (Geom, Geom) -> Inter, gs: seq<Geom>, seed: seq<Point>, points: seq<Point>, i: nat)
    requires points == (seed + PointsBelow(intersect, gs, i)) + RowPoints(intersect, gs, i, |gs|)
    ensures points == seed + PointsBelow(intersect, gs, i + 1)
  {
    AppendAssoc(seed, PointsBelow(intersect, gs, i), RowPoints(intersect, gs, i, |gs|));
  }

  lemma {:induction false} PointsOfAppend(intersect: (Geom, Geom) -> Inter, gs: seq<Geom>, ps: seq<Pair>, qs: seq<Pair>)
    ensures PointsOf(intersect, gs, ps + qs) == PointsOf(intersect, gs, ps) + PointsOf(intersect, gs, qs)
    decreases |qs|
  {
    if qs == [] {
      assert ps + qs == ps;
    } else {
      var init := qs[..|qs| - 1];
      var last := qs[|qs| - 1];
      calc {
        PointsOf(intersect, gs, ps + qs);
        { assert ps + qs == (ps + init) + [last]; }
        PointsOf(intersect, gs, (ps + init) + [last]);
        { PointsOfSnoc(intersect, gs, ps + init, last); }
        PointsOf(intersect, gs, ps + init) + PairPoints(intersect, gs, last);
        { PointsOfAppend(intersect, gs, ps, init); }
        (PointsOf(intersect, gs, ps) + PointsOf(intersect, gs, init)) + PairPoints(intersect, gs, last);
        { AppendAssoc(PointsOf(intersect, gs, ps), PointsOf(intersect, gs, init), PairPoints(intersect, gs, last)); }
        PointsOf(intersect, gs, ps) + (PointsOf(intersect, gs, init) + PairPoints(intersect, gs, last));
        { assert qs == init + [last]; PointsOfSnoc(intersect, gs, init, last); }
        PointsOf(intersect, gs, ps) + PointsOf(intersect, gs, qs);
      }
    }
  }

  /** Row `i` of the loops contributes the points of the pairs `(i, i+1) .. (i, j-1)`, in order. */
  lemma {:induction false} RowPointsArePairPoints(intersect: (Geom, Geom) -> Inter, gs: seq<Geom>, i: nat, j: nat)
    ensures RowPoints(intersect, gs, i, j) == PointsOf(intersect, gs, RowUpTo(i, j))
    decreases j
  {
    if j > i + 1 {
      RowPointsArePairPoints(intersect, gs, i, j - 1);
      PointsOfSnoc(intersect, gs, RowUpTo(i, j - 1), Pair(i, j - 1));
    }
  }

  /** The outer loop's rounds contribute the points of the pairs they visit, in order. */
  lemma {:induction false} PointsBelowArePairPoints(intersect: (Geom, Geom) -> Inter, gs: seq<Geom>, i: nat)
    ensures PointsBelow(intersect, gs, i) == PointsOf(intersect, gs, PairsBelow(i, |gs|))
  {
    if i > 0 {
      var n, k := |gs|, i - 1;
      calc {
        PointsBelow(intersect, gs, i);
        PointsBelow(intersect, gs, k) + RowPoints(intersect, gs, k, n);
        { PointsBelowArePairPoints(intersect, gs, k); }
        PointsOf(intersect, gs, PairsBelow(k, n)) + RowPoints(intersect, gs, k, n);
        { RowPointsArePairPoints(intersect, gs, k, n); }
        PointsOf(intersect, gs, PairsBelow(k, n)) + PointsOf(intersect, gs, RowUpTo(k, n));
        { PointsOfAppend(intersect, gs, PairsBelow(k, n), RowUpTo(k, n)); }
        PointsOf(intersect, gs, PairsBelow(k, n) + RowUpTo(k, n));
        PointsOf(intersect, gs, PairsBelow(i, n));
      }
    }
  }

  /** The number of points the pairs `ps` add, pair by pair. */
  function AddedTotal(intersect: (Geom, Geom) -> Inter, gs: seq<Geom>, ps: seq<Pair>): nat
  {
    if ps == [] then 0
    else
      var p := ps[|ps| - 1];
      AddedTotal(intersect, gs, ps[..|ps| - 1])
        + (if p.i < |gs| && p.j < |gs| then AddedCount(PairInter(intersect, gs[p.i], gs[p.j])) else 0)
  }

  /** The full candidate list: endpoints first, then the pairwise intersection points. */
  function CandidateList(intersect: (Geom, Geom) -> Inter, gs: seq<Geom>): seq<Point>
  {
    Endpoints(gs) + PointsBelow(intersect, gs, |gs|)
  }

  /** After the endpoints, the candidate list holds the points of every pair `i < j`, in `Pairs` order. */
  lemma CandidatesFollowPairs(intersect: (Geom, Geom) -> Inter, gs: seq<Geom>)
    ensures CandidateList(intersect, gs) == Endpoints(gs) + PointsOf(intersect, gs, Pairs(|gs|))
  {
    PointsBelowArePairPoints(intersect, gs, |gs|);
  }

  lemma {:induction false} PointsOfSize(intersect: (Geom, Geom) -> Inter, gs: seq<Geom>, ps: seq<Pair>)
    ensures |PointsOf(intersect, gs, ps)| == AddedTotal(intersect, gs, ps)
  {
    if ps != [] {
      PointsOfSize(intersect, gs, ps[..|ps| - 1]);
    }
  }

  /** The size of the candidate list: two per LineString plus what each visited pair adds. */
  lemma CandidateListSize(intersect: (Geom, Geom) -> Inter, gs: seq<Geom>)
    requires !HasEmptyLine(gs)
    ensures |CandidateList(intersect, gs)| == 2 * LineCount(gs) + AddedTotal(intersect, gs, Pairs(|gs|))
  {
    EndpointsCount(gs);
    CandidatesFollowPairs(intersect, gs);
    PointsOfSize(intersect, gs, Pairs(|gs|));
  }

  /** An empty candidate list means there is no LineString at all. */
  lemma EmptyCandidatesHaveNoLines(intersect: (Geom, Geom) -> Inter, gs: seq<Geom>)
    requires !HasEmptyLine(gs) && CandidateList(intersect, gs) == []
    ensures LineCount(gs) == 0
  {
    CandidateListSize(intersect, gs);
  }
}
