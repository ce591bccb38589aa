/**
 * The grid tiler: covers a search disc with a square lattice of cell centres
 * spaced at 1.5 times the base radius and keeps those within the disc.
 *
 * The floating-point geometry (degree offsets and the haversine distance) is
 * not modelled; it enters as the uninterpreted values of a `Trig`.
 */
module GridSearch {

  /** Search radius of one cell, in metres; never written. */
  const BaseRadius: int := 1000
  /** Spacing of neighbouring cell centres, as a multiple of the offset of one base radius. */
  const Overlap: real := 1.5

  datatype GridPoint = GridPoint(lat: real, lng: real)

  /** The search disc: a centre in degrees and a radius in metres. */
  datatype Disc = Disc(centerLat: real, centerLng: real, radius: real)

  /**
   * The trigonometry left abstract: the latitude offset of one base radius,
   * the longitude offset of one base radius at a given centre latitude, and
   * the great-circle distance in metres between two (lat, lng) points.
   */
  datatype Trig = Trig(latOffset: real, lngOffsetAt: real -> real, distance: (real, real, real, real) -> real)

  /** Smallest integer not below `x`, as PHP's `ceil`. */
  function Ceil(x: real): (c: int)
    ensures c as real - 1.0 < x <= c as real
  {
    -((-x).Floor)
  }

  /** Number of lattice steps on each side of the centre: `ceil(radius / baseRadius)`. */
  function GridCount(radius: real): (g: int)
    ensures (g - 1) as real * BaseRadius as real < radius <= g as real * BaseRadius as real
  {
    Ceil(radius / BaseRadius as real)
  }

  /** Number of lattice values `-g..g` on one axis (none when `g` is negative). */
  function Span(g: int): nat {
    if g < 0 then 0 else 2 * g + 1
  }

  /** The pairs `(i, j)` for `-g <= j < jEnd`, in increasing `j`. */
  function RowPairs(i: int, g: int, jEnd: int): seq<(int, int)>
    decreases jEnd + g
  {
    if jEnd <= -g then [] else RowPairs(i, g, jEnd - 1) + [(i, jEnd - 1)]
  }

  /** The complete rows `-g <= i < iEnd` of the lattice, in increasing `i`. */
  function Rows(g: int, iEnd: int): seq<(int, int)>
    decreases iEnd + g
  {
    if iEnd <= -g then [] else Rows(g, iEnd - 1) + RowPairs(iEnd - 1, g, g + 1)
  }

  /** Every offset pair of the `g` lattice, `i` outer and `j` inner. */
  function Lattice(g: int): seq<(int, int)> {
    Rows(g, g + 1)
  }

  /** The candidate cell centre for lattice pair `p`. */
  function Cell(d: Disc, t: Trig, p: (int, int)): GridPoint {
    GridPoint(d.centerLat + p.0 as real * t.latOffset * Overlap,
              d.centerLng + p.1 as real * t.lngOffsetAt(d.centerLat) * Overlap)
  }

  /** The distance test a candidate must pass to be kept. */
  predicate Within(d: Disc, t: Trig, q: GridPoint) {
    t.distance(d.centerLat, d.centerLng, q.lat, q.lng) <= d.radius
  }

  /** The cell centres of the pairs in `ps` that pass the distance test, in the order of `ps`. */
  function Kept(d: Disc, t: Trig, ps: seq<(int, int)>): seq<GridPoint> {
    if ps == [] then []
    else
      var q := Cell(d, t, ps[|ps| - 1]);
      Kept(d, t, ps[..|ps| - 1]) + (if Within(d, t, q) then [q] else [])
  }

  /** The positions in `ps` whose cell centres are kept, in increasing order. */
  function KeptPositions(d: Disc, t: Trig, ps: seq<(int, int)>): seq<nat> {
    if ps == [] then []
    else
      KeptPositions(d, t, ps[..|ps| - 1]) + (if Within(d, t, Cell(d, t, ps[|ps| - 1])) then [|ps| - 1] else [])
  }

  /** The cell centres the tiler returns for disc `d`. */
  function GridPoints(d: Disc, t: Trig): seq<GridPoint> {
    Kept(d, t, Lattice(GridCount(d.radius)))
  }

  /**
   * GridSearchService.calculateGridPoints: nested loops over the lattice,
   * appending each candidate that passes the distance test.
   */
  method CalculateGridPoints(centerLat: real, centerLng: real, radius: real, trig: Trig)
    returns (gridPoints: seq<GridPoint>)
    ensures gridPoints == GridPoints(Disc(centerLat, centerLng, radius), trig)
  {
    var d := Disc(centerLat, centerLng, radius);
    var gridCount := GridCount(radius);
    gridPoints := LatticePoints(d, trig, gridCount);
  }

  /**
   * The two loops of `calculateGridPoints` once `gridCount` is known: rows
   * `i` from `-gridCount` to `gridCount`, each through `AddRow`.
   */
  method LatticePoints(d: Disc, trig: Trig, gridCount: int) returns (gridPoints: seq<GridPoint>)
    ensures gridPoints == Kept(d, trig, Lattice(gridCount))
  {
    gridPoints := [];
    var i := -gridCount;
    while i <= gridCount
      invariant -gridCount <= i
      invariant i <= gridCount + 1 || i == -gridCount
      invariant gridPoints == KeptRows(d, trig, gridCount, i)
    {
      var rowPoints := AddRow(d, trig, gridCount, i);
      gridPoints := gridPoints + rowPoints;
      i := i + 1;
    }
    KeptRowsLattice(d, trig, gridCount, i);
  }

  /** The kept cell centres of the complete rows `-g <= i < iEnd`, row by row. */
  function KeptRows(d: Disc, t: Trig, g: int, iEnd: int): seq<GridPoint>
    decreases iEnd + g
  {
    if iEnd <= -g then [] else KeptRows(d, t, g, iEnd - 1) + Kept(d, t, RowPairs(iEnd - 1, g, g + 1))
  }

  /** Row by row, the kept centres are those of the complete rows. */
  lemma {:induction false} KeptRowsIsKept(d: Disc, t: Trig, g: int, iEnd: int)
    ensures KeptRows(d, t, g, iEnd) == Kept(d, t, Rows(g, iEnd))
    decreases iEnd + g
  {
    if iEnd > -g {
      KeptRowsIsKept(d, t, g, iEnd - 1);
      KeptAppend(d, t, Rows(g, iEnd - 1), RowPairs(iEnd - 1, g, g + 1));
    }
  }

  /** Where the row loop stops, the rows seen are the whole lattice. */
  lemma KeptRowsLattice(d: Disc, t: Trig, g: int, i: int)
    requires g < i && -g <= i && (i <= g + 1 || i == -g)
    ensures KeptRows(d, t, g, i) == Kept(d, t, Lattice(g))
  {
    KeptRowsIsKept(d, t, g, i);
    assert Rows(g, i) == Lattice(g);
  }

  /**
   * The inner loop of `calculateGridPoints`: the cell centres of row `i`,
   * `j` from `-g` to `g`, that pass the distance test, in order.
   */
  method AddRow(d: Disc, trig: Trig, g: int, i: int) returns (rowPoints: seq<GridPoint>)
    ensures rowPoints == Kept(d, trig, RowPairs(i, g, g + 1))
  {
    rowPoints := [];
    var j := -g;
    while j <= g
      invariant -g <= j <= g + 1 || j == -g
      invariant rowPoints == Kept(d, trig, RowPairs(i, g, j))
    {
      var point := Cell(d, trig, (i, j));
      KeptRowStep(d, trig, i, g, j);
      if Within(d, trig, point) {
        rowPoints := rowPoints + [point];
      }
      j := j + 1;
    }
  }

  /** One more pair of a row keeps its cell centre exactly when it passes the distance test. */
  lemma KeptRowStep(d: Disc, t: Trig, i: int, g: int, j: int)
    requires -g <= j
    ensures Kept(d, t, RowPairs(i, g, j + 1)) ==
              Kept(d, t, RowPairs(i, g, j)) + (if Within(d, t, Cell(d, t, (i, j))) then [Cell(d, t, (i, j))] else [])
  {
    var r := RowPairs(i, g, j);
    assert RowPairs(i, g, j + 1) == r + [(i, j)];
    assert (r + [(i, j)])[..|r|] == r;
  }

  /** Filtering a concatenation filters each part. */
  lemma {:induction false} KeptAppend(d: Disc, t: Trig, a: seq<(int, int)>, b: seq<(int, int)>)
    ensures Kept(d, t, a + b) == Kept(d, t, a) + Kept(d, t, b)
    decreases |b|
  {
    if b == [] {
      assert a + b == a;
    } else {
      var init := b[..|b| - 1];
      KeptAppend(d, t, a, init);
      assert (a + b)[..|a + b| - 1] == a + init;
      assert (a + b)[|a + b| - 1] == b[|b| - 1];
    }
  }

  // ---------------------------------------------------------------------------
  // The lattice: its size, its members and its row-major order.

  /** Row-major order on lattice pairs. */
  predicate RowMajorBefore(p: (int, int), q: (int, int)) {
    p.0 < q.0 || (p.0 == q.0 && p.1 < q.1)
  }

  /** Strictly increasing in row-major order. */
  ghost predicate RowMajorSorted(ps: seq<(int, int)>) {
    forall a, b :: 0 <= a < b < |ps| ==> RowMajorBefore(ps[a], ps[b])
  }

  lemma {:induction false} RowPairsShape(i: int, g: int, jEnd: int)
    ensures |RowPairs(i, g, jEnd)| == if jEnd <= -g then 0 else jEnd + g
    ensures forall p :: p in RowPairs(i, g, jEnd) <==> p.0 == i && -g <= p.1 < jEnd
    ensures RowMajorSorted(RowPairs(i, g, jEnd))
    decreases jEnd + g
  {
    if jEnd > -g {
      RowPairsShape(i, g, jEnd - 1);
      var r := RowPairs(i, g, jEnd - 1);
      assert RowPairs(i, g, jEnd) == r + [(i, jEnd - 1)];
      forall p: (int, int) | p.0 == i && -g <= p.1 < jEnd
        ensures p in RowPairs(i, g, jEnd)
      {
        if p.1 < jEnd - 1 {
          assert p in r;
        } else {
          assert p == (i, jEnd - 1);
        }
      }
    }
  }

  lemma SortedAppend(s: seq<(int, int)>, u: seq<(int, int)>)
    requires RowMajorSorted(s) && RowMajorSorted(u)
    requires forall p, q :: p in s && q in u ==> RowMajorBefore(p, q)
    ensures RowMajorSorted(s + u)
  {
    forall a, b | 0 <= a < b < |s + u|
      ensures RowMajorBefore((s + u)[a], (s + u)[b])
    {
      if b < |s| {
        assert (s + u)[a] == s[a] && (s + u)[b] == s[b];
      } else if a < |s| {
        assert (s + u)[a] == s[a] && (s + u)[b] == u[b - |s|];
        assert s[a] in s && u[b - |s|] in u;
      } else {
        assert (s + u)[a] == u[a - |s|] && (s + u)[b] == u[b - |s|];
      }
    }
  }

  lemma RowsShape(g: int, iEnd: int)
    ensures |Rows(g, iEnd)| == (if iEnd <= -g then 0 else iEnd + g) * Span(g)
    ensures forall p :: p in Rows(g, iEnd) <==> -g <= p.0 < iEnd && -g <= p.1 <= g
    ensures RowMajorSorted(Rows(g, iEnd))
  {
    RowsSize(g, iEnd);
    RowsMembers(g, iEnd);
    RowsSorted(g, iEnd);
  }

  lemma {:induction false} RowsSize(g: int, iEnd: int)
    ensures |Rows(g, iEnd)| == (if iEnd <= -g then 0 else iEnd + g) * Span(g)
    decreases iEnd + g
  {
    if iEnd > -g {
      RowsSize(g, iEnd - 1);
      RowPairsShape(iEnd - 1, g, g + 1);
      var k := if iEnd - 1 <= -g then 0 else iEnd - 1 + g;
      var n := Span(g);
      assert |Rows(g, iEnd)| == |Rows(g, iEnd - 1)| + |RowPairs(iEnd - 1, g, g + 1)|;
      assert |RowPairs(iEnd - 1, g, g + 1)| == n;
      OneMoreRow(k, n);
      assert k + 1 == iEnd + g;
    }
  }

  lemma OneMoreRow(k: int, n: int)
    ensures k * n + n == (k + 1) * n
  {
  }

  lemma {:induction false} RowsMembers(g: int, iEnd: int)
    ensures forall p :: p in Rows(g, iEnd) <==> -g <= p.0 < iEnd && -g <= p.1 <= g
    decreases iEnd + g
  {
    if iEnd > -g {
      RowsMembers(g, iEnd - 1);
      RowPairsShape(iEnd - 1, g, g + 1);
    }
  }

  lemma {:induction false} RowsSorted(g: int, iEnd: int)
    ensures RowMajorSorted(Rows(g, iEnd))
    decreases iEnd + g
  {
    if iEnd > -g {
      RowsSorted(g, iEnd - 1);
      RowsMembers(g, iEnd - 1);
      RowPairsShape(iEnd - 1, g, g + 1);
      SortedAppend(Rows(g, iEnd - 1), RowPairs(iEnd - 1, g, g + 1));
    }
  }

  /** The lattice holds `(2g+1)^2` pairs (none for negative `g`). */
  lemma LatticeSize(g: int)
    ensures |Lattice(g)| == Span(g) * Span(g)
  {
    RowsShape(g, g + 1);
  }

  /**
   * The lattice is exactly the pairs with both offsets in `-g..g`, each once,
   * in row-major order (`i` outer, `j` inner).
   */
  lemma LatticeRowMajor(g: int)
    ensures forall p :: p in Lattice(g) <==> -g <= p.0 <= g && -g <= p.1 <= g
    ensures RowMajorSorted(Lattice(g))
  {
    RowsShape(g, g + 1);
  }

  // ---------------------------------------------------------------------------
  // The filter: what is kept, in which order, and that nothing passing is dropped.

  /**
   * `Kept(ps)` is the order-preserving subsequence of candidates at the
   * positions `KeptPositions(ps)`: those positions are increasing, and a
   * position is among them exactly when its candidate passes the distance test.
   */
  lemma KeptIsFilter(d: Disc, t: Trig, ps: seq<(int, int)>)
    ensures |KeptPositions(d, t, ps)| == |Kept(d, t, ps)| <= |ps|
    ensures forall k :: 0 <= k < |KeptPositions(d, t, ps)| ==>
              KeptPositions(d, t, ps)[k] < |ps| &&
              Kept(d, t, ps)[k] == Cell(d, t, ps[KeptPositions(d, t, ps)[k]])
    ensures forall a, b :: 0 <= a < b < |KeptPositions(d, t, ps)| ==>
              KeptPositions(d, t, ps)[a] < KeptPositions(d, t, ps)[b]
    ensures forall n :: 0 <= n < |ps| ==>
              (n in KeptPositions(d, t, ps) <==> Within(d, t, Cell(d, t, ps[n])))
  {
    KeptPositionsAt(d, t, ps);
    KeptPositionsIncreasing(d, t, ps);
    KeptPositionsExact(d, t, ps);
  }

  lemma {:induction false} KeptPositionsAt(d: Disc, t: Trig, ps: seq<(int, int)>)
    ensures |KeptPositions(d, t, ps)| == |Kept(d, t, ps)| <= |ps|
    ensures forall k :: 0 <= k < |KeptPositions(d, t, ps)| ==>
              KeptPositions(d, t, ps)[k] < |ps| &&
              Kept(d, t, ps)[k] == Cell(d, t, ps[KeptPositions(d, t, ps)[k]])
  {
    if ps != [] {
      var init := ps[..|ps| - 1];
      KeptPositionsAt(d, t, init);
      assert forall n :: 0 <= n < |init| ==> ps[n] == init[n];
    }
  }

  lemma {:induction false} KeptPositionsIncreasing(d: Disc, t: Trig, ps: seq<(int, int)>)
    ensures forall a, b :: 0 <= a < b < |KeptPositions(d, t, ps)| ==>
              KeptPositions(d, t, ps)[a] < KeptPositions(d, t, ps)[b]
  {
    if ps != [] {
      var init := ps[..|ps| - 1];
      KeptPositionsIncreasing(d, t, init);
      KeptPositionsAt(d, t, init);
    }
  }

  lemma {:induction false} KeptPositionsExact(d: Disc, t: Trig, ps: seq<(int, int)>)
    ensures forall n :: 0 <= n < |ps| ==>
              (n in KeptPositions(d, t, ps) <==> Within(d, t, Cell(d, t, ps[n])))
  {
    if ps != [] {
      var init := ps[..|ps| - 1];
      KeptPositionsExact(d, t, init);
      KeptPositionsAt(d, t, init);
      assert forall n :: 0 <= n < |init| ==> ps[n] == init[n];
      assert |ps| - 1 !in KeptPositions(d, t, init);
    }
  }

  /** Every returned point is within the radius, and is the candidate cell of one lattice pair. */
  lemma KeptWithin(d: Disc, t: Trig, ps: seq<(int, int)>)
    ensures forall q :: q in Kept(d, t, ps) ==> Within(d, t, q) && exists p :: p in ps && q == Cell(d, t, p)
  {
    KeptIsFilter(d, t, ps);
    var pos := KeptPositions(d, t, ps);
    forall q | q in Kept(d, t, ps)
      ensures Within(d, t, q) && exists p :: p in ps && q == Cell(d, t, p)
    {
      var k :| 0 <= k < |Kept(d, t, ps)| && Kept(d, t, ps)[k] == q;
      assert pos[k] in pos;
      assert ps[pos[k]] in ps;
    }
  }

  /** No candidate that passes the distance test is dropped. */
  lemma KeptComplete(d: Disc, t: Trig, ps: seq<(int, int)>, p: (int, int))
    requires p in ps && Within(d, t, Cell(d, t, p))
    ensures Cell(d, t, p) in Kept(d, t, ps)
  {
    KeptIsFilter(d, t, ps);
    var n :| 0 <= n < |ps| && ps[n] == p;
    var pos := KeptPositions(d, t, ps);
    var k :| 0 <= k < |pos| && pos[k] == n;
    assert Kept(d, t, ps)[k] == Cell(d, t, p);
  }

  /** The tiler returns at most `(2g+1)^2` points, `g = ceil(radius / baseRadius)`. */
  lemma GridPointsBound(d: Disc, t: Trig)
    ensures |GridPoints(d, t)| <= Span(GridCount(d.radius)) * Span(GridCount(d.radius))
  {
    KeptIsFilter(d, t, Lattice(GridCount(d.radius)));
    LatticeSize(GridCount(d.radius));
  }

  /**
   * For a non-negative radius the centre itself is a grid point, given that
   * the distance of a point from itself is zero.
   */
  lemma CentreKept(d: Disc, t: Trig)
    requires d.radius >= 0.0
    requires t.distance(d.centerLat, d.centerLng, d.centerLat, d.centerLng) == 0.0
    ensures GridPoint(d.centerLat, d.centerLng) in GridPoints(d, t)
  {
    var g := GridCount(d.radius);
    LatticeRowMajor(g);
    assert Cell(d, t, (0, 0)) == GridPoint(d.centerLat, d.centerLng);
    KeptComplete(d, t, Lattice(g), (0, 0));
  }

  /** The maximum radius 5000 m gives at most 5 steps each side, so at most 121 candidates. */
  lemma GridCountAtMostFive(radius: real)
    requires radius <= 5000.0
    ensures GridCount(radius) <= 5
    ensures Span(GridCount(radius)) * Span(GridCount(radius)) <= 121
  {
    var g := GridCount(radius);
    assert 0 <= Span(g) <= 11;
  }

  /** A radius of 1500 m gives two steps each side: 25 candidates. */
  lemma GridCountExample()
    ensures GridCount(1500.0) == 2
    ensures |Lattice(2)| == 25
  {
    LatticeSize(2);
  }
}
