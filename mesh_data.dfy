/**
 * QMesh::MeshData and its two generators, GenerateRectangleMeshData and
 * GeneratePolygonMeshData (qmesh.h, qmesh.cpp). A MeshData names particles by
 * their index in `particlePositions`; springs and polygons are lists of such
 * indices. What matters to the rest of the engine is the index topology: every
 * index must name a particle, because QMesh::CreateWithMeshData looks the
 * indices up without checking them.
 */
module MeshDatas {
  import opened Vectors

  /** std::pair<int,int>: two particles named by index. */
  datatype IndexPair = IndexPair(first: int, second: int)

  /**
   * The fields the generators fill and CreateWithMeshData reads. The header
   * names the polygon field `polygon`; the implementation uses a list of closed
   * polygons, which is what is modelled.
   */
  datatype MeshData = MeshData(
    particlePositions: seq<Vec>,
    particleRadValues: seq<real>,
    particleInternalValues: seq<bool>,
    springList: seq<IndexPair>,
    internalSpringList: seq<IndexPair>,
    closedPolygonList: seq<seq<int>>,
    position: Vec,
    rotation: real)

  /** Both ends of every pair name one of `n` particles. */
  predicate PairsInRange(ps: seq<IndexPair>, n: int)
  {
    forall k :: 0 <= k < |ps| ==> 0 <= ps[k].first < n && 0 <= ps[k].second < n
  }

  /** Every index names one of `n` particles. */
  predicate IndicesInRange(p: seq<int>, n: int)
  {
    forall k :: 0 <= k < |p| ==> 0 <= p[k] < n
  }

  /** The per-particle lists are parallel, and every spring and polygon index names a particle. */
  predicate WellIndexed(d: MeshData)
  {
    var n := |d.particlePositions|;
    |d.particleRadValues| == n && |d.particleInternalValues| == n &&
    PairsInRange(d.springList, n) && PairsInRange(d.internalSpringList, n) &&
    forall k :: 0 <= k < |d.closedPolygonList| ==> IndicesInRange(d.closedPolygonList[k], n)
  }

  /** 0, 1, ..., n - 1. */
  function Iota(n: nat): (r: seq<int>)
    ensures |r| == n && forall k :: 0 <= k < n ==> r[k] == k
  {
    if n == 0 then [] else Iota(n - 1) + [n - 1]
  }

  // ---------------------------------------------------------------- grid arithmetic

  /** The particle at column x, row y of a grid `w` particles wide. */
  function GridIndex(x: int, y: int, w: int): int
  {
    y * w + x
  }

  /** w * d is at least w for a positive multiplier d. */
  lemma {:induction false} MulAtLeast(d: int, w: int)
    requires 1 <= d && 0 < w
    ensures d * w >= w
  {
    if d > 1 {
      MulAtLeast(d - 1, w);
      assert d * w == (d - 1) * w + w;
    }
  }

  /** q * w < h * w with positive w gives q < h. */
  lemma MulCancelLess(q: int, h: int, w: int)
    requires 0 < w && q * w < h * w
    ensures q < h
  {
    if h <= q {
      MulAtLeast(q - h + 1, w);
    }
  }

  /** Euclidean division is unique: i = q * w + r with 0 <= r < w fixes i / w and i % w. */
  lemma DivModUnique(i: int, w: int, q: int, r: int)
    requires 0 < w && 0 <= r < w && i == q * w + r
    ensures i / w == q && i % w == r
  {
    var q', r' := i / w, i % w;
    assert q' * w + r' == i;
    MulCancelLess(q', q + 1, w);
    MulCancelLess(q, q' + 1, w);
  }

  /** Column and row are recovered from a grid index by % and /. */
  lemma GridCoords(x: int, y: int, w: int)
    requires 0 <= x < w && 0 <= y
    ensures GridIndex(x, y, w) % w == x && GridIndex(x, y, w) / w == y
  {
    DivModUnique(GridIndex(x, y, w), w, y, x);
  }

  /** A cell inside a w-by-h grid has an index below w * h. */
  lemma GridIndexBelow(x: int, y: int, w: int, h: int)
    requires 0 <= x < w && 0 <= y < h
    ensures 0 <= GridIndex(x, y, w) < w * h
  {
    MulAtLeast(h - y, w);
    assert (h - y) * w == h * w - y * w;
    assert 0 <= y * w;
  }

  /** The column and row of an index below w * h lie inside the grid. */
  lemma GridCellOf(i: int, w: int, h: int)
    requires 0 < w && 0 <= i < w * h
    ensures 0 <= i % w < w && 0 <= i / w < h
    ensures i == GridIndex(i % w, i / w, w)
  {
    var q := i / w;
    assert q * w + i % w == i;
    MulCancelLess(q, h, w);
    MulCancelLess(-1, q, w);
  }

  /** Particles on the outer rows and columns of the grid are boundary particles. */
  predicate OnGridBoundary(x: int, y: int, gridX: int, gridY: int)
  {
    x == 0 || x == gridX || y == 0 || y == gridY
  }

  /** Two distinct grid particles that are horizontal, vertical or diagonal neighbours. */
  predicate GridNeighbours(p: IndexPair, w: int)
    requires 0 < w
  {
    p.first != p.second
    && -1 <= p.first % w - p.second % w <= 1
    && -1 <= p.first / w - p.second / w <= 1
  }

  /** The generated position of the particle at column x, row y. */
  function GridPoint(origin: Vec, cell: Vec, x: int, y: int): Vec
  {
    Add(origin, Vec(x as real * cell.x, y as real * cell.y))
  }

  // ---------------------------------------------------------------- rectangle

  /** A spring of the grid: both ends name grid particles, distinct neighbours. */
  predicate GridSpring(p: IndexPair, gridX: nat, gridY: nat)
  {
    var w := gridX + 1;
    0 <= p.first < w * (gridY + 1) && 0 <= p.second < w * (gridY + 1) && GridNeighbours(p, w)
  }

  /** A boundary spring of the grid: a grid spring whose both ends lie on the outer rows or columns. */
  predicate BoundaryGridSpring(p: IndexPair, gridX: nat, gridY: nat)
  {
    var w := gridX + 1;
    GridSpring(p, gridX, gridY)
    && OnGridBoundary(p.first % w, p.first / w, gridX, gridY)
    && OnGridBoundary(p.second % w, p.second / w, gridX, gridY)
  }

  /** The corners of a box of size `size` around `center`, clockwise from the top left. */
  function Corners(size: Vec, center: Vec): seq<Vec>
  {
    var h := Scale(size, 0.5);
    [Add(Vec(-h.x, -h.y), center), Add(Vec(h.x, -h.y), center), Add(Vec(h.x, h.y), center), Add(Vec(-h.x, h.y), center)]
  }

  /**
   * GenerateRectangleMeshData. The grid is a QVector in the source; its
   * components are compared with and cast to int, so the model takes the
   * whole numbers `gridX`, `gridY`. A grid of at most 1 by 1 yields the four
   * corners with four boundary and two diagonal springs; a larger grid yields
   * (gridX + 1) * (gridY + 1) particles, interior ones internal, springs
   * between grid neighbours and one polygon that follows the boundary springs.
   */
  method GenerateRectangleMeshData(size: Vec, centerPosition: Vec, gridX: nat, gridY: nat, particleRadius: real)
    returns (res: MeshData)
    requires (gridX <= 1 && gridY <= 1) || (1 <= gridX && 1 <= gridY)
    ensures WellIndexed(res)
    ensures |res.closedPolygonList| == 1
    ensures forall k :: 0 <= k < |res.particleRadValues| ==> res.particleRadValues[k] == particleRadius
    ensures res.position == Zero() && res.rotation == 0.0
    ensures gridX <= 1 && gridY <= 1 ==>
      && res.particlePositions == Corners(size, centerPosition)
      && res.particleInternalValues == [false, false, false, false]
      && res.closedPolygonList == [[0, 1, 2, 3]]
      && res.springList == [IndexPair(0, 1), IndexPair(1, 2), IndexPair(2, 3), IndexPair(3, 0)]
      && res.internalSpringList == [IndexPair(0, 2), IndexPair(1, 3)]
    ensures !(gridX <= 1 && gridY <= 1) ==>
      var w := gridX + 1;
      var origin := Sub(centerPosition, Scale(size, 0.5));
      var cell := Vec(size.x / gridX as real, size.y / gridY as real);
      && |res.particlePositions| == w * (gridY + 1)
      && (forall k :: 0 <= k < |res.particlePositions| ==>
            res.particlePositions[k] == GridPoint(origin, cell, k % w, k / w))
      && (forall k :: 0 <= k < |res.particleInternalValues| ==>
            (res.particleInternalValues[k] <==> !OnGridBoundary(k % w, k / w, gridX, gridY)))
      && (forall p :: p in res.springList ==> BoundaryGridSpring(p, gridX, gridY))
      && (forall p :: p in res.internalSpringList ==> GridSpring(p, gridX, gridY))
      && ChainedBeforeLast(res.springList)
      && |res.closedPolygonList[0]| == |res.springList|
      && (forall k :: 0 <= k < |res.springList| ==> res.closedPolygonList[0][k] == res.springList[k].first)
  {
    if gridX <= 1 && gridY <= 1 {
      var positions := Corners(size, centerPosition);
      var polygon: seq<int> := [];
      var i := 0;
      while i < |positions|
        invariant 0 <= i <= |positions| && polygon == Iota(i)
      {
        polygon := polygon + [i];
        i := i + 1;
      }
      assert Iota(4) == [0, 1, 2, 3];
      res := MeshData(positions, [particleRadius, particleRadius, particleRadius, particleRadius],
                      [false, false, false, false],
                      [IndexPair(0, 1), IndexPair(1, 2), IndexPair(2, 3), IndexPair(3, 0)],
                      [IndexPair(0, 2), IndexPair(1, 3)], [polygon], Zero(), 0.0);
    } else {
      res := GridMeshData(size, centerPosition, gridX, gridY, particleRadius);
    }
  }

  /** The grid branch of GenerateRectangleMeshData. */
  method GridMeshData(size: Vec, centerPosition: Vec, gridX: nat, gridY: nat, particleRadius: real)
    returns (res: MeshData)
    requires 1 <= gridX && 1 <= gridY
    ensures WellIndexed(res)
    ensures |res.closedPolygonList| == 1
    ensures forall k :: 0 <= k < |res.particleRadValues| ==> res.particleRadValues[k] == particleRadius
    ensures res.position == Zero() && res.rotation == 0.0
    ensures
      var w := gridX + 1;
      var origin := Sub(centerPosition, Scale(size, 0.5));
      var cell := Vec(size.x / gridX as real, size.y / gridY as real);
      && |res.particlePositions| == w * (gridY + 1)
      && (forall k :: 0 <= k < |res.particlePositions| ==>
            res.particlePositions[k] == GridPoint(origin, cell, k % w, k / w))
      && (forall k :: 0 <= k < |res.particleInternalValues| ==>
            (res.particleInternalValues[k] <==> !OnGridBoundary(k % w, k / w, gridX, gridY)))
      && (forall p :: p in res.springList ==> BoundaryGridSpring(p, gridX, gridY))
      && (forall p :: p in res.internalSpringList ==> GridSpring(p, gridX, gridY))
      && ChainedBeforeLast(res.springList)
      && |res.closedPolygonList[0]| == |res.springList|
      && (forall k :: 0 <= k < |res.springList| ==> res.closedPolygonList[0][k] == res.springList[k].first)
  {
    var halfSize := Scale(size, 0.5);
    var cellSize := Vec(size.x / gridX as real, size.y / gridY as real);
    var positions, rads, internals := GridParticles(Sub(centerPosition, halfSize), cellSize, gridX, gridY, particleRadius);
    var springs, internalSprings := GridSprings(gridX, gridY);
    var ordered := OrderSprings(springs);
    var polygon := FirstsOf(ordered);
    MembersOfSmaller(ordered, springs);
    var n := |positions|;
    assert forall p :: p in ordered ==> BoundaryGridSpring(p, gridX, gridY);
    GridSpringsInRange(ordered, gridX, gridY);
    GridSpringsInRange(internalSprings, gridX, gridY);
    forall k | 0 <= k < |polygon|
      ensures 0 <= polygon[k] < n
    {
      assert ordered[k] in ordered;
    }
    res := MeshData(positions, rads, internals, ordered, internalSprings, [polygon], Zero(), 0.0);
  }

  /** Grid springs name grid particles. */
  lemma GridSpringsInRange(ps: seq<IndexPair>, gridX: nat, gridY: nat)
    requires forall p :: p in ps ==> GridSpring(p, gridX, gridY)
    ensures PairsInRange(ps, (gridX + 1) * (gridY + 1))
  {
    forall k | 0 <= k < |ps|
      ensures 0 <= ps[k].first < (gridX + 1) * (gridY + 1) && 0 <= ps[k].second < (gridX + 1) * (gridY + 1)
    {
      assert ps[k] in ps;
    }
  }

  /** Every element of a sub-multiset is an element of the larger sequence. */
  lemma MembersOfSmaller<T>(a: seq<T>, b: seq<T>)
    requires multiset(a) <= multiset(b)
    ensures forall x :: x in a ==> x in b
  {
    forall x | x in a
      ensures x in b
    {
      assert x in multiset(a);
    }
  }

  /** The particle loops of the grid branch: rows top to bottom, each row left to right. */
  method GridParticles(origin: Vec, cell: Vec, gridX: nat, gridY: nat, particleRadius: real)
    returns (positions: seq<Vec>, rads: seq<real>, internals: seq<bool>)
    ensures |positions| == (gridX + 1) * (gridY + 1) && |rads| == |positions| && |internals| == |positions|
    ensures forall k :: 0 <= k < |positions| ==> positions[k] == GridPoint(origin, cell, k % (gridX + 1), k / (gridX + 1))
    ensures forall k :: 0 <= k < |internals| ==>
      (internals[k] <==> !OnGridBoundary(k % (gridX + 1), k / (gridX + 1), gridX, gridY))
    ensures forall k :: 0 <= k < |rads| ==> rads[k] == particleRadius
  {
    var w := gridX + 1;
    positions, rads, internals := [], [], [];
    var iy := 0;
    while iy < gridY + 1
      invariant 0 <= iy <= gridY + 1
      invariant |positions| == iy * w && |rads| == |positions| && |internals| == |positions|
      invariant forall k :: 0 <= k < |positions| ==> positions[k] == GridPoint(origin, cell, k % w, k / w)
      invariant forall k :: 0 <= k < |internals| ==> (internals[k] <==> !OnGridBoundary(k % w, k / w, gridX, gridY))
      invariant forall k :: 0 <= k < |rads| ==> rads[k] == particleRadius
    {
      positions, rads, internals := GridRow(origin, cell, gridX, gridY, iy, particleRadius, positions, rads, internals);
      NextRow(0, iy, w);
      iy := iy + 1;
    }
  }

  /** The inner loop of the particle loops: one row, left to right. */
  method GridRow(origin: Vec, cell: Vec, gridX: nat, gridY: nat, iy: nat, particleRadius: real,
                 positions0: seq<Vec>, rads0: seq<real>, internals0: seq<bool>)
    returns (positions: seq<Vec>, rads: seq<real>, internals: seq<bool>)
    requires |positions0| == GridIndex(0, iy, gridX + 1) && |rads0| == |positions0| && |internals0| == |positions0|
    requires forall k :: 0 <= k < |positions0| ==> positions0[k] == GridPoint(origin, cell, k % (gridX + 1), k / (gridX + 1))
    requires forall k :: 0 <= k < |internals0| ==>
      (internals0[k] <==> !OnGridBoundary(k % (gridX + 1), k / (gridX + 1), gridX, gridY))
    requires forall k :: 0 <= k < |rads0| ==> rads0[k] == particleRadius
    ensures |positions| == GridIndex(gridX + 1, iy, gridX + 1) && |rads| == |positions| && |internals| == |positions|
    ensures forall k :: 0 <= k < |positions| ==> positions[k] == GridPoint(origin, cell, k % (gridX + 1), k / (gridX + 1))
    ensures forall k :: 0 <= k < |internals| ==>
      (internals[k] <==> !OnGridBoundary(k % (gridX + 1), k / (gridX + 1), gridX, gridY))
    ensures forall k :: 0 <= k < |rads| ==> rads[k] == particleRadius
  {
    var w := gridX + 1;
    positions, rads, internals := positions0, rads0, internals0;
    var ix := 0;
    while ix < w
      invariant 0 <= ix <= w
      invariant |positions| == GridIndex(ix, iy, w) && |rads| == |positions| && |internals| == |positions|
      invariant forall k :: 0 <= k < |positions| ==> positions[k] == GridPoint(origin, cell, k % w, k / w)
      invariant forall k :: 0 <= k < |internals| ==> (internals[k] <==> !OnGridBoundary(k % w, k / w, gridX, gridY))
      invariant forall k :: 0 <= k < |rads| ==> rads[k] == particleRadius
    {
      GridCoords(ix, iy, w);
      positions := positions + [GridPoint(origin, cell, ix, iy)];
      rads := rads + [particleRadius];
      internals := internals + [!OnGridBoundary(ix, iy, gridX, gridY)];
      ix := ix + 1;
    }
  }

  /** The first particle of the next row follows the last particle of this one. */
  lemma NextRow(x: int, y: int, w: int)
    ensures GridIndex(x, y + 1, w) == GridIndex(x, y, w) + w
    ensures GridIndex(w, y, w) == GridIndex(0, y + 1, w)
  {
  }

  /** The pair of two neighbouring cells of a (gridX + 1)-by-(gridY + 1) grid is a grid spring. */
  lemma CellPair(x1: int, y1: int, x2: int, y2: int, gridX: nat, gridY: nat)
    requires 0 <= x1 <= gridX && 0 <= y1 <= gridY && 0 <= x2 <= gridX && 0 <= y2 <= gridY
    requires -1 <= x1 - x2 <= 1 && -1 <= y1 - y2 <= 1 && (x1 != x2 || y1 != y2)
    ensures var p := IndexPair(GridIndex(x1, y1, gridX + 1), GridIndex(x2, y2, gridX + 1));
      && GridSpring(p, gridX, gridY)
      && (OnGridBoundary(x1, y1, gridX, gridY) && OnGridBoundary(x2, y2, gridX, gridY) ==> BoundaryGridSpring(p, gridX, gridY))
  {
    var w := gridX + 1;
    GridIndexBelow(x1, y1, w, gridY + 1);
    GridIndexBelow(x2, y2, w, gridY + 1);
    GridCoords(x1, y1, w);
    GridCoords(x2, y2, w);
  }

  /** What the spring loop guarantees of the springs it has produced so far. */
  predicate GridSpringsSoFar(springs: seq<IndexPair>, internalSprings: seq<IndexPair>, gridX: nat, gridY: nat)
  {
    (forall p :: p in springs ==> BoundaryGridSpring(p, gridX, gridY)) &&
    (forall p :: p in internalSprings ==> GridSpring(p, gridX, gridY))
  }

  /**
   * The spring loop of the grid branch: from each particle, a spring to the
   * right, two diagonals down and one down. Springs along the outer rows and
   * columns are boundary springs, the rest internal.
   */
  method GridSprings(gridX: nat, gridY: nat) returns (springs: seq<IndexPair>, internalSprings: seq<IndexPair>)
    ensures GridSpringsSoFar(springs, internalSprings, gridX, gridY)
  {
    var w := gridX + 1;
    springs, internalSprings := [], [];
    var i := 0;
    while i < w * (gridY + 1)
      invariant 0 <= i
      invariant GridSpringsSoFar(springs, internalSprings, gridX, gridY)
    {
      springs, internalSprings := GridSpringsFrom(i, gridX, gridY, springs, internalSprings);
      i := i + 1;
    }
  }

  /** One iteration of the spring loop, for the particle at index i. */
  method GridSpringsFrom(i: int, gridX: nat, gridY: nat, springs0: seq<IndexPair>, internalSprings0: seq<IndexPair>)
    returns (springs: seq<IndexPair>, internalSprings: seq<IndexPair>)
    requires 0 <= i < (gridX + 1) * (gridY + 1)
    requires GridSpringsSoFar(springs0, internalSprings0, gridX, gridY)
    ensures GridSpringsSoFar(springs, internalSprings, gridX, gridY)
  {
    var w := gridX + 1;
    springs, internalSprings := springs0, internalSprings0;
    GridCellOf(i, w, gridY + 1);
    var x := i % w;
    var y := (i - x) / w;
    DivModUnique(i - x, w, i / w, 0);
    springs, internalSprings := GridSpringsAt(i, x, y, gridX, gridY, springs, internalSprings);
  }

  /** The springs the spring loop adds from the particle i at column x, row y. */
  method GridSpringsAt(i: int, x: int, y: int, gridX: nat, gridY: nat, springs0: seq<IndexPair>, internalSprings0: seq<IndexPair>)
    returns (springs: seq<IndexPair>, internalSprings: seq<IndexPair>)
    requires 0 <= x <= gridX && 0 <= y <= gridY && i == GridIndex(x, y, gridX + 1)
    requires GridSpringsSoFar(springs0, internalSprings0, gridX, gridY)
    ensures GridSpringsSoFar(springs, internalSprings, gridX, gridY)
  {
    springs, internalSprings := springs0, internalSprings0;
    // To the right
    if x != gridX {
      springs, internalSprings := SpringRight(i, x, y, gridX, gridY, springs, internalSprings);
    }
    // Diagonal down and to the right
    if x != gridX && y != gridY {
      NextRow(x + 1, y, gridX + 1);
      CellPair(x, y, x + 1, y + 1, gridX, gridY);
      internalSprings := internalSprings + [IndexPair(i, i + gridX + 2)];
    }
    // Diagonal down and to the left
    if x != 0 && y != gridY {
      NextRow(x - 1, y, gridX + 1);
      CellPair(x, y, x - 1, y + 1, gridX, gridY);
      internalSprings := internalSprings + [IndexPair(i, i + gridX)];
    }
    // Down
    if y != gridY {
      springs, internalSprings := SpringDown(i, x, y, gridX, gridY, springs, internalSprings);
    }
  }

  /** The spring to the right neighbour: a boundary spring on the top and bottom rows, directed left to right on the top row. */
  method SpringRight(i: int, x: int, y: int, gridX: nat, gridY: nat, springs0: seq<IndexPair>, internalSprings0: seq<IndexPair>)
    returns (springs: seq<IndexPair>, internalSprings: seq<IndexPair>)
    requires 0 <= x < gridX && 0 <= y <= gridY && i == GridIndex(x, y, gridX + 1)
    requires GridSpringsSoFar(springs0, internalSprings0, gridX, gridY)
    ensures GridSpringsSoFar(springs, internalSprings, gridX, gridY)
  {
    springs, internalSprings := springs0, internalSprings0;
    CellPair(x, y, x + 1, y, gridX, gridY);
    CellPair(x + 1, y, x, y, gridX, gridY);
    var spr := if y == 0 then IndexPair(i, i + 1) else IndexPair(i + 1, i);
    if y == 0 || y == gridY {
      springs := springs + [spr];
    } else {
      internalSprings := internalSprings + [spr];
    }
  }

  /** The spring to the neighbour below: a boundary spring on the outer columns, directed upwards on the left column. */
  method SpringDown(i: int, x: int, y: int, gridX: nat, gridY: nat, springs0: seq<IndexPair>, internalSprings0: seq<IndexPair>)
    returns (springs: seq<IndexPair>, internalSprings: seq<IndexPair>)
    requires 0 <= x <= gridX && 0 <= y < gridY && i == GridIndex(x, y, gridX + 1)
    requires GridSpringsSoFar(springs0, internalSprings0, gridX, gridY)
    ensures GridSpringsSoFar(springs, internalSprings, gridX, gridY)
  {
    springs, internalSprings := springs0, internalSprings0;
    NextRow(x, y, gridX + 1);
    CellPair(x, y, x, y + 1, gridX, gridY);
    CellPair(x, y + 1, x, y, gridX, gridY);
    var spr := if x == 0 then IndexPair(i + gridX + 1, i) else IndexPair(i, i + gridX + 1);
    if x == 0 || x == gridX {
      springs := springs + [spr];
    } else {
      internalSprings := internalSprings + [spr];
    }
  }

  /** Each spring, the last excepted, ends where the next one starts. */
  predicate ChainedBeforeLast(s: seq<IndexPair>)
  {
    forall k :: 0 <= k && k + 2 < |s| ==> s[k].second == s[k + 1].first
  }

  /** Each spring ends where the next one starts. */
  predicate Chained(s: seq<IndexPair>)
  {
    forall k :: 0 <= k && k + 1 < |s| ==> s[k].second == s[k + 1].first
  }

  /**
   * The loop that orders the boundary springs head to tail: starting from the
   * first spring, it repeatedly appends the first remaining spring that starts
   * where the chain ends; the last remaining spring is appended unchecked, and
   * the loop gives up after |springList|^2 rounds.
   */
  method OrderSprings(springList: seq<IndexPair>) returns (ordered: seq<IndexPair>)
    ensures springList == [] ==> ordered == []
    ensures springList != [] ==> |ordered| >= 1 && ordered[0] == springList[0]
    ensures multiset(ordered) <= multiset(springList)
    ensures ChainedBeforeLast(ordered)
  {
    if |springList| == 0 {
      return [];
    }
    var temp := springList[1..];
    assert springList == [springList[0]] + temp;
    ordered := [springList[0]];
    var limit := |springList| * |springList|;
    var loopCount := 0;
    while |temp| > 0
      invariant 0 <= loopCount <= limit + 1
      invariant |ordered| >= 1 && ordered[0] == springList[0]
      invariant multiset(ordered) + multiset(temp) == multiset(springList)
      invariant Chained(ordered)
      decreases limit + 1 - loopCount
    {
      if |temp| == 1 {
        assert temp == [temp[0]];
        ordered := ordered + [temp[0]];
        temp := [];
        break;
      }
      ordered, temp := AppendNext(ordered, temp);
      if loopCount > limit {
        break;
      }
      loopCount := loopCount + 1;
    }
  }

  /** One round of the ordering loop: the first remaining spring that continues the chain moves over to it. */
  method AppendNext(ordered0: seq<IndexPair>, temp0: seq<IndexPair>) returns (ordered: seq<IndexPair>, temp: seq<IndexPair>)
    requires |ordered0| >= 1 && Chained(ordered0)
    ensures |ordered| >= 1 && ordered[0] == ordered0[0] && Chained(ordered)
    ensures multiset(ordered) + multiset(temp) == multiset(ordered0) + multiset(temp0)
  {
    ordered, temp := ordered0, temp0;
    var i := FindNext(ordered[|ordered| - 1].second, temp);
    if i >= 0 {
      assert temp0 == temp0[..i] + [temp0[i]] + temp0[i + 1..];
      ordered := ordered + [temp[i]];
      temp := temp[..i] + temp[i + 1..];
      assert multiset(temp0) == multiset(temp) + multiset{temp0[i]};
    }
  }

  /** The search loop of the ordering: the first remaining spring that starts at `last`, or -1. */
  method FindNext(last: int, temp: seq<IndexPair>) returns (i: int)
    ensures -1 <= i < |temp|
    ensures 0 <= i ==> temp[i].first == last && forall j :: 0 <= j < i ==> temp[j].first != last
    ensures i == -1 ==> forall j :: 0 <= j < |temp| ==> temp[j].first != last
  {
    i := 0;
    while i < |temp|
      invariant 0 <= i <= |temp|
      invariant forall j :: 0 <= j < i ==> temp[j].first != last
    {
      if last == temp[i].first {
        return;
      }
      i := i + 1;
    }
    i := -1;
  }

  /** The polygon loop: the start particle of each ordered boundary spring. */
  method FirstsOf(ordered: seq<IndexPair>) returns (polygon: seq<int>)
    ensures |polygon| == |ordered| && forall k :: 0 <= k < |ordered| ==> polygon[k] == ordered[k].first
  {
    polygon := [];
    var i := 0;
    while i < |ordered|
      invariant 0 <= i <= |ordered|
      invariant |polygon| == i && forall k :: 0 <= k < i ==> polygon[k] == ordered[k].first
    {
      polygon := polygon + [ordered[i].first];
      i := i + 1;
    }
  }

  // ---------------------------------------------------------------- regular polygon

  /** The point at `angle` on the circle of radius `r` around `center`. */
  function PolarPoint(num: Numerics, center: Vec, r: real, angle: real): Vec
  {
    Add(center, Scale(Vec(num.cos(angle), num.sin(angle)), r))
  }

  /** Boundary particle k of a polygon with sideCount sides. */
  function BoundaryPoint(num: Numerics, center: Vec, radius: real, sideCount: int, k: int): Vec
    requires sideCount != 0
  {
    PolarPoint(num, center, radius, AnglePart(sideCount) * k as real)
  }

  /** The angle between two neighbouring boundary particles. */
  function AnglePart(sideCount: int): real
    requires sideCount != 0
  {
    (PI * 2.0) / sideCount as real
  }

  /** The construction springs of boundary particle i: to the particles two steps back and two steps ahead. */
  function ConstructionSprings(i: int, pc: int): seq<IndexPair>
    requires pc > 0
  {
    [IndexPair((i - 2 + pc) % pc, i), IndexPair(i, (i + 2) % pc)]
  }

  /**
   * GeneratePolygonMeshData. Boundary particles 0 .. sideCount - 1 sit on the
   * circle, form the single polygon and are joined in a ring; with polarGrid >= 0
   * every boundary particle gets two construction springs; with polarGrid > 0,
   * polarGrid - 1 inner rings of internal particles and a centre particle follow.
   * (For a single side, (i - 2 + pc) % pc is -1 % 1, which is 0 under both C++
   * and Euclidean remainder.)
   */
  method GeneratePolygonMeshData(num: Numerics, radius: real, sideCount: int, centerPosition: Vec,
                                 polarGrid: int, particleRadius: real) returns (res: MeshData)
    requires 1 <= sideCount
    ensures WellIndexed(res)
    ensures |res.particlePositions| == if polarGrid > 0 then sideCount * polarGrid + 1 else sideCount
    ensures forall i :: 0 <= i < sideCount ==>
      res.particlePositions[i] == BoundaryPoint(num, centerPosition, radius, sideCount, i) && !res.particleInternalValues[i]
    ensures forall k :: sideCount <= k < |res.particleInternalValues| ==> res.particleInternalValues[k]
    ensures forall k :: 0 <= k < |res.particleRadValues| ==> res.particleRadValues[k] == particleRadius
    ensures res.closedPolygonList == [Iota(sideCount)]
    ensures |res.springList| == sideCount
    ensures forall i :: 0 <= i < sideCount ==> res.springList[i] == IndexPair(i, (i + 1) % sideCount)
    ensures polarGrid < 0 ==> res.internalSpringList == []
    ensures 0 <= polarGrid ==> |res.internalSpringList| >= 2 * sideCount
    ensures 0 <= polarGrid ==> forall i :: 0 <= i < sideCount ==>
      res.internalSpringList[2 * i .. 2 * i + 2] == ConstructionSprings(i, sideCount)
    ensures polarGrid == 0 ==> |res.internalSpringList| == 2 * sideCount
    ensures 0 < polarGrid ==> res.particlePositions[|res.particlePositions| - 1] == centerPosition
    ensures res.position == Zero() && res.rotation == 0.0
  {
    var anglePart := AnglePart(sideCount);
    var positions, rads, internals, polygon, springs := BoundaryRing(num, centerPosition, radius, sideCount, particleRadius);
    if polarGrid < 0 {
      return MeshData(positions, rads, internals, springs, [], [polygon], Zero(), 0.0);
    }

    var internalSprings := BoundaryConstructionSprings(sideCount);
    if polarGrid <= 0 {
      return MeshData(positions, rads, internals, springs, internalSprings, [polygon], Zero(), 0.0);
    }

    ghost var boundary := positions;
    positions, rads, internals, internalSprings :=
      InnerRings(num, centerPosition, radius, anglePart, sideCount, polarGrid, particleRadius, positions, rads, internals, internalSprings);
    ghost var springs0 := internalSprings;
    ghost var positions0 := positions;
    positions, rads, internals, internalSprings :=
      CentreParticle(centerPosition, sideCount, particleRadius, positions, rads, internals, internalSprings);
    ExtensionKeepsSlices(springs0, internalSprings, sideCount);
    assert positions[..sideCount] == positions0[..sideCount] == boundary;
    forall i | 0 <= i < sideCount
      ensures positions[i] == BoundaryPoint(num, centerPosition, radius, sideCount, i)
    {
      assert positions[i] == positions[..sideCount][i];
    }
    res := MeshData(positions, rads, internals, springs, internalSprings, [polygon], Zero(), 0.0);
  }

  /** The boundary loop: sideCount particles on the circle, the polygon through them and the ring of springs. */
  method BoundaryRing(num: Numerics, center: Vec, radius: real, sideCount: int, particleRadius: real)
    returns (positions: seq<Vec>, rads: seq<real>, internals: seq<bool>, polygon: seq<int>, springs: seq<IndexPair>)
    requires 1 <= sideCount
    ensures |positions| == sideCount && |rads| == sideCount && |internals| == sideCount && |springs| == sideCount
    ensures polygon == Iota(sideCount)
    ensures forall k :: 0 <= k < sideCount ==> positions[k] == BoundaryPoint(num, center, radius, sideCount, k)
    ensures forall k :: 0 <= k < sideCount ==> !internals[k] && rads[k] == particleRadius
    ensures forall k :: 0 <= k < sideCount ==> springs[k] == IndexPair(k, (k + 1) % sideCount)
  {
    positions, rads, internals, polygon, springs := [], [], [], [], [];
    var i := 0;
    while i < sideCount
      invariant 0 <= i <= sideCount
      invariant |positions| == i && |rads| == i && |internals| == i && |springs| == i && polygon == Iota(i)
      invariant forall k :: 0 <= k < i ==> positions[k] == BoundaryPoint(num, center, radius, sideCount, k)
      invariant forall k :: 0 <= k < i ==> !internals[k] && rads[k] == particleRadius
      invariant forall k :: 0 <= k < i ==> springs[k] == IndexPair(k, (k + 1) % sideCount)
    {
      positions := positions + [BoundaryPoint(num, center, radius, sideCount, i)];
      rads := rads + [particleRadius];
      internals := internals + [false];
      polygon := polygon + [i];
      springs := springs + [IndexPair(i, (i + 1) % sideCount)];
      i := i + 1;
    }
  }

  /**
   * What the ring loop keeps: the per-particle lists stay parallel, the first
   * sideCount particles are the boundary ones, every later particle is
   * internal, every index names a particle and the construction springs stay
   * at the head of the internal springs.
   */
  predicate PolarLayout(positions: seq<Vec>, rads: seq<real>, internals: seq<bool>, internalSprings: seq<IndexPair>,
                        sideCount: int, boundary: seq<Vec>, particleRadius: real)
  {
    1 <= sideCount <= |positions| && |rads| == |positions| && |internals| == |positions|
    && positions[..sideCount] == boundary
    && (forall k :: 0 <= k < sideCount ==> !internals[k])
    && (forall k :: sideCount <= k < |internals| ==> internals[k])
    && (forall k :: 0 <= k < |rads| ==> rads[k] == particleRadius)
    && PairsInRange(internalSprings, |positions|) && |internalSprings| >= 2 * sideCount
    && (forall j :: 0 <= j < sideCount ==> internalSprings[2 * j .. 2 * j + 2] == ConstructionSprings(j, sideCount))
  }

  /** The ring loop: polarGrid - 1 rings of internal particles, from the outermost inwards. */
  method InnerRings(num: Numerics, center: Vec, radius: real, anglePart: real, sideCount: int, polarGrid: int, particleRadius: real,
                    positions0: seq<Vec>, rads0: seq<real>, internals0: seq<bool>, internalSprings0: seq<IndexPair>)
    returns (positions: seq<Vec>, rads: seq<real>, internals: seq<bool>, internalSprings: seq<IndexPair>)
    requires 1 <= polarGrid && |positions0| == sideCount
    requires PolarLayout(positions0, rads0, internals0, internalSprings0, sideCount, positions0, particleRadius)
    ensures |positions| == sideCount * polarGrid
    ensures PolarLayout(positions, rads, internals, internalSprings, sideCount, positions0, particleRadius)
  {
    positions, rads, internals, internalSprings := positions0, rads0, internals0, internalSprings0;
    var radiusPart := radius / polarGrid as real;
    var ring := polarGrid - 1;
    while ring > 0
      invariant 0 <= ring <= polarGrid - 1
      invariant |positions| == sideCount * (polarGrid - ring)
      invariant PolarLayout(positions, rads, internals, internalSprings, sideCount, positions0, particleRadius)
    {
      var curRadius := radiusPart * ring as real;
      positions, rads, internals, internalSprings :=
        OneRing(num, center, curRadius, anglePart, sideCount, particleRadius, positions0, positions, rads, internals, internalSprings);
      assert sideCount * (polarGrid - ring) + sideCount == sideCount * (polarGrid - (ring - 1));
      ring := ring - 1;
    }
  }

  /** One round of the ring loop: the ring's particles, then its cross-bracing springs. */
  method OneRing(num: Numerics, center: Vec, curRadius: real, anglePart: real, sideCount: int, particleRadius: real,
                 boundary: seq<Vec>, positions0: seq<Vec>, rads0: seq<real>, internals0: seq<bool>, internalSprings0: seq<IndexPair>)
    returns (positions: seq<Vec>, rads: seq<real>, internals: seq<bool>, internalSprings: seq<IndexPair>)
    requires PolarLayout(positions0, rads0, internals0, internalSprings0, sideCount, boundary, particleRadius)
    ensures |positions| == |positions0| + sideCount
    ensures PolarLayout(positions, rads, internals, internalSprings, sideCount, boundary, particleRadius)
  {
    positions, rads, internals, internalSprings :=
      RingParticles(num, center, curRadius, anglePart, sideCount, particleRadius, positions0, rads0, internals0, internalSprings0);
    ghost var springs1 := internalSprings;
    internalSprings := RingSprings(sideCount, |positions|, internalSprings);
    assert internalSprings[..|internalSprings0|] == springs1[..|internalSprings0|] == internalSprings0;
    ExtensionKeepsSlices(internalSprings0, internalSprings, sideCount);
    assert positions[..sideCount] == positions[..|positions0|][..sideCount];
    forall k | 0 <= k < sideCount
      ensures !internals[k]
    {
      assert internals[k] == internals[..|positions0|][k];
    }
    forall k | 0 <= k < |rads|
      ensures rads[k] == particleRadius
    {
      if k < |positions0| {
        assert rads[k] == rads[..|positions0|][k];
      }
    }
    forall k | sideCount <= k < |internals|
      ensures internals[k]
    {
      if k < |positions0| {
        assert internals[k] == internals[..|positions0|][k];
      }
    }
  }

  /** The construction-spring loop: two springs per boundary particle, in particle order. */
  method BoundaryConstructionSprings(pc: int) returns (internalSprings: seq<IndexPair>)
    requires 1 <= pc
    ensures |internalSprings| == 2 * pc && PairsInRange(internalSprings, pc)
    ensures forall j :: 0 <= j < pc ==> internalSprings[2 * j .. 2 * j + 2] == ConstructionSprings(j, pc)
  {
    internalSprings := [];
    var i := 0;
    while i < pc
      invariant 0 <= i <= pc
      invariant |internalSprings| == 2 * i && PairsInRange(internalSprings, pc)
      invariant forall j :: 0 <= j < i ==> internalSprings[2 * j .. 2 * j + 2] == ConstructionSprings(j, pc)
    {
      ghost var old_ := internalSprings;
      internalSprings := internalSprings + ConstructionSprings(i, pc);
      forall j | 0 <= j < i
        ensures internalSprings[2 * j .. 2 * j + 2] == ConstructionSprings(j, pc)
      {
        assert internalSprings[2 * j .. 2 * j + 2] == old_[2 * j .. 2 * j + 2];
      }
      assert internalSprings[2 * i .. 2 * i + 2] == ConstructionSprings(i, pc);
      i := i + 1;
    }
  }

  /** Springs appended after the construction springs leave each construction-spring slice in place. */
  lemma ExtensionKeepsSlices(s: seq<IndexPair>, t: seq<IndexPair>, pc: int)
    requires 1 <= pc && |s| >= 2 * pc && |t| >= |s| && t[..|s|] == s
    requires forall j :: 0 <= j < pc ==> s[2 * j .. 2 * j + 2] == ConstructionSprings(j, pc)
    ensures forall j :: 0 <= j < pc ==> t[2 * j .. 2 * j + 2] == ConstructionSprings(j, pc)
  {
    forall j | 0 <= j < pc
      ensures t[2 * j .. 2 * j + 2] == ConstructionSprings(j, pc)
    {
      assert t[2 * j .. 2 * j + 2] == t[..|s|][2 * j .. 2 * j + 2];
    }
  }

  /**
   * The inner loop of one ring: sideCount internal particles on a circle of
   * radius `curRadius`, each after the first sprung to its predecessor, and
   * the ring closed from its last particle back to its first.
   */
  method RingParticles(num: Numerics, center: Vec, curRadius: real, anglePart: real, sideCount: int, particleRadius: real,
                       positions0: seq<Vec>, rads0: seq<real>, internals0: seq<bool>, internalSprings0: seq<IndexPair>)
    returns (positions: seq<Vec>, rads: seq<real>, internals: seq<bool>, internalSprings: seq<IndexPair>)
    requires 1 <= sideCount <= |positions0|
    requires |rads0| == |positions0| && |internals0| == |positions0|
    requires PairsInRange(internalSprings0, |positions0|)
    ensures |positions| == |positions0| + sideCount && |rads| == |positions| && |internals| == |positions|
    ensures positions[..|positions0|] == positions0 && internals[..|positions0|] == internals0
    ensures rads[..|positions0|] == rads0
    ensures forall k :: |positions0| <= k < |positions| ==> internals[k] && rads[k] == particleRadius
    ensures PairsInRange(internalSprings, |positions|)
    ensures |internalSprings| >= |internalSprings0| && internalSprings[..|internalSprings0|] == internalSprings0
  {
    positions, rads, internals, internalSprings := positions0, rads0, internals0, internalSprings0;
    var n := 0;
    while n < sideCount
      invariant 0 <= n <= sideCount
      invariant |positions| == |positions0| + n && |rads| == |positions| && |internals| == |positions|
      invariant positions[..|positions0|] == positions0 && internals[..|positions0|] == internals0
      invariant rads[..|positions0|] == rads0
      invariant forall k :: |positions0| <= k < |positions| ==> internals[k] && rads[k] == particleRadius
      invariant PairsInRange(internalSprings, |positions|)
      invariant |internalSprings| >= |internalSprings0| && internalSprings[..|internalSprings0|] == internalSprings0
    {
      positions := positions + [PolarPoint(num, center, curRadius, anglePart * n as real)];
      rads := rads + [particleRadius];
      internals := internals + [true];
      if n != 0 {
        internalSprings := internalSprings + [IndexPair(|positions| - 2, |positions| - 1)];
      }
      n := n + 1;
    }
    internalSprings := internalSprings + [IndexPair(|positions| - 1, |positions| - sideCount)];
  }

  /**
   * The internal-spring loop of one ring: each particle of the newest ring
   * (the last sideCount particles) is cross-braced with its neighbour and the
   * two matching particles of the ring before it.
   */
  method RingSprings(sideCount: int, size: int, internalSprings0: seq<IndexPair>) returns (internalSprings: seq<IndexPair>)
    requires 1 <= sideCount && 2 * sideCount <= size
    requires PairsInRange(internalSprings0, size)
    ensures PairsInRange(internalSprings, size)
    ensures |internalSprings| >= |internalSprings0| && internalSprings[..|internalSprings0|] == internalSprings0
  {
    internalSprings := internalSprings0;
    var n := size - sideCount;
    while n < size
      invariant size - sideCount <= n <= size
      invariant PairsInRange(internalSprings, size)
      invariant |internalSprings| >= |internalSprings0| && internalSprings[..|internalSprings0|] == internalSprings0
    {
      var a := n - sideCount;
      var b := if n == size - 1 then size - sideCount * 2 else n - (sideCount - 1);
      var c := if n == size - 1 then size - sideCount else n + 1;
      var d := n;
      internalSprings := internalSprings + [IndexPair(d, a), IndexPair(d, b), IndexPair(c, a), IndexPair(c, b)];
      n := n + 1;
    }
  }

  /** The centre particle, internal, sprung to every particle of the innermost ring. */
  method CentreParticle(center: Vec, sideCount: int, particleRadius: real,
                        positions0: seq<Vec>, rads0: seq<real>, internals0: seq<bool>, internalSprings0: seq<IndexPair>)
    returns (positions: seq<Vec>, rads: seq<real>, internals: seq<bool>, internalSprings: seq<IndexPair>)
    requires 1 <= sideCount <= |positions0|
    requires |rads0| == |positions0| && |internals0| == |positions0|
    requires PairsInRange(internalSprings0, |positions0|)
    ensures positions == positions0 + [center] && rads == rads0 + [particleRadius] && internals == internals0 + [true]
    ensures PairsInRange(internalSprings, |positions|)
    ensures |internalSprings| >= |internalSprings0| && internalSprings[..|internalSprings0|] == internalSprings0
  {
    positions, rads, internals := positions0 + [center], rads0 + [particleRadius], internals0 + [true];
    internalSprings := internalSprings0;
    var i := |positions| - sideCount - 1;
    while i < |positions| - 1
      invariant |positions| - sideCount - 1 <= i <= |positions| - 1
      invariant PairsInRange(internalSprings, |positions|)
      invariant |internalSprings| >= |internalSprings0| && internalSprings[..|internalSprings0|] == internalSprings0
    {
      internalSprings := internalSprings + [IndexPair(|positions| - 1, i)];
      i := i + 1;
    }
  }
}
