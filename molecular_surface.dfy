/** The debug view of the molecular surface: the cells of the signed
    distance grid that lie inside the molecule become points at their
    centres. The grid itself is filled on the GPU and is given here as the
    list of its values, one per cell, in cell order. */
module MolecularSurface {
  import opened Geometry

  const BoxSize: real := 20.0
  const GridResolution: nat := 200
  const CellsPerPlane: nat := GridResolution * GridResolution
  const CellCount: nat := GridResolution * GridResolution * GridResolution

  /** Where a cell sits in the grid: its plane (z), row (y) and column (x). */
  datatype CellIndex = CellIndex(plane: int, row: int, column: int)

  /** The index arithmetic of `getCellCenterFrom(cellID:)`: full planes,
      then full rows of the last plane, then the cells of the last row. */
  function Decompose(cellID: nat): CellIndex {
    var fullPlanes := cellID / CellsPerPlane;
    var cellsInFullPlanes := fullPlanes * CellsPerPlane;
    var fullRows := (cellID - cellsInFullPlanes) / GridResolution;
    var cellsInFullRows := fullRows * GridResolution;
    CellIndex(fullPlanes, fullRows, cellID - cellsInFullPlanes - cellsInFullRows)
  }

  /** Every cell of the grid has a plane, row and column within the grid,
      and they give back its id. */
  lemma {:induction false} DecomposeInverts(cellID: nat)
    requires cellID < CellCount
    ensures var c := Decompose(cellID);
      && 0 <= c.plane < GridResolution && 0 <= c.row < GridResolution && 0 <= c.column < GridResolution
      && cellID == c.plane * CellsPerPlane + c.row * GridResolution + c.column
  {
    var fullPlanes := cellID / 40000;
    var rest := cellID - fullPlanes * 40000;
    assert 0 <= rest < 40000;
    var fullRows := rest / 200;
    assert 0 <= rest - fullRows * 200 < 200;
  }

  /** Different cells have different grid positions. */
  lemma {:induction false} DecomposeInjective(a: nat, b: nat)
    requires a < CellCount && b < CellCount && Decompose(a) == Decompose(b)
    ensures a == b
  {
    DecomposeInverts(a);
    DecomposeInverts(b);
  }

  const CellSize: real := BoxSize / (GridResolution as real)

  /** A centre coordinate of the cell at `index` along one axis. */
  function Coordinate(index: int): real {
    (index as real) * CellSize + CellSize / 2.0 - BoxSize / 2.0
  }

  /** `getCellCenterFrom(cellID:)`. */
  function CellCenter(cellID: nat): Vec3 {
    var c := Decompose(cellID);
    Vec3(Coordinate(c.column), Coordinate(c.row), Coordinate(c.plane))
  }

  /** For a cell of the grid each coordinate lies strictly inside the box
      `(-BoxSize / 2, BoxSize / 2)`, half a cell from its walls at most. */
  lemma {:induction false} CentreInsideBox(index: int)
    requires 0 <= index < GridResolution
    ensures -BoxSize / 2.0 < Coordinate(index) < BoxSize / 2.0
    ensures -BoxSize / 2.0 + CellSize / 2.0 <= Coordinate(index) <= BoxSize / 2.0 - CellSize / 2.0
  {
    assert CellSize == 0.1;
    assert Coordinate(index) == (index as real) * 0.1 + 0.05 - 10.0;
  }

  /** The ids of the cells among the first `n` whose distance is negative,
      in increasing order. */
  function InsideIds(sdf: seq<real>, n: nat): seq<nat>
    requires n <= |sdf|
  {
    if n == 0 then []
    else InsideIds(sdf, n - 1) + (if sdf[n - 1] < 0.0 then [n - 1] else [])
  }

  /** The inside cells are exactly the cells with a negative value, listed
      once each and in increasing order. */
  lemma {:induction false} InsideIdsAreInsideCells(sdf: seq<real>, n: nat)
    requires n <= |sdf|
    ensures forall k :: 0 <= k < |InsideIds(sdf, n)| ==> InsideIds(sdf, n)[k] < n && sdf[InsideIds(sdf, n)[k]] < 0.0
    ensures forall k, l :: 0 <= k < l < |InsideIds(sdf, n)| ==> InsideIds(sdf, n)[k] < InsideIds(sdf, n)[l]
    ensures forall id :: 0 <= id < n && sdf[id] < 0.0 ==> id in InsideIds(sdf, n)
  {
    if n > 0 {
      InsideIdsAreInsideCells(sdf, n - 1);
    }
  }

  /** `debugCreatePointsFromSDFGrid(sdfBuffer:)`: every cell is visited in
      id order and the centre of each inside cell is kept. The buffer is
      read for every cell of the grid, so it must hold that many values. */
  method DebugCreatePointsFromSdfGrid(sdf: seq<real>) returns (points: seq<Vec3>)
    requires |sdf| >= CellCount
    ensures |points| == |InsideIds(sdf, CellCount)|
    ensures forall k :: 0 <= k < |points| ==> points[k] == CellCenter(InsideIds(sdf, CellCount)[k])
  {
    points := [];
    var cellID := 0;
    while cellID < GridResolution * GridResolution * GridResolution
      invariant 0 <= cellID <= CellCount
      invariant |points| == |InsideIds(sdf, cellID)|
      invariant forall k :: 0 <= k < |points| ==> points[k] == CellCenter(InsideIds(sdf, cellID)[k])
    {
      if sdf[cellID] < 0.0 {
        var cellCenter := CellCenter(cellID);
        points := points + [cellCenter];
      }
      cellID := cellID + 1;
    }
  }
}
