/**
  Cube coordinates and orientation of a hexagonal grid.

  A hexagon's position is a cube coordinate (x, y, z) with x + y + z == 0; only x and z
  are stored, y is derived.  The offset-to-cube conversion of the library is not part of
  this model: the two converters are passed around as a pair of function values.
 */
module Coord {

  /** The two orientations of a hexagon: flat edge up, or pointed vertex up. */
  datatype Orientation = FlatTop | PointyTop

  /** A cube coordinate, compared structurally by its two stored axes. */
  datatype CubeCoordinate = CubeCoordinate(gridX: int, gridZ: int)
  {
    /** The derived third axis. */
    function GridY(): (y: int)
      ensures gridX + y + gridZ == 0
    {
      -gridX - gridZ
    }
  }

  /**
    The offset-to-cube converters (column, row, orientation) -> axis value.  Their formulas
    live outside this model, so every operation that needs them takes them as a parameter.
   */
  datatype Converter = Converter(
    toCubeX: (int, int, Orientation) -> int,
    toCubeZ: (int, int, Orientation) -> int)

  /** The cube coordinate of the offset cell (col, row). */
  function FromOffset(conv: Converter, col: int, row: int, orientation: Orientation): CubeCoordinate
  {
    CubeCoordinate(conv.toCubeX(col, row, orientation), conv.toCubeZ(col, row, orientation))
  }

  /** Row-major order on coordinates: by z first, then by x. */
  predicate Precedes(a: CubeCoordinate, b: CubeCoordinate)
  {
    a.gridZ < b.gridZ || (a.gridZ == b.gridZ && a.gridX < b.gridX)
  }

  /** A sequence strictly increasing in row-major order. */
  predicate RowMajor(s: seq<CubeCoordinate>)
  {
    forall i, j :: 0 <= i < j < |s| ==> Precedes(s[i], s[j])
  }

  /** No element occurs twice. */
  predicate Distinct<T(==)>(s: seq<T>)
  {
    forall i, j :: 0 <= i < j < |s| ==> s[i] != s[j]
  }

  lemma RowMajorIsDistinct(s: seq<CubeCoordinate>)
    requires RowMajor(s)
    ensures Distinct(s)
  {
  }

  function Abs(n: int): nat
  {
    if n < 0 then -n else n
  }

  function Max(a: int, b: int): int
  {
    if a < b then b else a
  }

  function Min(a: int, b: int): int
  {
    if a < b then a else b
  }

  /** The usual hex-grid distance: the largest of the three cube-axis differences. */
  function Distance(a: CubeCoordinate, b: CubeCoordinate): nat
  {
    Max(Max(Abs(a.gridX - b.gridX), Abs(a.GridY() - b.GridY())), Abs(a.gridZ - b.gridZ))
  }
}
