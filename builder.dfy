/**
  Grid assembly (src/mixite/builder.py).

  Each build operation makes the shared grid data, validates the size with its shape's
  strategy, and only then creates the grid, fills it with one hexagon per enumerated
  coordinate and wraps the result.  The grid, its storage, the hexagons and the calculator
  are classes of the library whose internals are not part of this model: they are kept to
  the fields the assembly touches.  The storage is a map from coordinate to hexagon that
  the grid owns, and a validation failure is returned as `Raised` instead of thrown.
 */
module Builder {
  import opened Coord
  import Layout

  /** The metadata every hexagon of one grid shares by reference. */
  class GridData {
    const orientation: Orientation
    const radius: real
    const width: int
    const height: int

    constructor (orientation: Orientation, radius: real, width: int, height: int)
      ensures this.orientation == orientation && this.radius == radius
      ensures this.width == width && this.height == height
    {
      this.orientation := orientation;
      this.radius := radius;
      this.width := width;
      this.height := height;
    }
  }

  /** One hexagon: the shared grid data and its coordinate. */
  class HexagonImpl {
    const gridData: GridData
    const coordinate: CubeCoordinate

    constructor (gridData: GridData, coordinate: CubeCoordinate)
      ensures this.gridData == gridData && this.coordinate == coordinate
    {
      this.gridData := gridData;
      this.coordinate := coordinate;
    }
  }

  /** The grid: its ordered hexagon list and its storage keyed by coordinate. */
  class HexagonGridImpl {
    const gridData: GridData
    var hexagons: seq<HexagonImpl>
    var storage: map<CubeCoordinate, HexagonImpl>

    /** A new grid over a new, empty storage. */
    constructor (gridData: GridData)
      ensures this.gridData == gridData && hexagons == [] && storage == map[]
    {
      this.gridData := gridData;
      hexagons := [];
      storage := map[];
    }
  }

  /** The pixel calculator of a grid; only its reference to the grid is modelled. */
  class HexagonGridCalculator {
    const grid: HexagonGridImpl

    constructor (grid: HexagonGridImpl)
      ensures this.grid == grid
    {
      this.grid := grid;
    }
  }

  /** What a build returns: the grid, its calculator and the grid data. */
  class GridControl {
    const hexGrid: HexagonGridImpl
    const calculator: HexagonGridCalculator
    const gridData: GridData

    constructor (hexGrid: HexagonGridImpl, calculator: HexagonGridCalculator, gridData: GridData)
      ensures this.hexGrid == hexGrid && this.calculator == calculator && this.gridData == gridData
    {
      this.hexGrid := hexGrid;
      this.calculator := calculator;
      this.gridData := gridData;
    }
  }

  /** A build either returns its grid control or raises the strategy's validation error. */
  datatype BuildResult = Built(control: GridControl) | Raised(error: Layout.GridLayoutException)

  /** No later element of `s` equals s[i]: position i is the one a map keyed by s keeps. */
  predicate LastOccurrence<T(==)>(s: seq<T>, i: int)
    requires 0 <= i < |s|
  {
    forall j :: i < j < |s| ==> s[j] != s[i]
  }

  /** A sequence without repetitions has as many distinct elements as it has elements. */
  lemma {:induction false} DistinctCardinality<T>(s: seq<T>)
    requires Distinct(s)
    ensures |set c | c in s| == |s|
  {
    if s != [] {
      var n := |s| - 1;
      DistinctCardinality(s[..n]);
      assert (set c | c in s) == (set c | c in s[..n]) + {s[n]};
      assert s[n] !in (set c | c in s[..n]);
    }
  }

  /** build_grid_data: the grid data carries exactly the caller's parameters. */
  method BuildGridData(orientation: Orientation, radius: real, width: int, height: int)
    returns (gridData: GridData)
    ensures fresh(gridData)
    ensures gridData.orientation == orientation && gridData.radius == radius
    ensures gridData.width == width && gridData.height == height
  {
    gridData := new GridData(orientation, radius, width, height);
  }

  /** check_size: delegates to the strategy. */
  method CheckSize(strategy: Layout.Shape, width: int, height: int) returns (outcome: Layout.SizeCheck)
    ensures outcome == Layout.CheckSize(strategy, width, height)
  {
    outcome := Layout.CheckSize(strategy, width, height);
  }

  /** The storage after inserting hexes[i] under coords[i] for each i in order; a later insert wins. */
  function Stored(storage: map<CubeCoordinate, HexagonImpl>, coords: seq<CubeCoordinate>, hexes: seq<HexagonImpl>)
    : map<CubeCoordinate, HexagonImpl>
    requires |coords| == |hexes|
  {
    if coords == [] then storage
    else
      var n := |coords| - 1;
      Stored(storage, coords[..n], hexes[..n])[coords[n] := hexes[n]]
  }

  /** Inserting keeps every old key and adds exactly the inserted coordinates. */
  lemma {:induction false} StoredKeys(storage: map<CubeCoordinate, HexagonImpl>,
                                      coords: seq<CubeCoordinate>, hexes: seq<HexagonImpl>)
    requires |coords| == |hexes|
    ensures Stored(storage, coords, hexes).Keys == storage.Keys + (set c | c in coords)
  {
    if coords != [] {
      var n := |coords| - 1;
      StoredKeys(storage, coords[..n], hexes[..n]);
      assert coords == coords[..n] + [coords[n]];
      assert (set c | c in coords) == (set c | c in coords[..n]) + {coords[n]};
    }
  }

  /** An old entry whose key is not inserted stays as it was. */
  lemma {:induction false} StoredKeepsOthers(storage: map<CubeCoordinate, HexagonImpl>,
                                             coords: seq<CubeCoordinate>, hexes: seq<HexagonImpl>,
                                             c: CubeCoordinate)
    requires |coords| == |hexes|
    requires c in storage && c !in coords
    ensures c in Stored(storage, coords, hexes) && Stored(storage, coords, hexes)[c] == storage[c]
  {
    if coords != [] {
      var n := |coords| - 1;
      assert c !in coords[..n];
      StoredKeepsOthers(storage, coords[..n], hexes[..n], c);
    }
  }

  /** Each inserted coordinate maps to the hexagon inserted at its last occurrence. */
  lemma {:induction false} StoredLast(storage: map<CubeCoordinate, HexagonImpl>,
                                      coords: seq<CubeCoordinate>, hexes: seq<HexagonImpl>, i: int)
    requires |coords| == |hexes| && 0 <= i < |coords| && LastOccurrence(coords, i)
    ensures coords[i] in Stored(storage, coords, hexes)
    ensures Stored(storage, coords, hexes)[coords[i]] == hexes[i]
  {
    var n := |coords| - 1;
    if i < n {
      assert coords[n] != coords[i];
      assert LastOccurrence(coords[..n], i);
      StoredLast(storage, coords[..n], hexes[..n], i);
    }
  }

  /**
    Inserting keeps every old key, adds exactly the inserted coordinates, leaves the other
    old entries alone and maps each coordinate to the hexagon of its last occurrence.
   */
  lemma StoredEntries(storage: map<CubeCoordinate, HexagonImpl>,
                      coords: seq<CubeCoordinate>, hexes: seq<HexagonImpl>)
    requires |coords| == |hexes|
    ensures Stored(storage, coords, hexes).Keys == storage.Keys + (set c | c in coords)
    ensures forall c :: c in storage && c !in coords ==> Stored(storage, coords, hexes)[c] == storage[c]
    ensures forall i :: 0 <= i < |coords| && LastOccurrence(coords, i) ==>
      Stored(storage, coords, hexes)[coords[i]] == hexes[i]
  {
    StoredKeys(storage, coords, hexes);
    forall c | c in storage && c !in coords
      ensures Stored(storage, coords, hexes)[c] == storage[c]
    {
      StoredKeepsOthers(storage, coords, hexes, c);
    }
    forall i | 0 <= i < |coords| && LastOccurrence(coords, i)
      ensures Stored(storage, coords, hexes)[coords[i]] == hexes[i]
    {
      StoredLast(storage, coords, hexes, i);
    }
  }

  lemma StoredAppend(storage: map<CubeCoordinate, HexagonImpl>, coords: seq<CubeCoordinate>,
                     hexes: seq<HexagonImpl>, c: CubeCoordinate, h: HexagonImpl)
    requires |coords| == |hexes|
    ensures Stored(storage, coords + [c], hexes + [h]) == Stored(storage, coords, hexes)[c := h]
  {
    assert (coords + [c])[..|coords|] == coords;
    assert (hexes + [h])[..|hexes|] == hexes;
  }

  /**
    populate_storage: one new hexagon per coordinate, in order, appended to the list and
    inserted into the storage under its coordinate.
   */
  method PopulateStorage(grid: HexagonGridImpl, gridData: GridData, coords: seq<CubeCoordinate>)
    modifies grid
    ensures |grid.hexagons| == |old(grid.hexagons)| + |coords|
    ensures grid.hexagons[..|old(grid.hexagons)|] == old(grid.hexagons)
    ensures forall i :: |old(grid.hexagons)| <= i < |grid.hexagons| ==>
      fresh(grid.hexagons[i]) && grid.hexagons[i].gridData == gridData &&
      grid.hexagons[i].coordinate == coords[i - |old(grid.hexagons)|]
    ensures forall i, j :: |old(grid.hexagons)| <= i < j < |grid.hexagons| ==> grid.hexagons[i] != grid.hexagons[j]
    ensures grid.storage == Stored(old(grid.storage), coords, grid.hexagons[|old(grid.hexagons)|..])
  {
    ghost var added: seq<HexagonImpl> := [];
    for k := 0 to |coords|
      invariant |added| == k
      invariant grid.hexagons == old(grid.hexagons) + added
      invariant forall i :: 0 <= i < k ==>
        fresh(added[i]) && added[i].gridData == gridData && added[i].coordinate == coords[i]
      invariant Distinct(added)
      invariant grid.storage == Stored(old(grid.storage), coords[..k], added)
    {
      var coord := coords[k];
      var hexagon := new HexagonImpl(gridData, coord);
      grid.storage := grid.storage[coord := hexagon];
      grid.hexagons := grid.hexagons + [hexagon];
      StoredAppend(old(grid.storage), coords[..k], added, coord, hexagon);
      assert coords[..k + 1] == coords[..k] + [coord];
      added := added + [hexagon];
    }
    assert coords[..|coords|] == coords;
    assert grid.hexagons[|old(grid.hexagons)|..] == added;
  }

  /**
    The state populate_storage leaves in a new grid: every hexagon shares the grid data;
    the hexagons are the coordinates one-for-one and in order; the storage has exactly those
    coordinates as keys, each mapped to the hexagon made for its last occurrence.
   */
  ghost predicate Populated(hexagons: seq<HexagonImpl>, storage: map<CubeCoordinate, HexagonImpl>,
                            data: GridData, coords: seq<CubeCoordinate>)
  {
    && |hexagons| == |coords|
    && (forall i :: 0 <= i < |coords| ==>
          hexagons[i].coordinate == coords[i] && hexagons[i].gridData == data)
    && storage.Keys == (set c | c in coords)
    && (forall i :: 0 <= i < |coords| && LastOccurrence(coords, i) ==> storage[coords[i]] == hexagons[i])
  }

  /** Populating an empty storage with hexagons made one per coordinate leaves it populated. */
  lemma PopulatedFromEmpty(hexagons: seq<HexagonImpl>, data: GridData, coords: seq<CubeCoordinate>)
    requires |hexagons| == |coords|
    requires forall i :: 0 <= i < |coords| ==>
      hexagons[i].coordinate == coords[i] && hexagons[i].gridData == data
    ensures Populated(hexagons, Stored(map[], coords, hexagons), data, coords)
  {
    StoredEntries(map[], coords, hexagons);
  }

  /** The grid control ties together one grid data with the caller's parameters, its grid and its calculator. */
  ghost predicate Wired(control: GridControl, orientation: Orientation, radius: real, width: int, height: int)
  {
    var data := control.gridData;
    && data.orientation == orientation && data.radius == radius
    && data.width == width && data.height == height
    && control.hexGrid.gridData == data && control.calculator.grid == control.hexGrid
  }

  /**
    The steps every build_* runs with its own strategy: the grid data first, then the size
    check; only when it passes are the grid and its storage created and populated.
   */
  method Build(strategy: Layout.Shape, conv: Converter, orientation: Orientation, radius: real,
               width: int, height: int)
    returns (r: BuildResult)
    ensures r.Raised? <==> Layout.CheckSize(strategy, width, height).Fail?
    ensures r.Raised? ==> r.error == Layout.CheckSize(strategy, width, height).error
    ensures r.Built? ==> fresh(r.control) && fresh(r.control.hexGrid) && fresh(r.control.gridData)
    ensures r.Built? ==> fresh(r.control.calculator)
    ensures r.Built? ==> Layout.CheckSize(strategy, width, height) == Layout.Pass
    ensures r.Built? ==> Wired(r.control, orientation, radius, width, height)
    ensures r.Built? ==> Populated(r.control.hexGrid.hexagons, r.control.hexGrid.storage, r.control.gridData,
                                   Layout.GridCoords(strategy, conv, width, height, orientation))
    ensures r.Built? ==> Distinct(r.control.hexGrid.hexagons)
  {
    var gridData := BuildGridData(orientation, radius, width, height);
    var outcome := CheckSize(strategy, width, height);
    if outcome.Fail? {
      return Raised(outcome.error);
    }
    var grid := NewPopulatedGrid(strategy, conv, gridData, width, height, orientation);
    var calculator := new HexagonGridCalculator(grid);
    var control := new GridControl(grid, calculator, gridData);
    r := Built(control);
  }

  /**
    The passing branch of every build_*: a new grid over a new, empty storage, populated
    with the strategy's coordinates.
   */
  method NewPopulatedGrid(strategy: Layout.Shape, conv: Converter, gridData: GridData,
                          width: int, height: int, orientation: Orientation)
    returns (grid: HexagonGridImpl)
    requires Layout.CheckSize(strategy, width, height) == Layout.Pass
    ensures fresh(grid) && grid.gridData == gridData
    ensures Populated(grid.hexagons, grid.storage, gridData,
                      Layout.GridCoords(strategy, conv, width, height, orientation))
    ensures Distinct(grid.hexagons)
  {
    assert strategy == Layout.Hexagon ==> Layout.HexagonHeight(height);
    grid := new HexagonGridImpl(gridData);
    var coords := Layout.FetchGridCoords(strategy, conv, width, height, orientation);
    PopulateStorage(grid, gridData, coords);
    assert grid.hexagons[0..] == grid.hexagons;
    PopulatedFromEmpty(grid.hexagons, gridData, coords);
  }

  /** build_rectangle: width * height hexagons over the converted offset cells. */
  method BuildRectangle(conv: Converter, orientation: Orientation, radius: real, width: int, height: int)
    returns (r: BuildResult)
    ensures r.Raised? <==> !(width > 0 && height > 0)
    ensures r.Raised? ==> r.error == Layout.CheckSize(Layout.Rectangle, width, height).error
    ensures r.Built? ==> fresh(r.control) && fresh(r.control.hexGrid) && fresh(r.control.gridData)
    ensures r.Built? ==> fresh(r.control.calculator)
    ensures r.Built? ==> Wired(r.control, orientation, radius, width, height)
    ensures r.Built? ==> Populated(r.control.hexGrid.hexagons, r.control.hexGrid.storage, r.control.gridData,
                                   Layout.GridCoords(Layout.Rectangle, conv, width, height, orientation))
    ensures r.Built? ==> Distinct(r.control.hexGrid.hexagons)
    ensures r.Built? ==> |r.control.hexGrid.hexagons| == width * height
    ensures r.Built? && Layout.ConverterInjective(conv, width, height, orientation) ==>
      |r.control.hexGrid.storage| == |r.control.hexGrid.hexagons|
  {
    r := Build(Layout.Rectangle, conv, orientation, radius, width, height);
    if r.Built? {
      Layout.ValidSizeEnumeration(Layout.Rectangle, conv, width, height, orientation);
      if Layout.ConverterInjective(conv, width, height, orientation) {
        Layout.RectangleDistinct(conv, width, height, orientation);
        DistinctCardinality(Layout.GridCoords(Layout.Rectangle, conv, width, height, orientation));
      }
    }
  }

  /** build_hexagon: for side 2k + 1, 3k^2 + 3k + 1 hexagons, each stored under its own coordinate. */
  method BuildHexagon(conv: Converter, orientation: Orientation, radius: real, width: int, height: int)
    returns (r: BuildResult)
    ensures r.Raised? <==> !(width > 0 && width == height && height % 2 == 1)
    ensures r.Raised? ==> r.error == Layout.CheckSize(Layout.Hexagon, width, height).error
    ensures r.Built? ==> fresh(r.control) && fresh(r.control.hexGrid) && fresh(r.control.gridData)
    ensures r.Built? ==> fresh(r.control.calculator)
    ensures r.Built? ==> Wired(r.control, orientation, radius, width, height)
    ensures r.Built? ==> Populated(r.control.hexGrid.hexagons, r.control.hexGrid.storage, r.control.gridData,
                                   Layout.GridCoords(Layout.Hexagon, conv, width, height, orientation))
    ensures r.Built? ==> Distinct(r.control.hexGrid.hexagons)
    ensures r.Built? ==> var k := height / 2;
      |r.control.hexGrid.hexagons| == 3 * k * k + 3 * k + 1 &&
      |r.control.hexGrid.storage| == |r.control.hexGrid.hexagons|
  {
    r := Build(Layout.Hexagon, conv, orientation, radius, width, height);
    if r.Built? {
      Layout.ValidSizeEnumeration(Layout.Hexagon, conv, width, height, orientation);
      DistinctCardinality(Layout.GridCoords(Layout.Hexagon, conv, width, height, orientation));
    }
  }

  /** build_triangle: for side n, n(n + 1) / 2 hexagons, each stored under its own coordinate. */
  method BuildTriangle(conv: Converter, orientation: Orientation, radius: real, width: int, height: int)
    returns (r: BuildResult)
    ensures r.Raised? <==> !(width > 0 && width == height)
    ensures r.Raised? ==> r.error == Layout.CheckSize(Layout.Triangle, width, height).error
    ensures r.Built? ==> fresh(r.control) && fresh(r.control.hexGrid) && fresh(r.control.gridData)
    ensures r.Built? ==> fresh(r.control.calculator)
    ensures r.Built? ==> Wired(r.control, orientation, radius, width, height)
    ensures r.Built? ==> Populated(r.control.hexGrid.hexagons, r.control.hexGrid.storage, r.control.gridData,
                                   Layout.GridCoords(Layout.Triangle, conv, width, height, orientation))
    ensures r.Built? ==> Distinct(r.control.hexGrid.hexagons)
    ensures r.Built? ==>
      |r.control.hexGrid.hexagons| == height * (height + 1) / 2 &&
      |r.control.hexGrid.storage| == |r.control.hexGrid.hexagons|
  {
    r := Build(Layout.Triangle, conv, orientation, radius, width, height);
    if r.Built? {
      Layout.ValidSizeEnumeration(Layout.Triangle, conv, width, height, orientation);
      DistinctCardinality(Layout.GridCoords(Layout.Triangle, conv, width, height, orientation));
    }
  }

  /** build_trapezoid: width * height hexagons, each stored under its own coordinate. */
  method BuildTrapezoid(conv: Converter, orientation: Orientation, radius: real, width: int, height: int)
    returns (r: BuildResult)
    ensures r.Raised? <==> !(width > 0 && height > 0)
    ensures r.Raised? ==> r.error == Layout.CheckSize(Layout.Trapezoid, width, height).error
    ensures r.Built? ==> fresh(r.control) && fresh(r.control.hexGrid) && fresh(r.control.gridData)
    ensures r.Built? ==> fresh(r.control.calculator)
    ensures r.Built? ==> Wired(r.control, orientation, radius, width, height)
    ensures r.Built? ==> Populated(r.control.hexGrid.hexagons, r.control.hexGrid.storage, r.control.gridData,
                                   Layout.GridCoords(Layout.Trapezoid, conv, width, height, orientation))
    ensures r.Built? ==> Distinct(r.control.hexGrid.hexagons)
    ensures r.Built? ==>
      |r.control.hexGrid.hexagons| == width * height &&
      |r.control.hexGrid.storage| == |r.control.hexGrid.hexagons|
  {
    r := Build(Layout.Trapezoid, conv, orientation, radius, width, height);
    if r.Built? {
      Layout.ValidSizeEnumeration(Layout.Trapezoid, conv, width, height, orientation);
      DistinctCardinality(Layout.GridCoords(Layout.Trapezoid, conv, width, height, orientation));
    }
  }
}
