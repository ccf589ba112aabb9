# Hexagonal grid layouts, modelled in Dafny

This project models the grid-layout core of the mixite hexagonal-grid library. It has two parts.

- **The layout strategies.** There are four shapes: rectangle, triangle, trapezoid and hexagon-of-hexagons. For each shape, `check_size` decides whether a (width, height) pair is legal and raises a `GridLayoutException` when it is not. `fetch_grid_coords` lists, row by row, the cube coordinates `(x, z)` that make up the shape. `get_name` returns the shape tag.
- **The grid builder.** Each `build_*` operation first creates the shared grid data and then validates the size with its shape's strategy. Only when the check passes does it create the grid, add one hexagon per enumerated coordinate to the grid's ordered list and to its storage, and return a `GridControl`.

Modules:

- `Coord` (coord.dfy) holds stand-ins for what the layouts use from `mixite/coord.py`, which is not part of this model: cube coordinates compared by value, an `Orientation` datatype in place of the orientation string that the library compares with `CubeCoordinate.FLAT_TOP` (src/mixite/layout.py:105, 115), and `Converter`, the pair of offset-to-cube conversion functions, taken as a parameter because their formulas are outside this model. The row-major order (`Precedes`, `RowMajor`), `Distinct` and the hex `Distance` are this model's own helpers for stating properties.
- `Rows` (rows.dfy) joins rows in order (`Flatten`). Its lemmas say where each row's elements land in the joined list.
- `Layout` (layout.dfy) holds the four strategies. The abstract strategy class becomes the datatype `Shape`, dispatched by `match`. For each shape it has:
  - a specification function that builds the coordinate list from its rows (`RectangleCoords`, `TrapezoidCoords`, `TriangleCoords`, `HexagonCoords`);
  - a method with the library's nested loops, proved to return exactly that list;
  - lemmas on the specification function giving the count, where each row sits in the list, the order and the set of cells covered.
- `Builder` (builder.dfy) holds `GridData`, `HexagonImpl`, `HexagonGridImpl`, `HexagonGridCalculator` and `GridControl` as classes. Each class keeps only the fields the assembly reads or writes. `populate_storage` is a loop over the grid's `hexagons` sequence and its `storage` map. A validation failure comes back as `Raised(error)` rather than as a thrown exception.

In the hexagon layout, `min_x` is computed once, before the row loop, from the initial `start_x` (src/mixite/layout.py:109, 113), while `start_x` drops by one per row. So row `y` starts at `max(start0 - y, start0 - r)`, which equals `start0 - min(y, r)`.

## Model

| member | source | states |
|---|---|---|
| `Layout.Shape` | src/mixite/layout.py:12-28 | The abstract strategy with its four concrete subclasses becomes a closed datatype of four shapes. Each of `fetch_grid_coords`, `check_size` and `get_name` is a function or method that matches on it. |
| `Layout.Name` | src/mixite/layout.py:48-134 | get_name: RECTANGULAR, TRIANGULAR, TRAPEZOID or HEXAGONAL, by shape (lines 48-49, 72-73, 92-93, 133-134). |
| `Layout.GridLayoutException` | src/mixite/layout.py:7-9 | The validation error carries only its message. |
| `Layout.SizeCheck` | src/mixite/layout.py:18-24 | check_size either returns normally (`Pass`) or raises a `GridLayoutException` (`Fail`). |
| `Layout.SizeMessage` | src/mixite/layout.py:44-131 | The error text of each `raise`: "Attempted to build a grid with invalid size ", then `str(width)`, ", ", `str(height)` and the shape's rule sentence. `str` of a negative number is a minus sign and the digits. |
| `Layout.NameIdentifiesShape` | src/mixite/layout.py:48-134 | The four get_name methods (lines 48-49, 72-73, 92-93, 133-134) give each shape its own tag (RECTANGULAR, TRIANGULAR, TRAPEZOID, HEXAGONAL). Two shapes have the same name exactly when they are the same shape. |
| `Layout.CheckSize` | src/mixite/layout.py:42-131 | Rectangle and trapezoid pass exactly when width > 0 and height > 0. Triangle passes exactly when width > 0 and width == height. Hexagon passes exactly when width > 0, width == height and height is odd. On failure the exception message names the width, the height and the shape's rule. |
| `Layout.HexagonCheckIsOddSide` | src/mixite/layout.py:124-131 | The hexagon check passes exactly when width == height == 2r + 1 for some radius r >= 0. |
| `Layout.CheckSizeExamples` | src/mixite/layout.py:42-131 | (0, 5) and (5, 0) fail for every shape. (3, 4) fails for triangle and hexagon. (3, 5) and (4, 4) fail for hexagon. (5, 5) passes for hexagon and triangle. The rectangle error for (0, 3) carries "0, 3" and "must be larger than zero". |
| `Layout.FetchRectangleCoords` | src/mixite/layout.py:33-40 | The nested loops over y then x return exactly `RectangleCoords`: row y holds the conversions of offset cells (0, y) to (width - 1, y). |
| `Layout.RectangleCount` | src/mixite/layout.py:35-36 | The rectangle has width · height coordinates (none when either size is not positive, since `range` is then empty). |
| `Layout.RectangleAt` | src/mixite/layout.py:35-39 | Row-major order: element y · width + x is `CubeCoordinate(toCubeX(x, y, o), toCubeZ(x, y, o))`. |
| `Layout.RectangleDistinct` | src/mixite/layout.py:33-40 | When the converters send distinct offset cells of the width × height box to distinct coordinates, the rectangle's list has no coordinate twice. |
| `Layout.FetchTrapezoidCoords` | src/mixite/layout.py:78-84 | The loops return exactly `TrapezoidCoords`, which does not depend on the orientation. |
| `Layout.TrapezoidCount` | src/mixite/layout.py:80-81 | The trapezoid has width · height coordinates. |
| `Layout.TrapezoidAt` | src/mixite/layout.py:80-82 | Element z · width + x is (x, z), with no conversion. |
| `Layout.TrapezoidOrderAndCells` | src/mixite/layout.py:78-84 | The list is strictly increasing in row-major order, so no coordinate repeats. A coordinate is in it exactly when 0 <= x < width and 0 <= z < height. |
| `Layout.FetchTriangleCoords` | src/mixite/layout.py:54-62 | The loops return exactly `TriangleCoords(height)`. The width is not used. |
| `Layout.TriangleCount` | src/mixite/layout.py:57-60 | The triangle has height · (height + 1) / 2 coordinates, whatever the width. |
| `Layout.TriangleAt` | src/mixite/layout.py:57-60 | Row z starts at index z · height − z(z − 1)/2 and holds (0, z), (1, z), … in order. |
| `Layout.TriangleRowsAdjoin` | src/mixite/layout.py:58-59 | Row z holds height − z entries: the next row starts height − z places after it. |
| `Layout.TriangleRowSlice` | src/mixite/layout.py:57-60 | On the list itself, the height − z indices from row z's start up to row z + 1's start hold (0, z), (1, z), … in order. |
| `Layout.TriangleOrderAndCells` | src/mixite/layout.py:54-62 | The list is strictly row-major and has no duplicates. A coordinate is in it exactly when x >= 0, z >= 0 and x + z < height. |
| `Layout.FetchHexagonCoords` | src/mixite/layout.py:98-122 | Loop invariants track `start_x`, which drops by one per row, and the fixed `min_x`. With them, the loops return exactly `HexagonCoords(height, o)`. Row y is at z = y − height/4 for flat-top and z = y otherwise. It starts at start0 − min(y, r) and holds 2r + 1 − \|r − y\| consecutive x values. |
| `Layout.StartXRoundsQuarter` | src/mixite/layout.py:108 | For odd positive height, (height + 2) / 4 is the integer nearest height / 4, and never at a tie. So, for heights below 2^53, where height / 4.0 is exact, it is the value `round(grid_size / 4.0)` yields. |
| `Layout.HexagonCount` | src/mixite/layout.py:111-120 | For height 2r + 1 there are 3r² + 3r + 1 coordinates (19 for height 5). |
| `Layout.HexagonAt` | src/mixite/layout.py:111-120 | Element i of row y sits at the row's start index. It is (start0 − min(y, r) + i, y − shift): all x values in a row are consecutive, and the whole row shares one z. |
| `Layout.HexagonRowsAdjoin` | src/mixite/layout.py:112-113 | Row y holds 2r + 1 − \|r − y\| entries: the next row starts that many places later, and the last row ends the list. |
| `Layout.HexagonRowSlice` | src/mixite/layout.py:111-120 | On the list itself, the 2r + 1 − \|r − y\| indices from row y's start up to row y + 1's start hold consecutive x values from start0 − min(y, r), all with z = y − shift. |
| `Layout.HexagonMiddleRowLongest` | src/mixite/layout.py:112-113 | The middle row y = r has height = 2r + 1 entries. Every other row is strictly shorter. |
| `Layout.HexagonOrder` | src/mixite/layout.py:111-122 | The list is strictly row-major, so no coordinate repeats. |
| `Layout.HexagonIsBall` | src/mixite/layout.py:102-122 | Under either orientation, the cells are exactly those within hex distance r of the centre (start0, r − shift). So the outline is a regular hexagon. |
| `Layout.FetchGridCoords` | src/mixite/layout.py:14-15 | Dispatch on the strategy: each shape's method returns that shape's coordinate list. |
| `Layout.ValidSizeEnumeration` | src/mixite/layout.py:33-122 | After a passing check, every shape's list has the expected tile count. Every shape except the rectangle also has no coordinate twice. |
| `Builder.GridData.constructor` | src/mixite/builder.py:59 | The new grid data holds exactly the given orientation, radius, width and height. |
| `Builder.HexagonGridCalculator.constructor` | src/mixite/builder.py:31 | The new calculator holds the given grid. |
| `Builder.HexagonImpl.constructor` | src/mixite/builder.py:68 | A new hexagon holds the given grid data by reference and the given coordinate. |
| `Builder.HexagonGridImpl.constructor` | src/mixite/builder.py:29 | A new grid holds the given grid data, an empty hexagon list and a new, empty storage. |
| `Builder.GridControl.constructor` | src/mixite/builder.py:17-20 | The control holds exactly the given grid, calculator and grid data. |
| `Builder.BuildGridData` | src/mixite/builder.py:57-59 | The new grid data carries exactly the caller's orientation, radius, width and height. |
| `Builder.CheckSize` | src/mixite/builder.py:61-63 | The builder's check is the strategy's check. |
| `Builder.PopulateStorage` | src/mixite/builder.py:65-70 | The hexagon list grows by \|coords\| and keeps its old prefix. The i-th appended hexagon is new, has coordinate coords[i] and shares the given grid data. The appended hexagons are pairwise distinct objects. The storage becomes the old storage with each (coords[i], hexagon i) inserted in order. |
| `Builder.StoredEntries` | src/mixite/builder.py:67-69 | After the inserts, the keys are the old keys plus all coordinates. The other old entries are unchanged. Each coordinate maps to the same hexagon object that was appended for its last occurrence. |
| `Builder.PopulatedFromEmpty` | src/mixite/builder.py:65-70 | Starting from an empty storage, hexagons made one per coordinate, all sharing one grid data, leave the grid populated: the list matches the coordinates one-for-one, the storage keys are exactly the coordinates, and each key maps to the hexagon of its last occurrence. |
| `Builder.DistinctCardinality` | src/mixite/builder.py:67-69 | With distinct coordinates the storage gets one key per coordinate. |
| `Builder.NewPopulatedGrid` | src/mixite/builder.py:29-30 | After a passing check, a new grid over the given grid data is populated with the strategy's coordinates, one distinct hexagon object per coordinate. |
| `Builder.Build` | src/mixite/builder.py:25-31 | Grid data is made first, then the size is checked. A failed check is raised unchanged, before any grid or storage exists. A passing check yields new objects (control, grid, calculator and grid data): the grid data carries the caller's parameters and is shared by grid and hexagons, and the hexagons are distinct objects, the strategy's coordinates one-for-one, in order and in storage. |
| `Builder.BuildRectangle` | src/mixite/builder.py:25-31 | Uses the rectangle strategy. Raises exactly when width <= 0 or height <= 0. Otherwise it yields width · height hexagons, with one storage key each when the converters are injective on the box. |
| `Builder.BuildHexagon` | src/mixite/builder.py:33-39 | Uses the hexagon strategy. Raises exactly when the sizes are not equal, odd and positive. Otherwise, for side 2k + 1, it yields 3k² + 3k + 1 hexagons with one storage key each. |
| `Builder.BuildTriangle` | src/mixite/builder.py:41-47 | Uses the triangle strategy. Raises exactly when the sizes are not equal and positive. Otherwise, for side n, it yields n(n + 1)/2 hexagons with one storage key each. |
| `Builder.BuildTrapezoid` | src/mixite/builder.py:49-55 | Uses the trapezoid strategy. Raises exactly when width <= 0 or height <= 0. Otherwise it yields width · height hexagons with one storage key each. |

## Left out

- `mixite/coord.py` is not part of this model, and neither is the offset-to-cube conversion it defines. Its two converters are passed in as a `Converter` value, and no formula is assumed for them.
- The rectangle's coordinates go through those unknown converters. So the model proves that the rectangle has no duplicates, and that its storage has one key per hexagon, only under the hypothesis `ConverterInjective` (distinct offset cells convert to distinct coordinates). For repeated coordinates, `Builder.StoredEntries` states which hexagon the storage keeps.
- Floating-point arithmetic in the hexagon strategy is replaced by integer division. The two are shown to match only for odd positive heights. `FetchHexagonCoords` therefore requires an odd positive height, which is what `check_size` demands before the builder calls it. Even or non-positive heights are not modelled for that one operation. Agreement is guaranteed for heights below 2^53, where height / 2.0 and height / 4.0 are exact. Above that the two can differ because of Python's float rounding: for height 2^55 + 5, `round(height / 4.0)` is 2^53 + 2, while the model gives 2^53 + 1.
- `Layout.CheckSize`: `IntToString` renders integers of any size, while CPython's `str` raises `ValueError` for integers beyond its digit limit (4300 digits by default). For such a width or height, check_size raises that `ValueError` rather than a `GridLayoutException`, and the `build_*` operations pass it on. The model returns `Fail` with the full message instead, so it does not capture that error path.
- The radius is a `real` that is only passed into the grid data. Python float semantics are not modelled.
- The internals of these classes are not modelled, since they lie outside this core: `HexagonGridImpl`, `DefaultHexagonDataStorage`, `HexagonImpl`, `GridData` and `HexagonGridCalculator` (the pixel and trigonometry math). The model assumes a new grid starts with an empty list and an empty storage, and that `add_coord_with_data` inserts into a map, replacing any earlier entry under the same key.
- Exceptions are results (`SizeCheck`, `BuildResult`), not control flow. The abstract-method machinery of `GridLayoutStrategy` is replaced by the `Shape` datatype.
