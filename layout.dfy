/**
  The grid layout strategies (src/mixite/layout.py).

  Each of the four shapes validates a (width, height) pair and enumerates, row by row, the
  cube coordinates that make up the shape.  The shapes form a closed set, so the abstract
  strategy class becomes the datatype `Shape` and every operation dispatches on it.

  For every shape there is a specification function giving the coordinate list as a
  sequence of rows (`RectangleCoords`, `TriangleCoords`, `TrapezoidCoords`, `HexagonCoords`),
  a method with the library's nested loops proved equal to it, and lemmas stating the
  shape's count, row layout, order and membership.
 */
module Layout {
  import opened Coord
  import opened Rows

  datatype Shape = Rectangle | Triangle | Trapezoid | Hexagon

  /** The validation error; only its message is observable. */
  datatype GridLayoutException = GridLayoutException(message: string)

  /** The outcome of a size check: it passes, or it raises the given exception. */
  datatype SizeCheck = Pass | Fail(error: GridLayoutException)

  // ---------------------------------------------------------------------------------------
  // Shape names

  /** The shape tag returned by each strategy's get_name. */
  function Name(shape: Shape): string
  {
    match shape
    case Rectangle => "RECTANGULAR"
    case Triangle => "TRIANGULAR"
    case Trapezoid => "TRAPEZOID"
    case Hexagon => "HEXAGONAL"
  }

  lemma NameIdentifiesShape(a: Shape, b: Shape)
    ensures Name(a) == Name(b) <==> a == b
  {
  }

  // ---------------------------------------------------------------------------------------
  // Size validation

  /** Decimal rendering of an integer, as `str` does for the error messages. */
  function IntToString(n: int): string
  {
    if n < 0 then "-" + NatToString(-n) else NatToString(n)
  }

  function NatToString(n: nat): string
  {
    if n < 10 then [DigitChar(n)] else NatToString(n / 10) + [DigitChar(n % 10)]
  }

  function DigitChar(d: nat): char
    requires d < 10
  {
    "0123456789"[d]
  }

  /** The shape-specific sentence that ends a size error message. */
  function Requirement(shape: Shape): string
  {
    match shape
    case Rectangle => ". Rectangle dimensions must be larger than zero."
    case Triangle => ". Triangle dimensions must be equal and larger than zero."
    case Trapezoid => ". Trapezoid dimensions must be larger than zero."
    case Hexagon => ". Hexagon dimensions must be equal, odd, and larger than zero."
  }

  function SizeMessage(shape: Shape, width: int, height: int): string
  {
    "Attempted to build a grid with invalid size "
      + IntToString(width) + ", " + IntToString(height) + Requirement(shape)
  }

  /**
    check_size of each strategy.  The conditions are written as the library writes them;
    the triangle's chained comparison `0 < width == height > 0` is three conjuncts, and the
    hexagon's `abs(height % 2) == 1` uses a modulus by 2, where Python's floored `%` and
    Dafny's Euclidean `%` agree.
   */
  function CheckSize(shape: Shape, width: int, height: int): (r: SizeCheck)
    ensures r.Fail? ==> r.error.message == SizeMessage(shape, width, height)
    ensures shape == Rectangle || shape == Trapezoid ==> (r == Pass <==> width > 0 && height > 0)
    ensures shape == Triangle ==> (r == Pass <==> width > 0 && width == height)
    ensures shape == Hexagon ==> (r == Pass <==> width > 0 && width == height && height % 2 == 1)
  {
    var ok :=
      match shape
      case Rectangle => width > 0 && height > 0
      case Triangle => 0 < width && width == height && height > 0
      case Trapezoid => width > 0 && height > 0
      case Hexagon => width > 0 && height > 0 && width == height && Abs(height % 2) == 1;
    if ok then Pass else Fail(GridLayoutException(SizeMessage(shape, width, height)))
  }

  /** The side length of a hexagon-of-hexagons of radius `r`. */
  function HexagonSide(r: nat): nat
  {
    2 * r + 1
  }

  /** A hexagon passes the check exactly when both sizes are the same odd side length 2r + 1. */
  lemma HexagonCheckIsOddSide(width: int, height: int)
    ensures CheckSize(Hexagon, width, height) == Pass
        <==> width == height && exists r: nat :: height == HexagonSide(r)
  {
    if width == height && exists r: nat :: height == HexagonSide(r) {
      var r: nat :| height == HexagonSide(r);
      assert height % 2 == 1;
    }
    if CheckSize(Hexagon, width, height) == Pass {
      assert height == HexagonSide(height / 2);
    }
  }

  /** Sample sizes: zero, unequal, even and odd sides. */
  lemma CheckSizeExamples(shape: Shape)
    ensures CheckSize(shape, 0, 5).Fail? && CheckSize(shape, 5, 0).Fail?
    ensures CheckSize(Triangle, 3, 4).Fail? && CheckSize(Hexagon, 3, 4).Fail?
    ensures CheckSize(Hexagon, 3, 5).Fail? && CheckSize(Hexagon, 4, 4).Fail?
    ensures CheckSize(Hexagon, 5, 5) == Pass && CheckSize(Triangle, 5, 5) == Pass
    ensures CheckSize(Rectangle, 0, 3).Fail?
    ensures CheckSize(Rectangle, 0, 3).error.message
         == "Attempted to build a grid with invalid size " + "0, 3" + ". Rectangle dimensions must be larger than zero."
  {
    assert IntToString(0) == "0" && IntToString(3) == "3";
    assert "0" + ", " + "3" == "0, 3";
  }

  // ---------------------------------------------------------------------------------------
  // Rows given by a z value, a first x and a length

  /** A row of consecutive x values first, first + 1, ..., first + len - 1, all at one z. */
  datatype RowSpan = RowSpan(z: int, first: int, len: nat)

  function SpanCoords(s: RowSpan): seq<CubeCoordinate>
  {
    seq(s.len, i => CubeCoordinate(s.first + i, s.z))
  }

  predicate InSpan(c: CubeCoordinate, s: RowSpan)
  {
    c.gridZ == s.z && s.first <= c.gridX < s.first + s.len
  }

  function SpanRows(spans: seq<RowSpan>): seq<seq<CubeCoordinate>>
  {
    seq(|spans|, y requires 0 <= y < |spans| => SpanCoords(spans[y]))
  }

  /** The coordinates of all the spans, in order. */
  function Enumerate(spans: seq<RowSpan>): seq<CubeCoordinate>
  {
    Flatten(SpanRows(spans))
  }

  /** The sum of the span lengths. */
  function SpanTotal(spans: seq<RowSpan>): nat
  {
    if spans == [] then 0 else SpanTotal(spans[..|spans| - 1]) + spans[|spans| - 1].len
  }

  lemma SpanTotalSnoc(spans: seq<RowSpan>, y: nat)
    requires y < |spans|
    ensures SpanTotal(spans[..y + 1]) == SpanTotal(spans[..y]) + spans[y].len
  {
    assert spans[..y + 1][..y] == spans[..y];
  }

  lemma EnumerateSnoc(spans: seq<RowSpan>, y: nat)
    requires y < |spans|
    ensures Enumerate(spans[..y + 1]) == Enumerate(spans[..y]) + SpanCoords(spans[y])
  {
    var rows := SpanRows(spans[..y + 1]);
    assert rows[..y] == SpanRows(spans[..y]);
  }

  lemma {:induction false} SpanTotalIsLength(spans: seq<RowSpan>)
    ensures TotalLength(SpanRows(spans)) == SpanTotal(spans)
  {
    if spans != [] {
      var n := |spans| - 1;
      SpanTotalIsLength(spans[..n]);
      assert SpanRows(spans)[..n] == SpanRows(spans[..n]);
    }
  }

  /** The number of coordinates is the sum of the span lengths. */
  lemma EnumerateLength(spans: seq<RowSpan>)
    ensures |Enumerate(spans)| == SpanTotal(spans)
  {
    FlattenLength(SpanRows(spans));
    SpanTotalIsLength(spans);
  }

  /** Element i of span y sits right after the spans before it. */
  lemma EnumerateAt(spans: seq<RowSpan>, y: nat, i: nat)
    requires y < |spans| && i < spans[y].len
    ensures SpanTotal(spans[..y]) + i < |Enumerate(spans)|
    ensures Enumerate(spans)[SpanTotal(spans[..y]) + i] == CubeCoordinate(spans[y].first + i, spans[y].z)
  {
    var rows := SpanRows(spans);
    FlattenAt(rows, y, i);
    assert rows[..y] == SpanRows(spans[..y]);
    SpanTotalIsLength(spans[..y]);
  }

  /** A coordinate is enumerated exactly when it lies in one of the spans. */
  lemma EnumerateMember(spans: seq<RowSpan>, c: CubeCoordinate)
    ensures c in Enumerate(spans) <==> exists y :: 0 <= y < |spans| && InSpan(c, spans[y])
  {
    var rows := SpanRows(spans);
    FlattenMember(rows, c);
    if c in Enumerate(spans) {
      var y :| 0 <= y < |rows| && c in rows[y];
      assert InSpan(c, spans[y]);
    }
    if exists y :: 0 <= y < |spans| && InSpan(c, spans[y]) {
      var y :| 0 <= y < |spans| && InSpan(c, spans[y]);
      assert rows[y][c.gridX - spans[y].first] == c;
    }
  }

  lemma RowMajorAppend(a: seq<CubeCoordinate>, b: seq<CubeCoordinate>)
    requires RowMajor(a) && RowMajor(b)
    requires forall i, j :: 0 <= i < |a| && 0 <= j < |b| ==> Precedes(a[i], b[j])
    ensures RowMajor(a + b)
  {
  }

  /** Spans with strictly increasing z enumerate in strict row-major order. */
  lemma {:induction false} EnumerateRowMajor(spans: seq<RowSpan>)
    requires forall y1, y2 :: 0 <= y1 < y2 < |spans| ==> spans[y1].z < spans[y2].z
    ensures RowMajor(Enumerate(spans))
  {
    if spans != [] {
      var n := |spans| - 1;
      var init := spans[..n];
      EnumerateRowMajor(init);
      assert spans[..n + 1] == spans;
      EnumerateSnoc(spans, n);
      var a, b := Enumerate(init), SpanCoords(spans[n]);
      forall i | 0 <= i < |a|
        ensures a[i].gridZ < spans[n].z
      {
        EnumerateMember(init, a[i]);
      }
      RowMajorAppend(a, b);
    }
  }

  // ---------------------------------------------------------------------------------------
  // The shapes as specification functions

  /** The number of values in Python's range(n). */
  function RangeLen(n: int): nat
  {
    if n > 0 then n else 0
  }

  /** Rectangle: row y holds the converted offset cells (0, y) .. (width - 1, y). */
  function RectangleRows(conv: Converter, width: int, height: int, orientation: Orientation)
    : seq<seq<CubeCoordinate>>
  {
    seq(RangeLen(height), y => seq(RangeLen(width), x => FromOffset(conv, x, y, orientation)))
  }

  function RectangleCoords(conv: Converter, width: int, height: int, orientation: Orientation)
    : seq<CubeCoordinate>
  {
    Flatten(RectangleRows(conv, width, height, orientation))
  }

  /** Trapezoid: row z holds x = 0 .. width - 1, with no conversion. */
  function TrapezoidSpans(width: int, height: int): seq<RowSpan>
  {
    seq(RangeLen(height), z => RowSpan(z, 0, RangeLen(width)))
  }

  function TrapezoidCoords(width: int, height: int): seq<CubeCoordinate>
  {
    Enumerate(TrapezoidSpans(width, height))
  }

  /** Triangle: row z holds x = 0 .. height - z - 1; the width plays no part. */
  function TriangleSpans(height: int): seq<RowSpan>
  {
    seq(RangeLen(height), z requires 0 <= z < RangeLen(height) => RowSpan(z, 0, height - z))
  }

  function TriangleCoords(height: int): seq<CubeCoordinate>
  {
    Enumerate(TriangleSpans(height))
  }

  /**
    The heights the hexagon enumeration is defined for: the library computes with floats,
    which this model replaces by integer division.  The two agree for odd positive heights
    (as check_size demands) below 2^53, where height / 2.0 and height / 4.0 are exact.
   */
  predicate HexagonHeight(height: int)
  {
    height > 0 && height % 2 == 1
  }

  /** The x the first row starts at: floor(h / 2.0) for flat-top, round(h / 4.0) otherwise. */
  function StartX(height: int, orientation: Orientation): int
  {
    if orientation == FlatTop then height / 2 else (height + 2) / 4
  }

  /** How far z lags the row index y: floor(h / 4.0) for flat-top, nothing otherwise. */
  function ZShift(height: int, orientation: Orientation): int
  {
    if orientation == FlatTop then height / 4 else 0
  }

  /** The length of row y of a hexagon of radius r. */
  function HexagonRowLength(r: nat, y: int): int
  {
    2 * r + 1 - Abs(r - y)
  }

  /**
    Hexagon of radius r = height / 2: row y is at z = y - ZShift, starts at
    StartX - min(y, r) and holds 2r + 1 - |r - y| consecutive x values.
   */
  function HexagonSpans(height: int, orientation: Orientation): seq<RowSpan>
    requires HexagonHeight(height)
  {
    var r := height / 2;
    seq(height, y requires 0 <= y < height =>
      RowSpan(y - ZShift(height, orientation), StartX(height, orientation) - Min(y, r),
              HexagonRowLength(r, y)))
  }

  function HexagonCoords(height: int, orientation: Orientation): seq<CubeCoordinate>
    requires HexagonHeight(height)
  {
    Enumerate(HexagonSpans(height, orientation))
  }

  /** round(height / 4.0) in the library: (height + 2) / 4 is the nearest integer, with no tie. */
  lemma StartXRoundsQuarter(height: int)
    requires HexagonHeight(height)
    ensures -2 < 4 * StartX(height, PointyTop) - height < 2
  {
  }

  // ---------------------------------------------------------------------------------------
  // Properties of the shapes

  /** 0 + 1 + ... + (n - 1). */
  function Tri(n: nat): nat
  {
    if n == 0 then 0 else Tri(n - 1) + (n - 1)
  }

  lemma {:induction false} TriClosedForm(n: nat)
    ensures 2 * Tri(n) == n * (n - 1)
  {
    if n > 0 {
      TriClosedForm(n - 1);
      assert n * (n - 1) == (n - 1) * (n - 2) + 2 * (n - 1);
    }
  }

  /** Rectangle: width * height coordinates. */
  lemma RectangleCount(conv: Converter, width: int, height: int, orientation: Orientation)
    ensures |RectangleCoords(conv, width, height, orientation)| == RangeLen(width) * RangeLen(height)
  {
    var rows := RectangleRows(conv, width, height, orientation);
    FlattenLength(rows);
    UniformTotal(rows, RangeLen(width));
  }

  /** Rectangle, row-major: offset cell (x, y) is converted into element y * width + x. */
  lemma RectangleAt(conv: Converter, width: int, height: int, orientation: Orientation, x: int, y: int)
    requires 0 <= x < width && 0 <= y < height
    ensures y * width + x < |RectangleCoords(conv, width, height, orientation)|
    ensures RectangleCoords(conv, width, height, orientation)[y * width + x] == FromOffset(conv, x, y, orientation)
  {
    UniformAt(RectangleRows(conv, width, height, orientation), width, y, x);
  }

  /** The converters send distinct offset cells of the width x height box to distinct coordinates. */
  predicate ConverterInjective(conv: Converter, width: int, height: int, orientation: Orientation)
  {
    forall x1, y1, x2, y2 ::
      0 <= x1 < width && 0 <= y1 < height && 0 <= x2 < width && 0 <= y2 < height &&
      FromOffset(conv, x1, y1, orientation) == FromOffset(conv, x2, y2, orientation)
      ==> x1 == x2 && y1 == y2
  }

  /** Index i of a width * height row-major list lies in row i / width, column i % width. */
  lemma RowMajorCell(i: int, width: int, height: int)
    requires width > 0 && 0 <= i < width * height
    ensures 0 <= i / width < height && 0 <= i % width < width
    ensures i == (i / width) * width + i % width
  {
  }

  /** Rectangle: when the converters are injective on the box, no coordinate repeats. */
  lemma RectangleDistinct(conv: Converter, width: int, height: int, orientation: Orientation)
    requires ConverterInjective(conv, width, height, orientation)
    ensures Distinct(RectangleCoords(conv, width, height, orientation))
  {
    var s := RectangleCoords(conv, width, height, orientation);
    RectangleCount(conv, width, height, orientation);
    forall i, j | 0 <= i < j < |s|
      ensures s[i] != s[j]
    {
      assert width > 0 && height > 0;
      RowMajorCell(i, width, height);
      RowMajorCell(j, width, height);
      RectangleAt(conv, width, height, orientation, i % width, i / width);
      RectangleAt(conv, width, height, orientation, j % width, j / width);
    }
  }

  /** Trapezoid: width * height coordinates. */
  lemma TrapezoidCount(width: int, height: int)
    ensures |TrapezoidCoords(width, height)| == RangeLen(width) * RangeLen(height)
  {
    var rows := SpanRows(TrapezoidSpans(width, height));
    FlattenLength(rows);
    UniformTotal(rows, RangeLen(width));
  }

  /** Trapezoid, row-major with no conversion: element z * width + x is (x, z). */
  lemma TrapezoidAt(width: int, height: int, x: int, z: int)
    requires 0 <= x < width && 0 <= z < height
    ensures z * width + x < |TrapezoidCoords(width, height)|
    ensures TrapezoidCoords(width, height)[z * width + x] == CubeCoordinate(x, z)
  {
    UniformAt(SpanRows(TrapezoidSpans(width, height)), width, z, x);
  }

  /** Trapezoid: strictly row-major, so no coordinate twice; exactly the cells 0 <= x < width, 0 <= z < height. */
  lemma TrapezoidOrderAndCells(width: int, height: int)
    ensures RowMajor(TrapezoidCoords(width, height)) && Distinct(TrapezoidCoords(width, height))
    ensures forall c :: c in TrapezoidCoords(width, height) <==> 0 <= c.gridX < width && 0 <= c.gridZ < height
  {
    var spans := TrapezoidSpans(width, height);
    EnumerateRowMajor(spans);
    RowMajorIsDistinct(Enumerate(spans));
    forall c
      ensures c in Enumerate(spans) <==> 0 <= c.gridX < width && 0 <= c.gridZ < height
    {
      EnumerateMember(spans, c);
      if 0 <= c.gridX < width && 0 <= c.gridZ < height {
        assert InSpan(c, spans[c.gridZ]);
      }
    }
  }

  /** Where row z of a triangle starts: height + (height - 1) + ... over the z rows before it. */
  function TriangleRowStart(height: int, z: nat): int
  {
    z * height - Tri(z)
  }

  /** The rows of a triangle start where the previous row ends. */
  lemma TriangleRowsAdjoin(height: int, z: int)
    requires 0 <= z < height
    ensures TriangleRowStart(height, z + 1) == TriangleRowStart(height, z) + (height - z)
  {
    assert (z + 1) * height == z * height + height;
  }

  lemma {:induction false} TriangleRowStartSum(height: int, z: nat)
    requires z <= RangeLen(height)
    ensures SpanTotal(TriangleSpans(height)[..z]) == TriangleRowStart(height, z)
  {
    if z > 0 {
      TriangleRowStartSum(height, z - 1);
      SpanTotalSnoc(TriangleSpans(height), z - 1);
      TriangleRowsAdjoin(height, z - 1);
    }
  }

  /** All rows of a triangle of side n hold n(n + 1) / 2 cells. */
  lemma TriangleRowStartTotal(n: nat)
    ensures TriangleRowStart(n, n) == n * (n + 1) / 2
  {
    TriClosedForm(n);
    assert 2 * TriangleRowStart(n, n) == n * (n + 1);
  }

  /** Triangle: height * (height + 1) / 2 coordinates, whatever the width. */
  lemma TriangleCount(height: int)
    ensures |TriangleCoords(height)| == if height > 0 then height * (height + 1) / 2 else 0
  {
    var spans := TriangleSpans(height);
    var n := RangeLen(height);
    EnumerateLength(spans);
    TriangleRowStartSum(height, n);
    assert spans[..n] == spans;
    TriangleRowStartTotal(n);
  }

  /** Triangle: row z holds x = 0, 1, ..., height - z - 1, starting at TriangleRowStart(height, z). */
  lemma TriangleAt(height: int, z: int, x: int)
    requires 0 <= z < height && 0 <= x < height - z
    ensures 0 <= TriangleRowStart(height, z) + x < |TriangleCoords(height)| &&
            TriangleCoords(height)[TriangleRowStart(height, z) + x] == CubeCoordinate(x, z)
  {
    TriangleRowStartSum(height, z);
    EnumerateAt(TriangleSpans(height), z, x);
  }

  /**
    Triangle, on the list itself: the indices from row z's start up to row z + 1's start,
    height - z of them, hold exactly the cells (0, z), (1, z), ... in order.
   */
  lemma TriangleRowSlice(height: int, z: int)
    requires 0 <= z < height
    ensures TriangleRowStart(height, z + 1) - TriangleRowStart(height, z) == height - z
    ensures 0 <= TriangleRowStart(height, z) && TriangleRowStart(height, z + 1) <= |TriangleCoords(height)|
    ensures forall k :: TriangleRowStart(height, z) <= k < TriangleRowStart(height, z + 1) ==>
      TriangleCoords(height)[k] == CubeCoordinate(k - TriangleRowStart(height, z), z)
  {
    TriangleRowsAdjoin(height, z);
    TriangleAt(height, z, 0);
    TriangleAt(height, z, height - z - 1);
    forall k | TriangleRowStart(height, z) <= k < TriangleRowStart(height, z + 1)
      ensures TriangleCoords(height)[k] == CubeCoordinate(k - TriangleRowStart(height, z), z)
    {
      TriangleAt(height, z, k - TriangleRowStart(height, z));
    }
  }

  /** Triangle: strictly row-major, so no coordinate twice; exactly the cells x >= 0, z >= 0, x + z < height. */
  lemma TriangleOrderAndCells(height: int)
    ensures RowMajor(TriangleCoords(height)) && Distinct(TriangleCoords(height))
    ensures forall c :: c in TriangleCoords(height) <==> 0 <= c.gridX && 0 <= c.gridZ && c.gridX + c.gridZ < height
  {
    var spans := TriangleSpans(height);
    EnumerateRowMajor(spans);
    RowMajorIsDistinct(Enumerate(spans));
    forall c
      ensures c in Enumerate(spans) <==> 0 <= c.gridX && 0 <= c.gridZ && c.gridX + c.gridZ < height
    {
      EnumerateMember(spans, c);
      if 0 <= c.gridX && 0 <= c.gridZ && c.gridX + c.gridZ < height {
        assert InSpan(c, spans[c.gridZ]);
      }
    }
  }

  /** Where row y of a hexagon of radius r starts: the rows grow from r + 1 to 2r + 1, then shrink. */
  function HexagonRowStart(r: nat, y: nat): int
  {
    if y <= r then y * (r + 1) + Tri(y)
    else r * (r + 1) + Tri(r) + (y - r) * (2 * r + 1) - Tri(y - r)
  }

  lemma HexagonRowStartStep(r: nat, k: nat)
    requires k < 2 * r + 1
    ensures HexagonRowStart(r, k + 1) == HexagonRowStart(r, k) + HexagonRowLength(r, k)
  {
    if k < r {
      assert (k + 1) * (r + 1) == k * (r + 1) + (r + 1);
    } else {
      assert (k + 1 - r) * (2 * r + 1) == (k - r) * (2 * r + 1) + (2 * r + 1);
      assert Tri(k + 1 - r) == Tri(k - r) + (k - r);
    }
  }

  lemma {:induction false} HexagonRowStartSum(height: int, orientation: Orientation, y: nat)
    requires HexagonHeight(height) && y <= height
    ensures SpanTotal(HexagonSpans(height, orientation)[..y]) == HexagonRowStart(height / 2, y)
  {
    if y > 0 {
      HexagonRowStartSum(height, orientation, y - 1);
      SpanTotalSnoc(HexagonSpans(height, orientation), y - 1);
      HexagonRowStartStep(height / 2, y - 1);
    }
  }

  /** All 2r + 1 rows of a hexagon of radius r hold 3r^2 + 3r + 1 cells. */
  lemma HexagonRowStartTotal(r: nat)
    ensures HexagonRowStart(r, 2 * r + 1) == 3 * r * r + 3 * r + 1
  {
    assert Tri(r + 1) == Tri(r) + r;
    assert (r + 1) * (2 * r + 1) == 2 * r * r + 3 * r + 1;
    assert r * (r + 1) == r * r + r;
  }

  /** Hexagon of radius r (height 2r + 1): 3r^2 + 3r + 1 coordinates (19 for height 5). */
  lemma HexagonCount(height: int, orientation: Orientation)
    requires HexagonHeight(height)
    ensures var r := height / 2; |HexagonCoords(height, orientation)| == 3 * r * r + 3 * r + 1
  {
    var spans := HexagonSpans(height, orientation);
    EnumerateLength(spans);
    HexagonRowStartSum(height, orientation, height);
    assert spans[..height] == spans;
    HexagonRowStartTotal(height / 2);
  }

  /**
    Hexagon, row y: 2r + 1 - |r - y| consecutive x values from StartX - min(y, r), all at
    z = y - ZShift, placed from HexagonRowStart(r, y) on.
   */
  lemma HexagonAt(height: int, orientation: Orientation, y: int, i: int)
    requires HexagonHeight(height)
    requires 0 <= y < height && 0 <= i < HexagonRowLength(height / 2, y)
    ensures 0 <= HexagonRowStart(height / 2, y) + i < |HexagonCoords(height, orientation)| &&
            HexagonCoords(height, orientation)[HexagonRowStart(height / 2, y) + i]
         == CubeCoordinate(StartX(height, orientation) - Min(y, height / 2) + i, y - ZShift(height, orientation))
  {
    HexagonRowStartSum(height, orientation, y);
    EnumerateAt(HexagonSpans(height, orientation), y, i);
  }

  /** The rows of a hexagon start where the previous row ends; the last one ends the list. */
  lemma HexagonRowsAdjoin(height: int, orientation: Orientation, y: int)
    requires HexagonHeight(height) && 0 <= y < height
    ensures HexagonRowStart(height / 2, y + 1) == HexagonRowStart(height / 2, y) + HexagonRowLength(height / 2, y)
    ensures HexagonRowStart(height / 2, height) == |HexagonCoords(height, orientation)|
  {
    HexagonRowStartStep(height / 2, y);
    var spans := HexagonSpans(height, orientation);
    EnumerateLength(spans);
    HexagonRowStartSum(height, orientation, height);
    assert spans[..height] == spans;
  }

  /**
    Hexagon, on the list itself: the indices from row y's start up to row y + 1's start,
    2r + 1 - |r - y| of them, hold consecutive x values from StartX - min(y, r), all at
    z = y - ZShift.
   */
  lemma HexagonRowSlice(height: int, orientation: Orientation, y: int)
    requires HexagonHeight(height) && 0 <= y < height
    ensures HexagonRowStart(height / 2, y + 1) - HexagonRowStart(height / 2, y) == HexagonRowLength(height / 2, y)
    ensures 0 <= HexagonRowStart(height / 2, y) &&
            HexagonRowStart(height / 2, y + 1) <= |HexagonCoords(height, orientation)|
    ensures forall k :: HexagonRowStart(height / 2, y) <= k < HexagonRowStart(height / 2, y + 1) ==>
      HexagonCoords(height, orientation)[k]
        == CubeCoordinate(StartX(height, orientation) - Min(y, height / 2) + (k - HexagonRowStart(height / 2, y)),
                          y - ZShift(height, orientation))
  {
    var r := height / 2;
    HexagonRowsAdjoin(height, orientation, y);
    HexagonAt(height, orientation, y, 0);
    HexagonAt(height, orientation, y, HexagonRowLength(r, y) - 1);
    forall k | HexagonRowStart(r, y) <= k < HexagonRowStart(r, y + 1)
      ensures HexagonCoords(height, orientation)[k]
        == CubeCoordinate(StartX(height, orientation) - Min(y, r) + (k - HexagonRowStart(r, y)),
                          y - ZShift(height, orientation))
    {
      HexagonAt(height, orientation, y, k - HexagonRowStart(r, y));
    }
  }

  /** The middle row y == r is the unique longest row, with all 2r + 1 = height cells. */
  lemma HexagonMiddleRowLongest(height: int, y: int)
    requires HexagonHeight(height) && 0 <= y < height
    ensures HexagonRowLength(height / 2, height / 2) == height
    ensures y != height / 2 ==> HexagonRowLength(height / 2, y) < height
  {
  }

  /** Hexagon: strictly row-major, so no coordinate twice. */
  lemma HexagonOrder(height: int, orientation: Orientation)
    requires HexagonHeight(height)
    ensures RowMajor(HexagonCoords(height, orientation)) && Distinct(HexagonCoords(height, orientation))
  {
    EnumerateRowMajor(HexagonSpans(height, orientation));
    RowMajorIsDistinct(HexagonCoords(height, orientation));
  }

  /** The centre cell of the hexagon: the middle of its middle row. */
  function HexagonCenter(height: int, orientation: Orientation): CubeCoordinate
  {
    CubeCoordinate(StartX(height, orientation), height / 2 - ZShift(height, orientation))
  }

  lemma HexagonSpanIsBallRow(height: int, orientation: Orientation, c: CubeCoordinate, y: int)
    requires HexagonHeight(height) && 0 <= y < height
    requires c.gridZ == y - ZShift(height, orientation)
    ensures InSpan(c, HexagonSpans(height, orientation)[y])
        <==> Distance(c, HexagonCenter(height, orientation)) <= height / 2
  {
    var r := height / 2;
    var center := HexagonCenter(height, orientation);
    var dx := c.gridX - center.gridX;
    assert c.gridZ - center.gridZ == y - r;
    assert c.GridY() - center.GridY() == -dx - (y - r);
  }

  /**
    The hexagon shape is a regular hexagon: exactly the cells within distance r = height / 2
    of its centre, for either orientation.
   */
  lemma HexagonIsBall(height: int, orientation: Orientation, c: CubeCoordinate)
    requires HexagonHeight(height)
    ensures c in HexagonCoords(height, orientation)
        <==> Distance(c, HexagonCenter(height, orientation)) <= height / 2
  {
    var spans := HexagonSpans(height, orientation);
    var center := HexagonCenter(height, orientation);
    EnumerateMember(spans, c);
    var y := c.gridZ + ZShift(height, orientation);
    if 0 <= y < height {
      HexagonSpanIsBallRow(height, orientation, c, y);
    } else {
      assert Abs(c.gridZ - center.gridZ) > height / 2;
      assert Distance(c, center) > height / 2;
    }
  }

  // ---------------------------------------------------------------------------------------
  // The enumeration loops of the library

  /** RectangleGridLayoutStrategy.fetch_grid_coords. */
  method FetchRectangleCoords(conv: Converter, width: int, height: int, orientation: Orientation)
    returns (coords: seq<CubeCoordinate>)
    ensures coords == RectangleCoords(conv, width, height, orientation)
  {
    ghost var rows := RectangleRows(conv, width, height, orientation);
    coords := [];
    var y := 0;
    while y < height
      invariant 0 <= y <= RangeLen(height)
      invariant coords == Flatten(rows[..y])
    {
      var x := 0;
      while x < width
        invariant 0 <= x <= RangeLen(width)
        invariant coords == Flatten(rows[..y]) + rows[y][..x]
      {
        var gridX := conv.toCubeX(x, y, orientation);
        var gridZ := conv.toCubeZ(x, y, orientation);
        assert rows[y][..x + 1] == rows[y][..x] + [CubeCoordinate(gridX, gridZ)];
        coords := coords + [CubeCoordinate(gridX, gridZ)];
        x := x + 1;
      }
      assert rows[y][..x] == rows[y];
      FlattenSnoc(rows, y);
      y := y + 1;
    }
    assert rows[..y] == rows;
  }

  /** TriangleGridLayoutStrategy.fetch_grid_coords; the width is not used. */
  method FetchTriangleCoords(width: int, height: int, orientation: Orientation)
    returns (coords: seq<CubeCoordinate>)
    ensures coords == TriangleCoords(height)
  {
    ghost var spans := TriangleSpans(height);
    coords := [];
    var z := 0;
    while z < height
      invariant 0 <= z <= RangeLen(height)
      invariant coords == Enumerate(spans[..z])
    {
      var endX := height - z;
      var x := 0;
      while x < endX
        invariant 0 <= x <= endX
        invariant coords == Enumerate(spans[..z]) + SpanCoords(spans[z])[..x]
      {
        assert SpanCoords(spans[z])[..x + 1] == SpanCoords(spans[z])[..x] + [CubeCoordinate(x, z)];
        coords := coords + [CubeCoordinate(x, z)];
        x := x + 1;
      }
      assert SpanCoords(spans[z])[..x] == SpanCoords(spans[z]);
      EnumerateSnoc(spans, z);
      z := z + 1;
    }
    assert spans[..z] == spans;
  }

  /** TrapezoidGridLayoutStrategy.fetch_grid_coords; the orientation is not used. */
  method FetchTrapezoidCoords(width: int, height: int, orientation: Orientation)
    returns (coords: seq<CubeCoordinate>)
    ensures coords == TrapezoidCoords(width, height)
  {
    ghost var spans := TrapezoidSpans(width, height);
    coords := [];
    var z := 0;
    while z < height
      invariant 0 <= z <= RangeLen(height)
      invariant coords == Enumerate(spans[..z])
    {
      var x := 0;
      while x < width
        invariant 0 <= x <= RangeLen(width)
        invariant coords == Enumerate(spans[..z]) + SpanCoords(spans[z])[..x]
      {
        assert SpanCoords(spans[z])[..x + 1] == SpanCoords(spans[z])[..x] + [CubeCoordinate(x, z)];
        coords := coords + [CubeCoordinate(x, z)];
        x := x + 1;
      }
      assert SpanCoords(spans[z])[..x] == SpanCoords(spans[z]);
      EnumerateSnoc(spans, z);
      z := z + 1;
    }
    assert spans[..z] == spans;
  }

  /**
    HexagonGridLayoutStrategy.fetch_grid_coords: a fixed min_x, a start_x that drops by one
    per row, and the first x of a row the larger of the two; the width is not used.
   */
  method FetchHexagonCoords(width: int, height: int, orientation: Orientation)
    returns (coords: seq<CubeCoordinate>)
    requires HexagonHeight(height)
    ensures coords == HexagonCoords(height, orientation)
  {
    ghost var spans := HexagonSpans(height, orientation);
    coords := [];
    var gridSize := height;
    var hexRadius := gridSize / 2;
    var startX: int;
    if orientation == FlatTop {
      startX := gridSize / 2;
    } else {
      startX := (gridSize + 2) / 4;
    }
    var minX := startX - hexRadius;
    var y := 0;
    while y < gridSize
      invariant 0 <= y <= gridSize
      invariant startX == StartX(height, orientation) - y
      invariant coords == Enumerate(spans[..y])
    {
      var distFromMid := Abs(hexRadius - y);
      var lo := Max(startX, minX);
      var hi := lo + 2 * hexRadius - distFromMid + 1;
      assert spans[y].first == lo && spans[y].len == hi - lo;
      var x := lo;
      while x < hi
        invariant lo <= x <= hi
        invariant coords == Enumerate(spans[..y]) + SpanCoords(spans[y])[..x - lo]
      {
        var z: int;
        if orientation == FlatTop {
          z := y - gridSize / 4;
        } else {
          z := y;
        }
        assert SpanCoords(spans[y])[..x - lo + 1] == SpanCoords(spans[y])[..x - lo] + [CubeCoordinate(x, z)];
        coords := coords + [CubeCoordinate(x, z)];
        x := x + 1;
      }
      assert SpanCoords(spans[y])[..x - lo] == SpanCoords(spans[y]);
      EnumerateSnoc(spans, y);
      startX := startX - 1;
      y := y + 1;
    }
    assert spans[..y] == spans;
  }

  // ---------------------------------------------------------------------------------------
  // Dispatch over the four strategies

  /** What fetch_grid_coords of the given strategy returns. */
  function GridCoords(shape: Shape, conv: Converter, width: int, height: int, orientation: Orientation)
    : seq<CubeCoordinate>
    requires shape == Hexagon ==> HexagonHeight(height)
  {
    match shape
    case Rectangle => RectangleCoords(conv, width, height, orientation)
    case Triangle => TriangleCoords(height)
    case Trapezoid => TrapezoidCoords(width, height)
    case Hexagon => HexagonCoords(height, orientation)
  }

  /** fetch_grid_coords, dispatched on the strategy. */
  method FetchGridCoords(shape: Shape, conv: Converter, width: int, height: int, orientation: Orientation)
    returns (coords: seq<CubeCoordinate>)
    requires shape == Hexagon ==> HexagonHeight(height)
    ensures coords == GridCoords(shape, conv, width, height, orientation)
  {
    match shape
    case Rectangle => coords := FetchRectangleCoords(conv, width, height, orientation);
    case Triangle => coords := FetchTriangleCoords(width, height, orientation);
    case Trapezoid => coords := FetchTrapezoidCoords(width, height, orientation);
    case Hexagon => coords := FetchHexagonCoords(width, height, orientation);
  }

  /** The number of tiles of a shape that passed its size check. */
  function TileCount(shape: Shape, width: int, height: int): int
  {
    match shape
    case Rectangle => width * height
    case Triangle => height * (height + 1) / 2
    case Trapezoid => width * height
    case Hexagon => 3 * (height / 2) * (height / 2) + 3 * (height / 2) + 1
  }

  /**
    A size that passes the check can be enumerated, yields TileCount coordinates, and, for
    every shape whose coordinates do not go through the offset converters, no coordinate twice.
   */
  lemma ValidSizeEnumeration(shape: Shape, conv: Converter, width: int, height: int, orientation: Orientation)
    requires CheckSize(shape, width, height) == Pass
    ensures shape == Hexagon ==> HexagonHeight(height)
    ensures shape == Hexagon ==> |GridCoords(shape, conv, width, height, orientation)| == TileCount(shape, width, height)
    ensures shape != Hexagon ==> |GridCoords(shape, conv, width, height, orientation)| == TileCount(shape, width, height)
    ensures shape != Rectangle && (shape == Hexagon ==> HexagonHeight(height)) ==>
      Distinct(GridCoords(shape, conv, width, height, orientation))
  {
    match shape
    case Rectangle => RectangleCount(conv, width, height, orientation);
    case Triangle => TriangleCount(height); TriangleOrderAndCells(height);
    case Trapezoid => TrapezoidCount(width, height); TrapezoidOrderAndCells(width, height);
    case Hexagon => HexagonCount(height, orientation); HexagonOrder(height, orientation);
  }
}
