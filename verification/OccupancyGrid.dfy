/** The conservative occupancy grid of the navigation adapter: what `_rasterize`
    writes, what the geometry says (`_clearance`), and that the two agree. */
module OccupancyGrid {
  import opened Planar
  import opened Wrappers

  newtype Byte = i: int | 0 <= i < 256

  const FREE: Byte := 0
  const OCCUPIED: Byte := 255
  const BOUNDARY_SLACK := 0.000000001
  const MAX_SIDE := 4096
  const MAX_CELLS := 16 * 1024 * 1024

  datatype MapError = MapTooLarge

  /** One coordinate of the map bounds. */
  datatype Axis = Axis(low: real, high: real)

  datatype Bounds = Bounds(x: Axis, y: Axis)

  /** Telemetry with a non-positive extent is refused before it reaches the grid. */
  datatype Obstacle =
    | Rect(cx: real, cy: real, hx: real, hy: real)
    | Circle(cx: real, cy: real, radius: real)
  {
    predicate Valid() {
      match this
      case Rect(_, _, hx, hy) => hx > 0.0 && hy > 0.0
      case Circle(_, _, radius) => radius > 0.0
    }
  }

  datatype Raster = Raster(width: int, height: int, cells: seq<Byte>)

  function Ceil(v: real): int { -((-v).Floor) }

  // ---------------------------------------------------------------- geometry

  /** A grid request; `root2` is the square root of two the caller computed with. */
  datatype Frame = Frame(bounds: Bounds, resolution: real, padding: real, root2: real) {
    ghost predicate Valid() {
      resolution > 0.0 && padding >= 0.0 && IsRoot(root2, 2.0)
    }

    function HalfDiagonal(): real { root2 * resolution / 2.0 }

    function Inflation(): real { padding + HalfDiagonal() }

    function Count(axis: Axis): int
      requires resolution > 0.0
    {
      Ceil((axis.high - axis.low) / resolution)
    }

    function Sample(axis: Axis, i: int): real {
      axis.low + (i as real + 0.5) * resolution
    }

    function IndexOf(axis: Axis, v: real): int
      requires resolution > 0.0
    {
      ((v - axis.low) / resolution).Floor
    }

    predicate NearEdge(axis: Axis, i: int) {
      Min(Sample(axis, i) - axis.low, axis.high - Sample(axis, i)) <= Inflation() + BOUNDARY_SLACK
    }

    predicate Boundary(ix: int, iy: int) {
      NearEdge(bounds.x, ix) || NearEdge(bounds.y, iy)
    }

    predicate Spans(axis: Axis, centre: real, half: real, i: int)
      requires resolution > 0.0
    {
      IndexOf(axis, centre - half - Inflation()) <= i <= IndexOf(axis, centre + half + Inflation())
    }

    /** The unclamped footprint of one inflated obstacle. */
    predicate Covers(o: Obstacle, ix: int, iy: int)
      requires resolution > 0.0
    {
      match o
      case Rect(cx, cy, hx, hy) => Spans(bounds.x, cx, hx, ix) && Spans(bounds.y, cy, hy, iy)
      case Circle(cx, cy, radius) =>
        Square(Sample(bounds.x, ix) - cx) + Square(Sample(bounds.y, iy) - cy) <= Square(radius + Inflation())
    }

    /** The specification of the grid: no clamping, no order, no loops. */
    ghost predicate Occupied(obstacles: seq<Obstacle>, ix: int, iy: int)
      requires resolution > 0.0
    {
      Boundary(ix, iy) || exists o :: o in obstacles && Covers(o, ix, iy)
    }

    predicate InCell(axis: Axis, i: int, p: real) {
      axis.low + (i as real) * resolution <= p <= axis.low + (i as real + 1.0) * resolution
    }
  }

  function Column(k: int, width: int): int
    requires width > 0
  {
    k % width
  }

  function Row(k: int, width: int): int
    requires width > 0
  {
    k / width
  }

  ghost predicate Depicts(raster: Raster, f: Frame, obstacles: seq<Obstacle>)
    requires f.resolution > 0.0
  {
    && raster.width == f.Count(f.bounds.x) > 0
    && raster.height == f.Count(f.bounds.y) > 0
    && |raster.cells| == raster.width * raster.height
    && forall k :: 0 <= k < |raster.cells| ==>
         raster.cells[k] ==
         if f.Occupied(obstacles, Column(k, raster.width), Row(k, raster.width)) then OCCUPIED else FREE
  }

  // ------------------------------------------------- clearance of a position

  function Gap(hypot: (real, real) -> real, o: Obstacle, px: real, py: real): real {
    match o
    case Circle(cx, cy, radius) => hypot(px - cx, py - cy) - radius
    case Rect(cx, cy, hx, hy) => hypot(Max(Abs(px - cx) - hx, 0.0), Max(Abs(py - cy) - hy, 0.0))
  }

  function Distances(hypot: (real, real) -> real, bounds: Bounds, obstacles: seq<Obstacle>,
                     px: real, py: real, footprint: real): (d: seq<real>)
    ensures |d| == |obstacles| + 4
  {
    seq(|obstacles|, i requires 0 <= i < |obstacles| => Max(0.0, Gap(hypot, obstacles[i], px, py) - footprint)) +
    [Max(0.0, px - bounds.x.low - footprint), Max(0.0, bounds.x.high - px - footprint),
     Max(0.0, py - bounds.y.low - footprint), Max(0.0, bounds.y.high - py - footprint)]
  }

  function Smallest(d: seq<real>): (m: real)
    requires d != []
    ensures m in d && forall i :: 0 <= i < |d| ==> m <= d[i]
  {
    if |d| == 1 then d[0] else Min(d[0], Smallest(d[1..]))
  }

  /** Distance from the avatar's footprint to the nearest obstacle or map edge. */
  function Clearance(hypot: (real, real) -> real, bounds: Bounds, obstacles: seq<Obstacle>,
                     px: real, py: real, footprint: real): real
  {
    Max(0.0, Smallest(Distances(hypot, bounds, obstacles, px, py, footprint)))
  }

  // ------------------------------------------------------------ index algebra

  lemma Quotient(a: real, b: real)
    requires b > 0.0
    ensures (a / b) * b == a
  {
  }

  lemma ScaleBelow(n: real, q: real, step: real)
    requires step > 0.0 && n <= q
    ensures n * step <= q * step
  {
    ProductSign(q - n, step);
  }

  lemma ScaleNext(q: real, n: real, step: real)
    requires step > 0.0 && q < n + 1.0
    ensures q * step < n * step + step
  {
    assert (n + 1.0 - q) * step > 0.0;
  }

  lemma ScaleStep(k: real, n: real, step: real)
    requires step > 0.0 && k + 1.0 <= n
    ensures k * step + step <= n * step
  {
    ProductSign(n - k - 1.0, step);
  }

  lemma ScaledRounding(v: real, step: real, q: real)
    requires step > 0.0 && q * step == v
    ensures (q.Floor as real) * step <= v < (q.Floor as real) * step + step
    ensures v <= (Ceil(q) as real) * step
  {
    var n := q.Floor as real;
    calc {
      n * step;
    <= { ScaleBelow(n, q, step); }
      v;
    }
    calc {
      v;
    ==
      q * step;
    < { ScaleNext(q, n, step); }
      n * step + step;
    }
    calc {
      v;
    ==
      q * step;
    <= { ScaleBelow(q, Ceil(q) as real, step); }
      (Ceil(q) as real) * step;
    }
  }

  lemma IndexBounds(f: Frame, axis: Axis, v: real)
    requires f.resolution > 0.0
    ensures var i := f.IndexOf(axis, v) as real;
            axis.low + i * f.resolution <= v < axis.low + i * f.resolution + f.resolution
  {
    var q := (v - axis.low) / f.resolution;
    Quotient(v - axis.low, f.resolution);
    ScaledRounding(v - axis.low, f.resolution, q);
    var start := (q.Floor as real) * f.resolution;
    assert start <= v - axis.low < start + f.resolution;
    assert f.IndexOf(axis, v) == q.Floor;
  }

  /** An index at most (at least) that of `v` is a cell that starts before (ends after) `v`. */
  lemma IndexOrder(f: Frame, axis: Axis, v: real, i: int)
    requires f.resolution > 0.0
    ensures i <= f.IndexOf(axis, v) <==> axis.low + i as real * f.resolution <= v
  {
    var k, step := f.IndexOf(axis, v), f.resolution;
    IndexBounds(f, axis, v);
    hide f.IndexOf;
    if i <= k {
      calc {
        axis.low + i as real * step;
      <= { ScaleBelow(i as real, k as real, step); }
        axis.low + k as real * step;
      <=
        v;
      }
    } else {
      calc {
        v;
      <
        axis.low + k as real * step + step;
      <= { ScaleStep(k as real, i as real, step); }
        axis.low + i as real * step;
      }
    }
  }

  lemma IndexMonotone(f: Frame, axis: Axis, u: real, v: real)
    requires f.resolution > 0.0 && u <= v
    ensures f.IndexOf(axis, u) <= f.IndexOf(axis, v)
  {
    IndexOrder(f, axis, u, f.IndexOf(axis, u));
    IndexOrder(f, axis, v, f.IndexOf(axis, u));
  }

  lemma HalfDiagonalExceedsHalf(f: Frame)
    requires f.Valid()
    ensures f.HalfDiagonal() > f.resolution / 2.0
    ensures Square(f.HalfDiagonal()) == 2.0 * Square(f.resolution / 2.0)
  {
    SquareOrder(1.0, f.root2);
    MulOrder(1.0, f.root2, f.resolution / 2.0);
    var h := f.resolution / 2.0;
    assert f.HalfDiagonal() == f.root2 * h;
    assert (f.root2 * h) * (f.root2 * h) == (f.root2 * f.root2) * (h * h);
  }

  /** The outermost cells are always marked by the boundary rule. */
  lemma OutermostCellsAreNearEdge(f: Frame, axis: Axis, i: int)
    requires f.Valid()
    requires i == 0 || i == f.Count(axis) - 1
    ensures f.NearEdge(axis, i)
  {
    HalfDiagonalExceedsHalf(f);
    hide f.HalfDiagonal;
    if i == 0 {
      assert f.Sample(axis, 0) == axis.low + 0.5 * f.resolution;
    } else {
      CountReaches(f, axis);
      SampleFromTop(f, axis, i);
    }
  }

  lemma CountReaches(f: Frame, axis: Axis)
    requires f.resolution > 0.0
    ensures axis.high <= axis.low + (f.Count(axis) as real) * f.resolution
  {
    Quotient(axis.high - axis.low, f.resolution);
    ScaledRounding(axis.high - axis.low, f.resolution, (axis.high - axis.low) / f.resolution);
  }

  lemma SampleFromTop(f: Frame, axis: Axis, i: int)
    ensures f.Sample(axis, i) == axis.low + ((i + 1) as real) * f.resolution - f.resolution / 2.0
  {
  }

  function Clamp(value: int, maximum: int): int
    requires maximum >= 1
  {
    var low := if maximum - 1 < value then maximum - 1 else value;
    if low < 0 then 0 else low
  }

  /** Clamping an index range adds outermost cells only, and loses none inside the grid. */
  lemma ClampedRange(f: Frame, axis: Axis, first: int, last: int, i: int)
    requires f.Valid() && first <= last
    requires 0 <= i < f.Count(axis)
    ensures first <= i <= last ==> Clamp(first, f.Count(axis)) <= i <= Clamp(last, f.Count(axis))
    ensures Clamp(first, f.Count(axis)) <= i <= Clamp(last, f.Count(axis)) ==>
              first <= i <= last || f.NearEdge(axis, i)
  {
    if i == 0 || i == f.Count(axis) - 1 {
      OutermostCellsAreNearEdge(f, axis, i);
    }
  }

  /** A cell whose centre is in the inflated disc lies in the disc's index range. */
  lemma DiscWithinSpan(f: Frame, o: Obstacle, ix: int, iy: int)
    requires f.Valid() && o.Circle? && o.Valid() && f.Covers(o, ix, iy)
    ensures f.Spans(f.bounds.x, o.cx, o.radius, ix) && f.Spans(f.bounds.y, o.cy, o.radius, iy)
  {
    var r := o.radius + f.Inflation();
    var dx, dy := f.Sample(f.bounds.x, ix) - o.cx, f.Sample(f.bounds.y, iy) - o.cy;
    HalfDiagonalExceedsHalf(f);
    assert dx * dx <= r * r && dy * dy <= r * r;
    LengthBound(dx, r);
    LengthBound(dy, r);
    CentreWithinSpan(f, f.bounds.x, o.cx, o.radius, ix);
    CentreWithinSpan(f, f.bounds.y, o.cy, o.radius, iy);
  }

  lemma LengthBound(d: real, r: real)
    requires r >= 0.0 && d * d <= r * r
    ensures -r <= d <= r
  {
    if d >= 0.0 {
      SquareOrder(d, r);
    } else {
      assert (-d) * (-d) == d * d;
      SquareOrder(-d, r);
    }
  }

  lemma CentreWithinSpan(f: Frame, axis: Axis, centre: real, half: real, i: int)
    requires f.Valid()
    requires centre - half - f.Inflation() <= f.Sample(axis, i) <= centre + half + f.Inflation()
    ensures f.Spans(axis, centre, half, i)
  {
    IndexOrder(f, axis, f.Sample(axis, i), i);
    IndexOrder(f, axis, f.Sample(axis, i), i + 1);
    assert f.Sample(axis, i) == axis.low + (i as real) * f.resolution + 0.5 * f.resolution;
    assert f.Sample(axis, i) == axis.low + ((i + 1) as real) * f.resolution - 0.5 * f.resolution;
    IndexMonotone(f, axis, centre - half - f.Inflation(), f.Sample(axis, i));
    IndexMonotone(f, axis, f.Sample(axis, i), centre + half + f.Inflation());
  }

  // ----------------------------------------------------------- the rasteriser

  lemma ScaleRows(a: int, b: int, width: int)
    requires a <= b && width > 0
    ensures a * width <= b * width
  {
    assert (b - a) * width >= 0;
  }

  lemma DivMod(k: int, width: int)
    requires width > 0
    ensures Row(k, width) * width + Column(k, width) == k && 0 <= Column(k, width) < width
  {
  }

  lemma RowSpan(iy: int, width: int, k: int)
    requires width > 0
    ensures Row(k, width) == iy <==> iy * width <= k < iy * width + width
    ensures Row(k, width) == iy ==> Column(k, width) == k - iy * width
  {
    DivMod(k, width);
    hide Row, Column;
    var q := Row(k, width);
    if q < iy {
      ScaleRows(q + 1, iy, width);
      assert (q + 1) * width == q * width + width;
    } else if q > iy {
      ScaleRows(iy + 1, q, width);
      assert (iy + 1) * width == iy * width + width;
    }
  }

  lemma RowFits(iy: int, width: int, height: int)
    requires 0 <= iy < height && width > 0
    ensures 0 <= iy * width && iy * width + width <= height * width
  {
    ScaleRows(0, iy, width);
    ScaleRows(iy + 1, height, width);
    assert (iy + 1) * width == iy * width + width;
  }

  lemma CellsInGrid(width: int, height: int, k: int)
    requires width > 0 && 0 <= k < width * height
    ensures 0 <= Column(k, width) < width && 0 <= Row(k, width) < height
  {
    RowSpan(Row(k, width), width, k);
    RowSpan(height, width, k);
  }

  method PaintSpan(occupancy: array<Byte>, start: int, count: int)
    requires 0 <= start && 0 <= count && start + count <= occupancy.Length
    modifies occupancy
    ensures forall k :: 0 <= k < occupancy.Length ==>
              occupancy[k] == if start <= k < start + count then OCCUPIED else old(occupancy[k])
  {
    for n := 0 to count
      invariant forall k :: 0 <= k < occupancy.Length ==>
                  occupancy[k] == if start <= k < start + n then OCCUPIED else old(occupancy[k])
    {
      occupancy[start + n] := OCCUPIED;
    }
  }

  /** The clamped index range of one inflated extent along one axis. */
  method SpanOf(f: Frame, axis: Axis, centre: real, half: real) returns (first: int, last: int)
    requires f.Valid() && half > 0.0 && f.Count(axis) > 0
    ensures 0 <= first <= last < f.Count(axis)
    ensures forall i :: 0 <= i < f.Count(axis) && f.Spans(axis, centre, half, i) ==> first <= i <= last
    ensures forall i :: first <= i <= last ==> f.Spans(axis, centre, half, i) || f.NearEdge(axis, i)
  {
    var inflated := half + f.Inflation();
    var u, v := f.IndexOf(axis, centre - half - f.Inflation()), f.IndexOf(axis, centre + half + f.Inflation());
    HalfDiagonalExceedsHalf(f);
    IndexMonotone(f, axis, centre - half - f.Inflation(), centre + half + f.Inflation());
    first, last := Clamp(u, f.Count(axis)), Clamp(v, f.Count(axis));
    forall i | 0 <= i < f.Count(axis)
      ensures f.Spans(axis, centre, half, i) ==> first <= i <= last
      ensures first <= i <= last ==> f.Spans(axis, centre, half, i) || f.NearEdge(axis, i)
    {
      ClampedRange(f, axis, u, v, i);
    }
  }

  method PaintRect(occupancy: array<Byte>, f: Frame, width: int, height: int, o: Obstacle)
    requires f.Valid() && o.Rect? && o.Valid()
    requires width == f.Count(f.bounds.x) > 0 && height == f.Count(f.bounds.y) > 0
    requires occupancy.Length == width * height
    modifies occupancy
    ensures forall k :: 0 <= k < occupancy.Length && !f.Boundary(Column(k, width), Row(k, width)) ==>
              occupancy[k] ==
              if f.Covers(o, Column(k, width), Row(k, width)) then OCCUPIED else old(occupancy[k])
  {
    var ix0, ix1 := SpanOf(f, f.bounds.x, o.cx, o.hx);
    var iy0, iy1 := SpanOf(f, f.bounds.y, o.cy, o.hy);
    for iy := iy0 to iy1 + 1
      invariant forall k :: 0 <= k < occupancy.Length ==>
                  occupancy[k] ==
                  if ix0 <= Column(k, width) <= ix1 && iy0 <= Row(k, width) < iy then OCCUPIED
                  else old(occupancy[k])
    {
      RowFits(iy, width, height);
      PaintSpan(occupancy, iy * width + ix0, ix1 - ix0 + 1);
      forall k | 0 <= k < occupancy.Length
        ensures Row(k, width) == iy <==> iy * width <= k < iy * width + width
        ensures Row(k, width) == iy ==> Column(k, width) == k - iy * width
      {
        RowSpan(iy, width, k);
      }
    }
    forall k | 0 <= k < occupancy.Length
      ensures 0 <= Column(k, width) < width && 0 <= Row(k, width) < height
    {
      CellsInGrid(width, height, k);
    }
  }

  method PaintDisc(occupancy: array<Byte>, f: Frame, width: int, height: int, o: Obstacle)
    requires f.Valid() && o.Circle? && o.Valid()
    requires width == f.Count(f.bounds.x) > 0 && height == f.Count(f.bounds.y) > 0
    requires occupancy.Length == width * height
    modifies occupancy
    ensures forall k :: 0 <= k < occupancy.Length ==>
              occupancy[k] ==
              if f.Covers(o, Column(k, width), Row(k, width)) then OCCUPIED else old(occupancy[k])
  {
    var ix0, ix1 := SpanOf(f, f.bounds.x, o.cx, o.radius);
    var iy0, iy1 := SpanOf(f, f.bounds.y, o.cy, o.radius);
    var radius := o.radius + f.Inflation();
    for iy := iy0 to iy1 + 1
      invariant forall k :: 0 <= k < occupancy.Length ==>
                  occupancy[k] ==
                  if ix0 <= Column(k, width) <= ix1 && iy0 <= Row(k, width) < iy
                     && f.Covers(o, Column(k, width), Row(k, width))
                  then OCCUPIED else old(occupancy[k])
    {
      RowFits(iy, width, height);
      forall k | 0 <= k < occupancy.Length
        ensures Row(k, width) == iy <==> iy * width <= k < iy * width + width
        ensures Row(k, width) == iy ==> Column(k, width) == k - iy * width
      {
        RowSpan(iy, width, k);
      }
      var sampleY := f.Sample(f.bounds.y, iy);
      for ix := ix0 to ix1 + 1
        invariant forall k :: 0 <= k < occupancy.Length ==>
                    occupancy[k] ==
                    if ix0 <= Column(k, width) <= ix1 && iy0 <= Row(k, width) <= iy
                       && (Row(k, width) == iy ==> Column(k, width) < ix)
                       && f.Covers(o, Column(k, width), Row(k, width))
                    then OCCUPIED else old(occupancy[k])
      {
        var sampleX := f.Sample(f.bounds.x, ix);
        if Square(sampleX - o.cx) + Square(sampleY - o.cy) <= Square(radius) {
          occupancy[iy * width + ix] := OCCUPIED;
        }
      }
    }
    forall k | 0 <= k < occupancy.Length && f.Covers(o, Column(k, width), Row(k, width))
      ensures ix0 <= Column(k, width) <= ix1 && iy0 <= Row(k, width) <= iy1
    {
      CellsInGrid(width, height, k);
      DiscWithinSpan(f, o, Column(k, width), Row(k, width));
    }
  }

  method PaintBoundary(occupancy: array<Byte>, f: Frame, width: int, height: int)
    requires f.Valid()
    requires width == f.Count(f.bounds.x) > 0 && height == f.Count(f.bounds.y) > 0
    requires occupancy.Length == width * height
    modifies occupancy
    ensures forall k :: 0 <= k < occupancy.Length ==>
              occupancy[k] ==
              if f.Boundary(Column(k, width), Row(k, width)) then OCCUPIED else old(occupancy[k])
  {
    var clearance := f.padding + f.HalfDiagonal();
    for iy := 0 to height
      invariant forall k :: 0 <= k < occupancy.Length ==>
                  occupancy[k] ==
                  if Row(k, width) < iy && f.Boundary(Column(k, width), Row(k, width)) then OCCUPIED
                  else old(occupancy[k])
    {
      RowFits(iy, width, height);
      forall k | 0 <= k < occupancy.Length
        ensures Row(k, width) == iy <==> iy * width <= k < iy * width + width
        ensures Row(k, width) == iy ==> Column(k, width) == k - iy * width
      {
        RowSpan(iy, width, k);
      }
      var sampleY := f.Sample(f.bounds.y, iy);
      for ix := 0 to width
        invariant forall k :: 0 <= k < occupancy.Length ==>
                    occupancy[k] ==
                    if Row(k, width) <= iy && (Row(k, width) == iy ==> Column(k, width) < ix)
                       && f.Boundary(Column(k, width), Row(k, width))
                    then OCCUPIED else old(occupancy[k])
      {
        var sampleX := f.Sample(f.bounds.x, ix);
        if Min(Min(sampleX - f.bounds.x.low, f.bounds.x.high - sampleX),
               Min(sampleY - f.bounds.y.low, f.bounds.y.high - sampleY)) <= clearance + BOUNDARY_SLACK {
          occupancy[iy * width + ix] := OCCUPIED;
        }
      }
    }
    forall k | 0 <= k < occupancy.Length
      ensures Row(k, width) < height
    {
      CellsInGrid(width, height, k);
    }
  }

  predicate TooLarge(width: int, height: int) {
    width < 1 || height < 1 || width > MAX_SIDE || height > MAX_SIDE || width * height > MAX_CELLS
  }

  /** The grid is exactly the unclamped specification, whatever the obstacles. */
  method Rasterize(f: Frame, obstacles: seq<Obstacle>) returns (r: Result<Raster, MapError>)
    requires f.Valid() && forall o :: o in obstacles ==> o.Valid()
    ensures var width, height := f.Count(f.bounds.x), f.Count(f.bounds.y);
            r.Failure? <==> !(1 <= width <= 4096 && 1 <= height <= 4096 && width * height <= 16777216)
    ensures r.Success? ==> Depicts(r.value, f, obstacles)
  {
    var width, height := f.Count(f.bounds.x), f.Count(f.bounds.y);
    if TooLarge(width, height) {
      return Failure(MapTooLarge);
    }
    var occupancy := new Byte[width * height](_ => FREE);
    for n := 0 to |obstacles|
      invariant forall k :: 0 <= k < occupancy.Length && !f.Boundary(Column(k, width), Row(k, width)) ==>
                  occupancy[k] ==
                  if exists o :: o in obstacles[..n] && f.Covers(o, Column(k, width), Row(k, width))
                  then OCCUPIED else FREE
    {
      assert obstacles[..n + 1] == obstacles[..n] + [obstacles[n]];
      if obstacles[n].Rect? {
        PaintRect(occupancy, f, width, height, obstacles[n]);
      } else {
        PaintDisc(occupancy, f, width, height, obstacles[n]);
      }
    }
    assert obstacles[..|obstacles|] == obstacles;
    PaintBoundary(occupancy, f, width, height);
    return Success(Raster(width, height, occupancy[..]));
  }

  // --------------------------------------------------------- main theorems

  /** Along one axis, a cell outside an inflated extent is further than `Inflation()` from it. */
  lemma OutsideSpan(f: Frame, axis: Axis, centre: real, half: real, i: int, p: real)
    requires f.Valid() && f.InCell(axis, i, p) && !f.Spans(axis, centre, half, i)
    ensures Abs(p - centre) - half >= f.Inflation()
  {
    var u, v := centre - half - f.Inflation(), centre + half + f.Inflation();
    if i < f.IndexOf(axis, u) {
      IndexOrder(f, axis, u, i + 1);
    } else {
      IndexOrder(f, axis, v, i);
    }
  }

  lemma InCellNearSample(f: Frame, axis: Axis, i: int, p: real)
    requires f.Valid() && f.InCell(axis, i, p)
    ensures -(f.resolution / 2.0) <= p - f.Sample(axis, i) <= f.resolution / 2.0
    ensures Square(p - f.Sample(axis, i)) <= Square(f.resolution / 2.0)
  {
    var h, d := f.resolution / 2.0, p - f.Sample(axis, i);
    assert f.Sample(axis, i) == axis.low + (i as real) * f.resolution + h;
    assert (i as real + 1.0) * f.resolution == (i as real) * f.resolution + f.resolution;
    if d >= 0.0 {
      SquareOrder(d, h);
    } else {
      SquareOrder(-d, h);
      assert (-d) * (-d) == d * d;
    }
  }

  lemma LegsBoundHypot(hypot: (real, real) -> real, a: real, b: real)
    requires IsHypot(hypot) && a >= 0.0 && b >= 0.0
    ensures hypot(a, b) >= a && hypot(a, b) >= b
  {
    assert IsRoot(hypot(a, b), Square(a) + Square(b));
    SquareOrder(a, hypot(a, b));
    SquareOrder(b, hypot(a, b));
  }

  lemma FreeOfRect(f: Frame, hypot: (real, real) -> real, o: Obstacle, ix: int, iy: int, px: real, py: real)
    requires f.Valid() && IsHypot(hypot) && o.Rect? && o.Valid()
    requires f.InCell(f.bounds.x, ix, px) && f.InCell(f.bounds.y, iy, py)
    requires !f.Covers(o, ix, iy)
    ensures Gap(hypot, o, px, py) > f.padding
  {
    HalfDiagonalExceedsHalf(f);
    LegsBoundHypot(hypot, Max(Abs(px - o.cx) - o.hx, 0.0), Max(Abs(py - o.cy) - o.hy, 0.0));
    if !f.Spans(f.bounds.x, o.cx, o.hx, ix) {
      OutsideSpan(f, f.bounds.x, o.cx, o.hx, ix, px);
    } else {
      OutsideSpan(f, f.bounds.y, o.cy, o.hy, iy, py);
    }
  }

  /** A point within `h` of one that is further than `reach + h` away is further than `reach` away. */
  lemma StillFar(px: real, py: real, sx: real, sy: real, cx: real, cy: real, d: real, reach: real, h: real)
    requires reach >= 0.0 && h >= 0.0 && IsRoot(d, Square(px - cx) + Square(py - cy))
    requires Square(sx - px) + Square(sy - py) <= h * h
    requires Square(sx - cx) + Square(sy - cy) > Square(reach + h)
    ensures d > reach
  {
    if d <= reach {
      SquareOrder(d, reach);
      Triangle(px - cx, py - cy, sx - px, sy - py, reach, h);
    }
  }

  lemma SampleNearPoint(f: Frame, ix: int, iy: int, px: real, py: real)
    requires f.Valid() && f.InCell(f.bounds.x, ix, px) && f.InCell(f.bounds.y, iy, py)
    ensures Square(f.Sample(f.bounds.x, ix) - px) + Square(f.Sample(f.bounds.y, iy) - py)
              <= f.HalfDiagonal() * f.HalfDiagonal()
  {
    HalfDiagonalExceedsHalf(f);
    InCellNearSample(f, f.bounds.x, ix, px);
    InCellNearSample(f, f.bounds.y, iy, py);
    SquareOfDifference(px, f.Sample(f.bounds.x, ix));
    SquareOfDifference(py, f.Sample(f.bounds.y, iy));
  }

  lemma SquareOfDifference(a: real, b: real)
    ensures Square(a - b) == Square(b - a)
  {
  }

  lemma FreeOfDisc(f: Frame, o: Obstacle, ix: int, iy: int, px: real, py: real, d: real)
    requires f.Valid() && o.Circle? && o.Valid() && IsRoot(d, Square(px - o.cx) + Square(py - o.cy))
    requires f.InCell(f.bounds.x, ix, px) && f.InCell(f.bounds.y, iy, py)
    requires !f.Covers(o, ix, iy)
    ensures d - o.radius > f.padding
  {
    hide Square;
    var h, reach := f.HalfDiagonal(), o.radius + f.padding;
    assert h >= 0.0 by { HalfDiagonalExceedsHalf(f); }
    SampleNearPoint(f, ix, iy, px, py);
    assert reach + h == o.radius + f.Inflation();
    StillFar(px, py, f.Sample(f.bounds.x, ix), f.Sample(f.bounds.y, iy), o.cx, o.cy, d, reach, h);
  }

  lemma FreeOfObstacle(f: Frame, hypot: (real, real) -> real, o: Obstacle, ix: int, iy: int, px: real, py: real)
    requires f.Valid() && IsHypot(hypot) && o.Valid()
    requires f.InCell(f.bounds.x, ix, px) && f.InCell(f.bounds.y, iy, py)
    requires !f.Covers(o, ix, iy)
    ensures Gap(hypot, o, px, py) > f.padding
  {
    hide Square, f.Covers, f.InCell;
    match o
    case Rect(_, _, _, _) =>
      FreeOfRect(f, hypot, o, ix, iy, px, py);
    case Circle(cx, cy, _) =>
      assert IsRoot(hypot(px - cx, py - cy), Square(px - cx) + Square(py - cy));
      FreeOfDisc(f, o, ix, iy, px, py, hypot(px - cx, py - cy));
  }

  lemma FreeOfEdge(f: Frame, axis: Axis, i: int, p: real)
    requires f.Valid() && f.InCell(axis, i, p) && !f.NearEdge(axis, i)
    ensures p - axis.low > f.padding && axis.high - p > f.padding
  {
    HalfDiagonalExceedsHalf(f);
    InCellNearSample(f, axis, i, p);
  }

  /** Soundness: everywhere in a free cell the avatar's footprint clears every obstacle and edge. */
  lemma FreeCellIsClear(f: Frame, hypot: (real, real) -> real, obstacles: seq<Obstacle>,
                        ix: int, iy: int, px: real, py: real)
    requires f.Valid() && IsHypot(hypot)
    requires forall o :: o in obstacles ==> o.Valid()
    requires !f.Occupied(obstacles, ix, iy)
    requires f.InCell(f.bounds.x, ix, px) && f.InCell(f.bounds.y, iy, py)
    ensures Clearance(hypot, f.bounds, obstacles, px, py, f.padding) > 0.0
  {
    FreeOfEdge(f, f.bounds.x, ix, px);
    FreeOfEdge(f, f.bounds.y, iy, py);
    var d := Distances(hypot, f.bounds, obstacles, px, py, f.padding);
    forall i | 0 <= i < |obstacles|
      ensures d[i] > 0.0
    {
      assert obstacles[i] in obstacles;
      FreeOfObstacle(f, hypot, obstacles[i], ix, iy, px, py);
    }
    hide Gap, f.Boundary, f.Covers, f.InCell;
    assert forall i :: 0 <= i < |d| ==> d[i] > 0.0;
  }

  /** The same for the bytes: a zero byte of a raster means clearance all over its cell. */
  lemma ZeroByteIsClear(f: Frame, hypot: (real, real) -> real, obstacles: seq<Obstacle>, raster: Raster,
                        k: int, px: real, py: real)
    requires f.Valid() && IsHypot(hypot) && Depicts(raster, f, obstacles)
    requires forall o :: o in obstacles ==> o.Valid()
    requires 0 <= k < |raster.cells| && raster.cells[k] == FREE
    requires f.InCell(f.bounds.x, Column(k, raster.width), px) && f.InCell(f.bounds.y, Row(k, raster.width), py)
    ensures Clearance(hypot, f.bounds, obstacles, px, py, f.padding) > 0.0
  {
    FreeCellIsClear(f, hypot, obstacles, Column(k, raster.width), Row(k, raster.width), px, py);
  }

  // ------------------------------------------------- why a cell is occupied

  /** The grid covers an axis with no row to spare. */
  lemma CountIsLeast(f: Frame, axis: Axis)
    requires f.resolution > 0.0
    ensures axis.high <= axis.low + (f.Count(axis) as real) * f.resolution
    ensures axis.low + ((f.Count(axis) - 1) as real) * f.resolution < axis.high
  {
    CountReaches(f, axis);
    var q := (axis.low - axis.high) / f.resolution;
    Quotient(axis.low - axis.high, f.resolution);
    ScaledRounding(axis.low - axis.high, f.resolution, q);
    assert -((axis.high - axis.low) / f.resolution) == q by {
      Quotient(axis.high - axis.low, f.resolution);
      SameQuotient(-((axis.high - axis.low) / f.resolution), q, f.resolution);
    }
    assert f.Count(axis) == -q.Floor;
    assert ((-q.Floor - 1) as real) * f.resolution == -((q.Floor as real) * f.resolution) - f.resolution;
  }

  lemma SameQuotient(a: real, b: real, step: real)
    requires step > 0.0 && a * step == b * step
    ensures a == b
  {
    ProductSign(a - b, step);
    ProductSign(b - a, step);
  }

  /** How far from a map edge, a circle or a rectangle's extents a cell's centre may be and still be occupied. */
  predicate EdgeWithin(bounds: Bounds, x: real, y: real, reach: real) {
    || x - bounds.x.low <= reach || bounds.x.high - x <= reach
    || y - bounds.y.low <= reach || bounds.y.high - y <= reach
  }

  predicate Within(hypot: (real, real) -> real, o: Obstacle, x: real, y: real, reach: real, slack: real) {
    match o
    case Circle(cx, cy, radius) => hypot(x - cx, y - cy) - radius <= reach
    case Rect(cx, cy, hx, hy) => Abs(x - cx) - hx <= reach + slack && Abs(y - cy) - hy <= reach + slack
  }

  lemma SpanIsClose(f: Frame, axis: Axis, centre: real, half: real, i: int)
    requires f.Valid() && f.Spans(axis, centre, half, i)
    ensures Abs(f.Sample(axis, i) - centre) - half <= f.Inflation() + f.resolution / 2.0
  {
    SpanEdges(f, axis, centre, half, i);
    SampleMiddle(f, axis, i);
    MiddleIsClose(axis.low + (i as real) * f.resolution, centre, half, f.Inflation(), f.resolution);
    hide f.Inflation, f.Sample, f.Spans, Abs;
  }

  lemma SpanEdges(f: Frame, axis: Axis, centre: real, half: real, i: int)
    requires f.Valid() && f.Spans(axis, centre, half, i)
    ensures var edge := axis.low + (i as real) * f.resolution;
            edge <= centre + half + f.Inflation() && centre - half - f.Inflation() <= edge + f.resolution
  {
    hide f.Inflation;
    IndexOrder(f, axis, centre + half + f.Inflation(), i);
    IndexBounds(f, axis, centre - half - f.Inflation());
    ScaleBelow(f.IndexOf(axis, centre - half - f.Inflation()) as real, i as real, f.resolution);
    hide f.IndexOf;
  }

  lemma MiddleIsClose(edge: real, centre: real, half: real, reach: real, step: real)
    requires edge <= centre + half + reach && centre - half - reach <= edge + step
    ensures Abs(edge + step / 2.0 - centre) - half <= reach + step / 2.0
  {
  }

  lemma SampleMiddle(f: Frame, axis: Axis, i: int)
    ensures f.Sample(axis, i) == axis.low + (i as real) * f.resolution + f.resolution / 2.0
  {
  }

  lemma DiscIsClose(hypot: (real, real) -> real, dx: real, dy: real, r: real)
    requires IsHypot(hypot) && r >= 0.0
    ensures Square(dx) + Square(dy) <= Square(r) <==> hypot(dx, dy) <= r
  {
    assert IsRoot(hypot(dx, dy), Square(dx) + Square(dy));
    SquareOrder(hypot(dx, dy), r);
  }

  lemma CoveredIsClose(f: Frame, hypot: (real, real) -> real, o: Obstacle, ix: int, iy: int)
    requires f.Valid() && IsHypot(hypot) && o.Valid()
    ensures var x, y := f.Sample(f.bounds.x, ix), f.Sample(f.bounds.y, iy);
            && (f.Covers(o, ix, iy) ==> Within(hypot, o, x, y, f.Inflation(), f.resolution / 2.0))
            && (Within(hypot, o, x, y, f.Inflation(), 0.0) ==> f.Covers(o, ix, iy))
  {
    hide f.Sample, f.Spans;
    match o
    case Rect(cx, cy, hx, hy) =>
      if f.Covers(o, ix, iy) {
        SpanIsClose(f, f.bounds.x, cx, hx, ix);
        SpanIsClose(f, f.bounds.y, cy, hy, iy);
      }
      if Within(hypot, o, f.Sample(f.bounds.x, ix), f.Sample(f.bounds.y, iy), f.Inflation(), 0.0) {
        CentreWithinSpan(f, f.bounds.x, cx, hx, ix);
        CentreWithinSpan(f, f.bounds.y, cy, hy, iy);
      }
    case Circle(cx, cy, radius) =>
      HalfDiagonalExceedsHalf(f);
      DiscIsClose(hypot, f.Sample(f.bounds.x, ix) - cx, f.Sample(f.bounds.y, iy) - cy, radius + f.Inflation());
  }

  lemma BoundaryIsClose(f: Frame, ix: int, iy: int)
    ensures f.Boundary(ix, iy) <==>
            EdgeWithin(f.bounds, f.Sample(f.bounds.x, ix), f.Sample(f.bounds.y, iy), f.Inflation() + 0.000000001)
  {
    hide f.Sample, f.Inflation;
  }

  ghost predicate NearSomething(hypot: (real, real) -> real, bounds: Bounds, obstacles: seq<Obstacle>, x: real, y: real,
                                reach: real, slack: real)
  {
    EdgeWithin(bounds, x, y, reach + 0.000000001) || exists o :: o in obstacles && Within(hypot, o, x, y, reach, slack)
  }

  lemma OccupiedNear(f: Frame, hypot: (real, real) -> real, obstacles: seq<Obstacle>, ix: int, iy: int)
    requires f.Valid() && IsHypot(hypot) && forall o :: o in obstacles ==> o.Valid()
    ensures var x, y := f.Sample(f.bounds.x, ix), f.Sample(f.bounds.y, iy);
            && (f.Occupied(obstacles, ix, iy) ==>
                  NearSomething(hypot, f.bounds, obstacles, x, y, f.Inflation(), f.resolution / 2.0))
            && (NearSomething(hypot, f.bounds, obstacles, x, y, f.Inflation(), 0.0) ==> f.Occupied(obstacles, ix, iy))
  {
    hide f.Covers, Within, f.Boundary, EdgeWithin, f.Inflation, f.Sample;
    BoundaryIsClose(f, ix, iy);
    var x, y := f.Sample(f.bounds.x, ix), f.Sample(f.bounds.y, iy);
    forall o | o in obstacles
      ensures f.Covers(o, ix, iy) ==> Within(hypot, o, x, y, f.Inflation(), f.resolution / 2.0)
      ensures Within(hypot, o, x, y, f.Inflation(), 0.0) ==> f.Covers(o, ix, iy)
    {
      CoveredIsClose(f, hypot, o, ix, iy);
    }
  }

  /** Why the byte of a cell is 255: its centre is near something, at the padding and half a cell diagonal. */
  ghost predicate ByteIsTight(f: Frame, hypot: (real, real) -> real, obstacles: seq<Obstacle>,
                              ix: int, iy: int, b: Byte)
  {
    var reach := f.padding + f.root2 * f.resolution / 2.0;
    var x := f.bounds.x.low + (ix as real + 0.5) * f.resolution;
    var y := f.bounds.y.low + (iy as real + 0.5) * f.resolution;
    && (b == 255 || b == 0)
    && (b == 255 ==> NearSomething(hypot, f.bounds, obstacles, x, y, reach, f.resolution / 2.0))
    && (NearSomething(hypot, f.bounds, obstacles, x, y, reach, 0.0) ==> b == 255)
  }

  lemma OccupiedIsTight(f: Frame, hypot: (real, real) -> real, obstacles: seq<Obstacle>, ix: int, iy: int)
    requires f.Valid() && IsHypot(hypot) && forall o :: o in obstacles ==> o.Valid()
    ensures ByteIsTight(f, hypot, obstacles, ix, iy, if f.Occupied(obstacles, ix, iy) then OCCUPIED else FREE)
  {
    hide NearSomething, f.Occupied, IsHypot;
    OccupiedNear(f, hypot, obstacles, ix, iy);
    var reach := f.padding + f.root2 * f.resolution / 2.0;
    var x := f.bounds.x.low + (ix as real + 0.5) * f.resolution;
    var y := f.bounds.y.low + (iy as real + 0.5) * f.resolution;
    assert f.Inflation() == reach && f.Sample(f.bounds.x, ix) == x && f.Sample(f.bounds.y, iy) == y;
    hide f.Sample, f.Inflation;
  }

  /** Tightness: a cell is occupied only if its centre is within the padding and half a cell diagonal of a map edge or
      of an obstacle, up to half a cell more beside a rectangle; and it is occupied if it is within that distance. */
  lemma OccupiedIsClose(f: Frame, hypot: (real, real) -> real, obstacles: seq<Obstacle>, raster: Raster, k: int)
    requires f.Valid() && IsHypot(hypot) && Depicts(raster, f, obstacles)
    requires forall o :: o in obstacles ==> o.Valid()
    requires 0 <= k < |raster.cells|
    ensures ByteIsTight(f, hypot, obstacles, k % raster.width, k / raster.width, raster.cells[k])
  {
    hide ByteIsTight, f.Occupied, f.Count, IsHypot, f.Valid;
    OccupiedIsTight(f, hypot, obstacles, Column(k, raster.width), Row(k, raster.width));
  }

  /** Two obstacle lists with the same members give byte-identical grids. */
  lemma OrderIsIrrelevant(f: Frame, obstacles: seq<Obstacle>, others: seq<Obstacle>, a: Raster, b: Raster)
    requires f.Valid()
    requires forall o :: o in obstacles <==> o in others
    requires Depicts(a, f, obstacles) && Depicts(b, f, others)
    ensures a == b
  {
    forall k | 0 <= k < |a.cells|
      ensures a.cells[k] == b.cells[k]
    {
      var ix, iy := Column(k, a.width), Row(k, a.width);
      assert f.Occupied(obstacles, ix, iy) == f.Occupied(others, ix, iy);
    }
    assert a.cells == b.cells;
  }

  /** A larger footprint never frees a cell, and neither does an extra obstacle. */
  lemma GrowsWithPaddingAndObstacles(f: Frame, wider: Frame, obstacles: seq<Obstacle>, more: seq<Obstacle>,
                                     a: Raster, b: Raster, k: int)
    requires f.Valid() && wider.Valid()
    requires wider == f.(padding := wider.padding) && f.padding <= wider.padding
    requires forall o :: o in obstacles ==> o.Valid() && o in more
    requires Depicts(a, f, obstacles) && Depicts(b, wider, more)
    requires 0 <= k < |a.cells| && a.cells[k] == OCCUPIED
    ensures k < |b.cells| && b.cells[k] == OCCUPIED
  {
    OccupiedGrows(f, wider, obstacles, more, Column(k, a.width), Row(k, a.width));
  }

  lemma OccupiedGrows(f: Frame, wider: Frame, obstacles: seq<Obstacle>, more: seq<Obstacle>, ix: int, iy: int)
    requires f.Valid() && wider.Valid()
    requires wider == f.(padding := wider.padding) && f.padding <= wider.padding
    requires forall o :: o in obstacles ==> o.Valid() && o in more
    requires f.Occupied(obstacles, ix, iy)
    ensures wider.Occupied(more, ix, iy)
  {
    if f.Boundary(ix, iy) {
      BoundaryGrows(f, wider, ix, iy);
    } else {
      var o :| o in obstacles && f.Covers(o, ix, iy);
      CoversGrows(f, wider, o, ix, iy);
    }
  }

  lemma PaddingKeepsSamples(f: Frame, wider: Frame, axis: Axis, i: int)
    requires wider == f.(padding := wider.padding)
    ensures wider.Sample(axis, i) == f.Sample(axis, i) && wider.HalfDiagonal() == f.HalfDiagonal()
  {
  }

  lemma BoundaryGrows(f: Frame, wider: Frame, ix: int, iy: int)
    requires wider == f.(padding := wider.padding) && f.padding <= wider.padding
    requires f.Boundary(ix, iy)
    ensures wider.Boundary(ix, iy)
  {
    PaddingKeepsSamples(f, wider, f.bounds.x, ix);
    PaddingKeepsSamples(f, wider, f.bounds.y, iy);
    hide f.Sample, f.HalfDiagonal;
  }

  lemma CoversGrows(f: Frame, wider: Frame, o: Obstacle, ix: int, iy: int)
    requires f.Valid() && wider.Valid() && o.Valid()
    requires wider == f.(padding := wider.padding) && f.padding <= wider.padding
    requires f.Covers(o, ix, iy)
    ensures wider.Covers(o, ix, iy)
  {
    match o {
      case Rect(cx, cy, hx, hy) =>
        SpansGrow(f, wider, f.bounds.x, cx, hx, ix);
        SpansGrow(f, wider, f.bounds.y, cy, hy, iy);
      case Circle(_, _, radius) =>
        HalfDiagonalExceedsHalf(f);
        SquareOrder(radius + f.Inflation(), radius + wider.Inflation());
    }
  }

  lemma SpansGrow(f: Frame, wider: Frame, axis: Axis, centre: real, half: real, i: int)
    requires f.Valid() && wider.Valid()
    requires wider == f.(padding := wider.padding) && f.padding <= wider.padding
    requires f.Spans(axis, centre, half, i)
    ensures wider.Spans(axis, centre, half, i)
  {
    IndexMonotone(f, axis, centre - half - wider.Inflation(), centre - half - f.Inflation());
    IndexMonotone(f, axis, centre + half + f.Inflation(), centre + half + wider.Inflation());
  }
}
