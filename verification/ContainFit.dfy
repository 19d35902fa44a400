/** Contain-fit of a fixed-size source into the terminal grid, in 32.32 fixed-point cells. */
module ContainFit {
  import opened Wrappers

  type u32 = x: int | 0 <= x < 0x1_0000_0000

  const FIXED_ONE: int := 0x1_0000_0000
  const I64_LIMIT: int := 0x8000_0000_0000_0000
  const CELLS: nat := 0x8000_0000 // the first number of cells that 32.32 does not hold
  const I128_LIMIT: int := 0x8000_0000_0000_0000_0000_0000_0000_0000

  datatype Display = Display(columns: u32, rows: u32, cellWidth: u32, cellHeight: u32)

  datatype Placement = Placement(
    x: int, y: int, width: int, height: int, sourceWidth: u32, sourceHeight: u32, statusRow: u32)

  datatype Error = Degenerate | Overflow

  function CheckedMul(a: int, b: int): Result<int, Error> {
    if -I128_LIMIT <= a * b < I128_LIMIT then Success(a * b) else Failure(Overflow)
  }

  /** Pixels to fixed-point cells. */
  function Fixed(pixels: int, cell: u32): Result<int, Error>
    requires cell > 0
  {
    var scaled :- CheckedMul(pixels, FIXED_ONE);
    if -I64_LIMIT <= scaled / cell < I64_LIMIT then Success(scaled / cell) else Failure(Overflow)
  }

  /** The rendered size in pixels, limited by the width unless that makes it too tall. */
  function Fit(availableWidth: int, availableHeight: int, sourceWidth: u32, sourceHeight: u32)
    : Result<(int, int), Error>
    requires sourceWidth > 0 && sourceHeight > 0
  {
    var byWidth :- CheckedMul(availableWidth, sourceHeight);
    if byWidth / sourceWidth <= availableHeight then
      Success((availableWidth, byWidth / sourceWidth))
    else
      var byHeight :- CheckedMul(availableHeight, sourceWidth);
      Success((byHeight / sourceHeight, availableHeight))
  }

  predicate CanReserve(d: Display, sourceWidth: u32, sourceHeight: u32, reserved: u32) {
    && sourceWidth != 0 && sourceHeight != 0
    && d.columns != 0 && d.rows >= 1 + reserved
    && d.cellWidth != 0 && d.cellHeight != 0
  }

  function CalculateMode(d: Display, sourceWidth: u32, sourceHeight: u32, reserveStatusRow: bool)
    : Result<Placement, Error>
  {
    var reserved: u32 := if reserveStatusRow then 1 else 0;
    if !CanReserve(d, sourceWidth, sourceHeight, reserved) then Failure(Degenerate)
    else
      var availableWidth :- CheckedMul(d.columns, d.cellWidth);
      var availableHeight :- CheckedMul(d.rows - reserved, d.cellHeight);
      var (renderWidth, renderHeight) :- Fit(availableWidth, availableHeight, sourceWidth, sourceHeight);
      // Neither difference is negative, so truncating and flooring division agree.
      var x :- Fixed((availableWidth - renderWidth) / 2, d.cellWidth);
      var y :- Fixed((availableHeight - renderHeight) / 2, d.cellHeight);
      var width :- Fixed(renderWidth, d.cellWidth);
      var height :- Fixed(renderHeight, d.cellHeight);
      Success(Placement(x, y, width, height, sourceWidth, sourceHeight, d.rows - reserved))
  }

  function Calculate(d: Display, sourceWidth: u32, sourceHeight: u32): Result<Placement, Error> {
    CalculateMode(d, sourceWidth, sourceHeight, true)
  }

  function CalculateFull(d: Display, sourceWidth: u32, sourceHeight: u32): Result<Placement, Error> {
    CalculateMode(d, sourceWidth, sourceHeight, false)
  }

  // ------------------------------------------------------------------------------------------
  // Integer division
  // ------------------------------------------------------------------------------------------

  lemma FloorBounds(a: int, b: int)
    requires b > 0
    ensures b * (a / b) <= a < b * (a / b) + b
  {}

  /** The floor is the largest integer whose product does not exceed the dividend. */
  lemma FloorIsLargest(a: int, b: int, q: int)
    requires b > 0
    ensures q * b <= a <==> q <= a / b
  {
    FloorBounds(a, b);
    if q <= a / b {
      assert q * b <= (a / b) * b;
    } else {
      assert q * b >= (a / b + 1) * b;
      assert (a / b + 1) * b == b * (a / b) + b;
    }
  }

  lemma FloorIsMonotone(a: int, b: int, c: int)
    requires c > 0 && a <= b
    ensures a / c <= b / c
  {
    FloorBounds(a, c);
    FloorIsLargest(b, c, a / c);
  }

  lemma FloorsAdd(a: int, b: int, c: int)
    requires c > 0
    ensures a / c + b / c <= (a + b) / c
  {
    FloorBounds(a, c);
    FloorBounds(b, c);
    assert (a / c + b / c) * c == c * (a / c) + c * (b / c);
    FloorIsLargest(a + b, c, a / c + b / c);
  }

  lemma ExactQuotient(n: int, c: int)
    requires c > 0
    ensures n * c / c == n
  {
    FloorIsLargest(n * c, c, n);
    FloorIsLargest(n * c, c, n + 1);
    assert (n + 1) * c == n * c + c;
  }

  lemma MulIsMonotone(a: nat, b: nat, c: nat)
    requires a <= b
    ensures a * c <= b * c
  {}

  lemma BoundedProduct(a: nat, m: nat, b: nat, n: nat)
    requires a <= m && b <= n
    ensures 0 <= a * b <= m * n
  {
    MulIsMonotone(a, m, b);
    MulIsMonotone(b, n, m);
  }

  // ------------------------------------------------------------------------------------------
  // The fit in pixels
  // ------------------------------------------------------------------------------------------

  const PIXELS: nat := 0x1_0000_0000_0000_0000

  /** The fit never overflows, stays inside, fills one dimension, and misses the source aspect by
      less than one pixel in the other. */
  lemma FitFills(aw: nat, ah: nat, sw: u32, sh: u32)
    requires sw > 0 && sh > 0 && aw < PIXELS && ah < PIXELS
    ensures Fit(aw, ah, sw, sh).Success?
    ensures var (rw, rh) := Fit(aw, ah, sw, sh).value;
      && 0 <= rw <= aw && 0 <= rh <= ah
      && ((rw == aw && 0 <= aw * sh - rh * sw < sw) || (rh == ah && 0 <= ah * sw - rw * sh < sh))
  {
    BoundedProduct(aw, PIXELS, sh, FIXED_ONE);
    BoundedProduct(ah, PIXELS, sw, FIXED_ONE);
    assert PIXELS * FIXED_ONE < I128_LIMIT;
    FloorBounds(aw * sh, sw);
    FloorBounds(ah * sw, sh);
    FloorIsLargest(aw * sh, sw, 0);
    FloorIsLargest(ah * sw, sh, 0);
    if aw * sh / sw > ah {
      FloorIsLargest(aw * sh, sw, ah);
      FloorIsMonotone(ah * sw, aw * sh, sh);
      assert aw * sh / sh == aw;
    }
  }

  /** No rectangle with exactly the source aspect that fits is larger in either dimension. */
  lemma FitIsMaximal(aw: nat, ah: nat, sw: u32, sh: u32, w: nat, h: nat)
    requires sw > 0 && sh > 0 && aw < PIXELS && ah < PIXELS
    requires w * sh == h * sw && w <= aw && h <= ah
    ensures Fit(aw, ah, sw, sh).Success?
    ensures w <= Fit(aw, ah, sw, sh).value.0 && h <= Fit(aw, ah, sw, sh).value.1
  {
    FitFills(aw, ah, sw, sh);
    MulIsMonotone(w, aw, sh);
    FloorIsLargest(aw * sh, sw, h);
    MulIsMonotone(h, ah, sw);
    FloorIsLargest(ah * sw, sh, w);
  }

  /** More height never shrinks the fit. */
  lemma FitIsMonotone(aw: nat, ah: nat, taller: nat, sw: u32, sh: u32)
    requires sw > 0 && sh > 0 && aw < PIXELS && ah <= taller < PIXELS
    ensures Fit(aw, ah, sw, sh).Success? && Fit(aw, taller, sw, sh).Success?
    ensures Fit(aw, ah, sw, sh).value.0 <= Fit(aw, taller, sw, sh).value.0
    ensures Fit(aw, ah, sw, sh).value.1 <= Fit(aw, taller, sw, sh).value.1
  {
    FitFills(aw, ah, sw, sh);
    FitFills(aw, taller, sw, sh);
    MulIsMonotone(ah, taller, sw);
    FloorIsMonotone(ah * sw, taller * sw, sh);
  }

  // ------------------------------------------------------------------------------------------
  // The placement in cells
  // ------------------------------------------------------------------------------------------

  lemma FixedIsFloor(pixels: nat, count: nat, cell: u32)
    requires cell > 0 && pixels <= count * cell < PIXELS
    ensures 0 <= pixels * FIXED_ONE / cell <= count * FIXED_ONE
    ensures Fixed(pixels, cell) ==
      if pixels * FIXED_ONE / cell < I64_LIMIT then Success(pixels * FIXED_ONE / cell) else Failure(Overflow)
  {
    FloorIsLargest(pixels * FIXED_ONE, cell, 0);
    FloorIsMonotone(pixels * FIXED_ONE, count * cell * FIXED_ONE, cell);
    WholeCells(count, cell);
    BoundedProduct(pixels, PIXELS, FIXED_ONE, FIXED_ONE);
    assert PIXELS * FIXED_ONE < I128_LIMIT;
  }

  /** A span of `size` placed at `start` in `whole`: inside, with both margins equal up to one
      pixel and the roundings of the two coordinates. */
  ghost predicate Centred(start: int, size: int, whole: int, cell: u32) {
    && 0 <= start && 0 <= size && start + size <= whole
    && 0 <= whole - 2 * start - size
    && (whole - 2 * start - size) * cell < FIXED_ONE + 3 * cell
  }

  lemma AxisIsCentred(render: nat, count: nat, cell: u32)
    requires cell > 0 && render <= count * cell < PIXELS
    ensures Centred((count * cell - render) / 2 * FIXED_ONE / cell, render * FIXED_ONE / cell, count * FIXED_ONE, cell)
  {
    var margin := (count * cell - render) / 2;
    var start, size := margin * FIXED_ONE / cell, render * FIXED_ONE / cell;
    FloorIsLargest(margin * FIXED_ONE, cell, 0);
    FloorIsLargest(render * FIXED_ONE, cell, 0);
    FloorsAdd(margin * FIXED_ONE, render * FIXED_ONE, cell);
    FloorsAdd(margin * FIXED_ONE, (margin + render) * FIXED_ONE, cell);
    assert (2 * margin + render) * FIXED_ONE == margin * FIXED_ONE + (margin + render) * FIXED_ONE;
    FixedIsFloor(2 * margin + render, count, cell);
    FloorBounds(margin * FIXED_ONE, cell);
    FloorBounds(render * FIXED_ONE, cell);
    Slack(count, start, size, cell);
  }

  /** One axis of the placement on fewer than 2^31 cells. */
  lemma AxisIsPlaced(render: nat, count: u32, cell: u32)
    requires cell > 0 && count < CELLS && render <= count * cell < PIXELS
    ensures var start, size := (count * cell - render) / 2 * FIXED_ONE / cell, render * FIXED_ONE / cell;
            && Fixed((count * cell - render) / 2, cell) == Success(start) && Fixed(render, cell) == Success(size)
            && Centred(start, size, count * FIXED_ONE, cell)
            && (render == count * cell ==> size == count * FIXED_ONE)
  {
    AxisIsCentred(render, count, cell);
    FixedIsFloor(render, count, cell);
    FixedIsFloor((count * cell - render) / 2, count, cell);
    WholeCells(count, cell);
  }

  lemma Slack(count: int, start: int, size: int, cell: int)
    ensures (count * FIXED_ONE - 2 * start - size) * cell
            == (count * cell) * FIXED_ONE - 2 * (cell * start) - cell * size
  {}

  /** Every input the validation admits, on a grid of fewer than 2^31 columns and available rows,
      is placed inside the available area, centred, with one dimension filled. */
  lemma PlacementIsContained(d: Display, sw: u32, sh: u32, reserve: bool)
    requires CanReserve(d, sw, sh, if reserve then 1 else 0)
    requires d.columns < CELLS && d.rows - (if reserve then 1 else 0) < CELLS
    ensures CalculateMode(d, sw, sh, reserve).Success?
    ensures var p := CalculateMode(d, sw, sh, reserve).value;
      && Centred(p.x, p.width, d.columns * FIXED_ONE, d.cellWidth)
      && Centred(p.y, p.height, p.statusRow * FIXED_ONE, d.cellHeight)
      && p.statusRow == d.rows - (if reserve then 1 else 0)
      && p.sourceWidth == sw && p.sourceHeight == sh
      && Renders(p, d, Fit(d.columns * d.cellWidth, p.statusRow * d.cellHeight, sw, sh))
      && (p.width == d.columns * FIXED_ONE || p.height == p.statusRow * FIXED_ONE)
  {
    var rows := d.rows - if reserve then 1 else 0;
    var aw, ah := d.columns * d.cellWidth, rows * d.cellHeight;
    AreaFits(d.columns, d.cellWidth);
    AreaFits(rows, d.cellHeight);
    FitFills(aw, ah, sw, sh);
    var (rw, rh) := Fit(aw, ah, sw, sh).value;
    AxisIsPlaced(rw, d.columns, d.cellWidth);
    AxisIsPlaced(rh, rows, d.cellHeight);
  }

  /** The placement has the fitted pixel size, rounded down to fixed-point cells. */
  ghost predicate Renders(p: Placement, d: Display, fit: Result<(int, int), Error>)
    requires d.cellWidth > 0 && d.cellHeight > 0
  {
    && fit.Success?
    && p.width == fit.value.0 * FIXED_ONE / d.cellWidth
    && p.height == fit.value.1 * FIXED_ONE / d.cellHeight
  }

  lemma AreaFits(count: u32, cell: u32)
    ensures 0 <= count * cell < PIXELS
    ensures CheckedMul(count, cell) == Success(count * cell)
  {
    BoundedProduct(count, FIXED_ONE - 1, cell, FIXED_ONE - 1);
  }

  lemma WholeCells(count: nat, cell: u32)
    requires cell > 0
    ensures count * cell * FIXED_ONE / cell == count * FIXED_ONE
  {
    assert count * cell * FIXED_ONE == (count * FIXED_ONE) * cell;
    ExactQuotient(count * FIXED_ONE, cell);
  }

  /** The call fails as degenerate exactly on the inputs the validation rejects, and beyond them
      only through the final narrowing to 64 bits. */
  lemma NarrowingDecides(d: Display, sw: u32, sh: u32, reserve: bool)
    ensures CalculateMode(d, sw, sh, reserve) == Failure(Degenerate) <==>
      !CanReserve(d, sw, sh, if reserve then 1 else 0)
    ensures CalculateMode(d, sw, sh, reserve) == Failure(Overflow) <==>
      && CanReserve(d, sw, sh, if reserve then 1 else 0)
      && var rows := d.rows - if reserve then 1 else 0;
         var fit := Fit(d.columns * d.cellWidth, rows * d.cellHeight, sw, sh);
         && fit.Success?
         && (fit.value.0 * FIXED_ONE >= d.cellWidth * I64_LIMIT || fit.value.1 * FIXED_ONE >= d.cellHeight * I64_LIMIT)
  {
    var rows := d.rows - if reserve then 1 else 0;
    if CanReserve(d, sw, sh, if reserve then 1 else 0) {
      var aw, ah := d.columns * d.cellWidth, rows * d.cellHeight;
      AreaFits(d.columns, d.cellWidth);
      AreaFits(rows, d.cellHeight);
      FitFills(aw, ah, sw, sh);
      var (rw, rh) := Fit(aw, ah, sw, sh).value;
      MarginIsSmall(aw - rw, d.columns, d.cellWidth);
      MarginIsSmall(ah - rh, rows, d.cellHeight);
      FixedIsFloor(rw, d.columns, d.cellWidth);
      FixedIsFloor(rh, rows, d.cellHeight);
      FloorIsLargest(rw * FIXED_ONE, d.cellWidth, I64_LIMIT);
      FloorIsLargest(rh * FIXED_ONE, d.cellHeight, I64_LIMIT);
    }
  }

  /** The picture would fill 2^31 columns or rows: across the width, unless that makes it too tall. */
  predicate FillsTooMuch(d: Display, sw: u32, sh: u32, rows: int) {
    var aw, ah := d.columns * d.cellWidth, rows * d.cellHeight;
    if aw * sh < (ah + 1) * sw then d.columns >= CELLS || aw * sh >= CELLS * d.cellHeight * sw
    else rows >= CELLS || ah * sw >= CELLS * d.cellWidth * sh
  }

  /** The division by the source's size, undone. */
  lemma FitReaches(aw: nat, ah: nat, sw: u32, sh: u32, width: nat, height: nat)
    requires sw > 0 && sh > 0 && aw < PIXELS && ah < PIXELS
    ensures Fit(aw, ah, sw, sh).Success?
    ensures Fit(aw, ah, sw, sh).value.0 >= width || Fit(aw, ah, sw, sh).value.1 >= height <==>
              if aw * sh < (ah + 1) * sw then aw >= width || aw * sh >= height * sw
              else ah >= height || ah * sw >= width * sh
  {
    FitFills(aw, ah, sw, sh);
    FloorIsLargest(aw * sh, sw, ah + 1);
    FloorIsLargest(aw * sh, sw, height);
    FloorIsLargest(ah * sw, sh, width);
  }

  /** A pixel size is too wide for 64 bits in cells exactly from 2^31 cells on. */
  lemma NarrowingInCells(pixels: nat, cell: u32)
    ensures pixels * FIXED_ONE >= cell * I64_LIMIT <==> pixels >= CELLS * cell
  {
    assert cell * I64_LIMIT == CELLS * cell * FIXED_ONE;
  }

  lemma CellsInPixels(count: nat, cell: u32)
    requires cell > 0
    ensures count * cell >= CELLS * cell <==> count >= CELLS
  {
    if count < CELLS {
      MulIsMonotone(count + 1, CELLS, cell);
      assert (count + 1) * cell == count * cell + cell;
    } else {
      MulIsMonotone(CELLS, count, cell);
    }
  }

  /** A call is degenerate exactly on the inputs that the validation rejects, and overflows exactly if
      the picture would fill 2^31 columns or rows of a valid input. */
  lemma FailuresAreExact(d: Display, sw: u32, sh: u32, reserve: bool)
    ensures CalculateMode(d, sw, sh, reserve) == Failure(Degenerate) <==>
      || sw == 0 || sh == 0 || d.columns == 0 || d.cellWidth == 0 || d.cellHeight == 0
      || d.rows == 0 || (reserve && d.rows == 1)
    ensures CalculateMode(d, sw, sh, reserve) == Failure(Overflow) <==>
      CanReserve(d, sw, sh, if reserve then 1 else 0) && FillsTooMuch(d, sw, sh, d.rows - if reserve then 1 else 0)
  {
    NarrowingDecides(d, sw, sh, reserve);
    var rows := d.rows - if reserve then 1 else 0;
    if CanReserve(d, sw, sh, if reserve then 1 else 0) {
      var aw, ah := d.columns * d.cellWidth, rows * d.cellHeight;
      AreaFits(d.columns, d.cellWidth);
      AreaFits(rows, d.cellHeight);
      FitFills(aw, ah, sw, sh);
      FitReaches(aw, ah, sw, sh, CELLS * d.cellWidth, CELLS * d.cellHeight);
      NarrowingInCells(Fit(aw, ah, sw, sh).value.0, d.cellWidth);
      NarrowingInCells(Fit(aw, ah, sw, sh).value.1, d.cellHeight);
      CellsInPixels(d.columns, d.cellWidth);
      CellsInPixels(rows, d.cellHeight);
    }
  }

  /** A valid grid of 2^31 columns, one row and one-pixel cells cannot show a picture of its own size. */
  lemma ValidInputCanOverflow()
    ensures CanReserve(Display(0x8000_0000, 1, 1, 1), 0x8000_0000, 1, 0)
    ensures CalculateMode(Display(0x8000_0000, 1, 1, 1), 0x8000_0000, 1, false) == Failure(Overflow)
  {
    FailuresAreExact(Display(0x8000_0000, 1, 1, 1), 0x8000_0000, 1, false);
  }

  /** Half of what is left over always fits, even on the widest grid. */
  lemma MarginIsSmall(left: nat, count: u32, cell: u32)
    requires cell > 0 && left <= count * cell
    ensures Fixed(left / 2, cell).Success?
  {
    AreaFits(count, cell);
    FixedIsFloor(left / 2, count, cell);
    var half := left / 2 * FIXED_ONE;
    assert half * 2 <= count * cell * FIXED_ONE;
    assert count * cell * FIXED_ONE == (count * FIXED_ONE) * cell;
    MulIsMonotone(count * FIXED_ONE, (FIXED_ONE - 1) * FIXED_ONE, cell);
    assert ((FIXED_ONE - 1) * FIXED_ONE) * cell < 2 * I64_LIMIT * cell;
    FloorIsLargest(half, cell, I64_LIMIT);
  }

  /** Giving up the status row never makes the picture smaller. */
  lemma FullIsNeverSmaller(d: Display, sw: u32, sh: u32)
    ensures Calculate(d, sw, sh).Success? && CalculateFull(d, sw, sh).Success? ==>
              && Calculate(d, sw, sh).value.width <= CalculateFull(d, sw, sh).value.width
              && Calculate(d, sw, sh).value.height <= CalculateFull(d, sw, sh).value.height
              && CalculateFull(d, sw, sh).value.statusRow == Calculate(d, sw, sh).value.statusRow + 1
  {
    if Calculate(d, sw, sh).Success? && CalculateFull(d, sw, sh).Success? {
      FullKeepsSize(d, sw, sh);
    }
  }

  lemma FullKeepsSize(d: Display, sw: u32, sh: u32)
    requires Calculate(d, sw, sh).Success? && CalculateFull(d, sw, sh).Success?
    ensures Calculate(d, sw, sh).value.width <= CalculateFull(d, sw, sh).value.width
    ensures Calculate(d, sw, sh).value.height <= CalculateFull(d, sw, sh).value.height
  {
    var aw, ah, taller := d.columns * d.cellWidth, (d.rows - 1) * d.cellHeight, d.rows * d.cellHeight;
    AreaFits(d.columns, d.cellWidth);
    AreaFits(d.rows - 1, d.cellHeight);
    AreaFits(d.rows, d.cellHeight);
    MulIsMonotone(d.rows - 1, d.rows, d.cellHeight);
    FitIsMonotone(aw, ah, taller, sw, sh);
    var small, full := Fit(aw, ah, sw, sh).value, Fit(aw, taller, sw, sh).value;
    FloorIsMonotone(small.0 * FIXED_ONE, full.0 * FIXED_ONE, d.cellWidth);
    FloorIsMonotone(small.1 * FIXED_ONE, full.1 * FIXED_ONE, d.cellHeight);
  }
}
