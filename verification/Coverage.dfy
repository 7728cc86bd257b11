/** Nearest-neighbour rendering of a raster coverage, in exact arithmetic and in the coverage's own reference system. */
module Coverage {
  import opened Outcomes
  import opened Grid

  type Byte = n: nat | n < 256

  datatype Rgba = Rgba(r: Byte, g: Byte, b: Byte, a: Byte)

  // `left` and `top` are the world coordinates of the upper left corner, `sx` and `sy` the size of a pixel.
  datatype Raster = Raster(width: nat, height: nat, left: real, top: real, sx: real, sy: real, samples: nat, data: seq<Byte>, nodata: Option<Byte>)

  const TWO_TO_32 := 0x1_0000_0000
  const TWO_TO_64 := 0x1_0000_0000_0000_0000

  // A pixel has an extent, the dimensions are 32-bit numbers, and there is a value for every sample, 2^32 of them at most.
  predicate WellFormed(c: Raster) {
    && c.sx > 0.0 && c.sy > 0.0
    && c.width < TWO_TO_32 && c.height < TWO_TO_32
    && (c.samples == 1 || c.samples == 3 || c.samples == 4)
    && |c.data| == c.width * c.height * c.samples
    && |c.data| <= TWO_TO_32
  }

  function Bounds(c: Raster): Box {
    Box(c.left, c.top - c.height as real * c.sy, c.left + c.width as real * c.sx, c.top)
  }

  // ---- One sample ----

  /** The samples from `idx` on as a pixel, if the data reaches that far. */
  function PixelAt(c: Raster, idx: nat): Option<Rgba> {
    match c.samples
    case 1 => if idx < |c.data| then Some(Rgba(c.data[idx], c.data[idx], c.data[idx], 255)) else None
    case 3 => if idx + 2 < |c.data| then Some(Rgba(c.data[idx], c.data[idx + 1], c.data[idx + 2], 255)) else None
    case 4 => if idx + 3 < |c.data| then Some(Rgba(c.data[idx], c.data[idx + 1], c.data[idx + 2], c.data[idx + 3])) else None
    case _ => None
  }

  /** The pixel of a cell, counted row by row. */
  function CellPixel(c: Raster, col: nat, row: nat): Option<Rgba> {
    PixelAt(c, (row * c.width + col) * c.samples)
  }

  predicate IsNodata(c: Raster, p: Rgba) {
    c.nodata.Some? && p.r == c.nodata.value && (c.samples < 3 || (p.g == c.nodata.value && p.b == c.nodata.value))
  }

  // The index of a cell's first sample, computed in 64 bits.
  function Index64(c: Raster, col: nat, row: nat): nat {
    (row * c.width + col) * c.samples % TWO_TO_64
  }

  // The low 32 bits of the cell numbers, all that is compared with the dimensions.
  predicate LowBitsInRaster(c: Raster, col: nat, row: nat) {
    col % TWO_TO_32 < c.width && row % TWO_TO_32 < c.height
  }

  /** The pixel read for a cell. */
  function Sample(c: Raster, col: int, row: int): Option<Rgba> {
    if col < 0 || row < 0 || !LowBitsInRaster(c, col, row) then None
    else
      var p := PixelAt(c, Index64(c, col, row));
      if p.Some? && IsNodata(c, p.value) then None else p
  }

  // The cell is one of the raster's.
  predicate InRaster(c: Raster, col: int, row: int) {
    0 <= col < c.width && 0 <= row < c.height
  }

  lemma RowsBefore(width: nat, height: nat, row: nat)
    requires row < height
    ensures row * width + width <= width * height
  {
    Monotone(row + 1, height, width);
    assert (row + 1) * width == row * width + width;
  }

  lemma CellIndex(width: nat, height: nat, col: nat, row: nat, samples: nat)
    requires col < width && row < height && samples > 0
    ensures (row * width + col) * samples + samples <= width * height * samples
  {
    RowsBefore(width, height, row);
    Monotone(row * width + col + 1, width * height, samples);
  }

  lemma Monotone(a: nat, b: nat, s: nat)
    requires a <= b
    ensures a * s <= b * s
    ensures a >= 1 ==> a * s == (a - 1) * s + s
  {
  }

  lemma Unwrapped(n: nat)
    requires n < TWO_TO_64
    ensures n % TWO_TO_64 == n
  {
  }

  /** The index of a cell of the raster does not wrap. */
  lemma IndexFits(c: Raster, col: nat, row: nat)
    requires WellFormed(c) && InRaster(c, col, row)
    ensures Index64(c, col, row) == (row * c.width + col) * c.samples
  {
    CellIndex(c.width, c.height, col, row, c.samples);
    Unwrapped((row * c.width + col) * c.samples);
  }

  /** Every cell of the raster has a pixel. */
  lemma CellHasPixel(c: Raster, col: nat, row: nat)
    requires WellFormed(c) && InRaster(c, col, row)
    ensures CellPixel(c, col, row).Some?
  {
    CellIndex(c.width, c.height, col, row, c.samples);
  }

  /** Within 32-bit cell numbers, a cell yields its own pixel, and nothing exactly when it is outside the raster or nodata. */
  lemma SampleExactly(c: Raster, col: int, row: int)
    requires WellFormed(c) && col < TWO_TO_32 && row < TWO_TO_32
    ensures InRaster(c, col, row) ==> CellPixel(c, col, row).Some?
    ensures Sample(c, col, row) ==
      if InRaster(c, col, row) && !IsNodata(c, CellPixel(c, col, row).value) then CellPixel(c, col, row) else None
  {
    if InRaster(c, col, row) {
      CellHasPixel(c, col, row);
      IndexFits(c, col, row);
    }
  }

  // What a cell should yield.
  function Expected(c: Raster, col: nat, row: nat): Option<Rgba> {
    if InRaster(c, col, row) then
      var p := CellPixel(c, col, row);
      if p.Some? && IsNodata(c, p.value) then None else p
    else None
  }

  // The index of the cell that the low bits name, and what the high bits add to it in multiples of 2^32.

  function LowIndex(c: Raster, col: nat, row: nat): nat {
    (row % TWO_TO_32 * c.width + col % TWO_TO_32) * c.samples
  }

  function HighIndex(c: Raster, col: nat, row: nat): nat {
    (row / TWO_TO_32 * c.width + col / TWO_TO_32) * c.samples
  }

  // The high bits of the cell numbers cancel out in the 64-bit index.
  predicate HighBitsVanish(c: Raster, col: nat, row: nat) {
    HighIndex(c, col, row) % TWO_TO_32 == 0
  }

  lemma SplitIndex(width: nat, samples: nat, col: nat, row: nat)
    ensures (row * width + col) * samples ==
            (row / TWO_TO_32 * width + col / TWO_TO_32) * samples * TWO_TO_32 + (row % TWO_TO_32 * width + col % TWO_TO_32) * samples
  {
    var m, r, k, d := row / TWO_TO_32, row % TWO_TO_32, col / TWO_TO_32, col % TWO_TO_32;
    SplitProduct(m * TWO_TO_32, r, width);
    MoveFactor(m, width, TWO_TO_32);
    var high, low := m * width + k, r * width + d;
    assert row * width + col == high * TWO_TO_32 + low;
    SplitProduct(high * TWO_TO_32, low, samples);
    MoveFactor(high, samples, TWO_TO_32);
  }

  lemma SplitProduct(a: nat, b: nat, s: nat)
    ensures (a + b) * s == a * s + b * s
  {
  }

  lemma MoveFactor(a: nat, s: nat, f: nat)
    ensures a * f * s == a * s * f
  {
  }

  /** What is left of `q` blocks of 2^32 and `low` beyond, in 64 bits. */
  lemma LowWord(q: nat, low: nat)
    requires low < TWO_TO_32
    ensures (q * TWO_TO_32 + low) % TWO_TO_64 == q % TWO_TO_32 * TWO_TO_32 + low
  {
    var a, b := q / TWO_TO_32, q % TWO_TO_32;
    assert q * TWO_TO_32 + low == a * TWO_TO_64 + (b * TWO_TO_32 + low);
    Remainder(a, b * TWO_TO_32 + low);
  }

  lemma Remainder(a: nat, rest: nat)
    requires rest < TWO_TO_64
    ensures (a * TWO_TO_64 + rest) % TWO_TO_64 == rest
  {
  }

  lemma IndexSplits(c: Raster, col: nat, row: nat)
    requires LowIndex(c, col, row) < TWO_TO_32
    ensures Index64(c, col, row) == HighIndex(c, col, row) % TWO_TO_32 * TWO_TO_32 + LowIndex(c, col, row)
  {
    SplitIndex(c.width, c.samples, col, row);
    LowWord(HighIndex(c, col, row), LowIndex(c, col, row));
  }

  lemma LowIndexFits(c: Raster, col: nat, row: nat)
    requires WellFormed(c) && LowBitsInRaster(c, col, row)
    ensures LowIndex(c, col, row) + c.samples <= |c.data|
  {
    CellIndex(c.width, c.height, col % TWO_TO_32, row % TWO_TO_32, c.samples);
  }

  /** No index that is looked at overflows: in 64 bits there is room for a pixel behind it. */
  lemma IndexHasRoom(c: Raster, col: nat, row: nat)
    requires WellFormed(c) && LowBitsInRaster(c, col, row)
    ensures Index64(c, col, row) + c.samples <= TWO_TO_64
  {
    LowIndexFits(c, col, row);
    IndexSplits(c, col, row);
    BlockOf(HighIndex(c, col, row) % TWO_TO_32, LowIndex(c, col, row), c.samples);
  }

  lemma BlockOf(q: nat, low: nat, samples: nat)
    requires q < TWO_TO_32 && low + samples <= TWO_TO_32
    ensures q * TWO_TO_32 + low + samples <= TWO_TO_64
    ensures q > 0 ==> q * TWO_TO_32 + low >= TWO_TO_32
  {
  }

  lemma BehindAllData(c: Raster, idx: nat)
    requires |c.data| <= idx
    ensures PixelAt(c, idx) == None
  {
  }

  /** The pixel at the 64-bit index is that of the cell the low bits name, or none when the high bits do not vanish. */
  lemma PixelAtIndex(c: Raster, col: nat, row: nat)
    requires WellFormed(c) && LowBitsInRaster(c, col, row)
    ensures PixelAt(c, Index64(c, col, row)) ==
            if HighBitsVanish(c, col, row) then CellPixel(c, col % TWO_TO_32, row % TWO_TO_32) else None
  {
    LowIndexFits(c, col, row);
    IndexSplits(c, col, row);
    var q := HighIndex(c, col, row) % TWO_TO_32;
    if q > 0 {
      BlockOf(q, LowIndex(c, col, row), c.samples);
      BehindAllData(c, q * TWO_TO_32 + LowIndex(c, col, row));
    }
  }

  /** For all cell numbers: what is read is the cell that their low 32 bits name, when that exists and the high bits vanish, and nothing otherwise. */
  lemma SampleIsLowCell(c: Raster, col: nat, row: nat)
    requires WellFormed(c)
    ensures Sample(c, col, row) ==
            if LowBitsInRaster(c, col, row) && HighBitsVanish(c, col, row) then Expected(c, col % TWO_TO_32, row % TWO_TO_32) else None
  {
    if LowBitsInRaster(c, col, row) {
      PixelAtIndex(c, col, row);
    }
  }

  /** So a cell is read as it should be, unless it is outside the raster and a cell other than nodata is taken for it. */
  lemma SampleIsRightWhen(c: Raster, col: nat, row: nat)
    requires WellFormed(c)
    ensures Sample(c, col, row) == Expected(c, col, row) <==>
            || InRaster(c, col, row)
            || !LowBitsInRaster(c, col, row) || !HighBitsVanish(c, col, row)
            || Expected(c, col % TWO_TO_32, row % TWO_TO_32) == None
  {
    SampleIsLowCell(c, col, row);
  }

  /** A cell that is read wrong has a number of 2^32 or more. */
  lemma OnlyFarCellsAreWrong(c: Raster, col: nat, row: nat)
    requires WellFormed(c) && Sample(c, col, row) != Expected(c, col, row)
    ensures col >= TWO_TO_32 || row >= TWO_TO_32
  {
    SampleIsLowCell(c, col, row);
  }

  /** In a raster of four samples to the pixel, the cell 2^62 columns away from any cell is read as that cell. */
  lemma FarCellIsRead(c: Raster, col: nat, row: nat)
    requires WellFormed(c) && c.samples == 4 && InRaster(c, col, row)
    ensures !InRaster(c, col + 0x4000_0000 * TWO_TO_32, row)
    ensures Sample(c, col + 0x4000_0000 * TWO_TO_32, row) == Expected(c, col, row)
  {
    var far := col + 0x4000_0000 * TWO_TO_32;
    assert far / TWO_TO_32 == 0x4000_0000 && far % TWO_TO_32 == col && row / TWO_TO_32 == 0 && row % TWO_TO_32 == row;
    SampleIsLowCell(c, far, row);
  }

  /** With one sample to the pixel it takes a row as well: in a raster of two pixels this cell is read as the first of them. */
  lemma WrappedCellIsRead()
    ensures var c := Raster(2, 1, 0.0, 0.0, 1.0, 1.0, 1, [7, 9], None);
            var col, row := TWO_TO_32 * 0x7FFF_FFFE, TWO_TO_32 * 0x4000_0001;
            WellFormed(c) && !InRaster(c, col, row) && Sample(c, col, row) == Some(Rgba(7, 7, 7, 255))
  {
  }

  // ---- From output pixels to cells ----

  /** The world coordinates of the centre of an output pixel. */
  function CentreX(bbox: Box, outW: nat, x: nat): real
    requires outW > 0
  {
    bbox.minX + (x as real + 0.5) / outW as real * (bbox.maxX - bbox.minX)
  }

  function CentreY(bbox: Box, outH: nat, y: nat): real
    requires outH > 0
  {
    bbox.maxY - (y as real + 0.5) / outH as real * (bbox.maxY - bbox.minY)
  }

  function ColumnOf(c: Raster, wx: real): int
    requires c.sx != 0.0
  {
    ((wx - c.left) / c.sx).Floor
  }

  function RowOf(c: Raster, wy: real): int
    requires c.sy != 0.0
  {
    ((c.top - wy) / c.sy).Floor
  }

  lemma FloorCell(offset: real, span: real)
    requires span > 0.0
    ensures InCell(offset, span, (offset / span).Floor)
  {
    var k := (offset / span).Floor;
    ScaledBounds(offset, span, offset / span, k as real);
    assert (k + 1) as real == k as real + 1.0;
  }

  // A column and a row of cells, as far as they go.

  predicate InColumn(c: Raster, wx: real, col: int) {
    InCell(wx - c.left, c.sx, col)
  }

  predicate InRow(c: Raster, wy: real, row: int) {
    InCell(c.top - wy, c.sy, row)
  }

  lemma ColumnContainsPoint(c: Raster, wx: real)
    requires c.sx > 0.0
    ensures InColumn(c, wx, ColumnOf(c, wx))
    ensures forall col: int | InColumn(c, wx, col) :: col == ColumnOf(c, wx)
    ensures 0 <= ColumnOf(c, wx) < c.width <==> Bounds(c).minX <= wx < Bounds(c).maxX
  {
    FloorCell(wx - c.left, c.sx);
    forall col: int | InColumn(c, wx, col)
      ensures col == ColumnOf(c, wx)
    {
      CellUnique(wx - c.left, c.sx, col, ColumnOf(c, wx));
    }
    CellRange(wx - c.left, c.sx, ColumnOf(c, wx), c.width);
  }

  lemma RowContainsPoint(c: Raster, wy: real)
    requires c.sy > 0.0
    ensures InRow(c, wy, RowOf(c, wy))
    ensures forall row: int | InRow(c, wy, row) :: row == RowOf(c, wy)
    ensures 0 <= RowOf(c, wy) < c.height <==> Bounds(c).minY < wy <= Bounds(c).maxY
  {
    FloorCell(c.top - wy, c.sy);
    forall row: int | InRow(c, wy, row)
      ensures row == RowOf(c, wy)
    {
      CellUnique(c.top - wy, c.sy, row, RowOf(c, wy));
    }
    CellRange(c.top - wy, c.sy, RowOf(c, wy), c.height);
  }

  /** The cell is the only one that contains the point, and it is in the raster exactly when the point is inside the bounds. */
  lemma CellContainsPoint(c: Raster, wx: real, wy: real)
    requires WellFormed(c)
    ensures forall col: int, row: int :: InColumn(c, wx, col) && InRow(c, wy, row) <==> col == ColumnOf(c, wx) && row == RowOf(c, wy)
    ensures InRaster(c, ColumnOf(c, wx), RowOf(c, wy)) <==> Inside(Bounds(c), wx, wy)
  {
    ColumnContainsPoint(c, wx);
    RowContainsPoint(c, wy);
  }

  lemma CellRange(offset: real, span: real, k: int, n: nat)
    requires span > 0.0 && InCell(offset, span, k)
    ensures 0 <= k < n <==> 0.0 <= offset < n as real * span
  {
    assert 0.0 * span == 0.0;
    if 0 <= k {
      Scale(0.0, k as real, span);
    } else {
      Scale((k + 1) as real, 0.0, span);
    }
    if k < n {
      Scale((k + 1) as real, n as real, span);
    } else {
      Scale(n as real, k as real, span);
    }
  }

  // ---- The image ----

  function Premultiplied(p: Rgba): Rgba {
    ScaledBelow(p.r, p.a);
    ScaledBelow(p.g, p.a);
    ScaledBelow(p.b, p.a);
    Rgba(p.r * p.a / 255, p.g * p.a / 255, p.b * p.a / 255, p.a)
  }

  lemma ScaledBelow(v: Byte, a: Byte)
    ensures 0 <= v * a / 255 <= a
  {
    assert v * a <= 255 * a;
  }

  /** No channel of a premultiplied pixel exceeds its alpha, so the image accepts every pixel. */
  lemma PremultipliedFits(p: Rgba)
    ensures var q := Premultiplied(p);
            q.r <= q.a && q.g <= q.a && q.b <= q.a && q.a == p.a
  {
    ScaledBelow(p.r, p.a);
    ScaledBelow(p.g, p.a);
    ScaledBelow(p.b, p.a);
  }

  const CLEAR := Rgba(0, 0, 0, 0)

  /** What is shown for a point of the world: the cell under it. */
  function ShownAt(c: Raster, wx: real, wy: real): Rgba
    requires c.sx != 0.0 && c.sy != 0.0
  {
    match Sample(c, ColumnOf(c, wx), RowOf(c, wy))
    case None => CLEAR
    case Some(p) => Premultiplied(p)
  }

  function AtLeastOne(n: nat): nat {
    if n == 0 then 1 else n
  }

  /** Fills the image pixel by pixel. */
  method Render(c: Raster, bbox: Box, outW: nat, outH: nat) returns (pixels: array2<Rgba>)
    requires c.sx != 0.0 && c.sy != 0.0
    ensures pixels.Length0 == AtLeastOne(outH) && pixels.Length1 == AtLeastOne(outW)
    ensures forall x, y | 0 <= x < outW && 0 <= y < outH :: pixels[y, x] == ShownAt(c, CentreX(bbox, outW, x), CentreY(bbox, outH, y))
  {
    pixels := new Rgba[AtLeastOne(outH), AtLeastOne(outW)]((i, j) => CLEAR);
    for y := 0 to outH
      invariant forall x, v | 0 <= x < outW && 0 <= v < y :: pixels[v, x] == ShownAt(c, CentreX(bbox, outW, x), CentreY(bbox, outH, v))
      invariant forall x, v | 0 <= x < outW && y <= v < outH :: pixels[v, x] == CLEAR
    {
      for x := 0 to outW
        invariant forall u, v | 0 <= u < outW && 0 <= v < y :: pixels[v, u] == ShownAt(c, CentreX(bbox, outW, u), CentreY(bbox, outH, v))
        invariant forall u | 0 <= u < x :: pixels[y, u] == ShownAt(c, CentreX(bbox, outW, u), CentreY(bbox, outH, y))
        invariant forall u | x <= u < outW :: pixels[y, u] == CLEAR
        invariant forall u, v | 0 <= u < outW && y < v < outH :: pixels[v, u] == CLEAR
      {
        var col := ColumnOf(c, CentreX(bbox, outW, x));
        var row := RowOf(c, CentreY(bbox, outH, y));
        match Sample(c, col, row) {
          case Some(p) => pixels[y, x] := Premultiplied(p);
          case None =>
        }
      }
    }
  }

  /**
   Every point shows the cell that contains it, and nothing when it is outside the bounds or the cell is nodata, as long as
   cell numbers fit 32 bits.
   */
  lemma ShownExactly(c: Raster, wx: real, wy: real)
    requires WellFormed(c) && ColumnOf(c, wx) < TWO_TO_32 && RowOf(c, wy) < TWO_TO_32
    ensures var col, row := ColumnOf(c, wx), RowOf(c, wy);
            if Inside(Bounds(c), wx, wy) then
              && InRaster(c, col, row)
              && CellPixel(c, col, row).Some?
              && ShownAt(c, wx, wy) == if IsNodata(c, CellPixel(c, col, row).value) then CLEAR else Premultiplied(CellPixel(c, col, row).value)
            else ShownAt(c, wx, wy) == CLEAR
  {
    CellContainsPoint(c, wx, wy);
    SampleExactly(c, ColumnOf(c, wx), RowOf(c, wy));
  }

  lemma NativeColumn(c: Raster, x: nat)
    requires c.sx > 0.0 && x < c.width
    ensures ColumnOf(c, CentreX(Bounds(c), c.width, x)) == x
  {
    NativeCentre(c.width, x, c.sx, Bounds(c).maxX - Bounds(c).minX);
    assert InColumn(c, CentreX(Bounds(c), c.width, x), x);
    ColumnContainsPoint(c, CentreX(Bounds(c), c.width, x));
  }

  lemma NativeRow(c: Raster, y: nat)
    requires c.sy > 0.0 && y < c.height
    ensures RowOf(c, CentreY(Bounds(c), c.height, y)) == y
  {
    NativeCentre(c.height, y, c.sy, Bounds(c).maxY - Bounds(c).minY);
    assert InRow(c, CentreY(Bounds(c), c.height, y), y);
    RowContainsPoint(c, CentreY(Bounds(c), c.height, y));
  }

  /** Rendering the bounds at the native size shows every cell in its own place. */
  lemma NativeRenderingIsIdentity(c: Raster, x: nat, y: nat)
    requires WellFormed(c) && InRaster(c, x, y)
    ensures CellPixel(c, x, y).Some?
    ensures var p := CellPixel(c, x, y).value;
            ShownAt(c, CentreX(Bounds(c), c.width, x), CentreY(Bounds(c), c.height, y)) == if IsNodata(c, p) then CLEAR else Premultiplied(p)
  {
    NativeColumn(c, x);
    NativeRow(c, y);
    SampleExactly(c, x, y);
  }

  /** The centre of pixel `k` of `n`, scaled to their whole extent, lies in cell `k`. */
  lemma NativeCentre(n: nat, k: nat, span: real, extent: real)
    requires k < n && span > 0.0 && extent == n as real * span
    ensures InCell((k as real + 0.5) / n as real * extent, span, k)
  {
    QuotientTimes(k as real + 0.5, n as real);
    Associate((k as real + 0.5) / n as real, n as real, span);
    Scale(k as real, k as real + 0.5, span);
    ScaleStrictly(k as real + 0.5, (k + 1) as real, span);
  }

  lemma Associate(a: real, b: real, c: real)
    ensures a * (b * c) == (a * b) * c
  {
  }
}
