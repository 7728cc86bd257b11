/** Tile addressing over exact real coordinates (section 6 of OGC 07-057), and the TMS row flip. */
module Grid {
  import opened Outcomes

  datatype Gridset = WebMercator | PlateCarree

  datatype Box = Box(minX: real, minY: real, maxX: real, maxY: real)

  const MERC_HALF := 20037508.342789244

  function ByName(name: string): Option<Gridset> {
    match name
    case "EPSG:3857" => Some(WebMercator)
    case "GoogleMapsCompatible" => Some(WebMercator)
    case "WebMercatorQuad" => Some(WebMercator)
    case "EPSG:4326" => Some(PlateCarree)
    case "WorldCRS84Quad" => Some(PlateCarree)
    case _ => None
  }

  function Pow2(n: nat): (p: nat)
    ensures p > 0
  {
    if n == 0 then 1 else 2 * Pow2(n - 1)
  }

  function TilesPerAxis(g: Gridset, z: nat): nat {
    match g
    case PlateCarree => Pow2(z + 1)
    case WebMercator => Pow2(z)
  }

  function Rows(g: Gridset, z: nat): nat {
    match g
    case PlateCarree => TilesPerAxis(g, z) / 2
    case WebMercator => TilesPerAxis(g, z)
  }

  function Left(g: Gridset): real {
    match g
    case PlateCarree => -180.0
    case WebMercator => -MERC_HALF
  }

  function Top(g: Gridset): real {
    match g
    case PlateCarree => 90.0
    case WebMercator => MERC_HALF
  }

  /** The side of a tile. */
  function Span(g: Gridset, z: nat): (s: real)
    ensures s > 0.0
  {
    PositiveQuotient(MERC_HALF * 2.0, Pow2(z) as real);
    PositiveQuotient(180.0, Pow2(z) as real);
    match g
    case PlateCarree => 180.0 / Pow2(z) as real
    case WebMercator => MERC_HALF * 2.0 / Pow2(z) as real
  }

  lemma PositiveQuotient(a: real, b: real)
    requires a > 0.0 && b > 0.0
    ensures a / b > 0.0
  {
  }

  function TileBBox(g: Gridset, z: nat, x: nat, y: nat): Box {
    var span := Span(g, z);
    var minX, maxY := Left(g) + x as real * span, Top(g) - y as real * span;
    Box(minX, maxY - span, minX + span, maxY)
  }

  /** Tiles contain their left and upper edges, not their right and lower ones. */
  predicate Inside(b: Box, px: real, py: real) {
    b.minX <= px < b.maxX && b.minY < py <= b.maxY
  }

  function Extent(g: Gridset): Box {
    match g
    case PlateCarree => Box(-180.0, -90.0, 180.0, 90.0)
    case WebMercator => Box(-MERC_HALF, -MERC_HALF, MERC_HALF, MERC_HALF)
  }

  // A cell of a grid with `cols` columns and `rows` rows.
  predicate InGrid(g: Gridset, z: nat, x: nat, y: nat) {
    x < TilesPerAxis(g, z) && y < Rows(g, z)
  }

  // ---- Every point in exactly one tile ----

  lemma CellOf(offset: real, span: real) returns (k: int)
    requires span > 0.0
    ensures k as real * span <= offset < (k + 1) as real * span
  {
    k := (offset / span).Floor;
    ScaledBounds(offset, span, offset / span, k as real);
    assert (k + 1) as real == k as real + 1.0;
  }

  lemma ScaledBounds(offset: real, span: real, q: real, k: real)
    requires span > 0.0 && q == offset / span && k <= q < k + 1.0
    ensures k * span <= offset < (k + 1.0) * span
  {
    assert q * span == offset;
    Scale(k, q, span);
    ScaleStrictly(q, k + 1.0, span);
  }

  lemma Scale(a: real, b: real, s: real)
    requires a <= b && s > 0.0
    ensures a * s <= b * s
  {
    assert (b - a) * s >= 0.0;
  }

  lemma ScaleStrictly(a: real, b: real, s: real)
    requires a < b && s > 0.0
    ensures a * s < b * s
  {
    assert (b - a) * s > 0.0;
  }

  lemma Below(offset: real, span: real, j: int, k: int)
    requires span > 0.0 && j < k && offset < (j + 1) as real * span
    ensures offset < k as real * span
  {
    Scale((j + 1) as real, k as real, span);
  }

  // The cell of an axis that an offset falls into.
  predicate InCell(offset: real, span: real, k: int) {
    k as real * span <= offset < (k + 1) as real * span
  }

  lemma CellUnique(offset: real, span: real, j: int, k: int)
    requires span > 0.0 && InCell(offset, span, j) && InCell(offset, span, k)
    ensures j == k
  {
    if j < k {
      Below(offset, span, j, k);
    } else if k < j {
      Below(offset, span, k, j);
    }
  }

  lemma NextCell(span: real, k: nat)
    ensures (k + 1) as real * span == k as real * span + span
  {
  }

  /** A point is inside a tile exactly when its two offsets are in the tile's column and row. */
  lemma InsideIsCells(g: Gridset, z: nat, x: nat, y: nat, px: real, py: real)
    ensures Inside(TileBBox(g, z, x, y), px, py) <==> InCell(px - Left(g), Span(g, z), x) && InCell(Top(g) - py, Span(g, z), y)
  {
    NextCell(Span(g, z), x);
    NextCell(Span(g, z), y);
  }

  lemma QuotientTimes(a: real, b: real)
    requires b != 0.0
    ensures a / b * b == a && b * (a / b) == a
  {
  }

  /** The columns and rows of a zoom level cover the extent exactly. */
  lemma CoversExtent(g: Gridset, z: nat)
    ensures TilesPerAxis(g, z) as real * Span(g, z) == Extent(g).maxX - Extent(g).minX
    ensures Rows(g, z) as real * Span(g, z) == Extent(g).maxY - Extent(g).minY
    ensures Left(g) == Extent(g).minX && Top(g) == Extent(g).maxY
  {
    var p := Pow2(z) as real;
    match g {
      case PlateCarree =>
        QuotientTimes(180.0, p);
        assert TilesPerAxis(g, z) == 2 * Pow2(z) && Rows(g, z) == Pow2(z);
        Doubled(p, Span(g, z));
      case WebMercator => QuotientTimes(MERC_HALF * 2.0, p);
    }
  }

  lemma Doubled(p: real, s: real)
    ensures (2.0 * p) * s == 2.0 * (p * s)
  {
  }

  lemma CellBound(offset: real, span: real, k: int, n: nat)
    requires span > 0.0 && InCell(offset, span, k) && 0.0 <= offset < n as real * span
    ensures 0 <= k < n
  {
    if k < 0 {
      Scale((k + 1) as real, 0.0, span);
    } else if n <= k {
      Scale(n as real, k as real, span);
    }
  }

  predicate InTile(g: Gridset, z: nat, x: nat, y: nat, px: real, py: real) {
    Inside(TileBBox(g, z, x, y), px, py)
  }

  // A tile of the grid contains the point.
  predicate Contains(g: Gridset, z: nat, x: nat, y: nat, px: real, py: real) {
    InGrid(g, z, x, y) && InTile(g, z, x, y, px, py)
  }

  // The point's offsets from the upper left corner lie within the extent.
  lemma OffsetsInExtent(g: Gridset, z: nat, px: real, py: real)
    requires Inside(Extent(g), px, py)
    ensures 0.0 <= px - Left(g) < TilesPerAxis(g, z) as real * Span(g, z)
    ensures 0.0 <= Top(g) - py < Rows(g, z) as real * Span(g, z)
  {
    CoversExtent(g, z);
  }

  lemma CellIn(offset: real, span: real, n: nat) returns (k: nat)
    requires span > 0.0 && 0.0 <= offset < n as real * span
    ensures k < n && InCell(offset, span, k)
  {
    var c := CellOf(offset, span);
    CellBound(offset, span, c, n);
    k := c;
  }

  lemma TileAt(g: Gridset, z: nat, px: real, py: real) returns (x: nat, y: nat)
    requires Inside(Extent(g), px, py)
    ensures Contains(g, z, x, y, px, py)
  {
    OffsetsInExtent(g, z, px, py);
    x := CellIn(px - Left(g), Span(g, z), TilesPerAxis(g, z));
    y := CellIn(Top(g) - py, Span(g, z), Rows(g, z));
    InsideIsCells(g, z, x, y, px, py);
  }

  lemma OneTile(g: Gridset, z: nat, x: nat, y: nat, u: nat, v: nat, px: real, py: real)
    requires Contains(g, z, x, y, px, py) && Contains(g, z, u, v, px, py)
    ensures x == u && y == v
  {
    InsideIsCells(g, z, x, y, px, py);
    InsideIsCells(g, z, u, v, px, py);
    CellUnique(px - Left(g), Span(g, z), u, x);
    CellUnique(Top(g) - py, Span(g, z), v, y);
  }

  /** Every point of the extent lies in exactly one tile of each zoom level. */
  lemma TilesPartition(g: Gridset, z: nat, px: real, py: real)
    requires Inside(Extent(g), px, py)
    ensures exists x: nat, y: nat :: Contains(g, z, x, y, px, py)
    ensures forall x: nat, y: nat, u: nat, v: nat | Contains(g, z, x, y, px, py) && Contains(g, z, u, v, px, py) :: x == u && y == v
  {
    var x, y := TileAt(g, z, px, py);
    forall x: nat, y: nat, u: nat, v: nat | Contains(g, z, x, y, px, py) && Contains(g, z, u, v, px, py)
      ensures x == u && y == v
    {
      OneTile(g, z, x, y, u, v, px, py);
    }
  }

  // ---- A tile and its four children ----

  lemma HalfSpan(g: Gridset, z: nat)
    ensures Span(g, z) == 2.0 * Span(g, z + 1)
  {
    var p := Pow2(z) as real;
    assert Pow2(z + 1) as real == 2.0 * p;
    Halve(180.0, p);
    Halve(MERC_HALF * 2.0, p);
  }

  lemma Halve(a: real, p: real)
    requires p > 0.0
    ensures a / p == 2.0 * (a / (2.0 * p))
  {
    var q := a / (2.0 * p);
    QuotientTimes(a, 2.0 * p);
    assert (2.0 * q) * p == a;
    QuotientTimes(a, p);
    SameFactor(2.0 * q, a / p, p);
  }

  lemma SameFactor(a: real, b: real, p: real)
    requires p > 0.0 && a * p == b * p
    ensures a == b
  {
    if a < b {
      ScaleStrictly(a, b, p);
    } else if b < a {
      ScaleStrictly(b, a, p);
    }
  }

  /** A cell is its two halves. */
  lemma CellHalves(offset: real, span: real, k: int)
    requires span > 0.0
    ensures InCell(offset, 2.0 * span, k) <==> InCell(offset, span, 2 * k) || InCell(offset, span, 2 * k + 1)
  {
    assert k as real * (2.0 * span) == (2 * k) as real * span;
    assert (k + 1) as real * (2.0 * span) == (2 * k + 1 + 1) as real * span;
    assert (2 * k + 1) as real * span == (2 * k) as real * span + span;
    assert (2 * k + 1 + 1) as real * span == (2 * k) as real * span + span + span;
  }

  predicate IsChild(x: nat, y: nat, u: nat, v: nat) {
    (u == 2 * x || u == 2 * x + 1) && (v == 2 * y || v == 2 * y + 1)
  }

  // The same one zoom level further in.

  predicate InNextTile(g: Gridset, z: nat, x: nat, y: nat, px: real, py: real) {
    InTile(g, z + 1, x, y, px, py)
  }

  predicate InNextGrid(g: Gridset, z: nat, x: nat, y: nat) {
    InGrid(g, z + 1, x, y)
  }

  /** A tile is the disjoint union of its four children at the next zoom level. */
  lemma FourChildren(g: Gridset, z: nat, x: nat, y: nat, px: real, py: real)
    ensures InTile(g, z, x, y, px, py) <==>
            exists u: nat, v: nat :: IsChild(x, y, u, v) && InNextTile(g, z, u, v, px, py)
    ensures forall u: nat, v: nat, u': nat, v': nat |
              InNextTile(g, z, u, v, px, py) && InNextTile(g, z, u', v', px, py) :: u == u' && v == v'
    ensures InGrid(g, z, x, y) <==> forall u: nat, v: nat | IsChild(x, y, u, v) :: InNextGrid(g, z, u, v)
  {
    var a, b, half := px - Left(g), Top(g) - py, Span(g, z + 1);
    HalfSpan(g, z);
    InsideIsCells(g, z, x, y, px, py);
    CellHalves(a, half, x);
    CellHalves(b, half, y);
    forall u: nat, v: nat
      ensures InNextTile(g, z, u, v, px, py) <==> InCell(a, half, u) && InCell(b, half, v)
    {
      InsideIsCells(g, z + 1, u, v, px, py);
    }
    if InTile(g, z, x, y, px, py) {
      var u := if InCell(a, half, 2 * x) then 2 * x else 2 * x + 1;
      var v := if InCell(b, half, 2 * y) then 2 * y else 2 * y + 1;
      assert IsChild(x, y, u, v) && InNextTile(g, z, u, v, px, py);
    }
    forall u: nat, v: nat, u': nat, v': nat |
      InNextTile(g, z, u, v, px, py) && InNextTile(g, z, u', v', px, py)
      ensures u == u' && v == v'
    {
      CellUnique(a, half, u, u');
      CellUnique(b, half, v, v');
    }
    assert TilesPerAxis(g, z + 1) == 2 * TilesPerAxis(g, z) && Rows(g, z + 1) == 2 * Rows(g, z);
    assert IsChild(x, y, 2 * x + 1, 2 * y + 1);
  }

  // ---- The TMS row flip ----

  function SaturatingSub(a: nat, b: nat): nat {
    if a < b then 0 else a - b
  }

  /** The row of a TMS request, counted from the bottom, in rows counted from the top. */
  function FlipRow(z: nat, tmsY: nat): nat {
    SaturatingSub(SaturatingSub(TilesPerAxis(WebMercator, z), 1), tmsY)
  }

  /** Flipping twice gives the row back exactly for rows of the grid, and a flipped tile is the mirror image of the tile. */
  lemma FlipMirrors(z: nat, x: nat, y: nat)
    ensures FlipRow(z, FlipRow(z, y)) == y <==> y < Rows(WebMercator, z)
    ensures FlipRow(z, y) < Rows(WebMercator, z)
    ensures y < Rows(WebMercator, z) ==>
      var b := TileBBox(WebMercator, z, x, y);
      TileBBox(WebMercator, z, x, FlipRow(z, y)) == Box(b.minX, -b.maxY, b.maxX, -b.minY)
  {
    var span, n := Span(WebMercator, z), Pow2(z);
    if y < n {
      CoversExtent(WebMercator, z);
      var f := FlipRow(z, y);
      assert f == n - 1 - y;
      FlipSpan(n, y, f, span);
    }
  }

  lemma FlipSpan(n: nat, y: nat, f: nat, span: real)
    requires f + y + 1 == n
    ensures f as real * span + y as real * span + span == n as real * span
  {
    assert n as real == f as real + y as real + 1.0;
    Distribute(f as real, y as real, span);
  }

  lemma Distribute(a: real, b: real, s: real)
    ensures (a + b + 1.0) * s == a * s + b * s + s
  {
  }
}
