/** Which tiles a seeding request renders: every tile of its zoom levels, each once. */
module Seeding {
  import opened Outcomes
  import opened Grid

  datatype Cell = Cell(z: nat, x: nat, y: nat)

  // Whether a tile's rendering succeeds.
  type Renders = Cell -> bool

  // ---- The order of the loops ----

  function ColumnCells(g: Gridset, z: nat, x: nat, rows: nat): seq<Cell> {
    seq(rows, y requires 0 <= y < rows => Cell(z, x, y))
  }

  function ZoomCells(g: Gridset, z: nat, cols: nat): seq<Cell> {
    if cols == 0 then [] else ZoomCells(g, z, cols - 1) + ColumnCells(g, z, cols - 1, Rows(g, z))
  }

  /** The tiles of the zoom levels from `a` up to but not including `b`. */
  function LevelCells(g: Gridset, a: nat, b: nat): seq<Cell>
    decreases b
  {
    if b <= a then [] else LevelCells(g, a, b - 1) + ZoomCells(g, b - 1, TilesPerAxis(g, b - 1))
  }

  function CountRendered(renders: Renders, cells: seq<Cell>): nat {
    if cells == [] then 0
    else CountRendered(renders, cells[..|cells| - 1]) + if renders(cells[|cells| - 1]) then 1 else 0
  }

  lemma CountSnoc(renders: Renders, cells: seq<Cell>, c: Cell)
    ensures CountRendered(renders, cells + [c]) == CountRendered(renders, cells) + if renders(c) then 1 else 0
  {
    assert (cells + [c])[..|cells|] == cells;
  }

  /** One column of tiles, behind what has been visited and counted before. */
  method SeedColumn(g: Gridset, z: nat, x: nat, rows: nat, renders: Renders, before: seq<Cell>, count: nat) returns (visited: seq<Cell>, seeded: nat)
    requires count == CountRendered(renders, before)
    ensures visited == before + ColumnCells(g, z, x, rows)
    ensures seeded == CountRendered(renders, visited)
  {
    visited, seeded := before, count;
    assert before + [] == before;
    for y := 0 to rows
      invariant visited == before + ColumnCells(g, z, x, y)
      invariant seeded == CountRendered(renders, visited)
    {
      var c := Cell(z, x, y);
      assert ColumnCells(g, z, x, y + 1) == ColumnCells(g, z, x, y) + [c];
      assert before + ColumnCells(g, z, x, y + 1) == visited + [c];
      CountSnoc(renders, visited, c);
      visited := visited + [c];
      if renders(c) {
        seeded := seeded + 1;
      }
    }
  }

  /** One zoom level. */
  method SeedLevel(g: Gridset, z: nat, renders: Renders, before: seq<Cell>, count: nat) returns (visited: seq<Cell>, seeded: nat)
    requires count == CountRendered(renders, before)
    ensures visited == before + ZoomCells(g, z, TilesPerAxis(g, z))
    ensures seeded == CountRendered(renders, visited)
  {
    visited, seeded := before, count;
    var per := TilesPerAxis(g, z);
    var rows := if g.PlateCarree? then per / 2 else per;
    assert before + [] == before;
    for x := 0 to per
      invariant visited == before + ZoomCells(g, z, x)
      invariant seeded == CountRendered(renders, visited)
    {
      assert before + ZoomCells(g, z, x + 1) == visited + ColumnCells(g, z, x, rows);
      visited, seeded := SeedColumn(g, z, x, rows, renders, visited, seeded);
    }
  }

  method SeedLevels(g: Gridset, zStart: nat, zStop: nat, renders: Renders) returns (visited: seq<Cell>, seeded: nat)
    ensures visited == LevelCells(g, zStart, zStop + 1)
    ensures seeded == CountRendered(renders, visited)
  {
    visited, seeded := [], 0;
    var z := zStart;
    while z <= zStop
      invariant zStart <= z && (z <= zStop + 1 || z == zStart)
      invariant visited == LevelCells(g, zStart, z)
      invariant seeded == CountRendered(renders, visited)
      decreases zStop + 1 - z
    {
      visited, seeded := SeedLevel(g, z, renders, visited, seeded);
      z := z + 1;
    }
  }

  /** The tiles a request visits, in order, and how many it counts as seeded. Zoom numbers are truncated to a byte. */
  method Seed(g: Gridset, zoomStart: nat, zoomStop: nat, renders: Renders) returns (r: Outcome<(seq<Cell>, nat)>)
    ensures r.Done? <==> zoomStop % 256 <= 5
    ensures r.Done? ==> r.value.0 == LevelCells(g, zoomStart % 256, zoomStop % 256 + 1)
    ensures r.Done? ==> r.value.1 == CountRendered(renders, r.value.0)
  {
    var zStart, zStop := zoomStart % 256, zoomStop % 256;
    if zStop > 5 {
      return Fail;
    }
    var visited, seeded := SeedLevels(g, zStart, zStop, renders);
    return Done((visited, seeded));
  }

  // ---- Every tile once ----

  predicate Distinct(cells: seq<Cell>) {
    forall i, j | 0 <= i < j < |cells| :: cells[i] != cells[j]
  }

  lemma DistinctConcat(a: seq<Cell>, b: seq<Cell>)
    requires Distinct(a) && Distinct(b) && forall c: Cell | c in a :: c !in b
    ensures Distinct(a + b)
  {
    forall i, j | 0 <= i < j < |a + b|
      ensures (a + b)[i] != (a + b)[j]
    {
      if i < |a| <= j {
        assert a[i] in a && b[j - |a|] in b;
      }
    }
  }

  lemma ColumnExactly(g: Gridset, z: nat, x: nat, rows: nat)
    ensures Distinct(ColumnCells(g, z, x, rows))
    ensures forall c: Cell :: c in ColumnCells(g, z, x, rows) <==> c.z == z && c.x == x && c.y < rows
    ensures |ColumnCells(g, z, x, rows)| == rows
  {
    var cells := ColumnCells(g, z, x, rows);
    forall c: Cell | c.z == z && c.x == x && c.y < rows
      ensures c in cells
    {
      assert cells[c.y] == c;
    }
  }

  lemma {:induction false} ZoomExactly(g: Gridset, z: nat, cols: nat)
    ensures Distinct(ZoomCells(g, z, cols))
    ensures forall c: Cell :: c in ZoomCells(g, z, cols) <==> c.z == z && c.x < cols && c.y < Rows(g, z)
    ensures |ZoomCells(g, z, cols)| == cols * Rows(g, z)
  {
    if cols > 0 {
      ZoomExactly(g, z, cols - 1);
      ColumnExactly(g, z, cols - 1, Rows(g, z));
      DistinctConcat(ZoomCells(g, z, cols - 1), ColumnCells(g, z, cols - 1, Rows(g, z)));
    }
  }

  /** Seeding visits each tile of its zoom levels exactly once, and nothing else. */
  lemma {:induction false} SeedVisitsExactly(g: Gridset, a: nat, b: nat)
    ensures Distinct(LevelCells(g, a, b))
    ensures forall c: Cell :: c in LevelCells(g, a, b) <==> a <= c.z < b && InGrid(g, c.z, c.x, c.y)
    decreases b
  {
    if a < b {
      SeedVisitsExactly(g, a, b - 1);
      ZoomExactly(g, b - 1, TilesPerAxis(g, b - 1));
      DistinctConcat(LevelCells(g, a, b - 1), ZoomCells(g, b - 1, TilesPerAxis(g, b - 1)));
    }
  }

  // ---- How many ----

  function Pow4(n: nat): nat {
    if n == 0 then 1 else 4 * Pow4(n - 1)
  }

  lemma {:induction false} Pow4IsSquare(n: nat)
    ensures Pow4(n) == Pow2(n) * Pow2(n)
  {
    if n > 0 {
      Pow4IsSquare(n - 1);
    }
  }

  function Width(g: Gridset): nat {
    if g.PlateCarree? then 2 else 1
  }

  lemma LevelSize(g: Gridset, z: nat)
    ensures TilesPerAxis(g, z) * Rows(g, z) == Width(g) * Pow4(z)
  {
    Pow4IsSquare(z);
    if g.PlateCarree? {
      assert TilesPerAxis(g, z) == 2 * Pow2(z) && Rows(g, z) == Pow2(z);
      Regroup(Pow2(z));
    }
  }

  lemma Regroup(p: nat)
    ensures (2 * p) * p == 2 * (p * p)
  {
  }

  /** The levels from a to b hold a third of 4^b - 4^a tiles, twice that for the longitude and latitude grid. */
  lemma {:induction false} SeedCount(g: Gridset, a: nat, b: nat)
    requires a <= b
    ensures 3 * |LevelCells(g, a, b)| == Width(g) * (Pow4(b) - Pow4(a))
    decreases b
  {
    if a < b {
      SeedCount(g, a, b - 1);
      ZoomExactly(g, b - 1, TilesPerAxis(g, b - 1));
      LevelSize(g, b - 1);
    }
  }

  lemma {:induction false} AllRendered(renders: Renders, cells: seq<Cell>)
    requires forall c: Cell | c in cells :: renders(c)
    ensures CountRendered(renders, cells) == |cells|
    decreases |cells|
  {
    if cells != [] {
      AllRendered(renders, cells[..|cells| - 1]);
    }
  }

  lemma {:induction false} RenderedAtMost(renders: Renders, cells: seq<Cell>)
    ensures CountRendered(renders, cells) <= |cells|
    decreases |cells|
  {
    if cells != [] {
      RenderedAtMost(renders, cells[..|cells| - 1]);
    }
  }

  lemma AtMost(g: Gridset, a: nat, b: nat)
    requires a <= b <= 6
    ensures |LevelCells(g, a, b)| <= 2730
  {
    SeedCount(g, a, b);
    PowBound(b);
    PowPositive(a);
  }

  lemma PowPositive(n: nat)
    ensures Pow4(n) >= 1
  {
  }

  /** No accepted request seeds more than 2730 tiles. */
  lemma SeededAtMost(g: Gridset, zStart: nat, zStop: nat, renders: Renders)
    requires zStop <= 5
    ensures CountRendered(renders, LevelCells(g, zStart, zStop + 1)) <= 2730
  {
    RenderedAtMost(renders, LevelCells(g, zStart, zStop + 1));
    if zStart <= zStop {
      AtMost(g, zStart, zStop + 1);
    }
  }

  /** When every rendering succeeds, all tiles of the levels are counted. */
  lemma AllSeeded(g: Gridset, zStart: nat, zStop: nat, renders: Renders)
    requires zStart <= zStop && forall c: Cell | c in LevelCells(g, zStart, zStop + 1) :: renders(c)
    ensures 3 * CountRendered(renders, LevelCells(g, zStart, zStop + 1)) == Width(g) * (Pow4(zStop + 1) - Pow4(zStart))
  {
    SeedCount(g, zStart, zStop + 1);
    AllRendered(renders, LevelCells(g, zStart, zStop + 1));
  }

  lemma PowBound(n: nat)
    requires n <= 6
    ensures Pow4(n) <= 4096
  {
    assert Pow4(1) == 4 && Pow4(2) == 16 && Pow4(3) == 64;
    assert Pow4(4) == 256;
    assert Pow4(5) == 1024;
    assert Pow4(6) == 4096;
  }
}
