/** Marching squares over the occupancy grid: each 2x2 quad of cells becomes
    one of 16 tile cases, read as the binary number whose digits are the
    quad's four cells; the case picks a 9-pixel-wide tile (scaled) out of a
    strip of 16 tiles.  The render loop asks for one tile per quad. */
module MarchingSquares {
  import opened Builtins
  import opened GridBuilder

  /** `grid[x][y]` with Python's list indexing; `None` where it raises. */
  function Read(grid: Grid, x: int, y: int): Option<Cell>
  {
    match At(grid, x)
    case Some(row) => At(row, y)
    case None => None
  }

  function Pow2(n: nat): (p: nat)
    ensures p >= 1
  {
    if n == 0 then 1 else 2 * Pow2(n - 1)
  }

  /** `int(s, 2)` where `s` spells the binary digits `digits`, most
      significant first. */
  function FromBinary(digits: seq<Cell>): (n: nat)
    ensures n < Pow2(|digits|)
  {
    if digits == [] then 0
    else 2 * FromBinary(digits[..|digits| - 1]) + digits[|digits| - 1]
  }

  /** The quad whose first corner is `(x, y)` lies inside the grid. */
  predicate QuadInGrid(grid: Grid, x: int, y: int)
  {
    0 <= x && 0 <= y && x + 1 < |grid| && y + 1 < |grid[x]| && y + 1 < |grid[x + 1]|
  }

  /** The marching-squares case of a quad, as weights: bit 3 is
      `grid[x+1][y]`, bit 2 `grid[x+1][y+1]`, bit 1 `grid[x][y+1]` and bit 0
      `grid[x][y]`. */
  function QuadCase(grid: Grid, x: int, y: int): int
    requires QuadInGrid(grid, x, y)
  {
    8 * (grid[x + 1][y] as int) + 4 * (grid[x + 1][y + 1] as int) + 2 * (grid[x][y + 1] as int) + grid[x][y] as int
  }

  /** `CellToInd(grid, x, y)`: reads `zero = grid[x][y]`, `one = grid[x][y+1]`,
      `two = grid[x+1][y+1]`, `three = grid[x+1][y]` and parses the digit
      string `three two one zero` in base 2. */
  function CellToInd(grid: Grid, x: int, y: int): (r: Result<int>)
    ensures QuadInGrid(grid, x, y) ==> r == Ok(QuadCase(grid, x, y))
    ensures r.Ok? ==> 0 <= r.value < 16
    ensures x + 1 >= |grid| || x < -|grid| ==> r == Err(IndexError)
  {
    match (Read(grid, x, y), Read(grid, x, y + 1), Read(grid, x + 1, y + 1), Read(grid, x + 1, y))
    case (Some(zero), Some(one), Some(two), Some(three)) =>
      FourDigits(three, two, one, zero);
      Ok(FromBinary([three, two, one, zero]))
    case _ => Err(IndexError)
  }

  lemma FourDigits(d3: Cell, d2: Cell, d1: Cell, d0: Cell)
    ensures FromBinary([d3, d2, d1, d0]) == 8 * (d3 as int) + 4 * (d2 as int) + 2 * (d1 as int) + d0 as int
    ensures Pow2(4) == 16
  {
    assert [d3][..0] == [];
    assert FromBinary([d3]) == d3 as int;
    assert [d3, d2][..1] == [d3];
    assert FromBinary([d3, d2]) == 2 * (d3 as int) + d2 as int;
    assert [d3, d2, d1][..2] == [d3, d2];
    assert FromBinary([d3, d2, d1]) == 4 * (d3 as int) + 2 * (d2 as int) + d1 as int;
    assert [d3, d2, d1, d0][..3] == [d3, d2, d1];
  }

  /** The tile case gives back the four cells it was made from: its binary
      digits are the quad's cells. */
  lemma QuadCaseDigits(grid: Grid, x: int, y: int)
    requires QuadInGrid(grid, x, y)
    ensures CellToInd(grid, x, y).Ok?
    ensures CellToInd(grid, x, y).value % 2 == grid[x][y]
    ensures CellToInd(grid, x, y).value / 2 % 2 == grid[x][y + 1]
    ensures CellToInd(grid, x, y).value / 4 % 2 == grid[x + 1][y + 1]
    ensures CellToInd(grid, x, y).value / 8 == grid[x + 1][y]
  {
    var i := QuadCase(grid, x, y);
    var d3: int, d2: int, d1: int, d0: int := grid[x + 1][y], grid[x + 1][y + 1], grid[x][y + 1], grid[x][y];
    assert i == 8 * d3 + 4 * d2 + 2 * d1 + d0;
    assert i / 2 == 4 * d3 + 2 * d2 + d1;
    assert i / 4 == 2 * d3 + d2;
  }

  /** The tile case depends on the quad's four cells and nothing else. */
  lemma CellToIndReadsOnlyQuad(g1: Grid, g2: Grid, x: int, y: int)
    requires QuadInGrid(g1, x, y) && QuadInGrid(g2, x, y)
    requires g1[x][y] == g2[x][y] && g1[x][y + 1] == g2[x][y + 1]
    requires g1[x + 1][y + 1] == g2[x + 1][y + 1] && g1[x + 1][y] == g2[x + 1][y]
    ensures CellToInd(g1, x, y) == CellToInd(g2, x, y)
  {
  }

  /** A quad with the cells `grid[0][1]` and `grid[1][1]` filled is case 6. */
  lemma CellToIndExample()
    ensures CellToInd([[0, 1], [0, 1]], 0, 0) == Ok(6)
  {
    assert QuadInGrid([[0, 1], [0, 1]], 0, 0);
  }

  /** `DrawBorder`'s source offset: the tile case modulo 16 selects a
      `9 * scale` pixel wide tile of a strip `144 * scale` pixels wide. */
  function TileSourceX(index: int, scale: int): (srcX: int)
    ensures 0 <= index < 16 ==> srcX == index * 9 * scale
    ensures 0 <= scale ==> 0 <= srcX && srcX + 9 * scale <= 144 * scale
  {
    var ind := index % 16;
    assert 0 <= scale ==> 0 <= ind * 9 * scale && ind * 9 * scale + 9 * scale <= 144 * scale by {
      if 0 <= scale {
        MulMonotone(0, ind * 9, scale);
        MulMonotone(ind * 9 + 9, 144, scale);
        assert (ind * 9 + 9) * scale == ind * 9 * scale + 9 * scale;
      }
    }
    ind * 9 * scale
  }

  /** A blit of the render loop: the tile case, the tile's offset in the
      strip and the screen position, which `main.py` gives as
      `(y * 9 * scale, x * 9 * scale)`, the grid's column pixel first. */
  datatype TileDraw = TileDraw(tile: int, srcX: int, pos: (int, int))

  /** The blit the render loop issues for the quad at `(x, y)`. */
  function TileDrawAt(grid: Grid, scale: int, x: int, y: int): TileDraw
    requires QuadInGrid(grid, x, y)
  {
    TileDraw(QuadCase(grid, x, y), QuadCase(grid, x, y) * 9 * scale, (y * 9 * scale, x * 9 * scale))
  }

  /** The number of quads along a side of `n` cells: `len(range(n - 1))`. */
  function Quads(n: nat): nat
  {
    if n > 0 then n - 1 else 0
  }

  /** Every row has as many cells as the first; `dimY = len(grid[0])`
      needs a first row. */
  predicate Rectangular(grid: Grid)
  {
    |grid| > 0 && forall i :: 0 <= i < |grid| ==> |grid[i]| == |grid[0]|
  }

  /** The blits of one pass of the inner render loop, at `y`. */
  function RowDraws(grid: Grid, scale: int, y: nat): (row: seq<TileDraw>)
    requires Rectangular(grid) && y < Quads(|grid[0]|)
    ensures |row| == Quads(|grid|)
  {
    seq(Quads(|grid|), x requires 0 <= x < Quads(|grid|) => TileDrawAt(grid, scale, x, y))
  }

  /** The blits of the first `n` passes of the outer render loop. */
  function TileDraws(grid: Grid, scale: int, n: nat): seq<TileDraw>
    requires Rectangular(grid) && n <= Quads(|grid[0]|)
  {
    if n == 0 then [] else TileDraws(grid, scale, n - 1) + RowDraws(grid, scale, n - 1)
  }

  /** After `n` rows there are `n * (dimX - 1)` blits, and the blit for the
      quad `(x, y)` is at position `y * (dimX - 1) + x`. */
  lemma {:induction false} TileDrawsAt(grid: Grid, scale: int, n: nat, y: nat, x: nat)
    requires Rectangular(grid) && n <= Quads(|grid[0]|)
    requires y < n && x < Quads(|grid|)
    ensures |TileDraws(grid, scale, n)| == n * Quads(|grid|)
    ensures y * Quads(|grid|) + x < n * Quads(|grid|)
    ensures TileDraws(grid, scale, n)[y * Quads(|grid|) + x] == TileDrawAt(grid, scale, x, y)
  {
    var nX := Quads(|grid|);
    TileDrawsLength(grid, scale, n - 1);
    assert n * nX == (n - 1) * nX + nX;
    if y < n - 1 {
      TileDrawsAt(grid, scale, n - 1, y, x);
    } else {
      assert y * nX + x == (n - 1) * nX + x;
    }
  }

  lemma {:induction false} TileDrawsLength(grid: Grid, scale: int, n: nat)
    requires Rectangular(grid) && n <= Quads(|grid[0]|)
    ensures |TileDraws(grid, scale, n)| == n * Quads(|grid|)
  {
    if n > 0 {
      TileDrawsLength(grid, scale, n - 1);
      assert n * Quads(|grid|) == (n - 1) * Quads(|grid|) + Quads(|grid|);
    }
  }

  /** The tile part of the render loop: for `y` over `range(dimY - 1)` and,
      inside, `x` over `range(dimX - 1)`, with `dimX = len(grid)` and
      `dimY = len(grid[0])`, one blit per quad, in that order, each with the
      case `CellToInd` gives for the quad.  Every call of `CellToInd`
      succeeds on a rectangular grid. */
  method DrawTiles(grid: Grid, scale: int) returns (draws: seq<TileDraw>)
    requires Rectangular(grid)
    ensures draws == TileDraws(grid, scale, Quads(|grid[0]|))
    ensures forall i :: 0 <= i < |draws| ==> 0 <= draws[i].tile < 16
  {
    var dimX, dimY := |grid|, |grid[0]|;
    var nX, nY := Quads(dimX), Quads(dimY);
    draws := [];
    var y := 0;
    while y < nY
      invariant 0 <= y <= nY && draws == TileDraws(grid, scale, y)
      invariant forall i :: 0 <= i < |draws| ==> 0 <= draws[i].tile < 16
    {
      var line: seq<TileDraw> := [];
      var x := 0;
      while x < nX
        invariant 0 <= x <= nX && line == RowDraws(grid, scale, y)[..x]
        invariant forall i :: 0 <= i < |line| ==> 0 <= line[i].tile < 16
      {
        assert QuadInGrid(grid, x, y);
        var borderInd := CellToInd(grid, x, y);
        var tile := borderInd.value;
        line := line + [TileDraw(tile, TileSourceX(tile, scale), (y * 9 * scale, x * 9 * scale))];
        x := x + 1;
      }
      assert line == RowDraws(grid, scale, y);
      draws := draws + line;
      y := y + 1;
    }
  }
}
