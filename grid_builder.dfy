/** The grid construction of `main()`: pixel rows `y` and, inside each,
    pixel columns `x` both step by the cell size from 0 up to (and not
    including) the screen extent plus one cell.  Every visited cell is 0 on
    the screen border and otherwise the noise value at a running position,
    thresholded; the running position advances by the noise step after every
    cell, border cells included.  The grid is a list of rows: `grid[r][k]` is
    the cell at pixel row `r * cellSize`, pixel column `k * cellSize`. */
module GridBuilder {
  import opened Builtins

  /** A grid cell: empty (0) or filled (1). */
  type Cell = c: int | 0 <= c <= 1

  type Grid = seq<seq<Cell>>

  /** The builder's inputs: screen width `sx` and height `sy` in pixels, the
      cell size in pixels, the noise threshold for a filled cell and the
      advance of the noise position per visited cell. */
  datatype Config = Config(sx: int, sy: int, cellSize: int, threshold: real, noiseStep: real)

  /** A built grid with the final value of the running noise position. */
  datatype Built = Built(grid: Grid, noiseInd: real)

  /** The number of rows: `len(range(0, sy + cellSize, cellSize))`. */
  function Rows(cfg: Config): nat
    requires cfg.cellSize != 0
  {
    RangeLen(cfg.sy + cfg.cellSize, cfg.cellSize)
  }

  /** The number of cells per row: `len(range(0, sx + cellSize, cellSize))`. */
  function Cols(cfg: Config): nat
    requires cfg.cellSize != 0
  {
    RangeLen(cfg.sx + cfg.cellSize, cfg.cellSize)
  }

  /** The border test on pixel coordinates. */
  predicate OnBorder(cfg: Config, x: int, y: int)
  {
    y == 0 || x == 0 || x >= cfg.sx || y >= cfg.sy
  }

  /** The noise position of the cell in row `r`, column `k`: one noise step
      for each cell visited before it in row-major order. */
  function NoisePos(cfg: Config, r: nat, k: nat): real
    requires cfg.cellSize != 0
  {
    (r * Cols(cfg) + k) as real * cfg.noiseStep
  }

  /** The cell the builder stores in row `r`, column `k`. */
  function CellAt(cfg: Config, noise: real -> real, r: nat, k: nat): Cell
    requires cfg.cellSize != 0
  {
    if OnBorder(cfg, k * cfg.cellSize, r * cfg.cellSize) then 0
    else if noise(NoisePos(cfg, r, k)) < cfg.threshold then 0
    else 1
  }

  /** `grid` is the grid the builder produces for `cfg` and the noise oracle. */
  ghost predicate Generated(grid: Grid, cfg: Config, noise: real -> real)
    requires cfg.cellSize != 0
  {
    && |grid| == Rows(cfg)
    && (forall r :: 0 <= r < |grid| ==> |grid[r]| == Cols(cfg))
    && (forall r, k :: 0 <= r < |grid| && 0 <= k < |grid[r]| ==> grid[r][k] == CellAt(cfg, noise, r, k))
  }

  /** The grid-construction loop.  `noise(p)` is the generator's sample at
      position `p`.  A zero cell size makes `range` raise `ValueError`. */
  method BuildGrid(cfg: Config, noise: real -> real) returns (result: Result<Built>)
    ensures cfg.cellSize == 0 <==> result == Err(ValueError)
    ensures cfg.cellSize != 0 ==> result.Ok? && Generated(result.value.grid, cfg, noise)
    ensures cfg.cellSize != 0 ==> result.value.noiseInd == (Rows(cfg) * Cols(cfg)) as real * cfg.noiseStep
  {
    if cfg.cellSize == 0 {
      return Err(ValueError);
    }
    var rows, cols := Rows(cfg), Cols(cfg);
    var grid: Grid := [];
    var noiseInd := 0.0;
    var r := 0;
    while r < rows
      invariant 0 <= r <= rows && |grid| == r
      invariant forall i :: 0 <= i < r ==> |grid[i]| == cols
      invariant forall i, k :: 0 <= i < r && 0 <= k < cols ==> grid[i][k] == CellAt(cfg, noise, i, k)
      invariant noiseInd == NoisePos(cfg, r, 0)
    {
      var line;
      line, noiseInd := BuildLine(cfg, noise, r, noiseInd);
      grid := grid + [line];
      NextRowStartsWhereRowEnds(cfg, r);
      r := r + 1;
    }
    assert noiseInd == NoisePos(cfg, rows, 0);
    result := Ok(Built(grid, noiseInd));
  }

  /** One pass of the inner loop: the cells of row `r`, each sampled at the
      running noise position, which advances once per cell. */
  method BuildLine(cfg: Config, noise: real -> real, r: nat, noiseInd0: real) returns (line: seq<Cell>, noiseInd: real)
    requires cfg.cellSize != 0
    requires noiseInd0 == NoisePos(cfg, r, 0)
    ensures |line| == Cols(cfg)
    ensures forall k :: 0 <= k < |line| ==> line[k] == CellAt(cfg, noise, r, k)
    ensures noiseInd == NoisePos(cfg, r, Cols(cfg))
  {
    var cols := Cols(cfg);
    var y := r * cfg.cellSize;
    line := [];
    noiseInd := noiseInd0;
    var k := 0;
    while k < cols
      invariant 0 <= k <= cols && |line| == k
      invariant forall j :: 0 <= j < k ==> line[j] == CellAt(cfg, noise, r, j)
      invariant noiseInd == NoisePos(cfg, r, k)
    {
      var x := k * cfg.cellSize;
      var noiseVal: Cell := 0;
      if y == 0 || x == 0 || x >= cfg.sx || y >= cfg.sy {
        noiseVal := 0;
      } else {
        var v := noise(noiseInd);
        noiseVal := if v < cfg.threshold then 0 else 1;
      }
      assert noiseVal == CellAt(cfg, noise, r, k);
      line := line + [noiseVal];
      StepAdvance(r * cols + k, cfg.noiseStep);
      assert NoisePos(cfg, r, k + 1) == noiseInd + cfg.noiseStep;
      noiseInd := noiseInd + cfg.noiseStep;
      k := k + 1;
    }
  }

  lemma NextRowStartsWhereRowEnds(cfg: Config, r: nat)
    requires cfg.cellSize != 0
    ensures NoisePos(cfg, r, Cols(cfg)) == NoisePos(cfg, r + 1, 0)
  {
    assert r * Cols(cfg) + Cols(cfg) == (r + 1) * Cols(cfg);
  }

  lemma StepAdvance(n: int, step: real)
    ensures (n + 1) as real * step == n as real * step + step
  {
  }

  /** With a positive cell size, a cell is on the pixel border exactly when it
      is in the first or last row or the first or last column of the grid. */
  lemma BorderIsGridEdge(cfg: Config, r: nat, k: nat)
    requires cfg.cellSize > 0 && r < Rows(cfg) && k < Cols(cfg)
    ensures OnBorder(cfg, k * cfg.cellSize, r * cfg.cellSize) <==>
      (r == 0 || k == 0 || r == Rows(cfg) - 1 || k == Cols(cfg) - 1)
  {
    var c := cfg.cellSize;
    RangeLenCounts(cfg.sy + c, c, r);
    RangeLenCounts(cfg.sy + c, c, r + 1);
    RangeLenCounts(cfg.sx + c, c, k);
    RangeLenCounts(cfg.sx + c, c, k + 1);
    assert (r + 1) * c == r * c + c && (k + 1) * c == k * c + c;
    if r > 0 {
      MulMonotone(1, r, c);
    }
    if k > 0 {
      MulMonotone(1, k, c);
    }
  }

  /** Every cell of the first and last row and column is empty, whatever the
      noise and the threshold. */
  lemma EdgeCellsEmpty(cfg: Config, noise: real -> real, r: nat, k: nat)
    requires cfg.cellSize > 0 && r < Rows(cfg) && k < Cols(cfg)
    requires r == 0 || k == 0 || r == Rows(cfg) - 1 || k == Cols(cfg) - 1
    ensures CellAt(cfg, noise, r, k) == 0
  {
    BorderIsGridEdge(cfg, r, k);
  }

  /** A cell off the grid's edge is filled exactly when the noise at its
      position reaches the threshold. */
  lemma InteriorCellFollowsNoise(cfg: Config, noise: real -> real, r: nat, k: nat)
    requires cfg.cellSize > 0
    requires 0 < r < Rows(cfg) - 1 && 0 < k < Cols(cfg) - 1
    ensures CellAt(cfg, noise, r, k) == 1 <==> noise(NoisePos(cfg, r, k)) >= cfg.threshold
  {
    BorderIsGridEdge(cfg, r, k);
    assert !OnBorder(cfg, k * cfg.cellSize, r * cfg.cellSize);
  }

  /** The last row and the last column sit at or beyond the screen extent,
      less than one cell past it. */
  lemma LastCellsReachExtent(cfg: Config)
    requires cfg.cellSize > 0 && cfg.sx > 0 && cfg.sy > 0
    ensures Rows(cfg) >= 2 && Cols(cfg) >= 2
    ensures cfg.sy <= (Rows(cfg) - 1) * cfg.cellSize < cfg.sy + cfg.cellSize
    ensures cfg.sx <= (Cols(cfg) - 1) * cfg.cellSize < cfg.sx + cfg.cellSize
  {
    LastRangeValue(cfg.sy, cfg.cellSize);
    LastRangeValue(cfg.sx, cfg.cellSize);
    RangeLenCounts(cfg.sy + cfg.cellSize, cfg.cellSize, 1);
    RangeLenCounts(cfg.sx + cfg.cellSize, cfg.cellSize, 1);
  }
}
