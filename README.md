# Marching squares: noise table, grid builder and tile index

A Dafny model of the deterministic core of `main.py`, a pygame program that
draws a marching-squares boundary over a random occupancy grid:

- `Noise1D` (module `Noise`, file `noise1d.dfy`): a table of `size` random
  samples scaled by an amplitude, refilled by `Reset`, and read back by
  `Noise(x)` at the two samples `int(x) % size` and `(int(x) + 1) % size`,
  blended linearly or by the cosine-eased formula. The class keeps the
  source's fields (`size`, `noise`, `amplitude`, `seed`), and `Reset` is a
  method that refills the table in a loop.
- The grid construction inside `main()` (module `GridBuilder`), lifted into
  `BuildGrid(cfg, noise)`. Its nested loop visits pixel rows and then pixel
  columns in steps of the cell size, and it forces the screen border to 0.
  Every other cell is thresholded noise read at a running position. That
  position advances by the noise step after every cell, border cells
  included. The grid is a list of rows, so `grid[r][k]` is pixel row
  `r * cellSize`, pixel column `k * cellSize`.
- `CellToInd` (module `MarchingSquares`) reads a 2x2 quad and parses the digit
  string `three two one zero` in base 2. `DrawBorder`'s offset into the tile
  strip is `TileSourceX`. `DrawTiles` is the tile part of the render loop: one
  blit per quad, for `y` over `range(dimY - 1)` and then `x` over
  `range(dimX - 1)`.
- The set-up of `main()` (module `App`): the screen is 1280x720, the scale
  factor is 3, the table has 34133 samples and the grid is 28x49.
- Python's built-in behaviour (module `Builtins`): list indexing with
  negative indices, the floor `%`, `int()` of a float, `math.modf`, and
  `len(range(0, stop, step))`. Exceptions become `Err(ZeroDivisionError)`,
  `Err(IndexError)` and `Err(ValueError)`.

The random stream is a parameter `draws: nat -> real`. `draws(i)` is what the
`i`-th call of `random.random()` returns after `random.seed(seed)`. `math.cos(t * math.pi)` is a
parameter `cosPi`. The only fact used about it is `cosPi(0) = 1`. Floats are
`real`.

The code is followed wherever a description of the program says otherwise:

- `main.py` has no cleanup or smoothing pass over the grid, so none is
  modelled.
- The grid is a list of rows, so `dimX = len(grid)` counts rows and `dimY`
  counts columns.
- The cosine branch is the source's formula `(cos(t*pi) + 1) * 0.5 * (y1 - y2) + y2`, kept as written.

## Model

| member | source | states |
|---|---|---|
| Builtins.FloorMod | main.py:50-51 | Python's `%`: the result is congruent to `a` modulo `b` and lies in `[0, b)` for a positive divisor, in `(b, 0]` for a negative one |
| Builtins.Trunc | main.py:46 | `int(x)` rounds toward zero: for `x >= 0` it is the floor, for `x < 0` the ceiling |
| Builtins.Frac | main.py:48 | `math.modf(x)[0]` lies in `[0, 1)` for `x >= 0` and in `(-1, 0]` for `x < 0` |
| Builtins.RangeLenCounts | main.py:147-149 | the `k`-th value `k * step` of `range(0, stop, step)` is produced exactly when it is short of `stop` in the direction of the step (both directions of the iff) |
| Builtins.LastRangeValue | main.py:147-149 | with a positive step the last value of `range(0, extent + step, step)` is at least `extent` and below `extent + step` |
| Noise.Sample | main.py:45-58 | a size of 0 raises `ZeroDivisionError` (and only then); a table of `size > 0` samples always answers; an empty table raises `IndexError`; the linear result at `x >= 0` lies between the samples at `int(x) % size` and `(int(x)+1) % size` |
| Noise.Blend | main.py:53-56 | the linear blend with weight in `[0, 1]` lies between the two samples; at weight 0 both blends give the first sample, the cosine one because `cos(0) = 1` |
| Noise.LinearBlendBetween | main.py:54 | `(1 - t) * y1 + t * y2` lies between `y1` and `y2` for `t` in `[0, 1]` |
| Noise.SampleAtWholePosition | main.py:46-56 | at a whole position `n` the sample is exactly `table[n % size]`, for the linear blend and for the cosine blend when `cos(0) = 1` |
| Noise.SamplePeriodic | main.py:46-51 | for `x >= 0`, shifting the position by the table size gives the same sample: the lookup wraps modulo the size |
| Noise.LinearSampleInRange | main.py:50-54 | a table with samples in `[0, amp)` gives linear samples in `[0, amp)` at every non-negative position |
| Noise.LinearExample | main.py:53-54 | the table `[0.1, 0.9, 0.2, 0.8]` read linearly gives 0.1 at 0, 0.9 at 1 and 0.5 at 0.5 |
| Noise.FilledTableInRange | main.py:40-41 | a table filled with draws in `[0, 1)` times a positive amplitude holds samples in `[0, amp)` |
| Noise.Noise1D.constructor | main.py:23-26 | records the size, then resets: the table holds `max(size, 0)` samples `draws(i) * amplitude`, and a positive size leaves the generator ready |
| Noise.Noise1D.Reset | main.py:30-41 | a positive new size becomes the size; amplitude and seed are replaced; the table holds `draws(i) * newAmp` at every index; a non-positive new size over a positive old size raises `IndexError` and leaves the table empty, otherwise it leaves an empty table without error |
| Noise.Noise1D.Noise | main.py:45-58 | a ready generator always answers; a size of 0 raises `ZeroDivisionError`; an empty table with a non-zero size raises `IndexError` |
| GridBuilder.BuildGrid | main.py:141-161 | a cell size of 0 raises `ValueError` (and only then); otherwise the grid has `len(range(0, sy+c, c))` rows of `len(range(0, sx+c, c))` 0/1 cells, each the border/threshold value of its cell, and the final noise position is `rows * cols * noiseStep` |
| GridBuilder.BuildLine | main.py:148-159 | one row: `cols` cells, each the border/threshold value at noise position `(r * cols + k) * noiseStep`, and the position advanced by `cols` steps |
| GridBuilder.BorderIsGridEdge | main.py:147-153 | with a positive cell size a cell is on the pixel border exactly when it is in the first or last row or column of the grid |
| GridBuilder.EdgeCellsEmpty | main.py:150-153 | every cell of the first and last row and column is 0, whatever the noise and threshold |
| GridBuilder.InteriorCellFollowsNoise | main.py:154-159 | a cell off the edges is 1 exactly when the noise at `(r * cols + k) * noiseStep` reaches the threshold |
| GridBuilder.LastCellsReachExtent | main.py:147-149 | for a positive screen and cell size there are at least 2 rows and columns, and the last ones sit at or past the extent, less than a cell beyond it |
| MarchingSquares.FromBinary | main.py:84 | the value of `n` binary digits is below `2^n` |
| MarchingSquares.FourDigits | main.py:84 | the digit string `three two one zero` in base 2 is `8*three + 4*two + 2*one + zero` |
| MarchingSquares.CellToInd | main.py:77-86 | for a quad inside the grid the index is `8*grid[x+1][y] + 4*grid[x+1][y+1] + 2*grid[x][y+1] + grid[x][y]`; every answer is in `[0, 15]`; a row index past the last quad raises `IndexError` |
| MarchingSquares.QuadCaseDigits | main.py:79-84 | the index gives back its four cells: bit 0 is `grid[x][y]`, bit 1 `grid[x][y+1]`, bit 2 `grid[x+1][y+1]`, bit 3 `grid[x+1][y]` |
| MarchingSquares.CellToIndReadsOnlyQuad | main.py:77-86 | two grids that agree on the quad's four cells give the same index |
| MarchingSquares.CellToIndExample | main.py:79-86 | the quad with `grid[0][1]` and `grid[1][1]` filled is case 6 |
| MarchingSquares.TileSourceX | main.py:70-73 | an index in `[0, 15]` selects offset `index * 9 * scale`, and every offset's tile lies inside the `144 * scale` wide strip |
| MarchingSquares.DrawTiles | main.py:190-198 | on a rectangular grid every `CellToInd` call succeeds and the blits are those of `TileDraws` (each quad's case, its strip offset and its swapped screen position), all with a case in `[0, 15]` |
| MarchingSquares.TileDrawsAt | main.py:190-198 | after `n` row passes there are `n * (dimX - 1)` blits, and the one for quad `(x, y)` is at position `y * (dimX - 1) + x` |
| MarchingSquares.TileDrawsLength | main.py:190-191 | `n` row passes issue `n * (dimX - 1)` blits |
| MarchingSquares.RowDraws | main.py:191-198 | one row pass issues `dimX - 1` blits |
| App.SetUp | main.py:112-164 | the generator has `1280 * 720 // 27 = 34133` samples `draws(i)`, is ready (so its noise never raises), the grid is the builder's output for the main settings and the cosine noise, and it is rectangular with `dimX = 28`, `dimY = 49` |

## Left out

- Window setup, the event loop, image loading and scaling, `DrawLines`, `SetColor`, the circles, `blit` itself and `display.flip`: these are pygame I/O. `DrawTiles` stops at the blit requests.
- `PrintNoise` and the `print` of the grid size: console output.
- `random.seed` / `random.random`: a foreign RNG, replaced by the `draws` stream. The model does not tie the stream to the seed, so nothing is stated about two resets with the same seed.
- `math.cos`: transcendental floating point, replaced by `cosPi`. Only `cosPi(0) = 1` is used.
- Float rounding of the `noiseInd` accumulator, of `int()` and of `math.modf`: floats are exact reals. `inf` and `nan` positions, where `int()` raises, are not modelled.
- MarchingSquares.CellToInd: cells are 0 or 1 by type. How the digit-string parse treats other cell values (a `ValueError` for 2-9, longer binary strings for 10 and up) is not modelled, because every grid the program builds holds only 0 and 1.
- MarchingSquares.DrawTiles: requires a non-empty rectangular grid. `main()` only renders the builder's grid, which `App.SetUp` proves rectangular. A ragged grid, on which Python would raise `IndexError`, is not modelled.
- GridBuilder.BuildGrid: takes the noise as a total function of the position. The case where the generator itself raises (a zero-size table) is not modelled, because `main()` builds the generator with a positive size (`App.SetUp`).
- The `Noise1D` default arguments (`amplitude = 1.0`, `seed = None`, `Reset(newSize = 0)`): callers pass every argument explicitly.
