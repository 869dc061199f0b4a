/** The set-up part of `main()`: the screen is 1280 by 720 pixels, the scale
    factor 3, so a cell is 27 pixels; the noise table has one sample per 27
    pixels of screen area, drawn unseeded with amplitude 1; the grid is built
    with threshold 0.5 and noise step 1 from the generator's default (cosine)
    blend, and its dimensions are read back as `dimX = len(grid)` and
    `dimY = len(grid[0])`. */
module App {
  import opened Builtins
  import opened Noise
  import opened GridBuilder
  import opened MarchingSquares

  const ScreenWidth := 1280
  const ScreenHeight := 720
  const ScaleFactor := 3

  /** The builder's inputs as `main()` fixes them. */
  function MainConfig(): Config
  {
    Config(ScreenWidth, ScreenHeight, 9 * ScaleFactor, 0.5, 1.0)
  }

  /** `main()` up to the event loop.  `draws` is the stream `random.random()`
      yields after `random.seed(None)`; `cosPi(t)` is `math.cos(t * math.pi)`. */
  method SetUp(draws: nat -> real, cosPi: real -> real) returns (pn: Noise1D, grid: Grid, dimX: int, dimY: int)
    ensures pn.size == ScreenWidth * ScreenHeight / (9 * ScaleFactor) == 34133
    ensures pn.Ready() && pn.amplitude == 1.0 && pn.seed == Entropy
    ensures forall i :: 0 <= i < |pn.noise| ==> pn.noise[i] == draws(i)
    ensures Generated(grid, MainConfig(), CosineNoise(pn.noise, cosPi))
    ensures Rectangular(grid)
    ensures dimX == |grid| == 28 && dimY == |grid[0]| == 49
  {
    var cellSize := 9 * ScaleFactor;
    var resolution := (ScreenWidth * ScreenHeight) / cellSize;
    pn := new Noise1D(resolution, 1.0, Entropy, draws);
    var noise := CosineNoise(pn.noise, cosPi);
    var built := BuildGrid(MainConfig(), noise);
    grid := built.value.grid;
    assert Rows(MainConfig()) == 28 && Cols(MainConfig()) == 49;
    dimX := |grid|;
    dimY := |grid[0]|;
  }
}
