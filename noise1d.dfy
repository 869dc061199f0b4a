/** `Noise1D`: a table of pseudo-random samples, read back at real-valued
    positions by blending the two samples around the position, with the
    table indices wrapping around modulo the recorded size.

    The random stream is a parameter: `draws(i)` is the value the `i`-th call
    of `random.random()` returns after `random.seed(seed)`.  `cosPi(t)` stands
    for `math.cos(t * math.pi)`. */
module Noise {
  import opened Builtins

  datatype Interpolation = Linear | Cosine

  /** The value handed to `random.seed`; `Entropy` is Python's `None`. */
  datatype Seed = Entropy | Seeded(value: int)

  /** `Noise1D.Noise(x, interpolation)` on the table `table` when the object
      records the size `size`: the samples at `int(x) % size` and
      `(int(x) + 1) % size`, blended by the fractional part of `x`. */
  function Sample(table: seq<real>, size: int, x: real, interp: Interpolation, cosPi: real -> real): (r: Result<real>)
    ensures size == 0 <==> r == Err(ZeroDivisionError)
    ensures 0 < size == |table| ==> r.Ok?
    ensures size != 0 && table == [] ==> r == Err(IndexError)
    ensures r.Ok? && interp == Linear && 0.0 <= x && 0 < size == |table| ==>
      Between(r.value, table[Trunc(x) % size], table[(Trunc(x) + 1) % size])
  {
    if size == 0 then Err(ZeroDivisionError)
    else
      var ind := Trunc(x);
      var t := Frac(x);
      match (At(table, FloorMod(ind, size)), At(table, FloorMod(ind + 1, size)))
      case (Some(y1), Some(y2)) => Ok(Blend(y1, y2, t, interp, cosPi))
      case _ => Err(IndexError)
  }

  /** The value between the samples `y1` and `y2` at blend weight `t`:
      linear, or the cosine-eased formula of the source, which weighs
      `y1 - y2` by `(cos(t * pi) + 1) / 2` and adds `y2`. */
  function Blend(y1: real, y2: real, t: real, interp: Interpolation, cosPi: real -> real): (v: real)
    ensures interp == Linear && 0.0 <= t <= 1.0 ==> Between(v, y1, y2)
    ensures t == 0.0 && (interp == Linear || cosPi(0.0) == 1.0) ==> v == y1
  {
    if interp == Linear then
      assert 0.0 <= t <= 1.0 ==> Between((1.0 - t) * y1 + t * y2, y1, y2) by {
        if 0.0 <= t <= 1.0 { LinearBlendBetween(y1, y2, t); }
      }
      (1.0 - t) * y1 + t * y2
    else
      (cosPi(t) + 1.0) * 0.5 * (y1 - y2) + y2
  }

  /** `v` lies between `a` and `b`, whichever of the two is the smaller. */
  predicate Between(v: real, a: real, b: real)
  {
    (a <= v <= b) || (b <= v <= a)
  }

  lemma LinearBlendBetween(y1: real, y2: real, t: real)
    requires 0.0 <= t <= 1.0
    ensures Between((1.0 - t) * y1 + t * y2, y1, y2)
  {
    var v := (1.0 - t) * y1 + t * y2;
    if y1 <= y2 {
      NonNegativeProduct(t, y2 - y1);
      NonNegativeProduct(1.0 - t, y2 - y1);
      assert v - y1 == t * (y2 - y1);
      assert y2 - v == (1.0 - t) * (y2 - y1);
    } else {
      NonNegativeProduct(t, y1 - y2);
      NonNegativeProduct(1.0 - t, y1 - y2);
      assert y1 - v == t * (y1 - y2);
      assert v - y2 == (1.0 - t) * (y1 - y2);
    }
  }

  lemma NonNegativeProduct(a: real, b: real)
    requires 0.0 <= a && 0.0 <= b
    ensures 0.0 <= a * b
  {
  }

  /** At a whole-number position the blend weight is 0 and the result is the
      sample itself, for the linear blend and, because `cos(0) = 1`, for the
      cosine blend too. */
  lemma SampleAtWholePosition(table: seq<real>, n: int, interp: Interpolation, cosPi: real -> real)
    requires 0 < |table|
    requires interp == Cosine ==> cosPi(0.0) == 1.0
    ensures Sample(table, |table|, n as real, interp, cosPi) == Ok(table[FloorMod(n, |table|)])
  {
    assert Trunc(n as real) == n;
    assert Frac(n as real) == 0.0;
  }

  /** Moving the position by a whole period of the table leaves the sample
      unchanged (for non-negative positions, where `int()` is the floor). */
  lemma {:induction false} SamplePeriodic(table: seq<real>, x: real, interp: Interpolation, cosPi: real -> real)
    requires 0 < |table| && 0.0 <= x
    ensures Sample(table, |table|, x + |table| as real, interp, cosPi) == Sample(table, |table|, x, interp, cosPi)
  {
    var size := |table|;
    var ind := Trunc(x);
    var shifted := x + size as real;
    TruncShift(x, size);
    ModAddPeriod(ind, size);
    ModAddPeriod(ind + 1, size);
    assert Trunc(shifted) + 1 == (ind + 1) + size;
    assert FloorMod(Trunc(shifted), size) == FloorMod(ind, size);
    assert FloorMod(Trunc(shifted) + 1, size) == FloorMod(ind + 1, size);
  }

  lemma TruncShift(x: real, n: nat)
    requires 0.0 <= x
    ensures Trunc(x + n as real) == Trunc(x) + n
    ensures Frac(x + n as real) == Frac(x)
  {
  }

  /** A table whose samples all lie in `[0, amp)` gives linear samples in
      `[0, amp)` at every non-negative position. */
  lemma LinearSampleInRange(table: seq<real>, amp: real, x: real, cosPi: real -> real)
    requires 0 < |table| && 0.0 <= x
    requires forall i :: 0 <= i < |table| ==> 0.0 <= table[i] < amp
    ensures 0.0 <= Sample(table, |table|, x, Linear, cosPi).value < amp
  {
    var size := |table|;
    assert 0 <= Trunc(x) % size < size;
    assert 0 <= (Trunc(x) + 1) % size < size;
  }

  /** The worked example of a four-sample table read with the linear blend
      against the threshold 0.5. */
  lemma LinearExample(cosPi: real -> real)
    ensures Sample([0.1, 0.9, 0.2, 0.8], 4, 0.0, Linear, cosPi) == Ok(0.1)
    ensures Sample([0.1, 0.9, 0.2, 0.8], 4, 1.0, Linear, cosPi) == Ok(0.9)
    ensures Sample([0.1, 0.9, 0.2, 0.8], 4, 0.5, Linear, cosPi) == Ok(0.5)
  {
    assert Trunc(0.5) == 0;
    assert Trunc(1.0) == 1;
  }

  /** The generator as a total function of the position, with the default
      (cosine) blend, over a table that holds as many samples as its size. */
  function CosineNoise(table: seq<real>, cosPi: real -> real): real -> real
    requires |table| > 0
  {
    x => Sample(table, |table|, x, Cosine, cosPi).value
  }

  /** A noise generator: its recorded size, its sample table, the amplitude
      the samples were scaled by and the seed they were drawn from. */
  class Noise1D {
    var size: int
    var noise: seq<real>
    var amplitude: real
    var seed: Seed

    /** The table holds exactly `size` samples, so `Noise` never raises. */
    predicate Ready()
      reads this
    {
      0 < size == |noise|
    }

    /** `Noise1D(size, amplitude, seed)`: records `size`, then resets. */
    constructor (size: int, amplitude: real, seed: Seed, draws: nat -> real)
      ensures this.size == size && this.amplitude == amplitude && this.seed == seed
      ensures |noise| == (if size > 0 then size else 0)
      ensures forall i :: 0 <= i < |noise| ==> noise[i] == draws(i) * amplitude
      ensures size > 0 ==> Ready()
    {
      this.size := size;
      noise := [];
      this.amplitude := 1.0;
      this.seed := Entropy;
      new;
      var status := Reset(size, amplitude, seed, draws);
    }

    /** `Reset(newSize, newAmp, newSeed)`.  A positive `newSize` becomes the
        recorded size; the table is replaced by `max(newSize, 0)` zeros and
        then refilled, for every index below the recorded size, with the next
        draw times the amplitude.  When `newSize <= 0` but the recorded size is
        positive, the first refill raises `IndexError` and the table is left
        empty. */
    method Reset(newSize: int, newAmp: real, newSeed: Seed, draws: nat -> real) returns (status: Status)
      modifies this
      ensures size == (if newSize > 0 then newSize else old(size))
      ensures amplitude == newAmp && seed == newSeed
      ensures status == (if newSize > 0 || old(size) <= 0 then Done else Raised(IndexError))
      ensures status.Raised? ==> noise == []
      ensures status.Done? ==> |noise| == (if newSize > 0 then newSize else 0)
      ensures status.Done? ==> forall i :: 0 <= i < |noise| ==> noise[i] == draws(i) * newAmp
      ensures newSize > 0 ==> Ready()
    {
      if newSize > 0 {
        size := newSize;
      }
      amplitude := newAmp;
      noise := seq(if newSize > 0 then newSize else 0, _ => 0.0);
      seed := newSeed;
      status := Done;
      var i := 0;
      while i < size
        invariant size == (if newSize > 0 then newSize else old(size))
        invariant amplitude == newAmp && seed == newSeed
        invariant 0 <= i <= |noise| == (if newSize > 0 then newSize else 0)
        invariant status == Done
        invariant forall j :: 0 <= j < i ==> noise[j] == draws(j) * newAmp
        invariant forall j :: i <= j < |noise| ==> noise[j] == 0.0
      {
        var r := draws(i);
        if i >= |noise| {
          status := Raised(IndexError);
          return;
        }
        noise := noise[i := r * amplitude];
        i := i + 1;
      }
    }

    /** `Noise(x, interpolation)` on this generator's current state: it
        answers whenever the table is full, and a size of 0 divides by zero. */
    function Noise(x: real, interp: Interpolation, cosPi: real -> real): (r: Result<real>)
      reads this
      ensures Ready() ==> r.Ok?
      ensures size == 0 ==> r == Err(ZeroDivisionError)
      ensures size != 0 && noise == [] ==> r == Err(IndexError)
    {
      Sample(noise, size, x, interp, cosPi)
    }
  }

  /** A table filled with draws from `[0, 1)` scaled by a positive amplitude
      holds samples in `[0, amp)`. */
  lemma FilledTableInRange(table: seq<real>, draws: nat -> real, amp: real)
    requires forall i :: 0 <= i < |table| ==> table[i] == draws(i) * amp
    requires forall i :: 0.0 <= draws(i) < 1.0
    requires 0.0 < amp
    ensures forall i :: 0 <= i < |table| ==> 0.0 <= table[i] < amp
  {
    forall i | 0 <= i < |table|
      ensures 0.0 <= table[i] < amp
    {
      NonNegativeProduct(draws(i), amp);
      NonNegativeProduct(1.0 - draws(i), amp);
      assert amp - draws(i) * amp == (1.0 - draws(i)) * amp;
      assert 0.0 < (1.0 - draws(i)) * amp by {
        PositiveProduct(1.0 - draws(i), amp);
      }
    }
  }

  lemma PositiveProduct(a: real, b: real)
    requires 0.0 < a && 0.0 < b
    ensures 0.0 < a * b
  {
  }
}
