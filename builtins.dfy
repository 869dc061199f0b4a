/** The pieces of Python's built-in behaviour that the generator relies on:
    list indexing (a negative index counts from the end), the `%` operator
    (floor modulo: the remainder has the sign of the divisor), `int()` of a
    float (rounds toward zero), the fractional part `math.modf(x)[0]`, and
    the length of `range(0, stop, step)`.  Floats are modelled as `real`. */
module Builtins {

  datatype Option<+T> = None | Some(value: T)

  /** The exceptions the modelled code can raise. */
  datatype PyError = ZeroDivisionError | IndexError | ValueError

  datatype Result<+T> = Ok(value: T) | Err(error: PyError)

  /** How a statement that returns nothing ended: normally, or by raising. */
  datatype Status = Done | Raised(error: PyError)

  /** `s[i]` on a Python list; `None` where Python raises `IndexError`. */
  function At<T>(s: seq<T>, i: int): Option<T>
  {
    if 0 <= i < |s| then Some(s[i])
    else if -|s| <= i < 0 then Some(s[|s| + i])
    else None
  }

  /** Python's `a % b`: the unique `r` congruent to `a` modulo `b` that lies
      between 0 and `b` (0 included, `b` excluded), whatever the sign of `b`. */
  function FloorMod(a: int, b: int): (r: int)
    requires b != 0
    ensures b > 0 ==> 0 <= r < b
    ensures b < 0 ==> b < r <= 0
    ensures r % b == a % b
  {
    var e := a % b;
    if b > 0 || e == 0 then
      ModSmall(e, b);
      e
    else
      ModShift(e, b);
      e + b
  }

  lemma ModSmall(m: int, b: int)
    requires b != 0 && 0 <= m && (m < b || m < -b)
    ensures m % b == m
  {
    var q, r := m / b, m % b;
    assert b * q == m - r;
    if q > 0 {
      if b > 0 { MulMonotone(1, q, b); } else { MulMonotone(1, q, -b); }
    } else if q < 0 {
      if b > 0 { MulMonotone(1, -q, b); } else { MulMonotone(1, -q, -b); }
    }
  }

  lemma ModShift(m: int, b: int)
    requires b < 0 && 0 <= m < -b
    ensures (m + b) % b == m
  {
    var q, r := (m + b) / b, (m + b) % b;
    assert b * (q - 1) == r - m;
    if q > 1 {
      MulMonotone(1, q - 1, -b);
    } else if q < 1 {
      MulMonotone(1, 1 - q, -b);
    }
  }

  /** Adding one period does not change a remainder. */
  lemma ModAddPeriod(a: int, b: int)
    requires b > 0
    ensures (a + b) % b == a % b
  {
    var q, r := (a + b) / b, (a + b) % b;
    var q0, r0 := a / b, a % b;
    assert b * (q - 1 - q0) == r0 - r;
    if q - 1 - q0 > 0 {
      MulMonotone(1, q - 1 - q0, b);
    } else if q - 1 - q0 < 0 {
      MulMonotone(1, q0 + 1 - q, b);
    }
  }

  /** `int(x)` for a float `x`: the integer part, rounding toward zero. */
  function Trunc(x: real): (n: int)
    ensures 0.0 <= x ==> 0 <= n && n as real <= x < n as real + 1.0
    ensures x < 0.0 ==> n <= 0 && n as real - 1.0 < x <= n as real
  {
    if x >= 0.0 then x.Floor else -((-x).Floor)
  }

  /** `math.modf(x)[0]`: what is left of `x` once `int(x)` is taken away;
      it has the sign of `x` and is smaller than 1 in magnitude. */
  function Frac(x: real): (t: real)
    ensures 0.0 <= x ==> 0.0 <= t < 1.0
    ensures x < 0.0 ==> -1.0 < t <= 0.0
  {
    x - Trunc(x) as real
  }

  /** `len(range(0, stop, step))` for a non-zero step. */
  function RangeLen(stop: int, step: int): nat
    requires step != 0
  {
    if step > 0 then (if stop <= 0 then 0 else (stop + step - 1) / step)
    else (if stop >= 0 then 0 else (-stop - step - 1) / -step)
  }

  lemma MulMonotone(a: int, b: int, c: int)
    requires a <= b && 0 <= c
    ensures a * c <= b * c
  {
    assert b * c - a * c == (b - a) * c;
  }

  /** The `k`-th value of `range(0, stop, step)` is `k * step`; it is produced
      exactly when it is still short of `stop`, in the direction of `step`. */
  lemma RangeLenCounts(stop: int, step: int, k: nat)
    requires step != 0
    ensures k < RangeLen(stop, step) <==> (if step > 0 then k * step < stop else k * step > stop)
  {
    if step > 0 {
      UpwardRangeCounts(stop, step, k);
    } else {
      UpwardRangeCounts(-stop, -step, k);
      assert k * -step == -(k * step);
    }
  }

  lemma UpwardRangeCounts(stop: int, step: int, k: nat)
    requires step > 0
    ensures k < RangeLen(stop, step) <==> k * step < stop
  {
    if stop > 0 {
      var n := (stop + step - 1) / step;
      assert n * step <= stop + step - 1 < n * step + step;
      if k < n {
        MulMonotone(k, n - 1, step);
        assert (n - 1) * step == n * step - step;
      } else {
        MulMonotone(n, k, step);
      }
    } else {
      MulMonotone(0, k, step);
    }
  }

  /** For a positive step the last value of `range(0, extent + step, step)`
      reaches `extent` but falls short of `extent + step`. */
  lemma LastRangeValue(extent: int, step: int)
    requires step > 0 && extent + step > 0
    ensures RangeLen(extent + step, step) >= 1
    ensures extent <= (RangeLen(extent + step, step) - 1) * step < extent + step
  {
    var n := RangeLen(extent + step, step);
    RangeLenCounts(extent + step, step, 0);
    RangeLenCounts(extent + step, step, n - 1);
    RangeLenCounts(extent + step, step, n);
    assert (n - 1) * step == n * step - step;
  }
}
