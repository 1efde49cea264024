/** Exact-real models of the p5.js built-ins the sketch relies on for its
    arithmetic: `constrain`, `map`, `lerp` and `int`. Floating-point rounding is
    not modelled; every operation is the exact real-number formula p5 evaluates. */
module P5Math {

  /** JavaScript's 32-bit integer range, used by `n | 0`. */
  const TwoTo31: int := 0x8000_0000
  const TwoTo32: int := 0x1_0000_0000

  /** p5 `constrain(n, low, high)`, which is `Math.max(Math.min(n, high), low)`. */
  function Constrain(n: real, low: real, high: real): (r: real)
    ensures low <= high ==> low <= r <= high
    ensures low <= n <= high ==> r == n
    ensures n <= low ==> r == low
    ensures low <= high <= n ==> r == high
  {
    var m := if n < high then n else high;
    if m < low then low else m
  }

  /** p5 `map(n, start1, stop1, start2, stop2)` without its bounds option: the
      linear function taking start1 to start2 and stop1 to stop2. */
  function Remap(n: real, start1: real, stop1: real, start2: real, stop2: real): (r: real)
    requires start1 != stop1
    ensures n == start1 ==> r == start2
    ensures n == stop1 ==> r == stop2
  {
    var u := (n - start1) / (stop1 - start1);
    EndRatios(n, start1, stop1);
    u * (stop2 - start2) + start2
  }

  /** p5 `lerp(start, stop, amt)`, which is `amt * (stop - start) + start`. */
  function Lerp(start: real, stop: real, amt: real): (r: real)
    ensures amt == 0.0 ==> r == start
    ensures amt == 1.0 ==> r == stop
    ensures start <= stop && 0.0 <= amt <= 1.0 ==> start <= r <= stop
  {
    MulBounds(amt, stop - start);
    amt * (stop - start) + start
  }

  /** Truncation toward zero of a real, as JavaScript's ToInt32 begins. */
  function Truncate(x: real): (r: int)
    ensures 0.0 <= x ==> r as real <= x < r as real + 1.0
    ensures x <= 0.0 ==> r as real - 1.0 < x <= r as real
  {
    if x >= 0.0 then x.Floor else -((-x).Floor)
  }

  /** p5 `int(n)` on a number, which is `n | 0`: truncate toward zero, then wrap
      into the signed 32-bit range. */
  function ToInt32(x: real): (r: int)
    ensures -TwoTo31 <= r < TwoTo31
    ensures -TwoTo31 as real < x < TwoTo31 as real ==> r == Truncate(x)
  {
    var m := Truncate(x) % TwoTo32;
    if m >= TwoTo31 then m - TwoTo32 else m
  }

  /** On the non-negative 32-bit range `n | 0` is the floor, which keeps order. */
  lemma ToInt32Monotone(x: real, y: real)
    requires 0.0 <= x <= y < TwoTo31 as real
    ensures ToInt32(x) == x.Floor && ToInt32(y) == y.Floor
    ensures ToInt32(x) <= ToInt32(y)
  {
  }

  /** Where a point in [0, 1] of the way lands on a scale of length k >= 0. */
  lemma MulBounds(u: real, k: real)
    ensures 0.0 <= u <= 1.0 && 0.0 <= k ==> 0.0 <= u * k <= k
    ensures 0.0 <= u < 1.0 && 0.0 < k ==> u * k < k
  {
    if 0.0 <= u <= 1.0 && 0.0 <= k {
      assert u * k <= 1.0 * k;
    }
  }

  /** The position of a range's ends within it: 0 at the start, 1 at the stop. */
  lemma EndRatios(n: real, start1: real, stop1: real)
    requires start1 != stop1
    ensures n == start1 ==> (n - start1) / (stop1 - start1) == 0.0
    ensures n == stop1 ==> (n - start1) / (stop1 - start1) == 1.0
  {
  }

  /** Dividing by a positive number keeps order. */
  lemma DivMonotone(a: real, b: real, c: real)
    requires a <= b && 0.0 < c
    ensures a / c <= b / c
  {
    assert b / c - a / c == (b - a) / c;
  }

  /** Scaling by a non-negative factor keeps order. */
  lemma MulMonotone(u1: real, u2: real, k: real)
    requires u1 <= u2 && 0.0 <= k
    ensures u1 * k <= u2 * k
  {
    assert u2 * k - u1 * k == (u2 - u1) * k;
  }

  /** A ratio of a part to a positive whole lies in [0, 1]. */
  lemma RatioBounds(a: real, b: real)
    requires 0.0 <= a && 0.0 < b
    ensures 0.0 <= a / b
    ensures a <= b ==> a / b <= 1.0
    ensures a < b ==> a / b < 1.0
    ensures a == b ==> a / b == 1.0
  {
  }

  /** On an increasing source range, `map` sends [start1, stop1] into
      [start2, stop2] when start2 <= stop2, and only stop1 reaches stop2. */
  lemma RemapBetween(n: real, start1: real, stop1: real, start2: real, stop2: real)
    requires start1 < stop1 && start1 <= n <= stop1 && start2 <= stop2
    ensures start2 <= Remap(n, start1, stop1, start2, stop2) <= stop2
    ensures n < stop1 && start2 < stop2 ==> Remap(n, start1, stop1, start2, stop2) < stop2
  {
    RatioBounds(n - start1, stop1 - start1);
    MulBounds((n - start1) / (stop1 - start1), stop2 - start2);
  }

  /** On a decreasing target range the image of [start1, stop1] runs from start2
      down to stop2. */
  lemma RemapBetweenFalling(n: real, start1: real, stop1: real, start2: real, stop2: real)
    requires start1 < stop1 && start1 <= n <= stop1 && stop2 <= start2
    ensures stop2 <= Remap(n, start1, stop1, start2, stop2) <= start2
    ensures n < stop1 ==> stop2 < Remap(n, start1, stop1, start2, stop2) || start2 == stop2
  {
    var u := (n - start1) / (stop1 - start1);
    RatioBounds(n - start1, stop1 - start1);
    MulBounds(u, start2 - stop2);
    assert Remap(n, start1, stop1, start2, stop2) == start2 - u * (start2 - stop2);
  }
}
