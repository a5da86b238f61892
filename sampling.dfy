/** The two numeric primitives the rasteriser relies on: Python's built-in
    round() on a float and numpy.linspace, both in exact real arithmetic. */
module Sampling {

  /** Python's round(): the nearest integer, ties going to the even one. */
  function Round(r: real): (n: int)
    ensures n as real - 0.5 <= r <= n as real + 0.5
    ensures (r - n as real == 0.5 || n as real - r == 0.5) ==> n % 2 == 0
  {
    var f := r.Floor;
    var frac := r - f as real;
    if frac < 0.5 then f
    else if frac > 0.5 then f + 1
    else if f % 2 == 0 then f else f + 1
  }

  /** The two properties in Round's contract pin the integer down: every
      integer within one half of r that breaks ties to even is Round(r). */
  lemma {:induction false} RoundUnique(r: real, m: int)
    requires m as real - 0.5 <= r <= m as real + 0.5
    requires (r - m as real == 0.5 || m as real - r == 0.5) ==> m % 2 == 0
    ensures m == Round(r)
  {
  }

  /** A count computed as round(x) + 1 from a positive x is at least one. */
  lemma RoundPositive(r: real)
    requires r > 0.0
    ensures Round(r) >= 0
  {
  }

  /** numpy.linspace(start, stop, num) with endpoint=True: num evenly spaced
      values, the last one set to stop exactly; a single value is start. */
  function Linspace(start: real, stop: real, num: nat): (s: seq<real>)
    ensures |s| == num
    ensures num >= 1 ==> s[0] == start
    ensures num >= 2 ==> s[num - 1] == stop
  {
    if num == 1 then [start]
    else
      var step := (stop - start) / (num - 1) as real;
      seq(num, i requires 0 <= i < num => if i == num - 1 then stop else start + i as real * step)
  }

  /** Overwriting the last value with stop agrees with the step formula, so
      each value of Linspace is start + i/(num-1) of the way to stop. */
  lemma {:induction false} LinspaceEvenlySpaced(start: real, stop: real, num: nat, i: nat)
    requires num >= 2 && i < num
    ensures Linspace(start, stop, num)[i] == start + (i as real / (num - 1) as real) * (stop - start)
  {
    var d := (num - 1) as real;
    var step := (stop - start) / d;
    if i == num - 1 {
      assert i as real / d == 1.0;
    } else {
      assert i as real * step == (i as real / d) * (stop - start);
    }
  }

  /** Between a lower start and a higher stop the values are non-decreasing
      and never leave [start, stop]. */
  lemma {:induction false} LinspaceBetween(start: real, stop: real, num: nat, i: nat, j: nat)
    requires start <= stop && i <= j < num
    ensures start <= Linspace(start, stop, num)[i] <= Linspace(start, stop, num)[j] <= stop
  {
    if num >= 2 {
      var d := (num - 1) as real;
      LinspaceEvenlySpaced(start, stop, num, i);
      LinspaceEvenlySpaced(start, stop, num, j);
      FractionMonotone(i as real, j as real, d);
      OffsetsBetween(start, stop, i as real / d, j as real / d);
    }
  }

  /** Every value of Linspace lies between start and stop, whichever of the
      two is larger. */
  lemma {:induction false} LinspaceWithin(start: real, stop: real, num: nat, i: nat)
    requires i < num
    ensures (start <= Linspace(start, stop, num)[i] <= stop) || (stop <= Linspace(start, stop, num)[i] <= start)
  {
    if start <= stop {
      LinspaceBetween(start, stop, num, i, i);
    } else {
      LinspaceNegated(start, stop, num, i);
      LinspaceBetween(-start, -stop, num, i, i);
    }
  }

  /** Negating both ends negates every value. */
  lemma LinspaceNegated(start: real, stop: real, num: nat, i: nat)
    requires i < num
    ensures Linspace(-start, -stop, num)[i] == -Linspace(start, stop, num)[i]
  {
    if num >= 2 && i < num - 1 {
      var d := (num - 1) as real;
      var step := (stop - start) / d;
      DivNegated(stop - start, d);
      assert -stop - -start == -(stop - start);
      assert i as real * -step == -(i as real * step);
    }
  }

  lemma DivNegated(a: real, d: real)
    requires d != 0.0
    ensures (-a) / d == -(a / d)
  {
    assert (a / d) * d == a;
    assert (-(a / d)) * d == -a;
  }

  /** start + f * (stop - start) is monotone in f and stays in [start, stop]
      for f in [0, 1]. */
  lemma OffsetsBetween(start: real, stop: real, fi: real, fj: real)
    requires start <= stop && 0.0 <= fi <= fj <= 1.0
    ensures start <= start + fi * (stop - start) <= start + fj * (stop - start) <= stop
  {
    ScaleMonotone(fi, fj, stop - start);
  }

  /** Dividing by a positive count keeps order and maps [0, d] into [0, 1]. */
  lemma FractionMonotone(a: real, b: real, d: real)
    requires 0.0 <= a <= b <= d && d > 0.0
    ensures 0.0 <= a / d <= b / d <= 1.0
  {
    assert a / d * d == a && b / d * d == b;
  }

  /** Scaling a non-negative length by fractions in [0, 1] keeps their order. */
  lemma ScaleMonotone(a: real, b: real, d: real)
    requires 0.0 <= a <= b <= 1.0 && d >= 0.0
    ensures 0.0 <= a * d <= b * d <= d
  {
  }
}
