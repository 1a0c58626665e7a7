/** Half-even rounding of exact rationals, in the two forms the repository uses: sign and
    magnitude with `divmod`, and floor with an exact remainder. */
module Rounding {

  /** `u` is a nearest integer to `n / d`, and the even one on a tie. */
  ghost predicate NearestEven(n: int, d: int, u: int)
    requires d > 0
  {
    -d <= 2 * (n - u * d) <= d && (2 * (n - u * d) == d || 2 * (n - u * d) == -d ==> u % 2 == 0)
  }

  lemma {:induction false} NearestEvenUnique(n: int, d: int, u: int, v: int)
    requires d > 0 && NearestEven(n, d, u) && NearestEven(n, d, v)
    ensures u == v
  {
    assert (v - u) * d == (n - u * d) - (n - v * d);
    assert (u - v) * d == (n - v * d) - (n - u * d);
    AtMostOne(v - u, d);
    AtMostOne(u - v, d);
  }

  lemma {:induction false} AtMostOne(k: int, d: int)
    requires d > 0 && k * d <= d
    ensures k <= 1
  {
    assert (k - 1) * d <= 0;
  }

  lemma {:induction false} Grow(k: int, d: int)
    requires k >= 1 && d > 0
    ensures k * d >= d
  {
    assert k * d == d + (k - 1) * d;
  }

  /** `_round_half_even`, in quanta: the sign, then quotient and remainder of the magnitude. */
  function RoundHalfEven(n: int, d: int): int
    requires d > 0
  {
    var sign := if n < 0 then -1 else 1;
    var magnitude := if n < 0 then -n else n;
    sign * RoundMagnitude(magnitude, d)
  }

  function RoundMagnitude(m: int, d: int): int
    requires d > 0 && m >= 0
  {
    var quotient, remainder := m / d, m % d;
    var twice := remainder * 2;
    if twice > d || (twice == d && quotient % 2 == 1) then quotient + 1 else quotient
  }

  /** `_q8`, in quanta: the floor and what remains above it. */
  function RoundFloor(n: int, d: int): int
    requires d > 0
  {
    var floor := n / d;
    var remainder := n - floor * d;
    if 2 * remainder > d || (2 * remainder == d && floor % 2 == 1) then floor + 1 else floor
  }

  lemma {:induction false} RoundMagnitudeNearest(m: int, d: int)
    requires d > 0 && m >= 0
    ensures NearestEven(m, d, RoundMagnitude(m, d))
  {
    var q := m / d;
    assert m == q * d + m % d;
    assert (q + 1) * d == q * d + d;
  }

  lemma {:induction false} RoundHalfEvenNearest(n: int, d: int)
    requires d > 0
    ensures NearestEven(n, d, RoundHalfEven(n, d))
  {
    hide RoundMagnitude, NearestEven;
    if n < 0 {
      RoundMagnitudeNearest(-n, d);
      NearestNegated(-n, d, RoundMagnitude(-n, d));
    } else {
      RoundMagnitudeNearest(n, d);
    }
  }

  lemma {:induction false} NearestNegated(m: int, d: int, u: int)
    requires d > 0 && NearestEven(m, d, u)
    ensures NearestEven(-m, d, -u)
  {
    assert (-u) * d == -(u * d);
  }

  lemma {:induction false} RoundFloorNearest(n: int, d: int)
    requires d > 0
    ensures NearestEven(n, d, RoundFloor(n, d))
  {
    var f := n / d;
    assert n == f * d + n % d;
    assert (f + 1) * d == f * d + d;
  }

  /** The two routines agree on every rational, negatives and ties included. */
  lemma {:induction false} RoutinesAgree(n: int, d: int)
    requires d > 0
    ensures RoundHalfEven(n, d) == RoundFloor(n, d)
  {
    RoundHalfEvenNearest(n, d);
    RoundFloorNearest(n, d);
    NearestEvenUnique(n, d, RoundHalfEven(n, d), RoundFloor(n, d));
  }

  /** Only the value of the fraction matters, not its terms. */
  lemma {:induction false} RoundIgnoresCommonFactor(n: int, d: int, k: int)
    requires d > 0 && k > 0
    ensures k * d > 0 && RoundHalfEven(k * n, k * d) == RoundHalfEven(n, d)
  {
    hide RoundHalfEven;
    Grow(k, d);
    var u := RoundHalfEven(n, d);
    RoundHalfEvenNearest(n, d);
    RoundHalfEvenNearest(k * n, k * d);
    var gap := 2 * (n - u * d);
    assert 2 * (k * n - u * (k * d)) == k * gap;
    Scale(k, gap, d);
    NearestEvenUnique(k * n, k * d, RoundHalfEven(k * n, k * d), u);
  }

  lemma {:induction false} Scale(k: int, gap: int, d: int)
    requires k > 0 && d > 0 && -d <= gap <= d
    ensures -(k * d) <= k * gap <= k * d
    ensures k * gap == k * d ==> gap == d
    ensures k * gap == -(k * d) ==> gap == -d
  {
    assert k * d - k * gap == k * (d - gap);
    assert k * gap + k * d == k * (gap + d);
  }

  /** Rounding is odd. */
  lemma {:induction false} RoundIsOdd(n: int, d: int)
    requires d > 0
    ensures RoundHalfEven(-n, d) == -RoundHalfEven(n, d)
  {}

  /** Whole numbers of quanta are left alone. */
  lemma {:induction false} RoundFixesWhole(k: int, d: int)
    requires d > 0
    ensures RoundHalfEven(k * d, d) == k
  {
    RoundHalfEvenNearest(k * d, d);
    NearestEvenUnique(k * d, d, RoundHalfEven(k * d, d), k);
  }

  /** Rounding preserves order, for fractions over any denominators. */
  lemma {:induction false} RoundIsMonotone(n: int, d: int, n': int, d': int)
    requires d > 0 && d' > 0 && n * d' <= n' * d
    ensures RoundHalfEven(n, d) <= RoundHalfEven(n', d')
  {
    RoundIgnoresCommonFactor(n, d, d');
    RoundIgnoresCommonFactor(n', d', d);
    assert d' * d == d * d' && d' * n == n * d' && d * n' == n' * d;
    RoundIsMonotoneOver(d' * n, d * n', d' * d);
  }

  lemma {:induction false} RoundIsMonotoneOver(n: int, n': int, d: int)
    requires d > 0 && n <= n'
    ensures RoundHalfEven(n, d) <= RoundHalfEven(n', d)
  {
    hide RoundHalfEven;
    var u, v := RoundHalfEven(n, d), RoundHalfEven(n', d);
    RoundHalfEvenNearest(n, d);
    RoundHalfEvenNearest(n', d);
    assert (u - v) * d == (n' - v * d) - (n - u * d) - (n' - n);
    AtMostOne(u - v, d);
  }

  // ------------------------------------------------------------- on the reals

  const QUANTA := 100000000

  ghost predicate IsNearest(x: real, u: int) {
    -0.5 <= x - u as real <= 0.5 && (x - u as real == 0.5 || x - u as real == -0.5 ==> u % 2 == 0)
  }

  /** The rounding of an exact value, in whole units. */
  function RoundReal(x: real): (u: int)
    ensures IsNearest(x, u)
  {
    var floor := x.Floor;
    var above := x - floor as real;
    if above > 0.5 || (above == 0.5 && floor % 2 == 1) then floor + 1 else floor
  }

  lemma {:induction false} NearestIsUnique(x: real, u: int, v: int)
    requires IsNearest(x, u) && IsNearest(x, v)
    ensures u == v
  {
    assert -1.0 <= (u - v) as real <= 1.0;
  }

  lemma {:induction false} GapOfFraction(n: int, d: int, u: int)
    requires d > 0
    ensures (n as real / d as real - u as real) * d as real == (n - u * d) as real
  {
    var x, e := n as real / d as real, d as real;
    assert x * e == n as real;
    assert (u * d) as real == u as real * e;
    assert (x - u as real) * e == x * e - u as real * e;
  }

  /** On a fraction it is the integer routine. */
  lemma {:induction false} RoundRealIsRational(n: int, d: int)
    requires d > 0
    ensures RoundReal(n as real / d as real) == RoundHalfEven(n, d)
  {
    hide RoundHalfEven;
    var u, x := RoundHalfEven(n, d), n as real / d as real;
    RoundHalfEvenNearest(n, d);
    GapOfFraction(n, d, u);
    Halves(x - u as real, d as real, n - u * d, d);
    hide RoundReal, NearestEven;
    NearestIsUnique(x, RoundReal(x), u);
  }

  lemma {:induction false} Halves(y: real, e: real, gap: int, d: int)
    requires d > 0 && e == d as real && y * e == gap as real && -d <= 2 * gap <= d
    ensures -0.5 <= y <= 0.5
    ensures y == 0.5 ==> 2 * gap == d
    ensures y == -0.5 ==> 2 * gap == -d
  {
    assert (y - 0.5) * e <= 0.0 && (y + 0.5) * e >= 0.0;
  }
}
