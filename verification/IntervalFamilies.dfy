/** Periodic interval families: the arithmetic behind inverting a team network layout.

    A family is the union of the intervals
      [start + k*a*b, start + k*a*b + a)   for k = 0, 1, 2, ...
*/
module IntervalFamilies {

  datatype Family = Family(start: int, a: int, b: int) {
    predicate Valid() {
      0 < a && 1 < b
    }

    function Period(): int {
      a * b
    }

    predicate Contains(x: int)
      requires Valid()
    {
      PeriodPositive(this);
      start <= x && (x - start) % Period() < a
    }
  }

  ghost predicate AllValid(fs: seq<Family>) {
    forall i | 0 <= i < |fs| :: fs[i].Valid()
  }

  /** x lies in one interval of every family. */
  ghost predicate Common(fs: seq<Family>, x: int)
    requires AllValid(fs)
  {
    forall i | 0 <= i < |fs| :: fs[i].Contains(x)
  }

  /** p is the left end of one of the intervals of f. */
  ghost predicate OnGrid(f: Family, p: int)
    requires f.Valid()
  {
    PeriodPositive(f);
    f.start <= p && (p - f.start) % f.Period() == 0
  }

  lemma PeriodPositive(f: Family)
    requires f.Valid()
    ensures f.a < f.Period()
  {
    assert f.a * 1 < f.a * f.b;
  }

  /** Two numbers that differ by a multiple of m have the same remainder. */
  lemma {:induction false} ModShift(x: int, k: int, m: int)
    requires 0 < m
    ensures (x + k * m) % m == x % m
  {
    var q := x / m;
    assert x + k * m == (q + k) * m + x % m;
    ModUnique(x + k * m, q + k, x % m, m);
  }

  lemma ModUnique(x: int, q: int, r: int, m: int)
    requires 0 < m && 0 <= r < m
    requires x == q * m + r
    ensures x / m == q && x % m == r
  {
    var d := x / m - q;
    assert d * m == r - x % m;
    MultipleBounds(d, m);
  }

  lemma MultipleBounds(d: int, m: int)
    requires 0 < m
    ensures d >= 1 ==> d * m >= m
    ensures d <= -1 ==> d * m <= -m
  {
  }

  /** Moving one period ahead stays on the grid. */
  lemma GridStep(f: Family, p: int)
    requires f.Valid() && OnGrid(f, p)
    ensures OnGrid(f, p + f.Period()) && p + f.a < p + f.Period()
  {
    PeriodPositive(f);
    ModShift(p - f.start, 1, f.Period());
  }

  /** Seen from a grid point at or below x, membership is the position inside one period. */
  lemma ContainsFromGrid(f: Family, p: int, x: int)
    requires f.Valid() && OnGrid(f, p)
    requires p <= x
    ensures f.Contains(x) <==> (x - p) % f.Period() < f.a
  {
    var m := f.Period();
    PeriodPositive(f);
    var k := (p - f.start) / m;
    assert p - f.start == k * m;
    ModShift(x - p, k, m);
  }

  /** A point of the family beyond the interval that starts at p lies at least a period ahead. */
  lemma NoPointSkipped(f: Family, p: int, x: int)
    requires f.Valid() && OnGrid(f, p)
    ensures p + f.a <= x && f.Contains(x) ==> p + f.Period() <= x
  {
    PeriodPositive(f);
    if p + f.a <= x < p + f.Period() {
      ContainsFromGrid(f, p, x);
      ModUnique(x - p, 0, x - p, f.Period());
    }
  }

  /** Points of the interval that starts at p belong to the family. */
  lemma IntervalContained(f: Family, p: int, x: int)
    requires f.Valid() && OnGrid(f, p)
    requires p <= x < p + f.a
    ensures f.Contains(x)
  {
    ContainsFromGrid(f, p, x);
    PeriodPositive(f);
    ModUnique(x - p, 0, x - p, f.Period());
  }

  lemma MulDistributes(a: int, u: int, v: int)
    ensures a * (u + v) == a * u + a * v
  {
  }

  lemma MulAssociates(a: int, b: int, q: int)
    ensures a * (b * q) == q * (a * b)
  {
  }

  lemma TwoDigitBound(a: int, b: int, high: int, low: int)
    requires 0 <= high < b && 0 <= low < a
    ensures 0 <= a * high + low < a * b
  {
    MulDistributes(a, high, b - high);
    assert a * high + a * (b - high) == a * b;
    MulAtLeast(a, b - high);
    MulNonnegative(a, high);
  }

  lemma MulAtLeast(a: int, n: int)
    requires 0 < a && 1 <= n
    ensures a <= a * n
  {
  }

  lemma MulNonnegative(a: int, n: int)
    requires 0 <= a && 0 <= n
    ensures 0 <= a * n
  {
  }

  /** Remainders modulo a product split into a high digit and a low remainder. */
  lemma ModSplit(x: int, a: int, b: int)
    requires 0 <= x && 0 < a && 0 < b
    ensures 0 < a * b
    ensures x % (a * b) == a * ((x / a) % b) + x % a
  {
    var q, r := x / a, x % a;
    var q2, r2 := q / b, q % b;
    MulDistributes(a, b * q2, r2);
    MulAssociates(a, b, q2);
    TwoDigitBound(a, b, r2, r);
    var rest := a * r2 + r;
    var m := a * b;
    assert x == q2 * m + rest;
    ModUnique(x, q2, rest, m);
  }

  /** Taking d multiples of a away from y lowers its quotient by d and keeps its remainder. */
  lemma DivShift(x: int, d: int, a: int)
    requires 0 < a
    ensures (x - d * a) / a == x / a - d && (x - d * a) % a == x % a
  {
    assert x == (x / a) * a + x % a;
    assert x - d * a == (x / a - d) * a + x % a;
    ModUnique(x - d * a, x / a - d, x % a, a);
  }

  /** A number with digit d at the place of weight a is at least d * a. */
  lemma DigitBelow(x: int, d: int, a: int, b: int)
    requires 0 < a && 0 < b && 0 <= x && (x / a) % b == d
    ensures d * a <= x
  {
    var q := x / a;
    assert q == (q / b) * b + d;
    assert 0 <= (q / b) * b;
    assert x == q * a + x % a;
    assert d * a <= q * a;
  }

  /** Two residues agree exactly when their difference is a multiple of the modulus. */
  lemma ModDifference(q: int, d: int, b: int)
    requires 0 <= d < b
    ensures (q - d) % b == 0 <==> q % b == d
  {
    if (q - d) % b == 0 {
      ModUnique(q, (q - d) / b, d, b);
    }
    if q % b == d {
      ModUnique(q - d, q / b, 0, b);
    }
  }

  /** A remainder modulo a * b below a is one whose high digit is 0. */
  lemma LowRemainder(y: int, a: int, b: int)
    requires 0 <= y && 0 < a && 0 < b
    ensures 0 < a * b
    ensures y % (a * b) < a <==> (y / a) % b == 0
  {
    ModSplit(y, a, b);
    MultipleBounds((y / a) % b, a);
  }

  /** For an in-range digit, membership in the family is "the digit of x is d". */
  lemma {:induction false} ContainsIsDigit(a: int, b: int, d: int, x: int)
    requires 0 < a && 1 < b && 0 <= d < b
    ensures Family(d * a, a, b).Contains(x) <==> 0 <= x && (x / a) % b == d
  {
    assert 0 <= d * a;
    if d * a <= x {
      LowRemainder(x - d * a, a, b);
      DivShift(x, d, a);
      ModDifference(x / a, d, b);
    } else if 0 <= x && (x / a) % b == d {
      DigitBelow(x, d, a, b);
    }
  }
}
