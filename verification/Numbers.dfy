/** Rounding and counting facts shared by the models: money and multipliers are whole hundredths. */
module Numbers {

  datatype Option<+T> = None | Some(value: T)
  {
    function GetOr(default: T): T { if Some? then value else default }
  }

  function Min(a: int, b: int): int { if a <= b then a else b }

  function Max(a: int, b: int): int { if a >= b then a else b }

  function RealMin(a: real, b: real): real { if a <= b then a else b }

  function RealMax(a: real, b: real): real { if a >= b then a else b }

  /** Whole hundredths of x, rounded down: floor(x * 100). */
  function FloorCents(x: real): int { (x * 100.0).Floor }

  /** Whole hundredths of x, rounded half up: round(x, 2) for x >= 0. */
  function RoundCents(x: real): int { (x * 100.0 + 0.5).Floor }

  /** n / d rounded half up. */
  function RoundedQuotient(n: nat, d: nat): nat
    requires d > 0
  {
    (2 * n + d) / (2 * d)
  }

  lemma RoundCentsIsMonotone(x: real, y: real)
    requires x <= y
    ensures RoundCents(x) <= RoundCents(y) && FloorCents(x) <= FloorCents(y)
  {
  }

  /** The two roundings differ by one hundredth at most. */
  lemma RoundAboveFloor(x: real)
    ensures FloorCents(x) <= RoundCents(x) <= FloorCents(x) + 1
  {
  }

  /** A whole number of hundredths is left alone by both roundings. */
  lemma RoundingKeepsHundredths(n: int)
    ensures RoundCents(n as real / 100.0) == n && FloorCents(n as real / 100.0) == n
  {
  }

  /** What the roundings are: the largest hundredth not above x, and the nearest one, a half going up. */
  lemma CentsBounds(x: real)
    ensures FloorCents(x) as real <= x * 100.0 < FloorCents(x) as real + 1.0
    ensures RoundCents(x) as real - 0.5 <= x * 100.0 < RoundCents(x) as real + 0.5
  {
  }

  /** And of the quotient: d times it is n up to half of d, a half going up. */
  lemma QuotientBounds(n: nat, d: nat)
    requires d > 0
    ensures 2 * n < 2 * (d * RoundedQuotient(n, d)) + d && 2 * (d * RoundedQuotient(n, d)) <= 2 * n + d
  {
    var q: int, r: int := (2 * n + d) / (2 * d), (2 * n + d) % (2 * d);
    assert 2 * n + d == (2 * d) * q + r;
    assert (2 * d) * q == 2 * (d * q);
  }

  lemma NextMultiple(x: int, y: int, d: int)
    requires d > 0 && x < y
    ensures x * d + d <= y * d
  {
    var k := y - x - 1;
    assert y * d == x * d + d + k * d && k * d >= 0;
  }

  /** Different multiples of d are d apart. */
  lemma MultiplesApart(x: int, y: int, d: int)
    requires d > 0 && -d < x * d - y * d < d
    ensures x == y
  {
    if x > y {
      NextMultiple(y, x, d);
    } else if x < y {
      NextMultiple(x, y, d);
    }
  }

  lemma MultipleOf(q: int, d: int)
    requires d > 0
    ensures q * d % d == 0
  {
    MultiplesApart(q, q * d / d, d);
  }

  /** The integers lo, ..., hi - 1. */
  function Interval(lo: int, hi: int): (s: set<int>)
    requires lo <= hi
    ensures forall i :: i in s <==> lo <= i < hi
    ensures |s| == hi - lo
    decreases hi - lo
  {
    if lo == hi then {} else Interval(lo, hi - 1) + {hi - 1}
  }

  lemma ProductAtMost(a: real, b: real, c: real)
    requires a <= b && c >= 0.0
    ensures a * c <= b * c
  {
  }

  lemma ProductBelow(a: real, b: real, c: real)
    requires a < b && c > 0.0
    ensures a * c < b * c
  {
  }

  lemma Pick<T>(s: set<T>) returns (x: T)
    requires s != {}
    ensures x in s
  {
    x :| x in s;
  }

  lemma SubsetSize<T>(a: set<T>, b: set<T>)
    requires a <= b
    ensures |a| <= |b|
    ensures |a| == |b| ==> a == b
  {
    assert b == a + (b - a);
    assert |b| == |a| + |b - a|;
  }
}
