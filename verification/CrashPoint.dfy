/**
 * The crash-point draw of the PHP engine (generateCrashPoint), over exact reals: the 32-bit roll is an
 * input. The distribution is settled by counting rolls.
 */
module CrashPoint {
  import opened Numbers

  /** hexdec("ffffffff"): the largest roll. */
  const MAX_ROLL: int := 4294967295

  type Edge = e: real | 0.0 <= e < 1.0

  /** The unrounded, unclamped crash point of a roll that is not an instant bust. */
  function RawPoint(edge: Edge, roll: nat): real
    requires roll <= MAX_ROLL
  {
    var r := (roll as real / MAX_ROLL as real - edge) / (1.0 - edge);
    var clamped := RealMin(0.999999, RealMax(0.0, r));
    (1.0 - edge) / (1.0 - clamped)
  }

  /** The crash point in hundredths. */
  function Generate(edge: Edge, max: real, roll: nat): int
    requires roll <= MAX_ROLL
  {
    if roll as real / MAX_ROLL as real < edge then 100
    else RoundCents(RealMax(1.0, RealMin(max, RawPoint(edge, roll))))
  }

  lemma QuotientAtLeast(a: real, b: real, y: real)
    requires b > 0.0
    ensures a / b >= y <==> a >= y * b
  {
    var q := a / b;
    assert q * b == a;
    if q >= y {
      assert (q - y) * b >= 0.0;
    } else {
      assert (y - q) * b > 0.0;
    }
  }

  /** The crash point lies in [1.00, round(max)], whatever the roll. */
  lemma GenerateInRange(edge: Edge, max: real, roll: nat)
    requires roll <= MAX_ROLL && max >= 1.0
    ensures 100 <= Generate(edge, max, roll) <= RoundCents(max)
  {
  }

  /** The survival bound for one real threshold y: which rolls give a raw point of at least y. */
  lemma RawPointAtLeast(edge: Edge, roll: nat, y: real)
    requires roll <= MAX_ROLL && roll as real / MAX_ROLL as real >= edge
    requires y > 1.0
    ensures RawPoint(edge, roll) >= y <==> y <= (1.0 - edge) * 1000000.0 && Fits(1.0 - edge, MAX_ROLL - roll, y)
  {
    var n, k := MAX_ROLL as real, 1.0 - edge;
    var u := roll as real / n;
    var r := (u - edge) / k;
    var c := RealMin(0.999999, RealMax(0.0, r));
    QuotientAtLeast(u - edge, k, 0.0);
    assert r >= 0.0;
    QuotientAtLeast(k, 1.0 - c, y);
    assert RawPoint(edge, roll) >= y <==> k >= y * (1.0 - c);
    LargerTail(k, y, r);
    ScaleTail(edge, roll, y, r);
  }

  /** With c the clamped r, 1 - c is the larger of a millionth and 1 - r. */
  lemma LargerTail(k: real, y: real, r: real)
    requires y > 1.0 && r >= 0.0
    ensures var c := RealMin(0.999999, RealMax(0.0, r));
            k >= y * (1.0 - c) <==> k >= y * 0.000001 && k >= y * (1.0 - r)
  {
    if r <= 0.999999 {
      ProductAtMost(0.000001, 1.0 - r, y);
    } else {
      ProductAtMost(1.0 - r, 0.000001, y);
    }
  }

  /** Clearing the two denominators of 1 - edge >= y (1 - r). */
  lemma ScaleTail(edge: Edge, roll: nat, y: real, r: real)
    requires roll <= MAX_ROLL && y > 1.0
    requires r == (roll as real / MAX_ROLL as real - edge) / (1.0 - edge)
    ensures 1.0 - edge >= y * (1.0 - r) <==> Fits(1.0 - edge, MAX_ROLL - roll, y)
  {
    var n, k := MAX_ROLL as real, 1.0 - edge;
    var u := roll as real / n;
    assert r * k == u - edge;
    assert u * n == roll as real;
    var tail := (1.0 - r) * k;
    assert tail == 1.0 - u;
    assert tail * n == (MAX_ROLL - roll) as real;
    var w := k * n;
    assert (y * (1.0 - r)) * w == y * (tail * n);
    assert k * w == n * k * k;
    if y * (1.0 - r) <= k {
      ProductAtMost(y * (1.0 - r), k, w);
    } else {
      ProductBelow(k, y * (1.0 - r), w);
    }
  }

  type Kept = k: real | 0.0 < k <= 1.0 witness 1.0

  /** A roll that is `shortfall` below the largest one still reaches the raw point y. */
  predicate Fits(keep: Kept, shortfall: int, y: real)
  {
    shortfall as real * y <= Room(keep)
  }

  /** n keep: what a factor of at most one leaves of n. */
  function Share(n: real, keep: Kept): (r: real)
    requires n > 0.0
    ensures 0.0 < r <= n
  {
    ProductBelow(0.0, n, keep);
    ProductAtMost(keep, 1.0, n);
    n * keep
  }

  /** MAX_ROLL keep^2: one factor keeps the rolls that are not instant busts, one is the payout curve's. */
  function Room(keep: Kept): real { Share(Share(MAX_ROLL as real, keep), keep) }

  /** The threshold a real value must reach to round above k hundredths. */
  function Threshold(k: int): real { (2 * k + 1) as real / 200.0 }

  lemma RoundsAbove(x: real, k: int)
    ensures RoundCents(x) > k <==> x >= Threshold(k)
  {
  }

  /** The target is not out of reach of every roll: neither the cap nor the 0.999999 clamp excludes it. */
  predicate Reachable(edge: Edge, max: real, k: int)
  {
    Threshold(k) <= max && Threshold(k) <= (1.0 - edge) * 1000000.0
  }

  /** Exactly which rolls beat the target of k hundredths. */
  lemma BeatsTarget(edge: Edge, max: real, roll: nat, k: int)
    requires roll <= MAX_ROLL && k >= 100
    ensures Generate(edge, max, roll) > k <==> Reachable(edge, max, k) && Fits(1.0 - edge, MAX_ROLL - roll, Threshold(k))
  {
    if roll as real / MAX_ROLL as real < edge {
      InstantBustMisses(edge, roll, Threshold(k));
    } else {
      RoundsAbove(RealMax(1.0, RealMin(max, RawPoint(edge, roll))), k);
      RawPointAtLeast(edge, roll, Threshold(k));
    }
  }

  /** An instant bust's roll is too low for any threshold. */
  lemma InstantBustMisses(edge: Edge, roll: nat, y: real)
    requires roll <= MAX_ROLL && roll as real / MAX_ROLL as real < edge && y > 1.0
    ensures !Fits(1.0 - edge, MAX_ROLL - roll, y)
  {
    var n := MAX_ROLL as real;
    var u := roll as real / n;
    assert u * n == roll as real;
    var short := (MAX_ROLL - roll) as real;
    assert short == (1.0 - u) * n;
    ProductBelow(1.0 - edge, 1.0 - u, n);
    ProductAtMost(1.0, y, short);
  }

  /** The rolls whose crash point lies above the target of k hundredths: a cash-out at k wins. */
  ghost function Winners(edge: Edge, max: real, k: int): set<int>
  {
    set roll: int | 0 <= roll < 4294967296 && Generate(edge, max, roll) > k
  }

  /** How far below MAX_ROLL the winning rolls of target k reach. */
  function Reach(edge: Edge, k: int): int
    requires k >= 100
  {
    (Room(1.0 - edge) / Threshold(k)).Floor
  }

  lemma ReachBounds(edge: Edge, k: int)
    requires k >= 100
    ensures 0 <= Reach(edge, k) <= MAX_ROLL
    ensures forall d: int {:trigger Fits(1.0 - edge, d, Threshold(k))} :: Fits(1.0 - edge, d, Threshold(k)) <==> d <= Reach(edge, k)
  {
    var y := Threshold(k);
    forall d: int {:trigger Fits(1.0 - edge, d, y)}
      ensures Fits(1.0 - edge, d, y) <==> d <= Reach(edge, k)
    {
      QuotientAtLeast(Room(1.0 - edge), y, d as real);
    }
    assert Fits(1.0 - edge, 0, y);
    ProductAtMost(1.0, y, (MAX_ROLL + 1) as real);
    assert !Fits(1.0 - edge, MAX_ROLL + 1, y);
  }

  /** The winning rolls are the topmost ones. */
  lemma BeatsTargetByRank(edge: Edge, max: real, roll: nat, k: int)
    requires roll <= MAX_ROLL && k >= 100
    ensures Generate(edge, max, roll) > k <==> Reachable(edge, max, k) && MAX_ROLL - roll <= Reach(edge, k)
  {
    ReachBounds(edge, k);
    BeatsTarget(edge, max, roll, k);
  }

  /** The exact survival count: floor(MAX_ROLL (1 - edge)^2 / threshold) + 1 rolls win, or none at all. */
  lemma WinnersCount(edge: Edge, max: real, k: int)
    requires k >= 100
    ensures |Winners(edge, max, k)| == if Reachable(edge, max, k) then Reach(edge, k) + 1 else 0
  {
    ReachBounds(edge, k);
    forall roll: nat | roll <= MAX_ROLL
      ensures Generate(edge, max, roll) > k <==> Reachable(edge, max, k) && MAX_ROLL - roll <= Reach(edge, k)
    {
      BeatsTargetByRank(edge, max, roll, k);
    }
    if Reachable(edge, max, k) {
      assert Winners(edge, max, k) == Interval(MAX_ROLL - Reach(edge, k), MAX_ROLL + 1);
    } else {
      assert Winners(edge, max, k) == {};
    }
  }

  lemma RoomIsTheSquare(keep: Kept)
    ensures Room(keep) == MAX_ROLL as real * keep * keep
  {
  }

  /** The house edge: a fixed target of k hundredths returns at most (1 - edge)^2 of the stake, up to one roll. */
  lemma HouseEdgeHolds(edge: Edge, max: real, k: int)
    requires k >= 100
    ensures |Winners(edge, max, k)| as real * (k as real / 100.0)
            <= 4294967295.0 * (1.0 - edge) * (1.0 - edge) + k as real / 100.0
  {
    RoomIsTheSquare(1.0 - edge);
    WinnersCount(edge, max, k);
    ReachBounds(edge, k);
    var x, w := k as real / 100.0, |Winners(edge, max, k)|;
    if w > 0 {
      assert Fits(1.0 - edge, w - 1, Threshold(k));
      ProductAtMost(x, Threshold(k), (w - 1) as real);
      assert w as real * x == (w - 1) as real * x + x;
    } else {
      assert w as real * x == 0.0;
    }
  }

  /** A higher roll never gives a lower crash point. */
  lemma GenerateIsMonotone(edge: Edge, max: real, a: nat, b: nat)
    requires a <= b <= MAX_ROLL && max >= 1.0
    ensures Generate(edge, max, a) <= Generate(edge, max, b)
  {
    GenerateInRange(edge, max, a);
    GenerateInRange(edge, max, b);
    if Generate(edge, max, a) > 100 {
      var k := Generate(edge, max, a) - 1;
      BeatsTargetByRank(edge, max, a, k);
      BeatsTargetByRank(edge, max, b, k);
    }
  }

  /** The cap is reached: the top roll draws round(max) whenever the 0.999999 clamp allows it. */
  lemma TopRollDrawsTheCap(edge: Edge, max: real)
    requires 1.0 <= max <= (1.0 - edge) * 1000000.0
    ensures Generate(edge, max, 4294967295) == RoundCents(max)
  {
    var k := 1.0 - edge;
    assert MAX_ROLL as real / MAX_ROLL as real == 1.0;
    assert k / k == 1.0;
    QuotientAtLeast(k, 0.000001, max);
    ProductAtMost(max, k * 1000000.0, 0.000001);
  }
}
