/** The crash-point arithmetic of the Go service, after the hash: a bust word and 52 bits r decide the outcome. */
module ProvablyFair {
  import opened Numbers

  const HOUSE_EDGE_PERCENT: int := 3
  const MAX_CRASH: int := 1000000
  const MOD: int := 0x10_0000_0000_0000
  const WORDS: int := 0x1_0000_0000

  /** The crash multiplier in hundredths, from 1.00 to 10000.00. */
  function CalculateCrashPoint(word: nat, r: nat): (point: int)
    ensures 100 <= point <= 1000000
  {
    if word % 100 < HOUSE_EDGE_PERCENT then 100
    else if r == 0 then MAX_CRASH
    else Min(MAX_CRASH, Max(100, MOD * 100 / r))
  }

  lemma ProductsOrdered(x: nat, y: nat, d: nat)
    requires x <= y
    ensures x * d <= y * d
  {
  }

  lemma QuotientAtLeast(a: nat, d: nat, k: nat)
    requires d > 0
    ensures a / d >= k <==> a >= k * d
  {
    var q := a / d;
    assert q * d <= a < (q + 1) * d;
    if q >= k {
      ProductsOrdered(k, q, d);
    } else {
      ProductsOrdered(q + 1, k, d);
    }
  }

  /** The values of r that survive up to k hundredths when the round is not an instant bust. */
  ghost function Survivors(word: nat, k: int): set<int>
  {
    set r: int | 0 <= r < 0x10_0000_0000_0000 && CalculateCrashPoint(word, r) >= k
  }

  /** Reaching a target is a bound on r alone. */
  lemma SurvivesUpTo(word: nat, r: nat, k: int)
    requires 101 <= k <= MAX_CRASH && word % 100 >= HOUSE_EDGE_PERCENT
    ensures CalculateCrashPoint(word, r) >= k <==> r <= MOD * 100 / k
  {
    if r > 0 {
      QuotientAtLeast(MOD * 100, r, k);
      QuotientAtLeast(MOD * 100, k, r);
    }
  }

  /** Exactly floor(100 * 2^52 / k) + 1 of the 2^52 values reach a target of k hundredths. */
  lemma SurvivorCount(word: nat, k: int)
    requires 101 <= k <= 1000000 && word % 100 >= HOUSE_EDGE_PERCENT
    ensures |Survivors(word, k)| == 0x10_0000_0000_0000 * 100 / k + 1
  {
    var last := MOD * 100 / k;
    QuotientAtLeast(MOD * 100, k, MOD);
    forall r: nat | r < MOD
      ensures CalculateCrashPoint(word, r) >= k <==> r <= last
    {
      SurvivesUpTo(word, r, k);
    }
    assert Survivors(word, k) == Interval(0, last + 1);
  }

  /** No round that is an instant bust survives above 1.00. */
  lemma BustsNeverSurvive(word: nat, k: int)
    requires k >= 101 && word % 100 < HOUSE_EDGE_PERCENT
    ensures Survivors(word, k) == {}
  {
  }

  // ------------------------------------------------------ both inputs together

  predicate Plays(word: int)
  {
    word % 100 >= HOUSE_EDGE_PERCENT
  }

  /** The words below n that are not instant busts. */
  ghost function Playing(n: nat): (s: set<int>)
  {
    set w: int | 0 <= w < n && Plays(w)
  }

  /** How many of the numbers below n are not instant busts. */
  function PlayingBelow(n: nat): int
  {
    n - 3 * (n / 100) - Min(3, n % 100)
  }

  lemma PlayingStep(n: nat)
    ensures PlayingBelow(n + 1) == PlayingBelow(n) + (if Plays(n) then 1 else 0)
  {
  }

  lemma PlayingNext(n: nat)
    ensures Playing(n + 1) == Playing(n) + (if Plays(n) then {n} else {})
    ensures n !in Playing(n)
  {
  }

  lemma {:induction false} PlayingCount(n: nat)
    ensures |Playing(n)| == PlayingBelow(n)
  {
    if n == 0 {
      assert Playing(0) == {};
    } else {
      PlayingCount(n - 1);
      PlayingStep(n - 1);
      PlayingNext(n - 1);
    }
  }

  ghost function Pairs(a: set<int>, b: set<int>): set<(int, int)>
  {
    set x, y | x in a && y in b :: (x, y)
  }

  lemma {:induction false} RowOfPairs(x: int, b: set<int>)
    ensures |Pairs({x}, b)| == |b|
  {
    if b == {} {
      assert Pairs({x}, b) == {};
    } else {
      var y := Pick(b);
      RowOfPairs(x, b - {y});
      assert Pairs({x}, b) == Pairs({x}, b - {y}) + {(x, y)};
    }
  }

  lemma OneMore(n: int, d: int)
    ensures n * d + d == (n + 1) * d
  {
  }

  lemma {:induction false} PairsCount(a: set<int>, b: set<int>)
    ensures |Pairs(a, b)| == |a| * |b|
  {
    if a == {} {
      assert Pairs(a, b) == {};
    } else {
      var x := Pick(a);
      PairsCount(a - {x}, b);
      RowOfPairs(x, b);
      assert Pairs(a, b) == Pairs(a - {x}, b) + Pairs({x}, b);
      OneMore(|a - {x}|, |b|);
    }
  }

  /** The pairs of word and r whose crash point reaches k hundredths. */
  ghost function Winners(k: int): set<(int, int)>
  {
    set w: int, r: int | 0 <= w < 0x1_0000_0000 && 0 <= r < 0x10_0000_0000_0000 && CalculateCrashPoint(w, r) >= k :: (w, r)
  }

  /** All pairs counted: 4166118277 of the 2^32 words play on, each with the same number of surviving r. */
  lemma WinnersCount(k: int)
    requires 101 <= k <= 1000000
    ensures |Winners(k)| == 4166118277 * (0x10_0000_0000_0000 * 100 / k + 1)
  {
    var survivors := Survivors(HOUSE_EDGE_PERCENT, k);
    SurvivorCount(HOUSE_EDGE_PERCENT, k);
    PlayingCount(WORDS);
    assert |Playing(WORDS)| == 4166118277;
    PairsCount(Playing(WORDS), survivors);
    assert Winners(k) == Pairs(Playing(WORDS), survivors);
  }

  /** The published 3% edge: a fixed target of k hundredths returns at most 97% of the stake, up to one value of r. */
  lemma HouseEdgeHolds(k: int)
    requires 101 <= k <= 1000000
    ensures |Winners(k)| * k * 100 <= 97 * 0x1_0000_0000 * (0x10_0000_0000_0000 * 100 + k)
  {
    WinnersCount(k);
    var count := MOD * 100 / k + 1;
    assert count * k <= MOD * 100 + k;
    var words := 4166118277;
    assert words * 100 <= 97 * WORDS;
    var bound := MOD * 100 + k;
    assert |Winners(k)| * k * 100 == (words * 100) * (count * k);
    assert (words * 100) * (count * k) <= (words * 100) * bound;
    assert (words * 100) * bound <= (97 * WORDS) * bound;
  }
}
