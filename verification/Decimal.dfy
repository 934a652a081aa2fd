/** Decimal strings as fmt prints them: zero-padded to a least width, their value, and their order as text. */
module Decimal {
  function DigitChar(d: nat): char
    requires d < 10
  {
    '0' + d as char
  }

  /** The value of a digit; characters that are not digits do not occur. */
  function DigitValue(c: char): int
  {
    c as int - '0' as int
  }

  /** n in decimal, padded on the left with zeros to at least `width` characters. */
  function Pad(n: nat, width: nat): (s: string)
    ensures |s| >= 1 && |s| >= width
    decreases n, width
  {
    if n < 10 && width <= 1 then
      [DigitChar(n)]
    else
      Pad(n / 10, if width == 0 then 0 else width - 1) + [DigitChar(n % 10)]
  }

  predicate IsDecimal(s: string)
  {
    forall i :: 0 <= i < |s| ==> '0' <= s[i] <= '9'
  }

  function Value(s: string): int
  {
    if s == [] then 0 else Value(s[..|s| - 1]) * 10 + DigitValue(s[|s| - 1])
  }

  function Pow10(k: nat): int
  {
    if k == 0 then 1 else 10 * Pow10(k - 1)
  }

  /** The digits written read back as the number. */
  lemma {:induction false} PadReadsBack(n: nat, width: nat)
    ensures IsDecimal(Pad(n, width)) && Value(Pad(n, width)) == n
    decreases n, width
  {
    if n < 10 && width <= 1 {
      assert Pad(n, width)[..0] == [];
    } else {
      var rest := if width == 0 then 0 else width - 1;
      PadReadsBack(n / 10, rest);
      assert Pad(n, width)[..|Pad(n, width)| - 1] == Pad(n / 10, rest);
    }
  }

  lemma TenTimes(n: nat, p: int)
    ensures n / 10 < p <==> n < 10 * p
  {
  }

  /** The padded form is as wide as asked exactly when the number fits. */
  lemma {:induction false} PadWidth(n: nat, width: nat)
    requires width >= 1
    ensures |Pad(n, width)| == width <==> n < Pow10(width)
    decreases width
  {
    if width == 1 {
      assert Pow10(1) == 10;
    } else {
      PadWidth(n / 10, width - 1);
      TenTimes(n, Pow10(width - 1));
    }
  }

  /** A number one digit too long is one character wider. */
  lemma {:induction false} PadWiderByOne(n: nat, width: nat)
    requires width >= 1 && Pow10(width) <= n < Pow10(width + 1)
    ensures |Pad(n, width)| == width + 1
    decreases width
  {
    if width == 1 {
      assert Pow10(1) == 10 && Pow10(2) == 100;
      assert Pad(n, 1) == Pad(n / 10, 0) + [DigitChar(n % 10)];
    } else {
      TenTimes(n, Pow10(width - 1));
      TenTimes(n, Pow10(width));
      PadWiderByOne(n / 10, width - 1);
    }
  }

  lemma LastDigit(s: string)
    requires IsDecimal(s) && s != []
    ensures IsDecimal(s[..|s| - 1])
    ensures 0 <= DigitValue(s[|s| - 1]) < 10
    ensures Value(s) == Value(s[..|s| - 1]) * 10 + DigitValue(s[|s| - 1])
    ensures s == s[..|s| - 1] + [s[|s| - 1]]
  {
    AllButTheLast(s);
    var n := |s| - 1;
    assert '0' <= s[n] <= '9';
  }

  lemma AllButTheLast(s: string)
    requires IsDecimal(s) && s != []
    ensures IsDecimal(s[..|s| - 1])
    ensures s == s[..|s| - 1] + [s[|s| - 1]]
  {
  }

  lemma {:induction false} SameValue(a: string, b: string)
    requires IsDecimal(a) && IsDecimal(b) && |a| == |b| && Value(a) == Value(b)
    ensures a == b
    decreases |a|
  {
    if a != [] {
      LastDigit(a);
      LastDigit(b);
      SameValue(a[..|a| - 1], b[..|b| - 1]);
    }
  }

  /** Text side by side: the value of the left part moves up by the width of the right part. */
  lemma {:induction false} SideBySide(a: string, b: string)
    requires IsDecimal(a) && IsDecimal(b)
    ensures IsDecimal(a + b)
    ensures Value(a + b) == Value(a) * Pow10(|b|) + Value(b)
    decreases |b|
  {
    if b == [] {
      assert a + b == a;
    } else {
      var n := |b| - 1;
      LastDigit(b);
      SideBySide(a, b[..n]);
      assert (a + b)[..|a + b| - 1] == a + b[..n];
      MovedUp(Value(a), Pow10(n), Value(b[..n]), DigitValue(b[n]));
    }
  }

  lemma MovedUp(v: int, p: int, rest: int, d: int)
    ensures (v * p + rest) * 10 + d == v * (10 * p) + (rest * 10 + d)
  {
  }

  lemma TwoMoreDigits(a: string, b: string)
    requires IsDecimal(a) && IsDecimal(b) && |b| == 2
    ensures IsDecimal(a + b)
    ensures Value(a + b) == Value(a) * 100 + Value(b)
  {
    SideBySide(a, b);
    assert Pow10(1) == 10 && Pow10(2) == 100;
  }

  /** a comes before b as text. */
  ghost predicate Before(a: string, b: string)
  {
    exists k: nat :: FirstDifference(a, b, k)
  }

  ghost predicate FirstDifference(a: string, b: string, k: nat)
  {
    && k <= |a| && k < |b|
    && a[..k] == b[..k]
    && (k == |a| || a[k] < b[k])
  }

  lemma BeforeIsStrict(a: string, b: string)
    requires Before(a, b)
    ensures a != b && !Before(b, a)
  {
  }

  lemma {:induction false} SmallerComesBefore(a: string, b: string)
    requires IsDecimal(a) && IsDecimal(b) && |a| == |b| && Value(a) < Value(b)
    ensures Before(a, b)
    decreases |a|
  {
    var n := |a| - 1;
    var x, y := a[..n], b[..n];
    LastDigit(a);
    LastDigit(b);
    if Value(x) < Value(y) {
      SmallerComesBefore(x, y);
      var k: nat :| FirstDifference(x, y, k);
      assert x[..k] == a[..k] && y[..k] == b[..k];
      assert FirstDifference(a, b, k);
    } else {
      SameValue(x, y);
      assert FirstDifference(a, b, n);
    }
  }

  lemma BeforeExtends(a: string, b: string, s: string, t: string)
    requires Before(a, b) && |a| == |b|
    ensures Before(a + s, b + t)
  {
    var k: nat :| FirstDifference(a, b, k);
    assert (a + s)[..k] == a[..k] && (b + t)[..k] == b[..k];
    assert FirstDifference(a + s, b + t, k);
  }

  lemma BeforeBehind(prefix: string, a: string, b: string)
    requires Before(a, b)
    ensures Before(prefix + a, prefix + b)
  {
    var k: nat :| FirstDifference(a, b, k);
    var m := |prefix| + k;
    assert (prefix + a)[..m] == prefix + a[..k] && (prefix + b)[..m] == prefix + b[..k];
    assert FirstDifference(prefix + a, prefix + b, m);
  }

  lemma EqualHalves(a: string, b: string, s: string, t: string)
    requires |a| == |b| && a + s == b + t
    ensures a == b && s == t
  {
    assert a == (a + s)[..|a|] && b == (b + t)[..|b|];
    assert s == (a + s)[|a|..] && t == (b + t)[|b|..];
  }
}
