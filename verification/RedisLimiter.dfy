/**
 * The Redis limiter: per key a sorted set of the times of admitted requests, trimmed to the current aligned window by
 * every check. Times are integer nanoseconds, each member of the set being its own score.
 */
module RedisLimiter {
  import opened Numbers

  const SECOND: int := 1000000000

  /** Seconds of year 1 to 1970 in nanoseconds: windows are aligned to the zero time, not to the epoch. */
  const ZERO_TIME: int := 62135596800 * SECOND

  datatype Entry = Entry(times: set<int>, expiresAt: int)

  datatype LimitResult = LimitResult(allowed: bool, remaining: int, resetTime: int, retryAfter: int)

  datatype Checked = Checked(entry: Option<Entry>, result: LimitResult)

  /** now.Truncate(window). */
  function WindowStart(now: int, window: int): int
    requires window > 0
  {
    now - (now + ZERO_TIME) % window
  }

  lemma LeastExists(s: set<int>)
    requires s != {}
    ensures exists x :: IsLeast(x, s)
    decreases |s|
  {
    var x := Pick(s);
    var rest := s - {x};
    assert s == rest + {x};
    if rest == {} {
      assert IsLeast(x, s);
    } else {
      LeastExists(rest);
      var y :| IsLeast(y, rest);
      if x < y {
        assert IsLeast(x, s);
      } else {
        assert IsLeast(y, s);
      }
    }
  }

  predicate IsLeast(x: int, s: set<int>)
  {
    x in s && forall y :: y in s ==> x <= y
  }

  function Oldest(s: set<int>): (x: int)
    requires s != {}
    ensures IsLeast(x, s)
  {
    LeastExists(s);
    var x :| IsLeast(x, s);
    x
  }

  function From(s: set<int>, start: int): set<int>
  {
    set x | x in s && x >= start
  }

  /** What the script finds under the key: an expired key is gone. */
  function Live(entry: Option<Entry>, now: int): set<int>
  {
    if entry.Some? && now < entry.value.expiresAt then entry.value.times else {}
  }

  function TimeToLive(window: int): int
  {
    (window + SECOND - 1) / SECOND * SECOND
  }

  /** One run of the script with the parsing of its answer; a refused request adds nothing. */
  function Check(entry: Option<Entry>, limit: int, window: int, now: int): Checked
    requires window > 0
  {
    var start := WindowStart(now, window);
    var kept := From(Live(entry, now), start);
    var current := |kept|;
    if current >= limit then
      var reset := if kept == {} then start + window else Oldest(kept);
      Checked(if kept == {} then None else Some(Entry(kept, entry.value.expiresAt)),
              LimitResult(false, limit, reset, reset - now))
    else
      Checked(Some(Entry(kept + {now}, now + TimeToLive(window))), LimitResult(true, limit - current, now, 0))
  }

  // ------------------------------------------------------------ whole histories

  ghost predicate NonDecreasing(times: seq<int>)
  {
    forall i, j :: 0 <= i < j < |times| ==> times[i] <= times[j]
  }

  ghost predicate Increasing(times: seq<int>)
  {
    forall i, j :: 0 <= i < j < |times| ==> times[i] < times[j]
  }

  function After(limit: int, window: int, times: seq<int>): Option<Entry>
    requires window > 0
    decreases |times|
  {
    if times == [] then None
    else Check(After(limit, window, times[..|times| - 1]), limit, window, times[|times| - 1]).entry
  }

  /** The times of the admitted requests, in order, of the whole run. */
  function Admitted(limit: int, window: int, times: seq<int>): seq<int>
    requires window > 0
    decreases |times|
  {
    if times == [] then []
    else
      var earlier, now := times[..|times| - 1], times[|times| - 1];
      Admitted(limit, window, earlier)
      + if Check(After(limit, window, earlier), limit, window, now).result.allowed then [now] else []
  }

  function Elements(s: seq<int>): set<int>
  {
    set x | x in s
  }

  // ---------------------------------------------------------------- windows

  lemma WindowContains(t: int, window: int)
    requires window > 0
    ensures WindowStart(t, window) <= t < WindowStart(t, window) + window
  {
  }

  lemma ProductsOrdered(x: int, y: int, d: int)
    requires x <= y && d >= 0
    ensures x * d <= y * d
  {
  }

  lemma WindowsInOrder(t: int, u: int, window: int)
    requires window > 0 && t <= u
    ensures WindowStart(t, window) <= WindowStart(u, window)
    ensures u < WindowStart(t, window) + window ==> WindowStart(t, window) == WindowStart(u, window)
    ensures u >= WindowStart(t, window) + window ==> WindowStart(t, window) + window <= WindowStart(u, window)
  {
    var p, q := (t + ZERO_TIME) / window, (u + ZERO_TIME) / window;
    assert WindowStart(t, window) == p * window - ZERO_TIME;
    assert WindowStart(u, window) == q * window - ZERO_TIME;
    if q < p {
      ProductsOrdered(q + 1, p, window);
      assert false;
    } else if q > p {
      ProductsOrdered(p + 1, q, window);
    }
  }

  /** Windows begin at whole multiples of their length after the start of year 1, and every instant is in one. */
  lemma WindowsAreAligned(t: int, window: int)
    requires window > 0
    ensures (WindowStart(t, window) + 62135596800 * 1000000000) % window == 0
    ensures WindowStart(t, window) <= t < WindowStart(t, window) + window
  {
    var q := (t + ZERO_TIME) / window;
    assert WindowStart(t, window) + ZERO_TIME == q * window;
    MultipleOf(q, window);
  }

  /** A key is kept for the window's length, rounded up to whole seconds. */
  lemma LivesThroughItsWindow(window: int)
    requires window > 0
    ensures window <= TimeToLive(window) < window + 1000000000 && TimeToLive(window) % 1000000000 == 0
  {
  }

  // -------------------------------------------------------------- the invariant

  /** The stored set has all of the admitted times that any later check can still count. */
  ghost predicate Faithful(entry: Option<Entry>, history: set<int>, last: int, window: int)
    requires window > 0
  {
    Covers(entry, history, last, window, WindowStart(last, window))
  }

  ghost predicate Covers(entry: Option<Entry>, history: set<int>, last: int, window: int, start: int)
  {
    && (forall x :: x in history ==> x <= last)
    && (entry.Some? ==> entry.value.times <= history)
    && (entry.Some? ==> forall x :: x in entry.value.times ==> x + window <= entry.value.expiresAt)
    && (forall x :: x in history && (entry.None? || x !in entry.value.times) ==> x < start)
  }

  /** Neither the trimming nor the expiry of the key hides an admitted time of the current window. */
  lemma SeesTheWindow(entry: Option<Entry>, history: set<int>, last: int, window: int, now: int)
    requires window > 0 && Faithful(entry, history, last, window) && last <= now
    ensures From(Live(entry, now), WindowStart(now, window)) == From(history, WindowStart(now, window))
  {
    WindowsInOrder(last, now, window);
    WindowContains(now, window);
  }

  lemma CheckKeeps(entry: Option<Entry>, history: set<int>, last: int, limit: int, window: int, now: int)
    requires window > 0 && Faithful(entry, history, last, window) && last <= now
    ensures
      var c := Check(entry, limit, window, now);
      Faithful(c.entry, if c.result.allowed then history + {now} else history, now, window)
  {
    SeesTheWindow(entry, history, last, window, now);
    LivesThroughItsWindow(window);
    WindowContains(now, window);
    var start := WindowStart(now, window);
    var c := Check(entry, limit, window, now);
    if c.result.allowed {
      AdmissionCovers(history, From(history, start), now, window, start, now + TimeToLive(window));
    } else {
      RefusalCovers(entry, history, last, now, window, start);
    }
  }

  lemma AdmissionCovers(history: set<int>, kept: set<int>, now: int, window: int, start: int, expiresAt: int)
    requires kept == From(history, start) && now + window <= expiresAt && start <= now
    requires forall x :: x in history ==> x <= now
    ensures Covers(Some(Entry(kept + {now}, expiresAt)), history + {now}, now, window, start)
  {
  }

  lemma RefusalCovers(entry: Option<Entry>, history: set<int>, last: int, now: int, window: int, start: int)
    requires window > 0 && Faithful(entry, history, last, window) && last <= now && start <= now
    requires From(Live(entry, now), start) == From(history, start)
    ensures
      var kept := From(Live(entry, now), start);
      Covers(if kept == {} then None else Some(Entry(kept, entry.value.expiresAt)), history, now, window, start)
  {
    assert forall x :: x in history && x >= start ==> x in From(history, start);
  }

  function Last(times: seq<int>): int
  {
    if times == [] then 0 else times[|times| - 1]
  }

  lemma {:induction false} RunKeeps(limit: int, window: int, times: seq<int>)
    requires window > 0 && times != [] && NonDecreasing(times)
    ensures Faithful(After(limit, window, times), Elements(Admitted(limit, window, times)), Last(times), window)
    decreases |times|
  {
    var n := |times| - 1;
    var earlier, now := times[..n], times[n];
    var history := Elements(Admitted(limit, window, earlier));
    if n == 0 {
      CheckKeeps(None, {}, now, limit, window, now);
      assert history == {};
    } else {
      RunKeeps(limit, window, earlier);
      CheckKeeps(After(limit, window, earlier), history, Last(earlier), limit, window, now);
    }
    if Check(After(limit, window, earlier), limit, window, now).result.allowed {
      assert Elements(Admitted(limit, window, times)) == history + {now};
    } else {
      assert Admitted(limit, window, times) == Admitted(limit, window, earlier);
    }
  }

  // ------------------------------------------------------------- the decisions

  lemma AnyStart(limit: int, window: int, times: seq<int>, now: int)
    requires window > 0 && NonDecreasing(times + [now])
    ensures From(Live(After(limit, window, times), now), WindowStart(now, window))
            == From(Elements(Admitted(limit, window, times)), WindowStart(now, window))
  {
    if times != [] {
      var all := times + [now];
      assert times == all[..|times|];
      assert all[|times| - 1] <= all[|times|];
      RunKeeps(limit, window, times);
      SeesTheWindow(After(limit, window, times), Elements(Admitted(limit, window, times)), Last(times), window, now);
    }
  }

  /**
   * The stored set agrees with the whole history: after any run of requests in time order, a request is admitted exactly
   * when fewer than `limit` different times were admitted in its window. What trimming and expiry forget never counts.
   */
  lemma AgreesWithHistory(limit: int, window: int, times: seq<int>, now: int)
    requires window > 0 && NonDecreasing(times + [now])
    ensures Check(After(limit, window, times), limit, window, now).result.allowed
            <==> |From(Elements(Admitted(limit, window, times)), WindowStart(now, window))| < limit
  {
    AnyStart(limit, window, times, now);
  }

  function CountFrom(s: seq<int>, start: int): nat
  {
    if s == [] then 0 else CountFrom(s[..|s| - 1], start) + if s[|s| - 1] >= start then 1 else 0
  }

  lemma {:induction false} CountsDifferentTimes(s: seq<int>, start: int)
    requires Increasing(s)
    ensures CountFrom(s, start) == |From(Elements(s), start)|
    decreases |s|
  {
    if s == [] {
      assert From(Elements(s), start) == {};
    } else {
      var n := |s| - 1;
      CountsDifferentTimes(s[..n], start);
      assert s == s[..n] + [s[n]];
      if s[n] >= start {
        assert From(Elements(s), start) == From(Elements(s[..n]), start) + {s[n]};
        assert s[n] !in s[..n];
      } else {
        assert From(Elements(s), start) == From(Elements(s[..n]), start);
      }
    }
  }

  lemma {:induction false} AdmittedAreRequests(limit: int, window: int, times: seq<int>)
    requires window > 0
    ensures forall x :: x in Admitted(limit, window, times) ==> x in times
    decreases |times|
  {
    if times != [] {
      var n := |times| - 1;
      AdmittedAreRequests(limit, window, times[..n]);
    }
  }

  lemma {:induction false} AdmittedIncrease(limit: int, window: int, times: seq<int>)
    requires window > 0 && Increasing(times)
    ensures Increasing(Admitted(limit, window, times))
    decreases |times|
  {
    if times != [] {
      var n := |times| - 1;
      AdmittedIncrease(limit, window, times[..n]);
      AdmittedAreRequests(limit, window, times[..n]);
      var admitted := Admitted(limit, window, times[..n]);
      forall i | 0 <= i < |admitted|
        ensures admitted[i] < times[n]
      {
        assert admitted[i] in admitted;
        assert admitted[i] in times[..n];
      }
    }
  }

  /** With strictly increasing times the decision counts requests: fewer than `limit` admitted in the current window. */
  lemma CountsRequests(limit: int, window: int, times: seq<int>, now: int)
    requires window > 0 && Increasing(times + [now])
    ensures Check(After(limit, window, times), limit, window, now).result.allowed
            <==> CountFrom(Admitted(limit, window, times), WindowStart(now, window)) < limit
  {
    assert times == (times + [now])[..|times|];
    AgreesWithHistory(limit, window, times, now);
    AdmittedIncrease(limit, window, times);
    CountsDifferentTimes(Admitted(limit, window, times), WindowStart(now, window));
  }

  // ------------------------------------------------------------------ bounds

  function Within(s: set<int>, start: int, length: int): set<int>
  {
    set x | x in s && start <= x < start + length
  }

  /** No aligned window ever holds more than `limit` different admitted times. */
  lemma {:induction false} EachWindowIsLimited(limit: int, window: int, times: seq<int>, t: int)
    requires window > 0 && NonDecreasing(times)
    ensures |Within(Elements(Admitted(limit, window, times)), WindowStart(t, window), window)| <= Max(0, limit)
    decreases |times|
  {
    var start := WindowStart(t, window);
    if times == [] {
      assert Within(Elements([]), start, window) == {};
    } else {
      var n := |times| - 1;
      var earlier, now := times[..n], times[n];
      assert earlier + [now] == times;
      EachWindowIsLimited(limit, window, earlier, t);
      var admitted := Admitted(limit, window, earlier);
      if Check(After(limit, window, earlier), limit, window, now).result.allowed {
        AgreesWithHistory(limit, window, earlier, now);
        AdmittedAreRequests(limit, window, earlier);
        OneMoreInWindow(Elements(admitted), limit, window, now, t);
        assert Elements(admitted + [now]) == Elements(admitted) + {now};
      } else {
        assert admitted + [] == admitted;
      }
    }
  }

  lemma OneMoreInWindow(history: set<int>, limit: int, window: int, now: int, t: int)
    requires window > 0
    requires forall x :: x in history ==> x <= now
    requires |From(history, WindowStart(now, window))| < limit
    requires |Within(history, WindowStart(t, window), window)| <= Max(0, limit)
    ensures |Within(history + {now}, WindowStart(t, window), window)| <= Max(0, limit)
  {
    var start := WindowStart(t, window);
    WindowContains(now, window);
    if start <= now < start + window {
      SameWindow(t, now, window);
      assert Within(history, start, window) == From(history, start);
      assert Within(history + {now}, start, window) == From(history, start) + {now};
    } else {
      assert Within(history + {now}, start, window) == Within(history, start, window);
    }
  }

  lemma SameWindow(t: int, x: int, window: int)
    requires window > 0 && WindowStart(t, window) <= x < WindowStart(t, window) + window
    ensures WindowStart(x, window) == WindowStart(t, window)
  {
    WindowContains(t, window);
    WindowContains(x, window);
    if t <= x {
      WindowsInOrder(t, x, window);
    } else {
      WindowsInOrder(x, t, window);
    }
  }

  /** Any stretch of one window's length holds at most twice the limit, wherever it starts. */
  lemma AnyStretchIsLimited(limit: int, window: int, times: seq<int>, a: int)
    requires window > 0 && NonDecreasing(times)
    ensures |Within(Elements(Admitted(limit, window, times)), a, window)| <= 2 * Max(0, limit)
  {
    WindowContains(a, window);
    AlignedStarts(a, window);
    var start := WindowStart(a, window);
    LimitedFrom(limit, window, times, start);
    LimitedFrom(limit, window, times, start + window);
    StretchInTwo(Elements(Admitted(limit, window, times)), a, start, window);
  }

  lemma LimitedFrom(limit: int, window: int, times: seq<int>, start: int)
    requires window > 0 && NonDecreasing(times) && WindowStart(start, window) == start
    ensures |Within(Elements(Admitted(limit, window, times)), start, window)| <= Max(0, limit)
  {
    EachWindowIsLimited(limit, window, times, start);
  }

  lemma StretchInTwo(history: set<int>, a: int, start: int, window: int)
    requires window > 0 && start <= a < start + window
    ensures |Within(history, a, window)|
            <= |Within(history, start, window)| + |Within(history, start + window, window)|
  {
    var first, second := Within(history, start, window), Within(history, start + window, window);
    SubsetSize(Within(history, a, window), first + second);
    assert |first + second| <= |first| + |second|;
  }

  lemma AlignedStarts(a: int, window: int)
    requires window > 0
    ensures WindowStart(WindowStart(a, window), window) == WindowStart(a, window)
    ensures WindowStart(WindowStart(a, window) + window, window) == WindowStart(a, window) + window
  {
    var start := WindowStart(a, window);
    WindowContains(a, window);
    SameWindow(a, start, window);
    WindowContains(start + window, window);
    WindowsInOrder(a, start + window, window);
  }

  // ------------------------------------------------- when the window does slide

  /** first, first + 1, ..., one request at each instant. */
  function Consecutive(first: int, n: nat): (s: seq<int>)
    ensures |s| == n
  {
    if n == 0 then [] else Consecutive(first, n - 1) + [first + n - 1]
  }

  lemma {:induction false} ConsecutiveAre(first: int, n: nat)
    ensures forall i :: 0 <= i < n ==> Consecutive(first, n)[i] == first + i
    ensures NonDecreasing(Consecutive(first, n))
  {
    if n > 0 {
      ConsecutiveAre(first, n - 1);
    }
  }

  lemma ConsecutiveElements(first: int, n: nat)
    ensures forall x :: x in Elements(Consecutive(first, n)) <==> first <= x < first + n
  {
    ConsecutiveAre(first, n);
    forall x | first <= x < first + n
      ensures x in Consecutive(first, n)
    {
      assert Consecutive(first, n)[x - first] == x;
    }
  }

  lemma SpanSize(s: set<int>, lo: int, hi: int)
    requires lo <= hi
    ensures (forall x :: x in s ==> lo <= x < hi) ==> |s| <= hi - lo
    ensures (forall x :: x in s <==> lo <= x < hi) ==> |s| == hi - lo
  {
    if forall x :: x in s ==> lo <= x < hi {
      SubsetSize(s, Interval(lo, hi));
    }
    if forall x :: x in s <==> lo <= x < hi {
      assert s == Interval(lo, hi);
    }
  }

  /** A request at every instant around a boundary: at most `limit` on each side of it, so that all are admitted. */
  lemma {:induction false} AroundABoundary(limit: int, window: int, boundary: int, before: nat, n: nat)
    requires window > 0 && WindowStart(boundary, window) == boundary
    requires before <= limit && n <= before + limit && n <= before + window
    ensures Admitted(limit, window, Consecutive(boundary - before, n)) == Consecutive(boundary - before, n)
    decreases n
  {
    if n > 0 {
      var first := boundary - before;
      AroundABoundary(limit, window, boundary, before, n - 1);
      assert Consecutive(first, n)[..n - 1] == Consecutive(first, n - 1);
      OneMoreAdmitted(limit, window, boundary, before, n - 1);
    }
  }

  lemma OneMoreAdmitted(limit: int, window: int, boundary: int, before: nat, n: nat)
    requires window > 0 && WindowStart(boundary, window) == boundary
    requires before <= limit && n < before + limit && n < before + window
    ensures var first := boundary - before;
            Admitted(limit, window, Consecutive(first, n)) == Consecutive(first, n) ==>
              Check(After(limit, window, Consecutive(first, n)), limit, window, first + n).result.allowed
  {
    var first := boundary - before;
    ConsecutiveAre(first, n + 1);
    AgreesWithHistory(limit, window, Consecutive(first, n), first + n);
    FewSeen(limit, window, boundary, before, n);
  }

  lemma FewSeen(limit: int, window: int, boundary: int, before: nat, n: nat)
    requires window > 0 && WindowStart(boundary, window) == boundary
    requires before <= limit && n < before + limit && n < before + window
    ensures var first := boundary - before;
            |From(Elements(Consecutive(first, n)), WindowStart(first + n, window))| < limit
  {
    var first := boundary - before;
    WindowContains(first + n, window);
    if n >= before {
      WindowsInOrder(boundary, first + n, window);
      SeenFrom(first, n, boundary);
    } else {
      SeenFrom(first, n, WindowStart(first + n, window));
    }
  }

  lemma SeenFrom(first: int, n: nat, start: int)
    requires start <= first + n
    ensures |From(Elements(Consecutive(first, n)), start)| <= n
    ensures |From(Elements(Consecutive(first, n)), start)| <= first + n - start
  {
    ConsecutiveElements(first, n);
    SpanSize(From(Elements(Consecutive(first, n)), start), first, first + n);
    SpanSize(From(Elements(Consecutive(first, n)), start), start, first + n);
  }

  /** Start a stretch inside a window: the two windows it meets let through one request too many. */
  lemma AStretchOverflows(limit: int, window: int, a: int)
    requires 0 < limit < window && WindowStart(a, window) != a
    ensures var boundary := WindowStart(a, window) + window;
            var times := Consecutive(boundary - Min(limit, boundary - a), limit + 1);
            NonDecreasing(times) && |Within(Elements(Admitted(limit, window, times)), a, window)| == limit + 1
  {
    WindowContains(a, window);
    AlignedStarts(a, window);
    AllAround(limit, window, a, WindowStart(a, window) + window, Min(limit, WindowStart(a, window) + window - a), limit + 1);
  }

  lemma AllAround(limit: int, window: int, a: int, boundary: int, before: nat, n: nat)
    requires window > 0 && WindowStart(boundary, window) == boundary
    requires before <= limit && n <= before + limit && n <= before + window
    requires a <= boundary - before && boundary - before + n <= a + window
    ensures var times := Consecutive(boundary - before, n);
            NonDecreasing(times) && |Within(Elements(Admitted(limit, window, times)), a, window)| == n
  {
    AroundABoundary(limit, window, boundary, before, n);
    ConsecutiveAre(boundary - before, n);
    ConsecutiveWithin(boundary - before, n, a, window);
  }

  lemma ConsecutiveWithin(first: int, n: nat, a: int, window: int)
    requires a <= first && first + n <= a + window
    ensures |Within(Elements(Consecutive(first, n)), a, window)| == n
  {
    ConsecutiveElements(first, n);
    SpanSize(Within(Elements(Consecutive(first, n)), a, window), first, first + n);
  }

  lemma ShortWindowsHoldFew(limit: int, window: int, times: seq<int>, a: int)
    requires window > 0 && limit >= window
    ensures |Within(Elements(Admitted(limit, window, times)), a, window)| <= limit
  {
    SubsetSize(Within(Elements(Admitted(limit, window, times)), a, window), Interval(a, a + window));
  }

  /** What a sliding window promises of the stretch of one window's length from a on. */
  ghost predicate SlidesAt(limit: int, window: int, a: int)
    requires window > 0
  {
    forall times: seq<int> :: NonDecreasing(times) ==>
      |Within(Elements(Admitted(limit, window, times)), a, window)| <= Max(0, limit)
  }

  /**
   * The exact condition: the stretch from a on never holds more than `limit` different admitted times, whatever the
   * requests, if and only if the stretch is an aligned window, or the limit admits nothing, or it admits an instant each.
   */
  lemma SlidesOnlyWhenAligned(limit: int, window: int, a: int)
    requires window > 0
    ensures SlidesAt(limit, window, a) <==> limit <= 0 || limit >= window || WindowStart(a, window) == a
  {
    if WindowStart(a, window) == a {
      forall times: seq<int> | NonDecreasing(times)
        ensures |Within(Elements(Admitted(limit, window, times)), a, window)| <= Max(0, limit)
      {
        EachWindowIsLimited(limit, window, times, a);
      }
    } else if limit <= 0 {
      forall times: seq<int> | NonDecreasing(times)
        ensures |Within(Elements(Admitted(limit, window, times)), a, window)| <= Max(0, limit)
      {
        AnyStretchIsLimited(limit, window, times, a);
      }
    } else if limit >= window {
      forall times: seq<int> | NonDecreasing(times)
        ensures |Within(Elements(Admitted(limit, window, times)), a, window)| <= Max(0, limit)
      {
        ShortWindowsHoldFew(limit, window, times, a);
      }
    } else {
      AStretchOverflows(limit, window, a);
    }
  }

  /** Twice the limit is met: `limit` instants on each side of a boundary, inside one stretch of a window's length. */
  lemma TwiceTheLimitIsMet(limit: int, window: int, t: int)
    requires 0 < limit && 2 * limit <= window
    ensures var boundary := WindowStart(t, window);
            var times := Consecutive(boundary - limit, 2 * limit);
            NonDecreasing(times) && |Within(Elements(Admitted(limit, window, times)), boundary - limit, window)| == 2 * limit
  {
    AlignedStarts(t, window);
    AllAround(limit, window, WindowStart(t, window) - limit, WindowStart(t, window), limit, 2 * limit);
  }

  /** Requests of one instant share a member of the set, so from a limit of two on every one of them is admitted. */
  lemma {:induction false} SameInstantAdmitsAll(limit: int, window: int, t: int, times: seq<int>)
    requires window > 0 && limit >= 2 && forall i :: 0 <= i < |times| ==> times[i] == t
    ensures Admitted(limit, window, times) == times
    ensures times != [] ==> After(limit, window, times) == Some(Entry({t}, t + TimeToLive(window)))
    decreases |times|
  {
    if times != [] {
      var n := |times| - 1;
      SameInstantAdmitsAll(limit, window, t, times[..n]);
      assert times == times[..n] + [times[n]];
      OnlyOneTime(After(limit, window, times[..n]), limit, window, t);
    }
  }

  lemma OnlyOneTime(before: Option<Entry>, limit: int, window: int, t: int)
    requires window > 0 && limit >= 2
    requires before.Some? ==> before.value.times == {t}
    ensures Check(before, limit, window, t).result.allowed
    ensures Check(before, limit, window, t).entry == Some(Entry({t}, t + TimeToLive(window)))
  {
    var live := Live(before, t);
    var kept := From(live, WindowStart(t, window));
    assert live <= {t};
    assert kept <= live;
    SubsetSize(kept, {t});
    assert |kept| <= 1;
    assert kept + {t} == {t};
  }

  /**
   * What the caller is told: the remaining count before this request, and a wait that is never positive unless the limit
   * admits nothing at all, since a refusal reports the oldest admitted time of the window.
   */
  lemma WhatTheCallerIsTold(limit: int, window: int, times: seq<int>, now: int)
    requires window > 0 && NonDecreasing(times + [now])
    ensures
      var seen := From(Elements(Admitted(limit, window, times)), WindowStart(now, window));
      var r := Check(After(limit, window, times), limit, window, now).result;
      && (r.allowed ==> r.remaining == limit - |seen| > 0 && r.resetTime == now)
      && (!r.allowed ==> r.remaining == limit)
      && (!r.allowed && limit > 0 ==> IsLeast(r.resetTime, seen))
      && r.retryAfter == r.resetTime - now
      && (r.retryAfter > 0 <==> limit <= 0)
  {
    var history := Elements(Admitted(limit, window, times));
    var seen := From(history, WindowStart(now, window));
    AnyStart(limit, window, times, now);
    WindowContains(now, window);
    AdmittedAreRequests(limit, window, times);
    assert forall x :: x in times ==> x <= now by {
      forall x | x in times
        ensures x <= now
      {
        var i :| 0 <= i < |times| && times[i] == x;
        assert (times + [now])[i] <= (times + [now])[|times|];
      }
    }
    NothingAdmitted(limit, window, times);
    assert forall x :: x in seen ==> x <= now;
  }

  lemma {:induction false} NothingAdmitted(limit: int, window: int, times: seq<int>)
    requires window > 0
    ensures limit <= 0 ==> Admitted(limit, window, times) == []
    decreases |times|
  {
    if times != [] {
      NothingAdmitted(limit, window, times[..|times| - 1]);
    }
  }

  // ---------------------------------------------------------- the stored keys

  function Lookup(store: map<string, Entry>, key: string): Option<Entry>
  {
    if key in store then Some(store[key]) else None
  }

  function Updated(store: map<string, Entry>, key: string, entry: Option<Entry>): map<string, Entry>
  {
    if entry.Some? then store[key := entry.value] else store - {key}
  }

  class RedisLimiter {
    /** The limiter's keys in Redis. */
    var store: map<string, Entry>

    constructor ()
      ensures store == map[]
    {
      store := map[];
    }

    /** The head of the script: an expired key is gone, and so is one whose every entry is trimmed. */
    method Trim(key: string, windowStart: int, now: int)
      modifies this
      ensures store == Trimmed(old(store), key, windowStart, now)
    {
      if key in store && now >= store[key].expiresAt {
        store := store - {key};
      }
      if key in store {
        var kept := From(store[key].times, windowStart);
        if kept == {} {
          store := store - {key};
        } else {
          store := store[key := store[key].(times := kept)];
        }
      }
    }

    /** One atomic script run; the other keys are left alone. */
    method CheckLimit(key: string, limit: int, window: int, now: int) returns (r: LimitResult)
      requires window > 0
      modifies this
      ensures
        var c := Check(Lookup(old(store), key), limit, window, now);
        r == c.result && store == Updated(old(store), key, c.entry)
    {
      var windowStart := WindowStart(now, window);
      var windowEnd := windowStart + window;
      Trim(key, windowStart, now);
      var current := if key in store then |store[key].times| else 0;
      if current >= limit {
        var resetTime := if key in store then Oldest(store[key].times) else windowEnd;
        return LimitResult(false, limit, resetTime, resetTime - now);
      }
      var times := if key in store then store[key].times else {};
      store := store[key := Entry(times + {now}, now + TimeToLive(windowEnd - windowStart))];
      return LimitResult(true, limit - current, now, 0);
    }
  }

  function Trimmed(store: map<string, Entry>, key: string, windowStart: int, now: int): map<string, Entry>
  {
    var kept := From(Live(Lookup(store, key), now), windowStart);
    if kept == {} then store - {key} else store[key := store[key].(times := kept)]
  }
}
