/**
 * The two token buckets of the outbound API clients. Both hold a count of tokens, top it up by one per whole interval
 * gone by since the last refill, and hand out at most what they hold. Instants are integers and never run backwards
 * over a run, as with Go's monotonic readings.
 */
module TokenBucket {
  import opened Numbers

  datatype Bucket = Bucket(tokens: int, maxTokens: int, interval: int, lastRefill: int)

  datatype Outcome = Outcome(bucket: Bucket, granted: bool)

  function NewBucket(maxTokens: int, interval: int, now: int): Bucket
  {
    Bucket(maxTokens, maxTokens, interval, now)
  }

  /** The refill at the head of tryConsume, in the sportradar client. */
  function Refilled(b: Bucket, now: int): Bucket
    requires b.interval > 0
  {
    var tokensToAdd := (now - b.lastRefill) / b.interval;
    if tokensToAdd > 0 then
      b.(tokens := Min(b.maxTokens, b.tokens + tokensToAdd), lastRefill := now)
    else
      b
  }

  function Attempt(b: Bucket, now: int): Outcome
    requires b.interval > 0
  {
    var full := Refilled(b, now);
    if full.tokens > 0 then Outcome(full.(tokens := full.tokens - 1), true) else Outcome(full, false)
  }

  /** A bucket left alone for k whole intervals has gained k tokens, up to its capacity. */
  lemma RefillAddsOnePerInterval(b: Bucket, k: int, now: int)
    requires b.interval > 0 && 0 <= b.tokens <= b.maxTokens && k >= 0
    requires k * b.interval <= now - b.lastRefill < (k + 1) * b.interval
    ensures Refilled(b, now) == if k == 0 then b
                                else b.(tokens := if b.tokens + k < b.maxTokens then b.tokens + k else b.maxTokens, lastRefill := now)
  {
    var q := (now - b.lastRefill) / b.interval;
    assert q * b.interval <= now - b.lastRefill < (q + 1) * b.interval;
    if q < k {
      ProductsOrdered(q + 1, k, b.interval);
    } else if q > k {
      ProductsOrdered(k + 1, q, b.interval);
    }
  }

  // -------------------------------------------------------------- whole runs

  ghost predicate NonDecreasing(readings: seq<int>)
  {
    forall i, j :: 0 <= i < j < |readings| ==> readings[i] <= readings[j]
  }

  /** The last instant of a run that starts at `first`. */
  function End(first: int, readings: seq<int>): int
  {
    if readings == [] then first else readings[|readings| - 1]
  }

  /** The bucket after one attempt, by whichever caller, at each reading in turn. */
  function After(b: Bucket, readings: seq<int>): (r: Bucket)
    requires b.interval > 0
    ensures r.maxTokens == b.maxTokens && r.interval == b.interval
    decreases |readings|
  {
    if readings == [] then b
    else Attempt(After(b, readings[..|readings| - 1]), readings[|readings| - 1]).bucket
  }

  function Grants(b: Bucket, readings: seq<int>): nat
    requires b.interval > 0
    decreases |readings|
  {
    if readings == [] then 0
    else
      var earlier := readings[..|readings| - 1];
      var rest := After(b, earlier);
      Grants(b, earlier) + if Attempt(rest, readings[|readings| - 1]).granted then 1 else 0
  }

  lemma AtMostTheQuotient(k: int, n: int, d: int)
    requires d > 0 && k * d <= n
    ensures k <= n / d
  {
    var q := n / d;
    assert n < (q + 1) * d;
    if k > q {
      ProductsOrdered(q + 1, k, d);
    }
  }

  lemma ProductsOrdered(x: int, y: int, d: int)
    requires x <= y && d >= 0
    ensures x * d <= y * d
  {
  }

  lemma ProductsAdd(x: int, y: int, d: int)
    ensures (x + y) * d == x * d + y * d
  {
  }

  /** What one attempt adds, held or handed out, is paid for by the time the refill moves forward. */
  lemma AttemptIsPaidFor(b: Bucket, now: int)
    requires b.interval > 0 && 0 <= b.tokens <= b.maxTokens && b.lastRefill <= now
    ensures
      var o := Attempt(b, now);
      && 0 <= o.bucket.tokens <= b.maxTokens
      && (o.bucket.lastRefill == b.lastRefill || o.bucket.lastRefill == now)
      && (o.bucket.tokens + (if o.granted then 1 else 0) - b.tokens) * b.interval <= o.bucket.lastRefill - b.lastRefill
  {
    var added := (now - b.lastRefill) / b.interval;
    if added > 0 {
      assert added * b.interval <= now - b.lastRefill;
      ProductsOrdered(Refilled(b, now).tokens - b.tokens, added, b.interval);
    }
  }

  /** Tokens held and handed out never exceed the tokens at the start plus one per whole interval up to the refill. */
  lemma {:induction false} TokensAccountedFor(b: Bucket, readings: seq<int>)
    requires b.interval > 0 && 0 <= b.tokens <= b.maxTokens
    requires NonDecreasing([b.lastRefill] + readings)
    ensures
      var r := After(b, readings);
      && 0 <= r.tokens <= b.maxTokens
      && b.lastRefill <= r.lastRefill <= End(b.lastRefill, readings)
      && (r.tokens + Grants(b, readings) - b.tokens) * b.interval <= r.lastRefill - b.lastRefill
    decreases |readings|
  {
    if readings != [] {
      var n := |readings| - 1;
      var earlier, now := readings[..n], readings[n];
      var all := [b.lastRefill] + readings;
      assert [b.lastRefill] + earlier == all[..n + 1];
      TokensAccountedFor(b, earlier);
      var r := After(b, earlier);
      assert all[n] <= all[n + 1] == now;
      AttemptIsPaidFor(r, now);
      var o := Attempt(r, now);
      var gain := o.bucket.tokens + (if o.granted then 1 else 0) - r.tokens;
      var sofar := r.tokens + Grants(b, earlier) - b.tokens;
      ProductsAdd(sofar, gain, b.interval);
      assert o.bucket.tokens + Grants(b, readings) - b.tokens == sofar + gain;
    }
  }

  lemma TokensOverTime(held: int, granted: int, first: int, interval: int, refilled: int, elapsed: int)
    requires interval > 0 && held >= 0 && refilled <= elapsed
    requires (held + granted - first) * interval <= refilled
    ensures granted <= first + elapsed / interval
  {
    ProductsOrdered(granted - first, held + granted - first, interval);
    AtMostTheQuotient(granted - first, elapsed, interval);
  }

  /**
   * The bucket's bound: from its creation to any later instant at most maxTokens plus one token per whole interval are
   * granted, whoever asks and however often, and the count of tokens stays within [0, maxTokens].
   */
  lemma GrantsAreBounded(maxTokens: int, interval: int, t0: int, readings: seq<int>)
    requires interval > 0 && maxTokens >= 0
    requires NonDecreasing([t0] + readings)
    ensures 0 <= After(NewBucket(maxTokens, interval, t0), readings).tokens <= maxTokens
    ensures Grants(NewBucket(maxTokens, interval, t0), readings) <= maxTokens + (End(t0, readings) - t0) / interval
  {
    var b := NewBucket(maxTokens, interval, t0);
    TokensAccountedFor(b, readings);
    var r := After(b, readings);
    TokensOverTime(r.tokens, Grants(b, readings), maxTokens, interval, r.lastRefill - t0, End(t0, readings) - t0);
  }

  lemma {:induction false} RunsCompose(b: Bucket, first: seq<int>, second: seq<int>)
    requires b.interval > 0
    ensures After(b, first + second) == After(After(b, first), second)
    ensures Grants(b, first + second) == Grants(b, first) + Grants(After(b, first), second)
    decreases |second|
  {
    if second == [] {
      assert first + second == first;
    } else {
      var n := |second| - 1;
      assert (first + second)[..|first + second| - 1] == first + second[..n];
      RunsCompose(b, first, second[..n]);
    }
  }

  /** The same bound for any stretch of a run: of the attempts from `start` on, at most maxTokens + 1 and one per interval. */
  lemma StretchIsBounded(maxTokens: int, interval: int, t0: int, before: seq<int>, start: int, later: seq<int>)
    requires interval > 0 && maxTokens >= 0
    requires NonDecreasing([t0] + before + [start] + later)
    ensures
      var b := NewBucket(maxTokens, interval, t0);
      Grants(b, before + ([start] + later)) - Grants(b, before)
        <= maxTokens + 1 + (End(start, later) - start) / interval
  {
    var b := NewBucket(maxTokens, interval, t0);
    var whole := [t0] + before + [start] + later;
    assert [t0] + before == whole[..|before| + 1];
    assert [start] + later == whole[|before| + 1..];
    TokensAccountedFor(b, before);
    var r := After(b, before);
    RunsCompose(b, before, [start] + later);
    assert End(t0, before) == whole[|before|] <= whole[|before| + 1] == start;
    StretchFrom(r, start, later);
    RefillIsRecent(r, start);
    AtMostTheQuotient(Grants(r, [start] + later) - (Refilled(r, start).tokens + 1), End(start, later) - start, interval);
  }

  lemma StretchFrom(r: Bucket, start: int, later: seq<int>)
    requires r.interval > 0 && 0 <= r.tokens <= r.maxTokens && r.lastRefill <= start
    requires NonDecreasing([start] + later)
    ensures (Grants(r, [start] + later) - (Refilled(r, start).tokens + 1)) * r.interval <= End(start, later) - start
  {
    RefillFirst(r, start, later);
    RefillIsRecent(r, start);
    EarlierStart(Refilled(r, start).lastRefill, start, later);
    StretchAfterRefill(Refilled(r, start), start, [start] + later);
  }

  lemma StretchAfterRefill(b: Bucket, start: int, readings: seq<int>)
    requires b.interval > 0 && 0 <= b.tokens <= b.maxTokens && start - b.lastRefill < b.interval
    requires NonDecreasing([b.lastRefill] + readings)
    ensures (Grants(b, readings) - (b.tokens + 1)) * b.interval <= End(b.lastRefill, readings) - start
  {
    TokensAccountedFor(b, readings);
    AlmostAnInterval(After(b, readings).tokens, Grants(b, readings), b.tokens, b.interval,
                     After(b, readings).lastRefill - b.lastRefill, End(b.lastRefill, readings) - start);
  }

  lemma EarlierStart(first: int, start: int, later: seq<int>)
    requires first <= start && NonDecreasing([start] + later)
    ensures NonDecreasing([first] + ([start] + later))
    ensures End(first, [start] + later) == End(start, later)
  {
    var all := [start] + later;
    forall i, j | 0 <= i < j < |[first] + all|
      ensures ([first] + all)[i] <= ([first] + all)[j]
    {
      assert all[j - 1] >= all[0];
    }
  }

  lemma AlmostAnInterval(held: int, granted: int, first: int, interval: int, refilled: int, elapsed: int)
    requires interval > 0 && held >= 0 && refilled <= elapsed + interval
    requires (held + granted - first) * interval <= refilled
    ensures (granted - (first + 1)) * interval <= elapsed
  {
    ProductsAdd(held + granted - first, -1, interval);
    ProductsOrdered(granted - (first + 1), held + granted - first - 1, interval);
  }

  lemma RefillIsRecent(r: Bucket, start: int)
    requires r.interval > 0 && 0 <= r.tokens <= r.maxTokens && r.lastRefill <= start
    ensures 0 <= start - Refilled(r, start).lastRefill < r.interval
    ensures 0 <= Refilled(r, start).tokens <= r.maxTokens
  {
    if start - r.lastRefill >= r.interval {
      AtMostTheQuotient(1, start - r.lastRefill, r.interval);
    }
  }

  /** Refilling at the first reading before the run changes nothing. */
  lemma {:induction false} RefillFirst(b: Bucket, start: int, later: seq<int>)
    requires b.interval > 0
    ensures After(b, [start] + later) == After(Refilled(b, start), [start] + later)
    ensures Grants(b, [start] + later) == Grants(Refilled(b, start), [start] + later)
    decreases |later|
  {
    var all := [start] + later;
    if later == [] {
      assert all[..|all| - 1] == [];
      assert Refilled(Refilled(b, start), start) == Refilled(b, start);
    } else {
      assert all[..|all| - 1] == [start] + later[..|later| - 1];
      RefillFirst(b, start, later[..|later| - 1]);
    }
  }

  /** Whoever asks no more often than there are tokens is never refused. */
  lemma {:induction false} HeldTokensAreGranted(b: Bucket, readings: seq<int>)
    requires b.interval > 0 && |readings| <= b.tokens <= b.maxTokens
    ensures Grants(b, readings) == |readings|
    ensures b.tokens - |readings| <= After(b, readings).tokens <= b.maxTokens
    decreases |readings|
  {
    if readings != [] {
      HeldTokensAreGranted(b, readings[..|readings| - 1]);
    }
  }

  /** After k whole intervals in which nobody asked, the next callers get k tokens more than were left, up to the capacity. */
  lemma IdleTimeIsGranted(b: Bucket, k: int, start: int, later: seq<int>)
    requires b.interval > 0 && 0 <= b.tokens <= b.maxTokens && k >= 0
    requires k * b.interval <= start - b.lastRefill < (k + 1) * b.interval
    requires |later| + 1 <= b.maxTokens && |later| + 1 <= b.tokens + k
    ensures Grants(b, [start] + later) == |later| + 1
  {
    RefillFirst(b, start, later);
    RefillAddsOnePerInterval(b, k, start);
    HeldTokensAreGranted(Refilled(b, start), [start] + later);
  }

  /** A bucket of no tokens never grants one. */
  lemma {:induction false} NothingToGrant(maxTokens: int, interval: int, t0: int, readings: seq<int>)
    requires interval > 0 && maxTokens <= 0
    ensures Grants(NewBucket(maxTokens, interval, t0), readings) == 0
    ensures After(NewBucket(maxTokens, interval, t0), readings).tokens <= 0
    decreases |readings|
  {
    if readings != [] {
      NothingToGrant(maxTokens, interval, t0, readings[..|readings| - 1]);
    }
  }

  // ------------------------------------------------------------ single caller

  /** An attempt succeeds exactly when a token is held or a whole interval has gone by; a failed one changes nothing. */
  lemma AttemptSucceeds(b: Bucket, now: int)
    requires b.interval > 0 && b.maxTokens >= 1 && b.tokens >= 0
    ensures Attempt(b, now).granted <==> b.tokens > 0 || now - b.lastRefill >= b.interval
    ensures !Attempt(b, now).granted ==> Attempt(b, now).bucket == b
  {
    if now - b.lastRefill >= b.interval {
      AtMostTheQuotient(1, now - b.lastRefill, b.interval);
    } else if now - b.lastRefill >= 0 {
      assert (now - b.lastRefill) / b.interval == 0;
    } else {
      assert (now - b.lastRefill) / b.interval < 0;
    }
  }

  /** Rounds up. */
  function CeilQuotient(n: nat, d: nat): nat
    requires d > 0
  {
    (n + d - 1) / d
  }

  lemma CeilCovers(retries: nat, pause: int, interval: int)
    requires pause >= 1 && interval >= 0
    requires retries > 0 ==> (retries - 1) * pause < interval
    ensures retries <= CeilQuotient(interval, pause)
  {
    if retries > 0 {
      assert retries * pause == (retries - 1) * pause + pause;
      AtMostTheQuotient(retries, interval + pause - 1, pause);
    }
  }

  /** The bucket after the first n attempts of a waiting call, the k-th of them at reading(k). */
  function Attempted(b: Bucket, reading: nat -> int, n: nat): (r: Bucket)
    requires b.interval > 0
    ensures r.maxTokens == b.maxTokens && r.interval == b.interval
  {
    if n == 0 then b else Attempt(Attempted(b, reading, n - 1), reading(n - 1)).bucket
  }

  function Readings(reading: nat -> int, n: nat): seq<int>
  {
    if n == 0 then [] else Readings(reading, n - 1) + [reading(n - 1)]
  }

  /** Such attempts are a run like any other, so that the bounds above hold of them. */
  lemma {:induction false} AttemptsAreARun(b: Bucket, reading: nat -> int, n: nat)
    requires b.interval > 0
    ensures Attempted(b, reading, n) == After(b, Readings(reading, n))
  {
    if n > 0 {
      AttemptsAreARun(b, reading, n - 1);
      var readings := Readings(reading, n);
      assert readings[..|readings| - 1] == Readings(reading, n - 1);
    }
  }

  /** The k-th attempt of a call that is the bucket's only user finds nothing. */
  predicate Fails(b: Bucket, reading: nat -> int, k: nat)
    requires b.interval > 0
  {
    !Attempt(Attempted(b, reading, k), reading(k)).granted
  }

  /** As long as the attempts of a bucket with some capacity fail, the bucket stays as it was, empty and less than an interval old. */
  lemma {:induction false} FailuresChangeNothing(b: Bucket, reading: nat -> int, n: nat)
    requires b.interval > 0 && b.maxTokens >= 1 && b.tokens >= 0
    requires forall k: nat :: k < n ==> Fails(b, reading, k)
    ensures Attempted(b, reading, n) == b
    ensures n > 0 ==> b.tokens == 0 && reading(n - 1) - b.lastRefill < b.interval
  {
    if n > 0 {
      FailuresChangeNothing(b, reading, n - 1);
      assert Fails(b, reading, n - 1);
      AttemptSucceeds(b, reading(n - 1));
    }
  }

  lemma {:induction false} PausesAddUp(reading: nat -> int, pause: int, n: nat)
    requires forall k: nat :: reading(k + 1) >= reading(k) + pause
    ensures reading(n) >= reading(0) + n * pause
  {
    if n > 0 {
      PausesAddUp(reading, pause, n - 1);
      assert n * pause == (n - 1) * pause + pause;
      assert reading(n - 1 + 1) >= reading(n - 1) + pause;
    }
  }

  /** A single caller that pauses at least `pause` between attempts fails at most ceil(interval / pause) times. */
  lemma FailuresAreBounded(b: Bucket, reading: nat -> int, pause: int, n: nat)
    requires b.interval > 0 && b.maxTokens >= 1 && b.tokens >= 0 && b.lastRefill <= reading(0) && pause >= 1
    requires forall k: nat :: reading(k + 1) >= reading(k) + pause
    requires forall k: nat :: k < n ==> Fails(b, reading, k)
    ensures n <= CeilQuotient(b.interval, pause)
  {
    FailuresChangeNothing(b, reading, n);
    if n > 0 {
      PausesAddUp(reading, pause, n - 1);
    }
    CeilCovers(n, pause, b.interval);
  }

  /** The pauses the two clients make, and what they come to: ceil(interval / (interval div maxTokens)) failures, or one. */
  lemma BothWaitsAreShort(b: Bucket, reading: nat -> int, n: nat)
    requires b.interval > 0 && b.maxTokens >= 1 && b.tokens >= 0 && b.lastRefill <= reading(0)
    requires forall k: nat :: k < n ==> Fails(b, reading, k)
    ensures b.maxTokens <= b.interval && (forall k: nat :: reading(k + 1) >= reading(k) + b.interval / b.maxTokens) ==>
              b.interval / b.maxTokens >= 1 && n <= CeilQuotient(b.interval, b.interval / b.maxTokens)
    ensures (forall k: nat :: reading(k + 1) >= reading(k) + b.interval) ==> n <= 1
  {
    if b.maxTokens <= b.interval && forall k: nat :: reading(k + 1) >= reading(k) + b.interval / b.maxTokens {
      AtMostTheQuotient(1, b.interval, b.maxTokens);
      FailuresAreBounded(b, reading, b.interval / b.maxTokens, n);
    }
    if forall k: nat :: reading(k + 1) >= reading(k) + b.interval {
      FailuresAreBounded(b, reading, b.interval, n);
      OnePauseSuffices(b.interval);
    }
  }

  lemma OnePauseSuffices(d: nat)
    requires d > 0
    ensures CeilQuotient(d, d) == 1
  {
    var q := (d + d - 1) / d;
    assert q * d <= d + d - 1 < (q + 1) * d;
    if q >= 2 { ProductsOrdered(2, q, d); } else if q <= 0 { ProductsOrdered(q + 1, 1, d); }
  }

  /** A wait ends by the attempt `enough` at the latest: the context is done then, or a whole interval has gone by. */
  ghost predicate Ends(b: Bucket, reading: nat -> int, done: nat -> bool, enough: nat)
  {
    done(enough) || (b.maxTokens >= 1 && b.tokens >= 0 && reading(enough) - b.lastRefill >= b.interval)
  }

  datatype WaitResult = Granted | Cancelled | Panicked

  /** Sportradar's bucket. */
  class PollingLimiter {
    var tokens: int
    const maxTokens: int
    const interval: int
    var lastRefill: int

    constructor (maxTokens: int, interval: int, now: int)
      ensures this.maxTokens == maxTokens && this.interval == interval
      ensures Contents() == NewBucket(maxTokens, interval, now)
    {
      this.maxTokens, this.interval := maxTokens, interval;
      tokens, lastRefill := maxTokens, now;
    }

    function Contents(): Bucket
      reads this
    {
      Bucket(tokens, maxTokens, interval, lastRefill)
    }

    method TryConsume(now: int) returns (granted: bool)
      requires interval > 0
      modifies this
      ensures Outcome(Contents(), granted) == Attempt(old(Contents()), now)
    {
      var elapsed := now - lastRefill;
      var tokensToAdd := elapsed / interval;
      if tokensToAdd > 0 {
        tokens := Min(maxTokens, tokens + tokensToAdd);
        lastRefill := now;
      }
      if tokens > 0 {
        tokens := tokens - 1;
        return true;
      }
      return false;
    }

    /**
     * Waits until a token is available or the context is done. `reading(k)` is the clock at the k-th attempt and
     * `done(k)` whether the context ends before the attempt after it. With no other caller it leaves what its attempts
     * leave one after the other. The pause is interval / maxTokens, which panics at a capacity of zero.
     */
    method Wait(reading: nat -> int, done: nat -> bool, ghost enough: nat) returns (result: WaitResult, retries: nat)
      requires interval > 0 && Ends(Contents(), reading, done, enough)
      modifies this
      ensures retries <= enough
      ensures Contents() == Attempted(old(Contents()), reading, retries + 1)
      ensures result == Granted <==> !Fails(old(Contents()), reading, retries)
      ensures result == Panicked <==> maxTokens == 0 && Fails(old(Contents()), reading, retries)
      ensures result == Cancelled ==> done(retries)
      ensures forall k: nat :: k < retries ==> !done(k) && Fails(old(Contents()), reading, k)
    {
      ghost var b := Contents();
      retries := 0;
      while true
        invariant retries <= enough && Contents() == Attempted(b, reading, retries)
        invariant forall k: nat :: k < retries ==> !done(k) && Fails(b, reading, k)
        decreases enough - retries
      {
        if b.maxTokens >= 1 && b.tokens >= 0 {
          FailuresChangeNothing(b, reading, retries);
          AttemptSucceeds(b, reading(retries));
        }
        var granted := TryConsume(reading(retries));
        if granted {
          return Granted, retries;
        }
        if maxTokens == 0 {
          return Panicked, retries;
        }
        if done(retries) {
          return Cancelled, retries;
        }
        retries := retries + 1;
      }
    }
  }

  /** Africa's Talking's bucket: the same refill written with a comparison of the elapsed time, and a longer pause. */
  class SleepingLimiter {
    var tokens: int
    const maxTokens: int
    const interval: int
    var lastRefill: int

    constructor (maxTokens: int, interval: int, now: int)
      ensures this.maxTokens == maxTokens && this.interval == interval
      ensures Contents() == NewBucket(maxTokens, interval, now)
    {
      this.maxTokens, this.interval := maxTokens, interval;
      tokens, lastRefill := maxTokens, now;
    }

    function Contents(): Bucket
      reads this
    {
      Bucket(tokens, maxTokens, interval, lastRefill)
    }

    method Refill(now: int)
      requires interval > 0
      modifies this
      ensures Contents() == Refilled(old(Contents()), now)
    {
      var elapsed := now - lastRefill;
      if elapsed >= interval {
        AtMostTheQuotient(1, elapsed, interval);
        var tokensToAdd := elapsed / interval;
        tokens := tokens + tokensToAdd;
        if tokens > maxTokens {
          tokens := maxTokens;
        }
        lastRefill := now;
      } else if elapsed >= 0 {
        assert elapsed / interval == 0;
      } else {
        assert elapsed / interval < 0;
      }
    }

    /** The same wait written as a loop around the refill. */
    method Wait(reading: nat -> int, done: nat -> bool, ghost enough: nat) returns (result: WaitResult, retries: nat)
      requires interval > 0 && Ends(Contents(), reading, done, enough)
      modifies this
      ensures retries <= enough
      ensures Contents() == Attempted(old(Contents()), reading, retries + 1)
      ensures result == Granted <==> !Fails(old(Contents()), reading, retries)
      ensures result == Cancelled <==> Fails(old(Contents()), reading, retries)
      ensures result == Cancelled ==> done(retries)
      ensures forall k: nat :: k < retries ==> !done(k) && Fails(old(Contents()), reading, k)
    {
      ghost var b := Contents();
      retries := 0;
      RefillOutcome(b, reading, done, enough, 0);
      Refill(reading(0));
      while tokens <= 0
        invariant retries <= enough && RefillGave(b, reading, done, enough, retries, Contents())
        invariant forall k: nat :: k < retries ==> !done(k) && Fails(b, reading, k)
        decreases enough - retries
      {
        if done(retries) {
          return Cancelled, retries;
        }
        RefillOutcome(b, reading, done, enough, retries + 1);
        Refill(reading(retries + 1));
        retries := retries + 1;
      }
      tokens := tokens - 1;
      return Granted, retries;
    }
  }

  /** The bucket after the k-th refill: the k-th attempt's own if it failed, one token more than that if it did not. */
  ghost predicate RefillGave(b: Bucket, reading: nat -> int, done: nat -> bool, enough: nat, k: nat, found: Bucket)
    requires b.interval > 0
  {
    if found.tokens <= 0 then
      Fails(b, reading, k) && Attempted(b, reading, k + 1) == found && (!done(k) ==> k < enough)
    else
      !Fails(b, reading, k) && Attempted(b, reading, k + 1) == found.(tokens := found.tokens - 1)
  }

  lemma RefillOutcome(b: Bucket, reading: nat -> int, done: nat -> bool, enough: nat, k: nat)
    requires b.interval > 0 && Ends(b, reading, done, enough) && k <= enough
    requires forall j: nat :: j < k ==> Fails(b, reading, j)
    ensures RefillGave(b, reading, done, enough, k, Refilled(Attempted(b, reading, k), reading(k)))
  {
    if b.maxTokens >= 1 && b.tokens >= 0 {
      FailuresChangeNothing(b, reading, k);
      AttemptSucceeds(b, reading(k));
    }
  }
}
