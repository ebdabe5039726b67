/**
 Token buckets over exact numbers: what refilling, acquiring and waiting do to a bucket, and what
 holds over whole runs. Times are nanoseconds on a clock that may also go backwards.
 */
module TokenBuckets {

  const SECOND := 1_000_000_000.0

  datatype Bucket = Bucket(rate: real, burst: real, tokens: real, last: int)

  function Min(a: real, b: real): real {
    if b < a then b else a
  }

  function Latest(a: int, b: int): int {
    if a < b then b else a
  }

  // The tokens that an idle time brings.
  function Earned(rate: real, ns: int): real {
    ns as real / SECOND * rate
  }

  function Refilled(b: Bucket, now: int): Bucket {
    if now <= b.last then b
    else b.(tokens := Min(b.burst, b.tokens + Earned(b.rate, now - b.last)), last := now)
  }

  predicate Grants(b: Bucket, n: real) {
    n <= b.tokens
  }

  // Would a request be granted this long after the bucket's time?
  predicate GrantsAfter(b: Bucket, ns: int, n: real) {
    Grants(Refilled(b, b.last + ns), n)
  }

  // What try_acquire leaves of a refilled bucket.
  function Taken(b: Bucket, n: real): Bucket {
    if Grants(b, n) then b.(tokens := b.tokens - n) else b
  }

  // The least whole number at or above x.
  function Ceiling(x: real): (c: int)
    ensures c as real - 1.0 < x <= c as real
  {
    -((-x).Floor)
  }

  // The nanoseconds in which so many tokens are earned, rounded up.
  function Shortfall(missing: real, rate: real): int
    requires rate > 0.0
  {
    Ceiling(missing / rate * SECOND)
  }

  datatype Wait = Nanoseconds(ns: int) | Never

  // What time_until_available returns for a refilled bucket.
  function Until(b: Bucket, n: real): Wait {
    if n <= b.tokens then Nanoseconds(0)
    else if n > b.burst || b.rate <= 0.0 then Never
    else Nanoseconds(Shortfall(n - b.tokens, b.rate))
  }

  datatype Call = Acquire(now: int, n: real) | Look(now: int)

  datatype Outcome = Outcome(bucket: Bucket, granted: real)

  // A run of calls, and the tokens it grants. `available` and `time_until_available` only look.
  function Run(b: Bucket, calls: seq<Call>): Outcome {
    if calls == [] then Outcome(b, 0.0)
    else
      var before := Run(b, calls[..|calls| - 1]);
      var call := calls[|calls| - 1];
      var r := Refilled(before.bucket, call.now);
      if call.Acquire? then Outcome(Taken(r, call.n), before.granted + if Grants(r, call.n) then call.n else 0.0)
      else Outcome(r, before.granted)
  }

  // The largest time seen, starting from a given one.
  function LatestOf(from: int, calls: seq<Call>): int {
    if calls == [] then from else Latest(LatestOf(from, calls[..|calls| - 1]), calls[|calls| - 1].now)
  }

  // Nothing is requested or refilled in the negative.
  predicate Sane(b: Bucket, calls: seq<Call>) {
    && 0.0 <= b.rate && 0.0 <= b.tokens <= b.burst
    && forall i :: 0 <= i < |calls| && calls[i].Acquire? ==> calls[i].n >= 0.0
  }

  lemma EarnedAdds(rate: real, a: int, b: int)
    ensures Earned(rate, a + b) == Earned(rate, a) + Earned(rate, b)
  {
  }

  lemma EarnedGrows(rate: real, a: int)
    requires a >= 0
    ensures rate >= 0.0 ==> Earned(rate, a) >= 0.0
    ensures rate <= 0.0 ==> Earned(rate, a) <= 0.0
  {
  }

  /** In a thousand million nanoseconds a bucket earns its rate, and in any other time in proportion, up to
      the burst. */
  lemma RateIsPerSecond(b: Bucket, ns: nat)
    requires ns > 0
    ensures var t, earned := Refilled(b, b.last + ns).tokens, ns as real * b.rate;
      && t <= b.burst
      && (1_000_000_000.0 * (t - b.tokens) == earned ||
          (t == b.burst && 1_000_000_000.0 * (b.burst - b.tokens) < earned))
  {
    var x := Earned(b.rate, ns);
    EarnedIs(b.rate, ns as real, x);
    if b.tokens + x > b.burst {
      LessTimes(b.burst - b.tokens, x);
    }
  }

  lemma EarnedIs(rate: real, ns: real, x: real)
    requires x == ns / SECOND * rate
    ensures 1_000_000_000.0 * x == ns * rate
  {
  }

  lemma LessTimes(a: real, b: real)
    requires a < b
    ensures 1_000_000_000.0 * a < 1_000_000_000.0 * b
  {
  }

  /** Many refills add up to one: only the latest time counts. */
  lemma RefillsAddUp(b: Bucket, t: int, u: int)
    requires b.rate >= 0.0
    ensures Refilled(Refilled(b, t), u) == Refilled(b, Latest(t, u))
  {
  }

  /** However often a bucket is looked at meanwhile, at whatever times, it ends up as if refilled once. */
  lemma {:induction false} LookingChangesNothing(b: Bucket, calls: seq<Call>)
    requires b.rate >= 0.0 && forall i :: 0 <= i < |calls| ==> calls[i].Look?
    ensures Run(b, calls) == Outcome(Refilled(b, LatestOf(b.last, calls)), 0.0)
  {
    if calls != [] {
      LookingChangesNothing(b, calls[..|calls| - 1]);
      RefillsAddUp(b, LatestOf(b.last, calls[..|calls| - 1]), calls[|calls| - 1].now);
    }
  }

  /** The bucket never goes below empty or above its burst, and remembers the latest time it saw. */
  lemma {:induction false} StaysInRange(b: Bucket, calls: seq<Call>)
    requires Sane(b, calls)
    ensures var c := Run(b, calls).bucket;
      c.rate == b.rate && c.burst == b.burst && 0.0 <= c.tokens <= c.burst && c.last == LatestOf(b.last, calls)
  {
    if calls != [] {
      StaysInRange(b, calls[..|calls| - 1]);
      var c := Run(b, calls[..|calls| - 1]).bucket;
      if calls[|calls| - 1].now > c.last {
        EarnedGrows(b.rate, calls[|calls| - 1].now - c.last);
      }
    }
  }

  /**
   Over any run, from any state on, the tokens granted and those left are at most those there were
   and those earned by the time that passed on the clock.
   */
  lemma {:induction false} GrantsAreEarned(b: Bucket, calls: seq<Call>)
    requires Sane(b, calls)
    ensures var r := Run(b, calls);
      r.granted + r.bucket.tokens <= b.tokens + Earned(b.rate, LatestOf(b.last, calls) - b.last)
  {
    if calls != [] {
      var before, now := calls[..|calls| - 1], calls[|calls| - 1].now;
      GrantsAreEarned(b, before);
      StaysInRange(b, before);
      var c := Run(b, before).bucket;
      if now > c.last {
        EarnedAdds(b.rate, c.last - b.last, now - c.last);
      }
    }
  }

  /** A bucket that starts full grants at most its burst and the rate times the largest time seen. */
  lemma RateBound(rate: real, burst: real, start: int, calls: seq<Call>)
    requires Sane(Bucket(rate, burst, burst, start), calls)
    ensures Run(Bucket(rate, burst, burst, start), calls).granted
         <= burst + Earned(rate, LatestOf(start, calls) - start)
  {
    GrantsAreEarned(Bucket(rate, burst, burst, start), calls);
    StaysInRange(Bucket(rate, burst, burst, start), calls);
  }

  lemma OneMore(b: Bucket, calls: seq<Call>, call: Call)
    ensures var before, after := Run(b, calls), Run(b, calls + [call]);
      var r := Refilled(before.bucket, call.now);
      after ==
      if call.Acquire? then Outcome(Taken(r, call.n), before.granted + if Grants(r, call.n) then call.n else 0.0)
      else Outcome(r, before.granted)
  {
    hide Refilled, Taken, Grants;
    assert (calls + [call])[..|calls|] == calls;
  }

  /** A request that is refused is no more than a look at the bucket; one that is granted takes what it asks
      for, and no other call grants anything. */
  lemma AcquireIsAllOrNothing(b: Bucket, calls: seq<Call>, now: int, n: real)
    ensures var look, take := Run(b, calls + [Look(now)]), Run(b, calls + [Acquire(now, n)]);
      && look.granted == Run(b, calls).granted
      && (n > look.bucket.tokens ==> take == look)
      && (n <= look.bucket.tokens ==>
            && take.granted == look.granted + n
            && take.bucket == Bucket(b.rate, b.burst, look.bucket.tokens - n, look.bucket.last))
  {
    hide Run;
    OneMore(b, calls, Look(now));
    OneMore(b, calls, Acquire(now, n));
    RunKeepsRate(b, calls);
  }

  lemma {:induction false} RunKeepsRate(b: Bucket, calls: seq<Call>)
    ensures Run(b, calls).bucket.rate == b.rate && Run(b, calls).bucket.burst == b.burst
  {
    if calls != [] {
      RunKeepsRate(b, calls[..|calls| - 1]);
    }
  }

  /** A request for a negative number of tokens can fill the bucket past its burst. */
  lemma NegativeRequestsOverfill(b: Bucket, n: real)
    requires b.tokens <= b.burst && 0.0 <= b.burst
    ensures Taken(b, n).tokens > b.burst <==> n < b.tokens - b.burst
  {
  }

  lemma EnoughIff(tokens: real, rate: real, n: real, m: int)
    requires rate > 0.0 && n > tokens
    ensures tokens + Earned(rate, m) >= n <==> m >= Shortfall(n - tokens, rate)
  {
    var x := (n - tokens) / rate * SECOND;
    assert x / SECOND * rate == n - tokens;
    Scale(m as real, x, rate);
    assert m as real >= x <==> m >= Ceiling(x);
  }

  lemma Scale(a: real, b: real, rate: real)
    requires rate > 0.0
    ensures a / SECOND * rate >= b / SECOND * rate <==> a >= b
  {
  }

  lemma NeverEnough(b: Bucket, n: real, m: int)
    requires n > b.tokens && (n > b.burst || b.rate <= 0.0) && m >= 0
    ensures !GrantsAfter(b, m, n)
  {
  }

  /**
   The wait is the least whole number of nanoseconds after which the request would be granted, and
   it is Never exactly if there is no such number.
   */
  lemma UntilIsLeast(b: Bucket, n: real)
    ensures var w := Until(b, n);
      && (w.Nanoseconds? ==> w.ns >= 0 && GrantsAfter(b, w.ns, n))
      && (forall m :: 0 <= m && (w.Nanoseconds? ==> m < w.ns) ==> !GrantsAfter(b, m, n))
  {
    var w := Until(b, n);
    if n > b.tokens && w.Nanoseconds? {
      assert (n - b.tokens) / b.rate > 0.0;
      EnoughIff(b.tokens, b.rate, n, w.ns);
    }
    forall m | 0 <= m && (w.Nanoseconds? ==> m < w.ns)
      ensures !GrantsAfter(b, m, n)
    {
      if w.Never? {
        NeverEnough(b, n, m);
      } else {
        EnoughIff(b.tokens, b.rate, n, m);
      }
    }
  }
}

/**
 The TokenBucket of tasks/token-bucket/reference.hpp. Each method is given what its one reading of
 the clock returns; the mutex makes each one step.
 */
module RateLimiting {
  import opened TokenBuckets

  class TokenBucket {
    const rate: real
    const burst: real
    var tokens: real
    var last: int
    // Every call so far, and the time of construction.
    ghost const start: int
    ghost var calls: seq<Call>

    function State(): Bucket
      reads this
    {
      Bucket(rate, burst, tokens, last)
    }

    ghost predicate Valid()
      reads this
    {
      State() == Run(Bucket(rate, burst, burst, start), calls).bucket
    }

    constructor (rate: real, burst: real, now: int)
      ensures Valid() && calls == [] && start == now
      ensures State() == Bucket(rate, burst, burst, now)
    {
      this.rate, this.burst := rate, burst;
      tokens, last := burst, now;
      start, calls := now, [];
    }

    method Refill(now: int)
      modifies this`tokens, this`last
      ensures State() == Refilled(old(State()), now)
    {
      if now <= last {
        return;
      }
      var seconds := (now - last) as real / SECOND;
      tokens := Min(burst, tokens + seconds * rate);
      last := now;
    }

    method TryAcquire(n: real, now: int) returns (granted: bool)
      requires Valid()
      modifies this
      ensures Valid() && calls == old(calls) + [Acquire(now, n)]
      ensures granted <==> Grants(Refilled(old(State()), now), n)
      ensures var full := Bucket(rate, burst, burst, start);
        Run(full, calls).granted == Run(full, old(calls)).granted + (if granted then n else 0.0)
    {
      OneMore(Bucket(rate, burst, burst, start), calls, Acquire(now, n));
      calls := calls + [Acquire(now, n)];
      Refill(now);
      if n > tokens {
        return false;
      }
      tokens := tokens - n;
      return true;
    }

    method Available(now: int) returns (n: real)
      requires Valid()
      modifies this
      ensures Valid() && calls == old(calls) + [Look(now)]
      ensures n == tokens && forall m :: m <= n <==> Grants(Refilled(old(State()), now), m)
    {
      OneMore(Bucket(rate, burst, burst, start), calls, Look(now));
      calls := calls + [Look(now)];
      Refill(now);
      n := tokens;
    }

    method TimeUntilAvailable(n: real, now: int) returns (w: Wait)
      requires Valid()
      modifies this
      ensures Valid() && calls == old(calls) + [Look(now)]
      ensures State() == Refilled(old(State()), now)
      ensures w.Nanoseconds? ==> w.ns >= 0 && GrantsAfter(State(), w.ns, n)
      ensures forall m :: 0 <= m && (w.Nanoseconds? ==> m < w.ns) ==> !GrantsAfter(State(), m, n)
    {
      OneMore(Bucket(rate, burst, burst, start), calls, Look(now));
      calls := calls + [Look(now)];
      Refill(now);
      UntilIsLeast(State(), n);
      w := TimeLeft(n);
    }

    // The computation after the refill.
    method TimeLeft(n: real) returns (w: Wait)
      ensures w == Until(State(), n)
    {
      if n <= tokens {
        return Nanoseconds(0);
      }
      if n > burst || rate <= 0.0 {
        return Never;
      }
      w := Nanoseconds(Shortfall(n - tokens, rate));
    }
  }
}
