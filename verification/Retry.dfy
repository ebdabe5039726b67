/**
 Errors (src/error.cpp) and the delay between retries (src/retry.cpp). Doubles are reals;
 the random factor of a delay is an input.
 */
module Retry {
  import opened Wrappers

  datatype ErrorCode =
    | Transport | Timeout | Cancelled | InvalidArgument | Unauthenticated | NotFound | RateLimited
    | Server | Http | Parse | Blocked | Config | Io

  // retryAfter is the server's hint in milliseconds.
  datatype Error = Error(code: ErrorCode, message: string, retryAfter: Option<int>) {
    predicate Retryable() {
      code.Transport? || code.Timeout? || code.RateLimited? || code.Server?
    }
  }

  // Backoffs are in milliseconds.
  datatype RetryPolicy = RetryPolicy(
    maxAttempts: int,
    initialBackoff: int,
    maxBackoff: int,
    multiplier: real,
    jitter: real)
  {
    ghost predicate NonNegative() {
      initialBackoff >= 0 && maxBackoff >= 0 && multiplier >= 0.0 && jitter >= 0.0
    }

    // What the random distribution may give, if it is used: its interval is open above.
    predicate MayDraw(factor: real) {
      jitter > 0.0 ==> 1.0 - jitter <= factor < 1.0 + jitter
    }
  }

  function Power(x: real, n: nat): real {
    if n == 0 then 1.0 else x * Power(x, n - 1)
  }

  // Exponential growth.
  function Grown(p: RetryPolicy, retry: nat): real {
    p.initialBackoff as real * Power(p.multiplier, retry)
  }

  // The same, up to max_backoff.
  function Capped(p: RetryPolicy, retry: nat): real {
    var base := Grown(p, retry);
    if base < p.maxBackoff as real then base else p.maxBackoff as real
  }

  // Jitter.
  function Scaled(x: real, factor: real, jitter: real): real {
    if jitter > 0.0 then x * factor else x
  }

  // The delay before retry number `retry`, in real milliseconds before truncation.
  function Backoff(p: RetryPolicy, retry: nat, factor: real): real {
    Scaled(Capped(p, retry), factor, p.jitter)
  }

  function DelayFor(p: RetryPolicy, retry: nat, error: Error, factor: real): int {
    if error.retryAfter.Some? then
      if error.retryAfter.value < p.maxBackoff then error.retryAfter.value else p.maxBackoff
    else
      var delay := Backoff(p, retry, factor);
      (if delay < 0.0 then 0.0 else delay).Floor
  }

  // The most that a delay can be.
  function MaxDelay(p: RetryPolicy): real {
    p.maxBackoff as real * (1.0 + p.jitter)
  }

  lemma TimesGrows(x: real, f: real, g: real)
    requires 0.0 <= x && f <= g
    ensures x * f <= x * g && f * x <= g * x
  {
  }

  lemma TimesGrowsStrictly(x: real, f: real, g: real)
    requires 0.0 < x && f < g
    ensures x * f < x * g
  {
  }

  lemma FloorBelow(x: real, n: int)
    requires x < n as real + 1.0
    ensures x.Floor <= n
  {
  }

  lemma {:induction false} PowerNonNegative(x: real, n: nat)
    requires x >= 0.0
    ensures Power(x, n) >= 0.0
  {
    if n > 0 {
      PowerNonNegative(x, n - 1);
    }
  }

  lemma CappedInRange(p: RetryPolicy, retry: nat)
    requires p.NonNegative()
    ensures 0.0 <= Capped(p, retry) <= p.maxBackoff as real
  {
    PowerNonNegative(p.multiplier, retry);
    TimesGrows(Power(p.multiplier, retry), 0.0, p.initialBackoff as real);
  }

  lemma ScaledBound(x: real, factor: real, jitter: real, cap: real)
    requires 0.0 <= x <= cap && 0.0 <= jitter && (jitter > 0.0 ==> factor <= 1.0 + jitter)
    ensures Scaled(x, factor, jitter) <= Scaled(x, 1.0 + jitter, jitter) <= cap * (1.0 + jitter)
    ensures cap <= cap * (1.0 + jitter)
  {
  }

  /** No delay exceeds max_backoff scaled by the largest random factor; a delay that the server
      asked for, and any delay without jitter, does not exceed max_backoff itself. */
  lemma DelayBound(p: RetryPolicy, retry: nat, error: Error, factor: real)
    requires p.NonNegative() && p.MayDraw(factor)
    ensures DelayFor(p, retry, error, factor) as real <= MaxDelay(p)
    ensures error.retryAfter.Some? || p.jitter == 0.0 ==> DelayFor(p, retry, error, factor) <= p.maxBackoff
  {
    CappedInRange(p, retry);
    ScaledBound(Capped(p, retry), factor, p.jitter, p.maxBackoff as real);
  }

  /** The random factor comes after the cap: every computed delay stays within max_backoff, whatever is
      drawn, if and only if scaling by the least number that is not drawn gives at most one more. */
  lemma CappedIffScaledIsCapped(p: RetryPolicy, retry: nat, error: Error)
    requires p.NonNegative() && error.retryAfter.None?
    ensures (forall factor :: p.MayDraw(factor) ==> DelayFor(p, retry, error, factor) <= p.maxBackoff)
       <==> Backoff(p, retry, 1.0 + p.jitter) <= p.maxBackoff as real + 1.0
  {
    CappedInRange(p, retry);
    var x, cap := Capped(p, retry), p.maxBackoff;
    if Backoff(p, retry, 1.0 + p.jitter) <= cap as real + 1.0 {
      forall factor | p.MayDraw(factor)
        ensures DelayFor(p, retry, error, factor) <= cap
      {
        DrawnBelow(x, factor, p.jitter, cap as real);
        var delay := Backoff(p, retry, factor);
        FloorBelow(if delay < 0.0 then 0.0 else delay, cap);
      }
    } else {
      var factor := TooLarge(x, p.jitter, cap as real);
      assert p.MayDraw(factor) && DelayFor(p, retry, error, factor) > cap;
    }
  }

  lemma DrawnBelow(x: real, factor: real, jitter: real, cap: real)
    requires 0.0 <= x <= cap && 0.0 <= jitter && Scaled(x, 1.0 + jitter, jitter) <= cap + 1.0
    requires jitter > 0.0 ==> factor < 1.0 + jitter
    ensures Scaled(x, factor, jitter) < cap + 1.0
  {
    if jitter > 0.0 {
      if x > 0.0 {
        TimesGrowsStrictly(x, factor, 1.0 + jitter);
      } else {
        assert x * factor == 0.0;
      }
    }
  }

  // A number that can be drawn and takes the delay past the cap.
  lemma TooLarge(x: real, jitter: real, cap: real) returns (factor: real)
    requires 0.0 <= x <= cap && 0.0 <= jitter && Scaled(x, 1.0 + jitter, jitter) > cap + 1.0
    ensures jitter > 0.0 && 1.0 - jitter <= factor < 1.0 + jitter && Scaled(x, factor, jitter) >= cap + 1.0
  {
    assert jitter > 0.0 && x > 0.0;
    var least := (cap + 1.0) / x;
    assert x * least == cap + 1.0;
    if least >= 1.0 + jitter {
      TimesGrows(x, 1.0 + jitter, least);
    }
    factor := if least < 1.0 - jitter then 1.0 - jitter else least;
    TimesGrows(x, least, factor);
  }

  /** A delay beyond max_backoff: one second, up to half more or less, and a quarter more drawn. */
  lemma DelayCanExceedCap()
    ensures var p := RetryPolicy(3, 1_000, 1_000, 2.0, 0.5);
      && p.NonNegative() && p.MayDraw(1.25)
      && DelayFor(p, 0, Error(Server, "", None), 1.25) == 1_250 > p.maxBackoff
  {
    var p := RetryPolicy(3, 1_000, 1_000, 2.0, 0.5);
    assert Power(2.0, 0) == 1.0;
    assert Capped(p, 0) == 1_000.0;
    assert Backoff(p, 0, 1.25) == 1_250.0;
  }

  /** A server's hint is taken up to max_backoff, whatever else the policy says. */
  lemma HintIsTaken(p: RetryPolicy, retry: nat, error: Error, factor: real, hint: int)
    requires error.retryAfter == Some(hint)
    ensures var d := DelayFor(p, retry, error, factor);
      d <= hint && d <= p.maxBackoff && (d == hint || d == p.maxBackoff)
  {
  }

  function AtMost(x: real, most: real): real {
    if x > most then most else x
  }

  lemma CapStep(base: real, next: real, m: real, most: real, c: real)
    requires base >= 0.0 && next == m * base && m >= 1.0 && most >= 0.0 && c == AtMost(base, most)
    ensures AtMost(next, most) == AtMost(m * c, most)
  {
    TimesGrows(base, 1.0, m);
    TimesGrows(most, 1.0, m);
  }

  lemma Regroup(x: real, m: real, y: real, g: real, next: real)
    requires g == x * y && next == x * (m * y)
    ensures next == m * g
  {
  }

  lemma GrownStep(p: RetryPolicy, retry: nat)
    ensures retry == 0 ==> Grown(p, retry) == p.initialBackoff as real
    ensures retry > 0 ==> Grown(p, retry) == p.multiplier * Grown(p, retry - 1)
  {
    if retry > 0 {
      var x, y := p.initialBackoff as real, Power(p.multiplier, retry - 1);
      Regroup(x, p.multiplier, y, Grown(p, retry - 1), Grown(p, retry));
      hide Power, Grown;
    }
  }

  lemma GrownNonNegative(p: RetryPolicy, retry: nat)
    requires p.NonNegative()
    ensures Grown(p, retry) >= 0.0
  {
    PowerNonNegative(p.multiplier, retry);
    TimesGrows(p.initialBackoff as real, 0.0, Power(p.multiplier, retry));
  }

  lemma CappedIs(p: RetryPolicy, retry: nat)
    ensures Capped(p, retry) == AtMost(Grown(p, retry), p.maxBackoff as real)
    ensures Capped(p.(jitter := 0.0), retry) == Capped(p, retry)
  {
  }

  lemma CappedGrows(p: RetryPolicy, retry: nat, before: real)
    requires p.NonNegative() && p.multiplier >= 1.0 && (retry > 0 ==> before == Capped(p, retry - 1))
    ensures var most := p.maxBackoff as real;
      Capped(p, retry) ==
      if retry == 0 then AtMost(p.initialBackoff as real, most) else AtMost(p.multiplier * before, most)
  {
    hide Capped, Grown;
    CappedIs(p, retry);
    GrownStep(p, retry);
    if retry > 0 {
      CappedIs(p, retry - 1);
      GrownNonNegative(p, retry - 1);
      CapStep(Grown(p, retry - 1), Grown(p, retry), p.multiplier, p.maxBackoff as real, before);
    }
  }

  /** Without a hint and without jitter the first delay is the initial one and each later one is the
      multiplier times the one before, all up to max_backoff and in whole milliseconds. Jitter multiplies the
      result by what is drawn. */
  lemma DelaysGrow(p: RetryPolicy, retry: nat, error: Error, factor: real)
    requires p.NonNegative() && p.multiplier >= 1.0 && error.retryAfter.None? && factor >= 0.0
    ensures var most, plain := p.maxBackoff as real, p.(jitter := 0.0);
      var x := Backoff(plain, retry, factor);
      && x == (if retry == 0 then AtMost(p.initialBackoff as real, most)
               else AtMost(p.multiplier * Backoff(plain, retry - 1, factor), most))
      && DelayFor(p, retry, error, factor) == (if p.jitter > 0.0 then x * factor else x).Floor
  {
    hide Capped, DelayFor, Backoff;
    PlainBackoff(p, retry, factor);
    DelayIs(p, retry, error, factor);
    if retry > 0 {
      PlainBackoff(p, retry - 1, factor);
      CappedGrows(p, retry, Backoff(p.(jitter := 0.0), retry - 1, factor));
    } else {
      CappedGrows(p, retry, 0.0);
    }
  }

  /** With jitter of at most one the delays spread between two bounds, of which the lower is reached. */
  lemma DelaysSpread(p: RetryPolicy, retry: nat, error: Error, factor: real, low: real, high: real)
    requires p.NonNegative() && 0.0 < p.jitter <= 1.0 && error.retryAfter.None?
    requires low == 1.0 - p.jitter && high == 1.0 + p.jitter
    ensures var x, d := Capped(p, retry), DelayFor(p, retry, error, factor);
      && p.MayDraw(low) && DelayFor(p, retry, error, low) == (x * low).Floor
      && (p.MayDraw(factor) ==> (x * low).Floor <= d <= (x * high).Floor)
  {
    hide Capped;
    var x := Capped(p, retry);
    CappedInRange(p, retry);
    DrawnDelay(p, retry, error, low, x);
    if p.MayDraw(factor) {
      DrawnDelay(p, retry, error, factor, x);
      hide DelayFor;
      TimesFloors(x, low, factor);
      TimesFloors(x, factor, high);
    }
  }

  lemma DrawnDelay(p: RetryPolicy, retry: nat, error: Error, factor: real, x: real)
    requires p.NonNegative() && p.jitter > 0.0 && error.retryAfter.None? && factor >= 0.0 && x == Capped(p, retry)
    ensures DelayFor(p, retry, error, factor) == (x * factor).Floor
  {
    hide Capped;
    CappedInRange(p, retry);
    ScaledIs(x, factor, p.jitter);
  }

  lemma TimesFloors(x: real, f: real, g: real)
    requires 0.0 <= x && f <= g
    ensures (x * f).Floor <= (x * g).Floor
  {
    TimesGrows(x, f, g);
  }

  lemma PlainBackoff(p: RetryPolicy, retry: nat, factor: real)
    ensures Backoff(p.(jitter := 0.0), retry, factor) == Capped(p, retry)
  {
    CappedIs(p, retry);
  }

  lemma DelayIs(p: RetryPolicy, retry: nat, error: Error, factor: real)
    requires p.NonNegative() && error.retryAfter.None? && factor >= 0.0
    ensures var x := Capped(p, retry);
      DelayFor(p, retry, error, factor) == (if p.jitter > 0.0 then x * factor else x).Floor
  {
    hide Capped, Scaled;
    CappedInRange(p, retry);
    ScaledIs(Capped(p, retry), factor, p.jitter);
  }

  lemma ScaledIs(x: real, factor: real, jitter: real)
    ensures Scaled(x, factor, jitter) == if jitter > 0.0 then x * factor else x
    ensures x >= 0.0 && factor >= 0.0 ==> x * factor >= 0.0
  {
  }

  function Sum(delays: seq<int>): int {
    if delays == [] then 0 else delays[0] + Sum(delays[1..])
  }

  // All delays together are at most `most` for each of them.
  predicate AtMostEach(delays: seq<int>, most: real) {
    Sum(delays) as real <= |delays| as real * most
  }

  lemma {:induction false} SumAtMost(delays: seq<int>, most: real)
    requires forall i :: 0 <= i < |delays| ==> delays[i] as real <= most
    ensures AtMostEach(delays, most)
  {
    if delays != [] {
      SumAtMost(delays[1..], most);
      OneMoreTime(|delays[1..]| as real, most);
    }
  }

  lemma OneMoreTime(n: real, x: real)
    ensures (n + 1.0) * x == n * x + x
  {
  }
}
