/** The token bucket of the HTTP connector, with time and tokens as real numbers. */
module RateLimit {

  /** One caller after another: the clock when `Wait` is entered, and when its sleep is over. */
  datatype Call = Call(now: real, wokeAt: real)

  datatype Bucket = Bucket(tokens: real, lastRefill: real)

  function Rate(maxRPM: nat): real {
    maxRPM as real / 60.0
  }

  function Least(a: real, b: real): real {
    if a < b then a else b
  }

  function Refilled(maxRPM: nat, b: Bucket, now: real): real {
    Least(b.tokens + (now - b.lastRefill) * Rate(maxRPM), maxRPM as real)
  }

  predicate MustWait(maxRPM: nat, b: Bucket, now: real) {
    Refilled(maxRPM, b, now) < 1.0
  }

  function WaitTime(maxRPM: nat, b: Bucket, now: real): real
    requires maxRPM > 0
  {
    (1.0 - Refilled(maxRPM, b, now)) / Rate(maxRPM)
  }

  /** The clock does not run backwards and a sleep lasts at least as long as asked. */
  predicate ClockIsFair(maxRPM: nat, b: Bucket, c: Call)
    requires maxRPM > 0
  {
    b.lastRefill <= c.now && (MustWait(maxRPM, b, c.now) ==> c.wokeAt >= c.now + WaitTime(maxRPM, b, c.now))
  }

  /** When the call is let through. */
  function AdmittedAt(maxRPM: nat, b: Bucket, c: Call): real {
    if MustWait(maxRPM, b, c.now) then c.wokeAt else c.now
  }

  function Admit(maxRPM: nat, b: Bucket, c: Call): Bucket {
    if MustWait(maxRPM, b, c.now) then Bucket(-1.0, c.wokeAt) else Bucket(Refilled(maxRPM, b, c.now) - 1.0, c.now)
  }

  class RateLimiter {
    var tokens: real
    var lastRefill: real
    const maxRPM: nat
    const refillRate: real

    ghost predicate Valid()
      reads this
    {
      maxRPM > 0 && refillRate == Rate(maxRPM)
    }

    ghost function State(): Bucket
      reads this
    {
      Bucket(tokens, lastRefill)
    }

    constructor (maxRPM: int, now: real)
      ensures Valid() && this.maxRPM == (if maxRPM <= 0 then 60 else maxRPM)
      ensures State() == Bucket(this.maxRPM as real, now)
    {
      var limit := if maxRPM <= 0 then 60 else maxRPM;
      this.maxRPM := limit;
      tokens := limit as real;
      lastRefill := now;
      refillRate := limit as real / 60.0;
    }

    /** The two clock readings are parameters; the result is the time of admission. */
    method Wait(now: real, wokeAt: real) returns (admitted: real)
      requires Valid() && ClockIsFair(maxRPM, State(), Call(now, wokeAt))
      modifies this
      ensures State() == Admit(maxRPM, old(State()), Call(now, wokeAt))
      ensures admitted == AdmittedAt(maxRPM, old(State()), Call(now, wokeAt))
      ensures lastRefill == admitted >= now
      ensures var earned := old(tokens) + (now - old(lastRefill)) * (maxRPM as real / 60.0);
              var held := if earned > maxRPM as real then maxRPM as real else earned;
              if held < 1.0 then tokens == -1.0 && admitted == wokeAt else tokens == held - 1.0 && admitted == now
    {
      var elapsed := now - lastRefill;
      tokens := tokens + elapsed * refillRate;
      if tokens > maxRPM as real {
        tokens := maxRPM as real;
      }
      lastRefill := now;
      admitted := now;
      if tokens < 1.0 {
        var waitTime := (1.0 - tokens) / refillRate;
        assert waitTime >= 0.0;
        lastRefill := now + waitTime;
        tokens := 0.0;
        lastRefill := wokeAt;
        tokens := 0.0;
        admitted := wokeAt;
      }
      tokens := tokens - 1.0;
    }
  }

  // ---- runs of calls ----

  function After(maxRPM: nat, start: Bucket, calls: seq<Call>): Bucket {
    if calls == [] then start else Admit(maxRPM, After(maxRPM, start, calls[..|calls| - 1]), calls[|calls| - 1])
  }

  predicate Fair(maxRPM: nat, start: Bucket, calls: seq<Call>)
    requires maxRPM > 0
  {
    forall k :: 0 <= k < |calls| ==> ClockIsFair(maxRPM, After(maxRPM, start, calls[..k]), calls[k])
  }

  /** The time at which the k-th call is let through. */
  function Time(maxRPM: nat, start: Bucket, calls: seq<Call>, k: nat): real
    requires k < |calls|
  {
    AdmittedAt(maxRPM, After(maxRPM, start, calls[..k]), calls[k])
  }

  /** Tokens left, a debt counting as none. */
  function Credit(b: Bucket): real {
    if b.tokens < 0.0 then 0.0 else b.tokens
  }

  lemma WaitPays(maxRPM: nat, b: Bucket, c: Call)
    requires maxRPM > 0 && ClockIsFair(maxRPM, b, c) && MustWait(maxRPM, b, c.now)
    ensures Earned(maxRPM, b.lastRefill, c.wokeAt) >= 1.0 - b.tokens
  {
    var rate, tokens := Rate(maxRPM), Refilled(maxRPM, b, c.now);
    assert WaitTime(maxRPM, b, c.now) * rate == 1.0 - tokens;
    Scale(c.wokeAt - c.now, WaitTime(maxRPM, b, c.now), rate);
    EarnedAddsUp(maxRPM, b.lastRefill, c.now, c.wokeAt);
  }

  lemma Scale(a: real, b: real, rate: real)
    requires a >= b && rate >= 0.0
    ensures a * rate >= b * rate
  {
  }

  /** One admission costs one token of what the time since the last one has earned. */
  lemma AdmissionCosts(maxRPM: nat, b: Bucket, c: Call)
    requires maxRPM > 0 && ClockIsFair(maxRPM, b, c)
    ensures var after := Admit(maxRPM, b, c);
            && after.lastRefill == AdmittedAt(maxRPM, b, c) >= b.lastRefill
            && Credit(after) <= Credit(b) + Earned(maxRPM, b.lastRefill, after.lastRefill) - 1.0
            && Credit(after) <= maxRPM as real - 1.0
  {
    var after := Admit(maxRPM, b, c);
    if MustWait(maxRPM, b, c.now) {
      WaitPays(maxRPM, b, c);
      WaitsForward(maxRPM, b, c);
    }
  }

  lemma WaitsForward(maxRPM: nat, b: Bucket, c: Call)
    requires maxRPM > 0 && ClockIsFair(maxRPM, b, c) && MustWait(maxRPM, b, c.now)
    ensures c.wokeAt >= b.lastRefill
  {
    assert WaitTime(maxRPM, b, c.now) >= 0.0;
  }

  function Earned(maxRPM: nat, from: real, to: real): real {
    (to - from) * Rate(maxRPM)
  }

  /** Tokens and seconds: a token takes 60 / maxRPM seconds to earn. */
  lemma TokensAreSeconds(maxRPM: nat, from: real, to: real, tokens: real)
    requires maxRPM > 0
    ensures Earned(maxRPM, from, to) >= tokens <==> to - from >= 60.0 * tokens / maxRPM as real
    ensures Earned(maxRPM, from, to) <= tokens <==> to - from <= 60.0 * tokens / maxRPM as real
  {
    var rpm, seconds := maxRPM as real, 60.0 * tokens / maxRPM as real;
    assert seconds * rpm == 60.0 * tokens;
    Ordered(to - from, seconds, rpm);
    assert Earned(maxRPM, from, to) * 60.0 == (to - from) * rpm;
  }

  lemma Ordered(a: real, b: real, factor: real)
    requires factor > 0.0
    ensures a >= b <==> a * factor >= b * factor
    ensures a <= b <==> a * factor <= b * factor
  {
  }

  lemma EarnedAddsUp(maxRPM: nat, a: real, b: real, c: real)
    ensures Earned(maxRPM, a, b) + Earned(maxRPM, b, c) == Earned(maxRPM, a, c)
  {
    Distribute(b - a, c - b, Rate(maxRPM));
  }

  lemma Distribute(a: real, b: real, rate: real)
    ensures a * rate + b * rate == (a + b) * rate
  {
  }

  lemma AfterCall(maxRPM: nat, start: Bucket, calls: seq<Call>, k: nat)
    requires k < |calls|
    ensures After(maxRPM, start, calls[..k + 1]) == Admit(maxRPM, After(maxRPM, start, calls[..k]), calls[k])
  {
    assert calls[..k + 1][..k] == calls[..k];
  }

  /** The admissions after the i-th have been paid for. */
  lemma {:induction false} WindowPays(maxRPM: nat, start: Bucket, calls: seq<Call>, i: nat, j: nat)
    requires maxRPM > 0 && Fair(maxRPM, start, calls) && i <= j < |calls|
    ensures After(maxRPM, start, calls[..j + 1]).lastRefill == Time(maxRPM, start, calls, j)
    ensures Time(maxRPM, start, calls, i) <= Time(maxRPM, start, calls, j)
    ensures Credit(After(maxRPM, start, calls[..j + 1]))
         <= maxRPM as real - 1.0 +
            Earned(maxRPM, Time(maxRPM, start, calls, i), Time(maxRPM, start, calls, j)) - (j - i) as real
    decreases j
  {
    AfterCall(maxRPM, start, calls, j);
    AdmissionCosts(maxRPM, After(maxRPM, start, calls[..j]), calls[j]);
    if i < j {
      WindowPays(maxRPM, start, calls, i, j - 1);
      EarnedAddsUp(maxRPM, Time(maxRPM, start, calls, i), Time(maxRPM, start, calls, j - 1),
                   Time(maxRPM, start, calls, j));
    }
  }

  lemma EarnedAtMost(maxRPM: nat, from: real, to: real, window: real)
    requires to - from <= window
    ensures Earned(maxRPM, from, to) <= maxRPM as real / 60.0 * window
  {
    Scale(window, to - from, Rate(maxRPM));
  }

  lemma CreditIsPositive(b: Bucket)
    ensures Credit(b) >= 0.0
  {
  }

  lemma Covered(credit: real, limit: real, earned: real, calls: real, bound: real)
    requires credit >= 0.0 && credit <= limit - 1.0 + earned - calls && earned <= bound
    ensures calls + 1.0 <= limit + bound
  {
  }

  /** In any window of `window` seconds at most maxRPM + maxRPM/60 * window calls are let through. */
  lemma WindowBound(maxRPM: nat, start: Bucket, calls: seq<Call>, i: nat, j: nat, window: real)
    requires maxRPM > 0 && Fair(maxRPM, start, calls) && i <= j < |calls|
    requires Time(maxRPM, start, calls, j) - Time(maxRPM, start, calls, i) <= window
    ensures (j - i + 1) as real <= maxRPM as real + maxRPM as real / 60.0 * window
  {
    var from, to := Time(maxRPM, start, calls, i), Time(maxRPM, start, calls, j);
    WindowPays(maxRPM, start, calls, i, j);
    Covered(Credit(After(maxRPM, start, calls[..j + 1])), maxRPM as real, Earned(maxRPM, from, to), (j - i) as real,
            maxRPM as real / 60.0 * window) by {
      CreditIsPositive(After(maxRPM, start, calls[..j + 1]));
      EarnedAtMost(maxRPM, from, to, window);
    }
  }

  /** A call that had to wait leaves a debt of one token: the next is let through no sooner than
      two refills later. */
  lemma DebtDelaysNext(maxRPM: nat, b: Bucket, c: Call)
    requires maxRPM > 0 && ClockIsFair(maxRPM, b, c) && b.tokens == -1.0
    ensures Earned(maxRPM, b.lastRefill, AdmittedAt(maxRPM, b, c)) >= 2.0
    ensures AdmittedAt(maxRPM, b, c) >= b.lastRefill + 120.0 / maxRPM as real
  {
    if MustWait(maxRPM, b, c.now) {
      WaitPays(maxRPM, b, c);
    }
    TokensAreSeconds(maxRPM, b.lastRefill, AdmittedAt(maxRPM, b, c), 2.0);
  }

  lemma {:induction false} WaitingCallsPay(maxRPM: nat, start: Bucket, calls: seq<Call>, i: nat, j: nat)
    requires maxRPM > 0 && Fair(maxRPM, start, calls) && i <= j < |calls|
    requires forall k :: i <= k <= j ==> MustWait(maxRPM, After(maxRPM, start, calls[..k]), calls[k].now)
    ensures 2.0 * (j - i) as real <= Earned(maxRPM, Time(maxRPM, start, calls, i), Time(maxRPM, start, calls, j))
    decreases j
  {
    if i == j {
      assert Earned(maxRPM, Time(maxRPM, start, calls, i), Time(maxRPM, start, calls, i)) == 0.0;
    } else {
      WaitingCallsPay(maxRPM, start, calls, i, j - 1);
      AfterCall(maxRPM, start, calls, j - 1);
      DebtDelaysNext(maxRPM, After(maxRPM, start, calls[..j]), calls[j]);
      EarnedAddsUp(maxRPM, Time(maxRPM, start, calls, i), Time(maxRPM, start, calls, j - 1),
                   Time(maxRPM, start, calls, j));
    }
  }

  /** From a call that waited on, at most half the configured rate is let through, as long as every
      call waits: each next call comes at least 120 / maxRPM seconds later. */
  lemma WaitingCallsRunAtHalfRate(maxRPM: nat, start: Bucket, calls: seq<Call>, i: nat, j: nat)
    requires maxRPM > 0 && Fair(maxRPM, start, calls) && i <= j < |calls|
    requires forall k :: i <= k <= j ==> MustWait(maxRPM, After(maxRPM, start, calls[..k]), calls[k].now)
    ensures Time(maxRPM, start, calls, j) - Time(maxRPM, start, calls, i)
         >= 60.0 * (2.0 * (j - i) as real) / maxRPM as real
  {
    WaitingCallsPay(maxRPM, start, calls, i, j);
    TokensAreSeconds(maxRPM, Time(maxRPM, start, calls, i), Time(maxRPM, start, calls, j), 2.0 * (j - i) as real);
  }

  // ---- callers without a pause ----

  /** A caller that asks again the moment it was let through, and wakes exactly on time. */
  function NextEager(maxRPM: nat, b: Bucket): Call
    requires maxRPM > 0
  {
    Call(b.lastRefill,
         if MustWait(maxRPM, b, b.lastRefill) then b.lastRefill + WaitTime(maxRPM, b, b.lastRefill) else b.lastRefill)
  }

  lemma EagerRefill(maxRPM: nat, b: Bucket)
    requires b.tokens <= maxRPM as real
    ensures Refilled(maxRPM, b, b.lastRefill) == b.tokens
  {
    assert (b.lastRefill - b.lastRefill) * Rate(maxRPM) == 0.0;
  }

  lemma WaitEarns(maxRPM: nat, b: Bucket, now: real)
    requires maxRPM > 0
    ensures Earned(maxRPM, now, now + WaitTime(maxRPM, b, now)) == 1.0 - Refilled(maxRPM, b, now)
  {
    assert (now + WaitTime(maxRPM, b, now)) - now == WaitTime(maxRPM, b, now);
  }

  /** What the time from a bucket to the admission of an eager call has earned: nothing if there is
      a token, else what is missing. */
  lemma EagerPays(maxRPM: nat, b: Bucket)
    requires maxRPM > 0 && b.tokens <= maxRPM as real
    ensures var c := NextEager(maxRPM, b);
            && ClockIsFair(maxRPM, b, c) && MustWait(maxRPM, b, c.now) == (b.tokens < 1.0)
            && Earned(maxRPM, b.lastRefill, AdmittedAt(maxRPM, b, c)) ==
               (if b.tokens < 1.0 then 1.0 - b.tokens else 0.0)
            && Admit(maxRPM, b, c) == Bucket(if b.tokens < 1.0 then -1.0 else b.tokens - 1.0, AdmittedAt(maxRPM, b, c))
  {
    EagerRefill(maxRPM, b);
    WaitEarns(maxRPM, b, b.lastRefill);
    assert (b.lastRefill - b.lastRefill) * Rate(maxRPM) == 0.0;
  }

  lemma AdmittedHoldsAtMost(maxRPM: nat, b: Bucket, c: Call)
    requires maxRPM > 0
    ensures Admit(maxRPM, b, c).tokens <= maxRPM as real - 1.0
  {
  }

  /** The configured rate is met between a call and an eager one after it exactly when the first did
      not have to wait. */
  lemma RateIsMetUnlessWaited(maxRPM: nat, b: Bucket, c: Call)
    requires maxRPM > 0 && ClockIsFair(maxRPM, b, c)
    ensures var after := Admit(maxRPM, b, c);
            AdmittedAt(maxRPM, after, NextEager(maxRPM, after)) - AdmittedAt(maxRPM, b, c) <= 60.0 / maxRPM as real
            <==> !MustWait(maxRPM, b, c.now)
  {
    var after := Admit(maxRPM, b, c);
    AdmittedHoldsAtMost(maxRPM, b, c);
    EagerPays(maxRPM, after);
    TokensAreSeconds(maxRPM, AdmittedAt(maxRPM, b, c), AdmittedAt(maxRPM, after, NextEager(maxRPM, after)), 1.0);
  }

  /** `n` eager calls from a bucket on. */
  function Eager(maxRPM: nat, start: Bucket, n: nat): seq<Call>
    requires maxRPM > 0
  {
    if n == 0 then [] else
      var front := Eager(maxRPM, start, n - 1);
      front + [NextEager(maxRPM, After(maxRPM, start, front))]
  }

  lemma {:induction false} EagerPrefix(maxRPM: nat, start: Bucket, n: nat, k: nat)
    requires maxRPM > 0 && k <= n
    ensures |Eager(maxRPM, start, n)| == n && Eager(maxRPM, start, n)[..k] == Eager(maxRPM, start, k)
    decreases n
  {
    if k < n {
      EagerPrefix(maxRPM, start, n - 1, k);
    } else if n > 0 {
      EagerPrefix(maxRPM, start, n - 1, n - 1);
    }
  }

  function Fresh(maxRPM: nat, now: real): Bucket {
    Bucket(maxRPM as real, now)
  }

  /** A bucket after one more eager call. */
  lemma EagerStep(maxRPM: nat, start: Bucket, n: nat)
    requires maxRPM > 0
    ensures var front := Eager(maxRPM, start, n);
            var b := After(maxRPM, start, front);
            After(maxRPM, start, Eager(maxRPM, start, n + 1)) == Admit(maxRPM, b, NextEager(maxRPM, b))
  {
    var front := Eager(maxRPM, start, n);
    var c := NextEager(maxRPM, After(maxRPM, start, front));
    assert (front + [c])[..|front + [c]| - 1] == front;
  }

  /** What one eager call does to a bucket that holds `tokens`, and to what time has earned. */
  lemma EagerMoves(maxRPM: nat, now: real, b: Bucket)
    requires maxRPM > 0 && b.tokens <= maxRPM as real
    ensures var after := Admit(maxRPM, b, NextEager(maxRPM, b));
            && after.tokens == (if b.tokens < 1.0 then -1.0 else b.tokens - 1.0)
            && Earned(maxRPM, now, after.lastRefill) ==
               Earned(maxRPM, now, b.lastRefill) + (if b.tokens < 1.0 then 1.0 - b.tokens else 0.0)
  {
    EagerPays(maxRPM, b);
    EarnedAddsUp(maxRPM, now, b.lastRefill, AdmittedAt(maxRPM, b, NextEager(maxRPM, b)));
  }

  /** The tokens of a new limiter after `n` eager calls, and what the time since has earned. */
  function EagerTokens(maxRPM: nat, n: nat): real {
    if n <= maxRPM then (maxRPM - n) as real else -1.0
  }

  function EagerEarned(maxRPM: nat, n: nat): real {
    if n <= maxRPM then 0.0 else 2.0 * (n - maxRPM) as real - 1.0
  }

  lemma EagerCounts(maxRPM: nat, n: nat)
    ensures var tokens := EagerTokens(maxRPM, n);
            && tokens <= maxRPM as real
            && EagerTokens(maxRPM, n + 1) == (if tokens < 1.0 then -1.0 else tokens - 1.0)
            && EagerEarned(maxRPM, n + 1) == EagerEarned(maxRPM, n) + (if tokens < 1.0 then 1.0 - tokens else 0.0)
  {
  }

  lemma EagerKeepsCount(maxRPM: nat, now: real, b: Bucket, n: nat)
    requires maxRPM > 0 && b.tokens == EagerTokens(maxRPM, n)
    requires Earned(maxRPM, now, b.lastRefill) == EagerEarned(maxRPM, n)
    ensures var after := Admit(maxRPM, b, NextEager(maxRPM, b));
            && after.tokens == EagerTokens(maxRPM, n + 1)
            && Earned(maxRPM, now, after.lastRefill) == EagerEarned(maxRPM, n + 1)
  {
    EagerCounts(maxRPM, n);
    EagerMoves(maxRPM, now, b);
  }

  /** A new limiter after `n` eager calls: tokens run down to none, and then the debt stays. */
  lemma {:induction false} EagerBuckets(maxRPM: nat, now: real, n: nat)
    requires maxRPM > 0
    ensures var b := After(maxRPM, Fresh(maxRPM, now), Eager(maxRPM, Fresh(maxRPM, now), n));
            b.tokens == EagerTokens(maxRPM, n) && Earned(maxRPM, now, b.lastRefill) == EagerEarned(maxRPM, n)
    decreases n
  {
    if n == 0 {
      assert Earned(maxRPM, now, now) == 0.0;
    } else {
      EagerBuckets(maxRPM, now, n - 1);
      EagerStep(maxRPM, Fresh(maxRPM, now), n - 1);
      EagerKeepsCount(maxRPM, now, After(maxRPM, Fresh(maxRPM, now), Eager(maxRPM, Fresh(maxRPM, now), n - 1)), n - 1);
    }
  }

  lemma {:induction false} EagerIsFair(maxRPM: nat, now: real, n: nat)
    requires maxRPM > 0
    ensures Fair(maxRPM, Fresh(maxRPM, now), Eager(maxRPM, Fresh(maxRPM, now), n))
  {
    var start := Fresh(maxRPM, now);
    var calls := Eager(maxRPM, start, n);
    EagerPrefix(maxRPM, start, n, n);
    forall k | 0 <= k < |calls| ensures ClockIsFair(maxRPM, After(maxRPM, start, calls[..k]), calls[k]) {
      EagerCallAt(maxRPM, now, n, k);
    }
  }

  lemma EagerIndex(maxRPM: nat, start: Bucket, n: nat, k: nat)
    requires maxRPM > 0 && k < n
    ensures var calls := Eager(maxRPM, start, n);
            && |calls| == n && calls[..k] == Eager(maxRPM, start, k)
            && calls[k] == NextEager(maxRPM, After(maxRPM, start, Eager(maxRPM, start, k)))
  {
    var calls := Eager(maxRPM, start, n);
    EagerPrefix(maxRPM, start, n, k);
    EagerPrefix(maxRPM, start, n, k + 1);
    assert calls[k] == calls[..k + 1][k];
    EagerPrefix(maxRPM, start, k, k);
  }

  lemma EagerCallAt(maxRPM: nat, now: real, n: nat, k: nat)
    requires maxRPM > 0 && k < n
    ensures var start := Fresh(maxRPM, now);
            var calls, b := Eager(maxRPM, start, n), After(maxRPM, start, Eager(maxRPM, start, k));
            && |calls| == n && calls[..k] == Eager(maxRPM, start, k) && calls[k] == NextEager(maxRPM, b)
            && ClockIsFair(maxRPM, b, calls[k]) && b.tokens == EagerTokens(maxRPM, k)
  {
    EagerIndex(maxRPM, Fresh(maxRPM, now), n, k);
    EagerBuckets(maxRPM, now, k);
    EagerCounts(maxRPM, k);
    EagerPays(maxRPM, After(maxRPM, Fresh(maxRPM, now), Eager(maxRPM, Fresh(maxRPM, now), k)));
  }

  lemma EagerCallsPay(maxRPM: nat, now: real, n: nat, k: nat)
    requires maxRPM > 0 && k < n
    ensures var start, calls := Fresh(maxRPM, now), Eager(maxRPM, Fresh(maxRPM, now), n);
            && |calls| == n && Fair(maxRPM, start, calls)
            && (MustWait(maxRPM, After(maxRPM, start, calls[..k]), calls[k].now) <==> k >= maxRPM)
            && Earned(maxRPM, now, Time(maxRPM, start, calls, k)) ==
               (if k < maxRPM then 0.0 else 2.0 * (k - maxRPM) as real + 1.0)
  {
    var start := Fresh(maxRPM, now);
    var calls, b := Eager(maxRPM, start, n), After(maxRPM, start, Eager(maxRPM, start, k));
    EagerIsFair(maxRPM, now, n);
    EagerCallAt(maxRPM, now, n, k);
    EagerBuckets(maxRPM, now, k);
    EagerPays(maxRPM, b);
    EarnedAddsUp(maxRPM, now, b.lastRefill, AdmittedAt(maxRPM, b, calls[k]));
  }

  /** Half the rate is what eager callers get, exactly: a new limiter lets the first maxRPM of them
      through at once, and from then on every call waits, the first 60 / maxRPM seconds and each
      next one 120 / maxRPM seconds more. */
  lemma EagerCallsRunAtHalfRate(maxRPM: nat, now: real, n: nat, k: nat)
    requires maxRPM > 0 && k < n
    ensures var start, calls := Bucket(maxRPM as real, now), Eager(maxRPM, Bucket(maxRPM as real, now), n);
            && |calls| == n && Fair(maxRPM, start, calls)
            && (MustWait(maxRPM, After(maxRPM, start, calls[..k]), calls[k].now) <==> k >= maxRPM)
            && Time(maxRPM, start, calls, k) ==
               if k < maxRPM then now else now + 60.0 * (2.0 * (k - maxRPM) as real + 1.0) / maxRPM as real
  {
    var start := Fresh(maxRPM, now);
    EagerCallsPay(maxRPM, now, n, k);
    TokensAreSeconds(maxRPM, now, Time(maxRPM, start, Eager(maxRPM, start, n), k),
                     if k < maxRPM then 0.0 else 2.0 * (k - maxRPM) as real + 1.0);
  }
}
