/** The retry loop of one fetch. */
module Retry {

  /** The answer to one request. */
  datatype Answer = TransportError | BodyError | Status(code: int)

  datatype Verdict = Success | Failure

  /** `slept` adds up the retry delays. */
  datatype Fetched = Fetched(verdict: Verdict, sent: nat, slept: real)

  predicate IsSuccess(a: Answer) {
    a.Status? && 200 <= a.code < 300
  }

  predicate IsRetryable(a: Answer) {
    a.Status? && (a.code == 429 || 500 <= a.code <= 599)
  }

  function Pow2(n: nat): real {
    if n == 0 then 1.0 else 2.0 * Pow2(n - 1)
  }

  function Delay(a: Answer, timeout: real, attempt: nat): real {
    if a == Status(429) then timeout * Pow2(attempt) else timeout
  }

  /** timeout * (2^n - 1). */
  function DelayLimit(timeout: real, n: nat): real {
    timeout * (Pow2(n) - 1.0)
  }

  method Shift(n: nat) returns (p: real)
    ensures p == Pow2(n)
  {
    p := 1.0;
    for i := 0 to n
      invariant p == Pow2(i)
    {
      p := 2.0 * p;
    }
  }

  /** The first answer that does not ask for a retry is a success, and no delay before it was cut short. */
  predicate SucceedsAt(answers: nat -> Answer, cancelled: nat -> bool, k: nat) {
    IsSuccess(answers(k)) && forall j :: 0 <= j < k ==> IsRetryable(answers(j)) && !cancelled(j)
  }

  /** Every request but the last is answered by a retryable status and waits out its delay, and the
      last is not, or has no attempt left, or is cut short. */
  predicate StopsAfter(answers: nat -> Answer, cancelled: nat -> bool, maxRetries: nat, sent: nat) {
    && 1 <= sent <= maxRetries + 1
    && (forall k :: 0 <= k < sent - 1 ==> IsRetryable(answers(k)) && !cancelled(k))
    && (!IsRetryable(answers(sent - 1)) || sent - 1 == maxRetries || cancelled(sent - 1))
  }

  /** A fetch succeeds exactly when the first answer that does not ask for a retry is a success. */
  lemma FirstFinalAnswerDecides(answers: nat -> Answer, cancelled: nat -> bool, maxRetries: nat, sent: nat)
    requires StopsAfter(answers, cancelled, maxRetries, sent)
    ensures IsSuccess(answers(sent - 1)) <==> exists k :: 0 <= k <= maxRetries && SucceedsAt(answers, cancelled, k)
  {
    if IsSuccess(answers(sent - 1)) {
      assert SucceedsAt(answers, cancelled, sent - 1);
    }
    if k :| 0 <= k <= maxRetries && SucceedsAt(answers, cancelled, k) {
      assert k == sent - 1;
    }
  }

  function Slept(answers: nat -> Answer, timeout: real, n: nat): real {
    if n == 0 then 0.0 else Slept(answers, timeout, n - 1) + Delay(answers(n - 1), timeout, n - 1)
  }

  method ChooseDelay(answer: Answer, timeout: real, attempt: nat, maxRetries: int)
    returns (shouldRetry: bool, delay: real)
    requires answer.Status?
    ensures shouldRetry <==> IsRetryable(answer) && attempt < maxRetries
    ensures delay == Delay(answer, timeout, attempt)
  {
    shouldRetry, delay := false, timeout;
    if answer.code == 429 {
      shouldRetry := attempt < maxRetries;
      var factor := Shift(attempt);
      delay := timeout * factor;
    } else if 500 <= answer.code <= 599 {
      shouldRetry := attempt < maxRetries;
    }
  }

  /** `answers` and `cancelled` give, for each attempt, what the server says and whether the context
      is cancelled during the delay after it. */
  method Fetch(answers: nat -> Answer, cancelled: nat -> bool, maxRetries: int, timeout: real) returns (r: Fetched)
    requires timeout >= 0.0
    ensures maxRetries < 0 ==> r == Fetched(Failure, 0, 0.0)
    ensures maxRetries >= 0 ==> 1 <= r.sent <= maxRetries + 1
    ensures maxRetries >= 0 ==> r.slept <= DelayLimit(timeout, maxRetries)
    ensures maxRetries >= 0 ==> StopsAfter(answers, cancelled, maxRetries, r.sent)
    ensures r.verdict.Success? <==> r.sent > 0 && IsSuccess(answers(r.sent - 1))
    ensures r.sent > 0 ==> r.slept == Slept(answers, timeout, r.sent - 1)
    ensures forall k :: 0 <= k < r.sent - 1 ==>
              answers(k).Status? && (answers(k).code == 429 || 500 <= answers(k).code <= 599)
    ensures 0 < r.sent <= maxRetries && !cancelled(r.sent - 1) && answers(r.sent - 1).Status? ==>
              answers(r.sent - 1).code != 429 && !(500 <= answers(r.sent - 1).code <= 599)
  {
    var attempts := maxRetries + 1;
    var attempt, slept := 0, 0.0;
    while attempt < attempts
      invariant 0 <= attempt && (maxRetries >= 0 ==> attempt <= maxRetries) && (maxRetries < 0 ==> attempt == 0)
      invariant slept == Slept(answers, timeout, attempt)
      invariant forall k :: 0 <= k < attempt ==> IsRetryable(answers(k)) && !cancelled(k)
    {
      DelaysStayWithin(answers, timeout, attempt, maxRetries);
      DelayIsPositive(answers(attempt), timeout, attempt);
      var answer := answers(attempt);
      if !answer.Status? {
        return Fetched(Failure, attempt + 1, slept);
      }
      if 200 <= answer.code < 300 {
        return Fetched(Success, attempt + 1, slept);
      }
      var shouldRetry, retryDelay := ChooseDelay(answer, timeout, attempt, maxRetries);
      if !shouldRetry {
        return Fetched(Failure, attempt + 1, slept);
      }
      if cancelled(attempt) {
        return Fetched(Failure, attempt + 1, slept);
      }
      slept := slept + retryDelay;
      attempt := attempt + 1;
    }
    return Fetched(Failure, attempt, slept);
  }

  lemma {:induction false} Pow2IsAtLeastOne(n: nat)
    ensures Pow2(n) >= 1.0
    decreases n
  {
    if n > 0 {
      Pow2IsAtLeastOne(n - 1);
    }
  }

  lemma DelayIsPositive(a: Answer, timeout: real, attempt: nat)
    requires timeout >= 0.0
    ensures 0.0 <= Delay(a, timeout, attempt) <= timeout * Pow2(attempt)
  {
    Pow2IsAtLeastOne(attempt);
    Times(timeout, 1.0, Pow2(attempt));
  }

  lemma Times(t: real, a: real, b: real)
    requires t >= 0.0 && a <= b
    ensures t * a <= t * b
  {
  }

  lemma {:induction false} Pow2Grows(m: nat, n: nat)
    requires m <= n
    ensures Pow2(m) <= Pow2(n)
    decreases n
  {
    if m < n {
      Pow2Grows(m, n - 1);
      Pow2IsAtLeastOne(n - 1);
    }
  }

  lemma Doubles(t: real, p: real)
    ensures t * (p - 1.0) + t * p == t * (2.0 * p - 1.0)
  {
  }

  /** The delays of the first n attempts add up to at most timeout * (2^n - 1). */
  lemma {:induction false} DelaysAddUp(answers: nat -> Answer, timeout: real, n: nat)
    requires timeout >= 0.0
    ensures Slept(answers, timeout, n) <= DelayLimit(timeout, n)
    decreases n
  {
    if n > 0 {
      DelaysAddUp(answers, timeout, n - 1);
      DelayIsPositive(answers(n - 1), timeout, n - 1);
      Doubles(timeout, Pow2(n - 1));
    }
  }

  /** Answers that ask to slow down double the delay each time. */
  lemma {:induction false} SlowDownDoubles(answers: nat -> Answer, timeout: real, n: nat)
    requires forall k: nat :: k < n ==> answers(k) == Status(429)
    ensures Slept(answers, timeout, n) == timeout * (Pow2(n) - 1.0)
    decreases n
  {
    if n > 0 {
      SlowDownDoubles(answers, timeout, n - 1);
      Doubles(timeout, Pow2(n - 1));
    }
  }

  /** Server errors are retried after the same delay each time. */
  lemma {:induction false} ServerErrorsWaitEvenly(answers: nat -> Answer, timeout: real, n: nat)
    requires forall k: nat :: k < n ==> answers(k).Status? && 500 <= answers(k).code <= 599
    ensures Slept(answers, timeout, n) == n as real * timeout
    decreases n
  {
    if n > 0 {
      ServerErrorsWaitEvenly(answers, timeout, n - 1);
    }
  }

  lemma LimitGrows(timeout: real, m: nat, n: nat)
    requires timeout >= 0.0 && m <= n
    ensures DelayLimit(timeout, m) <= DelayLimit(timeout, n)
  {
    Pow2Grows(m, n);
    Times(timeout, Pow2(m) - 1.0, Pow2(n) - 1.0);
  }

  lemma DelaysStayWithin(answers: nat -> Answer, timeout: real, n: nat, limit: nat)
    requires timeout >= 0.0 && n <= limit
    ensures Slept(answers, timeout, n) <= DelayLimit(timeout, limit)
  {
    DelaysAddUp(answers, timeout, n);
    LimitGrows(timeout, n, limit);
  }
}
