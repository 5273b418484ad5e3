/**
 The request loop with retries (chic/moysklad/client.py, `_do_get`). What the
 server does on each attempt is a given sequence of outcomes.
 */
module Retry {
  /** A header as `int()` sees it. */
  datatype Header = Absent | Garbled | Number(n: int)

  datatype Outcome =
    | NetworkError
    | Response(status: int, body: string, lognexRetryAfter: Header, retryAfter: Header)

  datatype Result = Body(body: string) | Raised(attempt: nat) | NeverTried

  predicate Ok(o: Outcome) { o.Response? && 200 <= o.status < 300 }

  predicate Retryable(o: Outcome) { o.NetworkError? || o.status == 429 || o.status >= 500 }

  /** Milliseconds in the vendor's header, else seconds in `Retry-After`, else none. */
  function RetryAfter(o: Outcome): real
    requires o.Response?
  {
    if o.lognexRetryAfter.Number? then o.lognexRetryAfter.n as real / 1000.0
    else if o.retryAfter.Number? then o.retryAfter.n as real
    else 0.0
  }

  function Pow2(n: nat): nat { if n == 0 then 1 else 2 * Pow2(n - 1) }

  /** The wait the server asked for, if it is positive and the answer was a 429. */
  function Asked(o: Outcome): real {
    if o.Response? && o.status == 429 && RetryAfter(o) > 0.0 then RetryAfter(o) else 0.0
  }

  /** `_backoff`: what attempt `i` waits before the next one. */
  function Backoff(base: real, i: nat, retryAfter: real): real {
    var delay := if retryAfter > 0.0 then retryAfter else base * Pow2(i) as real;
    if delay > 0.0 then delay else 0.0
  }

  /** A last attempt that got an answer raises at once; one that got none still waits. */
  function Waited(base: real, retries: nat, i: nat, o: Outcome): real {
    if o.Response? && i == retries then 0.0 else Backoff(base, i, Asked(o))
  }

  /** The first attempt that is not to be repeated, or `n` if the first `n` all are. */
  function FirstFinal(outcome: nat -> Outcome, n: nat): (i: nat)
    ensures i <= n
    ensures forall j :: 0 <= j < i ==> Retryable(outcome(j))
    ensures i < n ==> !Retryable(outcome(i))
  {
    if n == 0 then 0
    else
      var i := FirstFinal(outcome, n - 1);
      if i < n - 1 || !Retryable(outcome(n - 1)) then i else n
  }

  function Slept(base: real, retries: nat, outcome: nat -> Outcome, n: nat): real {
    if n == 0 then 0.0 else Slept(base, retries, outcome, n - 1) + Waited(base, retries, n - 1, outcome(n - 1))
  }

  function AskedTotal(outcome: nat -> Outcome, n: nat): real {
    if n == 0 then 0.0 else AskedTotal(outcome, n - 1) + Asked(outcome(n - 1))
  }

  method DoGet(maxRetries: int, base: real, outcome: nat -> Outcome)
    returns (r: Result, attempts: nat, slept: real)
    ensures maxRetries < 0 ==> r == NeverTried && attempts == 0 && slept == 0.0
    ensures maxRetries >= 0 ==>
              var i := FirstFinal(outcome, maxRetries + 1);
              && attempts == (if i <= maxRetries then i + 1 else maxRetries + 1) <= maxRetries + 1
              && slept == Slept(base, maxRetries, outcome, i)
              && r == if i > maxRetries then Raised(maxRetries)
                      else if Ok(outcome(i)) then Body(outcome(i).body)
                      else Raised(i)
  {
    hide Backoff, FirstFinal, Slept, RetryAfter;
    SleptMore(base, maxRetries, outcome, 0);
    r, attempts, slept := NeverTried, 0, 0.0;
    var attempt := 0;
    while attempt < maxRetries + 1
      invariant attempt == attempts
      invariant maxRetries >= 0 ==> attempt <= maxRetries + 1
      invariant forall j :: 0 <= j < attempt ==> Retryable(outcome(j))
      invariant maxRetries >= 0 ==> slept == Slept(base, maxRetries, outcome, attempt)
      invariant maxRetries < 0 ==> attempt == 0 && slept == 0.0
      invariant r == if attempt == 0 then NeverTried else Raised(attempt - 1)
    {
      var o := outcome(attempt);
      SleptMore(base, maxRetries, outcome, attempt);
      attempts := attempts + 1;
      r := Raised(attempt);
      if o.NetworkError? {
        slept := slept + Backoff(base, attempt, 0.0);
      } else if 200 <= o.status < 300 {
        FinalAt(outcome, attempt, maxRetries + 1);
        return Body(o.body), attempts, slept;
      } else if o.status == 429 {
        if attempt == maxRetries {
          AllRetryable(outcome, maxRetries + 1);
          return;
        }
        BackoffNonpositive(base, attempt, RetryAfter(o));
        slept := slept + Backoff(base, attempt, RetryAfter(o));
      } else if o.status >= 500 {
        if attempt == maxRetries {
          AllRetryable(outcome, maxRetries + 1);
          return;
        }
        slept := slept + Backoff(base, attempt, 0.0);
      } else {
        FinalAt(outcome, attempt, maxRetries + 1);
        return;
      }
      attempt := attempt + 1;
    }
    if maxRetries >= 0 {
      AllRetryable(outcome, maxRetries + 1);
    }
  }

  lemma SleptMore(base: real, retries: int, outcome: nat -> Outcome, n: nat)
    ensures retries >= 0 ==> Slept(base, retries, outcome, 0) == 0.0
    ensures retries >= 0 ==>
              Slept(base, retries, outcome, n + 1)
                == Slept(base, retries, outcome, n) + Waited(base, retries, n, outcome(n))
  {
  }

  lemma BackoffNonpositive(base: real, i: nat, retryAfter: real)
    ensures retryAfter <= 0.0 ==> Backoff(base, i, retryAfter) == Backoff(base, i, 0.0)
  {
  }

  lemma FinalAt(outcome: nat -> Outcome, i: nat, n: nat)
    requires i < n && !Retryable(outcome(i)) && forall j :: 0 <= j < i ==> Retryable(outcome(j))
    ensures FirstFinal(outcome, n) == i
  {
    var k := FirstFinal(outcome, n);
  }

  lemma AllRetryable(outcome: nat -> Outcome, n: nat)
    requires forall j :: 0 <= j < n ==> Retryable(outcome(j))
    ensures FirstFinal(outcome, n) == n
  {
    var k := FirstFinal(outcome, n);
  }

  /** A 429 is waited for as its headers say: milliseconds in the vendor's, else seconds. */
  lemma ServerWait(status: int, body: string, lognex: Header, seconds: Header)
    ensures var o := Response(status, body, lognex, seconds);
            Asked(o) == if status != 429 then 0.0
                        else if lognex.Number? then (if lognex.n > 0 then lognex.n as real / 1000.0 else 0.0)
                        else if seconds.Number? && seconds.n > 0 then seconds.n as real
                        else 0.0
  {
  }

  /** An answer that is not to be repeated: anything below 500 but a 429. */
  predicate Final(o: Outcome) { o.Response? && o.status < 500 && o.status != 429 }

  predicate SucceedsAt(outcome: nat -> Outcome, k: nat) {
    && outcome(k).Response? && 200 <= outcome(k).status <= 299
    && forall j :: 0 <= j < k ==> !Final(outcome(j))
  }

  /** A body comes back exactly when, within the attempts, the first final answer is a 2xx. */
  lemma BodyIff(outcome: nat -> Outcome, retries: nat)
    ensures var i := FirstFinal(outcome, retries + 1);
            (i <= retries && Ok(outcome(i))) <==> exists k: nat :: k <= retries && SucceedsAt(outcome, k)
  {
    hide FirstFinal;
    var i := FirstFinal(outcome, retries + 1);
    if i <= retries && Ok(outcome(i)) {
      assert SucceedsAt(outcome, i);
    }
    if k: nat :| k <= retries && SucceedsAt(outcome, k) {
      assert !Retryable(outcome(k));
      assert i < k ==> !Retryable(outcome(i)) && !Final(outcome(i));
    }
  }

  /** While no server asks for a wait, the waits double: they add up to just the series. */
  lemma {:induction false} SleepExact(base: real, retries: nat, outcome: nat -> Outcome, n: nat)
    requires base >= 0.0 && n <= retries && forall j :: 0 <= j < n ==> Asked(outcome(j)) == 0.0
    ensures Slept(base, retries, outcome, n) == base * (Pow2(n) - 1) as real
    ensures Pow2(n + 1) == 2 * Pow2(n) && Pow2(0) == 1
    decreases n
  {
    hide Asked;
    SeriesStep(base, if n > 0 then n - 1 else 0);
    if n > 0 {
      SleepExact(base, retries, outcome, n - 1);
    }
  }

  /** A wait that a server asked for replaces the delay, and the last attempt waits only if it got no answer. */
  lemma WaitIs(base: real, retries: nat, i: nat, o: Outcome)
    requires base >= 0.0
    ensures Asked(o) > 0.0 && i < retries ==> Waited(base, retries, i, o) == Asked(o)
    ensures i == retries && o.Response? ==> Waited(base, retries, i, o) == 0.0
    ensures o.NetworkError? ==> Waited(base, retries, i, o) == base * Pow2(i) as real
  {
    SeriesStep(base, i);
  }

  /** All the exponential delays before attempt `n`: a geometric series. */
  function Series(base: real, n: nat): real { base * (Pow2(n) - 1) as real }

  /** The waits sum to at most that series plus what servers asked for. */
  lemma {:induction false} SleepBound(base: real, retries: nat, outcome: nat -> Outcome, n: nat)
    requires base >= 0.0
    ensures 0.0 <= Slept(base, retries, outcome, n) <= Series(base, n) + AskedTotal(outcome, n)
  {
    hide Series, Waited, Pow2, Asked;
    SeriesStep(base, if n > 0 then n - 1 else 0);
    if n > 0 {
      SleepBound(base, retries, outcome, n - 1);
      WaitBound(base, retries, n - 1, outcome(n - 1));
    }
  }

  lemma SeriesStep(base: real, n: nat)
    requires base >= 0.0
    ensures Series(base, 0) == 0.0
    ensures Series(base, n + 1) == Series(base, n) + base * Pow2(n) as real
    ensures base * Pow2(n) as real >= 0.0
  {
    assert (2 * Pow2(n) - 1) as real == (Pow2(n) - 1) as real + Pow2(n) as real;
  }

  lemma WaitBound(base: real, retries: nat, i: nat, o: Outcome)
    requires base >= 0.0
    ensures 0.0 <= Waited(base, retries, i, o) <= base * Pow2(i) as real + Asked(o)
  {
    SeriesStep(base, i);
  }

  lemma {:induction false} MoreAsked(outcome: nat -> Outcome, i: nat, n: nat)
    requires i <= n
    ensures AskedTotal(outcome, i) <= AskedTotal(outcome, n)
    decreases n
  {
    if i < n {
      MoreAsked(outcome, i, n - 1);
    }
  }

  lemma {:induction false} SeriesGrows(base: real, i: nat, n: nat)
    requires base >= 0.0 && i <= n
    ensures Series(base, i) <= Series(base, n)
    decreases n
  {
    hide Series;
    if i < n {
      SeriesGrows(base, i, n - 1);
      SeriesStep(base, n - 1);
    }
  }

  /** However the attempts go, `_do_get` sleeps no longer than all of them could. */
  lemma TotalSleepBound(base: real, retries: nat, outcome: nat -> Outcome)
    requires base >= 0.0
    ensures Slept(base, retries, outcome, FirstFinal(outcome, retries + 1))
         <= base * (Pow2(retries + 1) - 1) as real + AskedTotal(outcome, retries + 1)
  {
    hide Slept, AskedTotal, Pow2;
    var i, n := FirstFinal(outcome, retries + 1), retries + 1;
    SleepBound(base, retries, outcome, i);
    MoreAsked(outcome, i, n);
    SeriesGrows(base, i, n);
  }
}
