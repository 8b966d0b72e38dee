/**
 The bounded retry around the two reads of the version handshake.
 */
module Retry {
  import opened Wrappers

  function Pow2(n: nat): nat {
    if n == 0 then 1 else 2 * Pow2(n - 1)
  }

  // The first attempt among 1..n that succeeds, or n + 1.
  function FirstSuccess<T, E>(attempts: nat -> Result<T, E>, n: nat): (k: nat)
    ensures k >= 1
  {
    if n == 0 then 1
    else if FirstSuccess(attempts, n - 1) < n then FirstSuccess(attempts, n - 1)
    else if attempts(n).Success? then n
    else n + 1
  }

  lemma {:induction false} FirstSuccessMeaning<T, E>(attempts: nat -> Result<T, E>, n: nat)
    ensures 1 <= FirstSuccess(attempts, n) <= n + 1
    ensures FirstSuccess(attempts, n) <= n ==> attempts(FirstSuccess(attempts, n)).Success?
    ensures forall k :: 1 <= k < FirstSuccess(attempts, n) ==> attempts(k).Failure?
  {
    if n > 0 {
      FirstSuccessMeaning(attempts, n - 1);
    }
  }

  // withRetry: the outcome of the first attempt that succeeds, and otherwise the error of the
  // last one (none, if nothing was attempted). The delays double, so k failures before the
  // last attempt cost baseDelayMs * (2^k - 1) in all.
  method WithRetry<T, E>(attempts: nat -> Result<T, E>, maxAttempts: nat, baseDelayMs: nat)
    returns (outcome: Result<T, Option<E>>, waited: nat)
    ensures var k := FirstSuccess(attempts, maxAttempts);
            && (outcome.Success? <==> k <= maxAttempts)
            && (outcome.Success? ==> attempts(k) == Success(outcome.value) && waited == baseDelayMs * (Pow2(k - 1) - 1))
            && (outcome.Failure? && maxAttempts > 0 ==>
                  attempts(maxAttempts).Failure? && outcome.error == Some(attempts(maxAttempts).error)
                  && waited == baseDelayMs * (Pow2(maxAttempts - 1) - 1))
  {
    FirstSuccessMeaning(attempts, maxAttempts);
    var lastError: Option<E> := None;
    waited := 0;
    var attempt := 1;
    while attempt <= maxAttempts
      invariant 1 <= attempt <= maxAttempts + 1
      invariant forall k :: 1 <= k < attempt ==> attempts(k).Failure?
      invariant attempt > 1 ==> lastError == Some(attempts(attempt - 1).error)
      invariant waited == baseDelayMs * (Pow2(if attempt <= maxAttempts || attempt == 1 then attempt - 1 else attempt - 2) - 1)
    {
      var result := attempts(attempt);
      if result.Success? {
        return Success(result.value), waited;
      }
      lastError := Some(result.error);
      if attempt < maxAttempts {
        waited := waited + baseDelayMs * Pow2(attempt - 1);
      }
      attempt := attempt + 1;
    }
    outcome := Failure(lastError);
  }
}
