/** The retry loop around one optimistic transaction. */
module OptimisticRetry {
  import opened Wrappers
  import opened Ledger
  import Concurrency

  /** What the i-th attempt and those after it come to. */
  function Retried<T(==)>(attempt: nat -> Result<T, Failure>, i: nat): Result<T, Failure>
    requires i <= Concurrency.MAX_ATTEMPTS
    decreases Concurrency.MAX_ATTEMPTS - i
  {
    if i == Concurrency.MAX_ATTEMPTS then Failure(OptimisticLock)
    else if attempt(i) != Failure(OptimisticLock) then attempt(i)
    else Retried(attempt, i + 1)
  }

  /** If the first `lost` attempts lose their version check and the others all come to one result, so does the call. */
  lemma {:induction false} RetriedAfterLosses<T>(attempt: nat -> Result<T, Failure>, lost: nat,
      outcome: Result<T, Failure>, i: nat)
    requires i <= Concurrency.MAX_ATTEMPTS
    requires forall k: nat :: attempt(k) == if k < lost then Failure(OptimisticLock) else outcome
    ensures Retried(attempt, i) == if i < Concurrency.MAX_ATTEMPTS && lost < Concurrency.MAX_ATTEMPTS then outcome
            else Failure(OptimisticLock)
    decreases Concurrency.MAX_ATTEMPTS - i
  {
    if i < Concurrency.MAX_ATTEMPTS {
      RetriedAfterLosses(attempt, lost, outcome, i + 1);
    }
  }

  /** Runs the attempt until it does something other than lose its version check, at most MAX_ATTEMPTS times.
      `attempt(i)` is what the i-th run does; `made` is how many were run. */
  method Execute<T(==)>(attempt: nat -> Result<T, Failure>) returns (r: Result<T, Failure>, made: nat)
    ensures r == Retried(attempt, 0)
    ensures 0 < made <= 50
    ensures r == attempt(made - 1)
    ensures forall i: nat :: i < made - 1 ==> attempt(i) == Failure(OptimisticLock)
    ensures r == Failure(OptimisticLock) <==> forall i: nat :: i < 50 ==>
            attempt(i) == Failure(OptimisticLock)
    ensures r == Failure(OptimisticLock) ==> made == 50
  {
    var lastFailure: Result<T, Failure> := Failure(OptimisticLock);
    for i := 0 to Concurrency.MAX_ATTEMPTS
      invariant forall k: nat :: k < i ==> attempt(k) == Failure(OptimisticLock)
      invariant lastFailure == Failure(OptimisticLock)
      invariant Retried(attempt, 0) == Retried(attempt, i)
    {
      var outcome := attempt(i);
      if outcome != Failure(OptimisticLock) {
        return outcome, i + 1;
      }
      lastFailure := outcome;
    }
    return lastFailure, Concurrency.MAX_ATTEMPTS;
  }
}
