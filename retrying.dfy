/** The bounded-retry policy shared by both check-in scripts: call the wrapped
    function again whenever it raises, at most `max_retries` times, return the
    first value it returns, and raise once every call has raised. Sleeping
    between calls does not change the outcome and is left out. */
module Retrying {

  /** What one invocation of the wrapped function did. */
  datatype Attempt<+T> = Ok(value: T) | Raised

  /** What the wrapper did: the first returned value with the number of
      invocations made, or the exception raised after `calls` invocations. */
  datatype RetryOutcome<+T> = Done(value: T, calls: nat) | Exhausted(calls: nat)

  /** `while retries < max_retries` runs this many times at most. */
  function AttemptBound(maxRetries: int): nat {
    if maxRetries < 0 then 0 else maxRetries
  }

  /** The wrapper's behaviour from the point where `retries` invocations
      have already raised; `op(i)` is what invocation number `i` (from 0) does. */
  function RetryFrom<T>(op: nat -> Attempt<T>, maxRetries: int, retries: nat): (r: RetryOutcome<T>)
    ensures retries <= r.calls
    ensures r.calls <= if retries < maxRetries then maxRetries else retries
    ensures r.Done? ==> retries < r.calls && op(r.calls - 1) == Ok(r.value)
    ensures r.Done? ==> forall i :: retries <= i < r.calls - 1 ==> op(i).Raised?
    ensures r.Exhausted? ==> r.calls == (if retries < maxRetries then maxRetries else retries)
    ensures r.Exhausted? ==> forall i :: retries <= i < r.calls ==> op(i).Raised?
    decreases maxRetries - retries
  {
    if retries >= maxRetries then Exhausted(retries)
    else
      match op(retries)
      case Ok(v) => Done(v, retries + 1)
      case Raised => RetryFrom(op, maxRetries, retries + 1)
  }

  /** The retry wrapper, as a function of what each invocation does. */
  function Retry<T>(op: nat -> Attempt<T>, maxRetries: int): (r: RetryOutcome<T>)
    ensures r.calls <= AttemptBound(maxRetries)
    ensures r.Done? ==> 1 <= r.calls && op(r.calls - 1) == Ok(r.value)
    ensures r.Done? ==> forall i :: 0 <= i < r.calls - 1 ==> op(i).Raised?
    ensures r.Exhausted? ==> r.calls == AttemptBound(maxRetries)
    ensures r.Exhausted? ==> forall i :: 0 <= i < r.calls ==> op(i).Raised?
  {
    RetryFrom(op, maxRetries, 0)
  }

  /** The wrapper gives up only when every one of its `max_retries` calls
      raised, and otherwise returns the first value returned. */
  lemma {:induction false} RetryFindsFirstSuccess<T>(op: nat -> Attempt<T>, maxRetries: int, k: nat)
    requires k < maxRetries && op(k).Ok?
    requires forall i :: 0 <= i < k ==> op(i).Raised?
    ensures Retry(op, maxRetries) == Done(op(k).value, k + 1)
  {
    RetryFromFindsFirstSuccess(op, maxRetries, 0, k);
  }

  lemma {:induction false} RetryFromFindsFirstSuccess<T>(op: nat -> Attempt<T>, maxRetries: int, retries: nat, k: nat)
    requires retries <= k < maxRetries && op(k).Ok?
    requires forall i :: retries <= i < k ==> op(i).Raised?
    ensures RetryFrom(op, maxRetries, retries) == Done(op(k).value, k + 1)
    decreases k - retries
  {
    if retries < k {
      RetryFromFindsFirstSuccess(op, maxRetries, retries + 1, k);
    }
  }

  /** The wrapper's loop: count the raised invocations, stop at the first
      returned value, and give up after `maxRetries` of them. */
  method RetryLoop<T>(op: nat -> Attempt<T>, maxRetries: int) returns (r: RetryOutcome<T>)
    ensures r == Retry(op, maxRetries)
  {
    var retries: nat := 0;
    while retries < maxRetries
      invariant RetryFrom(op, maxRetries, 0) == RetryFrom(op, maxRetries, retries)
    {
      match op(retries)
      case Ok(v) =>
        return Done(v, retries + 1);
      case Raised =>
        retries := retries + 1;
    }
    return Exhausted(retries);
  }
}
