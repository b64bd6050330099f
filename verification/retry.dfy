/** `retry_with_backoff` (core/providers/retry.py): call a function up to `max_attempts` times,
    sleeping an exponentially growing, capped delay between failed attempts. A call is modelled by
    what the k-th attempt does; the sleeps are recorded as the list of delays. */
module Retry {

  /** What one attempt did: returned a value or raised an exception. */
  datatype Outcome<T, E> = Returned(value: T) | Raised(error: E)

  /** How the decorated function ends: its value, None when the loop never ran, `RetryError`
      carrying the last exception, or an exception that was not retryable, raised unchanged. */
  datatype RetryResult<T, E> = Value(value: T) | NoValue | RetryError(last: E) | Propagated(error: E)

  /** The decorator's parameters. */
  datatype Policy = Policy(maxAttempts: int, baseDelay: real, maxDelay: real, exponentialBase: real)

  const DEFAULT_POLICY: Policy := Policy(3, 1.0, 30.0, 2.0)

  /** The result, how many times the function was called, and the delays slept, in order. */
  datatype Run<T, E> = Run(result: RetryResult<T, E>, calls: nat, delays: seq<real>)

  function Pow(b: real, n: nat): real {
    if n == 0 then 1.0 else b * Pow(b, n - 1)
  }

  function Min(a: real, b: real): real {
    if a <= b then a else b
  }

  /** The sleep after failed attempt `attempt` (counted from 1). */
  function Delay(p: Policy, attempt: nat): (d: real)
    requires attempt >= 1
    ensures d <= p.maxDelay
    ensures d == p.maxDelay || d == p.baseDelay * Pow(p.exponentialBase, attempt - 1)
  {
    Min(p.maxDelay, p.baseDelay * Pow(p.exponentialBase, attempt - 1))
  }

  lemma {:induction false} PowAtLeastOne(b: real, n: nat)
    requires b >= 1.0
    ensures Pow(b, n) >= 1.0
  {
    if n > 0 {
      PowAtLeastOne(b, n - 1);
      assert b * Pow(b, n - 1) - Pow(b, n - 1) == (b - 1.0) * Pow(b, n - 1);
    }
  }

  /** With a non-negative base delay and an exponential base of at least 1 the delays never shrink. */
  lemma DelayMonotone(p: Policy, k: nat)
    requires k >= 1
    requires p.baseDelay >= 0.0 && p.exponentialBase >= 1.0
    ensures Delay(p, k) <= Delay(p, k + 1)
  {
    var x := Pow(p.exponentialBase, k - 1);
    var y := Pow(p.exponentialBase, k);
    PowAtLeastOne(p.exponentialBase, k - 1);
    assert y == p.exponentialBase * x;
    MulMonotone(x, 1.0, p.exponentialBase);
    MulMonotone(p.baseDelay, x, y);
  }

  lemma MulMonotone(c: real, a: real, b: real)
    requires c >= 0.0 && a <= b
    ensures c * a <= c * b
  {
    assert c * b - c * a == c * (b - a);
  }

  /** The loop from attempt `attempt` on: the reference definition of the decorated call. */
  function RunFrom<T, E>(p: Policy, retryable: E -> bool, call: nat -> Outcome<T, E>, attempt: nat): (r: Run<T, E>)
    requires attempt >= 1
    ensures attempt > p.maxAttempts ==> r == Run(NoValue, 0, [])
    ensures attempt <= p.maxAttempts ==> 1 <= r.calls <= p.maxAttempts - attempt + 1
    ensures |r.delays| == if r.calls == 0 then 0 else r.calls - 1
    ensures r.result.NoValue? ==> attempt > p.maxAttempts
    decreases p.maxAttempts - attempt
  {
    if attempt > p.maxAttempts then Run(NoValue, 0, [])
    else
      match call(attempt)
      case Returned(v) => Run(Value(v), 1, [])
      case Raised(e) =>
        if !retryable(e) then Run(Propagated(e), 1, [])
        else if attempt == p.maxAttempts then Run(RetryError(e), 1, [])
        else
          var rest := RunFrom(p, retryable, call, attempt + 1);
          Run(rest.result, rest.calls + 1, [Delay(p, attempt)] + rest.delays)
  }

  /** The i-th sleep of a run is the policy's delay after its i-th failed attempt. */
  lemma {:induction false} DelaysFollowPolicy<T, E>(p: Policy, retryable: E -> bool, call: nat -> Outcome<T, E>, attempt: nat)
    requires attempt >= 1
    ensures forall i :: 0 <= i < |RunFrom(p, retryable, call, attempt).delays| ==>
      RunFrom(p, retryable, call, attempt).delays[i] == Delay(p, attempt + i)
    decreases p.maxAttempts - attempt
  {
    if attempt <= p.maxAttempts && call(attempt).Raised? && retryable(call(attempt).error) && attempt < p.maxAttempts {
      DelaysFollowPolicy(p, retryable, call, attempt + 1);
      var ds := RunFrom(p, retryable, call, attempt).delays;
      var rest := RunFrom(p, retryable, call, attempt + 1).delays;
      assert ds == [Delay(p, attempt)] + rest;
      forall i | 0 <= i < |ds|
        ensures ds[i] == Delay(p, attempt + i)
      {
        if i == 0 {
          assert ds[0] == Delay(p, attempt);
        } else {
          assert ds[i] == rest[i - 1];
          assert rest[i - 1] == Delay(p, attempt + 1 + (i - 1));
        }
      }
    }
  }

  /** `retry_with_backoff(...)(func)()`. */
  function RetryCall<T, E>(p: Policy, retryable: E -> bool, call: nat -> Outcome<T, E>): (r: Run<T, E>)
    ensures p.maxAttempts <= 0 ==> r == Run(NoValue, 0, [])
    ensures p.maxAttempts >= 1 ==> 1 <= r.calls <= p.maxAttempts && !r.result.NoValue?
    ensures |r.delays| == if r.calls == 0 then 0 else r.calls - 1
  {
    RunFrom(p, retryable, call, 1)
  }

  /** A run from a later attempt, seen from the start: `before` earlier calls and their `delays`. */
  function Resume<T, E>(rest: Run<T, E>, before: nat, delays: seq<real>): Run<T, E> {
    Run(rest.result, rest.calls + before, delays + rest.delays)
  }

  /** The same loop written as the source writes it. */
  method RetryWithBackoff<T, E>(p: Policy, retryable: E -> bool, call: nat -> Outcome<T, E>) returns (r: Run<T, E>)
    ensures r == RetryCall(p, retryable, call)
  {
    var delays: seq<real> := [];
    var attempt := 1;
    assert RetryCall(p, retryable, call) == Resume(RunFrom(p, retryable, call, 1), 0, []) by {
      assert [] + RunFrom(p, retryable, call, 1).delays == RunFrom(p, retryable, call, 1).delays;
    }
    while attempt <= p.maxAttempts
      invariant 1 <= attempt
      invariant p.maxAttempts >= 1 ==> attempt <= p.maxAttempts
      invariant RetryCall(p, retryable, call) == Resume(RunFrom(p, retryable, call, attempt), attempt - 1, delays)
      decreases p.maxAttempts - attempt
    {
      ghost var here := RunFrom(p, retryable, call, attempt);
      match call(attempt)
      case Returned(v) =>
        assert here == Run(Value(v), 1, []);
        assert delays + [] == delays;
        return Run(Value(v), attempt, delays);
      case Raised(e) =>
        if !retryable(e) {
          assert here == Run(Propagated(e), 1, []);
          assert delays + [] == delays;
          return Run(Propagated(e), attempt, delays);
        }
        if attempt == p.maxAttempts {
          assert here == Run(RetryError(e), 1, []);
          assert delays + [] == delays;
          return Run(RetryError(e), attempt, delays);
        }
        ghost var next := RunFrom(p, retryable, call, attempt + 1);
        assert here == Run(next.result, next.calls + 1, [Delay(p, attempt)] + next.delays);
        assert delays + ([Delay(p, attempt)] + next.delays) == (delays + [Delay(p, attempt)]) + next.delays;
        delays := delays + [Delay(p, attempt)];
        attempt := attempt + 1;
    }
    assert delays + [] == delays;
    return Run(NoValue, 0, []);
  }

  /** Every result comes from an attempt: a value some call returned, the retryable exception the
      last call raised, or a non-retryable exception some call raised. */
  lemma {:induction false} ResultOrigin<T, E>(p: Policy, retryable: E -> bool, call: nat -> Outcome<T, E>, attempt: nat)
    requires attempt >= 1
    ensures var r := RunFrom(p, retryable, call, attempt).result;
      && (r.Value? ==> exists k :: attempt <= k <= p.maxAttempts && call(k) == Returned(r.value))
      && (r.RetryError? ==> call(p.maxAttempts) == Raised(r.last) && retryable(r.last))
      && (r.Propagated? ==> exists k :: attempt <= k <= p.maxAttempts && call(k) == Raised(r.error) && !retryable(r.error))
    decreases p.maxAttempts - attempt
  {
    if attempt <= p.maxAttempts && call(attempt).Raised? && retryable(call(attempt).error) && attempt < p.maxAttempts {
      ResultOrigin(p, retryable, call, attempt + 1);
    }
  }

  /** A first call that returns ends the loop: one call, no sleep. */
  lemma FirstCallReturns<T, E>(p: Policy, retryable: E -> bool, call: nat -> Outcome<T, E>)
    requires p.maxAttempts >= 1 && call(1).Returned?
    ensures RetryCall(p, retryable, call) == Run(Value(call(1).value), 1, [])
  {
  }

  /** When every attempt raises a retryable exception the function is called `max_attempts` times,
      sleeps `max_attempts - 1` times, and `RetryError` carries the last exception. */
  lemma {:induction false} Exhausted<T, E>(p: Policy, retryable: E -> bool, call: nat -> Outcome<T, E>, attempt: nat)
    requires 1 <= attempt <= p.maxAttempts
    requires forall k :: attempt <= k <= p.maxAttempts ==> call(k).Raised? && retryable(call(k).error)
    ensures var r := RunFrom(p, retryable, call, attempt);
      && r.result == RetryError(call(p.maxAttempts).error)
      && r.calls == p.maxAttempts - attempt + 1
    decreases p.maxAttempts - attempt
  {
    if attempt < p.maxAttempts {
      Exhausted(p, retryable, call, attempt + 1);
    }
  }

  /** A non-retryable exception at attempt `k`, after retryable failures, is raised as it is: `k`
      calls and `k - 1` sleeps. */
  lemma {:induction false} NonRetryablePropagates<T, E>(p: Policy, retryable: E -> bool, call: nat -> Outcome<T, E>,
                                                        attempt: nat, k: nat)
    requires 1 <= attempt <= k <= p.maxAttempts
    requires forall j :: attempt <= j < k ==> call(j).Raised? && retryable(call(j).error)
    requires call(k).Raised? && !retryable(call(k).error)
    ensures var r := RunFrom(p, retryable, call, attempt);
      r.result == Propagated(call(k).error) && r.calls == k - attempt + 1
    decreases k - attempt
  {
    if attempt < k {
      NonRetryablePropagates(p, retryable, call, attempt + 1, k);
    }
  }

  /** With `max_attempts <= 0` the function is never called and the result is None. */
  lemma NoAttempts<T, E>(p: Policy, retryable: E -> bool, call: nat -> Outcome<T, E>)
    requires p.maxAttempts <= 0
    ensures RetryCall(p, retryable, call) == Run(NoValue, 0, [])
  {
  }

  /** The delays of any run grow (for a non-negative base delay and an exponential base of at least 1)
      and never exceed `max_delay`. */
  lemma DelaysBounded<T, E>(p: Policy, retryable: E -> bool, call: nat -> Outcome<T, E>)
    ensures var ds := RetryCall(p, retryable, call).delays;
      && (forall i :: 0 <= i < |ds| ==> ds[i] <= p.maxDelay)
      && (p.baseDelay >= 0.0 && p.exponentialBase >= 1.0 ==> forall i :: 0 <= i < |ds| - 1 ==> ds[i] <= ds[i + 1])
  {
    var ds := RetryCall(p, retryable, call).delays;
    assert ds == RunFrom(p, retryable, call, 1).delays;
    DelaysFollowPolicy(p, retryable, call, 1);
    forall i | 0 <= i < |ds|
      ensures ds[i] <= p.maxDelay
    {
      assert ds[i] == Delay(p, 1 + i);
    }
    if p.baseDelay >= 0.0 && p.exponentialBase >= 1.0 {
      forall i | 0 <= i < |ds| - 1
        ensures ds[i] <= ds[i + 1]
      {
        assert ds[i] == Delay(p, 1 + i) && ds[i + 1] == Delay(p, 1 + (i + 1));
        DelayMonotone(p, i + 1);
      }
    }
  }

  /** The default policy sleeps 1 and then 2 seconds before giving up on the third failure. */
  lemma DefaultDelays<T, E>(retryable: E -> bool, call: nat -> Outcome<T, E>)
    requires forall k :: 1 <= k <= 3 ==> call(k).Raised? && retryable(call(k).error)
    ensures RetryCall(DEFAULT_POLICY, retryable, call) == Run(RetryError(call(3).error), 3, [1.0, 2.0])
  {
    Exhausted(DEFAULT_POLICY, retryable, call, 1);
    DelaysFollowPolicy(DEFAULT_POLICY, retryable, call, 1);
    var r := RetryCall(DEFAULT_POLICY, retryable, call);
    assert r.delays[0] == Delay(DEFAULT_POLICY, 1) == 1.0;
    assert r.delays[1] == Delay(DEFAULT_POLICY, 2) == 2.0;
  }
}
