/** Retry with backoff (compute_backoff_delay and retry_async in youmi/core/resilience.py). */
module Retry {
  import opened Common

  datatype Strategy = Fixed | Linear | Exponential

  datatype Policy = Policy(maxRetries: nat, baseDelay: real, maxDelay: real, strategy: Strategy) {
    predicate Legal() {
      baseDelay >= 0.0 && maxDelay >= 0.0
    }
  }

  function Power2(n: nat): real {
    if n == 0 then 1.0 else 2.0 * Power2(n - 1)
  }

  function Min(a: real, b: real): real {
    if a <= b then a else b
  }

  function RawDelay(p: Policy, attempt: nat): real
    requires attempt >= 1
  {
    match p.strategy
    case Fixed => p.baseDelay
    case Linear => p.baseDelay * (attempt as real)
    case Exponential => p.baseDelay * Power2(attempt - 1)
  }

  function Delay(p: Policy, attempt: nat): real
    requires attempt >= 1
  {
    Min(RawDelay(p, attempt), p.maxDelay)
  }

  lemma RawDelayStep(p: Policy, attempt: nat)
    requires p.Legal() && attempt >= 1
    ensures 0.0 <= RawDelay(p, attempt) <= RawDelay(p, attempt + 1)
  {
    if p.strategy == Exponential {
      PowerPositive(attempt - 1);
      assert RawDelay(p, attempt + 1) == p.baseDelay * (2.0 * Power2(attempt - 1));
    }
  }

  lemma {:induction false} PowerPositive(n: nat)
    ensures Power2(n) >= 1.0
  {
    if n > 0 { PowerPositive(n - 1); }
  }

  /** Waiting times never shrink and never exceed the cap. */
  lemma {:induction false} DelayMonotone(p: Policy, i: nat, j: nat)
    requires p.Legal() && 1 <= i <= j
    ensures 0.0 <= Delay(p, i) <= Delay(p, j) <= p.maxDelay
    decreases j - i
  {
    RawDelayStep(p, i);
    if i < j {
      DelayMonotone(p, i + 1, j);
    }
  }

  /** The waiting times themselves: constant, growing by the base, or starting with it; never more than the cap. */
  lemma DelayValues(p: Policy, attempt: nat)
    requires p.Legal() && attempt >= 1
    ensures p.strategy == Fixed ==> Delay(p, attempt) == (if p.baseDelay <= p.maxDelay then p.baseDelay else p.maxDelay)
    ensures p.strategy == Linear ==>
      var raw := p.baseDelay * (attempt as real);
      Delay(p, attempt) == if raw <= p.maxDelay then raw else p.maxDelay
    ensures p.strategy == Exponential ==> Delay(p, 1) == (if p.baseDelay <= p.maxDelay then p.baseDelay else p.maxDelay)
  {
  }

  /** Exponential backoff doubles the waiting time until it meets the cap. */
  lemma ExponentialDoubles(p: Policy, attempt: nat)
    requires p.Legal() && p.strategy == Exponential && attempt >= 1
    ensures Delay(p, attempt + 1) == Min(2.0 * Delay(p, attempt), p.maxDelay)
  {
    PowerPositive(attempt - 1);
    var raw := RawDelay(p, attempt);
    assert RawDelay(p, attempt + 1) == 2.0 * raw by {
      assert p.baseDelay * (2.0 * Power2(attempt - 1)) == 2.0 * (p.baseDelay * Power2(attempt - 1));
    }
    RawDelayStep(p, attempt);
  }

  /** The delay with random jitter; share in [0, 1] is the position of the uniform draw between 0 and delay * ratio. */
  function Jittered(p: Policy, attempt: nat, ratio: real, share: real): real
    requires attempt >= 1
  {
    var delay := Delay(p, attempt);
    if ratio > 0.0 && delay > 0.0 then delay + share * (delay * ratio) else delay
  }

  /** Jitter is added after the cap, so the promised maximum holds for every draw exactly when the largest draw fits. */
  lemma JitterWithinCapIff(p: Policy, attempt: nat, ratio: real)
    requires p.Legal() && attempt >= 1
    ensures (forall share :: 0.0 <= share <= 1.0 ==> Jittered(p, attempt, ratio, share) <= p.maxDelay) <==>
      ratio <= 0.0 || Delay(p, attempt) + Delay(p, attempt) * ratio <= p.maxDelay
  {
    RawDelayStep(p, attempt);
    var delay := Delay(p, attempt);
    var extra := delay * ratio;
    if ratio > 0.0 {
      LargestDraw(p, attempt, ratio, extra);
      forall share | 0.0 <= share <= 1.0 ensures Jittered(p, attempt, ratio, share) <= delay + extra {
        DrawBounded(p, attempt, ratio, extra, share);
      }
    }
  }

  /** With a delay at its cap any jitter may exceed it: one second capped at one second, and half as much again. */
  lemma JitterExceedsCap(p: Policy)
    requires p == Policy(3, 1.0, 1.0, Fixed)
    ensures p.Legal() && Jittered(p, 1, 0.5, 1.0) == 1.5 > p.maxDelay
  {
    assert Delay(p, 1) == 1.0;
  }

  lemma LargestDraw(p: Policy, attempt: nat, ratio: real, extra: real)
    requires attempt >= 1 && ratio > 0.0 && Delay(p, attempt) >= 0.0 && extra == Delay(p, attempt) * ratio
    ensures extra >= 0.0 && Jittered(p, attempt, ratio, 1.0) == Delay(p, attempt) + extra
  {
  }

  lemma DrawBounded(p: Policy, attempt: nat, ratio: real, extra: real, share: real)
    requires attempt >= 1 && extra == Delay(p, attempt) * ratio && extra >= 0.0 && 0.0 <= share <= 1.0
    ensures Jittered(p, attempt, ratio, share) <= Delay(p, attempt) + extra
  {
    var delay := Delay(p, attempt);
    assert Jittered(p, attempt, ratio, share) == if ratio > 0.0 && delay > 0.0 then delay + share * extra else delay;
    ShareOf(share, extra);
  }

  lemma ShareOf(share: real, extra: real)
    requires 0.0 <= share <= 1.0 && extra >= 0.0
    ensures 0.0 <= share * extra <= extra
  {
    assert (1.0 - share) * extra >= 0.0;
    assert (1.0 - share) * extra == extra - share * extra;
  }

  datatype Attempt<T> = Value(value: T) | Failure(error: string, retryable: bool)

  function Sum(waits: seq<real>): real {
    if waits == [] then 0.0 else Sum(waits[..|waits| - 1]) + waits[|waits| - 1]
  }

  lemma {:induction false} SumBounded(waits: seq<real>, bound: real)
    requires forall i :: 0 <= i < |waits| ==> waits[i] <= bound
    ensures Sum(waits) <= bound * (|waits| as real)
  {
    if waits != [] { SumBounded(waits[..|waits| - 1], bound); }
  }

  /**
   * The operation runs until its first success, its first failure that may not be retried, or maxRetries + 1 times; the
   * last outcome is the answer and between two runs the policy's delay is waited.
   */
  method RetryAsync<T>(p: Policy, operation: nat -> Attempt<T>)
    returns (answer: Result<T, string>, calls: nat, waits: seq<real>)
    requires p.Legal()
    ensures 1 <= calls <= p.maxRetries + 1
    ensures forall k :: 1 <= k < calls ==> operation(k).Failure? && operation(k).retryable
    ensures match operation(calls)
      case Value(v) => answer == Ok(v)
      case Failure(e, retryable) => answer == Err(e) && (retryable ==> calls == p.maxRetries + 1)
    ensures |waits| == calls - 1 && forall i :: 0 <= i < |waits| ==> waits[i] == Delay(p, i + 1)
    ensures Sum(waits) <= p.maxDelay * ((calls - 1) as real)
  {
    calls, waits := 0, [];
    while true
      invariant calls <= p.maxRetries
      invariant forall k :: 1 <= k <= calls ==> operation(k).Failure? && operation(k).retryable
      invariant |waits| == calls && forall i :: 0 <= i < |waits| ==> waits[i] == Delay(p, i + 1)
      decreases p.maxRetries - calls
    {
      calls := calls + 1;
      match operation(calls) {
        case Value(v) =>
          WaitsBounded(p, waits);
          return Ok(v), calls, waits;
        case Failure(e, retryable) =>
          if !retryable || calls > p.maxRetries {
            WaitsBounded(p, waits);
            return Err(e), calls, waits;
          }
          waits := waits + [Delay(p, calls)];
      }
    }
  }

  lemma WaitsBounded(p: Policy, waits: seq<real>)
    requires p.Legal() && forall i :: 0 <= i < |waits| ==> waits[i] == Delay(p, i + 1)
    ensures Sum(waits) <= p.maxDelay * (|waits| as real)
  {
    SumBounded(waits, p.maxDelay);
  }
}
