/**
 Delays: the restart backoff of a supervised child (concurrency/src/child_spec.rs:127-156,
 concurrency/src/supervisor/mod.rs:134-149) and the retry loop around a remote spawn
 request (concurrency/src/cluster/supervision_remote.rs:169-251).
 */
module Backoff {
  import opened Reasons

  /** Durations in nanoseconds; the largest one has 2^64-1 seconds and 999999999 nanoseconds. */
  const MAX_DURATION: nat := 18446744073709551615 * 1000000000 + 999999999
  type Duration = d: nat | d <= MAX_DURATION

  const MAX_U32: nat := 4294967295
  type Count = n: nat | n <= MAX_U32

  function Min(a: nat, b: nat): nat {
    if a <= b then a else b
  }

  function Pow2(n: nat): (p: nat)
    ensures p >= 1
  {
    if n == 0 then 1 else 2 * Pow2(n - 1)
  }

  /** `d` times `1 << n`, without a product of two unknowns. */
  function Doubled(d: nat, n: nat): (r: nat)
    ensures r >= d
  {
    if n == 0 then d else 2 * Doubled(d, n - 1)
  }

  /** `Duration::saturating_mul` with a power of two. */
  function SaturatingShift(d: Duration, n: nat): Duration {
    if Doubled(d, n) <= MAX_DURATION then Doubled(d, n) else MAX_DURATION
  }

  function TimesPow2(d: nat, n: nat): nat {
    d * Pow2(n)
  }

  lemma {:induction false} DoubledIsProduct(d: nat, n: nat)
    ensures Doubled(d, n) == TimesPow2(d, n)
  {
    if n > 0 {
      DoubledIsProduct(d, n - 1);
      assert d * Pow2(n) == 2 * (d * Pow2(n - 1));
    }
  }

  lemma {:induction false} DoubledMonotone(d: nat, a: nat, b: nat)
    requires a <= b
    ensures Doubled(d, a) <= Doubled(d, b)
  {
    if a < b {
      DoubledMonotone(d, a, b - 1);
    }
  }

  // ----- restart backoff -----

  datatype RestartBackoff = NoBackoff | Fixed(delay: Duration) | Exponential(base: Duration, max: Duration)

  function DelayForAttempt(policy: RestartBackoff, attempt: nat): Duration {
    match policy
    case NoBackoff => 0
    case Fixed(delay) => delay
    case Exponential(base, max) =>
      var shift := Min(if attempt == 0 then 0 else attempt - 1, 20);
      var delay := SaturatingShift(base, shift);
      if delay <= max then delay else max
  }

  /** Count one more attempt for this child and look up its delay. */
  function BackoffDelay(
    attempts: map<string, Count>, id: string, policy: RestartBackoff): (map<string, Count>, Duration)
  {
    if policy.NoBackoff? then (attempts, 0)
    else
      var before: nat := if id in attempts then attempts[id] else 0;
      var attempt: Count := Min(before + 1, MAX_U32);
      (attempts[id := attempt], DelayForAttempt(policy, attempt))
  }

  /** The counters after `k` delays in a row for one child. */
  function AfterDelays(attempts: map<string, Count>, id: string, policy: RestartBackoff, k: nat): map<string, Count> {
    if k == 0 then attempts else BackoffDelay(AfterDelays(attempts, id, policy, k - 1), id, policy).0
  }

  /** The n-th delay in a row for one child. */
  function NthDelay(attempts: map<string, Count>, id: string, policy: RestartBackoff, n: nat): Duration
    requires n >= 1
  {
    BackoffDelay(AfterDelays(attempts, id, policy, n - 1), id, policy).1
  }

  /** Later attempts never wait less. */
  lemma DelayMonotone(policy: RestartBackoff, a: nat, b: nat)
    requires a <= b
    ensures DelayForAttempt(policy, a) <= DelayForAttempt(policy, b)
  {
    if policy.Exponential? {
      DoubledMonotone(policy.base, Min(if a == 0 then 0 else a - 1, 20), Min(if b == 0 then 0 else b - 1, 20));
    }
  }

  lemma {:induction false} CounterAfter(attempts: map<string, Count>, id: string, policy: RestartBackoff, k: nat)
    requires !policy.NoBackoff? && id !in attempts
    ensures k > 0 ==> id in AfterDelays(attempts, id, policy, k)
                      && AfterDelays(attempts, id, policy, k)[id] == Min(k, MAX_U32)
    ensures forall other :: other != id ==>
              (other in AfterDelays(attempts, id, policy, k) <==> other in attempts)
              && (other in attempts ==> AfterDelays(attempts, id, policy, k)[other] == attempts[other])
  {
    if k > 0 {
      CounterAfter(attempts, id, policy, k - 1);
    }
  }

  lemma NthAttempt(attempts: map<string, Count>, id: string, policy: RestartBackoff, k: nat)
    requires !policy.NoBackoff? && id !in attempts && k >= 1
    ensures NthDelay(attempts, id, policy, k) == DelayForAttempt(policy, Min(k, MAX_U32))
  {
    CounterAfter(attempts, id, policy, k - 1);
  }

  /** Saturation never shows: the capped saturating product is the capped mathematical one. */
  lemma ExponentialDelay(base: Duration, max: Duration, attempt: nat)
    requires attempt >= 1
    ensures DelayForAttempt(Exponential(base, max), attempt) == Min(TimesPow2(base, Min(attempt - 1, 20)), max)
  {
    DoubledIsProduct(base, Min(attempt - 1, 20));
  }

  /**
   From a fresh or reset counter, the k-th delay in a row is `base` doubled k-1 times (at
   most 20 times) and capped at `max`. The counter itself saturates, which by then no longer matters.
   */
  lemma KthDelay(attempts: map<string, Count>, id: string, base: Duration, max: Duration, k: nat)
    requires id !in attempts && k >= 1
    ensures NthDelay(attempts, id, Exponential(base, max), k) == Min(TimesPow2(base, Min(k - 1, 20)), max)
  {
    NthAttempt(attempts, id, Exponential(base, max), k);
    ExponentialDelay(base, max, Min(k, MAX_U32));
    assert Min(Min(k, MAX_U32) - 1, 20) == Min(k - 1, 20);
  }

  /** A fixed delay is the same every time, and without backoff there is none. */
  lemma ConstantDelays(attempts: map<string, Count>, id: string, delay: Duration, k: nat)
    requires k >= 1
    ensures NthDelay(attempts, id, Fixed(delay), k) == delay && NthDelay(attempts, id, NoBackoff, k) == 0
  {
  }

  /** Counting for one child leaves every other child's counter alone. */
  lemma OthersKeepCounting(attempts: map<string, Count>, id: string, policy: RestartBackoff, k: nat)
    requires !policy.NoBackoff? && id !in attempts
    ensures AfterDelays(attempts, id, policy, k) - {id} == attempts
  {
    CounterAfter(attempts, id, policy, k);
  }

  // ----- remote spawn with retries -----

  datatype SpawnResult = Spawned(child: ActorId) | TransportFailed | Rejected

  datatype RetryPolicy = RetryPolicy(maxAttempts: Count, baseDelay: Duration, maxDelay: Duration)

  function RetryDelay(attempt: nat, policy: RetryPolicy): Duration {
    var exp := Min(if attempt == 0 then 0 else attempt - 1, 16);
    var delay := SaturatingShift(policy.baseDelay, exp);
    if delay <= policy.maxDelay then delay else policy.maxDelay
  }

  /** The wait after the k-th failed request: base times 2^min(k-1, 16), capped. */
  lemma RetryDelayExact(k: nat, policy: RetryPolicy)
    requires k >= 1
    ensures RetryDelay(k, policy) == Min(TimesPow2(policy.baseDelay, Min(k - 1, 16)), policy.maxDelay)
  {
    DoubledIsProduct(policy.baseDelay, Min(k - 1, 16));
  }

  /** Total sleep before attempt `n + 1`. */
  function TotalSleep(n: nat, policy: RetryPolicy): nat {
    if n == 0 then 0 else TotalSleep(n - 1, policy) + RetryDelay(n, policy)
  }

  lemma OneMore(n: nat, total: nat, delay: nat, cap: nat)
    requires n >= 1 && total <= (n - 1) * cap && delay <= cap
    ensures total + delay <= n * cap
  {
    assert n * cap == (n - 1) * cap + cap;
  }

  lemma {:induction false} SleepBound(n: nat, policy: RetryPolicy)
    ensures TotalSleep(n, policy) <= n * policy.maxDelay
  {
    if n > 0 {
      SleepBound(n - 1, policy);
      OneMore(n, TotalSleep(n - 1, policy), RetryDelay(n, policy), policy.maxDelay);
    }
  }

  /**
   `respond(k)` is what the k-th request comes back with. The loop stops at the first
   answer that is not a transport failure, or at the last allowed attempt, whichever comes
   first; a policy of zero attempts still makes one request.
   */
  method RequestSpawnWithRetry(policy: RetryPolicy, respond: nat -> SpawnResult)
    returns (result: SpawnResult, requests: nat, slept: nat)
    ensures 1 <= requests <= (if policy.maxAttempts == 0 then 1 else policy.maxAttempts)
    ensures result == respond(requests)
    ensures forall k :: 1 <= k < requests ==> respond(k).TransportFailed?
    ensures result.TransportFailed? ==> requests >= policy.maxAttempts
    ensures slept == TotalSleep(requests - 1, policy) <= (requests - 1) * policy.maxDelay
  {
    var attempt: nat := 0;
    slept := 0;
    while true
      invariant attempt == 0 || attempt < policy.maxAttempts
      invariant forall k :: 1 <= k <= attempt ==> respond(k).TransportFailed?
      invariant slept == TotalSleep(attempt, policy)
      decreases policy.maxAttempts - attempt
    {
      attempt := attempt + 1;
      result := respond(attempt);
      if !result.TransportFailed? || attempt >= policy.maxAttempts {
        SleepBound(attempt - 1, policy);
        return result, attempt, slept;
      }
      slept := slept + RetryDelay(attempt, policy);
    }
  }
}
