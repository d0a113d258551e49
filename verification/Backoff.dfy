/** The retry policy of internal/core/dag/executor.go and its delay sequence. Durations
    are 64-bit integers, so doubling can wrap. */
module Backoff {

  datatype RetryPolicy = RetryPolicy(maxRetries: int, baseDelay: int, maxDelay: int)

  const TWO_62: int := 0x4000_0000_0000_0000
  const TWO_63: int := 0x8000_0000_0000_0000
  const TWO_64: int := 0x1_0000_0000_0000_0000

  /** The value a 64-bit signed register holds. */
  function Wrap64(x: int): (r: int)
    ensures -TWO_63 <= r < TWO_63
    ensures -TWO_63 <= x < TWO_63 ==> r == x
  {
    (x + TWO_63) % TWO_64 - TWO_63
  }

  /** `delay *= 2`, then the cap. */
  function NextDelay(delay: int, maxDelay: int): int {
    var doubled := Wrap64(delay * 2);
    if doubled > maxDelay then maxDelay else doubled
  }

  /** The wait before retry `k + 1`. */
  function Delay(p: RetryPolicy, k: nat): int {
    if k == 0 then p.baseDelay else NextDelay(Delay(p, k - 1), p.maxDelay)
  }

  /** The number of times a node that never succeeds is executed. */
  function Attempts(p: RetryPolicy): nat {
    if p.maxRetries < 0 then 0 else p.maxRetries + 1
  }

  /** The number of waits between those attempts. */
  function Waits(p: RetryPolicy): nat {
    if p.maxRetries < 0 then 0 else p.maxRetries
  }

  /** The base doubled `k` times, without a register width. */
  function Doubled(base: int, k: nat): int {
    if k == 0 then base else 2 * Doubled(base, k - 1)
  }

  /** Exponential backoff as documented: the smaller of `base * 2^k` and the cap. */
  function Documented(p: RetryPolicy, k: nat): int {
    var uncapped := Doubled(p.baseDelay, k);
    if uncapped <= p.maxDelay then uncapped else p.maxDelay
  }

  /** Durations are 64-bit values of either sign. */
  ghost predicate Durations(p: RetryPolicy) {
    -TWO_63 <= p.baseDelay < TWO_63 && -TWO_63 <= p.maxDelay < TWO_63
  }

  /** The doublings that lead to the waits 1 to `m - 1` do not leave the register. */
  predicate NoWrap(p: RetryPolicy, m: nat) {
    m <= 1 ||
    if p.baseDelay >= 0 then
      p.baseDelay < TWO_62 && (p.maxDelay < TWO_62 || Doubled(p.baseDelay, m - 2) < TWO_62)
    else Doubled(p.baseDelay, m - 1) >= -TWO_63
  }

  /** What a caller can check beforehand. */
  predicate SafePolicy(p: RetryPolicy) {
    Waits(p) == 0 || (p.baseDelay <= p.maxDelay && NoWrap(p, Waits(p)))
  }

  lemma {:induction false} DoubledSign(base: int, k: nat)
    ensures base >= 0 ==> Doubled(base, k) >= 0
    ensures base < 0 ==> Doubled(base, k) <= base
  {
    if k > 0 {
      DoubledSign(base, k - 1);
    }
  }

  /** The wait after `d`: as documented if `2 * d` fits the register. */
  lemma OneDoubling(d: int, maxDelay: int)
    requires -TWO_63 <= d < TWO_63 && -TWO_63 <= maxDelay
    ensures -TWO_62 <= d < TWO_62 ==> NextDelay(d, maxDelay) == if 2 * d <= maxDelay then 2 * d else maxDelay
    ensures d >= TWO_62 && maxDelay >= 0 ==> NextDelay(d, maxDelay) < 0
    ensures d < -TWO_62 && 2 * d <= maxDelay ==> NextDelay(d, maxDelay) > 2 * d
  {
    if d >= TWO_62 {
      assert 2 * d + TWO_63 == TWO_64 + (2 * d - TWO_63);
    }
  }

  /** A wait after the first is as documented exactly when the one before it, being as
      documented or the first, can be doubled. */
  lemma StepExact(p: RetryPolicy, k: nat)
    requires Durations(p) && (p.baseDelay <= p.maxDelay || 0 <= p.maxDelay)
    requires k >= 1 && (k == 1 || Delay(p, k - 1) == Documented(p, k - 1))
    ensures Delay(p, k) == Documented(p, k) <==> -TWO_62 <= Delay(p, k - 1) < TWO_62
    ensures 0 <= p.baseDelay && Delay(p, k) != Documented(p, k) ==> Delay(p, k) < 0
    ensures p.baseDelay < 0 ==> Delay(p, k - 1) == Doubled(p.baseDelay, k - 1)
  {
    DoubledSign(p.baseDelay, k - 1);
    DelayFits(p, k - 1);
    OneDoubling(Delay(p, k - 1), p.maxDelay);
  }

  lemma {:induction false} DelayFits(p: RetryPolicy, k: nat)
    requires Durations(p)
    ensures -TWO_63 <= Delay(p, k) < TWO_63
  {
    if k > 0 {
      DelayFits(p, k - 1);
    }
  }

  /** The waits after the first, exactly, unless the cap is negative and below the base. */
  lemma {:induction false} LaterWaitsExact(p: RetryPolicy, m: nat)
    requires Durations(p) && (p.baseDelay <= p.maxDelay || 0 <= p.maxDelay)
    ensures (forall k: nat | 1 <= k < m :: Delay(p, k) == Documented(p, k)) <==> NoWrap(p, m)
  {
    if m >= 2 {
      LaterWaitsExact(p, m - 1);
      DoubledSign(p.baseDelay, m - 2);
      if m >= 3 {
        DoubledSign(p.baseDelay, m - 3);
      }
      if NoWrap(p, m - 1) {
        StepExact(p, m - 1);
      }
    }
  }

  /** The first wait is never capped. */
  lemma FirstWaitExact(p: RetryPolicy)
    ensures Delay(p, 0) == Documented(p, 0) <==> p.baseDelay <= p.maxDelay
  {
  }

  /** Every wait a policy makes is the documented one, exactly for the safe policies. */
  lemma BackoffExact(p: RetryPolicy)
    requires Durations(p)
    ensures (forall k: nat | k < Waits(p) :: Delay(p, k) == Documented(p, k)) <==> SafePolicy(p)
  {
    FirstWaitExact(p);
    if p.baseDelay <= p.maxDelay {
      LaterWaitsExact(p, Waits(p));
    }
  }

  /** When the doublings do wrap, some wait the policy makes is negative, which is no wait at all. */
  lemma {:induction false} NegativeWait(p: RetryPolicy, m: nat) returns (k: nat)
    requires Durations(p) && 0 <= p.baseDelay && 0 <= p.maxDelay && !NoWrap(p, m)
    ensures 1 <= k < m && Delay(p, k) < 0
  {
    if !NoWrap(p, m - 1) {
      k := NegativeWait(p, m - 1);
    } else {
      k := m - 1;
      LaterWaitsExact(p, m - 1);
      LaterWaitsExact(p, m);
      StepExact(p, k);
    }
  }

  /** A cap of 2^62 does no harm to a policy that makes few waits. */
  lemma LargeCapIsFine()
    ensures SafePolicy(RetryPolicy(3, 5_000_000_000, TWO_62))
    ensures exists m: nat :: !SafePolicy(RetryPolicy(m, 5_000_000_000, TWO_62))
  {
    var p := RetryPolicy(3, 5_000_000_000, TWO_62);
    assert Doubled(5_000_000_000, 1) == 10_000_000_000;
    var m := PastBound(5_000_000_000, TWO_62);
    assert !SafePolicy(RetryPolicy(m + 2, 5_000_000_000, TWO_62));
  }

  /** Doubling a positive base eventually passes any bound. */
  lemma {:induction false} PastBound(base: int, bound: int) returns (k: nat)
    requires 0 < base
    ensures Doubled(base, k) >= bound
    decreases bound - base
  {
    if base >= bound {
      k := 0;
    } else {
      k := PastBound(2 * base, bound);
      DoubledShift(base, k);
      k := k + 1;
    }
  }

  lemma {:induction false} DoubledShift(base: int, k: nat)
    ensures Doubled(base, k + 1) == Doubled(2 * base, k)
  {
    if k > 0 {
      DoubledShift(base, k - 1);
    }
  }
}
