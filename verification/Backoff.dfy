/** The capped exponential backoff between attempts. */
module Backoff {

  function Pow2(n: nat): (r: int)
    ensures r >= 1
  {
    if n == 0 then 1 else 2 * Pow2(n - 1)
  }

  function Min(a: int, b: int): int {
    if a <= b then a else b
  }

  /** The jitter's upper bound for the given attempt, counted from 1. */
  function RetryCap(base: int, maxDelay: int, attempt: nat): int {
    Min(base * Pow2(if attempt >= 1 then attempt - 1 else 0), maxDelay)
  }

  lemma {:induction false} Pow2Monotone(m: nat, n: nat)
    requires m <= n
    ensures Pow2(m) <= Pow2(n)
  {
    if m < n {
      Pow2Monotone(m, n - 1);
    }
  }

  lemma CapSaturates(base: int, maxDelay: int, i: nat, attempt: nat)
    requires base >= 0 && 1 <= i <= attempt && base * Pow2(i - 1) >= maxDelay
    ensures RetryCap(base, maxDelay, attempt) == maxDelay
  {
    Pow2Monotone(i - 1, attempt - 1);
    assert base * Pow2(i - 1) <= base * Pow2(attempt - 1);
  }

  const MAX_INT64 := 0x7fff_ffff_ffff_ffff

  /**
    The loop of retryDelay up to the jitter. No value it computes exceeds MAX_INT64, so the doubling cannot wrap.
   */
  method RetryCapLoop(base: int, maxDelay: int, attempt: nat) returns (cap: int)
    requires 0 < base <= MAX_INT64 && 0 < maxDelay <= MAX_INT64
    ensures cap == RetryCap(base, maxDelay, attempt)
    ensures 0 < cap <= maxDelay
  {
    cap := base;
    var i: nat := 1;
    while i < attempt && cap < maxDelay
      invariant 1 <= i && (i <= attempt || i == 1)
      invariant cap == base * Pow2(i - 1) && 0 < cap <= MAX_INT64
    {
      if cap > maxDelay / 2 {
        assert 2 * cap == base * Pow2(i);
        CapSaturates(base, maxDelay, i + 1, attempt);
        return maxDelay;
      }
      assert 2 * cap <= maxDelay;
      cap := cap * 2;
      i := i + 1;
    }
    if cap > maxDelay {
      cap := maxDelay;
    }
    if i < attempt {
      CapSaturates(base, maxDelay, i, attempt);
    }
  }
}
