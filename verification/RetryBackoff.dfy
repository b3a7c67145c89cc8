/** The station's reconnect delay: three immediate retries, then a delay that doubles from five
    seconds up to a minute. */
module RetryBackoff {

  const FAST_RETRIES := 3
  const BACKOFF_MIN_MS := 5000
  const BACKOFF_MAX_MS := 60000
  const UNSIGNED_RANGE := 0x1_0000_0000

  function Min(a: int, b: int): int {
    if a < b then a else b
  }

  function Pow2(n: nat): nat {
    if n == 0 then 1 else 2 * Pow2(n - 1)
  }

  /** The promised schedule: nothing for the fast retries, then 5 s doubled per attempt, capped. */
  function RetryDelay(attempt: nat): nat
  {
    if attempt < FAST_RETRIES then 0
    else Min(BACKOFF_MIN_MS * Pow2(attempt - FAST_RETRIES), BACKOFF_MAX_MS)
  }

  lemma {:induction false} Pow2Monotone(m: nat, n: nat)
    requires m <= n
    ensures 1 <= Pow2(m) <= Pow2(n)
    decreases n
  {
    if m == n {
      if n > 0 { Pow2Monotone(n - 1, n - 1); }
    } else {
      Pow2Monotone(m, n - 1);
    }
  }

  lemma DelayMonotone(a: nat, b: nat)
    requires a <= b
    ensures RetryDelay(a) <= RetryDelay(b) <= BACKOFF_MAX_MS
    ensures RetryDelay(a) == 0 <==> a < FAST_RETRIES
  {
    if a >= FAST_RETRIES {
      Pow2Monotone(a - FAST_RETRIES, b - FAST_RETRIES);
    } else if b >= FAST_RETRIES {
      Pow2Monotone(0, b - FAST_RETRIES);
    }
  }

  /** The schedule by its own law: five seconds at the fourth attempt, doubled from one to the next up to
      a minute. */
  lemma ScheduleLaw(a: nat)
    ensures a < 3 ==> RetryDelay(a) == 0
    ensures RetryDelay(3) == 5000
    ensures a >= 3 ==> RetryDelay(a + 1) == if 2 * RetryDelay(a) < 60000 then 2 * RetryDelay(a) else 60000
  {
    if a >= 3 {
      assert Pow2(a + 1 - 3) == 2 * Pow2(a - 3);
    }
    assert Pow2(0) == 1;
  }

  /** The doubling loop in 32-bit unsigned arithmetic. The count is decremented past zero by the
      final test, as the C expression does, and wraps; the delay itself never overflows. */
  method RetryDelayMs(attempt: nat) returns (delay: nat)
    requires attempt < UNSIGNED_RANGE
    ensures delay == RetryDelay(attempt)
  {
    if attempt < FAST_RETRIES { return 0; }
    var step := attempt - FAST_RETRIES;
    delay := BACKOFF_MIN_MS;
    ghost var doubled: nat := 0;
    var again := step > 0 && delay < BACKOFF_MAX_MS;
    step := (step + UNSIGNED_RANGE - 1) % UNSIGNED_RANGE;
    while again
      invariant doubled <= attempt - FAST_RETRIES
      invariant delay == BACKOFF_MIN_MS * Pow2(doubled) && delay < 2 * BACKOFF_MAX_MS
      invariant again ==> doubled < attempt - FAST_RETRIES && delay < BACKOFF_MAX_MS && step == attempt - FAST_RETRIES - doubled - 1
      invariant !again ==> delay >= BACKOFF_MAX_MS || doubled == attempt - FAST_RETRIES
      decreases attempt - FAST_RETRIES - doubled, again
    {
      delay := delay * 2 % UNSIGNED_RANGE;
      doubled := doubled + 1;
      again := step > 0 && delay < BACKOFF_MAX_MS;
      step := (step + UNSIGNED_RANGE - 1) % UNSIGNED_RANGE;
    }
    Pow2Monotone(doubled, attempt - FAST_RETRIES);
    delay := if delay < BACKOFF_MAX_MS then delay else BACKOFF_MAX_MS;
  }
}
