/** How soon a failed delivery or outbox row is tried again. Durations are nanoseconds. */
module Retry {
  // The longest duration there is: `u64::MAX` seconds and 999,999,999 nanoseconds.
  const DURATION_MAX: nat := 0xFFFF_FFFF_FFFF_FFFF * 1_000_000_000 + 999_999_999

  type Duration = nanos: nat | nanos <= DURATION_MAX

  function Min(a: int, b: int): int {
    if a < b then a else b
  }

  function Max(a: int, b: int): int {
    if a > b then a else b
  }

  function SaturatingDouble(duration: Duration): Duration {
    Min(2 * duration, DURATION_MAX)
  }

  function Pow2(exponent: nat): (power: nat)
    ensures power > 0
  {
    if exponent == 0 then 1 else 2 * Pow2(exponent - 1)
  }

  datatype RetryPolicy = RetryPolicy(attempts: nat, firstDelay: Duration, maxDelay: Duration) {
    // How long to wait once this attempt failed: doubled each time, over unbounded integers.
    function DelayAfter(attempt: nat): Duration {
      Min(firstDelay * Pow2(if attempt == 0 then 0 else attempt - 1), maxDelay)
    }

    // No attempt follows this one.
    predicate IsLast(attempt: nat) {
      attempt >= attempts
    }

    // How many failures a message or row gets: a policy of 0 attempts still makes one.
    function Bound(): nat {
      if attempts == 0 then 1 else attempts
    }

    // The first failure waits the first delay, and each later one twice as long as the one before it, up
    // to the longest delay.
    lemma DelayDoubles(attempt: nat)
      ensures DelayAfter(1) == Min(firstDelay, maxDelay)
      ensures attempt >= 1 ==> DelayAfter(attempt + 1) == Min(2 * DelayAfter(attempt), maxDelay)
    {
      if attempt >= 1 {
        var power := Pow2(attempt - 1);
        assert Pow2(attempt) == 2 * power;
        assert firstDelay * (2 * power) == 2 * (firstDelay * power);
      }
      assert Pow2(0) == 1;
    }

    // The saturating loop with its early exit computes the exact delay. It stops doubling at the
    // longest delay, so it doubles about log2(maxDelay / firstDelay) + 1 times, whatever the attempt.
    method Delay(attempt: nat) returns (delay: Duration, ghost doublings: nat)
      ensures delay == DelayAfter(attempt)
      ensures doublings > 0 ==> firstDelay * Pow2(doublings - 1) < maxDelay
      ensures doublings <= attempt
    {
      delay, doublings := firstDelay, 0;
      var next := 1;
      while next < attempt
        invariant 1 <= next <= Max(attempt, 1)
        invariant doublings == next - 1
        invariant delay == Min(firstDelay * Pow2(doublings), DURATION_MAX)
        invariant doublings > 0 ==> firstDelay * Pow2(doublings - 1) < maxDelay
      {
        if delay == 0 || delay >= maxDelay {
          DelayReached(delay, attempt, next);
          delay := Min(delay, maxDelay);
          return;
        }
        assert 2 * (firstDelay * Pow2(doublings)) == firstDelay * Pow2(doublings + 1);
        delay, doublings := SaturatingDouble(delay), doublings + 1;
        next := next + 1;
      }
      delay := Min(delay, maxDelay);
    }

    // Once the delay is zero or the longest one, more doublings don't change it.
    lemma DelayReached(delay: Duration, attempt: nat, next: nat)
      requires 1 <= next <= attempt
      requires delay == Min(firstDelay * Pow2(next - 1), DURATION_MAX)
      requires delay == 0 || delay >= maxDelay
      ensures Min(delay, maxDelay) == DelayAfter(attempt)
    {
      Pow2Grows(next - 1, attempt - 1);
      if firstDelay > 0 {
        Scales(firstDelay, Pow2(next - 1), Pow2(attempt - 1));
        Scales(firstDelay, 1, Pow2(next - 1));
      }
    }

    // The waits never shrink and never exceed the longest one.
    lemma DelayGrows(attempt: nat, later: nat)
      requires attempt <= later
      ensures DelayAfter(attempt) <= DelayAfter(later) <= maxDelay
    {
      var first, second := if attempt == 0 then 0 else attempt - 1, if later == 0 then 0 else later - 1;
      Pow2Grows(first, second);
      Scales(firstDelay, Pow2(first), Pow2(second));
    }
  }

  lemma {:induction false} Pow2Grows(low: nat, high: nat)
    requires low <= high
    ensures Pow2(low) <= Pow2(high)
    decreases high - low
  {
    if low < high {
      Pow2Grows(low, high - 1);
    }
  }

  lemma Scales(factor: nat, low: nat, high: nat)
    requires low <= high
    ensures factor * low <= factor * high
  {
  }
}
