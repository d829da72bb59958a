/**
 The 32-bit millisecond clock. Real time is a natural number; the device sees it modulo 2^32 and
 compares instants by the sign of their wrapped difference.
 */
module WrappingClock {
  import opened BacnetTypes

  const TICKS := 0x1_0000_0000
  const HALF := 0x8000_0000

  /** What a 32-bit register shows of `x`. */
  function Wrap(x: int): (r: uint32)
  {
    x % TICKS
  }

  /** `static_cast<int32_t>(now - deadline) >= 0` on 32-bit operands. */
  predicate Reached(now: uint32, deadline: uint32) {
    Wrap(now - deadline) < HALF
  }

  function CeilSeconds(ms: nat): nat {
    (ms + 999) / 1000
  }

  /** Longest lifetime, in seconds, whose millisecond count stays below half the clock's range. */
  const MAX_EXACT_LIFETIME := 2147483

  /** The remaining time a notification carries. */
  function SecondsLeft(expiresAt: uint32, now: uint32): (seconds: uint32) {
    Wrap(Wrap(expiresAt - now) + 999) / 1000
  }

  lemma WrapOfDifference(a: int, b: int)
    ensures Wrap(Wrap(a) - Wrap(b)) == Wrap(a - b)
  {
    var qa, qb := a / TICKS, b / TICKS;
    assert a - b == (Wrap(a) - Wrap(b)) + (qa - qb) * TICKS;
  }

  lemma WrapOfSum(a: int, b: int)
    ensures Wrap(Wrap(a) + b) == Wrap(a + b)
  {
    assert a + b == (Wrap(a) + b) + (a / TICKS) * TICKS;
  }

  lemma WrapUnique(x: int, r: uint32, k: int)
    requires x == r + k * TICKS
    ensures Wrap(x) == r
  {}

  /** Within 2^31 ms on the late side and up to 2^31 ms on the early side the comparison is exact. */
  lemma ReachedIsExact(time: int, deadline: int)
    requires time < deadline + HALF && deadline <= time + HALF
    ensures Reached(Wrap(time), Wrap(deadline)) <==> deadline <= time
  {
    WrapOfDifference(time, deadline);
    if deadline <= time {
      WrapUnique(time - deadline, time - deadline, 0);
    } else {
      WrapUnique(time - deadline, time - deadline + TICKS, -1);
    }
  }

  /** A delay that the clock judges correctly at every instant from its start to 2^31 ms past its end. */
  ghost predicate JudgesDelay(start: nat, delay: nat) {
    forall time: nat :: start <= time < start + delay + HALF ==>
      (Reached(Wrap(time), Wrap(start + delay)) <==> start + delay <= time)
  }

  /** A delay is judged exactly on the whole window precisely when it is at most half the clock's range. */
  lemma DelayJudgedIff(start: nat, delay: nat)
    ensures JudgesDelay(start, delay) <==> delay <= HALF
  {
    var deadline := start + delay;
    if delay <= HALF {
      forall time: nat | start <= time < deadline + HALF
        ensures Reached(Wrap(time), Wrap(deadline)) <==> deadline <= time
      {
        ReachedIsExact(time, deadline);
      }
    } else {
      // one tick more than half the range before the deadline already counts as reached
      var early: nat := deadline - HALF - 1;
      WrapOfDifference(early, deadline);
      WrapUnique(early - deadline, HALF - 1, -1);
      assert start <= early < deadline + HALF;
      assert Reached(Wrap(early), Wrap(deadline)) && early < deadline;
    }
  }

  /** Expiry is judged exactly on the whole window precisely when the lifetime is at most 2147483 s. */
  lemma LifetimeJudgedIff(granted: nat, lifetime: uint32)
    ensures JudgesDelay(granted, 1000 * lifetime) <==> lifetime <= MAX_EXACT_LIFETIME
  {
    DelayJudgedIff(granted, 1000 * lifetime);
  }

  /** The remaining time sent is the ceiling of what is left, from 1 s to the whole lifetime. */
  lemma SecondsLeftIsCeiling(granted: nat, lifetime: uint32, time: nat)
    requires lifetime <= MAX_EXACT_LIFETIME
    requires granted <= time < granted + 1000 * lifetime
    ensures var deadline := granted + 1000 * lifetime;
            SecondsLeft(Wrap(deadline), Wrap(time)) == CeilSeconds(deadline - time) &&
            1 <= CeilSeconds(deadline - time) <= lifetime
  {
    var left := granted + 1000 * lifetime - time;
    WrapOfDifference(granted + 1000 * lifetime, time);
    WrapUnique(left, left, 0);
    WrapUnique(left + 999, left + 999, 0);
  }

  const MAX_RETRY_DELAY := 0x7FFF_FFFE

  /** The back-off after a failed send: timeout times the retry count, clamped below 2^31 - 1 ms. */
  function RetryDelay(apduTimeout: uint32, retries: uint8): (delay: uint32)
    ensures 1 <= delay <= MAX_RETRY_DELAY
  {
    var base := if apduTimeout != 0 then apduTimeout else 1000;
    var factor := if retries != 0 then retries else 1;
    assert base * factor >= 1 by { TimesPositive(base, factor); }
    if base * factor < MAX_RETRY_DELAY then base * factor else MAX_RETRY_DELAY
  }

  lemma TimesPositive(a: int, b: int)
    requires a >= 1 && b >= 1
    ensures a * b >= 1
  {}

  /** The stored deadline; zero means "no retry pending", so a deadline that wraps to zero becomes 1. */
  function RetryDeadline(now: uint32, apduTimeout: uint32, retries: uint8): (at: uint32)
  {
    var at := Wrap(now + RetryDelay(apduTimeout, retries));
    if at == 0 then 1 else at
  }

  /**
   The stored deadline is never the "none" marker, lies strictly ahead, and becomes due exactly
   `delay` ms later, or one tick after that when the deadline wrapped to zero.
   */
  lemma RetryDeadlineIsAhead(time: nat, apduTimeout: uint32, retries: uint8, later: nat)
    requires time <= later < time + HALF
    ensures var at := RetryDeadline(Wrap(time), apduTimeout, retries);
            var delay := RetryDelay(apduTimeout, retries);
            var slip := if Wrap(time + delay) == 0 then 1 else 0;
            at != 0 && !Reached(Wrap(time), at) &&
            (Reached(Wrap(later), at) <==> time + delay + slip <= later)
  {
    var delay := RetryDelay(apduTimeout, retries);
    WrapOfSum(time, delay);
    var slip := if Wrap(time + delay) == 0 then 1 else 0;
    WrapUnique(time + delay + slip, RetryDeadline(Wrap(time), apduTimeout, retries), (time + delay) / TICKS);
    ReachedIsExact(time, time + delay + slip);
    ReachedIsExact(later, time + delay + slip);
  }
}
