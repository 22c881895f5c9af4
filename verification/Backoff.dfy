/** The publisher's capped exponential backoff, on 64-bit durations. */
module Backoff {
  import opened Options
  import opened Integers

  const MAX_INT64 := 0x7FFF_FFFF_FFFF_FFFF

  /** What a 64-bit sum or product of value x holds. */
  function Wrap(x: int): int {
    (x + 0x8000_0000_0000_0000) % 0x1_0000_0000_0000_0000 - 0x8000_0000_0000_0000
  }

  function Pow2(n: nat): nat {
    if n == 0 then 1 else 2 * Pow2(n - 1)
  }

  datatype Backoff = Backoff(base: int, max: int)

  predicate Valid(b: Backoff) {
    0 < b.base <= b.max <= MAX_INT64
  }

  /** The delay after n failed attempts, before jitter: twice the one before, or the maximum once
      that has reached half of it. */
  function Plain(b: Backoff, n: nat): int {
    if n == 0 then b.base
    else if Plain(b, n - 1) >= b.max / 2 then b.max
    else 2 * Plain(b, n - 1)
  }

  /** The capped power of two, with its one exception. */
  function CappedPower(b: Backoff, n: nat): int {
    if n >= 1 && b.base * Pow2(n) == b.max - 1 then b.max else Min(b.base * Pow2(n), b.max)
  }

  /** A fifth of the delay, rounded down. */
  function JitterRange(delay: int): int {
    delay / 5
  }

  method NewBackoff(base: int, max: int) returns (r: Option<Backoff>)
    requires max <= MAX_INT64
    ensures r == if 0 < base <= max then Some(Backoff(base, max)) else None
    ensures r.Some? ==> Valid(r.value)
  {
    if base <= 0 { return None; }
    if max < base { return None; }
    return Some(Backoff(base, max));
  }

  /** The loop, which stops at the maximum.  It never holds a value above the maximum, so the
      64-bit doubling does not wrap. */
  method Doubled(b: Backoff, attemptCount: nat) returns (delay: int)
    requires Valid(b)
    ensures delay == Plain(b, attemptCount)
    ensures delay == if attemptCount >= 1 && b.base * Pow2(attemptCount) == b.max - 1 then b.max
                     else Min(b.base * Pow2(attemptCount), b.max)
  {
    delay := b.base;
    PlainIsCappedPower(b, attemptCount);
    for i := 0 to attemptCount
      invariant delay == Plain(b, i) && 0 < delay <= b.max
    {
      if delay >= b.max / 2 {
        StaysAtMaximum(b, i + 1, attemptCount);
        return b.max;
      }
      delay := Wrap(delay * 2);
    }
  }

  lemma {:induction false} StaysAtMaximum(b: Backoff, i: nat, n: nat)
    requires Valid(b) && i <= n && Plain(b, i) == b.max
    ensures Plain(b, n) == b.max
    decreases n
  {
    if i < n { StaysAtMaximum(b, i, n - 1); }
  }

  lemma DoublesOnce(b: Backoff, i: nat)
    ensures b.base * Pow2(i + 1) == 2 * (b.base * Pow2(i))
  {}

  lemma {:induction false} PowersGrow(b: Backoff, i: nat, n: nat)
    requires b.base > 0 && i <= n
    ensures 0 < b.base * Pow2(i) <= b.base * Pow2(n)
    ensures i < n ==> b.base * Pow2(n) >= 2 * (b.base * Pow2(i))
    decreases n
  {
    if i == n {
      if n > 0 { PowersGrow(b, n - 1, n - 1); DoublesOnce(b, n - 1); }
    } else {
      PowersGrow(b, i, n - 1);
      DoublesOnce(b, n - 1);
    }
  }

  /** The delay with jitter; `draw` is what the random source returns, from 0 to twice the range.
      The 64-bit sum wraps only when the delay is within its jitter of the largest duration, and
      then the delay is nothing at all. */
  method Delay(b: Backoff, attemptCount: int, draw: int) returns (d: int)
    requires Valid(b)
    requires 0 <= draw <= 2 * JitterRange(Plain(b, if attemptCount < 0 then 0 else attemptCount))
    ensures var plain := Plain(b, if attemptCount < 0 then 0 else attemptCount);
            var jittered := plain + draw - JitterRange(plain);
            d == if jittered > MAX_INT64 then 0 else Min(jittered, b.max)
    ensures 0 <= d <= b.max
    ensures var plain := Plain(b, if attemptCount < 0 then 0 else attemptCount);
            4 * plain <= 5 * d <= 6 * plain <==> plain + draw - JitterRange(plain) <= MAX_INT64
    ensures 6 * b.max <= 5 * MAX_INT64 ==>
              Plain(b, if attemptCount < 0 then 0 else attemptCount) + draw
                - JitterRange(Plain(b, if attemptCount < 0 then 0 else attemptCount)) <= MAX_INT64
  {
    var n := if attemptCount < 0 then 0 else attemptCount;
    var delay := Doubled(b, n);
    if delay > b.max { delay := b.max; }
    PlainBounds(b, n);
    var jitterRange := JitterRange(delay);
    if jitterRange <= 0 { return delay; }
    var jitter := draw - jitterRange;
    var withJitter := Wrap(delay + jitter);
    if withJitter < 0 { return 0; }
    if withJitter > b.max { return b.max; }
    return withJitter;
  }

  lemma {:induction false} PlainBounds(b: Backoff, n: nat)
    requires Valid(b)
    ensures b.base <= Plain(b, n) <= b.max
  {
    if n > 0 { PlainBounds(b, n - 1); }
  }

  /** The delay is the capped power of two, except for one attempt count of one kind of odd
      maximum, where it is one more. */
  lemma {:induction false} PlainIsCappedPower(b: Backoff, n: nat)
    requires Valid(b)
    ensures Plain(b, n) == CappedPower(b, n)
    ensures Plain(b, n) == Min(b.base * Pow2(n), b.max) <==> !(n >= 1 && b.base * Pow2(n) == b.max - 1)
    ensures Plain(b, n) != Min(b.base * Pow2(n), b.max) ==>
              Plain(b, n) == Min(b.base * Pow2(n), b.max) + 1 && b.max % 2 == 1
  {
    if n >= 1 {
      PlainIsCappedPower(b, n - 1);
      PowersGrow(b, 0, n - 1);
      DoublesOnce(b, n - 1);
      NextIsCapped(Plain(b, n - 1), b.base * Pow2(n - 1), b.base * Pow2(n), b.max, n - 1);
    }
  }

  /** The arithmetic of one step: half is the power before, power the one after. */
  lemma NextIsCapped(before: int, half: int, power: int, max: int, n: nat)
    requires power == 2 * half && half > 0 && max > 0
    requires before == if n >= 1 && half == max - 1 then max else Min(half, max)
    ensures (if before >= max / 2 then max else 2 * before) == if power == max - 1 then max else Min(power, max)
    ensures power == max - 1 ==> max % 2 == 1
  {}

  /** More failures never mean a shorter wait, and enough of them mean the maximum. */
  lemma PlainMonotone(b: Backoff, i: nat, n: nat)
    requires Valid(b) && i <= n
    ensures Plain(b, i) <= Plain(b, n)
    ensures n >= b.max ==> Plain(b, n) == b.max
  {
    PlainIsCappedPower(b, i);
    PlainIsCappedPower(b, n);
    PowersGrow(b, i, n);
    if n >= b.max {
      PowerAtLeast(n);
      Larger(b.base, Pow2(n));
    }
  }

  lemma Larger(x: int, y: nat)
    requires x >= 1
    ensures x * y >= y
  {}

  lemma {:induction false} PowerAtLeast(n: nat)
    ensures Pow2(n) > n
  {
    if n > 0 { PowerAtLeast(n - 1); }
  }

  /** Above that, a delay can come out as no delay. */
  lemma JitterOverflows()
    ensures var b := Backoff(MAX_INT64, MAX_INT64);
            Valid(b) && Plain(b, 0) + 2 * JitterRange(Plain(b, 0)) - JitterRange(Plain(b, 0)) > MAX_INT64
  {}
}
