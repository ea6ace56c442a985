/** The backoff formula of the per-IP limiter, in the 64-bit arithmetic it is computed in. */
module Backoff {
  // Durations are int64 nanoseconds.
  const SECOND: int := 1_000_000_000
  const MAX_DELAY: int := 60 * SECOND
  const IDLE_EXPIRY: int := 600 * SECOND

  /** A count whose last failure is too long ago to matter. */
  predicate TooIdle(failCount: int, lastFail: int, now: int) { failCount > 0 && now - lastFail > IDLE_EXPIRY }

  const TWO63: int := 0x8000_0000_0000_0000
  const TWO64: int := 0x1_0000_0000_0000_0000

  function Pow2(n: nat): (p: nat)
    ensures p >= 1
  {
    if n == 0 then 1 else 2 * Pow2(n - 1)
  }

  /** The value a signed 64-bit register holds after an operation whose exact result is `x`. */
  function Int64(x: int): (r: int)
    ensures -TWO63 <= r < TWO63
    ensures (x - r) % TWO64 == 0
  {
    var m := x % TWO64;
    if m >= TWO63 then m - TWO64 else m
  }

  function ComputeDelay(failCount: int): (d: int) {
    if failCount <= 0 then 0
    else if failCount - 1 > 62 then MAX_DELAY
    else
      var d := Int64(Int64(Pow2(failCount - 1)) * SECOND);
      if d > MAX_DELAY || d < 0 then MAX_DELAY else d
  }

  /** The documented formula: zero, then min(60 s, 2^(n-1) s). */
  function DocumentedDelay(n: int): (d: int) {
    if n <= 0 then 0
    else if Pow2(n - 1) > 60 then 60 * SECOND
    else Pow2(n - 1) * SECOND
  }

  lemma {:induction false} Pow2Monotone(a: nat, b: nat)
    requires a <= b
    ensures Pow2(a) <= Pow2(b)
    decreases b - a
  {
    if a < b { Pow2Monotone(a, b - 1); }
  }

  lemma TwiceProduct(x: int, y: int)
    ensures 2 * (x * y) == (2 * x) * y
  {
  }

  lemma {:induction false} Pow2Adds(a: nat, b: nat)
    ensures Pow2(a + b) == Pow2(a) * Pow2(b)
  {
    if a > 0 {
      Pow2Adds(a - 1, b);
      TwiceProduct(Pow2(a - 1), Pow2(b));
    }
  }

  lemma Pow2Doubles(n: nat)
    ensures Pow2(n + 1) == 2 * Pow2(n)
  {
  }

  lemma Pow2Small()
    ensures Pow2(6) == 64 && Pow2(8) == 0x100 && Pow2(9) == 512
  {
  }

  lemma Pow2Landmarks()
    ensures Pow2(6) == 64 && Pow2(9) == 512 && Pow2(33) == 0x2_0000_0000
    ensures Pow2(43) == 0x800_0000_0000
    ensures Pow2(62) == 0x4000_0000_0000_0000 && Pow2(64) == TWO64
  {
    hide Pow2;
    Pow2Small();
    assert Pow2(16) == 0x1_0000 by { Pow2Adds(8, 8); }
    assert Pow2(32) == 0x1_0000_0000 by { Pow2Adds(16, 16); }
    assert Pow2(40) == 0x100_0000_0000 by { Pow2Adds(32, 8); }
    assert Pow2(33) == 2 * Pow2(32) by { Pow2Doubles(32); }
    assert Pow2(43) == 2 * (2 * (2 * Pow2(40))) by { Pow2Doubles(40); Pow2Doubles(41); Pow2Doubles(42); }
    assert Pow2(48) == 0x1_0000_0000_0000 by { Pow2Adds(32, 16); }
    assert Pow2(56) == 0x100_0000_0000_0000 by { Pow2Adds(48, 8); }
    assert Pow2(62) == 0x40 * Pow2(56) by { Pow2Adds(6, 56); }
    assert Pow2(64) == 2 * (2 * Pow2(62)) by { Pow2Doubles(62); Pow2Doubles(63); }
  }

  /** 10^9 carries nine factors of two, so the product is 2^(exp+9) times an odd number. */
  lemma ProductFactors(exp: nat)
    ensures Pow2(exp) * SECOND == Pow2(exp + 9) * 1953125
  {
    Pow2Adds(exp, 9);
    Pow2Landmarks();
  }

  /** A value in range is unchanged. */
  lemma Int64Fits(x: int)
    requires -TWO63 <= x < TWO63
    ensures Int64(x) == x
  {}

  /** A wrapped value differs from the exact one by a whole number of 2^64. */
  lemma Int64Wraps(x: int) returns (q: int)
    ensures Int64(x) == x - q * TWO64
  {
    q := x / TWO64 + (if x % TWO64 >= TWO63 then 1 else 0);
  }

  /** A nonzero multiple of a large unit stays far from [0, 60 s]. */
  lemma OddMultipleIsFar(unit: int, odd: int)
    requires unit >= 0x800_0000_0000 && odd % 2 == 1
    ensures unit * odd < 0 || unit * odd > MAX_DELAY
  {
    if odd > 0 { assert unit * odd >= unit; } else { assert unit * odd <= -unit; }
  }

  /** No wrap-around yet: the product is exact. */
  lemma DelayExact(exp: nat)
    requires exp <= 33
    ensures Int64(Int64(Pow2(exp)) * SECOND) == Pow2(exp) * SECOND
  {
    assert Pow2(exp) <= 0x2_0000_0000 by { Pow2Monotone(exp, 33); Pow2Landmarks(); }
    Int64Fits(Pow2(exp));
    Int64Fits(Pow2(exp) * SECOND);
  }

  lemma ShiftFits(exp: nat)
    requires exp <= 62
    ensures Int64(Pow2(exp)) == Pow2(exp)
  {
    assert Pow2(exp) <= 0x4000_0000_0000_0000 by { Pow2Monotone(exp, 62); Pow2Landmarks(); }
    Int64Fits(Pow2(exp));
  }

  lemma RegroupWrapped(unit: int, rest: int, q: int)
    ensures unit * 1953125 - q * (unit * (2 * rest)) == unit * (1953125 - 2 * (q * rest))
  {
    calc {
      unit * (1953125 - 2 * (q * rest));
      unit * 1953125 - unit * (2 * (q * rest));
      { assert unit * (2 * (q * rest)) == q * (unit * (2 * rest)); }
      unit * 1953125 - q * (unit * (2 * rest));
    }
  }

  lemma WrappedIsFar(x: int, unit: int, rest: int)
    requires x == unit * 1953125 && unit * (2 * rest) == TWO64 && unit >= 0x800_0000_0000
    ensures Int64(x) < 0 || Int64(x) > MAX_DELAY
  {
    hide Int64;
    var q := Int64Wraps(x);
    RegroupWrapped(unit, rest, q);
    var z := q * rest;
    assert Int64(x) == unit * (1953125 - 2 * z);
    OddMultipleIsFar(unit, 1953125 - 2 * z);
  }

  /** Wrapped, but never onto a value in [0, 60 s]: the register holds an odd multiple of
      2^(exp+9), and that unit alone exceeds 60 s. */
  lemma DelayOverflows(exp: nat)
    requires 34 <= exp <= 54
    ensures var d := Int64(Int64(Pow2(exp)) * SECOND); d < 0 || d > MAX_DELAY
  {
    hide Pow2, Int64;
    ShiftFits(exp);
    ProductFactors(exp);
    assert 2 * Pow2(54 - exp) == Pow2(55 - exp) by { Pow2Doubles(54 - exp); }
    assert Pow2(exp + 9) * (2 * Pow2(54 - exp)) == TWO64 by { Pow2Adds(exp + 9, 55 - exp); Pow2Landmarks(); }
    assert Pow2(exp + 9) >= 0x800_0000_0000 by { Pow2Monotone(43, exp + 9); Pow2Landmarks(); }
    WrappedIsFar(Pow2(exp) * SECOND, Pow2(exp + 9), Pow2(54 - exp));
  }

  lemma WholeMultipleWrapsToZero(m: int)
    ensures Int64(m * TWO64) == 0
  {
    var q := Int64Wraps(m * TWO64);
    assert Int64(m * TWO64) == (m - q) * TWO64;
  }

  /** All 64 bits shifted out: the register holds zero. */
  lemma DelayVanishes(exp: nat)
    requires 55 <= exp <= 62
    ensures Int64(Int64(Pow2(exp)) * SECOND) == 0
  {
    ShiftFits(exp);
    var m := Pow2(exp - 55);
    assert Pow2(exp) * SECOND == (m * 1953125) * TWO64 by {
      ProductFactors(exp);
      assert Pow2(exp + 9) == TWO64 * m by { Pow2Adds(64, exp - 55); Pow2Landmarks(); }
    }
    WholeMultipleWrapsToZero(m * 1953125);
  }

  /** The code meets its documented formula exactly outside fail counts 56..63, where the
      64-bit product is zero and the next attempt is not delayed at all. */
  lemma DelayMeetsDocumentation(n: int)
    ensures 0 <= ComputeDelay(n) <= MAX_DELAY
    ensures ComputeDelay(n) == DocumentedDelay(n) <==> !(56 <= n <= 63)
    ensures 56 <= n <= 63 ==> ComputeDelay(n) == 0
  {
    Pow2Landmarks();
    if n > 63 {
      Pow2Monotone(6, n - 1);
    } else if n >= 56 {
      Pow2Monotone(6, n - 1);
      DelayVanishes(n - 1);
    } else if n >= 35 {
      Pow2Monotone(6, n - 1);
      DelayOverflows(n - 1);
    } else if n >= 1 {
      DelayExact(n - 1);
    }
  }

  /** Nanoseconds slept over the first `k` attempts of a run in which all of them fail. */
  function TotalSleep(k: nat): (total: int) {
    if k == 0 then 0 else TotalSleep(k - 1) + ComputeDelay(k - 1)
  }

  /** The n-th delay in whole seconds. */
  lemma DelayInSeconds(n: nat)
    ensures 1 <= n <= 6 ==> ComputeDelay(n) == Pow2(n - 1) * SECOND
    ensures 7 <= n <= 55 || n >= 64 ==> ComputeDelay(n) == 60 * SECOND
  {
    DelayMeetsDocumentation(n);
    if 1 <= n <= 6 {
      Pow2Monotone(n - 1, 5);
      assert Pow2(5) == 32;
    } else if n >= 7 {
      Pow2Monotone(6, n - 1);
      Pow2Landmarks();
    }
  }

  lemma {:induction false} TotalSleepClosedForm(k: nat)
    requires k >= 1
    ensures k <= 7 ==> TotalSleep(k) == (Pow2(k - 1) - 1) * SECOND
    ensures 7 <= k <= 56 ==> TotalSleep(k) == (63 + 60 * (k - 7)) * SECOND
    ensures 56 <= k <= 64 ==> TotalSleep(k) == (63 + 60 * 49) * SECOND
    ensures k >= 64 ==> TotalSleep(k) == (63 + 60 * (k - 7) - 480) * SECOND
  {
    assert Pow2(6) == 64 by { Pow2Landmarks(); }
    if k == 1 {
      assert TotalSleep(0) == 0;
    } else {
      TotalSleepClosedForm(k - 1);
      DelayMeetsDocumentation(k - 1);
      DelayInSeconds(k - 1);
    }
  }
}
