/**
 The geometric delay between two delivery attempts. Reals stand for Go's float64
 (rounding is not modelled); durations are int64 nanoseconds and wrap.
 */
module Backoff {

  const NANOSECONDS := 1_000_000_000
  const TWO63 := 0x8000_0000_0000_0000

  predicate IsInt64(n: int) { -TWO63 <= n < TWO63 }

  /** Two's-complement reduction to 64 bits. */
  function Wrap64(n: int): (w: int)
    ensures IsInt64(w)
    ensures (n - w) % 0x1_0000_0000_0000_0000 == 0
    ensures -0x8000_0000_0000_0000 <= n < 0x8000_0000_0000_0000 ==> w == n
  {
    (n + TWO63) % (2 * TWO63) - TWO63
  }

  function Trunc(x: real): int {
    if x >= 0.0 then x.Floor else -((-x).Floor)
  }

  function Pow(factor: real, n: nat): real {
    if n == 0 then 1.0 else Pow(factor, n - 1) * factor
  }

  /** The closed form of the delay before attempt + 1, in seconds. */
  function Delay(first: int, factor: real, attempt: int): real {
    first as real * Pow(factor, if attempt <= 1 then 0 else attempt - 1)
  }

  /** time.Duration(x) * time.Second; Go leaves the conversion unspecified beyond int64. */
  function Duration(x: real, unspecified: int): int {
    Wrap64((if IsInt64(Trunc(x)) then Trunc(x) else unspecified) * NANOSECONDS)
  }

  /** The delays are a geometric sequence that starts with the first delay. */
  lemma DelayStep(first: int, factor: real, i: int)
    requires i >= 1
    ensures Delay(first, factor, 1) == first as real
    ensures Delay(first, factor, i + 1) == Delay(first, factor, i) * factor
  {
    assert Pow(factor, i) == Pow(factor, i - 1) * factor;
    Associate(first as real, Pow(factor, i - 1), factor);
  }

  lemma Associate(x: real, y: real, z: real)
    ensures x * (y * z) == (x * y) * z
  {
  }

  method Backoff(first: int, factor: real, attempt: int, unspecified: int) returns (ns: int)
    ensures ns == Duration(Delay(first, factor, attempt), unspecified)
  {
    var delay := first as real;
    var i := 1;
    while i < attempt
      invariant 1 <= i && (i <= attempt || i == 1)
      invariant delay == Delay(first, factor, i)
    {
      DelayStep(first, factor, i);
      delay := delay * factor;
      i := i + 1;
    }
    ns := Duration(delay, unspecified);
  }

  lemma {:induction false} PowAtLeastOne(factor: real, n: nat)
    requires factor >= 1.0
    ensures Pow(factor, n) >= 1.0
  {
    if n > 0 {
      PowAtLeastOne(factor, n - 1);
      assert Pow(factor, n) - Pow(factor, n - 1) == Pow(factor, n - 1) * (factor - 1.0);
    }
  }

  lemma {:induction false} PowGrows(factor: real, m: nat, n: nat)
    requires factor >= 1.0 && m <= n
    ensures Pow(factor, m) <= Pow(factor, n)
  {
    if m < n {
      PowGrows(factor, m, n - 1);
      PowAtLeastOne(factor, n - 1);
      assert Pow(factor, n) - Pow(factor, n - 1) == Pow(factor, n - 1) * (factor - 1.0);
    }
  }

  /** The columns' checks (first delay positive, factor at least 1) make the delays non-decreasing. */
  lemma DelaysNeverDecrease(first: int, factor: real, a: int, b: int)
    requires first >= 0 && factor >= 1.0 && a <= b
    ensures 0 <= Trunc(Delay(first, factor, a)) <= Trunc(Delay(first, factor, b))
  {
    var m, n := if a <= 1 then 0 else a - 1, if b <= 1 then 0 else b - 1;
    PowGrows(factor, m, n);
    PowAtLeastOne(factor, m);
    Scale(first as real, Pow(factor, m), Pow(factor, n));
  }

  lemma Scale(c: real, x: real, y: real)
    requires c >= 0.0 && 0.0 <= x <= y
    ensures 0.0 <= c * x <= c * y
  {
  }

  /** The duration is exact precisely up to 9223372036 whole seconds. */
  lemma FitsExactly(x: real, unspecified: int)
    requires x >= 0.0 && IsInt64(Trunc(x))
    ensures Duration(x, unspecified) == x.Floor * 1_000_000_000 <==> x.Floor <= 9_223_372_036
  {
    if Trunc(x) > 9_223_372_036 {
      assert Trunc(x) * NANOSECONDS >= 9_223_372_037 * NANOSECONDS;
      assert !IsInt64(Trunc(x) * NANOSECONDS);
    }
  }

  /** Whole seconds slept before attempt n + 1 of a run whose first n attempts fail. */
  function Slept(first: int, factor: real, n: nat): int {
    if n == 0 then 0 else Slept(first, factor, n - 1) + Trunc(Delay(first, factor, n))
  }

  /** (factor - 1) * slept <= first * (factor^n - 1): no division, so factor 1 is covered too. */
  predicate UnderGeometric(first: int, factor: real, n: nat, slept: int) {
    (factor - 1.0) * slept as real <= first as real * (Pow(factor, n) - 1.0)
  }

  lemma {:induction false} SleepBounded(first: int, factor: real, n: nat)
    requires first >= 0 && factor >= 1.0
    ensures UnderGeometric(first, factor, n, Slept(first, factor, n))
    decreases n
  {
    if n > 0 {
      SleepBounded(first, factor, n - 1);
      SleepStep(first, factor, n, Slept(first, factor, n - 1));
    }
  }

  lemma SleepStep(first: int, factor: real, n: nat, sum: int)
    requires first >= 0 && factor >= 1.0 && n > 0 && UnderGeometric(first, factor, n - 1, sum)
    ensures UnderGeometric(first, factor, n, sum + Trunc(Delay(first, factor, n)))
  {
    DelayBelow(first, factor, n);
    GeometricStep(first as real, factor, Pow(factor, n - 1), sum, Trunc(Delay(first, factor, n)));
  }

  lemma DelayBelow(first: int, factor: real, n: nat)
    requires first >= 0 && factor >= 1.0 && n > 0
    ensures Trunc(Delay(first, factor, n)) as real <= first as real * Pow(factor, n - 1)
  {
    PowAtLeastOne(factor, n - 1);
    Scale(first as real, 0.0, Pow(factor, n - 1));
  }

  lemma GeometricStep(c: real, f: real, p: real, sum: int, d: int)
    requires f >= 1.0 && (f - 1.0) * sum as real <= c * (p - 1.0) && d as real <= c * p
    ensures (f - 1.0) * (sum + d) as real <= c * (p * f - 1.0)
  {
    var x, y := sum as real, d as real;
    var slack := (f - 1.0) * (c * p - y);
    assert slack >= 0.0;
    assert (f - 1.0) * (x + y) == (f - 1.0) * x + (f - 1.0) * (c * p) - slack;
    assert (f - 1.0) * (c * p) == c * (p * f) - c * p;
    assert c * (p - 1.0) == c * p - c;
    assert c * (p * f - 1.0) == c * (p * f) - c;
  }

  /** With an integral factor nothing is truncated and the bound is met. */
  lemma {:induction false} SleepExact(first: int, factor: int, n: nat)
    requires first >= 0 && factor >= 1
    ensures (factor - 1) * Slept(first, factor as real, n) == first * (IntPow(factor, n) - 1)
  {
    if n > 0 {
      SleepExact(first, factor, n - 1);
      WholeDelay(first, factor, n);
      IntGeometricStep(first, factor, IntPow(factor, n - 1), Slept(first, factor as real, n - 1));
    }
  }

  lemma WholeDelay(first: int, factor: int, n: nat)
    requires first >= 0 && factor >= 1 && n > 0
    ensures Trunc(Delay(first, factor as real, n)) == first * IntPow(factor, n - 1)
  {
    PowIsIntPow(factor, n - 1);
    IntPowPositive(factor, n - 1);
    var d := first * IntPow(factor, n - 1);
    assert d >= 0;
    assert first as real * IntPow(factor, n - 1) as real == d as real;
  }

  lemma IntGeometricStep(c: int, f: int, p: int, sum: int)
    requires (f - 1) * sum == c * (p - 1)
    ensures (f - 1) * (sum + c * p) == c * (p * f - 1)
  {
    assert (f - 1) * (sum + c * p) == (f - 1) * sum + (f - 1) * (c * p);
    assert (f - 1) * (c * p) == c * (p * f) - c * p;
  }

  function IntPow(factor: int, n: nat): int {
    if n == 0 then 1 else IntPow(factor, n - 1) * factor
  }

  lemma {:induction false} IntPowPositive(factor: int, n: nat)
    requires factor >= 1
    ensures IntPow(factor, n) >= 1
  {
    if n > 0 { IntPowPositive(factor, n - 1); }
  }

  lemma {:induction false} PowIsIntPow(factor: int, n: nat)
    ensures Pow(factor as real, n) == IntPow(factor, n) as real
  {
    if n > 0 { PowIsIntPow(factor, n - 1); }
  }

  /** The defaults (8 attempts, 60 s, factor 2) sleep 7620 s before giving up. */
  lemma DefaultSleep()
    ensures Slept(60, 2.0, 8 - 1) == 7620
  {
    SleepExact(60, 2, 7);
    assert IntPow(2, 3) == 8;
    assert IntPow(2, 7) == 128;
  }
}
