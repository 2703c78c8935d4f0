/**
 The delay before the next reachability check (internal/api/reach.go:30-35, 128-140).
 Durations are 64-bit signed nanoseconds, and the shift wraps.
 */
module Backoff {

  /** One minute and fifteen minutes. */
  const HEALTHY: int := 60_000_000_000
  const CAP: int := 900_000_000_000

  const TWO_TO_THE_63 := 0x8000_0000_0000_0000
  const TWO_TO_THE_64 := 0x1_0000_0000_0000_0000

  /** The 64-bit signed value with the same low 64 bits. */
  function Wrap64(x: int): (r: int)
    ensures -TWO_TO_THE_63 <= r < TWO_TO_THE_63
    ensures -TWO_TO_THE_63 <= x < TWO_TO_THE_63 ==> r == x
  {
    var low := x % TWO_TO_THE_64;
    if low < TWO_TO_THE_63 then low else low - TWO_TO_THE_64
  }

  /** `x << n`: n shifts by one bit, each losing what leaves the word. */
  function ShiftLeft(x: int, n: nat): int {
    if n == 0 then Wrap64(x) else Wrap64(2 * ShiftLeft(x, n - 1))
  }

  function Pow2(n: nat): (r: nat)
    ensures r >= 1
  {
    if n == 0 then 1 else 2 * Pow2(n - 1)
  }

  /** The delay `scheduleNext` picks after the given number of failures in a row. */
  function Delay(fails: nat): int {
    var d := ShiftLeft(HEALTHY, fails);
    if d > CAP || d <= 0 then CAP else d
  }

  function Min(a: int, b: int): int { if a <= b then a else b }

  // ---- Before the word overflows --------------------------------------------

  lemma {:induction false} Pow2Monotone(a: nat, b: nat)
    requires a <= b
    ensures Pow2(a) <= Pow2(b)
  {
    if a < b {
      Pow2Monotone(a, b - 1);
    }
  }

  lemma {:induction false} Pow2Sum(a: nat, b: nat)
    ensures Pow2(a + b) == Pow2(a) * Pow2(b)
    decreases b
  {
    if b > 0 {
      Pow2Sum(a, b - 1);
      assert a + b - 1 == a + (b - 1);
    }
  }

  lemma Pow2At27(n: nat, k: nat)
    requires n == 27 && k == 9
    ensures Pow2(n) == 0x800_0000
  {
    assert Pow2(9) == 512;
    Pow2Sum(k, k);
    Pow2Sum(k + k, k);
  }

  lemma {:induction false} ExactUpTo27(n: nat)
    requires n <= 27
    ensures ShiftLeft(HEALTHY, n) == HEALTHY * Pow2(n)
  {
    var last: nat, third: nat := 27, 9;
    Pow2At27(last, third);
    Pow2Monotone(n, last);
    if n > 0 {
      ExactUpTo27(n - 1);
    }
  }

  // ---- After it -------------------------------------------------------------

  const TWO_TO_THE_40: int := 0x100_0000_0000

  predicate LowBitsClear(x: int) {
    x % TWO_TO_THE_40 == 0
  }

  lemma WrapKeepsLowBits(x: int)
    requires LowBitsClear(x)
    ensures LowBitsClear(Wrap64(2 * x))
  {
    var q, k := x / TWO_TO_THE_40, 2 * x / TWO_TO_THE_64;
    assert 2 * x % TWO_TO_THE_64 == TWO_TO_THE_40 * (2 * q - 0x100_0000 * k);
  }

  lemma ClearIsZeroOrLarge(x: int)
    requires LowBitsClear(x)
    ensures x <= 0 || x > CAP
  {
  }

  lemma ClearAt29()
    ensures LowBitsClear(-4681233427419103232)
  {
    assert -4681233427419103232 == TWO_TO_THE_40 * -4257557;
  }

  lemma ShiftOnce(n: nat, v: int)
    requires ShiftLeft(HEALTHY, n) == v
    ensures ShiftLeft(HEALTHY, n + 1) == Wrap64(2 * v)
  {
  }

  lemma WrappedValues()
    ensures Wrap64(16106127360000000000) == -2340616713709551616
    ensures Wrap64(-4681233427419103232) == -4681233427419103232
    ensures Wrap64(-9362466854838206464) == 9084277218871345152
  {
  }

  /** The first values past the sign bit. */
  lemma AfterTheOverflow(n: nat)
    requires n == 27
    ensures ShiftLeft(HEALTHY, n + 1) == -2340616713709551616
    ensures ShiftLeft(HEALTHY, n + 2) == -4681233427419103232
    ensures ShiftLeft(HEALTHY, n + 3) == 9084277218871345152
  {
    var third: nat := 9;
    ExactUpTo27(n);
    Pow2At27(n, third);
    WrappedValues();
    ShiftOnce(n, 8053063680000000000);
    ShiftOnce(n + 1, -2340616713709551616);
    ShiftOnce(n + 2, -4681233427419103232);
  }

  /** From 29 failures on, the forty low bits are zero: what is left is 0, negative, or beyond the cap. */
  lemma {:induction false} LowBitsVanish(n: nat)
    requires n >= 29
    ensures LowBitsClear(ShiftLeft(HEALTHY, n))
  {
    if n == 29 {
      AfterTheOverflow(n - 2);
      ClearAt29();
    } else {
      LowBitsVanish(n - 1);
      ShiftOnce(n - 1, ShiftLeft(HEALTHY, n - 1));
      WrapKeepsLowBits(ShiftLeft(HEALTHY, n - 1));
    }
  }

  lemma BelowTheCap(fails: nat)
    requires fails <= 3
    ensures ShiftLeft(HEALTHY, fails) == HEALTHY * Pow2(fails) && 0 < HEALTHY * Pow2(fails) <= CAP
  {
    ExactUpTo27(fails);
    assert Pow2(3) == 8;
    Pow2Monotone(fails, 3);
  }

  lemma BeyondTheCap(fails: nat)
    requires fails > 3
    ensures HEALTHY * Pow2(fails) > CAP
    ensures ShiftLeft(HEALTHY, fails) > CAP || ShiftLeft(HEALTHY, fails) <= 0
  {
    assert Pow2(4) == 16;
    Pow2Monotone(4, fails);
    if fails <= 27 {
      ExactUpTo27(fails);
    } else if fails == 28 {
      AfterTheOverflow(fails - 1);
    } else {
      LowBitsVanish(fails);
      ClearIsZeroOrLarge(ShiftLeft(HEALTHY, fails));
    }
  }

  /** The wrapped shift, tested against the cap, still gives the exact minimum. */
  lemma DelayIsExactMinimum(fails: nat)
    ensures Delay(fails) == Min(HEALTHY * Pow2(fails), CAP)
  {
    if fails <= 3 {
      BelowTheCap(fails);
    } else {
      BeyondTheCap(fails);
    }
  }

  lemma DelayMonotone(a: nat, b: nat)
    requires a <= b
    ensures HEALTHY <= Delay(a) <= Delay(b) <= CAP
  {
    DelayIsExactMinimum(a);
    DelayIsExactMinimum(b);
    Pow2Monotone(a, b);
  }

  /** Both halves of the test matter: 28 failures shift to a negative number, 30 to a wrong positive one. */
  lemma ShiftOverflows(n: nat)
    requires n == 28
    ensures ShiftLeft(HEALTHY, n) < 0 < ShiftLeft(HEALTHY, n + 2) < HEALTHY * Pow2(n + 2)
  {
    var third: nat := 9;
    AfterTheOverflow(n - 1);
    Pow2At27(n - 1, third);
    assert Pow2(n + 2) == 2 * Pow2(n + 1);
  }
}
