/** Retry backoff in 64-bit nanoseconds: the wrapping computation the fetcher performs,
    the unbounded schedule it stands for, and exactly when the two agree. */
module Backoff {

  const TWO63: int := 0x8000_0000_0000_0000
  const TWO64: int := 0x1_0000_0000_0000_0000

  function Pow2(n: nat): (p: nat)
    ensures p >= 1
  {
    if n == 0 then 1 else 2 * Pow2(n - 1)
  }

  predicate IsInt64(x: int) { -TWO63 <= x < TWO63 }

  /** Two's complement reading of an unbounded integer. */
  function Wrap64(x: int): (r: int)
    ensures IsInt64(r)
  {
    var m := x % TWO64;
    if m < TWO63 then m else m - TWO64
  }

  /** `backoffDelay` as a 64-bit machine computes it: shift, multiply, jitter, clamp. */
  function Delay64(base: int, attempt: nat): (d: int)
    requires 0 < base < TWO63 && attempt >= 1
    ensures base <= d < TWO63
  {
    var mult := Wrap64(Pow2(attempt - 1));
    var d0 := Wrap64(mult * base);
    var jitter := base / 2;
    var d := if attempt % 2 == 0 then Wrap64(d0 + jitter) else Wrap64(d0 - jitter);
    if d < base then base else d
  }

  /** The mutable-variable form of the same computation. */
  method BackoffDelay(base: int, attempt: nat) returns (d: int)
    requires 0 < base < TWO63 && attempt >= 1
    ensures d == Delay64(base, attempt)
  {
    var mult := Wrap64(Pow2(attempt - 1));
    d := Wrap64(mult * base);
    var jitter := base / 2;
    if attempt % 2 == 0 {
      d := Wrap64(d + jitter);
    } else {
      d := Wrap64(d - jitter);
    }
    if d < base {
      d := base;
    }
  }

  /** The schedule over unbounded integers: doubling, plus half a base on even attempts and
      minus half a base on odd ones. */
  function Schedule(base: nat, attempt: nat): int
    requires attempt >= 1
  {
    Pow2(attempt - 1) * base + (if attempt % 2 == 0 then base / 2 else -(base / 2))
  }

  lemma WrapCongruent(x: int)
    ensures exists k: int :: Wrap64(x) == x + k * TWO64
  {
    var q := x / TWO64;
    if x % TWO64 < TWO63 {
      assert Wrap64(x) == x + (-q) * TWO64;
    } else {
      assert Wrap64(x) == x + (-q - 1) * TWO64;
    }
  }

  lemma WrapUnique(x: int, y: int, k: int)
    requires x == y + k * TWO64
    ensures Wrap64(x) == Wrap64(y)
  {
    var d := x / TWO64 - y / TWO64;
    assert (x % TWO64) - (y % TWO64) == (k - d) * TWO64;
  }

  lemma WrapIdentity(x: int)
    ensures Wrap64(x) == x <==> IsInt64(x)
  {
    if IsInt64(x) && x < 0 {
      WrapUnique(x + TWO64, x, 1);
    }
  }

  lemma Distribute(p: int, k: int, base: int)
    ensures (p + k * TWO64) * base == p * base + (k * base) * TWO64
  {
    calc {
      (p + k * TWO64) * base;
      p * base + (k * TWO64) * base;
      p * base + (k * base) * TWO64;
    }
  }

  /** Wrapping the factor before multiplying changes nothing once the product is wrapped. */
  lemma WrapProduct(p: int, base: int)
    ensures exists k: int :: Wrap64(Wrap64(p) * base) == p * base + k * TWO64
  {
    WrapCongruent(p);
    var k1: int :| Wrap64(p) == p + k1 * TWO64;
    Distribute(p, k1, base);
    var product := Wrap64(p) * base;
    WrapCongruent(product);
    var k2: int :| Wrap64(product) == product + k2 * TWO64;
    var wrapped, exact, kb := Wrap64(product), p * base, k1 * base;
    assert wrapped == exact + kb * TWO64 + k2 * TWO64;
    assert wrapped == exact + (kb + k2) * TWO64;
  }

  /** Intermediate overflow is harmless: before the clamp, the machine's value is the
      schedule's value wrapped once. */
  lemma DelayIsWrappedSchedule(base: nat, attempt: nat)
    requires 0 < base < TWO63 && attempt >= 1
    ensures var s := Wrap64(Schedule(base, attempt));
            Delay64(base, attempt) == if s < base then base else s
  {
    var p := Pow2(attempt - 1);
    var j := if attempt % 2 == 0 then base / 2 else -(base / 2);
    WrapProduct(p, base);
    var k: int :| Wrap64(Wrap64(p) * base) == p * base + k * TWO64;
    var product, exact := Wrap64(Wrap64(p) * base), p * base;
    assert product + j == (exact + j) + k * TWO64;
    WrapUnique(product + j, exact + j, k);
    DelayUnfold(base, attempt, product, j);
  }

  lemma DelayUnfold(base: nat, attempt: nat, product: int, j: int)
    requires 0 < base < TWO63 && attempt >= 1
    requires product == Wrap64(Wrap64(Pow2(attempt - 1)) * base)
    requires j == if attempt % 2 == 0 then base / 2 else -(base / 2)
    ensures var d := Wrap64(product + j); Delay64(base, attempt) == if d < base then base else d
  {
  }

  lemma ScheduleAtLeastBase(base: nat, attempt: nat)
    requires attempt >= 2
    ensures Schedule(base, attempt) >= base
  {
    var p := Pow2(attempt - 1);
    assert p >= 2;
    assert p * base >= 2 * base;
  }

  /** The delay a retry sleeps is the scheduled one exactly when the schedule fits an int64. */
  lemma DelayMatchesScheduleIff(base: nat, attempt: nat)
    requires 0 < base < TWO63 && attempt >= 2
    ensures Delay64(base, attempt) == Schedule(base, attempt) <==> Schedule(base, attempt) < TWO63
  {
    DelayIsWrappedSchedule(base, attempt);
    ScheduleAtLeastBase(base, attempt);
    WrapIdentity(Schedule(base, attempt));
  }

  lemma {:induction false} Pow2Monotone(a: nat, b: nat)
    requires a <= b
    ensures Pow2(a) <= Pow2(b)
  {
    if a < b {
      Pow2Monotone(a, b - 1);
    }
  }

  /** Consecutive scheduled delays strictly increase, from any retry onwards. */
  lemma {:induction false} ScheduleStrictlyIncreases(base: nat, a: nat, b: nat)
    requires base > 0 && 2 <= a < b
    ensures Schedule(base, a) < Schedule(base, b)
  {
    if a + 1 < b {
      ScheduleStrictlyIncreases(base, a, b - 1);
    }
    var p := Pow2(b - 2);
    assert Pow2(b - 1) == 2 * p && p >= 2;
    assert Pow2(b - 1) * base == p * base + p * base;
    assert p * base >= 2 * base;
  }

  /** With the default 200 ms base every attempt through 36 sleeps its scheduled delay;
      attempt 37 wraps negative and collapses to the bare base. */
  lemma DefaultBaseHorizon(attempt: nat)
    requires attempt >= 2
    ensures var base := 200_000_000;
            && (attempt <= 36 ==> Delay64(base, attempt) == Schedule(base, attempt))
            && (attempt >= 37 ==> Delay64(base, attempt) != Schedule(base, attempt))
            && Delay64(base, 37) == base
  {
    var base := 200_000_000;
    Pow2Values();
    DelayMatchesScheduleIff(base, attempt);
    if attempt <= 36 {
      Pow2Monotone(attempt - 1, 35);
      assert Pow2(attempt - 1) * base <= Pow2(35) * base;
    } else {
      Pow2Monotone(36, attempt - 1);
      assert Pow2(attempt - 1) * base >= Pow2(36) * base;
    }
    DelayIsWrappedSchedule(base, 37);
    assert Wrap64(Schedule(base, 37)) < base;
  }

  lemma Pow2Values()
    ensures Pow2(35) == 0x8_0000_0000 && Pow2(36) == 0x10_0000_0000
  {
    assert Pow2(8) == 256;
    assert Pow2(16) == 65536;
    assert Pow2(24) == 0x100_0000;
    assert Pow2(32) == 0x1_0000_0000;
  }

  function Sum(xs: seq<int>): int {
    if xs == [] then 0 else Sum(xs[..|xs| - 1]) + xs[|xs| - 1]
  }

  /** The sleeps of a run of n attempts: one before each attempt but the first. */
  predicate Slept(base: nat, n: nat, xs: seq<int>)
    requires 0 < base < TWO63
  {
    && |xs| == (if n == 0 then 0 else n - 1)
    && forall i :: 0 <= i < |xs| ==> xs[i] == Delay64(base, i + 2)
  }

  /** What n attempts sleep in all: (2^n - 2) bases, plus half a base when n is even. */
  function ClosedForm(base: nat, n: nat): int {
    (Pow2(n) - 2) * base + (if n % 2 == 0 then base / 2 else 0)
  }

  lemma ClosedFormStep(base: nat, n: nat)
    requires n >= 2
    ensures ClosedForm(base, n) == ClosedForm(base, n - 1) + Schedule(base, n)
  {
    var p := Pow2(n - 1);
    assert Pow2(n) == 2 * p;
    assert (2 * p - 2) * base == (p - 2) * base + p * base;
  }

  /** The sleeps of a run add up to the closed form, as long as the last one fits an int64. */
  lemma {:induction false} TotalBackoff(base: nat, n: nat, xs: seq<int>)
    requires 0 < base < TWO63 && n >= 1 && Slept(base, n, xs)
    requires n >= 2 ==> Schedule(base, n) < TWO63
    ensures Sum(xs) == ClosedForm(base, n)
  {
    if n == 1 {
      assert Pow2(1) == 2;
    } else {
      if n >= 3 {
        ScheduleStrictlyIncreases(base, n - 1, n);
      }
      TotalBackoff(base, n - 1, xs[..n - 2]);
      LastSleep(base, n, xs);
      ClosedFormStep(base, n);
    }
  }

  lemma LastSleep(base: nat, n: nat, xs: seq<int>)
    requires 0 < base < TWO63 && n >= 2 && Slept(base, n, xs) && Schedule(base, n) < TWO63
    ensures Sum(xs) == Sum(xs[..n - 2]) + Schedule(base, n)
  {
    DelayMatchesScheduleIff(base, n);
  }
}
