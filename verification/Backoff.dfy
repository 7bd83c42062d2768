/** fileee/ratelimit.go: exponential back-off computed on Go's wrapping 64-bit durations. */
module Backoff {
  import opened Integers
  import opened Optional

  /** Two's complement: the int64 congruent to x modulo 2^64. */
  function Wrap64(x: int): Int64 {
    (x + TWO_63) % TWO_64 - TWO_63
  }

  /** Go's `x << n` on an int64: a shift of 64 or more leaves nothing. */
  function Shl64(x: Int64, n: nat): Int64 {
    if n >= 64 then 0 else Wrap64(x * Pow2(n))
  }

  /** The delay before jitter, as NextDelay computes it. */
  function CappedDelay(base: Int64, max: Int64, attempt: nat): Int64 {
    var delay := Shl64(base, attempt);
    if delay > max || delay <= 0 then max else delay
  }

  /** The delay the policy documents: base * 2^attempt, capped at max, on unbounded integers. */
  function DocumentedDelay(base: Int64, max: Int64, attempt: nat): int {
    Min(base * Pow2(attempt), max)
  }

  datatype Policy = ExponentialBackoff(BaseDelay: Int64, MaxDelay: Int64, MaxAttempts: Int64)
  {
    /** resp is the status of the response, if there is one. */
    predicate ShouldRetry(attempt: nat, resp: Option<int>, failed: bool) {
      if attempt >= MaxAttempts then false
      else if failed then true
      else if resp.None? then false
      else resp.value == 429 || resp.value >= 500
    }

    /** How often one request may be retried: MaxAttempts, read as 0 when negative. */
    function Budget(): nat {
      if MaxAttempts < 0 then 0 else MaxAttempts
    }

    function Cap(attempt: nat): Int64 {
      CappedDelay(BaseDelay, MaxDelay, attempt)
    }

    /** The delays NextDelay may return for this attempt. */
    predicate PossibleDelay(attempt: nat, d: int) {
      if Cap(attempt) >= 0 then Cap(attempt) / 2 <= d <= 2 * (Cap(attempt) / 2)
      else Cap(attempt) == -1 && d == 0
    }

    /** `draw` stands for the generator: every value Int63n(range) may return is draw % range for some
        draw. Int63n panics on a range below 1, which a MaxDelay below -1 provokes (JitterRangePositive). */
    method NextDelay(attempt: nat, draw: nat) returns (d: Int64)
      requires MaxDelay >= -1
      ensures PossibleDelay(attempt, d)
      ensures Cap(attempt) >= 0 ==>
                d - Cap(attempt) / 2 == draw % (Cap(attempt) / 2 + 1)
    {
      var delay: Int64 := Shl64(BaseDelay, attempt);
      if delay > MaxDelay || delay <= 0 {
        delay := MaxDelay;
      }
      var half := Half(delay);
      var jitterRange := half + 1;
      var jitter := draw % jitterRange;
      d := half + jitter;
    }
  }

  /** Go's `x / 2`, which truncates toward zero. */
  function Half(x: Int64): Int64 {
    if x >= 0 then x / 2 else -((0 - x as int) / 2)
  }

  function DefaultPolicy(): Policy {
    ExponentialBackoff(200_000_000, 5_000_000_000, 5)
  }

  /** The range handed to Int63n is positive for every attempt exactly when MaxDelay >= -1. */
  lemma JitterRangePositive(base: Int64, max: Int64, attempt: nat)
    ensures Half(CappedDelay(base, max, attempt)) + 1 > 0 <==> max >= -1
  {}

  // ---------------------------------------------------------------- when the overflow repair is exact

  /** Shifting left by 63 - k drops the bits of b above k, makes bit k the sign, and keeps the rest. */
  lemma ShiftKeepsLowBits(b: Int64, k: nat) returns (kept: int, bit: int)
    requires 0 < b && k <= 63
    ensures kept == (b % Pow2(k)) * Pow2(63 - k) && bit == b / Pow2(k) % 2
    ensures 0 <= kept < TWO_63 && 0 <= bit <= 1
    ensures kept == 0 <==> b % Pow2(k) == 0
    ensures Shl64(b, 63 - k) == kept - bit * TWO_63
  {
    var p, q := Pow2(k), Pow2(63 - k);
    assert p * q == TWO_63 by { Pow2Add(k, 63 - k); Pow2Values(); }
    var low, high := b % p, b / p / 2;
    bit := b / p % 2;
    kept := low * q;
    assert b == (2 * high + bit) * p + low by { DivParts(b, p); }
    Expand(b, p, q, high, bit, low);
    MulStrict(low, p, q);
    WrapOf(high, bit * TWO_63 + kept);
  }

  lemma DivParts(b: int, p: int)
    requires p > 0
    ensures b == (2 * (b / p / 2) + b / p % 2) * p + b % p
  {}

  lemma Expand(b: int, p: int, q: int, high: int, bit: int, low: int)
    requires p * q == TWO_63 && b == (2 * high + bit) * p + low
    ensures b * q == high * TWO_64 + (bit * TWO_63 + low * q)
  {}

  lemma MulStrict(x: int, y: int, q: int)
    requires 0 <= x < y && q > 0
    ensures 0 <= x * q < y * q
    ensures x * q == 0 <==> x == 0
  {}

  lemma WrapOf(h: int, rest: int)
    requires 0 <= rest < TWO_64
    ensures Wrap64(h * TWO_64 + rest) == if rest < TWO_63 then rest else rest - TWO_64
  {}

  /** Bit k of the base delay is 0 although a higher bit is set, and the bits below k, moved up to the
      sign, make a positive number smaller than the cap: the overflowed shift looks like a valid delay. */
  predicate ShortWrapAt(base: Int64, max: Int64, k: nat) {
    && k < 63
    && Pow2(k) <= base
    && base / Pow2(k) % 2 == 0
    && 0 < (base % Pow2(k)) * Pow2(63 - k) < max
  }

  lemma CapExactAt(base: Int64, max: Int64, attempt: nat)
    requires base > 0 && max > 0
    ensures CappedDelay(base, max, attempt) == DocumentedDelay(base, max, attempt)
            <==> !(attempt <= 63 && ShortWrapAt(base, max, 63 - attempt))
  {
    Pow2Values();
    if attempt >= 64 {
      Pow2Monotone(63, attempt);
      MulAtLeast(base, Pow2(attempt), TWO_63);
    } else {
      CapExactUpTo63(base, max, 63 - attempt);
    }
  }

  lemma CapExactUpTo63(base: Int64, max: Int64, k: nat)
    requires base > 0 && max > 0 && k <= 63
    ensures CappedDelay(base, max, 63 - k) == DocumentedDelay(base, max, 63 - k)
            <==> !ShortWrapAt(base, max, k)
  {
    var kept, bit := ShiftKeepsLowBits(base, k);
    var product := base * Pow2(63 - k);
    if Pow2(k) <= base {
      ProductOverflows(base, k);
      assert ShortWrapAt(base, max, k) <==> bit == 0 && 0 < kept < max;
    } else {
      SmallRemainder(base, Pow2(k));
      assert kept == product && bit == 0;
      assert !ShortWrapAt(base, max, k);
      MulAtLeast(base, Pow2(63 - k), 1);
    }
    CappedOf(kept - bit * TWO_63, max, product);
  }

  lemma CappedOf(delay: Int64, max: Int64, product: int)
    requires max > 0 && (product == delay > 0 || product >= TWO_63)
    ensures (if delay > max || delay <= 0 then max else delay) == Min(product, max)
            <==> product == delay > 0 || delay <= 0 || delay >= max
  {}

  lemma ProductOverflows(base: Int64, k: nat)
    requires k <= 63 && Pow2(k) <= base
    ensures k < 63 && base * Pow2(63 - k) >= TWO_63
  {
    Pow2Values();
    Pow2Add(k, 63 - k);
    MulLe(Pow2(k), base, Pow2(63 - k));
  }

  lemma SmallRemainder(x: int, p: int)
    requires 0 <= x < p
    ensures x % p == x && x / p == 0
  {}

  lemma MulAtLeast(x: int, y: int, bound: int)
    requires x >= 1 && y >= bound >= 0
    ensures x * y >= bound
  {}

  lemma MulLe(x: int, y: int, q: int)
    requires x <= y && q >= 0
    ensures x * q <= y * q
  {}

  /** The repaired shift gives the documented delay for every attempt number exactly when the base delay
      has no short-wrap bit under this cap. */
  lemma CapExactIff(base: Int64, max: Int64)
    requires base > 0 && max > 0
    ensures (forall a: nat :: CappedDelay(base, max, a) == DocumentedDelay(base, max, a))
            <==> (forall k: nat :: !ShortWrapAt(base, max, k))
  {
    forall a: nat
      ensures CappedDelay(base, max, a) == DocumentedDelay(base, max, a)
              <==> !(a <= 63 && ShortWrapAt(base, max, 63 - a))
    {
      CapExactAt(base, max, a);
    }
    forall k: nat | ShortWrapAt(base, max, k)
      ensures CappedDelay(base, max, 63 - k) != DocumentedDelay(base, max, 63 - k)
    {
      assert 63 - (63 - k) == k;
      CapExactAt(base, max, 63 - k);
    }
  }

  lemma NoShortWrap(base: Int64, max: Int64, k: nat)
    requires base > 0 && max > 0 && base * max < TWO_63
    ensures !ShortWrapAt(base, max, k)
  {
    if ShortWrapAt(base, max, k) {
      var p, q, low := Pow2(k), Pow2(63 - k), base % Pow2(k);
      MulAtLeast(low, q, q);
      MulLe(p, base, q);
      MulLe(q, max, base);
      assert p * q == TWO_63 by { Pow2Add(k, 63 - k); Pow2Values(); }
      assert false;
    }
  }

  /** A bound a caller can check at a glance: a product of base and cap below 2^63 rules every short wrap
      out, because what survives the overflow is a positive multiple of 2^attempt. */
  lemma CapExactWhenProductFits(base: Int64, max: Int64)
    requires base > 0 && max > 0 && base * max < TWO_63
    ensures forall a: nat :: CappedDelay(base, max, a) == DocumentedDelay(base, max, a)
  {
    forall k: nat ensures !ShortWrapAt(base, max, k) { NoShortWrap(base, max, k); }
    CapExactIff(base, max);
  }

  lemma DefaultPolicyExact(a: nat)
    ensures DefaultPolicy().Cap(a) == Min(200_000_000 * Pow2(a), 5_000_000_000)
  {
    CapExactWhenProductFits(200_000_000, 5_000_000_000);
  }

  /** Whatever the overflow does, the wait is never longer than documented: a short wrap shortens it. */
  lemma CapAtMostDocumented(base: Int64, max: Int64, attempt: nat)
    requires base > 0 && max > 0
    ensures 0 < CappedDelay(base, max, attempt) <= DocumentedDelay(base, max, attempt)
  {
    MulAtLeast(base, Pow2(attempt), 1);
    if attempt < 64 && ShortWrapAt(base, max, 63 - attempt) {
      ProductOverflows(base, 63 - attempt);
    } else {
      CapExactAt(base, max, attempt);
    }
  }

  /** Base 2^32 + 1 ns (about 4.3 s) under a cap of 2^33 ns (about 8.6 s): attempt 32 waits for half the
      cap, although attempts 1 to 31 had reached it. */
  lemma CapNotAlwaysExact()
    ensures CappedDelay(0x1_0000_0001, 0x2_0000_0000, 32) == 0x1_0000_0000
    ensures DocumentedDelay(0x1_0000_0001, 0x2_0000_0000, 32) == 0x2_0000_0000
    ensures forall a: nat :: 1 <= a <= 31 ==> CappedDelay(0x1_0000_0001, 0x2_0000_0000, a) == 0x2_0000_0000
  {
    Pow2Values();
    forall a: nat | 1 <= a <= 31 ensures CappedDelay(0x1_0000_0001, 0x2_0000_0000, a) == 0x2_0000_0000 {
      var k := 63 - a;
      if k > 32 { Pow2Monotone(33, k); }
      assert !ShortWrapAt(0x1_0000_0001, 0x2_0000_0000, k);
      CapExactAt(0x1_0000_0001, 0x2_0000_0000, a);
      Pow2Monotone(1, a);
    }
  }

  // ---------------------------------------------------------------- total sleep

  function Sum(ds: seq<int>): int {
    if ds == [] then 0 else Sum(ds[..|ds| - 1]) + ds[|ds| - 1]
  }

  function SumOfCaps(p: Policy, r: nat): int {
    if r == 0 then 0 else SumOfCaps(p, r - 1) + p.Cap(r - 1)
  }

  function SumOfHalves(p: Policy, r: nat): int {
    if r == 0 then 0 else SumOfHalves(p, r - 1) + p.Cap(r - 1) / 2
  }

  /** The i-th sleep belongs to attempt i. */
  predicate SleepsInOrder(p: Policy, ds: seq<int>) {
    forall i :: 0 <= i < |ds| ==> p.PossibleDelay(i, ds[i])
  }

  lemma {:induction false} SleepBetweenSums(p: Policy, ds: seq<int>)
    requires p.BaseDelay > 0 && p.MaxDelay > 0 && SleepsInOrder(p, ds)
    ensures SumOfHalves(p, |ds|) <= Sum(ds) <= SumOfCaps(p, |ds|)
  {
    if ds != [] {
      var n := |ds| - 1;
      SleepBetweenSums(p, ds[..n]);
      assert p.PossibleDelay(n, ds[n]);
      assert p.Cap(n) >= 0;
    }
  }

  lemma Distribute(b: int, x: int, r: int, m: int)
    ensures b * (2 * x - 1) == b * (x - 1) + b * x
    ensures r * m == (r - 1) * m + m
  {}

  lemma {:induction false} SumOfCapsBounded(p: Policy, r: nat)
    requires p.BaseDelay > 0 && p.MaxDelay > 0
    ensures SumOfCaps(p, r) <= Min(p.BaseDelay * (Pow2(r) - 1), r * p.MaxDelay)
  {
    if r != 0 {
      SumOfCapsBounded(p, r - 1);
      CapAtMostDocumented(p.BaseDelay, p.MaxDelay, r - 1);
      Distribute(p.BaseDelay, Pow2(r - 1), r, p.MaxDelay);
    }
  }
}
