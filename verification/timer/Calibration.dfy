/** timer_calibrate: doubling, then trying smaller bits, on a machine that completes `limit` loops
    within a tick. */
module Calibration {
  const TWO_TO_THE_31 := 0x8000_0000
  const TWO_TO_THE_32 := 0x1_0000_0000

  predicate TooManyLoops(loops: int, limit: int) {
    loops > limit
  }

  /** `x << 1` on 32 bits. */
  function ShiftLeft(x: nat): nat
    requires x < TWO_TO_THE_32
  {
    if 2 * x < TWO_TO_THE_32 then 2 * x else 2 * x - TWO_TO_THE_32
  }

  ghost predicate IsMultiple(x: nat, d: nat, q: nat) {
    x == d * q
  }

  /** `x | bit`, for an `x` that has no bit at `bit` or below. */
  function SetBit(x: nat, bit: nat): nat
    requires exists q: nat :: IsMultiple(x, 2 * bit, q)
  {
    x + bit
  }

  function Power2(e: nat): (p: nat)
    ensures p > 0
  {
    if e == 0 then 1 else 2 * Power2(e - 1)
  }

  // ----- what the two loops compute

  /** The last of low, 2 * low, 4 * low, ... that does not exceed `limit`, or `low` itself. */
  function Doubled(low: nat, limit: int): (p: nat)
    requires low > 0
    ensures low <= p && limit < 2 * p && (low <= limit ==> p <= limit)
    decreases limit - low
  {
    if 2 * low > limit then low else Doubled(2 * low, limit)
  }

  /** The sum of those of bit, bit / 2, ..., u (`n` of them) that fit into `rest`. */
  function Fitting(bit: nat, n: nat, rest: int): nat {
    if n == 0 then 0 else (if bit <= rest then bit else 0) + Fitting(bit / 2, n - 1, rest)
  }

  // The number of bits tried after the highest; the comment in the source says 8.
  const REFINED_BITS := 9

  function Calibrated(limit: int): nat {
    var high := Doubled(1024, limit);
    high + Fitting(high / 2, REFINED_BITS, limit - high)
  }

  lemma {:induction false} DoubledIsMultiple(low: nat, e: nat, limit: int) returns (f: nat)
    requires low > 0
    ensures Doubled(low * Power2(e), limit) == low * Power2(f)
    decreases limit - low * Power2(e)
  {
    var x := low * Power2(e);
    assert low * Power2(e + 1) == 2 * x;
    if 2 * x > limit {
      f := e;
    } else {
      f := DoubledIsMultiple(low, e + 1, limit);
    }
  }

  // A single bit of a 32-bit word: doubling it ends at the highest bit.
  predicate IsBit(x: nat)
    decreases TWO_TO_THE_31 - x
  {
    x == TWO_TO_THE_31 || (0 < x < TWO_TO_THE_31 && IsBit(2 * x))
  }

  lemma {:induction false} BitFromPower(x: nat, left: nat)
    requires x * Power2(left) == TWO_TO_THE_31
    ensures IsBit(x)
    decreases left
  {
    if left > 0 {
      assert x * Power2(left) == (2 * x) * Power2(left - 1);
      BitFromPower(2 * x, left - 1);
    }
  }

  lemma FirstBit()
    ensures IsBit(1024)
  {
    assert Power2(10) == 1024;
    assert Power2(21) == 2 * 1024 * 1024;
    BitFromPower(1024, 21);
  }

  /** The first loop; `ok` is the outcome of its ASSERT. */
  method FindHighBit(limit: nat) returns (ok: bool, loopsPerTick: nat)
    ensures ok <==> limit < TWO_TO_THE_31
    ensures ok ==> loopsPerTick == Doubled(1024, limit)
  {
    loopsPerTick := 1024;
    FirstBit();
    while !TooManyLoops(ShiftLeft(loopsPerTick), limit)
      invariant IsBit(loopsPerTick) && loopsPerTick <= TWO_TO_THE_31
      invariant Doubled(loopsPerTick, limit) == Doubled(1024, limit)
      invariant loopsPerTick <= limit || loopsPerTick == 1024
      decreases TWO_TO_THE_31 - loopsPerTick
    {
      loopsPerTick := ShiftLeft(loopsPerTick);
      if loopsPerTick == 0 {
        return false, 0;
      }
    }
    ok := true;
  }

  // The bit `i` places above `k`.
  ghost predicate BitAbove(bit: nat, k: nat, i: nat) {
    bit == k * Power2(i)
  }

  lemma NextLowerBit(bit: nat, k: nat, i: nat)
    requires k > 0 && BitAbove(bit, k, i)
    ensures i == 0 <==> bit == k
    ensures i > 0 ==> bit == 2 * (bit / 2) && BitAbove(bit / 2, k, i - 1)
  {
    if i > 0 {
      assert k * Power2(i) == 2 * (k * Power2(i - 1));
      assert Power2(i - 1) >= 1;
    }
  }

  lemma HalfBit(x: nat, bit: nat, q: nat)
    requires bit == 2 * (bit / 2) && IsMultiple(x, 2 * bit, q)
    ensures IsMultiple(x, 2 * (bit / 2), 2 * q) && IsMultiple(x + bit, 2 * (bit / 2), 2 * q + 1)
  {
    assert (2 * bit) * q == bit * (2 * q);
    assert bit * (2 * q + 1) == bit * (2 * q) + bit;
  }

  lemma FirstTestBit(high: nat, k: nat)
    requires high == 1024 * k
    ensures high / 1024 == k && BitAbove(high / 2, k, 9) && IsMultiple(high, 2 * (high / 2), 1)
  {
    assert Power2(9) == 512;
  }

  /** The second loop, on `highBit` = 1024 * k. */
  method RefineBits(highBit: nat, limit: nat, ghost k: nat) returns (loopsPerTick: nat)
    requires k > 0 && highBit == 1024 * k
    ensures loopsPerTick == highBit + Fitting(highBit / 2, REFINED_BITS, limit - highBit)
  {
    loopsPerTick := highBit;
    var testBit: nat := highBit / 2;
    FirstTestBit(highBit, k);
    ghost var i: nat, q: nat, p: nat := 9, 1, 1;
    while testBit != highBit / 1024
      invariant BitAbove(testBit, k, i)
      invariant IsMultiple(loopsPerTick, 2 * testBit, q) && IsMultiple(highBit, 2 * testBit, p)
      invariant loopsPerTick + Fitting(testBit, i, limit - highBit)
             == highBit + Fitting(highBit / 2, REFINED_BITS, limit - highBit)
      decreases i
    {
      NextLowerBit(testBit, k, i);
      HalfBit(loopsPerTick, testBit, q);
      HalfBit(highBit, testBit, p);
      p, q := 2 * p, 2 * q;
      if !TooManyLoops(SetBit(highBit, testBit), limit) {
        loopsPerTick := SetBit(loopsPerTick, testBit);
        q := q + 1;
      }
      testBit := testBit / 2;
      i := i - 1;
    }
    NextLowerBit(testBit, k, i);
  }

  /** `ok` is the outcome of the ASSERT in the doubling loop. */
  method TimerCalibrate(limit: nat) returns (ok: bool, loopsPerTick: nat)
    ensures ok <==> limit < TWO_TO_THE_31
    ensures ok ==> loopsPerTick == Calibrated(limit)
  {
    ok, loopsPerTick := FindHighBit(limit);
    if ok {
      ghost var e := DoubledIsMultiple(1024, 0, limit);
      loopsPerTick := RefineBits(loopsPerTick, limit, Power2(e));
    }
  }

  // ----- how good the result is

  lemma {:induction false} AllFit(u: nat, n: nat, rest: int)
    requires u > 0 && (n > 0 ==> u * Power2(n - 1) <= rest)
    ensures n > 0 ==> Fitting(u * Power2(n - 1), n, rest) == u * Power2(n) - u
  {
    if n > 1 {
      HalfPower(u, n - 1);
      AllFit(u, n - 1, rest);
    }
  }

  lemma HalfPower(u: nat, e: nat)
    requires e > 0
    ensures u * Power2(e) == 2 * (u * Power2(e - 1)) && (u * Power2(e)) / 2 == u * Power2(e - 1)
  {
    assert u * Power2(e) == 2 * (u * Power2(e - 1));
  }

  /** Each bit is tried against the highest alone, so everything below the first bit that fits is kept
      as well. */
  lemma {:induction false} FittingKeepsAllBelow(u: nat, n: nat, rest: int) returns (j: nat)
    requires u > 0 && u <= rest < u * Power2(n)
    ensures j < n && u * Power2(j) <= rest < u * Power2(j + 1)
    ensures Fitting(u * Power2(n - 1), n, rest) == u * Power2(j + 1) - u
  {
    if u * Power2(n - 1) <= rest {
      j := n - 1;
      AllFit(u, n, rest);
    } else {
      HalfPower(u, n - 1);
      j := FittingKeepsAllBelow(u, n - 1, rest);
    }
  }

  lemma {:induction false} NoneFit(bit: nat, n: nat, u: nat, rest: int)
    requires rest < u && (n > 0 ==> bit == u * Power2(n - 1))
    ensures Fitting(bit, n, rest) == 0
  {
    if n > 0 {
      PowerAtLeastOne(u, n - 1);
      if n > 1 {
        HalfPower(u, n - 1);
      }
      NoneFit(bit / 2, n - 1, u, rest);
    }
  }

  lemma PowerAtLeastOne(u: nat, e: nat)
    ensures u * Power2(e) >= u
  {
  }

  /** The shape of the result: the high bit 512 * u, and under it nothing, or the bits from some
      u * 2^j that fits down to u. */
  lemma CalibratedShape(limit: int) returns (u: nat, j: nat)
    requires 1024 <= limit
    ensures u > 0 && 2 * 512 * u > limit >= 512 * u == Doubled(1024, limit)
    ensures limit - 512 * u < u ==> Calibrated(limit) == 512 * u
    ensures limit - 512 * u >= u ==>
      && j <= 8 && u * Power2(j) <= limit - 512 * u < u * Power2(j + 1)
      && Calibrated(limit) == 512 * u + u * Power2(j + 1) - u
  {
    var f := DoubledIsMultiple(1024, 0, limit);
    u, j := 2 * Power2(f), 0;
    assert Power2(8) == 256;
    var rest := limit - 512 * u;
    if rest < u {
      NoneFit(256 * u, 9, u, rest);
    } else {
      assert Power2(9) == 512;
      j := FittingKeepsAllBelow(u, 9, rest);
    }
  }

  /** On a machine that does not complete 1024 loops within a tick the first estimate stands. */
  lemma SlowMachine(limit: int)
    requires limit < 1024
    ensures Calibrated(limit) == 1024
  {
    assert Power2(8) == 256;
    NoneFit(512, 9, 2, limit - 1024);
  }

  /** The estimate is off by less than one part in 512 downwards, and by less than a third upwards. */
  lemma CalibrationBounds(limit: int)
    requires 1024 <= limit
    ensures 511 * limit < 512 * Calibrated(limit)
    ensures 3 * Calibrated(limit) < 4 * limit
  {
    var u, j := CalibratedShape(limit);
    if limit - 512 * u >= u {
      LowBits(u, j);
      RestBounds(limit, u, u * Power2(j), Calibrated(limit));
    }
  }

  // With t for the first bit that fits.
  lemma RestBounds(limit: int, u: nat, t: nat, estimate: int)
    requires u > 0 && t <= 256 * u && t <= limit - 512 * u < 2 * t && estimate == 512 * u + 2 * t - u
    ensures 511 * limit < 512 * estimate && 3 * estimate < 4 * limit
  {
  }

  lemma LowBits(u: nat, j: nat)
    requires j <= 8
    ensures u * Power2(j) <= 256 * u && u * Power2(j + 1) == 2 * (u * Power2(j))
  {
    PowerMonotonic(j, 8);
    assert Power2(8) == 256;
    ProductMonotonic(u, Power2(j), 256);
    ProductDoubles(u, Power2(j));
  }

  lemma ProductMonotonic(u: nat, a: nat, b: nat)
    requires a <= b
    ensures u * a <= u * b
  {
  }

  lemma ProductDoubles(u: nat, a: nat)
    ensures u * (2 * a) == 2 * (u * a)
  {
  }

  lemma {:induction false} PowerMonotonic(a: nat, b: nat)
    requires a <= b
    ensures Power2(a) <= Power2(b)
  {
    if a < b {
      PowerMonotonic(a, b - 1);
    }
  }

  ghost predicate IsPowerOfTwo(x: int) {
    exists e: nat :: x == Power2(e)
  }

  /** The estimate is meant not to exceed a tick. It does not if and only if, in units of the last bit
      tried, what the high bit leaves is of the form 2^e - 1. */
  lemma NotTooManyExactly(limit: int)
    requires 1024 <= limit
    ensures var high := Doubled(1024, limit);
      !TooManyLoops(Calibrated(limit), limit) <==> IsPowerOfTwo((limit - high) / (high / 512) + 1)
  {
    var u, j := CalibratedShape(limit);
    var high, rest := Doubled(1024, limit), limit - 512 * u;
    assert high / 512 == u;
    if rest < u {
      SmallRest(rest, u);
    } else {
      RoundedRest(u, j, rest);
    }
  }

  lemma SmallRest(rest: nat, u: nat)
    requires rest < u
    ensures IsPowerOfTwo(rest / u + 1)
  {
    assert rest / u == 0 && Power2(0) == 1;
  }

  lemma RoundedRest(u: nat, j: nat, rest: int)
    requires u > 0 && u * Power2(j) <= rest < u * Power2(j + 1)
    ensures u * Power2(j + 1) - u <= rest <==> IsPowerOfTwo(rest / u + 1)
  {
    var q := rest / u;
    assert u * q <= rest < u * (q + 1);
    var low, high := Power2(j), Power2(j + 1);
    QuotientBounds(u, q, low, high, rest);
    if u * high - u <= rest {
      assert q + 1 == Power2(j + 1);
    }
    if e: nat :| q + 1 == Power2(e) {
      if e <= j {
        PowerMonotonic(e, j);
      } else {
        PowerMonotonic(j + 1, e);
      }
    }
  }

  lemma QuotientBounds(u: nat, q: int, low: nat, high: nat, rest: int)
    requires u > 0 && u * q <= rest < u * (q + 1) && u * low <= rest < u * high
    ensures low <= q < high
    ensures u * high - u <= rest <==> q + 1 == high
  {
    if q < low {
      ProductMonotonic(u, q + 1, low);
    }
    if q >= high {
      ProductMonotonic(u, high, q);
    }
    if q + 1 < high {
      ProductMonotonic(u, q + 1, high - 1);
    }
  }

  /** With 1028 loops to a tick the estimate is 1030. */
  lemma EstimateCanExceedTick()
    ensures Calibrated(1028) == 1030 && TooManyLoops(Calibrated(1028), 1028)
  {
    assert Doubled(1024, 1028) == 1024;
    assert Fitting(1, 0, 4) == 0;
    assert Fitting(2, 1, 4) == 2 && Fitting(4, 2, 4) == 6;
    assert Fitting(8, 3, 4) == 6 && Fitting(16, 4, 4) == 6 && Fitting(32, 5, 4) == 6;
    assert Fitting(64, 6, 4) == 6 && Fitting(128, 7, 4) == 6 && Fitting(256, 8, 4) == 6;
  }
}
