/** real_time_sleep and real_time_delay: NUM / DENOM seconds as whole ticks, or as iterations of the
    calibrated busy-wait loop. */
module DelayArithmetic {
  const TWO_TO_THE_32 := 0x1_0000_0000
  const TWO_TO_THE_63 := 0x8000_0000_0000_0000

  /** C's division, which truncates toward zero. */
  function Div(a: int, b: int): int
    requires b > 0
  {
    if a >= 0 then a / b else -((-a) / b)
  }

  // The argument of busy_wait, evaluated from left to right.
  function DelayLoops(loopsPerTick: nat, num: int, freq: nat, denom: nat): int
    requires denom >= 1000
  {
    Div(Div(loopsPerTick * num, 1000) * freq, denom / 1000)
  }

  function WholeTicks(num: int, freq: nat, denom: nat): int
    requires denom > 0
  {
    Div(num * freq, denom)
  }

  // n is loopsPerTick * num divided by 1000, times freq, divided by denom / 1000, each division rounded down.
  ghost predicate ExactCount(loopsPerTick: nat, num: int, freq: nat, denom: nat, n: int) {
    exists q: int ::
      && 1000 * q <= loopsPerTick * num < 1000 * q + 1000
      && (denom / 1000) * n <= q * freq < (denom / 1000) * n + denom / 1000
  }

  datatype Waited = Slept(ticks: int) | Looped(iterations: nat)

  method BusyWait(loops: int) returns (iterations: nat)
    ensures iterations == if loops > 0 then loops else 0
  {
    var left := loops;
    iterations := 0;
    while left > 0
      invariant left <= loops && iterations == if loops > 0 then loops - left else 0
      invariant loops > 0 ==> 0 <= left
    {
      left := left - 1;
      iterations := iterations + 1;
    }
  }

  lemma TicksBounds(a: int, b: int)
    requires b > 0
    ensures a >= 0 ==> b * Div(a, b) <= a < b * (Div(a, b) + 1)
    ensures Div(a, b) > 0 <==> a >= b
    ensures a < 0 ==> Div(a, b) <= 0
  {
    if a >= 0 {
      assert a == b * (a / b) + a % b;
      if a >= b && a / b == 0 {
        assert false;
      }
    } else {
      assert (-a) / b >= 0;
    }
  }

  lemma ProductOrder(a: int, b: int, c: nat)
    requires a <= b
    ensures c * a <= c * b
  {
  }

  lemma NoDelay(a: int, freq: nat, d: nat)
    requires a <= 0 && d > 0
    ensures Div(Div(a, 1000) * freq, d) <= 0
  {
    var q := Div(a, 1000);
    TicksBounds(a, 1000);
    ProductOrder(q, 0, freq);
    assert q * freq <= 0;
    TicksBounds(q * freq, d);
  }

  lemma NonNegativeQuotient(x: nat, d: nat, n: int, r: int)
    requires x == d * n + r && r < d
    ensures 0 <= n
  {
    if n < 0 {
      ProductOrder(n, -1, d);
    }
  }

  lemma CountBounds(x: nat, d: nat, n: int)
    requires d > 0 && n == Div(x, d)
    ensures 0 <= n && d * n <= x < d * n + d
  {
    var r := x % d;
    assert x == d * n + r;
    NonNegativeQuotient(x, d, n, r);
  }

  lemma WholeDelay(product: nat, freq: nat, d: nat) returns (q: nat)
    requires d > 0
    ensures q == Div(product, 1000) && 1000 * q <= product < 1000 * q + 1000
    ensures var n := Div(q * freq, d); 0 <= n && d * n <= q * freq < d * n + d
  {
    q := Div(product, 1000);
    CountBounds(product, 1000, q);
    CountBounds(q * freq, d, Div(q * freq, d));
  }

  /** The argument of busy_wait, by its two remainders. */
  lemma DelayExactly(loopsPerTick: nat, num: int, freq: nat, denom: nat)
    requires denom > 0 && denom % 1000 == 0
    ensures num >= 0 ==>
      DelayLoops(loopsPerTick, num, freq, denom) >= 0 &&
      ExactCount(loopsPerTick, num, freq, denom, DelayLoops(loopsPerTick, num, freq, denom))
    ensures num <= 0 ==> DelayLoops(loopsPerTick, num, freq, denom) <= 0
  {
    ProductSign(loopsPerTick, num);
    if num >= 0 {
      var q := WholeDelay(loopsPerTick * num, freq, denom / 1000);
    }
    if num <= 0 {
      NoDelay(loopsPerTick * num, freq, denom / 1000);
    }
  }

  lemma ProductSign(c: nat, a: int)
    ensures a >= 0 ==> c * a >= 0
    ensures a <= 0 ==> c * a <= 0
  {
  }

  method RealTimeDelay(loopsPerTick: nat, num: int, freq: nat, denom: nat) returns (iterations: nat)
    requires denom > 0 && denom % 1000 == 0
    ensures num >= 0 ==> ExactCount(loopsPerTick, num, freq, denom, iterations)
    ensures num <= 0 ==> iterations == 0
  {
    DelayExactly(loopsPerTick, num, freq, denom);
    iterations := BusyWait(DelayLoops(loopsPerTick, num, freq, denom));
  }

  method RealTimeSleep(loopsPerTick: nat, num: int, freq: nat, denom: nat) returns (w: Waited)
    requires denom > 0 && denom % 1000 == 0
    ensures w.Slept? <==> num * freq >= denom
    ensures w.Slept? ==> denom * w.ticks <= num * freq < denom * (w.ticks + 1)
    ensures w.Looped? && num >= 0 ==> ExactCount(loopsPerTick, num, freq, denom, w.iterations)
    ensures w.Looped? && num <= 0 ==> w.iterations == 0
  {
    var ticks := Div(num * freq, denom);
    TicksBounds(num * freq, denom);
    if ticks > 0 {
      w := Slept(ticks);
    } else {
      var iterations := RealTimeDelay(loopsPerTick, num, freq, denom);
      w := Looped(iterations);
    }
  }

  /** The number of iterations r against the exact value loopsPerTick * num * freq / denom: rounded
      down, by less than one iteration plus one thousandth of a second of ticks. */
  lemma DelayBounds(loopsPerTick: nat, num: nat, freq: nat, denom: nat)
    requires denom > 0 && denom % 1000 == 0 && freq > 0
    ensures var r := DelayLoops(loopsPerTick, num, freq, denom);
      && 0 <= r
      && denom * r <= loopsPerTick * num * freq < denom * (r + 1) + 1000 * freq
  {
    var d := denom / 1000;
    var product := loopsPerTick * num;
    var a := Div(product, 1000);
    TicksBounds(product, 1000);
    NestedDivision(product, a, freq, d);
  }

  lemma NestedDivision(product: nat, a: nat, freq: nat, d: nat)
    requires 1000 * a <= product < 1000 * (a + 1) && freq > 0 && d > 0
    ensures var r := Div(a * freq, d);
      0 <= r && 1000 * d * r <= product * freq < 1000 * d * (r + 1) + 1000 * freq
  {
    TicksBounds(a * freq, d);
    ProductOrder(1000 * a, product, freq);
    ProductOrder(product + 1, 1000 * (a + 1), freq);
    Scaled(freq, a, product, d, Div(a * freq, d));
  }

  lemma Scaled(freq: nat, a: int, product: int, d: nat, r: int)
    requires freq > 0 && freq * (1000 * a) <= freq * product && freq * (product + 1) <= freq * (1000 * (a + 1))
    requires d * r <= a * freq < d * (r + 1)
    ensures 1000 * d * r <= product * freq < 1000 * d * (r + 1) + 1000 * freq
  {
    assert freq * (1000 * a) == 1000 * (a * freq);
    assert freq * (1000 * (a + 1)) == 1000 * (a * freq) + 1000 * freq;
    assert freq * (product + 1) == product * freq + freq;
    assert 1000 * d * r == 1000 * (d * r) && 1000 * d * (r + 1) == 1000 * (d * (r + 1));
  }

  /** Below one tick the loop runs less than one tick, and no 64-bit intermediate overflows. */
  lemma SubTickDelay(loopsPerTick: nat, num: nat, freq: nat, denom: nat)
    requires 0 < loopsPerTick < TWO_TO_THE_32 && 19 <= freq <= 1000
    requires denom == 1000 || denom == 1_000_000 || denom == 1_000_000_000
    requires WholeTicks(num, freq, denom) <= 0
    ensures DelayLoops(loopsPerTick, num, freq, denom) < loopsPerTick
    ensures num * freq < TWO_TO_THE_63
    ensures loopsPerTick * num < TWO_TO_THE_63
    ensures Div(loopsPerTick * num, 1000) * freq < TWO_TO_THE_63
  {
    TicksBounds(num * freq, denom);
    var r := DelayLoops(loopsPerTick, num, freq, denom);
    DelayBounds(loopsPerTick, num, freq, denom);
    LessThanATick(loopsPerTick, num, freq, denom, r);
    NoOverflow(loopsPerTick, num, freq);
  }

  lemma LessThanATick(loopsPerTick: nat, num: nat, freq: nat, denom: nat, r: int)
    requires loopsPerTick > 0 && num * freq < denom && denom * r <= loopsPerTick * num * freq
    ensures r < loopsPerTick
  {
    Below(loopsPerTick, num * freq, denom);
    assert loopsPerTick * num * freq == loopsPerTick * (num * freq);
    if r >= loopsPerTick {
      ProductOrder(loopsPerTick, r, denom);
    }
  }

  lemma NoOverflow(loopsPerTick: nat, num: nat, freq: nat)
    requires loopsPerTick < TWO_TO_THE_32 && freq > 0 && num * freq < 1_000_000_000
    ensures loopsPerTick * num < TWO_TO_THE_63
    ensures Div(loopsPerTick * num, 1000) * freq < TWO_TO_THE_63
  {
    ProductOrder(1, freq, num);
    SmallProduct(loopsPerTick, num);
    SmallProduct(loopsPerTick, num * freq);
    assert loopsPerTick * num * freq == loopsPerTick * (num * freq);
    TicksBounds(loopsPerTick * num, 1000);
    Thousandth(loopsPerTick * num, Div(loopsPerTick * num, 1000), freq);
  }

  lemma Below(c: nat, a: int, b: int)
    requires c > 0 && a < b
    ensures c * a < c * b
  {
  }

  lemma SmallProduct(c: nat, a: nat)
    requires c < TWO_TO_THE_32 && a < 1_000_000_000
    ensures c * a < TWO_TO_THE_63
  {
    ProductOrder(a, 1_000_000_000, c);
  }

  lemma Thousandth(p: nat, a: int, freq: nat)
    requires 1000 * a <= p && p * freq < TWO_TO_THE_63 && 0 <= a
    ensures a * freq < TWO_TO_THE_63
  {
    ProductOrder(a, p, freq);
  }
}
