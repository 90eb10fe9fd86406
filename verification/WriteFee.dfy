/** The write fee per 1KB as a function of the bucket list size. */
module WriteFee {
  import opened Basics
  import opened Saturation

  const MINIMUM_WRITE_FEE_PER_1KB: int := 1000

  datatype WriteFeeConfig = WriteFeeConfig(target: int, low: int, high: int, growth: int)

  predicate InRange(size: int, c: WriteFeeConfig) {
    && I64_MIN <= size <= I64_MAX && I64_MIN <= c.target <= I64_MAX
    && I64_MIN <= c.low <= I64_MAX && I64_MIN <= c.high <= I64_MAX && 0 <= c.growth <= U32_MAX
  }

  predicate Sane(size: int, c: WriteFeeConfig) {
    0 <= c.low <= c.high && c.target >= 1 && size >= 0
  }

  /** The fee before any limit: linear up to the target, steeper by the growth factor after it. */
  function Piecewise(size: int, c: WriteFeeConfig): int
    requires c.target >= 1
  {
    if size < c.target then c.low + DivCeil((c.high - c.low) * size, c.target)
    else c.high + DivCeil((c.high - c.low) * (size - c.target) * c.growth, c.target)
  }

  function ExactFee(size: int, c: WriteFeeConfig): int
    requires c.target >= 1
  {
    Max(Min(Piecewise(size, c), I64_MAX), MINIMUM_WRITE_FEE_PER_1KB)
  }

  /** `fee` is `base` plus the fraction `num / d` rounded up, kept between 1000 and the largest 64-bit number. */
  ghost predicate RoundedUp(fee: int, base: int, num: int, d: int) {
    && 1000 <= fee <= 0x7FFF_FFFF_FFFF_FFFF
    && (fee == 1000 <==> num <= d * (1000 - base))
    && (fee == 0x7FFF_FFFF_FFFF_FFFF <==> d * (0x7FFF_FFFF_FFFF_FFFE - base) < num)
    && (1000 < fee < 0x7FFF_FFFF_FFFF_FFFF ==> d * (fee - base - 1) < num <= d * (fee - base))
  }

  lemma ExactFeeRounds(base: int, num: int, d: int)
    requires d >= 1
    ensures RoundedUp(Max(Min(base + DivCeil(num, d), I64_MAX), MINIMUM_WRITE_FEE_PER_1KB), base, num, d)
  {
    var q := DivCeil(num, d);
    if q <= 1000 - base {
      MulMono(d, q, 1000 - base);
    } else {
      MulMono(d, 1000 - base, q - 1);
    }
    if q <= I64_MAX - 1 - base {
      MulMono(d, q, I64_MAX - 1 - base);
    } else {
      MulMono(d, I64_MAX - 1 - base, q - 1);
    }
  }

  lemma PiecewiseRounds(size: int, c: WriteFeeConfig)
    requires c.target >= 1
    ensures size < c.target ==> RoundedUp(ExactFee(size, c), c.low, (c.high - c.low) * size, c.target)
    ensures size >= c.target ==>
              RoundedUp(ExactFee(size, c), c.high, (c.high - c.low) * (size - c.target) * c.growth, c.target)
  {
    if size < c.target {
      ExactFeeRounds(c.low, (c.high - c.low) * size, c.target);
    } else {
      ExactFeeRounds(c.high, (c.high - c.low) * (size - c.target) * c.growth, c.target);
    }
  }

  /** The computation in saturating 64-bit and 128-bit arithmetic is exact: up to the target the fee rises in proportion
      to the size from the low to the high fee, above it `growth` times as steeply. */
  method ComputeWriteFeePer1kb(size: int, c: WriteFeeConfig) returns (fee: int)
    requires InRange(size, c)
    ensures Sane(size, c) ==> fee == ExactFee(size, c)
    ensures Sane(size, c) && size < c.target ==> RoundedUp(fee, c.low, (c.high - c.low) * size, c.target)
    ensures Sane(size, c) && size >= c.target ==>
              RoundedUp(fee, c.high, (c.high - c.low) * (size - c.target) * c.growth, c.target)
  {
    if Sane(size, c) {
      PiecewiseRounds(size, c);
    }
    var multiplier := ClampFee(SatI64(c.high - c.low));
    if size < c.target {
      var scaled := SatI128(multiplier * size);
      fee := ClampFee(DivCeil(scaled, Max(c.target, 1)));
      fee := SatI64(fee + c.low);
      if Sane(size, c) {
        BelowTarget(size, c);
      }
    } else {
      fee := c.high;
      var beyond := SatI64(size - c.target);
      var scaled := SatI128(SatI128(multiplier * beyond) * c.growth);
      var postTargetFee := ClampFee(DivCeil(scaled, Max(c.target, 1)));
      fee := SatI64(fee + postTargetFee);
      if Sane(size, c) {
        AboveTarget(size, c);
      }
    }
    fee := Max(fee, MINIMUM_WRITE_FEE_PER_1KB);
  }

  lemma ProductBound(x: int, y: int, m: int, n: int)
    requires 0 <= x <= m && 0 <= y <= n
    ensures 0 <= x * y <= m * n
  {
    MulMono(x, y, n);
    MulMono(n, x, m);
  }

  /** Below the target nothing saturates, and the fee stays at or below the high fee. */
  lemma BelowTarget(size: int, c: WriteFeeConfig)
    requires InRange(size, c) && Sane(size, c) && size < c.target
    ensures SatI128((c.high - c.low) * size) == (c.high - c.low) * size
    ensures 0 <= DivCeil((c.high - c.low) * size, c.target) <= c.high - c.low
  {
    var m := c.high - c.low;
    ProductBound(m, size, I64_MAX, I64_MAX);
    MulMono(m, size, c.target);
    DivCeilAtMost(m * size, c.target, m);
    DivCeilAbove(m * size, c.target, -1);
  }

  /** Above the target the product can exceed 128 bits; the quotient is then beyond 64 bits both with
      and without saturation. */
  lemma AboveTarget(size: int, c: WriteFeeConfig)
    requires InRange(size, c) && Sane(size, c) && size >= c.target
    ensures var m := c.high - c.low;
            var beyond := size - c.target;
            && SatI128(m * beyond) == m * beyond
            && DivCeil(m * beyond * c.growth, c.target) >= 0
            && ClampFee(DivCeil(SatI128(m * beyond * c.growth), c.target))
               == Min(DivCeil(m * beyond * c.growth, c.target), I64_MAX)
  {
    var m := c.high - c.low;
    var beyond := size - c.target;
    ProductBound(m, beyond, I64_MAX, I64_MAX);
    ProductBound(m * beyond, c.growth, I64_MAX * I64_MAX, U32_MAX);
    var exact := m * beyond * c.growth;
    DivCeilAbove(exact, c.target, -1);
    if exact > I128_MAX {
      MulMono(I64_MAX, c.target, I64_MAX);
      DivCeilAbove(I128_MAX, c.target, I64_MAX);
      DivCeilMono(I128_MAX, exact, c.target);
    }
  }

  /** A larger bucket list never makes writing cheaper, across the target included. */
  lemma FeeGrowsWithSize(a: int, b: int, c: WriteFeeConfig)
    requires InRange(a, c) && InRange(b, c) && Sane(a, c) && a <= b
    ensures ExactFee(a, c) <= ExactFee(b, c)
  {
    var m := c.high - c.low;
    if b < c.target {
      MulMono(m, a, b);
      DivCeilMono(m * a, m * b, c.target);
    } else {
      AboveTarget(b, c);
      if a < c.target {
        BelowTarget(a, c);
      } else {
        MulMono(m, a - c.target, b - c.target);
        MulMono(c.growth, m * (a - c.target), m * (b - c.target));
        DivCeilMono(m * (a - c.target) * c.growth, m * (b - c.target) * c.growth, c.target);
      }
    }
  }

  /** The fee meets the configured ends: the low fee for an empty list, the high fee at the target. */
  lemma FeeAtTheEnds(c: WriteFeeConfig)
    requires Sane(0, c) && c.high <= I64_MAX
    ensures ExactFee(0, c) == Max(c.low, MINIMUM_WRITE_FEE_PER_1KB)
    ensures ExactFee(c.target, c) == Max(c.high, MINIMUM_WRITE_FEE_PER_1KB)
  {
    DivCeilUnique(0, c.target, 0);
  }
}
