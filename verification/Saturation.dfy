/** The saturating and rounding arithmetic the fee code uses. */
module Saturation {
  import opened Basics

  const I64_MIN: int := -0x8000_0000_0000_0000
  const I128_MIN: int := -0x8000_0000_0000_0000_0000_0000_0000_0000

  function SatI64(x: int): int {
    if x > I64_MAX then I64_MAX else if x < I64_MIN then I64_MIN else x
  }

  function SatI128(x: int): int {
    if x > I128_MAX then I128_MAX else if x < I128_MIN then I128_MIN else x
  }

  function SatU32(x: int): int {
    if x > U32_MAX then U32_MAX else if x < 0 then 0 else x
  }

  /** Negative fees stand for errors and become the largest fee. */
  function ClampFee(x: int): int {
    if x < 0 || x > I64_MAX then I64_MAX else x
  }

  function DivCeil(a: int, b: int): (q: int)
    requires b > 0
    ensures b * (q - 1) < a <= b * q
  {
    if a % b == 0 then a / b else a / b + 1
  }

  /** The bounds of `DivCeil` determine it. */
  lemma DivCeilUnique(a: int, b: int, q: int)
    requires b > 0 && b * (q - 1) < a <= b * q
    ensures DivCeil(a, b) == q
  {
    var r := DivCeil(a, b);
    if r < q {
      MulMono(b, r, q - 1);
    } else if q < r {
      MulMono(b, q, r - 1);
    }
  }

  lemma MulMono(b: int, x: int, y: int)
    requires b >= 0 && x <= y
    ensures b * x <= b * y
  {
    assert b * (y - x) >= 0;
  }

  lemma DivCeilMono(a: int, c: int, b: int)
    requires b > 0 && a <= c
    ensures DivCeil(a, b) <= DivCeil(c, b)
  {
    var q, r := DivCeil(a, b), DivCeil(c, b);
    if r < q {
      MulMono(b, r, q - 1);
    }
  }

  /** A value above `b * n` rounds up to more than `n`. */
  lemma DivCeilAbove(a: int, b: int, n: int)
    requires b > 0 && a > b * n
    ensures DivCeil(a, b) > n
  {
    var q := DivCeil(a, b);
    if q <= n {
      MulMono(b, q, n);
    }
  }

  lemma DivCeilAtMost(a: int, b: int, n: int)
    requires b > 0 && a <= b * n
    ensures DivCeil(a, b) <= n
  {
    var q := DivCeil(a, b);
    if n < q {
      MulMono(b, n, q - 1);
    }
  }

  /** Rounding up adds less than one. */
  lemma CeilBounds(num: int, d: int)
    requires d > 0
    ensures num <= d * DivCeil(num, d) < num + d
  {
    var q := DivCeil(num, d);
    assert d * (q - 1) == d * q - d;
  }
}
