/** Rent as a potential: no way of splitting or ordering the changes of an entry saves more than a
    rounding unit. */
module RentPotential {
  import opened Basics
  import opened Saturation
  import opened RentFee

  /** One entry within one ledger: absent, or live with a size. */
  datatype Phase = Absent | Live(size: nat, until: nat)

  function Size(s: Phase): nat {
    if s.Absent? then 0 else s.size
  }

  function Until(s: Phase): nat {
    if s.Absent? then 0 else s.until
  }

  function ChangeBetween(isPersistent: bool, a: Phase, b: Phase): RentChange {
    RentChange(isPersistent, Size(a), Size(b), Until(a), Until(b))
  }

  /** The ledgers from now on that an entry has paid for, times its size. */
  function Potential(s: Phase, current: nat): int {
    if s.Absent? then 0 else s.size * (s.until - current + 1)
  }

  predicate Follows(a: Phase, b: Phase, current: nat) {
    current >= 1 && b.Live? && current <= b.until <= U32_MAX
    && (a.Live? ==> current <= a.until <= b.until)
  }

  ghost predicate History(h: seq<Phase>, current: nat) {
    |h| >= 1 && forall i :: 0 <= i < |h| - 1 ==> Follows(h[i], h[i + 1], current)
  }

  /** Rent of one change before rounding, in units of `1 / Denominator`. */
  function Unrounded(a: Phase, b: Phase, c: RentConfig, current: nat): int
    requires Follows(a, b, current)
  {
    var extension := if a.Absent? then b.until - current + 1 else b.until - a.until;
    var topUp := if a.Live? && b.size > a.size then (b.size - a.size) * (a.until - current + 1) else 0;
    c.feePerWrite1kb * (b.size * extension + topUp)
  }

  function TotalUnrounded(h: seq<Phase>, c: RentConfig, current: nat): int
    requires History(h, current)
    decreases |h|
  {
    if |h| == 1 then 0
    else TotalUnrounded(h[..|h| - 1], c, current) + Unrounded(h[|h| - 2], h[|h| - 1], c, current)
  }

  predicate Shrinks(a: Phase, b: Phase) {
    Size(b) < Size(a)
  }

  lemma StepPotential(a: Phase, b: Phase, c: RentConfig, current: nat)
    requires Nonnegative(c) && Follows(a, b, current)
    ensures Unrounded(a, b, c, current) >= c.feePerWrite1kb * (Potential(b, current) - Potential(a, current))
    ensures !Shrinks(a, b) ==>
              Unrounded(a, b, c, current) == c.feePerWrite1kb * (Potential(b, current) - Potential(a, current))
  {
    if a.Live? {
      var paid := a.until - current + 1;
      assert b.size * (b.until - current + 1) == b.size * (b.until - a.until) + b.size * paid;
      assert b.size * paid - a.size * paid == (b.size - a.size) * paid;
      if b.size < a.size {
        MulMono(paid, b.size - a.size, 0);
        MulMono(c.feePerWrite1kb, Potential(b, current) - Potential(a, current), b.size * (b.until - a.until));
      }
    }
  }

  lemma HistoryPrefix(h: seq<Phase>, current: nat)
    requires History(h, current) && |h| > 1
    ensures History(h[..|h| - 1], current) && Follows(h[|h| - 2], h[|h| - 1], current)
  {
    assert Follows(h[|h| - 2], h[|h| - 2 + 1], current);
    var g := h[..|h| - 1];
    forall i | 0 <= i < |g| - 1 ensures Follows(g[i], g[i + 1], current) {
      assert Follows(h[i], h[i + 1], current);
    }
  }

  ghost predicate NeverShrinks(h: seq<Phase>) {
    forall i, j :: 0 <= i < j < |h| && j == i + 1 ==> !Shrinks(h[i], h[j])
  }

  /** Over any history the rent is at least the gain in potential, and equal to it if the entry never
      shrinks. */
  lemma {:induction false} RentIsPotential(h: seq<Phase>, c: RentConfig, current: nat)
    requires Nonnegative(c) && History(h, current)
    ensures TotalUnrounded(h, c, current)
         >= c.feePerWrite1kb * (Potential(h[|h| - 1], current) - Potential(h[0], current))
    ensures NeverShrinks(h) ==>
              TotalUnrounded(h, c, current)
              == c.feePerWrite1kb * (Potential(h[|h| - 1], current) - Potential(h[0], current))
    decreases |h|
  {
    if |h| > 1 {
      var g := h[..|h| - 1];
      var a, b := h[|h| - 2], h[|h| - 1];
      HistoryPrefix(h, current);
      assert NeverShrinks(h) ==> NeverShrinks(g) && !Shrinks(a, b);
      RentIsPotential(g, c, current);
      StepPotential(a, b, c, current);
      hide Potential, Unrounded, Shrinks, NeverShrinks, History;
      Distribute(c.feePerWrite1kb, Potential(b, current) - Potential(a, current),
                 Potential(a, current) - Potential(h[0], current));
    }
  }

  lemma Distribute(f: int, x: int, y: int)
    ensures f * (x + y) == f * x + f * y
  {}

  // ---------- rounding ----------

  /** No product of the change exceeds 64 bits. */
  predicate Unsaturated(a: Phase, b: Phase, c: RentConfig, current: nat)
    requires Follows(a, b, current)
  {
    Unrounded(a, b, c, current) <= I64_MAX && b.size * c.feePerWrite1kb <= I64_MAX
  }

  /** One rounded part of the fee against its exact numerator. */
  lemma PartBounds(rate: nat, ledgers: nat, d: int)
    requires d >= 1
    ensures var fee := DivCeil(SatI64(SatI64(rate) * ledgers), d);
            && 0 <= fee <= I64_MAX
            && d * fee < rate * ledgers + d
            && (rate <= I64_MAX && rate * ledgers <= I64_MAX ==> d * fee >= rate * ledgers && fee <= rate * ledgers)
  {
    MulMono(ledgers, 0, SatI64(rate));
    MulMono(ledgers, SatI64(rate), rate);
    var num := SatI64(SatI64(rate) * ledgers);
    assert 0 <= num <= rate * ledgers && num <= I64_MAX;
    CeilBounds(num, d);
    DivCeilAbove(num, d, -1);
    MulMono(num, 1, d);
    DivCeilAtMost(num, d, num);
  }

  function Extension(a: Phase, b: Phase, current: nat): nat
    requires Follows(a, b, current)
  {
    if a.Absent? then b.until - current + 1 else b.until - a.until
  }

  function Growth(a: Phase, b: Phase): nat {
    if a.Live? && Size(b) > a.size then Size(b) - a.size else 0
  }

  function Paid(a: Phase, b: Phase, current: nat): nat
    requires Follows(a, b, current)
  {
    if a.Live? then a.until - current + 1 else 0
  }

  /** The fee as its two rounded parts. */
  lemma FeeParts(isPersistent: bool, a: Phase, b: Phase, c: RentConfig, current: nat)
    requires Follows(a, b, current)
    ensures EntryFee(ChangeBetween(isPersistent, a, b), c, current)
         == SatI64(SatI64(FeeForSizeAndLedgers(isPersistent, b.size, Extension(a, b, current), c))
                   + FeeForSizeAndLedgers(isPersistent, Growth(a, b), Paid(a, b, current), c))
  {
    NoTopUp(isPersistent, Paid(a, b, current), c);
    hide FeeForSizeAndLedgers;
  }

  /** The unrounded rent as their exact numerators. */
  lemma UnroundedParts(a: Phase, b: Phase, c: RentConfig, current: nat)
    requires Nonnegative(c) && Follows(a, b, current)
    ensures Unrounded(a, b, c, current)
         == b.size * c.feePerWrite1kb * Extension(a, b, current)
            + Growth(a, b) * c.feePerWrite1kb * Paid(a, b, current)
    ensures 0 <= Growth(a, b) * c.feePerWrite1kb <= b.size * c.feePerWrite1kb
  {
    var f := c.feePerWrite1kb;
    MulMono(f, 0, Growth(a, b));
    MulMono(f, Growth(a, b), b.size);
    Distribute(f, b.size * Extension(a, b, current), Growth(a, b) * Paid(a, b, current));
    Associate(f, b.size, Extension(a, b, current));
    Associate(f, Growth(a, b), Paid(a, b, current));
  }

  lemma Associate(f: int, x: int, y: int)
    ensures f * (x * y) == (x * f) * y
  {}

  /** The fee charged for a change is its unrounded rent, rounded up by less than two units. */
  lemma FeeBounds(isPersistent: bool, a: Phase, b: Phase, c: RentConfig, current: nat)
    requires Nonnegative(c) && Follows(a, b, current)
    ensures var fee := EntryFee(ChangeBetween(isPersistent, a, b), c, current);
            var d := Denominator(isPersistent, c);
            && d * fee < Unrounded(a, b, c, current) + 2 * d
            && (Unsaturated(a, b, c, current) ==> d * fee >= Unrounded(a, b, c, current))
  {
    var d := Denominator(isPersistent, c);
    var rate, ledgers := b.size * c.feePerWrite1kb, Extension(a, b, current);
    var topUpRate, paid := Growth(a, b) * c.feePerWrite1kb, Paid(a, b, current);
    FeeParts(isPersistent, a, b, c, current);
    UnroundedParts(a, b, c, current);
    hide Extension, Growth, Paid, EntryFee, Unrounded, Denominator, DivCeil;
    PartBounds(rate, ledgers, d);
    PartBounds(topUpRate, paid, d);
    MulMono(ledgers, 0, rate);
    MulMono(paid, 0, topUpRate);
    var x, y := DivCeil(SatI64(SatI64(rate) * ledgers), d), DivCeil(SatI64(SatI64(topUpRate) * paid), d);
    var fee := EntryFee(ChangeBetween(isPersistent, a, b), c, current);
    assert fee <= x + y;
    Distribute(d, x, y);
    MulMono(d, fee, x + y);
  }

  lemma NoTopUp(isPersistent: bool, ledgers: nat, c: RentConfig)
    ensures FeeForSizeAndLedgers(isPersistent, 0, ledgers, c) == 0
  {
    DivCeilUnique(0, Denominator(isPersistent, c), 0);
  }

  lemma NoExtension(isPersistent: bool, size: nat, c: RentConfig)
    ensures FeeForSizeAndLedgers(isPersistent, size, 0, c) == 0
  {
    DivCeilUnique(0, Denominator(isPersistent, c), 0);
  }

  function TotalFee(h: seq<Phase>, isPersistent: bool, c: RentConfig, current: nat): int
    requires History(h, current)
    decreases |h|
  {
    if |h| == 1 then 0
    else TotalFee(h[..|h| - 1], isPersistent, c, current)
         + EntryFee(ChangeBetween(isPersistent, h[|h| - 2], h[|h| - 1]), c, current)
  }

  ghost predicate NeverSaturates(h: seq<Phase>, c: RentConfig, current: nat)
    requires History(h, current)
  {
    forall i :: 0 <= i < |h| - 1 ==> Unsaturated(h[i], h[i + 1], c, current)
  }

  lemma {:induction false} TotalFeeCovers(h: seq<Phase>, isPersistent: bool, c: RentConfig, current: nat)
    requires Nonnegative(c) && History(h, current) && NeverSaturates(h, c, current)
    ensures Denominator(isPersistent, c) * TotalFee(h, isPersistent, c, current) >= TotalUnrounded(h, c, current)
    decreases |h|
  {
    if |h| > 1 {
      var g := h[..|h| - 1];
      var a, b := h[|h| - 2], h[|h| - 1];
      HistoryPrefix(h, current);
      assert Unsaturated(h[|h| - 2], h[|h| - 2 + 1], c, current);
      forall i | 0 <= i < |g| - 1 ensures Unsaturated(g[i], g[i + 1], c, current) {
        assert Unsaturated(h[i], h[i + 1], c, current);
      }
      hide EntryFee, Denominator, Unrounded, Unsaturated, History, Follows;
      TotalFeeCovers(g, isPersistent, c, current);
      FeeBounds(isPersistent, a, b, c, current);
      CoversBoth(Denominator(isPersistent, c), TotalFee(g, isPersistent, c, current),
                 EntryFee(ChangeBetween(isPersistent, a, b), c, current), TotalUnrounded(g, c, current),
                 Unrounded(a, b, c, current));
      assert TotalFee(h, isPersistent, c, current)
             == TotalFee(g, isPersistent, c, current) + EntryFee(ChangeBetween(isPersistent, a, b), c, current);
    }
  }

  lemma CoversBoth(d: int, x: int, y: int, u: int, v: int)
    requires d * x >= u && d * y >= v
    ensures d * (x + y) >= u + v
  {
    Distribute(d, x, y);
  }

  lemma {:induction false} EndFollowsStart(h: seq<Phase>, current: nat)
    requires History(h, current) && |h| > 1
    ensures Follows(h[0], h[|h| - 1], current)
    decreases |h|
  {
    HistoryPrefix(h, current);
    if |h| > 2 {
      EndFollowsStart(h[..|h| - 1], current);
    }
  }

  // ---------- splitting ----------

  /** The entry, with what exceeds the size `bound` left out. */
  function Cut(s: Phase, bound: nat): Phase {
    if s.Live? then Live(Min(s.size, bound), s.until) else s
  }

  lemma CutStep(a: Phase, b: Phase, bound: nat, c: RentConfig, current: nat)
    requires Nonnegative(c) && Follows(a, b, current)
    ensures Unrounded(a, b, c, current)
         >= c.feePerWrite1kb * (Potential(Cut(b, bound), current) - Potential(Cut(a, bound), current))
  {
    var y := Cut(b, bound).size;
    var x, paid := (if a.Live? then Cut(a, bound).size else 0), (if a.Live? then a.until - current + 1 else 0);
    var extension := if a.Absent? then b.until - current + 1 else b.until - a.until;
    var topUp := if a.Live? && b.size > a.size then (b.size - a.size) * paid else 0;
    Distribute(y, extension, paid);
    Distribute(paid, y - x, x);
    MulMono(extension, y, b.size);
    if a.Live? {
      MulMono(paid, y - x, Max(b.size - a.size, 0));
    }
    assert Potential(Cut(b, bound), current) - Potential(Cut(a, bound), current) <= b.size * extension + topUp;
    MulMono(c.feePerWrite1kb, Potential(Cut(b, bound), current) - Potential(Cut(a, bound), current),
            b.size * extension + topUp);
  }

  /** Whatever sizes come in between, the rent covers the gain in potential below any bound on the size. */
  lemma {:induction false} RentCoversCut(h: seq<Phase>, bound: nat, c: RentConfig, current: nat)
    requires Nonnegative(c) && History(h, current)
    ensures TotalUnrounded(h, c, current)
         >= c.feePerWrite1kb * (Potential(Cut(h[|h| - 1], bound), current) - Potential(Cut(h[0], bound), current))
    decreases |h|
  {
    if |h| > 1 {
      var g := h[..|h| - 1];
      var a, b := h[|h| - 2], h[|h| - 1];
      HistoryPrefix(h, current);
      RentCoversCut(g, bound, c, current);
      CutStep(a, b, bound, c, current);
      hide Potential, Unrounded, Cut, History;
      Distribute(c.feePerWrite1kb, Potential(Cut(b, bound), current) - Potential(Cut(a, bound), current),
                 Potential(Cut(a, bound), current) - Potential(Cut(h[0], bound), current));
    }
  }

  /** Making a change at once costs, before rounding, exactly the gain in potential below its final size. */
  lemma DirectIsCut(a: Phase, b: Phase, c: RentConfig, current: nat)
    requires Nonnegative(c) && Follows(a, b, current)
    ensures Unrounded(a, b, c, current)
         == c.feePerWrite1kb * (Potential(Cut(b, b.size), current) - Potential(Cut(a, b.size), current))
  {
    StepPotential(a, b, c, current);
    if Shrinks(a, b) {
      Distribute(b.size, b.until - a.until, a.until - current + 1);
    }
  }

  /** Splitting a change into any number of changes within the ledger, in any order and with any
      intermediate sizes, saves at most one unit against making it at once, whether the entry ends up larger or smaller
      than it was. */
  lemma SplittingSavesAtMostOne(h: seq<Phase>, isPersistent: bool, c: RentConfig, current: nat)
    requires Nonnegative(c) && History(h, current) && |h| > 1 && NeverSaturates(h, c, current)
    ensures EntryFee(ChangeBetween(isPersistent, h[0], h[|h| - 1]), c, current)
         <= TotalFee(h, isPersistent, c, current) + 1
  {
    hide EntryFee, Denominator, Unrounded, NeverSaturates, Potential, Cut;
    var a, b := h[0], h[|h| - 1];
    EndFollowsStart(h, current);
    DirectIsCut(a, b, c, current);
    RentCoversCut(h, b.size, c, current);
    TotalFeeCovers(h, isPersistent, c, current);
    FeeBounds(isPersistent, a, b, c, current);
    WithinOne(Denominator(isPersistent, c), EntryFee(ChangeBetween(isPersistent, a, b), c, current),
              TotalFee(h, isPersistent, c, current), Unrounded(a, b, c, current));
  }

  lemma WithinOne(d: int, direct: int, total: int, rent: int)
    requires d >= 1 && d * direct < rent + 2 * d && rent <= d * total
    ensures direct <= total + 1
  {
    if direct >= total + 2 {
      MulMono(d, total + 2, direct);
      Distribute(d, total, 2);
    }
  }

  /** That unit can be saved: extending first and growing afterwards costs 2, doing both at once 3. */
  lemma SplittingCanSaveOne()
    ensures var c := RentConfig(1, 0, 1, 1);
            var h := [Live(1024, 1), Live(1024, 2), Live(1025, 2)];
            && History(h, 1) && TotalFee(h, true, c, 1) == 2
            && EntryFee(ChangeBetween(true, h[0], h[2]), c, 1) == 3
  {
    var c := RentConfig(1, 0, 1, 1);
    var x, y, z := Live(1024, 1), Live(1024, 2), Live(1025, 2);
    var h := [x, y, z];
    DivCeilUnique(1024, 1024, 1);
    DivCeilUnique(2, 1024, 1);
    DivCeilUnique(1025, 1024, 2);
    DivCeilUnique(1, 1024, 1);
    FeeParts(true, x, y, c, 1);
    FeeParts(true, y, z, c, 1);
    FeeParts(true, x, z, c, 1);
    NoTopUp(true, 1, c);
    NoExtension(true, 1025, c);
    hide DivCeil, EntryFee;
    assert EntryFee(ChangeBetween(true, x, y), c, 1) == 1;
    assert EntryFee(ChangeBetween(true, y, z), c, 1) == 1;
    assert EntryFee(ChangeBetween(true, x, z), c, 1) == 3;
    assert h[..2] == [x, y] && [x, y][..1] == [x];
    assert TotalFee([x, y], true, c, 1) == 1;
  }
}
