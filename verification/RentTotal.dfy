/** What rent comes to in ledgers, bytes and rates, for one change and for a transaction. */
module RentTotal {
  import opened Basics
  import opened Saturation
  import opened RentFee
  import opened RentPotential

  /** Byte-ledgers at the rate for 1KB that one unit of fee pays for: each durability has its own price. */
  function PerUnit(isPersistent: bool, c: RentConfig): int {
    Max(Min(1024 * (if isPersistent then c.persistentDenominator else c.temporaryDenominator), I64_MAX), 1)
  }

  predicate Created(e: RentChange) {
    e.oldSize == 0 && e.oldLiveUntil == 0
  }

  /** The ledgers a change adds to the life of an entry; a new entry pays from the current ledger on. */
  function AddedLedgers(e: RentChange, current: nat): nat {
    Max(e.newLiveUntil - (if Created(e) then Max(current - 1, 0) else e.oldLiveUntil), 0)
  }

  /** The ledgers from the current one on that the entry had paid for. */
  function PaidLedgers(e: RentChange, current: nat): nat {
    if Created(e) then 0 else Min(Max(e.oldLiveUntil - current + 1, 0), U32_MAX)
  }

  function AddedBytes(e: RentChange): nat {
    Max(e.newSize - e.oldSize, 0)
  }

  /** The whole entry pays for the added ledgers, its added bytes for those paid already. */
  function Owed(e: RentChange, c: RentConfig, current: nat): int {
    e.newSize * c.feePerWrite1kb * AddedLedgers(e, current)
    + AddedBytes(e) * c.feePerWrite1kb * PaidLedgers(e, current)
  }

  lemma FeeIsParts(e: RentChange, c: RentConfig, current: nat)
    ensures EntryFee(e, c, current)
         == SatI64(SatI64(FeeForSizeAndLedgers(e.isPersistent, e.newSize, AddedLedgers(e, current), c))
                   + FeeForSizeAndLedgers(e.isPersistent, AddedBytes(e), PaidLedgers(e, current), c))
  {
    NoExtension(e.isPersistent, e.newSize, c);
    NoExtension(e.isPersistent, AddedBytes(e), c);
    NoTopUp(e.isPersistent, PaidLedgers(e, current), c);
    hide FeeForSizeAndLedgers;
  }

  lemma PerUnitIsDenominator(isPersistent: bool, c: RentConfig)
    ensures PerUnit(isPersistent, c) >= 1
    ensures Denominator(isPersistent, c) == PerUnit(isPersistent, c)
  {}

  /** Any change of an entry, whatever it does to size and life, costs what is owed for it in whole units, each of its
      two parts rounded up; less only where a product exceeds 64 bits. */
  lemma ChangeFeeExact(e: RentChange, c: RentConfig, current: nat)
    requires Nonnegative(c)
    ensures var fee, d := EntryFee(e, c, current), PerUnit(e.isPersistent, c);
            && 0 <= fee <= I64_MAX && d * fee < Owed(e, c, current) + 2 * d
            && (Owed(e, c, current) <= I64_MAX && e.newSize * c.feePerWrite1kb <= I64_MAX ==>
                  d * fee >= Owed(e, c, current))
  {
    hide AddedLedgers, PaidLedgers, AddedBytes, EntryFee, Denominator, DivCeil, PerUnit, FeeForSizeAndLedgers, SatI64;
    var d := PerUnit(e.isPersistent, c);
    var rate, topUpRate := e.newSize * c.feePerWrite1kb, AddedBytes(e) * c.feePerWrite1kb;
    AddedWithin(e);
    PerUnitIsDenominator(e.isPersistent, c);
    MulMono(c.feePerWrite1kb, 0, AddedBytes(e));
    MulMono(c.feePerWrite1kb, AddedBytes(e), e.newSize);
    MulMono(AddedLedgers(e, current), 0, rate);
    MulMono(PaidLedgers(e, current), 0, topUpRate);
    FeeIsParts(e, c, current);
    FeeForm(e.isPersistent, e.newSize, AddedLedgers(e, current), c);
    FeeForm(e.isPersistent, AddedBytes(e), PaidLedgers(e, current), c);
    PartsBound(rate, AddedLedgers(e, current), topUpRate, PaidLedgers(e, current), d, EntryFee(e, c, current));
  }

  lemma AddedWithin(e: RentChange)
    ensures AddedBytes(e) <= e.newSize
  {}

  lemma FeeForm(isPersistent: bool, size: nat, ledgers: nat, c: RentConfig)
    ensures FeeForSizeAndLedgers(isPersistent, size, ledgers, c)
         == DivCeil(SatI64(SatI64(size * c.feePerWrite1kb) * ledgers), Denominator(isPersistent, c))
  {}

  lemma PartsBound(rate: nat, ledgers: nat, topUpRate: nat, paid: nat, d: int, fee: int)
    requires d >= 1 && rate * ledgers >= 0 && topUpRate * paid >= 0
    requires fee == SatI64(SatI64(DivCeil(SatI64(SatI64(rate) * ledgers), d))
                           + DivCeil(SatI64(SatI64(topUpRate) * paid), d))
    ensures var owed := rate * ledgers + topUpRate * paid;
            && 0 <= fee <= I64_MAX && d * fee < owed + 2 * d
            && (owed <= I64_MAX && rate <= I64_MAX && topUpRate <= I64_MAX ==> d * fee >= owed)
  {
    PartBounds(rate, ledgers, d);
    PartBounds(topUpRate, paid, d);
    var x, y := DivCeil(SatI64(SatI64(rate) * ledgers), d), DivCeil(SatI64(SatI64(topUpRate) * paid), d);
    hide DivCeil;
    assert fee == Min(x + y, I64_MAX);
    Distribute(d, x, y);
    MulMono(d, fee, x + y);
  }

  // ---------- a transaction ----------

  /** Every change is charged once, wherever it stands. */
  lemma {:induction false} FeesAdd(a: seq<RentChange>, b: seq<RentChange>, c: RentConfig, current: nat)
    ensures EntryFees(a + b, c, current) == EntryFees(a, c, current) + EntryFees(b, c, current)
    ensures Extensions(a + b) == Extensions(a) + Extensions(b)
    decreases |b|
  {
    if b == [] {
      assert a + b == a;
    } else {
      assert (a + b)[..|a + b| - 1] == a + b[..|b| - 1];
      FeesAdd(a, b[..|b| - 1], c, current);
    }
  }

  lemma FeeOfOne(e: RentChange, c: RentConfig, current: nat)
    ensures EntryFees([e], c, current) == EntryFee(e, c, current)
    ensures Extensions([e]) == if e.newLiveUntil > e.oldLiveUntil then 1 else 0
  {
    assert [e][..0] == [];
  }

  /** A transaction pays its changes' fees, and for each entry whose life was extended the write of one entry and of
      48 bytes at the rate for 1KB, together rounded up; the whole never exceeds 64 bits. */
  lemma TotalRentExact(es: seq<RentChange>, c: RentConfig, current: nat)
    requires Nonnegative(c)
    ensures var n := Extensions(es);
            && 0 <= n <= |es| && 0 <= TotalRent(es, c, current) <= I64_MAX
            && (48 * n <= U32_MAX && 48 * n * c.feePerWrite1kb <= I64_MAX && c.feePerWriteEntry * n <= I64_MAX ==>
                  var rest := TotalRent(es, c, current) - EntryFees(es, c, current) - c.feePerWriteEntry * n;
                  TotalRent(es, c, current) < I64_MAX ==>
                    48 * n * c.feePerWrite1kb <= 1024 * rest < 48 * n * c.feePerWrite1kb + 1024)
  {
    FeesNonnegative(es, c, current);
    var n := Extensions(es);
    MulMono(c.feePerWriteEntry, 0, n);
    FeePerIncrementNonnegative(SatU32(TTL_ENTRY_SIZE * n), c.feePerWrite1kb, DATA_SIZE_1KB_INCREMENT);
    MulMono(c.feePerWrite1kb, 0, 48 * n);
    if 48 * n <= U32_MAX && 48 * n * c.feePerWrite1kb <= I64_MAX {
      CeilBounds(48 * n * c.feePerWrite1kb, 1024);
    }
  }

  lemma {:induction false} FeesNonnegative(es: seq<RentChange>, c: RentConfig, current: nat)
    requires Nonnegative(c)
    ensures EntryFees(es, c, current) >= 0 && Extensions(es) <= |es|
    decreases |es|
  {
    if es != [] {
      FeesNonnegative(es[..|es| - 1], c, current);
      EntryFeeNonnegative(es[|es| - 1], c, current);
    }
  }
}
