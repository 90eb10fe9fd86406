/** Rent: what a change of one entry costs, and what any sequence of changes must cost. */
module RentFee {
  import opened Basics
  import opened Saturation

  const DATA_SIZE_1KB_INCREMENT: int := 1024
  const TTL_ENTRY_SIZE: int := 48

  datatype RentConfig = RentConfig(
    feePerWrite1kb: int,
    feePerWriteEntry: int,
    persistentDenominator: int,
    temporaryDenominator: int)

  datatype RentChange = RentChange(
    isPersistent: bool,
    oldSize: nat,
    newSize: nat,
    oldLiveUntil: nat,
    newLiveUntil: nat)

  // ---------- the cost of one change ----------

  function ExclusiveDiff(lo: nat, hi: nat): Option<nat> {
    if hi < lo then None else Some(hi - lo)
  }

  function InclusiveDiff(lo: nat, hi: nat): Option<nat> {
    if hi < lo then None else Some(SatU32(hi - lo + 1))
  }

  predicate EntryIsNew(e: RentChange) {
    e.oldSize == 0 && e.oldLiveUntil == 0
  }

  function ExtensionLedgers(e: RentChange, current: nat): Option<nat> {
    ExclusiveDiff(if EntryIsNew(e) then (if current == 0 then 0 else current - 1) else e.oldLiveUntil,
                  e.newLiveUntil)
  }

  function PrepaidLedgers(e: RentChange, current: nat): Option<nat> {
    if EntryIsNew(e) then None else InclusiveDiff(current, e.oldLiveUntil)
  }

  function SizeIncrease(e: RentChange): Option<nat> {
    ExclusiveDiff(e.oldSize, e.newSize)
  }

  function Denominator(isPersistent: bool, c: RentConfig): (d: int)
    ensures d >= 1
  {
    Max(SatI64(DATA_SIZE_1KB_INCREMENT * if isPersistent then c.persistentDenominator else c.temporaryDenominator), 1)
  }

  function FeeForSizeAndLedgers(isPersistent: bool, size: nat, ledgers: nat, c: RentConfig): int {
    DivCeil(SatI64(SatI64(size * c.feePerWrite1kb) * ledgers), Denominator(isPersistent, c))
  }

  function ExtensionFee(e: RentChange, c: RentConfig, current: nat): int {
    match ExtensionLedgers(e, current)
    case Some(ledgers) => FeeForSizeAndLedgers(e.isPersistent, e.newSize, ledgers, c)
    case None => 0
  }

  function TopUpFee(e: RentChange, c: RentConfig, current: nat): int {
    match (PrepaidLedgers(e, current), SizeIncrease(e))
    case (Some(ledgers), Some(size)) => FeeForSizeAndLedgers(e.isPersistent, size, ledgers, c)
    case _ => 0
  }

  function EntryFee(e: RentChange, c: RentConfig, current: nat): int {
    SatI64(SatI64(ExtensionFee(e, c, current)) + TopUpFee(e, c, current))
  }

  method RentFeePerEntryChange(e: RentChange, c: RentConfig, current: nat) returns (fee: int)
    ensures fee == EntryFee(e, c, current)
  {
    fee := 0;
    var ledgers := ExtensionLedgers(e, current);
    if ledgers.Some? {
      fee := SatI64(fee + FeeForSizeAndLedgers(e.isPersistent, e.newSize, ledgers.value, c));
    }
    var prepaid, increase := PrepaidLedgers(e, current), SizeIncrease(e);
    if prepaid.Some? && increase.Some? {
      fee := SatI64(fee + FeeForSizeAndLedgers(e.isPersistent, increase.value, prepaid.value, c));
    }
    fee := SatI64(fee);
  }

  // ---------- the fee of a transaction ----------

  predicate Nonnegative(c: RentConfig) {
    c.feePerWrite1kb >= 0 && c.feePerWriteEntry >= 0
  }

  function FeePerIncrement(resource: nat, rate: int, increment: int): int {
    DivCeil(SatI64(resource * rate), Max(increment, 1))
  }

  predicate Extended(e: RentChange) {
    e.oldLiveUntil < e.newLiveUntil
  }

  function Extensions(es: seq<RentChange>): nat {
    if es == [] then 0 else Extensions(es[..|es| - 1]) + if Extended(es[|es| - 1]) then 1 else 0
  }

  function EntryFees(es: seq<RentChange>, c: RentConfig, current: nat): int {
    if es == [] then 0 else EntryFees(es[..|es| - 1], c, current) + EntryFee(es[|es| - 1], c, current)
  }

  /** Rent for the changes, and for writing the TTL entries of those that were extended. */
  function TotalRent(es: seq<RentChange>, c: RentConfig, current: nat): int {
    Min(I64_MAX,
        EntryFees(es, c, current)
        + SatI64(c.feePerWriteEntry * Extensions(es))
        + FeePerIncrement(SatU32(TTL_ENTRY_SIZE * Extensions(es)), c.feePerWrite1kb, DATA_SIZE_1KB_INCREMENT))
  }

  lemma FeeForSizeNonnegative(isPersistent: bool, size: nat, ledgers: nat, c: RentConfig)
    requires Nonnegative(c)
    ensures FeeForSizeAndLedgers(isPersistent, size, ledgers, c) >= 0
  {
    MulMono(c.feePerWrite1kb, 0, size);
    var x := SatI64(size * c.feePerWrite1kb);
    MulMono(x, 0, ledgers);
    DivCeilAbove(SatI64(x * ledgers), Denominator(isPersistent, c), -1);
  }

  lemma EntryFeeNonnegative(e: RentChange, c: RentConfig, current: nat)
    requires Nonnegative(c)
    ensures EntryFee(e, c, current) >= 0
  {
    match ExtensionLedgers(e, current) {
      case Some(ledgers) => FeeForSizeNonnegative(e.isPersistent, e.newSize, ledgers, c);
      case None =>
    }
    match (PrepaidLedgers(e, current), SizeIncrease(e)) {
      case (Some(ledgers), Some(size)) => FeeForSizeNonnegative(e.isPersistent, size, ledgers, c);
      case _ =>
    }
  }

  /** The loop of saturating additions gives the exact total, limited once: neither the order of the
      changes nor the steps at which the sum saturates matter. */
  method ComputeRentFee(es: seq<RentChange>, c: RentConfig, current: nat) returns (fee: int)
    requires Nonnegative(c) && |es| <= I64_MAX
    ensures fee == TotalRent(es, c, current)
  {
    fee := 0;
    var extendedEntries := 0;
    var extendedKeySize := 0;
    for i := 0 to |es|
      invariant fee == Min(I64_MAX, EntryFees(es[..i], c, current)) && 0 <= EntryFees(es[..i], c, current)
      invariant extendedEntries == Extensions(es[..i]) <= i
      invariant extendedKeySize == SatU32(TTL_ENTRY_SIZE * Extensions(es[..i]))
    {
      assert es[..i + 1][..i] == es[..i];
      hide EntryFee, FeePerIncrement;
      var e := es[i];
      var entryFee := RentFeePerEntryChange(e, c, current);
      EntryFeeNonnegative(e, c, current);
      fee := SatI64(fee + entryFee);
      if e.oldLiveUntil < e.newLiveUntil {
        extendedEntries := SatI64(extendedEntries + 1);
        extendedKeySize := SatU32(extendedKeySize + TTL_ENTRY_SIZE);
      }
    }
    assert es[..|es|] == es;
    FeePerIncrementNonnegative(extendedKeySize, c.feePerWrite1kb, DATA_SIZE_1KB_INCREMENT);
    MulMono(c.feePerWriteEntry, 0, extendedEntries);
    hide FeePerIncrement, EntryFees, Extensions;
    fee := SatI64(fee + SatI64(c.feePerWriteEntry * extendedEntries));
    fee := SatI64(fee + FeePerIncrement(extendedKeySize, c.feePerWrite1kb, DATA_SIZE_1KB_INCREMENT));
  }

  lemma FeePerIncrementNonnegative(resource: nat, rate: int, increment: int)
    requires rate >= 0
    ensures FeePerIncrement(resource, rate, increment) >= 0
  {
    MulMono(rate, 0, resource);
    DivCeilAbove(SatI64(resource * rate), Max(increment, 1), -1);
  }
}
