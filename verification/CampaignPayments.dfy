/** Exactly what was ever paid for a campaign, and that a settlement pays by what the sponsor committed to. */
module CampaignPayments {
  import opened Basics
  import opened TokenLedger
  import opened EscrowContract
  import opened Settlement
  import opened CampaignInvariants
  import opened EscrowSafety
  import opened Campaigns
  import opened CampaignSafety
  import opened CampaignTheorems
  import P = PoolContract

  /** The payments made for one cause, in order. */
  function PaymentsFor(payouts: seq<Payout>, cause: Cause): seq<Payout> {
    if payouts == [] then []
    else
      var last := payouts[|payouts| - 1];
      PaymentsFor(payouts[..|payouts| - 1], cause) + if last.cause == cause then [last] else []
  }

  /** The payments a campaign is due: the five legs once completed, its amount back once refunded, none before. */
  function Due(e: Escrow, id: nat): seq<Payout> {
    if id !in e.campaigns then []
    else
      var c := e.campaigns[id];
      if c.status == Completed && c.referrer.Some? then Legs(e, id, c)
      else if c.status == Refunded then [Payout(Settling(id), c.sponsor, c.amount)]
      else []
  }

  ghost predicate PaidAsDue(w: World) {
    forall id: nat :: PaymentsFor(w.payouts, Settling(id)) == Due(w.escrow, id)
  }

  lemma {:induction false} PaymentsAppend(a: seq<Payout>, b: seq<Payout>, cause: Cause)
    ensures PaymentsFor(a + b, cause) == PaymentsFor(a, cause) + PaymentsFor(b, cause)
    decreases |b|
  {
    if b == [] {
      assert a + b == a;
    } else {
      assert (a + b)[..|a + b| - 1] == a + b[..|b| - 1];
      PaymentsAppend(a, b[..|b| - 1], cause);
    }
  }

  lemma {:induction false} PaymentsOfOneCause(b: seq<Payout>, cause: Cause, other: Cause)
    requires forall k :: 0 <= k < |b| ==> b[k].cause == cause
    ensures PaymentsFor(b, other) == if other == cause then b else []
    decreases |b|
  {
    if b != [] {
      PaymentsOfOneCause(b[..|b| - 1], cause, other);
      assert b == b[..|b| - 1] + [b[|b| - 1]];
    }
  }

  /** Campaigns other than `id`, and the payees of the escrow, are as they were. */
  ghost predicate OnlyDue(e: Escrow, f: Escrow, id: nat) {
    && f.serviceTreasury == e.serviceTreasury && f.nftPool == e.nftPool && f.revenuePool == e.revenuePool
    && forall k: nat :: k != id ==>
         (k in f.campaigns <==> k in e.campaigns) && (k in e.campaigns ==> f.campaigns[k] == e.campaigns[k])
  }

  /** Payments of what one campaign is due now, where nothing was due before. */
  lemma SettlementPaid(w: World, v: World, id: nat, paid: seq<Payout>)
    requires PaidAsDue(w) && OnlyDue(w.escrow, v.escrow, id) && Due(w.escrow, id) == [] && Due(v.escrow, id) == paid
    requires v.payouts == w.payouts + paid && forall k :: 0 <= k < |paid| ==> paid[k].cause == Settling(id)
    ensures PaidAsDue(v)
  {
    forall k: nat ensures PaymentsFor(v.payouts, Settling(k)) == Due(v.escrow, k) {
      PaymentsAppend(w.payouts, paid, Settling(k));
      PaymentsOfOneCause(paid, Settling(id), Settling(k));
      hide PaymentsFor;
      assert k != id ==> Due(v.escrow, k) == Due(w.escrow, k);
    }
  }

  lemma CompletePaysDue(w: World, signers: set<Address>, id: nat, version: nat)
    requires Safe(w) && PaidAsDue(w) && EscrowContract.Complete(w, signers, id, version).Ok?
    ensures PaidAsDue(EscrowContract.Complete(w, signers, id, version).value)
  {
    hide Safe, Settle, Distribute, Paid, ReadyToDistribute, CreditsFit, CreditFollows, Share, CreatorShare, PaidAsDue;
    CompleteMakes(w, signers, id, version);
    SafeFits(w, id);
    var v := EscrowContract.Complete(w, signers, id, version).value;
    CompletesFrame(w, id, Settle(w, signers, id, version).value, v);
    SettlementPaid(w, v, id, Legs(w.escrow, id, w.escrow.campaigns[id]));
  }

  lemma RefundPaysDue(w: World, id: nat)
    requires Safe(w) && PaidAsDue(w) && EscrowContract.RefundExpired(w, id).Ok?
    ensures PaidAsDue(EscrowContract.RefundExpired(w, id).value)
  {
    hide Safe, EscrowContract.RefundExpired, Sound, Supply, Balance, Received, Spent, PaidAsDue, Legs;
    RefundExact(w, id);
    var c := w.escrow.campaigns[id];
    SettlementPaid(w, EscrowContract.RefundExpired(w, id).value, id, [Payout(Settling(id), c.sponsor, c.amount)]);
  }

  lemma ClaimPaysDue(w: World, signers: set<Address>, a: Address, id: nat, index: nat)
    requires Safe(w) && PaidAsDue(w) && a in w.pools && ClaimFrom(w, signers, a, id, index).Ok?
    ensures PaidAsDue(ClaimFrom(w, signers, a, id, index).value)
  {
    hide Safe, ClaimFrom, P.Accounts, Transfer, Due, PaymentsFor, Balance;
    ClaimMakes(w, signers, a, id, index);
    var v := ClaimFrom(w, signers, a, id, index).value;
    var paid := v.payouts[|w.payouts|..];
    assert v.payouts == w.payouts + paid;
    forall k: nat ensures PaymentsFor(v.payouts, Settling(k)) == Due(v.escrow, k) {
      PaymentsAppend(w.payouts, paid, Settling(k));
      PaymentsOfOneCause(paid, paid[0].cause, Settling(k));
    }
  }

  /** The calls that pay nobody leave what is due as it is. */
  lemma OthersPayNothing(w: World, signers: set<Address>, call: Call)
    requires Safe(w) && Execute(w, signers, call).Ok? && !call.Complete? && !call.RefundExpired? && !call.Claim?
    ensures var v := Execute(w, signers, call).value;
            v.payouts == w.payouts && forall id: nat :: Due(v.escrow, id) == Due(w.escrow, id)
  {
    hide PoolsFit, AllAgree, Logged, Sound, Transfer, Share, CreatorShare;
    if call.InitializeEscrow? {
      hide Legs;
    } else {
      hide Safe, ExecutePool;
    }
  }

  lemma ExecutePaysDue(w: World, signers: set<Address>, call: Call)
    requires Safe(w) && PaidAsDue(w) && Execute(w, signers, call).Ok?
    ensures PaidAsDue(Execute(w, signers, call).value)
  {
    if call.Complete? {
      hide Safe, PaidAsDue, EscrowContract.Complete;
      CompletePaysDue(w, signers, call.id, call.version);
    } else if call.RefundExpired? {
      hide Safe, PaidAsDue, EscrowContract.RefundExpired;
      RefundPaysDue(w, call.id);
    } else if call.Claim? {
      hide Safe, PaidAsDue, ClaimFrom;
      ClaimPaysDue(w, signers, call.pool, call.id, call.index);
    } else {
      hide Safe, Execute, Due, PaymentsFor;
      OthersPayNothing(w, signers, call);
    }
  }

  lemma {:induction false} RunPaysDue(w: World, calls: seq<Signed>)
    requires Safe(w) && PaidAsDue(w) && AllOutside(w, calls)
    ensures PaidAsDue(Run(w, calls))
    decreases |calls|
  {
    hide Safe, Execute, PaidAsDue;
    if calls != [] {
      var v := Step(w, calls[0].signers, calls[0].call);
      if Execute(w, calls[0].signers, calls[0].call).Ok? {
        ExecuteKeeps(w, calls[0].signers, calls[0].call);
        ExecuteConserves(w, calls[0].signers, calls[0].call);
        ExecutePaysDue(w, calls[0].signers, calls[0].call);
      }
      assert forall i :: 0 <= i < |calls| - 1 ==> calls[1..][i] == calls[i + 1];
      RunPaysDue(v, calls[1..]);
    }
  }

  /** In every reachable state the payments ever made for a campaign are exactly those it is due, in order. */
  lemma ReachablePaysDue(w: World, calls: seq<Signed>)
    requires Initial(w) && AllOutside(w, calls)
    ensures PaidAsDue(Run(w, calls))
  {
    InitialSafe(w);
    RunPaysDue(w, calls);
  }

  /** What a completed campaign pays: a tenth, a twentieth, a fiftieth and a hundredth, and the rest to the creator. */
  function Promised(e: Escrow, id: nat, amount: int, creator: Address, referrer: Address): seq<Payout> {
    [Payout(Settling(id), creator, amount - amount / 10 - amount / 20 - amount / 50 - amount / 100),
     Payout(Settling(id), e.serviceTreasury, amount / 10),
     Payout(Settling(id), e.nftPool, amount / 20),
     Payout(Settling(id), e.revenuePool, amount / 50),
     Payout(Settling(id), referrer, amount / 100)]
  }

  /**
    * What a sponsor names when it activates a campaign is binding. Whatever is called afterwards: while the campaign is
    * open nothing is paid for it; once completed, the named creator and referrer, the treasury and the two pools got
    * exactly their legs of the funded amount, in that order, and nobody else anything; once refunded, the sponsor got
    * the whole amount.
    */
  lemma CommitmentIsPaid(w: World, signers: set<Address>, id: nat, creator: Address, referrer: Address,
                         terms: seq<nat>, calls: seq<Signed>)
    requires Safe(w) && PaidAsDue(w) && AllOutside(w, calls)
    requires EscrowContract.Activate(w, signers, id, creator, Some(referrer), terms).Ok?
    ensures var v := EscrowContract.Activate(w, signers, id, creator, Some(referrer), terms).value;
            var u := Run(v, calls);
            var e, c := w.escrow, w.escrow.campaigns[id];
            var paid := PaymentsFor(u.payouts, Settling(id));
            && id in u.escrow.campaigns && u.escrow.campaigns[id].terms == terms
            && match u.escrow.campaigns[id].status
               case Completed => paid == Promised(e, id, c.amount, creator, referrer)
               case Refunded => paid == [Payout(Settling(id), c.sponsor, c.amount)]
               case _ => paid == []
  {
    hide Safe, PaidAsDue, AllOutside, Run, PaymentsFor, Share, CreatorShare;
    var v := EscrowContract.Activate(w, signers, id, creator, Some(referrer), terms).value;
    ActivateCommits(w, signers, id, creator, Some(referrer), terms);
    ActivateKeeps(w, signers, id, creator, Some(referrer), terms);
    ActivatePaysNothing(w, signers, id, creator, referrer, terms);
    OutsideStill(w, v, calls);
    PaidFromActive(v, id, calls);
    SafeFits(w, id);
    LegsAre(w.escrow.campaigns[id].amount);
  }

  lemma OutsideStill(w: World, v: World, calls: seq<Signed>)
    requires AllOutside(w, calls) && v.self == w.self && v.pools == w.pools
    ensures AllOutside(v, calls)
  {}

  lemma ActivatePaysNothing(w: World, signers: set<Address>, id: nat, creator: Address, referrer: Address,
                            terms: seq<nat>)
    requires PaidAsDue(w) && EscrowContract.Activate(w, signers, id, creator, Some(referrer), terms).Ok?
    ensures PaidAsDue(EscrowContract.Activate(w, signers, id, creator, Some(referrer), terms).value)
  {
    hide PaymentsFor, Share, CreatorShare;
    var v := EscrowContract.Activate(w, signers, id, creator, Some(referrer), terms).value;
    forall k: nat ensures Due(v.escrow, k) == Due(w.escrow, k) {}
  }

  /** From an active campaign on, what is paid for it follows the campaign and the payees as they are now. */
  lemma PaidFromActive(v: World, id: nat, calls: seq<Signed>)
    requires Safe(v) && PaidAsDue(v) && AllOutside(v, calls) && v.escrow.governance.Some?
    requires id in v.escrow.campaigns && v.escrow.campaigns[id].status == Active
             && v.escrow.campaigns[id].referrer.Some?
    ensures var u := Run(v, calls);
            var c := v.escrow.campaigns[id];
            && id in u.escrow.campaigns && CampaignKept(c, u.escrow.campaigns[id])
            && u.escrow.campaigns[id].status != Funded
            && PaymentsFor(u.payouts, Settling(id))
               == match u.escrow.campaigns[id].status
                  case Completed => Legs(v.escrow, id, c)
                  case Refunded => [Payout(Settling(id), c.sponsor, c.amount)]
                  case _ => []
  {
    RunPaysDue(v, calls);
    RunKept(v, calls);
    hide Safe, Run, PaymentsFor, Share, CreatorShare, PoolKept;
    var u := Run(v, calls);
    assert PaymentsFor(u.payouts, Settling(id)) == Due(u.escrow, id);
  }
}
