/** What is true in every state the campaign contracts can reach, and what the escrow's own calls do to it. */
module CampaignInvariants {
  import opened Basics
  import opened Sums
  import opened TokenLedger
  import opened EscrowContract
  import opened Settlement
  import P = PoolContract

  type Book = map<nat, Campaign>

  ghost function Owing(campaigns: Book): map<nat, int> {
    map id | id in campaigns :: if campaigns[id].Settled() then 0 else campaigns[id].amount
  }

  ghost function CompletedIds(campaigns: Book): set<nat> {
    set id | id in campaigns && campaigns[id].status == Completed
  }

  /** One pool's leg of every completed campaign. */
  ghost function Shares(campaigns: Book, rate: int): map<nat, int> {
    map id | id in campaigns && campaigns[id].status == Completed :: Share(campaigns[id].amount, rate)
  }

  ghost predicate CampaignFits(w: World, id: nat)
    requires id in w.escrow.campaigns
  {
    var c := w.escrow.campaigns[id];
    && Admitted(c.amount)
    && c.fundedAt <= w.now && c.expiresAt == c.fundedAt + EXPIRY
    && c.sponsor != w.self && c.sponsor !in w.pools
    && (c.status == Funded ==> c.version == 0)
    && (c.status == Active || c.status == Completed ==> c.version == 1 && c.referrer.Some? && c.terms != [])
  }

  /** The escrow owes exactly its unsettled campaigns, and holds at least what it owes. */
  ghost predicate Solvent(w: World) {
    var e := w.escrow;
    && e.totalLiability == Total(Owing(e.campaigns))
    && (e.governance.Some? ==> Balance(w.ledger, e.token, w.self) >= e.totalLiability)
    && (e.governance.None? ==> e.campaigns == map[])
    && (forall id :: id in e.campaigns ==> CampaignFits(w, id))
    && (forall id: nat, v: nat :: (id, v) in e.consumed <==>
          id in e.campaigns && e.campaigns[id].status == Completed && v == 1)
  }

  ghost predicate Ours(w: World, pool: Address) {
    && pool in w.pools && w.pools[pool].governance.Some?
    && w.pools[pool].escrow == w.self && w.pools[pool].token == w.escrow.token
  }

  ghost predicate PoolsFit(w: World) {
    && w.self !in w.pools
    && (forall a :: a in w.pools ==> P.Accounts(w.pools[a], PoolBalance(w, a)))
    && (w.escrow.governance.Some? ==>
          w.escrow.nftPool != w.escrow.revenuePool && Ours(w, w.escrow.nftPool) && Ours(w, w.escrow.revenuePool))
  }

  /** A pool of this escrow is credited for exactly the completed campaigns, with its leg of each. */
  ghost predicate Agrees(w: World, pool: Address)
    requires pool in w.pools
  {
    var p, e := w.pools[pool], w.escrow;
    p.governance.Some? && p.escrow == w.self ==>
      if e.governance.Some? && (pool == e.nftPool || pool == e.revenuePool) then
        && p.credited == CompletedIds(e.campaigns)
        && p.totalCredited == Total(Shares(e.campaigns, if pool == e.nftPool then NFT_POOL else REVENUE))
      else p.credited == {} && p.totalCredited == 0
  }

  ghost predicate AllAgree(w: World) {
    forall a :: a in w.pools ==> Agrees(w, a)
  }

  function Outflow(payouts: seq<Payout>, cause: Cause): int {
    if payouts == [] then 0
    else
      var last := payouts[|payouts| - 1];
      Outflow(payouts[..|payouts| - 1], cause) + if last.cause == cause then last.amount else 0
  }

  predicate WasClaimed(p: P.Pool, manifest: nat, index: nat) {
    (manifest, index) in p.allocations && p.allocations[(manifest, index)].claimed
  }

  /** All that a pool ever paid to claimants. */
  function PaidFrom(payouts: seq<Payout>, pool: Address): int {
    if payouts == [] then 0
    else
      var last := payouts[|payouts| - 1];
      PaidFrom(payouts[..|payouts| - 1], pool)
      + if last.cause.Claiming? && last.cause.pool == pool then last.amount else 0
  }

  ghost predicate ClaimsLogged(w: World, a: Address)
    requires a in w.pools
  {
    && w.pools[a].totalPaid == PaidFrom(w.payouts, a)
    && (forall m: nat, i: nat ::
          Outflow(w.payouts, Claiming(a, m, i))
          == if WasClaimed(w.pools[a], m, i) then w.pools[a].allocations[(m, i)].amount else 0)
    && (forall k :: 0 <= k < |w.payouts| && w.payouts[k].cause.Claiming? && w.payouts[k].cause.pool == a ==>
          var cause := w.payouts[k].cause;
          WasClaimed(w.pools[a], cause.manifest, cause.index)
          && w.payouts[k].to == w.pools[a].allocations[(cause.manifest, cause.index)].recipient)
  }

  /** All that was ever paid for a campaign is its amount once it is settled and nothing before; so for each claim. */
  ghost predicate Logged(w: World) {
    && (forall id: nat :: Outflow(w.payouts, Settling(id))
          == if id in w.escrow.campaigns && w.escrow.campaigns[id].Settled() then w.escrow.campaigns[id].amount else 0)
    && (forall a :: a in w.pools ==> ClaimsLogged(w, a))
  }

  ghost predicate Safe(w: World) {
    Sound(w.ledger) && Solvent(w) && PoolsFit(w) && AllAgree(w) && Logged(w)
  }

  // ---------- changing one campaign ----------

  lemma SharesChanged(campaigns: Book, id: nat, c: Campaign, rate: int)
    requires id in campaigns ==> campaigns[id].status != Completed
    ensures Total(Shares(campaigns[id := c], rate))
            == Total(Shares(campaigns, rate)) + if c.status == Completed then Share(c.amount, rate) else 0
  {
    if c.status == Completed {
      assert Shares(campaigns[id := c], rate) == Shares(campaigns, rate)[id := Share(c.amount, rate)];
      TotalUpdate(Shares(campaigns, rate), id, Share(c.amount, rate));
    } else {
      assert Shares(campaigns[id := c], rate) == Shares(campaigns, rate);
    }
  }

  lemma OwingChanged(campaigns: Book, id: nat, c: Campaign)
    requires id in campaigns ==> campaigns[id].status != Completed
    ensures Total(Owing(campaigns[id := c])) == Total(Owing(campaigns)) + (if c.Settled() then 0 else c.amount)
              - (if id in campaigns && !campaigns[id].Settled() then campaigns[id].amount else 0)
    ensures CompletedIds(campaigns[id := c]) == CompletedIds(campaigns) + (if c.status == Completed then {id} else {})
  {
    var owed := if c.Settled() then 0 else c.amount;
    assert Owing(campaigns[id := c]) == Owing(campaigns)[id := owed];
    TotalUpdate(Owing(campaigns), id, owed);
  }

  /** An unsettled campaign never owes more than the escrow does in all. */
  lemma OwedWithinLiability(w: World, id: nat)
    requires Solvent(w) && id in w.escrow.campaigns
    ensures !w.escrow.campaigns[id].Settled() ==> w.escrow.campaigns[id].amount <= w.escrow.totalLiability
    ensures 0 <= w.escrow.totalLiability
  {
    var owing := Owing(w.escrow.campaigns);
    forall k | k in owing ensures owing[k] >= 0 {
      assert CampaignFits(w, k);
    }
    TotalCovers(owing);
    assert id in owing;
  }

  // ---------- the log of payments ----------

  lemma {:induction false} OutflowAppend(a: seq<Payout>, b: seq<Payout>, cause: Cause)
    ensures Outflow(a + b, cause) == Outflow(a, cause) + Outflow(b, cause)
    decreases |b|
  {
    if b == [] {
      assert a + b == a;
    } else {
      assert (a + b)[..|a + b| - 1] == a + b[..|b| - 1];
      OutflowAppend(a, b[..|b| - 1], cause);
    }
  }

  lemma {:induction false} OutflowOfOneCause(b: seq<Payout>, cause: Cause, other: Cause)
    requires forall k :: 0 <= k < |b| ==> b[k].cause == cause
    ensures Outflow(b, other) == if other == cause then Spent(b) else 0
    decreases |b|
  {
    if b != [] {
      OutflowOfOneCause(b[..|b| - 1], cause, other);
    }
  }

  lemma {:induction false} PaidFromNoMore(a: seq<Payout>, b: seq<Payout>, pool: Address)
    requires forall k :: 0 <= k < |b| ==> b[k].cause.Settling?
    ensures PaidFrom(a + b, pool) == PaidFrom(a, pool)
    decreases |b|
  {
    if b == [] {
      assert a + b == a;
    } else {
      assert (a + b)[..|a + b| - 1] == a + b[..|b| - 1];
      PaidFromNoMore(a, b[..|b| - 1], pool);
    }
  }

  /** Payments for one campaign that was unpaid before and is settled now. */
  lemma SettlementLogged(w: World, v: World, id: nat, paid: seq<Payout>)
    requires Logged(w) && id in w.escrow.campaigns && !w.escrow.campaigns[id].Settled()
    requires v.payouts == w.payouts + paid && forall k :: 0 <= k < |paid| ==> paid[k].cause == Settling(id)
    requires id in v.escrow.campaigns && v.escrow.campaigns == w.escrow.campaigns[id := v.escrow.campaigns[id]]
    requires v.escrow.campaigns[id].Settled() && v.escrow.campaigns[id].amount == Spent(paid)
    requires v.pools.Keys == w.pools.Keys
    requires forall a :: a in w.pools ==>
               v.pools[a].allocations == w.pools[a].allocations && v.pools[a].totalPaid == w.pools[a].totalPaid
    ensures Logged(v)
  {
    forall cause ensures Outflow(v.payouts, cause)
                         == Outflow(w.payouts, cause) + if cause == Settling(id) then Spent(paid) else 0
    {
      OutflowAppend(w.payouts, paid, cause);
      OutflowOfOneCause(paid, Settling(id), cause);
    }
    forall a | a in v.pools ensures ClaimsLogged(v, a) {
      assert ClaimsLogged(w, a);
      PaidFromNoMore(w.payouts, paid, a);
    }
  }

  // ---------- settling ----------

  /** In a safe state only the guards a caller can see stand between a call and settlement; no deficit is possible. */
  lemma SettleExact(w: World, signers: set<Address>, id: nat, version: nat)
    requires Safe(w)
    ensures Settle(w, signers, id, version).Ok? <==>
            && w.escrow.governance.Some? && !w.escrow.paused && w.escrow.settlement in signers
            && id in w.escrow.campaigns && w.escrow.campaigns[id].status == Active
            && version == 1 && w.now < w.escrow.campaigns[id].expiresAt
    ensures Settle(w, signers, id, version) != Err(Deficit)
  {
    hide PoolsFit, AllAgree, Logged;
    if id in w.escrow.campaigns && w.escrow.governance.Some? {
      assert CampaignFits(w, id);
      OwedWithinLiability(w, id);
    }
  }

  lemma SettleReady(w: World, signers: set<Address>, id: nat, version: nat)
    requires Safe(w) && Settle(w, signers, id, version).Ok?
    ensures ReadyToDistribute(Settle(w, signers, id, version).value, id)
  {
    hide Logged, Owing, Supply, P.ManifestFits, P.Taken, P.Remaining, Shares;
    assert CampaignFits(w, id);
    OwedWithinLiability(w, id);
    assert Agrees(w, w.escrow.nftPool) && Agrees(w, w.escrow.revenuePool);
  }

  lemma SettleWrites(w: World, signers: set<Address>, id: nat, version: nat)
    requires Settle(w, signers, id, version).Ok?
    ensures id in w.escrow.campaigns && w.escrow.campaigns[id].status == Active && w.escrow.governance.Some?
    ensures w.escrow.campaigns[id].referrer.Some?
    ensures var e, c := w.escrow, w.escrow.campaigns[id];
            Settle(w, signers, id, version).value
            == w.(escrow := e.(campaigns := e.campaigns[id := c.(status := Completed)],
                               consumed := e.consumed + {(id, c.version)},
                               totalLiability := e.totalLiability - c.amount))
  {}

  /** `complete` succeeds exactly when a caller would expect it, as long as both pools' running totals still fit. */
  lemma CompleteExact(w: World, signers: set<Address>, id: nat, version: nat)
    requires Safe(w)
    ensures Complete(w, signers, id, version).Ok? <==>
            && w.escrow.governance.Some? && !w.escrow.paused && w.escrow.settlement in signers
            && id in w.escrow.campaigns && w.escrow.campaigns[id].status == Active
            && version == 1 && w.now < w.escrow.campaigns[id].expiresAt
            && CreditsFit(w, w.escrow.campaigns[id].amount)
    ensures Complete(w, signers, id, version) != Err(Deficit)
  {
    hide Settle, Distribute, ReadyToDistribute, Solvent, AllAgree, Logged, P.Accounts, Paid, Legs, PoolsCredited,
      Sound, Share;
    SettleExact(w, signers, id, version);
    if Settle(w, signers, id, version).Ok? {
      var s := Settle(w, signers, id, version).value;
      SettleWrites(w, signers, id, version);
      SettleReady(w, signers, id, version);
      DistributeExact(s, id);
      DistributeNoDeficit(s, id);
    }
  }

  lemma DistributeNoDeficit(w: World, id: nat)
    requires id in w.escrow.campaigns && w.escrow.campaigns[id].referrer.Some?
    ensures Distribute(w, id) != Err(Deficit)
  {
    hide Share, CreatorShare, Transfer, P.RecordCredit;
  }

  lemma {:induction false} ReceivedNonnegative(payouts: seq<Payout>, h: Address)
    requires forall k :: 0 <= k < |payouts| ==> payouts[k].amount >= 0
    ensures Received(payouts, h) >= 0
    ensures forall k :: 0 <= k < |payouts| && payouts[k].to == h ==> payouts[k].amount <= Received(payouts, h)
    decreases |payouts|
  {
    if payouts != [] {
      ReceivedNonnegative(payouts[..|payouts| - 1], h);
    }
  }

  /** What holders have after a settlement: the escrow is down by at most the amount, each pool up by its leg. */
  lemma BalancesAfterLegs(w: World, id: nat, v: World, h: Address)
    requires ReadyToDistribute(w, id) && Paid(w, Legs(w.escrow, id, w.escrow.campaigns[id]), v)
    ensures forall t :: h != w.self ==> Balance(v.ledger, t, h) >= Balance(w.ledger, t, h)
    ensures Balance(v.ledger, w.escrow.token, w.self)
            >= Balance(w.ledger, w.escrow.token, w.self) - w.escrow.campaigns[id].amount
    ensures Balance(v.ledger, w.escrow.token, w.escrow.nftPool)
            >= Balance(w.ledger, w.escrow.token, w.escrow.nftPool) + Share(w.escrow.campaigns[id].amount, NFT_POOL)
    ensures Balance(v.ledger, w.escrow.token, w.escrow.revenuePool)
            >= Balance(w.ledger, w.escrow.token, w.escrow.revenuePool) + Share(w.escrow.campaigns[id].amount, REVENUE)
  {
    var c := w.escrow.campaigns[id];
    var legs := Legs(w.escrow, id, c);
    SplitExact(c.amount);
    LegsSpend(w.escrow, id, c);
    ReceivedNonnegative(legs, h);
    ReceivedNonnegative(legs, w.self);
    ReceivedNonnegative(legs, w.escrow.nftPool);
    ReceivedNonnegative(legs, w.escrow.revenuePool);
    assert legs[2].to == w.escrow.nftPool && legs[3].to == w.escrow.revenuePool;
    hide Share, CreatorShare, Balance, Supply, Sound;
  }

  lemma CreditedAccounts(p: P.Pool, balance: int, id: nat, amount: int, after: int)
    requires P.Accounts(p, balance) && p.governance.Some? && amount >= 0 && after >= balance + amount
    requires p.totalCredited + amount <= I128_MAX
    ensures P.Accounts(Credited(p, id, amount), after)
  {
    P.ManifestsUntouched(p, Credited(p, id, amount));
  }
}
