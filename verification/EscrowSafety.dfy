/** Every call of the escrow keeps a safe state safe. */
module EscrowSafety {
  import opened Basics
  import opened Sums
  import opened TokenLedger
  import opened EscrowContract
  import opened Settlement
  import opened CampaignInvariants
  import P = PoolContract

  // ---------- what keeps each part of safety ----------

  /** Only one campaign, the consumed operations and the liability of the escrow differ. */
  ghost predicate OneCampaign(w: World, v: World, id: nat) {
    && v.self == w.self && v.now == w.now && v.pools.Keys == w.pools.Keys
    && id in v.escrow.campaigns
    && v.escrow == w.escrow.(campaigns := w.escrow.campaigns[id := v.escrow.campaigns[id]],
                             consumed := v.escrow.consumed, totalLiability := v.escrow.totalLiability)
    && w.escrow.governance.Some?
    && (id in w.escrow.campaigns ==> w.escrow.campaigns[id].status != Completed)
  }

  function OwedBy(w: World, id: nat): int {
    if id in w.escrow.campaigns && !w.escrow.campaigns[id].Settled() then w.escrow.campaigns[id].amount else 0
  }

  lemma SolventStill(w: World, v: World, id: nat)
    requires Solvent(w) && OneCampaign(w, v, id) && CampaignFits(v, id)
    requires v.escrow.totalLiability == w.escrow.totalLiability + OwedBy(v, id) - OwedBy(w, id)
    requires v.escrow.consumed
             == w.escrow.consumed + if v.escrow.campaigns[id].status == Completed then {(id, 1)} else {}
    requires Balance(v.ledger, w.escrow.token, w.self)
             >= Balance(w.ledger, w.escrow.token, w.self) + OwedBy(v, id) - OwedBy(w, id)
    ensures Solvent(v)
  {
    OwingChanged(w.escrow.campaigns, id, v.escrow.campaigns[id]);
    hide Balance, Owing, CompletedIds;
    forall k | k in v.escrow.campaigns ensures CampaignFits(v, k) {
      if k != id {
        assert CampaignFits(w, k);
      }
    }
  }

  predicate SameSetup(p: P.Pool, q: P.Pool) {
    q.governance == p.governance && q.escrow == p.escrow && q.token == p.token
  }

  /** The pool after the campaign changed: credited with its leg if the campaign is completed now. */
  ghost predicate CreditFollows(w: World, v: World, id: nat, a: Address)
    requires a in w.pools && a in v.pools && id in v.escrow.campaigns
  {
    var p, q, c := w.pools[a], v.pools[a], v.escrow.campaigns[id];
    && SameSetup(p, q)
    && if c.status == Completed && (a == w.escrow.nftPool || a == w.escrow.revenuePool) then
         && q.credited == p.credited + {id}
         && q.totalCredited
            == p.totalCredited + Share(c.amount, if a == w.escrow.nftPool then NFT_POOL else REVENUE)
       else q.credited == p.credited && q.totalCredited == p.totalCredited
  }

  lemma AgreesStill(w: World, v: World, id: nat, a: Address)
    requires OneCampaign(w, v, id) && a in w.pools && CreditFollows(w, v, id, a) && Agrees(w, a)
    ensures Agrees(v, a)
  {
    hide Share, Owing, CompletedIds, Shares, CampaignFits;
    var rate := if a == w.escrow.nftPool then NFT_POOL else REVENUE;
    OwingChanged(w.escrow.campaigns, id, v.escrow.campaigns[id]);
    SharesChanged(w.escrow.campaigns, id, v.escrow.campaigns[id], rate);
  }

  lemma AllAgreeStill(w: World, v: World, id: nat)
    requires OneCampaign(w, v, id) && AllAgree(w)
    requires forall a :: a in w.pools ==> CreditFollows(w, v, id, a)
    ensures AllAgree(v)
  {
    forall a | a in v.pools ensures Agrees(v, a) {
      hide CreditFollows, Agrees;
      AgreesStill(w, v, id, a);
    }
  }

  lemma PoolsFitStill(w: World, v: World)
    requires PoolsFit(w) && v.self == w.self && v.pools.Keys == w.pools.Keys
    requires v.escrow.governance.Some? ==> w.escrow.governance.Some?
    requires v.escrow.token == w.escrow.token && v.escrow.nftPool == w.escrow.nftPool
             && v.escrow.revenuePool == w.escrow.revenuePool
    requires forall a :: a in w.pools ==> SameSetup(w.pools[a], v.pools[a])
    requires forall a :: a in w.pools ==> P.Accounts(v.pools[a], PoolBalance(v, a))
    ensures PoolsFit(v)
  {
    hide P.Accounts, Balance;
  }

  lemma RicherAccounts(p: P.Pool, balance: int, more: int)
    requires P.Accounts(p, balance) && more >= balance
    ensures P.Accounts(p, more)
  {}

  /** One campaign changed without being completed; the pools are as they were, with no less money. */
  ghost predicate OpenChange(w: World, v: World, id: nat) {
    && OneCampaign(w, v, id) && CampaignFits(v, id) && v.escrow.campaigns[id].status != Completed
    && v.escrow.consumed == w.escrow.consumed && v.pools == w.pools && Sound(v.ledger)
    && v.escrow.totalLiability == w.escrow.totalLiability + OwedBy(v, id) - OwedBy(w, id)
    && Balance(v.ledger, w.escrow.token, w.self)
       >= Balance(w.ledger, w.escrow.token, w.self) + OwedBy(v, id) - OwedBy(w, id)
    && forall t, a :: a in w.pools ==> Balance(v.ledger, t, a) >= Balance(w.ledger, t, a)
  }

  lemma PoolsUntouched(w: World, v: World, id: nat)
    requires PoolsFit(w) && AllAgree(w) && OpenChange(w, v, id)
    ensures PoolsFit(v) && AllAgree(v)
  {
    forall a | a in w.pools ensures P.Accounts(v.pools[a], PoolBalance(v, a)) {
      RicherAccounts(w.pools[a], PoolBalance(w, a), PoolBalance(v, a));
    }
    hide P.Accounts, Balance;
    PoolsFitStill(w, v);
    AllAgreeStill(w, v, id);
  }

  lemma OpenChangeKeeps(w: World, v: World, id: nat)
    requires Safe(w) && OpenChange(w, v, id) && Logged(v)
    ensures Safe(v)
  {
    hide Solvent, PoolsFit, AllAgree, Logged, Balance;
    PoolsUntouched(w, v, id);
    SolventStill(w, v, id);
  }

  lemma SafeFits(w: World, id: nat)
    requires Safe(w) && id in w.escrow.campaigns
    ensures CampaignFits(w, id)
  {}

  // ---------- completion ----------

  /** `complete` leads from `w`, through the settled `s`, to `v`. */
  ghost predicate Completes(w: World, id: nat, s: World, v: World) {
    && id in w.escrow.campaigns && w.escrow.campaigns[id].status == Active && w.escrow.governance.Some?
    && w.escrow.campaigns[id].version == 1
    && s == w.(escrow := w.escrow.(
                 campaigns := w.escrow.campaigns[id := w.escrow.campaigns[id].(status := Completed)],
                 consumed := w.escrow.consumed + {(id, 1)},
                 totalLiability := w.escrow.totalLiability - w.escrow.campaigns[id].amount))
    && ReadyToDistribute(s, id)
    && Paid(s, Legs(s.escrow, id, s.escrow.campaigns[id]), v)
    && CreditsFit(s, s.escrow.campaigns[id].amount)
    && v.pools == PoolsCredited(s, id, s.escrow.campaigns[id].amount)
  }

  lemma CompleteMakes(w: World, signers: set<Address>, id: nat, version: nat)
    requires Safe(w) && Complete(w, signers, id, version).Ok?
    ensures Completes(w, id, Settle(w, signers, id, version).value, Complete(w, signers, id, version).value)
  {
    hide Settle, Distribute, Solvent, AllAgree, Logged, PoolsFit, Paid, Legs, PoolsCredited, CreditsFit, Share,
      ReadyToDistribute;
    SettleExact(w, signers, id, version);
    SettleReady(w, signers, id, version);
    SettleWrites(w, signers, id, version);
    SafeFits(w, id);
    DistributeExact(Settle(w, signers, id, version).value, id);
  }

  lemma CompletesFrame(w: World, id: nat, s: World, v: World)
    requires Completes(w, id, s, v)
    ensures OneCampaign(w, v, id) && OwedBy(v, id) == 0 && OwedBy(w, id) == w.escrow.campaigns[id].amount
    ensures v.escrow.totalLiability == w.escrow.totalLiability - OwedBy(w, id)
    ensures v.escrow.consumed == w.escrow.consumed + {(id, 1)}
    ensures v.escrow.campaigns[id] == w.escrow.campaigns[id].(status := Completed)
    ensures v.payouts == w.payouts + Legs(w.escrow, id, w.escrow.campaigns[id])
    ensures forall a :: a in w.pools ==>
              && CreditFollows(w, v, id, a) && v.pools[a].allocations == w.pools[a].allocations
              && v.pools[a].totalPaid == w.pools[a].totalPaid
  {
    hide Share, Balance, Supply, Sound, Received, Spent, CreatorShare;
  }

  lemma AccountsWhenCompleted(s: World, id: nat, v: World, a: Address)
    requires ReadyToDistribute(s, id) && Paid(s, Legs(s.escrow, id, s.escrow.campaigns[id]), v)
    requires CreditsFit(s, s.escrow.campaigns[id].amount)
    requires v.pools == PoolsCredited(s, id, s.escrow.campaigns[id].amount)
    requires a in s.pools && a != s.self && P.Accounts(s.pools[a], PoolBalance(s, a))
    ensures a in v.pools && P.Accounts(v.pools[a], PoolBalance(v, a))
  {
    var amount := s.escrow.campaigns[id].amount;
    SplitExact(amount);
    BalancesAfterLegs(s, id, v, a);
    hide Paid, Legs, Sound, Share, CreatorShare, Balance, P.Accounts;
    if a == s.escrow.nftPool {
      CreditedAccounts(s.pools[a], PoolBalance(s, a), id, Share(amount, NFT_POOL), PoolBalance(v, a));
    } else if a == s.escrow.revenuePool {
      CreditedAccounts(s.pools[a], PoolBalance(s, a), id, Share(amount, REVENUE), PoolBalance(v, a));
    } else {
      RicherAccounts(s.pools[a], PoolBalance(s, a), PoolBalance(v, a));
    }
  }

  lemma PoolsFitWhenCompleted(w: World, id: nat, s: World, v: World)
    requires PoolsFit(w) && Completes(w, id, s, v)
    ensures PoolsFit(v)
  {
    CompletesFrame(w, id, s, v);
    hide ReadyToDistribute, Paid, Legs, CreditsFit, P.Accounts, Balance;
    forall a | a in w.pools ensures SameSetup(w.pools[a], v.pools[a]) && P.Accounts(v.pools[a], PoolBalance(v, a)) {
      AccountsWhenCompleted(s, id, v, a);
    }
    PoolsFitStill(w, v);
  }

  lemma SolventWhenCompleted(w: World, id: nat, s: World, v: World)
    requires Solvent(w) && Completes(w, id, s, v)
    ensures Solvent(v)
  {
    CompletesFrame(w, id, s, v);
    BalancesAfterLegs(s, id, v, w.self);
    hide ReadyToDistribute, Paid, Legs, CreditsFit, Balance, PoolsCredited, CreditFollows, Owing;
    assert CampaignFits(w, id);
    SolventStill(w, v, id);
  }

  lemma LoggedWhenCompleted(w: World, id: nat, s: World, v: World)
    requires Logged(w) && Completes(w, id, s, v)
    ensures Logged(v) && Sound(v.ledger)
  {
    var legs := Legs(w.escrow, id, w.escrow.campaigns[id]);
    LegsSpend(w.escrow, id, w.escrow.campaigns[id]);
    assert forall k :: 0 <= k < 5 ==> legs[k].cause == Settling(id);
    CompletesFrame(w, id, s, v);
    hide Logged, Spent, Legs, CreditFollows, ReadyToDistribute, CreditsFit, PoolsCredited, Balance, Supply, Sound,
      Share;
    SettlementLogged(w, v, id, legs);
  }

  lemma CompleteKeeps(w: World, signers: set<Address>, id: nat, version: nat)
    requires Safe(w) && Complete(w, signers, id, version).Ok?
    ensures Safe(Complete(w, signers, id, version).value)
  {
    hide Settle, Distribute, Solvent, PoolsFit, AllAgree, Logged, Sound, Completes, CreditFollows, OneCampaign;
    var s := Settle(w, signers, id, version).value;
    var v := Complete(w, signers, id, version).value;
    CompleteMakes(w, signers, id, version);
    CompletesFrame(w, id, s, v);
    SolventWhenCompleted(w, id, s, v);
    PoolsFitWhenCompleted(w, id, s, v);
    AllAgreeStill(w, v, id);
    LoggedWhenCompleted(w, id, s, v);
  }

  // ---------- refunds ----------

  /** The state a refund pays from. */
  function Refunding(w: World, id: nat): World
    requires id in w.escrow.campaigns
  {
    var c := w.escrow.campaigns[id];
    w.(escrow := w.escrow.(totalLiability := w.escrow.totalLiability - c.amount,
                           campaigns := w.escrow.campaigns[id := c.(status := Refunded)]))
  }

  /** After expiry an unsettled campaign can always be refunded, by anyone, paused or not; a deficit is impossible. */
  lemma RefundExact(w: World, id: nat)
    requires Safe(w)
    ensures RefundExpired(w, id).Ok? <==>
            && w.escrow.governance.Some? && id in w.escrow.campaigns && !w.escrow.campaigns[id].Settled()
            && w.now >= w.escrow.campaigns[id].expiresAt
    ensures RefundExpired(w, id) != Err(Deficit)
    ensures RefundExpired(w, id).Ok? ==>
              var c, v := w.escrow.campaigns[id], RefundExpired(w, id).value;
              v.pools == w.pools && Paid(Refunding(w, id), [Payout(Settling(id), c.sponsor, c.amount)], v)
  {
    hide AllAgree, Logged, PoolsFit, Pay;
    if id in w.escrow.campaigns && w.escrow.governance.Some? && !w.escrow.campaigns[id].Settled() {
      var c := w.escrow.campaigns[id];
      OwedWithinLiability(w, id);
      SafeFits(w, id);
      PaidNothing(Refunding(w, id));
      assert [] + [Payout(Settling(id), c.sponsor, c.amount)] == [Payout(Settling(id), c.sponsor, c.amount)];
      PayMore(Refunding(w, id), [], Refunding(w, id), id, c.sponsor, c.amount);
    }
  }

  lemma PayoutToOne(p: Payout)
    ensures Spent([p]) == p.amount
    ensures forall h :: Received([p], h) == if h == p.to then p.amount else 0
  {
    assert [p][..0] == [];
  }

  /** What one payment to another holder changes. */
  lemma PaidOne(s: World, p: Payout, v: World)
    requires Paid(s, [p], v) && p.to != s.self && p.amount >= 0
    ensures v == s.(pools := v.pools, ledger := v.ledger, payouts := s.payouts + [p]) && Sound(v.ledger)
    ensures Spent([p]) == p.amount
    ensures Balance(v.ledger, s.escrow.token, s.self) == Balance(s.ledger, s.escrow.token, s.self) - p.amount
    ensures Balance(v.ledger, s.escrow.token, p.to) == Balance(s.ledger, s.escrow.token, p.to) + p.amount
    ensures forall t, h :: h != s.self ==> Balance(v.ledger, t, h) >= Balance(s.ledger, t, h)
  {
    PayoutToOne(p);
    hide Balance, Supply, Sound, Spent, Received;
  }

  lemma RefundChange(w: World, id: nat)
    requires Safe(w) && RefundExpired(w, id).Ok?
    ensures OpenChange(w, RefundExpired(w, id).value, id)
  {
    hide RefundExpired, Safe, Sound, Balance, Paid;
    RefundExact(w, id);
    var c, v := w.escrow.campaigns[id], RefundExpired(w, id).value;
    SafeFits(w, id);
    SafePools(w);
    PaidOne(Refunding(w, id), Payout(Settling(id), c.sponsor, c.amount), v);
    assert OneCampaign(w, v, id);
  }

  lemma LoggedWhenRefunded(w: World, id: nat, p: Payout, v: World)
    requires Logged(w) && id in w.escrow.campaigns && !w.escrow.campaigns[id].Settled() && v.pools == w.pools
    requires p.cause == Settling(id) && p.amount == w.escrow.campaigns[id].amount >= 0 && p.to != w.self
    requires Paid(Refunding(w, id), [p], v)
    ensures Logged(v)
  {
    hide Logged, Paid, Sound, Balance, Spent;
    PaidOne(Refunding(w, id), p, v);
    SettlementLogged(w, v, id, [p]);
  }

  lemma RefundKeeps(w: World, id: nat)
    requires Safe(w) && RefundExpired(w, id).Ok?
    ensures Safe(RefundExpired(w, id).value)
  {
    hide RefundExpired, Solvent, PoolsFit, AllAgree, Logged, Sound, Paid, OpenChange;
    RefundExact(w, id);
    RefundChange(w, id);
    var c, v := w.escrow.campaigns[id], RefundExpired(w, id).value;
    assert c.sponsor != w.self && c.amount >= 0 by { SafeFits(w, id); }
    LoggedWhenRefunded(w, id, Payout(Settling(id), c.sponsor, c.amount), v);
    OpenChangeKeeps(w, v, id);
  }

  lemma SafePools(w: World)
    requires Safe(w)
    ensures w.self !in w.pools
  {}

  // ---------- funding and activation ----------

  /** Funding never overflows the liability: what is owed and what the sponsor holds are both within one supply. */
  lemma FundExact(w: World, signers: set<Address>, id: nat, sponsor: Address, amount: int)
    requires Safe(w) && w.self !in signers
    ensures Fund(w, signers, id, sponsor, amount).Ok? <==>
            && w.escrow.governance.Some? && 100 <= amount <= I128_MAX / 10_000 && !w.escrow.paused
            && id !in w.escrow.campaigns
            && sponsor in signers && Balance(w.ledger, w.escrow.token, sponsor) >= amount
            && w.now + 30 * 24 * 3600 <= U64_MAX
  {
    hide PoolsFit, AllAgree, Logged, Owing;
    if sponsor in signers {
      TransferSucceeds(w.ledger, w.escrow.token, sponsor, w.self, amount);
      BalancesBounded(w.ledger, w.escrow.token, sponsor, w.self);
    }
    hide Transfer, Balance, Sound;
  }

  lemma LoggedStill(w: World, v: World)
    requires Logged(w) && v.payouts == w.payouts && v.pools == w.pools
    requires forall id :: id in w.escrow.campaigns ==>
               id in v.escrow.campaigns && v.escrow.campaigns[id].amount == w.escrow.campaigns[id].amount
               && v.escrow.campaigns[id].Settled() == w.escrow.campaigns[id].Settled()
    requires forall id :: id in v.escrow.campaigns && id !in w.escrow.campaigns ==> !v.escrow.campaigns[id].Settled()
    ensures Logged(v)
  {
    forall a | a in v.pools ensures ClaimsLogged(v, a) {
      assert ClaimsLogged(w, a);
    }
  }

  lemma FundChange(w: World, signers: set<Address>, id: nat, sponsor: Address, amount: int)
    requires Safe(w) && w.self !in signers && (forall a :: a in w.pools ==> a !in signers)
    requires Fund(w, signers, id, sponsor, amount).Ok?
    ensures OpenChange(w, Fund(w, signers, id, sponsor, amount).value, id)
  {
    hide Transfer, Safe, Sound, Supply, Balance;
    var v := Fund(w, signers, id, sponsor, amount).value;
    SoundLedger(w);
    TransferMoves(w.ledger, w.escrow.token, sponsor, w.self, amount);
    assert OneCampaign(w, v, id);
  }

  lemma SoundLedger(w: World)
    requires Safe(w)
    ensures Sound(w.ledger)
  {}

  lemma FundKeeps(w: World, signers: set<Address>, id: nat, sponsor: Address, amount: int)
    requires Safe(w) && w.self !in signers && (forall a :: a in w.pools ==> a !in signers)
    requires Fund(w, signers, id, sponsor, amount).Ok?
    ensures Safe(Fund(w, signers, id, sponsor, amount).value)
  {
    hide Solvent, PoolsFit, AllAgree, Logged, Sound, Transfer, OpenChange;
    var v := Fund(w, signers, id, sponsor, amount).value;
    FundChange(w, signers, id, sponsor, amount);
    LoggedStill(w, v);
    OpenChangeKeeps(w, v, id);
  }

  lemma ActivateKeeps(w: World, signers: set<Address>, id: nat, creator: Address, referrer: Option<Address>,
                      terms: seq<nat>)
    requires Safe(w) && Activate(w, signers, id, creator, referrer, terms).Ok?
    ensures Safe(Activate(w, signers, id, creator, referrer, terms).value)
  {
    hide Solvent, PoolsFit, AllAgree, Logged, Sound, Balance;
    var v := Activate(w, signers, id, creator, referrer, terms).value;
    SafeFits(w, id);
    LoggedStill(w, v);
    assert OpenChange(w, v, id);
    OpenChangeKeeps(w, v, id);
  }

  // ---------- set-up, roles and switches ----------

  lemma InitializeKeeps(w: World, signers: set<Address>, governance: Address, settlement: Address, token: Address,
                        serviceTreasury: Address, nftPool: Address, revenuePool: Address, deployer: Address,
                        deployedHere: bool)
    requires Safe(w)
    requires Initialize(w, signers, governance, settlement, token, serviceTreasury, nftPool, revenuePool, deployer,
                        deployedHere).Ok?
    ensures Safe(Initialize(w, signers, governance, settlement, token, serviceTreasury, nftPool, revenuePool, deployer,
                            deployedHere).value)
  {
    hide P.Accounts, Sound, Supply, Logged, Owing, Shares, CompletedIds;
    var v := Initialize(w, signers, governance, settlement, token, serviceTreasury, nftPool, revenuePool, deployer,
                        deployedHere).value;
    BalancesBounded(w.ledger, token, w.self, w.self);
    NothingYet();
    hide Balance;
    assert Solvent(v);
    forall a | a in v.pools ensures Agrees(v, a) {
      assert Agrees(w, a);
    }
    LoggedStill(w, v);
  }

  lemma NothingYet()
    ensures Total(Owing(map[])) == 0 && CompletedIds(map[]) == {}
    ensures forall rate :: Total(Shares(map[], rate)) == 0
  {
    assert Owing(map[]) == map[];
    assert forall rate :: Shares(map[], rate) == map[];
  }

  /** Changing a role or the pause switch of an initialized escrow touches nothing that safety speaks of. */
  lemma RolesKeep(w: World, v: World)
    requires Safe(w) && w.escrow.governance.Some? && v.escrow.governance.Some?
    requires v == w.(escrow := w.escrow.(governance := v.escrow.governance,
                                         pendingGovernance := v.escrow.pendingGovernance,
                                         settlement := v.escrow.settlement,
                                         pendingSettlement := v.escrow.pendingSettlement, paused := v.escrow.paused))
    ensures Safe(v)
  {
    hide P.Accounts, Sound, Balance, Supply, Logged;
    forall k | k in v.escrow.campaigns ensures CampaignFits(v, k) {
      assert CampaignFits(w, k);
    }
    forall a | a in v.pools ensures Agrees(v, a) {
      assert Agrees(w, a);
    }
    LoggedStill(w, v);
  }
}
