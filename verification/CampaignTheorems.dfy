/** What the campaign contracts promise their users over whole runs. */
module CampaignTheorems {
  import opened Basics
  import opened Sums
  import opened TokenLedger
  import opened EscrowContract
  import opened Settlement
  import opened CampaignInvariants
  import opened EscrowSafety
  import opened Campaigns
  import opened CampaignSafety
  import P = PoolContract

  // ---------- what never changes again ----------

  /** Nobody can change what a sponsor funded, what it committed to when it activated, or a settled campaign. */
  predicate CampaignKept(c: Campaign, d: Campaign) {
    && d.sponsor == c.sponsor && d.amount == c.amount && d.fundedAt == c.fundedAt && d.expiresAt == c.expiresAt
    && (c.status != Funded ==>
          d.status != Funded && d.creator == c.creator && d.referrer == c.referrer && d.terms == c.terms)
    && (c.Settled() ==> d == c)
  }

  ghost predicate EscrowKept(e: Escrow, f: Escrow) {
    && (e.governance.Some? ==>
          && f.governance.Some? && f.token == e.token && f.serviceTreasury == e.serviceTreasury
          && f.nftPool == e.nftPool && f.revenuePool == e.revenuePool)
    && (forall id :: id in e.campaigns ==> id in f.campaigns && CampaignKept(e.campaigns[id], f.campaigns[id]))
  }

  /** A published allocation keeps its recipient and amount, and once claimed stays claimed; credit is never undone. */
  ghost predicate PoolKept(p: P.Pool, q: P.Pool) {
    && (p.governance.Some? ==> q.governance.Some? && q.escrow == p.escrow && q.token == p.token)
    && p.credited <= q.credited
    && (forall m: nat, i: nat :: (m, i) in p.allocations ==>
          && (m, i) in q.allocations
          && q.allocations[(m, i)].recipient == p.allocations[(m, i)].recipient
          && q.allocations[(m, i)].amount == p.allocations[(m, i)].amount
          && (p.allocations[(m, i)].claimed ==> q.allocations[(m, i)].claimed))
  }

  ghost predicate Kept(w: World, v: World) {
    && EscrowKept(w.escrow, v.escrow) && w.now <= v.now && w.payouts <= v.payouts
    && v.pools.Keys == w.pools.Keys && forall a :: a in w.pools ==> PoolKept(w.pools[a], v.pools[a])
  }

  lemma PoolKeptTransitive(p: P.Pool, q: P.Pool, r: P.Pool)
    requires PoolKept(p, q) && PoolKept(q, r)
    ensures PoolKept(p, r)
  {}

  lemma KeptTransitive(w: World, v: World, u: World)
    requires Kept(w, v) && Kept(v, u)
    ensures Kept(w, u)
  {
    hide PoolKept;
    forall a | a in w.pools ensures PoolKept(w.pools[a], u.pools[a]) {
      PoolKeptTransitive(w.pools[a], v.pools[a], u.pools[a]);
    }
  }

  lemma PoolCallKept(p: P.Pool, balance: int, now: nat, signers: set<Address>, call: PoolCall)
    requires P.Accounts(p, balance) && ExecutePool(p, balance, now, signers, call).Ok?
    ensures PoolKept(p, ExecutePool(p, balance, now, signers, call).value)
  {
    hide P.Remaining, P.Taken, P.ValidAllocations, P.AvailableBalance;
    if call.Publish? {
      P.PublishWrites(p, balance, now, signers, call.id, call.expiresAt, call.recipients, call.amounts);
      P.PublishedOpen(p, balance, now, signers, call.id, call.expiresAt, call.recipients, call.amounts);
      hide P.AvailableBalance, P.ValidAllocations, P.ManifestFits;
    }
  }

  lemma OnPoolKept(w: World, signers: set<Address>, a: Address, call: PoolCall)
    requires Safe(w) && Execute(w, signers, OnPool(a, call)).Ok?
    ensures Kept(w, Execute(w, signers, OnPool(a, call)).value)
  {
    hide Solvent, AllAgree, Logged, Sound, ExecutePool, P.Accounts, PoolKept;
    PoolCallKept(w.pools[a], PoolBalance(w, a), w.now, signers, call);
    PoolsKeptAsTheyAre(w);
  }

  lemma PoolsKeptAsTheyAre(w: World)
    ensures forall a :: a in w.pools ==> PoolKept(w.pools[a], w.pools[a])
  {}

  lemma ClaimKept(w: World, signers: set<Address>, a: Address, id: nat, index: nat)
    requires Safe(w) && a in w.pools && ClaimFrom(w, signers, a, id, index).Ok?
    ensures Kept(w, ClaimFrom(w, signers, a, id, index).value)
  {
    hide Safe, ClaimFrom, P.Accounts, Transfer;
    ClaimMakes(w, signers, a, id, index);
  }

  lemma CompleteKept(w: World, signers: set<Address>, id: nat, version: nat)
    requires Safe(w) && EscrowContract.Complete(w, signers, id, version).Ok?
    ensures Kept(w, EscrowContract.Complete(w, signers, id, version).value)
  {
    hide Safe, Settle, Distribute, Paid, ReadyToDistribute, CreditsFit, Share;
    CompleteMakes(w, signers, id, version);
    var v := EscrowContract.Complete(w, signers, id, version).value;
    CompletesFrame(w, id, Settle(w, signers, id, version).value, v);
  }

  lemma RefundKept(w: World, id: nat)
    requires Safe(w) && EscrowContract.RefundExpired(w, id).Ok?
    ensures Kept(w, EscrowContract.RefundExpired(w, id).value)
  {
    hide Safe, EscrowContract.RefundExpired, Sound, Supply, Balance;
    RefundExact(w, id);
  }

  lemma SetupKept(w: World, signers: set<Address>, call: Call)
    requires Execute(w, signers, call).Ok? && !call.OnPool? && !call.Claim? && !call.Complete? && !call.RefundExpired?
    ensures Kept(w, Execute(w, signers, call).value)
  {
    hide Transfer, PoolKept;
    PoolsKeptAsTheyAre(w);
  }

  lemma ExecuteKept(w: World, signers: set<Address>, call: Call)
    requires Safe(w) && Execute(w, signers, call).Ok?
    ensures Kept(w, Execute(w, signers, call).value)
  {
    hide Safe, Kept;
    if call.OnPool? {
      hide Execute;
      OnPoolKept(w, signers, call.pool, call.poolCall);
    } else if call.Claim? {
      hide ClaimFrom;
      ClaimKept(w, signers, call.pool, call.id, call.index);
    } else if call.Complete? {
      hide EscrowContract.Complete;
      CompleteKept(w, signers, call.id, call.version);
    } else if call.RefundExpired? {
      hide EscrowContract.RefundExpired;
      RefundKept(w, call.id);
    } else {
      hide Execute;
      SetupKept(w, signers, call);
    }
  }

  /** Over any run by anyone. */
  lemma {:induction false} RunKept(w: World, calls: seq<Signed>)
    requires Safe(w) && AllOutside(w, calls)
    ensures Kept(w, Run(w, calls))
    decreases |calls|
  {
    KeptAsItIs(w);
    hide Safe, Execute, Kept;
    if calls != [] {
      var v := Step(w, calls[0].signers, calls[0].call);
      if Execute(w, calls[0].signers, calls[0].call).Ok? {
        ExecuteKeeps(w, calls[0].signers, calls[0].call);
        ExecuteConserves(w, calls[0].signers, calls[0].call);
        ExecuteKept(w, calls[0].signers, calls[0].call);
      }
      assert forall i :: 0 <= i < |calls| - 1 ==> calls[1..][i] == calls[i + 1];
      RunKept(v, calls[1..]);
      KeptTransitive(w, v, Run(w, calls));
    }
  }

  lemma KeptAsItIs(w: World)
    ensures Kept(w, w)
  {}

  // ---------- what a sponsor can count on ----------

  /**
    * Whatever others do after funding, and whether the escrow is paused or not: once the campaign has expired, it is
    * either completed, or its sponsor already has the money back, or anyone can send it back now, in full.
    */
  lemma SponsorIsNeverStuck(w: World, calls: seq<Signed>, id: nat)
    requires Safe(w) && AllOutside(w, calls) && id in w.escrow.campaigns
    requires Run(w, calls).now >= w.escrow.campaigns[id].expiresAt
    ensures var u, c := Run(w, calls), w.escrow.campaigns[id];
            && id in u.escrow.campaigns
            && Outflow(u.payouts, Settling(id)) == (if u.escrow.campaigns[id].Settled() then c.amount else 0)
            && (!u.escrow.campaigns[id].Settled() ==>
                  var r := EscrowContract.RefundExpired(u, id);
                  && r.Ok?
                  && Balance(r.value.ledger, u.escrow.token, c.sponsor)
                     == Balance(u.ledger, u.escrow.token, c.sponsor) + c.amount)
  {
    hide Sound, Balance, PoolsFit, AllAgree, Paid;
    RunKeeps(w, calls);
    RunKept(w, calls);
    var u, c := Run(w, calls), w.escrow.campaigns[id];
    RefundExact(u, id);
    SafeFits(u, id);
    if !u.escrow.campaigns[id].Settled() {
      PaidOne(Refunding(u, id), Payout(Settling(id), c.sponsor, c.amount), EscrowContract.RefundExpired(u, id).value);
    }
  }

  /** A settled campaign stays as it is and never pays again, whatever is called. */
  lemma SettledOnceForAll(w: World, calls: seq<Signed>, id: nat)
    requires Safe(w) && AllOutside(w, calls) && id in w.escrow.campaigns && w.escrow.campaigns[id].Settled()
    ensures var u := Run(w, calls);
            && id in u.escrow.campaigns && u.escrow.campaigns[id] == w.escrow.campaigns[id]
            && Outflow(u.payouts, Settling(id)) == Outflow(w.payouts, Settling(id)) == w.escrow.campaigns[id].amount
  {
    RunKeeps(w, calls);
    RunKept(w, calls);
    hide Solvent, PoolsFit, AllAgree, Sound, PoolKept, Outflow;
  }

  /** A settlement pays each of the five parties its leg, out of the escrow, whoever they are. */
  lemma CompletePays(w: World, signers: set<Address>, id: nat, version: nat, h: Address)
    requires Safe(w) && EscrowContract.Complete(w, signers, id, version).Ok?
    ensures id in w.escrow.campaigns && w.escrow.campaigns[id].referrer.Some?
    ensures var v := EscrowContract.Complete(w, signers, id, version).value;
            var e, c := w.escrow, w.escrow.campaigns[id];
            && Balance(v.ledger, e.token, h) - Balance(w.ledger, e.token, h)
               == (if h == c.creator
                   then c.amount - c.amount / 10 - c.amount / 20 - c.amount / 50 - c.amount / 100 else 0)
                  + (if h == e.serviceTreasury then c.amount / 10 else 0)
                  + (if h == e.nftPool then c.amount / 20 else 0)
                  + (if h == e.revenuePool then c.amount / 50 else 0)
                  + (if h == c.referrer.value then c.amount / 100 else 0)
                  - (if h == w.self then c.amount else 0)
            && forall t :: t != e.token ==> Balance(v.ledger, t, h) == Balance(w.ledger, t, h)
  {
    hide Safe, Settle, Distribute, Share, CreatorShare, Balance, Supply, Sound, Legs, CreditsFit, PoolsCredited;
    CompleteMakes(w, signers, id, version);
    var s := Settle(w, signers, id, version).value;
    var e, c := s.escrow, s.escrow.campaigns[id];
    LegsSpend(e, id, c);
    LegsReceived(e, id, c, h);
    SafeFits(w, id);
    LegsAre(c.amount);
  }

  lemma LegsAre(total: int)
    requires Admitted(total)
    ensures Share(total, SERVICE) == total / 10 && Share(total, NFT_POOL) == total / 20
    ensures Share(total, REVENUE) == total / 50 && Share(total, REFERRER) == total / 100
    ensures CreatorShare(total) == total - total / 10 - total / 20 - total / 50 - total / 100
  {
    SplitExact(total);
  }

  lemma ReceivedMore(done: seq<Payout>, p: Payout, h: Address)
    ensures Received(done + [p], h) == Received(done, h) + if p.to == h then p.amount else 0
  {
    assert (done + [p])[..|done|] == done;
  }

  lemma LegsReceived(e: Escrow, id: nat, c: Campaign, h: Address)
    requires c.referrer.Some?
    ensures Received(Legs(e, id, c), h)
            == (if h == c.creator then CreatorShare(c.amount) else 0)
               + (if h == e.serviceTreasury then Share(c.amount, SERVICE) else 0)
               + (if h == e.nftPool then Share(c.amount, NFT_POOL) else 0)
               + (if h == e.revenuePool then Share(c.amount, REVENUE) else 0)
               + (if h == c.referrer.value then Share(c.amount, REFERRER) else 0)
  {
    var legs := Legs(e, id, c);
    hide Share, CreatorShare;
    LegsByStep(e, id, c);
    ReceivedMore([], legs[0], h);
    ReceivedMore([] + [legs[0]], legs[1], h);
    ReceivedMore([] + [legs[0]] + [legs[1]], legs[2], h);
    ReceivedMore([] + [legs[0]] + [legs[1]] + [legs[2]], legs[3], h);
    ReceivedMore([] + [legs[0]] + [legs[1]] + [legs[2]] + [legs[3]], legs[4], h);
  }

  /** Funding takes exactly the amount from the sponsor and opens the campaign for thirty days. */
  lemma FundTakes(w: World, signers: set<Address>, id: nat, sponsor: Address, amount: int, h: Address)
    requires Safe(w) && Outside(w, signers) && EscrowContract.Fund(w, signers, id, sponsor, amount).Ok?
    ensures var v := EscrowContract.Fund(w, signers, id, sponsor, amount).value;
            && sponsor in signers && id !in w.escrow.campaigns && id in v.escrow.campaigns
            && var c := v.escrow.campaigns[id];
            && c.sponsor == sponsor && c.amount == amount && c.status == Funded
            && c.fundedAt == w.now && c.expiresAt == w.now + 30 * 86_400
            && c.referrer.None? && c.terms == [] && c.version == 0
            && v == w.(ledger := v.ledger,
                       escrow := w.escrow.(totalLiability := w.escrow.totalLiability + amount,
                                           campaigns := w.escrow.campaigns[id := c]))
            && Balance(v.ledger, w.escrow.token, h) - Balance(w.ledger, w.escrow.token, h)
               == (if h == w.self then amount else 0) - (if h == sponsor then amount else 0)
  {
    hide Transfer, Safe, Sound, Supply, Balance;
    SoundLedger(w);
    TransferMoves(w.ledger, w.escrow.token, sponsor, w.self, amount);
  }

  /** Only the sponsor activates its campaign, once, and what it names then is what a settlement pays by. */
  lemma ActivateCommits(w: World, signers: set<Address>, id: nat, creator: Address, referrer: Option<Address>,
                        terms: seq<nat>)
    ensures var r := EscrowContract.Activate(w, signers, id, creator, referrer, terms);
            && (r.Ok? <==>
                  && w.escrow.governance.Some? && !w.escrow.paused && terms != [] && referrer.Some?
                  && id in w.escrow.campaigns && w.escrow.campaigns[id].status == Funded
                  && w.escrow.campaigns[id].sponsor in signers)
            && (r.Ok? ==>
                  var c, d := w.escrow.campaigns[id], r.value.escrow.campaigns[id];
                  && CampaignKept(c, d) && d.status == Active && d.creator == creator && d.referrer == referrer
                  && d.terms == terms
                  && r.value == w.(escrow := w.escrow.(campaigns := w.escrow.campaigns[id := d])))
  {}

  lemma SameCreditsFit(w: World, v: World, amount: int)
    requires v.pools == w.pools && v.escrow.nftPool == w.escrow.nftPool && v.escrow.revenuePool == w.escrow.revenuePool
    requires w.escrow.nftPool in w.pools && w.escrow.revenuePool in w.pools
    ensures CreditsFit(v, amount) == CreditsFit(w, amount)
  {}

  lemma FundedIsOpen(w: World, id: nat, sponsor: Address, amount: int)
    requires Safe(w) && w.escrow.governance.Some? && !w.escrow.paused && Admitted(amount) && id !in w.escrow.campaigns
    requires Outside(w, {sponsor}) && Balance(w.ledger, w.escrow.token, sponsor) >= amount
    requires w.now + EXPIRY <= U64_MAX
    requires w.escrow.nftPool in w.pools && w.escrow.revenuePool in w.pools && CreditsFit(w, amount)
    ensures var r := EscrowContract.Fund(w, {sponsor}, id, sponsor, amount);
            && r.Ok? && Safe(r.value)
            && var v := r.value;
            && v.now == w.now && v.escrow.governance.Some? && !v.escrow.paused
            && v.escrow.settlement == w.escrow.settlement
            && id in v.escrow.campaigns && v.escrow.campaigns[id].status == Funded
            && v.escrow.campaigns[id].sponsor == sponsor && v.escrow.campaigns[id].amount == amount
            && v.now < v.escrow.campaigns[id].expiresAt
            && v.escrow.nftPool in v.pools && v.escrow.revenuePool in v.pools && CreditsFit(v, amount)
  {
    hide Safe, CreditsFit, Transfer, Balance;
    FundExact(w, {sponsor}, id, sponsor, amount);
    FundKeeps(w, {sponsor}, id, sponsor, amount);
    SameCreditsFit(w, EscrowContract.Fund(w, {sponsor}, id, sponsor, amount).value, amount);
  }

  lemma ActivatedIsReady(w: World, id: nat, sponsor: Address, creator: Address, referrer: Address, terms: seq<nat>)
    requires Safe(w) && w.escrow.governance.Some? && !w.escrow.paused && terms != []
    requires id in w.escrow.campaigns && w.escrow.campaigns[id].status == Funded
    requires w.escrow.campaigns[id].sponsor == sponsor && w.now < w.escrow.campaigns[id].expiresAt
    requires w.escrow.nftPool in w.pools && w.escrow.revenuePool in w.pools
             && CreditsFit(w, w.escrow.campaigns[id].amount)
    ensures var r := EscrowContract.Activate(w, {sponsor}, id, creator, Some(referrer), terms);
            && r.Ok? && Safe(r.value)
            && EscrowContract.Complete(r.value, {w.escrow.settlement}, id, 1).Ok?
  {
    hide Safe, Share, EscrowContract.Complete;
    ActivateCommits(w, {sponsor}, id, creator, Some(referrer), terms);
    ActivateKeeps(w, {sponsor}, id, creator, Some(referrer), terms);
    var v := EscrowContract.Activate(w, {sponsor}, id, creator, Some(referrer), terms).value;
    CompleteExact(v, {w.escrow.settlement}, id, 1);
  }

  /** From any safe state of a running escrow a sponsor with the money can see its campaign through to completion. */
  lemma CampaignRunsToCompletion(w: World, id: nat, sponsor: Address, amount: int, creator: Address,
                                 referrer: Address, terms: seq<nat>)
    requires Safe(w) && w.escrow.governance.Some? && !w.escrow.paused
    requires Admitted(amount) && id !in w.escrow.campaigns && terms != []
    requires Outside(w, {sponsor}) && Balance(w.ledger, w.escrow.token, sponsor) >= amount
    requires w.now + EXPIRY <= U64_MAX
    requires w.escrow.nftPool in w.pools && w.escrow.revenuePool in w.pools && CreditsFit(w, amount)
    ensures var funded := EscrowContract.Fund(w, {sponsor}, id, sponsor, amount);
            funded.Ok?
            && var active := EscrowContract.Activate(funded.value, {sponsor}, id, creator, Some(referrer), terms);
            active.Ok?
            && var completed := EscrowContract.Complete(active.value, {w.escrow.settlement}, id, 1);
            completed.Ok? && Safe(completed.value)
  {
    hide Safe, Outside, CreditsFit, Balance, EscrowContract.Fund, EscrowContract.Activate, EscrowContract.Complete;
    FundedIsOpen(w, id, sponsor, amount);
    var v := EscrowContract.Fund(w, {sponsor}, id, sponsor, amount).value;
    ActivatedIsReady(v, id, sponsor, creator, referrer, terms);
    var u := EscrowContract.Activate(v, {sponsor}, id, creator, Some(referrer), terms).value;
    CompleteKeeps(u, {w.escrow.settlement}, id, 1);
  }

  // ---------- what escrow and pools agree on ----------

  /** The same fraction of every completed campaign, rounded down. */
  ghost function FractionsOf(campaigns: Book, n: int): map<nat, int>
    requires n > 0
  {
    map id | id in campaigns && campaigns[id].status == Completed :: campaigns[id].amount / n
  }

  lemma FractionsAreShares(w: World)
    requires Safe(w)
    ensures FractionsOf(w.escrow.campaigns, 20) == Shares(w.escrow.campaigns, NFT_POOL)
    ensures FractionsOf(w.escrow.campaigns, 50) == Shares(w.escrow.campaigns, REVENUE)
  {
    hide Safe, Share, Balance;
    forall id | id in w.escrow.campaigns
      ensures Share(w.escrow.campaigns[id].amount, NFT_POOL) == w.escrow.campaigns[id].amount / 20
      ensures Share(w.escrow.campaigns[id].amount, REVENUE) == w.escrow.campaigns[id].amount / 50
    {
      SafeFits(w, id);
      LegsAre(w.escrow.campaigns[id].amount);
    }
  }

  /**
    * In every reachable state: each of the two pools is credited for exactly the completed campaigns, with a twentieth
    * or a fiftieth of each. Every pool has paid exactly what was claimed from it and owes what its manifests have left,
    * both within what it was credited. The escrow holds what it owes.
    */
  lemma EscrowAndPoolsAgree(w: World, calls: seq<Signed>)
    requires Initial(w) && AllOutside(w, calls) && Run(w, calls).escrow.governance.Some?
    ensures var u := Run(w, calls);
            var e := u.escrow;
            && e.nftPool in u.pools && e.revenuePool in u.pools && e.nftPool != e.revenuePool
            && Balance(u.ledger, e.token, u.self) >= e.totalLiability == Total(Owing(e.campaigns))
            && u.pools[e.nftPool].credited == CompletedIds(e.campaigns) == u.pools[e.revenuePool].credited
            && u.pools[e.nftPool].totalCredited == Total(FractionsOf(e.campaigns, 20))
            && u.pools[e.revenuePool].totalCredited == Total(FractionsOf(e.campaigns, 50))
            && forall a :: a in u.pools ==>
                 && u.pools[a].totalPaid == PaidFrom(u.payouts, a) == Total(P.Taken(u.pools[a]))
                 && u.pools[a].totalLiability == Total(P.Remaining(u.pools[a]))
                 && u.pools[a].totalPaid + u.pools[a].totalLiability <= u.pools[a].totalCredited
                 && PoolBalance(u, a) >= u.pools[a].totalCredited - u.pools[a].totalPaid
  {
    ReachableSafe(w, calls);
    var u := Run(w, calls);
    FractionsAreShares(u);
    hide Run, Initial, Sound, Balance, Owing, Shares, FractionsOf, CompletedIds, PaidFrom, P.Taken, P.Remaining;
    assert forall a :: a in u.pools ==> ClaimsLogged(u, a);
    assert Agrees(u, u.escrow.nftPool) && Agrees(u, u.escrow.revenuePool);
  }
}
