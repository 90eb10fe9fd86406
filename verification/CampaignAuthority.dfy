/** Who can change what in the campaign contracts, and whose tokens can leave. */
module CampaignAuthority {
  import opened Basics
  import opened TokenLedger
  import opened EscrowContract
  import opened Settlement
  import opened CampaignInvariants
  import opened EscrowSafety
  import opened Campaigns
  import opened CampaignSafety
  import P = PoolContract

  predicate Signs(signer: Option<Address>, signers: set<Address>) {
    signer.Some? && signer.value in signers
  }

  /** Governance proposes; the proposed account takes the proposal away by accepting it. */
  predicate ProposalAuthorized(before: Option<Address>, after: Option<Address>, governance: Option<Address>,
                               signers: set<Address>) {
    after != before ==> Signs(governance, signers) || (after.None? && Signs(before, signers))
  }

  /** Roles pass only to an account that governance proposed and that accepts; only governance pauses; what the escrow
      was set up with stays. */
  ghost predicate RolesAuthorized(e: Escrow, f: Escrow, signers: set<Address>) {
    if e.governance.None? then f != e ==> Signs(f.governance, signers)
    else
      && (f.governance != e.governance ==> f.governance == e.pendingGovernance && Signs(f.governance, signers))
      && (f.settlement != e.settlement ==> e.pendingSettlement == Some(f.settlement) && f.settlement in signers)
      && ProposalAuthorized(e.pendingGovernance, f.pendingGovernance, e.governance, signers)
      && ProposalAuthorized(e.pendingSettlement, f.pendingSettlement, e.governance, signers)
      && (f.paused != e.paused ==> Signs(e.governance, signers))
      && f.token == e.token && f.serviceTreasury == e.serviceTreasury
      && f.nftPool == e.nftPool && f.revenuePool == e.revenuePool
  }

  /**
    * Every change of a campaign has its rightful cause: its sponsor's signature to fund or to activate it, the
    * settlement authority's before expiry to complete it, and only the passing of time to refund it.
    */
  ghost predicate CampaignAuthorized(w: World, v: World, signers: set<Address>, id: nat)
    requires id in v.escrow.campaigns
  {
    var d := v.escrow.campaigns[id];
    if id !in w.escrow.campaigns then d.status == Funded && d.sponsor in signers && !w.escrow.paused
    else
      var c := w.escrow.campaigns[id];
      || d == c
      || (c.status == Funded && c.sponsor in signers && !w.escrow.paused
          && d == c.(creator := d.creator, referrer := d.referrer, terms := d.terms, version := 1, status := Active))
      || (c.status == Active && w.escrow.settlement in signers && w.now < c.expiresAt && !w.escrow.paused
          && d == c.(status := Completed))
      || (!c.Settled() && w.now >= c.expiresAt && d == c.(status := Refunded))
  }

  ghost predicate CampaignsAuthorized(w: World, v: World, signers: set<Address>) {
    && w.escrow.campaigns.Keys <= v.escrow.campaigns.Keys
    && forall id :: id in v.escrow.campaigns ==> CampaignAuthorized(w, v, signers, id)
  }

  predicate CompletedNow(w: World, v: World, id: nat) {
    && id in w.escrow.campaigns && w.escrow.campaigns[id].status == Active
    && id in v.escrow.campaigns && v.escrow.campaigns[id].status == Completed
  }

  predicate SettledNow(w: World, v: World, id: nat) {
    && id in w.escrow.campaigns && !w.escrow.campaigns[id].Settled()
    && id in v.escrow.campaigns && v.escrow.campaigns[id].Settled()
  }

  predicate ClaimedNow(p: P.Pool, q: P.Pool, m: nat, i: nat) {
    WasClaimed(q, m, i) && !WasClaimed(p, m, i)
  }

  /** An allocation is there to stay but for its claim, which takes its recipient's signature, in time. */
  ghost predicate AllocationsAuthorized(p: P.Pool, q: P.Pool, now: nat, signers: set<Address>) {
    && (forall m: nat, i: nat :: (m, i) in p.allocations ==>
          && (m, i) in q.allocations
          && (q.allocations[(m, i)] == p.allocations[(m, i)]
              || q.allocations[(m, i)] == p.allocations[(m, i)].(claimed := true)))
    && (forall m: nat, i: nat :: (m, i) in q.allocations && (m, i) !in p.allocations ==> m !in p.manifests)
    && (forall m: nat, i: nat :: ClaimedNow(p, q, m, i) ==>
          && m in p.manifests && now < p.manifests[m].expiresAt && !p.paused
          && (m, i) in p.allocations && p.allocations[(m, i)].recipient in signers)
  }

  /** The manifest after its allocation `i` was claimed. */
  function LessClaimed(p: P.Pool, m: nat, i: nat): P.Manifest
    requires m in p.manifests
  {
    var manifest := p.manifests[m];
    var remaining := manifest.remainingAmount - if (m, i) in p.allocations then p.allocations[(m, i)].amount else 0;
    manifest.(remainingAmount := remaining, status := if remaining == 0 then P.Completed else manifest.status)
  }

  /** A manifest takes both role holders; it then changes only by a claim, or by expiring when it is due. */
  ghost predicate ManifestsAuthorized(p: P.Pool, q: P.Pool, now: nat, signers: set<Address>) {
    && (forall m :: m in p.manifests ==>
          && m in q.manifests
          && (|| q.manifests[m] == p.manifests[m]
              || (p.manifests[m].status == P.Active && now >= p.manifests[m].expiresAt
                  && q.manifests[m] == p.manifests[m].(remainingAmount := 0, status := P.Expired))
              || exists i: nat :: ClaimedNow(p, q, m, i) && q.manifests[m] == LessClaimed(p, m, i)))
    && (q.latestManifestId != p.latestManifestId || q.manifests.Keys != p.manifests.Keys ==>
          Signs(p.governance, signers) && p.eligibility in signers && !p.paused)
    && (q.totalPaid != p.totalPaid ==> exists m: nat, i: nat :: ClaimedNow(p, q, m, i))
  }

  /** `credits`: the escrow of the pool calls it to record the credit of a campaign it completes. */
  ghost predicate PoolAuthorized(p: P.Pool, q: P.Pool, now: nat, signers: set<Address>, credits: bool) {
    if p.governance.None? then q != p ==> Signs(q.governance, signers) && q.eligibility in signers
    else
      && AllocationsAuthorized(p, q, now, signers) && ManifestsAuthorized(p, q, now, signers)
      && (q.governance != p.governance ==> q.governance == p.pendingGovernance && Signs(q.governance, signers))
      && (q.eligibility != p.eligibility ==> p.pendingEligibility == Some(q.eligibility) && q.eligibility in signers)
      && ProposalAuthorized(p.pendingGovernance, q.pendingGovernance, p.governance, signers)
      && ProposalAuthorized(p.pendingEligibility, q.pendingEligibility, p.governance, signers)
      && (q.paused != p.paused ==> Signs(p.governance, signers))
      && (q.credited != p.credited || q.totalCredited != p.totalCredited ==> p.escrow in signers || credits)
      && q.token == p.token && q.escrow == p.escrow
  }

  // ---------- the calls of a pool ----------

  lemma PublishAuthorized(p: P.Pool, balance: int, now: nat, signers: set<Address>, id: nat, expiresAt: nat,
                          recipients: seq<Address>, amounts: seq<int>)
    requires P.Accounts(p, balance)
    requires P.Publish(p, balance, now, signers, id, expiresAt, recipients, amounts).Ok?
    ensures PoolAuthorized(p, P.Publish(p, balance, now, signers, id, expiresAt, recipients, amounts).value, now,
                           signers, false)
  {
    var q := P.Publish(p, balance, now, signers, id, expiresAt, recipients, amounts).value;
    P.PublishWrites(p, balance, now, signers, id, expiresAt, recipients, amounts);
    P.PublishedOpen(p, balance, now, signers, id, expiresAt, recipients, amounts);
    assert q == p.(manifests := q.manifests, allocations := q.allocations, latestManifestId := id,
                   totalLiability := q.totalLiability);
    hide P.Publish, P.Accounts;
    assert AllocationsAuthorized(p, q, now, signers);
  }

  lemma ExpireAuthorized(p: P.Pool, now: nat, signers: set<Address>, id: nat)
    requires P.Expire(p, now, id).Ok?
    ensures PoolAuthorized(p, P.Expire(p, now, id).value, now, signers, false)
  {
    var q := P.Expire(p, now, id).value;
    assert q.manifests.Keys == p.manifests.Keys;
  }

  /** The calls that leave the manifests and allocations alone. */
  lemma PlainCallAuthorized(p: P.Pool, balance: int, now: nat, signers: set<Address>, call: PoolCall)
    requires ExecutePool(p, balance, now, signers, call).Ok? && !call.Publish? && !call.Expire?
    ensures PoolAuthorized(p, ExecutePool(p, balance, now, signers, call).value, now, signers, false)
  {
    hide AllocationsAuthorized, ManifestsAuthorized;
    ManifestsSame(p, ExecutePool(p, balance, now, signers, call).value, now, signers);
  }

  lemma ManifestsSame(p: P.Pool, q: P.Pool, now: nat, signers: set<Address>)
    ensures q.manifests == p.manifests && q.allocations == p.allocations && q.totalPaid == p.totalPaid
            && q.latestManifestId == p.latestManifestId ==>
              AllocationsAuthorized(p, q, now, signers) && ManifestsAuthorized(p, q, now, signers)
  {}

  lemma PoolCallAuthorized(p: P.Pool, balance: int, now: nat, signers: set<Address>, call: PoolCall)
    requires P.Accounts(p, balance) && ExecutePool(p, balance, now, signers, call).Ok?
    ensures PoolAuthorized(p, ExecutePool(p, balance, now, signers, call).value, now, signers, false)
  {
    hide P.Accounts, P.Publish, P.Expire, PoolAuthorized;
    if call.Publish? {
      PublishAuthorized(p, balance, now, signers, call.id, call.expiresAt, call.recipients, call.amounts);
    } else if call.Expire? {
      ExpireAuthorized(p, now, signers, call.id);
    } else {
      hide ExecutePool;
      PlainCallAuthorized(p, balance, now, signers, call);
    }
  }

  lemma ClaimAuthorized(p: P.Pool, balance: int, now: nat, signers: set<Address>, id: nat, index: nat)
    requires P.Claim(p, balance, now, signers, id, index).Ok?
    ensures var q := P.Claim(p, balance, now, signers, id, index).value.pool;
            ClaimedNow(p, q, id, index) && PoolAuthorized(p, q, now, signers, false)
  {
    var q := P.Claim(p, balance, now, signers, id, index).value.pool;
    assert ClaimedNow(p, q, id, index) && q.manifests[id] == LessClaimed(p, id, index);
    assert q.manifests.Keys == p.manifests.Keys;
  }

  lemma PoolSame(p: P.Pool, q: P.Pool, now: nat, signers: set<Address>, credits: bool)
    requires q == p || (credits && p.governance.Some?
                        && q == p.(credited := q.credited, totalCredited := q.totalCredited))
    ensures PoolAuthorized(p, q, now, signers, credits)
  {}

  lemma MoreCredits(p: P.Pool, q: P.Pool, now: nat, signers: set<Address>, credits: bool)
    requires PoolAuthorized(p, q, now, signers, false)
    ensures PoolAuthorized(p, q, now, signers, credits)
  {
    hide AllocationsAuthorized, ManifestsAuthorized;
  }

  // ---------- the calls of the escrow ----------

  lemma CompleteAuthorized(w: World, signers: set<Address>, id: nat, version: nat)
    requires Safe(w) && EscrowContract.Complete(w, signers, id, version).Ok?
    ensures var v := EscrowContract.Complete(w, signers, id, version).value;
            && RolesAuthorized(w.escrow, v.escrow, signers) && CampaignsAuthorized(w, v, signers)
            && CompletedNow(w, v, id)
            && forall a :: a in w.pools ==>
                 && a in v.pools
                 && (v.pools[a] == w.pools[a]
                     || (&& w.pools[a].governance.Some? && w.pools[a].escrow == w.self
                         && v.pools[a] == w.pools[a].(credited := v.pools[a].credited,
                                                      totalCredited := v.pools[a].totalCredited)))
  {
    hide Safe, Settle, Distribute, Paid, CreditsFit, Legs, CreditFollows, Share, Sound, Balance;
    SettleExact(w, signers, id, version);
    CompleteMakes(w, signers, id, version);
    CompletesFrame(w, id, Settle(w, signers, id, version).value,
                   EscrowContract.Complete(w, signers, id, version).value);
  }

  lemma RefundAuthorized(w: World, signers: set<Address>, id: nat)
    requires Safe(w) && EscrowContract.RefundExpired(w, id).Ok?
    ensures var v := EscrowContract.RefundExpired(w, id).value;
            && v.pools == w.pools && RolesAuthorized(w.escrow, v.escrow, signers) && CampaignsAuthorized(w, v, signers)
            && SettledNow(w, v, id)
  {
    hide Safe, EscrowContract.RefundExpired, Sound, Supply, Balance, Received, Spent;
    RefundExact(w, id);
  }

  lemma EscrowCallAuthorized(w: World, signers: set<Address>, call: Call)
    requires Safe(w) && Execute(w, signers, call).Ok?
    ensures RolesAuthorized(w.escrow, Execute(w, signers, call).value.escrow, signers)
    ensures CampaignsAuthorized(w, Execute(w, signers, call).value, signers)
  {
    if call.Complete? {
      hide Safe, EscrowContract.Complete, RolesAuthorized, CampaignsAuthorized;
      CompleteAuthorized(w, signers, call.id, call.version);
    } else if call.RefundExpired? {
      hide Safe, EscrowContract.RefundExpired, RolesAuthorized, CampaignsAuthorized;
      RefundAuthorized(w, signers, call.id);
    } else {
      hide Safe, Transfer, ExecutePool, P.Claim;
    }
  }

  // ---------- every pool, in every call ----------

  ghost predicate Credits(w: World, v: World, a: Address)
    requires a in w.pools
  {
    w.pools[a].escrow == w.self && exists id: nat :: CompletedNow(w, v, id)
  }

  ghost predicate AllPoolsAuthorized(w: World, v: World, signers: set<Address>) {
    forall a :: a in w.pools ==>
      a in v.pools && PoolAuthorized(w.pools[a], v.pools[a], w.now, signers, Credits(w, v, a))
  }

  lemma PoolsUntouchedAuthorized(w: World, v: World, signers: set<Address>)
    requires v.pools == w.pools
    ensures AllPoolsAuthorized(w, v, signers)
  {
    forall a | a in w.pools ensures PoolAuthorized(w.pools[a], v.pools[a], w.now, signers, Credits(w, v, a)) {
      PoolSame(w.pools[a], v.pools[a], w.now, signers, Credits(w, v, a));
    }
  }

  lemma OnePoolAuthorized(w: World, v: World, a: Address, signers: set<Address>)
    requires a in w.pools && a in v.pools && v.pools == w.pools[a := v.pools[a]]
    requires PoolAuthorized(w.pools[a], v.pools[a], w.now, signers, false)
    ensures AllPoolsAuthorized(w, v, signers)
  {
    hide PoolAuthorized;
    forall b | b in w.pools ensures PoolAuthorized(w.pools[b], v.pools[b], w.now, signers, Credits(w, v, b)) {
      if b == a {
        MoreCredits(w.pools[b], v.pools[b], w.now, signers, Credits(w, v, b));
      } else {
        PoolSame(w.pools[b], v.pools[b], w.now, signers, Credits(w, v, b));
      }
    }
  }

  lemma CompletionPoolsAuthorized(w: World, signers: set<Address>, id: nat, version: nat)
    requires Safe(w) && EscrowContract.Complete(w, signers, id, version).Ok?
    ensures AllPoolsAuthorized(w, EscrowContract.Complete(w, signers, id, version).value, signers)
  {
    hide Safe, EscrowContract.Complete, PoolAuthorized, RolesAuthorized, CampaignsAuthorized, CompletedNow;
    CompleteAuthorized(w, signers, id, version);
    var v := EscrowContract.Complete(w, signers, id, version).value;
    forall a | a in w.pools ensures PoolAuthorized(w.pools[a], v.pools[a], w.now, signers, Credits(w, v, a)) {
      PoolSame(w.pools[a], v.pools[a], w.now, signers, Credits(w, v, a));
    }
  }

  lemma SafeAccounts(w: World, a: Address)
    requires Safe(w) && a in w.pools
    ensures P.Accounts(w.pools[a], PoolBalance(w, a))
  {}

  lemma PoolsAuthorized(w: World, signers: set<Address>, call: Call)
    requires Safe(w) && Execute(w, signers, call).Ok?
    ensures AllPoolsAuthorized(w, Execute(w, signers, call).value, signers)
  {
    hide Safe, AllPoolsAuthorized, PoolAuthorized, EscrowContract.Complete, EscrowContract.RefundExpired,
      ExecutePool, P.Claim, P.Accounts, Transfer, RolesAuthorized, CampaignsAuthorized;
    var v := Execute(w, signers, call).value;
    if call.Complete? {
      CompletionPoolsAuthorized(w, signers, call.id, call.version);
    } else if call.RefundExpired? {
      RefundAuthorized(w, signers, call.id);
      PoolsUntouchedAuthorized(w, v, signers);
    } else if call.OnPool? {
      SafeAccounts(w, call.pool);
      PoolCallAuthorized(w.pools[call.pool], PoolBalance(w, call.pool), w.now, signers, call.poolCall);
      OnePoolAuthorized(w, v, call.pool, signers);
    } else if call.Claim? {
      ClaimAuthorized(w.pools[call.pool], PoolBalance(w, call.pool), w.now, signers, call.id, call.index);
      OnePoolAuthorized(w, v, call.pool, signers);
    } else {
      PoolsUntouchedAuthorized(w, v, signers);
    }
  }

  // ---------- whose tokens can leave ----------

  /**
    * Nobody loses tokens without signing. The escrow loses some only of its own token, when it settles a campaign; a
    * pool only of its own token, when an allocation of it is claimed.
    */
  ghost predicate TokensAuthorized(w: World, v: World, signers: set<Address>) {
    forall t, h :: Balance(v.ledger, t, h) < Balance(w.ledger, t, h) ==>
      if h == w.self then t == w.escrow.token && exists id: nat :: SettledNow(w, v, id)
      else if h in w.pools then
        && t == w.pools[h].token && h in v.pools
        && exists m: nat, i: nat :: ClaimedNow(w.pools[h], v.pools[h], m, i)
      else h in signers
  }

  lemma TransferAuthorized(w: World, v: World, token: Address, from: Address, to: Address, amount: int,
                           signers: set<Address>)
    requires Sound(w.ledger) && Transfer(w.ledger, token, from, to, amount) == Some(v.ledger)
    requires from in signers && Outside(w, signers)
    ensures TokensAuthorized(w, v, signers)
  {
    TransferSucceeds(w.ledger, token, from, to, amount);
    TransferMoves(w.ledger, token, from, to, amount);
    hide Transfer, Sound, Supply, Balance;
  }

  lemma CompleteTokensAuthorized(w: World, signers: set<Address>, id: nat, version: nat)
    requires Safe(w) && EscrowContract.Complete(w, signers, id, version).Ok?
    ensures TokensAuthorized(w, EscrowContract.Complete(w, signers, id, version).value, signers)
  {
    hide Safe, Settle, Distribute, Sound, Supply, Balance, ReadyToDistribute, CreditsFit, Legs, Share, CreatorShare,
      PoolsCredited, RolesAuthorized, CampaignsAuthorized;
    CompleteMakes(w, signers, id, version);
    CompleteAuthorized(w, signers, id, version);
    var s := Settle(w, signers, id, version).value;
    var v := EscrowContract.Complete(w, signers, id, version).value;
    assert SettledNow(w, v, id);
    forall t, h | Balance(v.ledger, t, h) < Balance(w.ledger, t, h) ensures h == w.self && t == w.escrow.token {
      BalancesAfterLegs(s, id, v, h);
    }
  }

  lemma RefundTokensAuthorized(w: World, signers: set<Address>, id: nat)
    requires Safe(w) && EscrowContract.RefundExpired(w, id).Ok?
    ensures TokensAuthorized(w, EscrowContract.RefundExpired(w, id).value, signers)
  {
    hide Solvent, PoolsFit, AllAgree, Logged, Sound, Supply, Balance, Received, Spent, EscrowContract.RefundExpired,
      RolesAuthorized, CampaignsAuthorized;
    RefundExact(w, id);
    RefundAuthorized(w, signers, id);
    SafeFits(w, id);
    var c, v := w.escrow.campaigns[id], EscrowContract.RefundExpired(w, id).value;
    PayoutToOne(Payout(Settling(id), c.sponsor, c.amount));
    assert SettledNow(w, v, id);
  }

  lemma ClaimTokensAuthorized(w: World, signers: set<Address>, a: Address, id: nat, index: nat)
    requires Safe(w) && a in w.pools && ClaimFrom(w, signers, a, id, index).Ok?
    ensures TokensAuthorized(w, ClaimFrom(w, signers, a, id, index).value, signers)
  {
    hide Safe, ClaimFrom, P.Accounts, Sound, Supply, Balance, Transfer;
    ClaimMakes(w, signers, a, id, index);
    var v := ClaimFrom(w, signers, a, id, index).value;
    var allocation := w.pools[a].allocations[(id, index)];
    SoundLedger(w);
    SafePools(w);
    TransferMoves(w.ledger, w.pools[a].token, a, allocation.recipient, allocation.amount);
    assert ClaimedNow(w.pools[a], v.pools[a], id, index);
  }

  lemma TokensLeaveByRight(w: World, signers: set<Address>, call: Call)
    requires Safe(w) && Outside(w, signers) && Execute(w, signers, call).Ok?
    ensures TokensAuthorized(w, Execute(w, signers, call).value, signers)
  {
    hide Safe, Outside, TokensAuthorized, Transfer, Sound;
    var v := Execute(w, signers, call).value;
    SoundLedger(w);
    if call.Complete? {
      hide EscrowContract.Complete;
      CompleteTokensAuthorized(w, signers, call.id, call.version);
    } else if call.RefundExpired? {
      hide EscrowContract.RefundExpired;
      RefundTokensAuthorized(w, signers, call.id);
    } else if call.Claim? {
      hide ClaimFrom;
      ClaimTokensAuthorized(w, signers, call.pool, call.id, call.index);
    } else if call.Fund? {
      TransferAuthorized(w, v, w.escrow.token, call.sponsor, w.self, call.amount, signers);
    } else if call.Move? {
      TransferAuthorized(w, v, call.token, call.from, call.to, call.amount, signers);
    } else {
      LedgerUntouched(w, signers, call);
      SameTokens(w, v, signers);
    }
  }

  lemma LedgerUntouched(w: World, signers: set<Address>, call: Call)
    requires !MovesTokens(call) && Execute(w, signers, call).Ok?
    ensures Execute(w, signers, call).value.ledger == w.ledger
  {
    hide ExecutePool;
  }

  lemma SameTokens(w: World, v: World, signers: set<Address>)
    requires v.ledger == w.ledger
    ensures TokensAuthorized(w, v, signers)
  {}

  /**
    * In any state that can be reached, whatever a call changes in the set-up, roles and campaigns of the escrow and in
    * any pool, or takes from any balance, has been authorized by whom the contracts name for it. (The liabilities are
    * sums over campaigns and manifests in every such state, and consumed operations are those of completed campaigns.)
    */
  lemma ChangesAreAuthorized(w: World, calls: seq<Signed>, signers: set<Address>, call: Call)
    requires Initial(w) && AllOutside(w, calls) && Outside(Run(w, calls), signers)
    requires Execute(Run(w, calls), signers, call).Ok?
    ensures var u := Run(w, calls);
            var v := Execute(u, signers, call).value;
            && RolesAuthorized(u.escrow, v.escrow, signers) && CampaignsAuthorized(u, v, signers)
            && AllPoolsAuthorized(u, v, signers) && TokensAuthorized(u, v, signers)
  {
    hide Run, Initial, RolesAuthorized, CampaignsAuthorized, AllPoolsAuthorized, TokensAuthorized, Safe, Execute,
      Outside;
    ReachableSafe(w, calls);
    EscrowCallAuthorized(Run(w, calls), signers, call);
    PoolsAuthorized(Run(w, calls), signers, call);
    TokensLeaveByRight(Run(w, calls), signers, call);
  }

  // ---------- two keys for a manifest ----------

  /** The same address never holds both roles of a pool that is set up: no single key publishes a manifest. */
  lemma PublishingNeedsTwo(w: World, calls: seq<Signed>, a: Address, signers: set<Address>, id: nat, expiresAt: nat,
                           recipients: seq<Address>, amounts: seq<int>)
    requires Initial(w) && AllOutside(w, calls) && a in Run(w, calls).pools
    requires Execute(Run(w, calls), signers, OnPool(a, Publish(id, expiresAt, recipients, amounts))).Ok?
    ensures |signers| >= 2
  {
    hide Run, Initial, Solvent, AllAgree, Logged, Sound, P.ManifestFits, P.Remaining, P.ValidAllocations,
      P.AvailableBalance;
    ReachableSafe(w, calls);
    var p := Run(w, calls).pools[a];
    TwoElements(signers, p.governance.value, p.eligibility);
  }

  lemma TwoElements(s: set<Address>, x: Address, y: Address)
    requires x in s && y in s && x != y
    ensures |s| >= 2
  {
    assert {x, y} <= s && |{x, y}| == 2;
    assert s == {x, y} + (s - {x, y});
    assert |s| == |{x, y}| + |s - {x, y}|;
  }
}
