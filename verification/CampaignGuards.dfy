/** What set-up and role changes do, why a call fails, and that nobody is paid out of a deficit; in any state at all. */
module CampaignGuards {
  import opened Basics
  import opened TokenLedger
  import opened EscrowContract
  import P = PoolContract

  // ---------- set-up ----------

  /** The pool is set up for this escrow and token. */
  predicate AnswersFor(w: World, pool: Address, token: Address) {
    && pool in w.pools && w.pools[pool].governance.Some?
    && w.pools[pool].escrow == w.self && w.pools[pool].token == token
  }

  /** The escrow is set up once, by its deployer and its governance, with two different pools that answer for it; it
      then has what it was given, each in its place, and owes nothing. */
  lemma InitializeExact(w: World, signers: set<Address>, governance: Address, settlement: Address, token: Address,
                        serviceTreasury: Address, nftPool: Address, revenuePool: Address, deployer: Address,
                        deployedHere: bool)
    ensures var r := Initialize(w, signers, governance, settlement, token, serviceTreasury, nftPool, revenuePool,
                                deployer, deployedHere);
            && (r.Ok? <==>
                  && w.escrow.governance.None? && deployedHere && {deployer, governance} <= signers
                  && nftPool != revenuePool && AnswersFor(w, nftPool, token) && AnswersFor(w, revenuePool, token))
            && (r.Ok? ==>
                  var e := r.value.escrow;
                  && r.value == w.(escrow := e)
                  && e.governance == Some(governance) && e.settlement == settlement && e.token == token
                  && e.serviceTreasury == serviceTreasury && e.nftPool == nftPool && e.revenuePool == revenuePool
                  && !e.paused && e.totalLiability == 0 && e.campaigns == w.escrow.campaigns
                  && e.consumed == w.escrow.consumed && e.pendingGovernance == w.escrow.pendingGovernance
                  && e.pendingSettlement == w.escrow.pendingSettlement)
  {}

  lemma InitializePoolExact(p: P.Pool, signers: set<Address>, governance: Address, eligibility: Address,
                            token: Address, escrow: Address, deployer: Address, deployedHere: bool)
    ensures var r := P.Initialize(p, signers, governance, eligibility, token, escrow, deployer, deployedHere);
            && (r.Ok? <==>
                  && p.governance.None? && deployedHere && {deployer, governance, eligibility} <= signers
                  && governance != eligibility)
            && (r.Ok? ==>
                  var q := r.value;
                  && q.governance == Some(governance) && q.eligibility == eligibility && q.token == token
                  && q.escrow == escrow && !q.paused && q.totalLiability == q.totalCredited == q.totalPaid == 0
                  && q.latestManifestId == 0 && q.credited == p.credited && q.manifests == p.manifests
                  && q.allocations == p.allocations && q.pendingGovernance == p.pendingGovernance
                  && q.pendingEligibility == p.pendingEligibility)
  {}

  // ---------- roles ----------

  /** Governance hands a role over by proposing an account that then accepts: that account holds the role, no proposal
      is left, the other role and everything else is as before, and the former governance can no longer pause. */
  lemma EscrowRoleHandedOver(w: World, signers: set<Address>, role: P.Role, account: Address, accepting: set<Address>)
    ensures var proposed := ProposeRole(w, signers, role, account);
            && (proposed.Ok? <==> w.escrow.governance.Some? && w.escrow.governance.value in signers)
            && (proposed.Ok? ==>
                  var accepted := AcceptRole(proposed.value, accepting, role);
                  && (accepted.Ok? <==> account in accepting)
                  && (accepted.Ok? ==>
                        accepted.value == w.(escrow :=
                          if role == P.Governance
                          then w.escrow.(governance := Some(account), pendingGovernance := None)
                          else w.escrow.(settlement := account, pendingSettlement := None))))
  {}

  /** The same for a pool, whose two roles never meet in one account. */
  lemma PoolRoleHandedOver(p: P.Pool, signers: set<Address>, role: P.Role, account: Address, accepting: set<Address>)
    ensures var proposed := P.ProposeRole(p, signers, role, account);
            && (proposed.Ok? <==> p.governance.Some? && p.governance.value in signers)
            && (proposed.Ok? ==>
                  var accepted := P.AcceptRole(proposed.value, accepting, role);
                  && (accepted.Ok? <==>
                        account in accepting
                        && account != (if role == P.Governance then p.eligibility else p.governance.value))
                  && (accepted.Ok? ==>
                        accepted.value == if role == P.Governance
                                          then p.(governance := Some(account), pendingGovernance := None)
                                          else p.(eligibility := account, pendingEligibility := None)))
  {}

  /** Without a proposal nobody takes a role, and only the proposed account takes it. */
  lemma RolesNeedProposals(w: World, p: P.Pool, signers: set<Address>, role: P.Role)
    ensures AcceptRole(w, signers, role).Ok? <==>
            var pending := if role == P.Governance then w.escrow.pendingGovernance else w.escrow.pendingSettlement;
            w.escrow.governance.Some? && pending.Some? && pending.value in signers
    ensures P.AcceptRole(p, signers, role).Ok? <==>
            var pending := if role == P.Governance then p.pendingGovernance else p.pendingEligibility;
            && p.governance.Some? && pending.Some? && pending.value in signers
            && pending.value != (if role == P.Governance then p.eligibility else p.governance.value)
  {}

  /** Pausing takes governance and switches nothing else; while paused nothing is funded, activated, completed,
      published or claimed. */
  lemma PauseStops(w: World, p: P.Pool, signers: set<Address>, others: set<Address>, paused: bool)
    ensures SetPaused(w, signers, paused).Ok? <==>
            w.escrow.governance.Some? && w.escrow.governance.value in signers
    ensures P.SetPaused(p, signers, paused).Ok? <==> p.governance.Some? && p.governance.value in signers
    ensures SetPaused(w, signers, paused).Ok? ==>
              var v := SetPaused(w, signers, paused).value;
              && v == w.(escrow := w.escrow.(paused := paused))
              && (paused ==>
                    && (forall id, sponsor, amount :: Fund(v, others, id, sponsor, amount).Err?)
                    && (forall id, creator, referrer, terms :: Activate(v, others, id, creator, referrer, terms).Err?)
                    && (forall id, version :: Complete(v, others, id, version).Err?))
    ensures P.SetPaused(p, signers, paused).Ok? ==>
              var q := P.SetPaused(p, signers, paused).value;
              && q == p.(paused := paused)
              && (paused ==>
                    && (forall balance, now, id, index :: P.Claim(q, balance, now, others, id, index).Err?)
                    && (forall balance, now, id, expiresAt, recipients, amounts ::
                          P.Publish(q, balance, now, others, id, expiresAt, recipients, amounts).Err?))
  {
    hide Transfer, Distribute, P.AvailableBalance, P.ValidAllocations;
  }

  // ---------- deficits ----------

  /** What the escrow holds, and owes. */
  ghost predicate Covered(w: World) {
    Balance(w.ledger, w.escrow.token, w.self) >= w.escrow.totalLiability
  }

  /** In no state, reachable or not, is a campaign settled while the escrow holds less than it owes, or completed for an
      operation that was used before. */
  lemma NoSettlementInDeficit(w: World, signers: set<Address>, id: nat, version: nat)
    ensures Complete(w, signers, id, version).Ok? ==>
              && Covered(w) && id in w.escrow.campaigns && w.escrow.campaigns[id].amount <= w.escrow.totalLiability
              && (id, version) !in w.escrow.consumed
    ensures RefundExpired(w, id).Ok? ==>
              Covered(w) && id in w.escrow.campaigns && w.escrow.campaigns[id].amount <= w.escrow.totalLiability
  {
    hide Transfer, Distribute;
  }

  /** Nor does a pool pay, publish or take a credit when its balance is short of its books. */
  lemma NoPoolDealInDeficit(p: P.Pool, balance: int, now: nat, signers: set<Address>, id: nat, index: nat,
                            expiresAt: nat, recipients: seq<Address>, amounts: seq<int>, authorized: bool, amount: int)
    ensures P.Claim(p, balance, now, signers, id, index).Ok? ==>
              && (id, index) in p.allocations
              && p.allocations[(id, index)].amount <= p.totalLiability <= balance
              && p.totalPaid + p.allocations[(id, index)].amount <= I128_MAX
    ensures P.Publish(p, balance, now, signers, id, expiresAt, recipients, amounts).Ok? ==>
              p.totalLiability + P.Sum(amounts) <= p.totalCredited - p.totalPaid <= balance
              && p.totalLiability + P.Sum(amounts) <= I128_MAX
    ensures match P.AvailableBalance(p, balance)
            case Ok(free) => p.governance.Some? && free == p.totalCredited - p.totalPaid - p.totalLiability >= 0
                             && p.totalCredited - p.totalPaid <= balance
            case Err(NotInitialized) => p.governance.None?
            case Err(e) => e == P.Deficit && (|| p.totalCredited - p.totalPaid < p.totalLiability
                                              || p.totalCredited - p.totalPaid > balance)
    ensures P.RecordCredit(p, balance, authorized, id, amount).Ok? ==>
              p.totalCredited + amount - p.totalPaid <= balance && p.totalCredited + amount <= I128_MAX
  {
    hide P.ValidAllocations, P.Sum;
  }

  /** Both pools have to belong to the escrow and to be set up, or nothing is paid. */
  lemma CompletionNeedsItsPools(w: World, signers: set<Address>, id: nat, version: nat)
    requires Complete(w, signers, id, version).Ok?
    ensures forall pool :: pool in {w.escrow.nftPool, w.escrow.revenuePool} ==>
              pool in w.pools && w.pools[pool].escrow == w.self && w.pools[pool].governance.Some?
  {
    hide Share, CreatorShare, Transfer, Balance;
  }

  // ---------- errors ----------

  /** Each error of `complete` names a guard that is not met. */
  lemma CompleteErrors(w: World, signers: set<Address>, id: nat, version: nat)
    requires Complete(w, signers, id, version).Err?
    ensures var found := id in w.escrow.campaigns;
            match Complete(w, signers, id, version).error
            case NotInitialized => w.escrow.governance.None?
            case Paused => w.escrow.paused
            case CampaignNotFound => !found
            case InvalidState => found && w.escrow.campaigns[id].status != Active
            case WrongVersion =>
              found && (version != w.escrow.campaigns[id].version || (id, version) in w.escrow.consumed)
            case Expired => found && w.now >= w.escrow.campaigns[id].expiresAt
            case Deficit => found && (!Covered(w) || w.escrow.campaigns[id].amount > w.escrow.totalLiability)
            case InvalidAmount => found && w.escrow.campaigns[id].amount * 1000 > I128_MAX
            case ReferrerRequired => found && w.escrow.campaigns[id].referrer.None?
            case Trap => w.escrow.settlement !in signers || Settle(w, signers, id, version).Ok?
            case _ => false
  {
    if Settle(w, signers, id, version).Ok? {
      hide Distribute;
      DistributeTraps(Settle(w, signers, id, version).value, id);
    } else {
      hide Distribute, Share, CreatorShare;
    }
  }

  /** Once the guards are passed, only a transfer or a credit that fails can stop a settlement. */
  lemma DistributeTraps(w: World, id: nat)
    requires id in w.escrow.campaigns && w.escrow.campaigns[id].referrer.Some?
    ensures Distribute(w, id).Err? ==> Distribute(w, id).error == Trap
  {
    hide Share, CreatorShare, Transfer, P.RecordCredit;
  }

  lemma RefundErrors(w: World, id: nat)
    requires RefundExpired(w, id).Err?
    ensures var found := id in w.escrow.campaigns;
            match RefundExpired(w, id).error
            case NotInitialized => w.escrow.governance.None?
            case CampaignNotFound => !found
            case InvalidState => found && w.escrow.campaigns[id].Settled()
            case NotExpired => found && w.now < w.escrow.campaigns[id].expiresAt
            case Deficit => found && (!Covered(w) || w.escrow.campaigns[id].amount > w.escrow.totalLiability)
            case Trap => found && Transfer(w.ledger, w.escrow.token, w.self, w.escrow.campaigns[id].sponsor,
                                           w.escrow.campaigns[id].amount).None?
            case _ => false
  {
    hide Transfer;
  }

  lemma FundErrors(w: World, signers: set<Address>, id: nat, sponsor: Address, amount: int)
    requires Fund(w, signers, id, sponsor, amount).Err?
    ensures match Fund(w, signers, id, sponsor, amount).error
            case NotInitialized => w.escrow.governance.None?
            case InvalidAmount => amount < 100 || amount > I128_MAX / 10_000
            case Paused => w.escrow.paused
            case CampaignAlreadyExists => id in w.escrow.campaigns
            case Trap => || sponsor !in signers
                         || Transfer(w.ledger, w.escrow.token, sponsor, w.self, amount).None?
                         || w.escrow.totalLiability + amount > I128_MAX || w.now + 30 * 24 * 3600 > U64_MAX
            case _ => false
  {
    hide Transfer;
  }

  lemma ActivateErrors(w: World, signers: set<Address>, id: nat, creator: Address, referrer: Option<Address>,
                       terms: seq<nat>)
    requires Activate(w, signers, id, creator, referrer, terms).Err?
    ensures var found := id in w.escrow.campaigns;
            match Activate(w, signers, id, creator, referrer, terms).error
            case NotInitialized => w.escrow.governance.None?
            case Paused => w.escrow.paused
            case EmptyTerms => |terms| == 0
            case ReferrerRequired => referrer.None?
            case CampaignNotFound => !found
            case InvalidState => found && w.escrow.campaigns[id].status != Funded
            case Trap => found && w.escrow.campaigns[id].sponsor !in signers
            case _ => false
  {}

  lemma InitializeErrors(w: World, signers: set<Address>, governance: Address, settlement: Address, token: Address,
                         serviceTreasury: Address, nftPool: Address, revenuePool: Address, deployer: Address,
                         deployedHere: bool)
    requires Initialize(w, signers, governance, settlement, token, serviceTreasury, nftPool, revenuePool, deployer,
                        deployedHere).Err?
    ensures match Initialize(w, signers, governance, settlement, token, serviceTreasury, nftPool, revenuePool, deployer,
                             deployedHere).error
            case AlreadyInitialized => w.escrow.governance.Some?
            case InvalidDeployment => !deployedHere
            case InvalidContributorPool =>
              nftPool == revenuePool || !AnswersFor(w, nftPool, token) || !AnswersFor(w, revenuePool, token)
            case Trap => || !({deployer, governance} <= signers)
                         || nftPool !in w.pools || w.pools[nftPool].governance.None?
                         || revenuePool !in w.pools || w.pools[revenuePool].governance.None?
            case _ => false
  {}

  lemma ClaimErrors(p: P.Pool, balance: int, now: nat, signers: set<Address>, id: nat, index: nat)
    requires P.Claim(p, balance, now, signers, id, index).Err?
    ensures var found := id in p.manifests;
            var open := found && index < p.manifests[id].allocationCount && (id, index) in p.allocations;
            match P.Claim(p, balance, now, signers, id, index).error
            case NotInitialized => p.governance.None?
            case Paused => p.paused
            case ManifestNotFound => !found
            case InvalidState => found && p.manifests[id].status != P.Active
            case ManifestExpired => found && now >= p.manifests[id].expiresAt
            case InvalidAllocation => !open
            case AlreadyClaimed => open && p.allocations[(id, index)].claimed
            case Trap => open && p.allocations[(id, index)].recipient !in signers
            case Deficit => open && (|| p.totalLiability < p.allocations[(id, index)].amount
                                     || balance < p.totalLiability
                                     || p.totalPaid + p.allocations[(id, index)].amount > I128_MAX)
            case _ => false
  {}

  lemma PublishErrors(p: P.Pool, balance: int, now: nat, signers: set<Address>, id: nat, expiresAt: nat,
                      recipients: seq<Address>, amounts: seq<int>)
    requires P.Publish(p, balance, now, signers, id, expiresAt, recipients, amounts).Err?
    ensures var free := p.totalCredited - p.totalPaid - p.totalLiability;
            match P.Publish(p, balance, now, signers, id, expiresAt, recipients, amounts).error
            case NotInitialized => p.governance.None?
            case Paused => p.paused
            case Trap => p.governance.Some? && (p.governance.value !in signers || p.eligibility !in signers)
            case InvalidManifest => || |recipients| == 0 || |recipients| != |amounts| || |recipients| > 64
                                    || expiresAt - now > 30 * 24 * 3600
            case ManifestExpired => expiresAt <= now
            case ManifestAlreadyExists => id in p.manifests || id <= p.latestManifestId
            case InvalidAllocation => || (exists i :: 0 <= i < |amounts| && amounts[i] <= 0)
                                      || (exists i, j :: 0 <= i < j < |recipients| && recipients[i] == recipients[j])
                                      || P.Sum(amounts) > I128_MAX || p.totalLiability + P.Sum(amounts) > I128_MAX
            case Deficit => free < 0 || balance < p.totalCredited - p.totalPaid
            case InsufficientAvailableBalance => P.Sum(amounts) > free
            case _ => false
  {
    hide P.Sum;
  }

  lemma ExpireErrors(p: P.Pool, now: nat, id: nat)
    requires P.Expire(p, now, id).Err?
    ensures var found := id in p.manifests;
            match P.Expire(p, now, id).error
            case NotInitialized => p.governance.None?
            case ManifestNotFound => !found
            case InvalidState => found && p.manifests[id].status != P.Active
            case NotExpired => found && now < p.manifests[id].expiresAt
            case Deficit => found && p.totalLiability < p.manifests[id].remainingAmount
            case _ => false
  {}

  lemma CreditErrors(p: P.Pool, balance: int, authorized: bool, campaign: nat, amount: int)
    requires P.RecordCredit(p, balance, authorized, campaign, amount).Err?
    ensures match P.RecordCredit(p, balance, authorized, campaign, amount).error
            case NotInitialized => p.governance.None?
            case InvalidAllocation => amount <= 0 || p.totalCredited + amount > I128_MAX
            case Trap => !authorized
            case CampaignAlreadyCredited => campaign in p.credited
            case Deficit => p.totalCredited + amount - p.totalPaid > balance
            case _ => false
  {}
}
