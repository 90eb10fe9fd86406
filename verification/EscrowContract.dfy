/** The campaign escrow contract on values, with the contributor pools and the token ledger that it calls. */
module EscrowContract {
  import opened Basics
  import opened TokenLedger
  import P = PoolContract

  const EXPIRY: nat := 30 * 86_400
  const DENOM: int := 10_000
  const SERVICE: int := 1_000
  const NFT_POOL: int := 500
  const REVENUE: int := 200
  const REFERRER: int := 100
  const MINIMUM_CAMPAIGN_AMOUNT: int := 100

  datatype CampaignStatus = Funded | Active | Completed | Refunded

  datatype Campaign = Campaign(
    sponsor: Address,
    amount: int,
    creator: Address,
    referrer: Option<Address>,
    terms: seq<nat>,
    fundedAt: nat,
    expiresAt: nat,
    version: nat,
    status: CampaignStatus)
  {
    predicate Settled() {
      status == Completed || status == Refunded
    }
  }

  /** `Trap`: the host stops the call, for a missing authorization, an overflow or a failed call of another contract. */
  datatype EscrowError =
    | AlreadyInitialized | NotInitialized | CampaignAlreadyExists | CampaignNotFound | InvalidAmount
    | InvalidState | Paused | Expired | NotExpired | WrongVersion | EmptyTerms | NoPendingRole | Deficit
    | InvalidContributorPool | ReferrerRequired | InvalidDeployment | Trap

  /** The contract is initialized once it has a governance address. */
  datatype Escrow = Escrow(
    governance: Option<Address>,
    pendingGovernance: Option<Address>,
    settlement: Address,
    pendingSettlement: Option<Address>,
    token: Address,
    serviceTreasury: Address,
    nftPool: Address,
    revenuePool: Address,
    paused: bool,
    totalLiability: int,
    campaigns: map<nat, Campaign>,
    consumed: set<(nat, nat)>)

  /** Why a contract paid: it settled a campaign, or a recipient claimed an allocation of a manifest. */
  datatype Cause = Settling(campaign: nat) | Claiming(pool: Address, manifest: nat, index: nat)

  datatype Payout = Payout(cause: Cause, to: Address, amount: int)

  /** The escrow at `self`, the deployed pools, all token balances, what the contracts paid so far, and the time. */
  datatype World = World(
    self: Address,
    escrow: Escrow,
    pools: map<Address, P.Pool>,
    ledger: Ledger,
    payouts: seq<Payout>,
    now: nat)

  type Outcome = Result<World, EscrowError>

  const NOBODY: Address := P.NOBODY

  function Undeployed(): Escrow {
    Escrow(None, None, NOBODY, None, NOBODY, NOBODY, NOBODY, NOBODY, false, 0, map[], {})
  }

  function PoolBalance(w: World, pool: Address): int
    requires pool in w.pools
  {
    Balance(w.ledger, w.pools[pool].token, pool)
  }

  /** Asks a pool for its escrow; a pool that is not initialized has none to give. */
  function EscrowOf(w: World, pool: Address): Result<Address, EscrowError> {
    if pool !in w.pools || w.pools[pool].governance.None? then Err(Trap)
    else Ok(w.pools[pool].escrow)
  }

  function TokenOf(w: World, pool: Address): Result<Address, EscrowError> {
    if pool !in w.pools || w.pools[pool].governance.None? then Err(Trap)
    else Ok(w.pools[pool].token)
  }

  /** Both pools have to be set up for this escrow and for the same token. */
  function PoolsAnswer(w: World, token: Address, nftPool: Address, revenuePool: Address): Check<EscrowError> {
    if nftPool == revenuePool then Fail(InvalidContributorPool)
    else
      match EscrowOf(w, nftPool)
      case Err(e) => Fail(e)
      case Ok(nftEscrow) =>
        if nftEscrow != w.self then Fail(InvalidContributorPool)
        else
          match EscrowOf(w, revenuePool)
          case Err(e) => Fail(e)
          case Ok(revenueEscrow) =>
            if revenueEscrow != w.self then Fail(InvalidContributorPool)
            else if TokenOf(w, nftPool) != Ok(token) then Fail(InvalidContributorPool)
            else Need(TokenOf(w, revenuePool) == Ok(token), InvalidContributorPool)
  }

  function Initialize(w: World, signers: set<Address>, governance: Address, settlement: Address, token: Address,
                      serviceTreasury: Address, nftPool: Address, revenuePool: Address, deployer: Address,
                      deployedHere: bool): Outcome
  {
    if w.escrow.governance.Some? then Err(AlreadyInitialized) else
    :- Need(deployedHere, InvalidDeployment);
    :- Need(deployer in signers, Trap);
    :- PoolsAnswer(w, token, nftPool, revenuePool);
    :- Need(governance != deployer ==> governance in signers, Trap);
    Ok(w.(escrow := w.escrow.(governance := Some(governance), settlement := settlement, token := token,
                              serviceTreasury := serviceTreasury, nftPool := nftPool, revenuePool := revenuePool,
                              paused := false, totalLiability := 0)))
  }

  function Fund(w: World, signers: set<Address>, id: nat, sponsor: Address, amount: int): Outcome {
    if w.escrow.governance.None? then Err(NotInitialized) else
    :- Need(MINIMUM_CAMPAIGN_AMOUNT <= amount <= I128_MAX / DENOM, InvalidAmount);
    :- Need(!w.escrow.paused, Paused);
    :- Need(id !in w.escrow.campaigns, CampaignAlreadyExists);
    :- Need(sponsor in signers, Trap);
    var moved := Transfer(w.ledger, w.escrow.token, sponsor, w.self, amount);
    :- Need(moved.Some?, Trap);
    :- Need(w.escrow.totalLiability + amount <= I128_MAX, Trap);
    :- Need(w.now + EXPIRY <= U64_MAX, Trap);
    var c := Campaign(sponsor, amount, w.self, None, [], w.now, w.now + EXPIRY, 0, Funded);
    Ok(w.(ledger := moved.value,
          escrow := w.escrow.(totalLiability := w.escrow.totalLiability + amount,
                              campaigns := w.escrow.campaigns[id := c])))
  }

  function Activate(w: World, signers: set<Address>, id: nat, creator: Address, referrer: Option<Address>,
                    terms: seq<nat>): Outcome
  {
    if w.escrow.governance.None? then Err(NotInitialized) else
    :- Need(!w.escrow.paused, Paused);
    :- Need(terms != [], EmptyTerms);
    :- Need(referrer.Some?, ReferrerRequired);
    :- Need(id in w.escrow.campaigns, CampaignNotFound);
    var c := w.escrow.campaigns[id];
    :- Need(c.status == Funded, InvalidState);
    :- Need(c.sponsor in signers, Trap);
    var active := c.(creator := creator, referrer := referrer, terms := terms, status := Active, version := 1);
    Ok(w.(escrow := w.escrow.(campaigns := w.escrow.campaigns[id := active])))
  }

  /** A leg of a settlement: the rate in hundredths of a percent, rounded down. */
  function Share(total: int, rate: int): int {
    total * rate / DENOM
  }

  /** What is left for the creator. */
  function CreatorShare(total: int): int {
    total - Share(total, SERVICE) - Share(total, NFT_POOL) - Share(total, REVENUE) - Share(total, REFERRER)
  }

  function Pay(w: World, id: nat, to: Address, amount: int): Outcome {
    var moved := Transfer(w.ledger, w.escrow.token, w.self, to, amount);
    :- Need(moved.Some?, Trap);
    Ok(w.(ledger := moved.value, payouts := w.payouts + [Payout(Settling(id), to, amount)]))
  }

  /** The escrow calls a pool and authorizes that call; a pool accepts no other caller than its own escrow. */
  function Credit(w: World, pool: Address, id: nat, amount: int): Outcome {
    if pool !in w.pools then Err(Trap) else
    var credited := P.RecordCredit(w.pools[pool], PoolBalance(w, pool), w.pools[pool].escrow == w.self, id, amount);
    :- Need(credited.Ok?, Trap);
    Ok(w.(pools := w.pools[pool := credited.value]))
  }

  /** Everything `complete` checks and writes before it pays. */
  function Settle(w: World, signers: set<Address>, id: nat, version: nat): Outcome {
    if w.escrow.governance.None? then Err(NotInitialized) else
    :- Need(!w.escrow.paused, Paused);
    :- Need(w.escrow.settlement in signers, Trap);
    :- Need(id in w.escrow.campaigns, CampaignNotFound);
    var c := w.escrow.campaigns[id];
    :- Need(c.status == Active, InvalidState);
    :- Need(version == c.version, WrongVersion);
    :- Need(w.now < c.expiresAt, Expired);
    :- Need((id, version) !in w.escrow.consumed, WrongVersion);
    :- Need(w.escrow.totalLiability >= c.amount, Deficit);
    :- Need(Balance(w.ledger, w.escrow.token, w.self) >= w.escrow.totalLiability, Deficit);
    :- Need(c.amount * SERVICE <= I128_MAX && c.amount * NFT_POOL <= I128_MAX && c.amount * REVENUE <= I128_MAX
            && c.amount * REFERRER <= I128_MAX, InvalidAmount);
    :- Need(c.referrer.Some?, ReferrerRequired);
    Ok(w.(escrow := w.escrow.(campaigns := w.escrow.campaigns[id := c.(status := Completed)],
                              consumed := w.escrow.consumed + {(id, version)},
                              totalLiability := w.escrow.totalLiability - c.amount)))
  }

  function Distribute(w: World, id: nat): Outcome
    requires id in w.escrow.campaigns && w.escrow.campaigns[id].referrer.Some?
  {
    var c := w.escrow.campaigns[id];
    var w1 :- Pay(w, id, c.creator, CreatorShare(c.amount));
    var w2 :- Pay(w1, id, w.escrow.serviceTreasury, Share(c.amount, SERVICE));
    var w3 :- Pay(w2, id, w.escrow.nftPool, Share(c.amount, NFT_POOL));
    var w4 :- Credit(w3, w.escrow.nftPool, id, Share(c.amount, NFT_POOL));
    var w5 :- Pay(w4, id, w.escrow.revenuePool, Share(c.amount, REVENUE));
    var w6 :- Credit(w5, w.escrow.revenuePool, id, Share(c.amount, REVENUE));
    Pay(w6, id, c.referrer.value, Share(c.amount, REFERRER))
  }

  function Complete(w: World, signers: set<Address>, id: nat, version: nat): Outcome {
    var settled :- Settle(w, signers, id, version);
    Distribute(settled, id)
  }

  function RefundExpired(w: World, id: nat): Outcome {
    if w.escrow.governance.None? then Err(NotInitialized) else
    :- Need(id in w.escrow.campaigns, CampaignNotFound);
    var c := w.escrow.campaigns[id];
    :- Need(c.status == Active || c.status == Funded, InvalidState);
    :- Need(w.now >= c.expiresAt, NotExpired);
    :- Need(w.escrow.totalLiability >= c.amount, Deficit);
    :- Need(Balance(w.ledger, w.escrow.token, w.self) >= w.escrow.totalLiability, Deficit);
    Pay(w.(escrow := w.escrow.(totalLiability := w.escrow.totalLiability - c.amount,
                               campaigns := w.escrow.campaigns[id := c.(status := Refunded)])),
        id, c.sponsor, c.amount)
  }

  function ProposeRole(w: World, signers: set<Address>, role: P.Role, account: Address): Outcome {
    if w.escrow.governance.None? then Err(NotInitialized) else
    :- Need(w.escrow.governance.value in signers, Trap);
    Ok(w.(escrow := if role == P.Governance then w.escrow.(pendingGovernance := Some(account))
                    else w.escrow.(pendingSettlement := Some(account))))
  }

  function AcceptRole(w: World, signers: set<Address>, role: P.Role): Outcome {
    if w.escrow.governance.None? then Err(NotInitialized) else
    var pending := if role == P.Governance then w.escrow.pendingGovernance else w.escrow.pendingSettlement;
    :- Need(pending.Some?, NoPendingRole);
    :- Need(pending.value in signers, Trap);
    Ok(w.(escrow := if role == P.Governance then w.escrow.(governance := pending, pendingGovernance := None)
                    else w.escrow.(settlement := pending.value, pendingSettlement := None)))
  }

  function SetPaused(w: World, signers: set<Address>, paused: bool): Outcome {
    if w.escrow.governance.None? then Err(NotInitialized) else
    :- Need(w.escrow.governance.value in signers, Trap);
    Ok(w.(escrow := w.escrow.(paused := paused)))
  }
}
