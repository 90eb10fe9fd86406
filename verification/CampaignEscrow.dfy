/** The campaign escrow as a contract: entry points that update its storage and call the token and the pools. */
module CampaignEscrowObject {
  import opened Basics
  import opened TokenLedger
  import opened EscrowContract
  import O = ContributorPoolObject
  import P = PoolContract

  /** A call that succeeds leaves the specified world, a call that fails leaves the world it found. */
  ghost predicate Follows(spec: Outcome, before: World, r: Check<EscrowError>, after: World) {
    match spec
    case Ok(w) => r == Pass && after == w
    case Err(e) => r == Fail(e) && after == before
  }

  /** As `Follows`, but a failure may leave behind what the host undoes afterwards. */
  ghost predicate Reaches(spec: Outcome, r: Check<EscrowError>, after: World) {
    match spec
    case Ok(w) => r == Pass && after == w
    case Err(e) => r == Fail(e)
  }

  class CampaignEscrow {
    const self: Address
    const tokens: O.Tokens
    const pools: map<Address, O.ContributorPool>

    var governance: Option<Address>
    var pendingGovernance: Option<Address>
    var settlement: Address
    var pendingSettlement: Option<Address>
    var token: Address
    var serviceTreasury: Address
    var nftPool: Address
    var revenuePool: Address
    var paused: bool
    var totalLiability: int
    var campaigns: map<nat, Campaign>
    var consumed: set<(nat, nat)>
    var payouts: seq<Payout>

    /** Pools are distinct objects at distinct addresses, and use the same token contracts. */
    ghost predicate Valid() {
      self !in pools && forall a :: a in pools ==> pools[a].self == a && pools[a].tokens == tokens
    }

    function State(): Escrow
      reads this
    {
      Escrow(governance, pendingGovernance, settlement, pendingSettlement, token, serviceTreasury, nftPool,
             revenuePool, paused, totalLiability, campaigns, consumed)
    }

    function PoolStates(): map<Address, P.Pool>
      reads pools.Values
    {
      map a | a in pools :: pools[a].View()
    }

    function View(now: nat): World
      reads this, tokens, pools.Values
    {
      World(self, State(), PoolStates(), tokens.ledger, payouts, now)
    }

    constructor (self: Address, tokens: O.Tokens, pools: map<Address, O.ContributorPool>)
      requires self !in pools && forall a :: a in pools ==> pools[a].self == a && pools[a].tokens == tokens
      ensures Valid() && this.self == self && this.tokens == tokens && this.pools == pools
      ensures State() == Undeployed() && payouts == []
    {
      this.self := self;
      this.tokens := tokens;
      this.pools := pools;
      governance := None;
      pendingGovernance := None;
      settlement := NOBODY;
      pendingSettlement := None;
      token := NOBODY;
      serviceTreasury := NOBODY;
      nftPool := NOBODY;
      revenuePool := NOBODY;
      paused := false;
      totalLiability := 0;
      campaigns := map[];
      consumed := {};
      payouts := [];
    }

    // ---------- what the host does when a call fails ----------

    method RestoreState(saved: Escrow)
      modifies this
      ensures State() == saved && payouts == old(payouts)
    {
      governance := saved.governance;
      pendingGovernance := saved.pendingGovernance;
      settlement := saved.settlement;
      pendingSettlement := saved.pendingSettlement;
      token := saved.token;
      serviceTreasury := saved.serviceTreasury;
      nftPool := saved.nftPool;
      revenuePool := saved.revenuePool;
      paused := saved.paused;
      totalLiability := saved.totalLiability;
      campaigns := saved.campaigns;
      consumed := saved.consumed;
    }

    method RestorePools(saved: map<Address, P.Pool>)
      requires Valid() && saved.Keys == pools.Keys
      modifies pools.Values
      ensures PoolStates() == saved
    {
      var rest := pools.Keys;
      while rest != {}
        invariant rest <= pools.Keys
        invariant forall a :: a in pools && a !in rest ==> pools[a].View() == saved[a]
        decreases rest
      {
        var a :| a in rest;
        pools[a].RollBack(saved[a]);
        rest := rest - {a};
      }
    }

    method RollBack(saved: World)
      requires Valid() && saved.self == self && saved.pools.Keys == pools.Keys
      modifies this, tokens, pools.Values
      ensures View(saved.now) == saved
    {
      payouts := saved.payouts;
      tokens.ledger := saved.ledger;
      RestoreState(saved.escrow);
      hide CampaignEscrow.State;
      RestorePools(saved.pools);
    }

    // ---------- entry points ----------

    /** The cross-checks of set-up: both pools answer that they belong to this escrow and use its token. */
    method CheckPools(token: Address, nftPool: Address, revenuePool: Address) returns (r: Check<EscrowError>)
      requires Valid()
      ensures forall now :: r == PoolsAnswer(View(now), token, nftPool, revenuePool)
    {
      if nftPool == revenuePool { return Fail(InvalidContributorPool); }
      if nftPool !in pools || pools[nftPool].governance.None? { return Fail(Trap); }
      if pools[nftPool].escrow != self { return Fail(InvalidContributorPool); }
      if revenuePool !in pools || pools[revenuePool].governance.None? { return Fail(Trap); }
      if pools[revenuePool].escrow != self { return Fail(InvalidContributorPool); }
      if pools[nftPool].token != token { return Fail(InvalidContributorPool); }
      if pools[revenuePool].token != token { return Fail(InvalidContributorPool); }
      r := Pass;
    }

    method Configure(governance: Address, settlement: Address, token: Address, serviceTreasury: Address,
                     nftPool: Address, revenuePool: Address)
      modifies this
      ensures payouts == old(payouts)
      ensures State() == old(State()).(governance := Some(governance), settlement := settlement, token := token,
                                       serviceTreasury := serviceTreasury, nftPool := nftPool,
                                       revenuePool := revenuePool, paused := false, totalLiability := 0)
    {
      this.governance := Some(governance);
      this.settlement := settlement;
      this.token := token;
      this.serviceTreasury := serviceTreasury;
      this.nftPool := nftPool;
      this.revenuePool := revenuePool;
      paused := false;
      totalLiability := 0;
    }

    method Initialize(now: nat, signers: set<Address>, governance: Address, settlement: Address, token: Address,
                      serviceTreasury: Address, nftPool: Address, revenuePool: Address, deployer: Address,
                      deployedHere: bool) returns (r: Check<EscrowError>)
      requires Valid()
      modifies this
      ensures Follows(EscrowContract.Initialize(old(View(now)), signers, governance, settlement, token,
                                                serviceTreasury, nftPool, revenuePool, deployer, deployedHere),
                      old(View(now)), r, View(now))
    {
      hide PoolsAnswer;
      if this.governance.Some? { return Fail(AlreadyInitialized); }
      if !deployedHere { return Fail(InvalidDeployment); }
      if deployer !in signers { return Fail(Trap); }
      var answer := CheckPools(token, nftPool, revenuePool);
      assert answer == PoolsAnswer(View(now), token, nftPool, revenuePool);
      if answer.Fail? { return answer; }
      if governance != deployer && governance !in signers { return Fail(Trap); }
      Configure(governance, settlement, token, serviceTreasury, nftPool, revenuePool);
      r := Pass;
    }

    method Fund(now: nat, signers: set<Address>, id: nat, sponsor: Address, amount: int)
      returns (r: Check<EscrowError>)
      requires Valid()
      modifies this, tokens
      ensures Follows(EscrowContract.Fund(old(View(now)), signers, id, sponsor, amount), old(View(now)), r, View(now))
    {
      hide TokenLedger.Transfer, CampaignEscrow.PoolStates;
      if governance.None? { return Fail(NotInitialized); }
      if amount < MINIMUM_CAMPAIGN_AMOUNT || amount > I128_MAX / DENOM { return Fail(InvalidAmount); }
      if paused { return Fail(Paused); }
      if id in campaigns { return Fail(CampaignAlreadyExists); }
      if sponsor !in signers { return Fail(Trap); }
      var savedLedger := tokens.ledger;
      var ok := tokens.Transfer(token, sponsor, self, amount);
      if !ok { return Fail(Trap); }
      var liability := totalLiability;
      if liability + amount > I128_MAX || now + EXPIRY > U64_MAX {
        tokens.ledger := savedLedger;
        return Fail(Trap);
      }
      totalLiability := liability + amount;
      campaigns := campaigns[id := Campaign(sponsor, amount, self, None, [], now, now + EXPIRY, 0, Funded)];
      r := Pass;
    }

    method Activate(now: nat, signers: set<Address>, id: nat, creator: Address, referrer: Option<Address>,
                    terms: seq<nat>) returns (r: Check<EscrowError>)
      requires Valid()
      modifies this
      ensures Follows(EscrowContract.Activate(old(View(now)), signers, id, creator, referrer, terms),
                      old(View(now)), r, View(now))
    {
      if governance.None? { return Fail(NotInitialized); }
      if paused { return Fail(Paused); }
      if terms == [] { return Fail(EmptyTerms); }
      if referrer.None? { return Fail(ReferrerRequired); }
      if id !in campaigns { return Fail(CampaignNotFound); }
      var c := campaigns[id];
      if c.status != Funded { return Fail(InvalidState); }
      if c.sponsor !in signers { return Fail(Trap); }
      c := c.(creator := creator, referrer := referrer, terms := terms, status := Active, version := 1);
      campaigns := campaigns[id := c];
      r := Pass;
    }

    method Pay(now: nat, id: nat, to: Address, amount: int) returns (r: Check<EscrowError>)
      requires Valid()
      modifies this`payouts, tokens
      ensures Follows(EscrowContract.Pay(old(View(now)), id, to, amount), old(View(now)), r, View(now))
    {
      hide TokenLedger.Transfer;
      var ok := tokens.Transfer(token, self, to, amount);
      if !ok { return Fail(Trap); }
      payouts := payouts + [Payout(Settling(id), to, amount)];
      r := Pass;
    }

    method Credit(now: nat, pool: Address, id: nat, amount: int) returns (r: Check<EscrowError>)
      requires Valid()
      modifies pools.Values
      ensures Reaches(EscrowContract.Credit(old(View(now)), pool, id, amount), r, View(now))
    {
      hide P.RecordCredit, TokenLedger.Balance;
      if pool !in pools { return Fail(Trap); }
      var credited := pools[pool].RecordCredit(pools[pool].escrow == self, id, amount);
      if credited.Fail? { return Fail(Trap); }
      assert PoolStates() == old(PoolStates())[pool := pools[pool].View()];
      r := Pass;
    }

    /** The checks of a settlement and the writes that come before its payments. */
    method Settle(now: nat, signers: set<Address>, id: nat, version: nat) returns (r: Check<EscrowError>)
      requires Valid()
      modifies this`campaigns, this`consumed, this`totalLiability
      ensures Reaches(EscrowContract.Settle(old(View(now)), signers, id, version), r, View(now))
    {
      hide Balance, CampaignEscrow.PoolStates;
      if governance.None? { return Fail(NotInitialized); }
      if paused { return Fail(Paused); }
      if settlement !in signers { return Fail(Trap); }
      if id !in campaigns { return Fail(CampaignNotFound); }
      var c := campaigns[id];
      if c.status != Active { return Fail(InvalidState); }
      if version != c.version { return Fail(WrongVersion); }
      if now >= c.expiresAt { return Fail(Expired); }
      if (id, version) in consumed { return Fail(WrongVersion); }
      c := c.(status := Completed);
      campaigns := campaigns[id := c];
      consumed := consumed + {(id, version)};
      var liability := totalLiability;
      if liability < c.amount || Balance(tokens.ledger, token, self) < liability { return Fail(Deficit); }
      totalLiability := liability - c.amount;
      if c.amount * SERVICE > I128_MAX || c.amount * NFT_POOL > I128_MAX || c.amount * REVENUE > I128_MAX
         || c.amount * REFERRER > I128_MAX
      {
        return Fail(InvalidAmount);
      }
      if c.referrer.None? { return Fail(ReferrerRequired); }
      r := Pass;
    }

    method Distribute(now: nat, id: nat) returns (r: Check<EscrowError>)
      requires Valid() && id in campaigns && campaigns[id].referrer.Some?
      modifies this`payouts, tokens, pools.Values
      ensures Reaches(EscrowContract.Distribute(old(View(now)), id), r, View(now))
    {
      hide EscrowContract.Pay, EscrowContract.Credit, Share, CreatorShare;
      var c := campaigns[id];
      var service := Share(c.amount, SERVICE);
      var nft := Share(c.amount, NFT_POOL);
      var revenue := Share(c.amount, REVENUE);
      var referrer := Share(c.amount, REFERRER);
      r := Pay(now, id, c.creator, CreatorShare(c.amount));
      if r.Fail? { return; }
      r := Pay(now, id, serviceTreasury, service);
      if r.Fail? { return; }
      r := Pay(now, id, nftPool, nft);
      if r.Fail? { return; }
      r := Credit(now, nftPool, id, nft);
      if r.Fail? { return; }
      r := Pay(now, id, revenuePool, revenue);
      if r.Fail? { return; }
      r := Credit(now, revenuePool, id, revenue);
      if r.Fail? { return; }
      r := Pay(now, id, c.referrer.value, referrer);
    }

    /** Writes before its last checks and before payments that can fail: any failure is undone. */
    method Complete(now: nat, signers: set<Address>, id: nat, version: nat) returns (r: Check<EscrowError>)
      requires Valid()
      modifies this, tokens, pools.Values
      ensures Follows(EscrowContract.Complete(old(View(now)), signers, id, version), old(View(now)), r, View(now))
    {
      hide EscrowContract.Distribute;
      var saved := View(now);
      r := Settle(now, signers, id, version);
      if r.Pass? {
        hide EscrowContract.Settle;
        r := Distribute(now, id);
      }
      if r.Fail? {
        RollBack(saved);
      }
    }

    method RefundExpired(now: nat, id: nat) returns (r: Check<EscrowError>)
      requires Valid()
      modifies this, tokens
      ensures Follows(EscrowContract.RefundExpired(old(View(now)), id), old(View(now)), r, View(now))
    {
      hide EscrowContract.Pay, Balance, CampaignEscrow.PoolStates;
      if governance.None? { return Fail(NotInitialized); }
      if id !in campaigns { return Fail(CampaignNotFound); }
      var c := campaigns[id];
      if c.status != Active && c.status != Funded { return Fail(InvalidState); }
      if now < c.expiresAt { return Fail(NotExpired); }
      c := c.(status := Refunded);
      var liability := totalLiability;
      if liability < c.amount || Balance(tokens.ledger, token, self) < liability { return Fail(Deficit); }
      var saved := State();
      totalLiability := liability - c.amount;
      campaigns := campaigns[id := c];
      r := Pay(now, id, c.sponsor, c.amount);
      if r.Fail? {
        RestoreState(saved);
      }
    }

    // ---------- roles and switches ----------

    method ProposeRole(now: nat, signers: set<Address>, role: P.Role, account: Address)
      returns (r: Check<EscrowError>)
      requires Valid()
      modifies this
      ensures Follows(EscrowContract.ProposeRole(old(View(now)), signers, role, account), old(View(now)), r, View(now))
    {
      if governance.None? { return Fail(NotInitialized); }
      if governance.value !in signers { return Fail(Trap); }
      if role == P.Governance {
        pendingGovernance := Some(account);
      } else {
        pendingSettlement := Some(account);
      }
      r := Pass;
    }

    method AcceptRole(now: nat, signers: set<Address>, role: P.Role) returns (r: Check<EscrowError>)
      requires Valid()
      modifies this
      ensures Follows(EscrowContract.AcceptRole(old(View(now)), signers, role), old(View(now)), r, View(now))
    {
      if governance.None? { return Fail(NotInitialized); }
      var next := if role == P.Governance then pendingGovernance else pendingSettlement;
      if next.None? { return Fail(NoPendingRole); }
      if next.value !in signers { return Fail(Trap); }
      if role == P.Governance {
        governance := next;
        pendingGovernance := None;
      } else {
        settlement := next.value;
        pendingSettlement := None;
      }
      r := Pass;
    }

    method SetPaused(now: nat, signers: set<Address>, paused: bool) returns (r: Check<EscrowError>)
      requires Valid()
      modifies this
      ensures Follows(EscrowContract.SetPaused(old(View(now)), signers, paused), old(View(now)), r, View(now))
    {
      if governance.None? { return Fail(NotInitialized); }
      if governance.value !in signers { return Fail(Trap); }
      this.paused := paused;
      r := Pass;
    }
  }
}
