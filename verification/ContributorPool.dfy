/** The contributor pool as a contract: entry points that read and overwrite its storage. */
module ContributorPoolObject {
  import opened Basics
  import opened TokenLedger
  import opened PoolContract

  /** The token contracts: one object holds the balances of all of them. */
  class Tokens {
    var ledger: Ledger

    constructor (initial: Ledger)
      ensures ledger == initial
    {
      ledger := initial;
    }

    /** The sender authorized this transfer. */
    method Transfer(token: Address, from: Address, to: Address, amount: int) returns (ok: bool)
      modifies this
      ensures ok == TokenLedger.Transfer(old(ledger), token, from, to, amount).Some?
      ensures ledger == if ok then TokenLedger.Transfer(old(ledger), token, from, to, amount).value else old(ledger)
    {
      var holdings := Holdings(ledger, token);
      if amount < 0 || Held(holdings, from) < amount {
        return false;
      }
      holdings := holdings[from := Held(holdings, from) - amount];
      var received := Held(holdings, to) + amount;
      if received > I128_MAX {
        return false;
      }
      ledger := ledger[token := holdings[to := received]];
      ok := true;
    }
  }

  /** A call that succeeds leaves the specified state, a call that fails leaves the state it found. */
  ghost predicate Follows(spec: Outcome, before: Pool, r: Check<PoolError>, after: Pool) {
    match spec
    case Ok(p) => r == Pass && after == p
    case Err(e) => r == Fail(e) && after == before
  }

  lemma SumPrefix(amounts: seq<int>, n: nat)
    requires n <= |amounts| && forall i :: 0 <= i < |amounts| ==> amounts[i] > 0
    ensures Sum(amounts[..n]) <= Sum(amounts)
    decreases |amounts| - n
  {
    if n < |amounts| {
      SumPrefix(amounts, n + 1);
      assert amounts[..n + 1][..n] == amounts[..n];
    } else {
      assert amounts[..n] == amounts;
    }
  }

  /** The validation loop of a manifest: every amount positive, no recipient twice, a sum that fits an i128. */
  method Validate(recipients: seq<Address>, amounts: seq<int>) returns (ok: bool, total: int)
    requires |recipients| == |amounts|
    ensures ok <==> ValidAllocations(recipients, amounts)
    ensures ok ==> total == Sum(amounts)
  {
    total := 0;
    for index := 0 to |recipients|
      invariant forall i :: 0 <= i < index ==> amounts[i] > 0
      invariant forall i, j :: 0 <= i < j < index ==> recipients[i] != recipients[j]
      invariant total == Sum(amounts[..index]) <= I128_MAX
    {
      var recipient, amount := recipients[index], amounts[index];
      if amount <= 0 {
        return false, total;
      }
      for prior := 0 to index
        invariant forall i :: 0 <= i < prior ==> recipients[i] != recipient
      {
        if recipients[prior] == recipient {
          return false, total;
        }
      }
      assert amounts[..index + 1][..index] == amounts[..index];
      if total + amount > I128_MAX {
        if forall i :: 0 <= i < |amounts| ==> amounts[i] > 0 {
          SumPrefix(amounts, index + 1);
        }
        return false, total;
      }
      total := total + amount;
    }
    assert amounts[..|amounts|] == amounts;
    ok := true;
  }

  datatype Payment = Payment(recipient: Address, amount: int)

  class ContributorPool {
    const self: Address
    const tokens: Tokens

    var governance: Option<Address>
    var pendingGovernance: Option<Address>
    var eligibility: Address
    var pendingEligibility: Option<Address>
    var token: Address
    var escrow: Address
    var paused: bool
    var totalLiability: int
    var totalCredited: int
    var totalPaid: int
    var latestManifestId: nat
    var credited: set<nat>
    var manifests: map<nat, Manifest>
    var allocations: map<(nat, nat), Allocation>

    function View(): Pool
      reads this
    {
      Pool(governance, pendingGovernance, eligibility, pendingEligibility, token, escrow, paused, totalLiability,
           totalCredited, totalPaid, latestManifestId, credited, manifests, allocations)
    }

    function Balance(): int
      reads this, tokens
    {
      TokenLedger.Balance(tokens.ledger, token, self)
    }

    constructor (self: Address, tokens: Tokens)
      ensures this.self == self && this.tokens == tokens && View() == Undeployed()
    {
      this.self := self;
      this.tokens := tokens;
      governance := None;
      pendingGovernance := None;
      eligibility := NOBODY;
      pendingEligibility := None;
      token := NOBODY;
      escrow := NOBODY;
      paused := false;
      totalLiability := 0;
      totalCredited := 0;
      totalPaid := 0;
      latestManifestId := 0;
      credited := {};
      manifests := map[];
      allocations := map[];
    }

    /** What the host does when a call fails. */
    method RollBack(saved: Pool)
      modifies this
      ensures View() == saved
    {
      governance := saved.governance;
      pendingGovernance := saved.pendingGovernance;
      eligibility := saved.eligibility;
      pendingEligibility := saved.pendingEligibility;
      token := saved.token;
      escrow := saved.escrow;
      paused := saved.paused;
      totalLiability := saved.totalLiability;
      totalCredited := saved.totalCredited;
      totalPaid := saved.totalPaid;
      latestManifestId := saved.latestManifestId;
      credited := saved.credited;
      manifests := saved.manifests;
      allocations := saved.allocations;
    }

    method Configure(governance: Address, eligibility: Address, token: Address, escrow: Address)
      modifies this
      ensures View() == old(View()).(governance := Some(governance), eligibility := eligibility, token := token,
                                     escrow := escrow, paused := false, totalLiability := 0, totalCredited := 0,
                                     totalPaid := 0, latestManifestId := 0)
    {
      this.governance := Some(governance);
      this.eligibility := eligibility;
      this.token := token;
      this.escrow := escrow;
      paused := false;
      totalLiability := 0;
      totalCredited := 0;
      totalPaid := 0;
      latestManifestId := 0;
    }

    method Initialize(signers: set<Address>, governance: Address, eligibility: Address, token: Address,
                      escrow: Address, deployer: Address, deployedHere: bool) returns (r: Check<PoolError>)
      modifies this
      ensures Follows(PoolContract.Initialize(old(View()), signers, governance, eligibility, token, escrow, deployer,
                                              deployedHere), old(View()), r, View())
    {
      if this.governance.Some? { return Fail(AlreadyInitialized); }
      if !deployedHere { return Fail(InvalidDeployment); }
      if deployer !in signers { return Fail(Trap); }
      if governance == eligibility { return Fail(RolesMustDiffer); }
      if governance != deployer && governance !in signers { return Fail(Trap); }
      if eligibility != deployer && eligibility !in signers { return Fail(Trap); }
      Configure(governance, eligibility, token, escrow);
      r := Pass;
    }

    method RecordCredit(authorized: bool, campaign: nat, amount: int) returns (r: Check<PoolError>)
      modifies this
      ensures Follows(PoolContract.RecordCredit(old(View()), old(Balance()), authorized, campaign, amount),
                      old(View()), r, View())
    {
      if governance.None? { return Fail(NotInitialized); }
      if amount <= 0 { return Fail(InvalidAllocation); }
      if !authorized { return Fail(Trap); }
      if campaign in credited { return Fail(CampaignAlreadyCredited); }
      var nextCredited := totalCredited + amount;
      if nextCredited > I128_MAX { return Fail(InvalidAllocation); }
      var outstanding := nextCredited - totalPaid;
      if Balance() < outstanding { return Fail(Deficit); }
      credited := credited + {campaign};
      totalCredited := nextCredited;
      r := Pass;
    }

    method AvailableBalance() returns (r: Result<int, PoolError>)
      ensures r == PoolContract.AvailableBalance(View(), Balance())
    {
      if governance.None? { return Err(NotInitialized); }
      var outstanding := totalCredited - totalPaid;
      if outstanding < totalLiability || Balance() < outstanding { return Err(Deficit); }
      r := Ok(outstanding - totalLiability);
    }

    /** Stores one allocation per recipient. */
    method StoreAllocations(id: nat, recipients: seq<Address>, amounts: seq<int>)
      requires |recipients| == |amounts|
      modifies this`allocations
      ensures allocations
              == old(allocations)
                 + map k: (nat, nat) | k in set i | 0 <= i < |amounts| :: (id, i)
                     :: Allocation(if k.1 < |amounts| then recipients[k.1] else NOBODY,
                                   if k.1 < |amounts| then amounts[k.1] else 0, false)
    {
      ghost var was := allocations;
      for index := 0 to |recipients|
        invariant forall k :: k in allocations <==> k in was || (k.0 == id && k.1 < index)
        invariant forall k :: k in allocations ==>
                    allocations[k] == if k.0 == id && k.1 < index then Allocation(recipients[k.1], amounts[k.1], false)
                                      else was[k]
      {
        allocations := allocations[(id, index) := Allocation(recipients[index], amounts[index], false)];
      }
      var written := map k: (nat, nat) | k in set i | 0 <= i < |amounts| :: (id, i)
                       :: Allocation(if k.1 < |amounts| then recipients[k.1] else NOBODY,
                                     if k.1 < |amounts| then amounts[k.1] else 0, false);
      assert forall k: (nat, nat) :: k.0 == id && k.1 < |amounts| ==> k == (id, k.1) && k in written;
      assert allocations == was + written;
    }

    method PublishManifest(now: nat, signers: set<Address>, id: nat, expiresAt: nat, recipients: seq<Address>,
                           amounts: seq<int>) returns (r: Check<PoolError>)
      modifies this
      ensures Follows(Publish(old(View()), old(Balance()), now, signers, id, expiresAt, recipients, amounts),
                      old(View()), r, View())
    {
      if governance.None? { return Fail(NotInitialized); }
      if paused { return Fail(Paused); }
      if governance.value !in signers || eligibility !in signers { return Fail(Trap); }
      var count := |recipients|;
      if count == 0 || count != |amounts| || count > MAX_ALLOCATIONS { return Fail(InvalidManifest); }
      if expiresAt <= now { return Fail(ManifestExpired); }
      if expiresAt - now > MAX_CLAIM_WINDOW { return Fail(InvalidManifest); }
      if id in manifests { return Fail(ManifestAlreadyExists); }
      if id <= latestManifestId { return Fail(ManifestAlreadyExists); }
      var valid, total := Validate(recipients, amounts);
      if !valid { return Fail(InvalidAllocation); }
      var available := AvailableBalance();
      if available.Err? { return Fail(available.error); }
      if available.value < total { return Fail(InsufficientAvailableBalance); }
      var required := totalLiability + total;
      if required > I128_MAX { return Fail(InvalidAllocation); }
      StoreAllocations(id, recipients, amounts);
      manifests := manifests[id := Manifest(total, total, count, expiresAt, Active)];
      totalLiability := required;
      latestManifestId := id;
      r := Pass;
    }

    /**
      * The checks and the writes of a claim, before its transfer. The claim is written before the last check, so that
      * a failure there has to be undone.
      */
    method MarkClaimed(now: nat, signers: set<Address>, id: nat, index: nat) returns (r: Result<Payment, PoolError>)
      modifies this
      ensures match PoolContract.Claim(old(View()), old(Balance()), now, signers, id, index)
              case Err(e) => r == Err(e) && View() == old(View())
              case Ok(c) => r == Ok(Payment(c.recipient, c.amount)) && View() == c.pool
    {
      if governance.None? { return Err(NotInitialized); }
      if paused { return Err(Paused); }
      if id !in manifests { return Err(ManifestNotFound); }
      var manifest := manifests[id];
      if manifest.status != Active { return Err(InvalidState); }
      if now >= manifest.expiresAt { return Err(ManifestExpired); }
      if index >= manifest.allocationCount || (id, index) !in allocations { return Err(InvalidAllocation); }
      var allocation := allocations[(id, index)];
      if allocation.claimed { return Err(AlreadyClaimed); }
      if allocation.recipient !in signers { return Err(Trap); }
      var liability := totalLiability;
      if liability < allocation.amount || Balance() < liability { return Err(Deficit); }
      var saved := View();
      allocation := allocation.(claimed := true);
      manifest := manifest.(remainingAmount := manifest.remainingAmount - allocation.amount);
      if manifest.remainingAmount == 0 {
        manifest := manifest.(status := Completed);
      }
      allocations := allocations[(id, index) := allocation];
      manifests := manifests[id := manifest];
      totalLiability := liability - allocation.amount;
      if totalPaid + allocation.amount > I128_MAX {
        RollBack(saved);
        return Err(Deficit);
      }
      totalPaid := totalPaid + allocation.amount;
      r := Ok(Payment(allocation.recipient, allocation.amount));
    }

    method Claim(now: nat, signers: set<Address>, id: nat, index: nat) returns (r: Check<PoolError>)
      modifies this, tokens
      ensures match PoolContract.Claim(old(View()), old(Balance()), now, signers, id, index)
              case Err(e) => r == Fail(e) && View() == old(View()) && tokens.ledger == old(tokens.ledger)
              case Ok(c) =>
                match TokenLedger.Transfer(old(tokens.ledger), c.pool.token, self, c.recipient, c.amount)
                case None => r == Fail(Trap) && View() == old(View()) && tokens.ledger == old(tokens.ledger)
                case Some(ledger) => r == Pass && View() == c.pool && tokens.ledger == ledger
    {
      hide PoolContract.Claim, TokenLedger.Transfer, TokenLedger.Balance;
      var saved := View();
      var payment := MarkClaimed(now, signers, id, index);
      if payment.Err? { return Fail(payment.error); }
      var ok := tokens.Transfer(token, self, payment.value.recipient, payment.value.amount);
      if !ok {
        RollBack(saved);
        return Fail(Trap);
      }
      r := Pass;
    }

    method ExpireManifest(now: nat, id: nat) returns (r: Check<PoolError>)
      modifies this
      ensures Follows(Expire(old(View()), now, id), old(View()), r, View())
    {
      if governance.None? { return Fail(NotInitialized); }
      if id !in manifests { return Fail(ManifestNotFound); }
      var manifest := manifests[id];
      if manifest.status != Active { return Fail(InvalidState); }
      if now < manifest.expiresAt { return Fail(NotExpired); }
      var liability := totalLiability;
      if liability < manifest.remainingAmount { return Fail(Deficit); }
      var released := manifest.remainingAmount;
      manifest := manifest.(remainingAmount := 0, status := Expired);
      manifests := manifests[id := manifest];
      totalLiability := liability - released;
      r := Pass;
    }

    method ProposeRole(signers: set<Address>, role: Role, account: Address) returns (r: Check<PoolError>)
      modifies this
      ensures Follows(PoolContract.ProposeRole(old(View()), signers, role, account), old(View()), r, View())
    {
      if governance.None? { return Fail(NotInitialized); }
      if governance.value !in signers { return Fail(Trap); }
      if role == Governance {
        pendingGovernance := Some(account);
      } else {
        pendingEligibility := Some(account);
      }
      r := Pass;
    }

    method AcceptRole(signers: set<Address>, role: Role) returns (r: Check<PoolError>)
      modifies this
      ensures Follows(PoolContract.AcceptRole(old(View()), signers, role), old(View()), r, View())
    {
      if governance.None? { return Fail(NotInitialized); }
      var pending := if role == Governance then pendingGovernance else pendingEligibility;
      if pending.None? { return Fail(NoPendingRole); }
      var account := pending.value;
      if account !in signers { return Fail(Trap); }
      var otherRole := if role == Governance then eligibility else governance.value;
      if account == otherRole { return Fail(RolesMustDiffer); }
      if role == Governance {
        governance := Some(account);
        pendingGovernance := None;
      } else {
        eligibility := account;
        pendingEligibility := None;
      }
      r := Pass;
    }

    method SetPaused(signers: set<Address>, paused: bool) returns (r: Check<PoolError>)
      modifies this
      ensures Follows(PoolContract.SetPaused(old(View()), signers, paused), old(View()), r, View())
    {
      if governance.None? { return Fail(NotInitialized); }
      if governance.value !in signers { return Fail(Trap); }
      this.paused := paused;
      r := Pass;
    }
  }
}
