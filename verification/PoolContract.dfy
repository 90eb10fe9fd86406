/** The contributor pool contract on values. An error means that the whole call is undone. */
module PoolContract {
  import opened Basics
  import opened Sums

  const MAX_ALLOCATIONS: nat := 64
  const MAX_CLAIM_WINDOW: nat := 30 * 86_400

  datatype ManifestStatus = Active | Completed | Expired

  datatype Manifest = Manifest(
    totalAmount: int,
    remainingAmount: int,
    allocationCount: nat,
    expiresAt: nat,
    status: ManifestStatus)

  datatype Allocation = Allocation(recipient: Address, amount: int, claimed: bool)

  /** `Trap`: the host stops the call, here for a missing authorization. */
  datatype PoolError =
    | AlreadyInitialized | NotInitialized | ManifestAlreadyExists | ManifestNotFound | InvalidManifest
    | InvalidAllocation | InvalidState | AlreadyClaimed | ManifestExpired | NotExpired
    | InsufficientAvailableBalance | Deficit | Paused | NoPendingRole | RolesMustDiffer
    | CampaignAlreadyCredited | InvalidDeployment | Trap

  /** The contract is initialized once it has a governance address. */
  datatype Pool = Pool(
    governance: Option<Address>,
    pendingGovernance: Option<Address>,
    eligibility: Address,
    pendingEligibility: Option<Address>,
    token: Address,
    escrow: Address,
    paused: bool,
    totalLiability: int,
    totalCredited: int,
    totalPaid: int,
    latestManifestId: nat,
    credited: set<nat>,
    manifests: map<nat, Manifest>,
    allocations: map<(nat, nat), Allocation>)

  type Outcome = Result<Pool, PoolError>

  const NOBODY: Address := Account(0)

  function Undeployed(): Pool {
    Pool(None, None, NOBODY, None, NOBODY, NOBODY, false, 0, 0, 0, 0, {}, map[], map[])
  }

  function Initialize(p: Pool, signers: set<Address>, governance: Address, eligibility: Address, token: Address,
                      escrow: Address, deployer: Address, deployedHere: bool): Outcome
  {
    if p.governance.Some? then Err(AlreadyInitialized) else
    :- Need(deployedHere, InvalidDeployment);
    :- Need(deployer in signers, Trap);
    :- Need(governance != eligibility, RolesMustDiffer);
    :- Need((governance != deployer ==> governance in signers) && (eligibility != deployer ==> eligibility in signers),
            Trap);
    Ok(p.(governance := Some(governance), eligibility := eligibility, token := token, escrow := escrow,
          paused := false, totalLiability := 0, totalCredited := 0, totalPaid := 0, latestManifestId := 0))
  }

  /** `authorized`: the configured escrow signed, or is the contract that calls. */
  function RecordCredit(p: Pool, balance: int, authorized: bool, campaign: nat, amount: int): Outcome {
    if p.governance.None? then Err(NotInitialized) else
    :- Need(amount > 0, InvalidAllocation);
    :- Need(authorized, Trap);
    :- Need(campaign !in p.credited, CampaignAlreadyCredited);
    :- Need(p.totalCredited + amount <= I128_MAX, InvalidAllocation);
    :- Need(p.totalCredited + amount - p.totalPaid <= balance, Deficit);
    Ok(p.(credited := p.credited + {campaign}, totalCredited := p.totalCredited + amount))
  }

  function AvailableBalance(p: Pool, balance: int): Result<int, PoolError> {
    if p.governance.None? then Err(NotInitialized) else
    var outstanding := p.totalCredited - p.totalPaid;
    :- Need(outstanding >= p.totalLiability && balance >= outstanding, Deficit);
    Ok(outstanding - p.totalLiability)
  }

  function Sum(amounts: seq<int>): int {
    if amounts == [] then 0 else Sum(amounts[..|amounts| - 1]) + amounts[|amounts| - 1]
  }

  predicate ValidAllocations(recipients: seq<Address>, amounts: seq<int>) {
    && |recipients| == |amounts|
    && (forall i :: 0 <= i < |amounts| ==> amounts[i] > 0)
    && (forall i, j :: 0 <= i < j < |recipients| ==> recipients[i] != recipients[j])
    && Sum(amounts) <= I128_MAX
  }

  function Publish(p: Pool, balance: int, now: nat, signers: set<Address>, id: nat, expiresAt: nat,
                   recipients: seq<Address>, amounts: seq<int>): Outcome
  {
    if p.governance.None? then Err(NotInitialized) else
    :- Need(!p.paused, Paused);
    :- Need(p.governance.value in signers && p.eligibility in signers, Trap);
    :- Need(|recipients| != 0 && |recipients| == |amounts| && |recipients| <= MAX_ALLOCATIONS, InvalidManifest);
    :- Need(expiresAt > now, ManifestExpired);
    :- Need(expiresAt - now <= MAX_CLAIM_WINDOW, InvalidManifest);
    :- Need(id !in p.manifests && id > p.latestManifestId, ManifestAlreadyExists);
    :- Need(ValidAllocations(recipients, amounts), InvalidAllocation);
    var total := Sum(amounts);
    var available :- AvailableBalance(p, balance);
    :- Need(available >= total, InsufficientAvailableBalance);
    :- Need(p.totalLiability + total <= I128_MAX, InvalidAllocation);
    Ok(p.(allocations := p.allocations
                         + map k: (nat, nat) | k in set i | 0 <= i < |amounts| :: (id, i)
                             :: Allocation(if k.1 < |amounts| then recipients[k.1] else NOBODY,
                                           if k.1 < |amounts| then amounts[k.1] else 0, false),
          manifests := p.manifests[id := Manifest(total, total, |recipients|, expiresAt, Active)],
          totalLiability := p.totalLiability + total,
          latestManifestId := id))
  }

  datatype Claimed = Claimed(pool: Pool, recipient: Address, amount: int)

  function Claim(p: Pool, balance: int, now: nat, signers: set<Address>, id: nat, index: nat)
    : Result<Claimed, PoolError>
  {
    if p.governance.None? then Err(NotInitialized) else
    :- Need(!p.paused, Paused);
    :- Need(id in p.manifests, ManifestNotFound);
    var m := p.manifests[id];
    :- Need(m.status == Active, InvalidState);
    :- Need(now < m.expiresAt, ManifestExpired);
    :- Need(index < m.allocationCount && (id, index) in p.allocations, InvalidAllocation);
    var a := p.allocations[(id, index)];
    :- Need(!a.claimed, AlreadyClaimed);
    :- Need(a.recipient in signers, Trap);
    :- Need(p.totalLiability >= a.amount && balance >= p.totalLiability, Deficit);
    :- Need(p.totalPaid + a.amount <= I128_MAX, Deficit);
    var remaining := m.remainingAmount - a.amount;
    Ok(Claimed(
         p.(allocations := p.allocations[(id, index) := a.(claimed := true)],
            manifests := p.manifests[id := m.(remainingAmount := remaining,
                                              status := if remaining == 0 then Completed else Active)],
            totalLiability := p.totalLiability - a.amount,
            totalPaid := p.totalPaid + a.amount),
         a.recipient, a.amount))
  }

  function Expire(p: Pool, now: nat, id: nat): Outcome {
    if p.governance.None? then Err(NotInitialized) else
    :- Need(id in p.manifests, ManifestNotFound);
    var m := p.manifests[id];
    :- Need(m.status == Active, InvalidState);
    :- Need(now >= m.expiresAt, NotExpired);
    :- Need(p.totalLiability >= m.remainingAmount, Deficit);
    Ok(p.(manifests := p.manifests[id := m.(remainingAmount := 0, status := Expired)],
          totalLiability := p.totalLiability - m.remainingAmount))
  }

  datatype Role = Governance | Other

  function ProposeRole(p: Pool, signers: set<Address>, role: Role, account: Address): Outcome {
    if p.governance.None? then Err(NotInitialized) else
    :- Need(p.governance.value in signers, Trap);
    Ok(if role == Governance then p.(pendingGovernance := Some(account))
       else p.(pendingEligibility := Some(account)))
  }

  function AcceptRole(p: Pool, signers: set<Address>, role: Role): Outcome {
    if p.governance.None? then Err(NotInitialized) else
    var pending := if role == Governance then p.pendingGovernance else p.pendingEligibility;
    :- Need(pending.Some?, NoPendingRole);
    :- Need(pending.value in signers, Trap);
    :- Need(pending.value != (if role == Governance then p.eligibility else p.governance.value), RolesMustDiffer);
    Ok(if role == Governance then p.(governance := pending, pendingGovernance := None)
       else p.(eligibility := pending.value, pendingEligibility := None))
  }

  function SetPaused(p: Pool, signers: set<Address>, paused: bool): Outcome {
    if p.governance.None? then Err(NotInitialized) else
    :- Need(p.governance.value in signers, Trap);
    Ok(p.(paused := paused))
  }

  // ---------- the accounting invariant ----------

  /** What is left to claim of the first `n` allocations of a manifest. */
  function Unclaimed(allocations: map<(nat, nat), Allocation>, id: nat, n: nat): int {
    if n == 0 then 0
    else Unclaimed(allocations, id, n - 1)
         + if (id, n - 1) in allocations && !allocations[(id, n - 1)].claimed
           then allocations[(id, n - 1)].amount else 0
  }

  /** What was claimed of the first `n` allocations of a manifest. */
  function ClaimedOf(allocations: map<(nat, nat), Allocation>, id: nat, n: nat): int {
    if n == 0 then 0
    else ClaimedOf(allocations, id, n - 1)
         + if (id, n - 1) in allocations && allocations[(id, n - 1)].claimed
           then allocations[(id, n - 1)].amount else 0
  }

  ghost predicate ManifestFits(p: Pool, id: nat)
    requires id in p.manifests
  {
    var m := p.manifests[id];
    && id <= p.latestManifestId
    && (forall i :: 0 <= i < m.allocationCount ==>
          (id, i) in p.allocations && p.allocations[(id, i)].amount > 0)
    && (m.status == Active ==> m.remainingAmount == Unclaimed(p.allocations, id, m.allocationCount) > 0)
    && (m.status != Active ==> m.remainingAmount == 0)
  }

  ghost function Remaining(p: Pool): map<nat, int> {
    map id | id in p.manifests :: p.manifests[id].remainingAmount
  }

  ghost function Taken(p: Pool): map<nat, int> {
    map id | id in p.manifests :: ClaimedOf(p.allocations, id, p.manifests[id].allocationCount)
  }

  /** The books of an initialized pool, and that its balance covers them: it owes what is left of its manifests, and has
      paid exactly what was claimed of them. */
  ghost predicate Accounts(p: Pool, balance: int) {
    && (forall id :: id in p.manifests ==> ManifestFits(p, id))
    && (forall id: nat, i: nat :: (id, i) in p.allocations ==> id in p.manifests)
    && p.totalLiability == Total(Remaining(p)) && p.totalPaid == Total(Taken(p))
    && 0 <= p.totalPaid && 0 <= p.totalLiability
    && p.totalPaid + p.totalLiability <= p.totalCredited <= I128_MAX
    && balance >= p.totalCredited - p.totalPaid
    && (p.governance.Some? ==> p.governance.value != p.eligibility)
    && (p.governance.None? ==> p.totalCredited == 0 && p.credited == {} && p.manifests == map[])
  }

  lemma UndeployedAccounts()
    ensures Accounts(Undeployed(), 0)
  {
    assert Remaining(Undeployed()) == map[] && Taken(Undeployed()) == map[];
  }

  lemma {:induction false} UnclaimedSame(a: map<(nat, nat), Allocation>, b: map<(nat, nat), Allocation>, id: nat,
                                         n: nat)
    requires forall i :: 0 <= i < n ==>
               ((id, i) in a <==> (id, i) in b) && ((id, i) in a ==> a[(id, i)] == b[(id, i)])
    ensures Unclaimed(a, id, n) == Unclaimed(b, id, n) && ClaimedOf(a, id, n) == ClaimedOf(b, id, n)
    decreases n
  {
    if n > 0 {
      UnclaimedSame(a, b, id, n - 1);
    }
  }

  lemma {:induction false} UnclaimedCovers(a: map<(nat, nat), Allocation>, id: nat, n: nat)
    requires forall i :: 0 <= i < n && (id, i) in a ==> a[(id, i)].amount > 0
    ensures Unclaimed(a, id, n) >= 0
    ensures forall i :: 0 <= i < n && (id, i) in a && !a[(id, i)].claimed ==> a[(id, i)].amount <= Unclaimed(a, id, n)
    decreases n
  {
    if n > 0 {
      UnclaimedCovers(a, id, n - 1);
    }
  }

  lemma {:induction false} UnclaimedAfterClaim(a: map<(nat, nat), Allocation>, id: nat, n: nat, i: nat)
    requires i < n && (id, i) in a && !a[(id, i)].claimed
    ensures Unclaimed(a[(id, i) := a[(id, i)].(claimed := true)], id, n) == Unclaimed(a, id, n) - a[(id, i)].amount
    ensures ClaimedOf(a[(id, i) := a[(id, i)].(claimed := true)], id, n) == ClaimedOf(a, id, n) + a[(id, i)].amount
    decreases n
  {
    var b := a[(id, i) := a[(id, i)].(claimed := true)];
    if i == n - 1 {
      UnclaimedSame(a, b, id, n - 1);
    } else {
      UnclaimedAfterClaim(a, id, n - 1, i);
    }
  }

  lemma {:induction false} UnclaimedFresh(a: map<(nat, nat), Allocation>, id: nat, amounts: seq<int>)
    requires forall i :: 0 <= i < |amounts| ==>
               (id, i) in a && a[(id, i)].amount == amounts[i] && !a[(id, i)].claimed
    ensures Unclaimed(a, id, |amounts|) == Sum(amounts) && ClaimedOf(a, id, |amounts|) == 0
    decreases |amounts|
  {
    if amounts != [] {
      UnclaimedFresh(a, id, amounts[..|amounts| - 1]);
    }
  }

  lemma {:induction false} SumPositive(amounts: seq<int>)
    requires forall i :: 0 <= i < |amounts| ==> amounts[i] > 0
    ensures Sum(amounts) >= |amounts|
    decreases |amounts|
  {
    if amounts != [] {
      SumPositive(amounts[..|amounts| - 1]);
    }
  }

  /** Changing one manifest moves the sum of what remains by the change of that manifest. */
  lemma RemainingUpdate(p: Pool, q: Pool, id: nat)
    requires id in q.manifests && q.manifests == p.manifests[id := q.manifests[id]]
    ensures Total(Remaining(q)) == Total(Remaining(p)) + q.manifests[id].remainingAmount
                                   - (if id in p.manifests then p.manifests[id].remainingAmount else 0)
  {
    assert Remaining(q) == Remaining(p)[id := q.manifests[id].remainingAmount];
    TotalUpdate(Remaining(p), id, q.manifests[id].remainingAmount);
  }

  lemma TakenUpdate(p: Pool, q: Pool, id: nat)
    requires OnlyManifest(p, q, id)
    ensures Total(Taken(q)) == Total(Taken(p)) + ClaimedOf(q.allocations, id, q.manifests[id].allocationCount)
              - (if id in p.manifests then ClaimedOf(p.allocations, id, p.manifests[id].allocationCount) else 0)
  {
    var n := ClaimedOf(q.allocations, id, q.manifests[id].allocationCount);
    forall k | k in p.manifests && k != id ensures k in q.manifests && Taken(q)[k] == Taken(p)[k] {
      UnclaimedSame(p.allocations, q.allocations, k, p.manifests[k].allocationCount);
    }
    assert Taken(q) == Taken(p)[id := n];
    TotalUpdate(Taken(p), id, n);
  }

  /** A manifest never owes more than the pool does in all. */
  lemma ManifestWithinLiability(p: Pool, balance: int, id: nat)
    requires Accounts(p, balance) && id in p.manifests
    ensures 0 <= p.manifests[id].remainingAmount <= p.totalLiability
  {
    forall k | k in Remaining(p) ensures Remaining(p)[k] >= 0 {
      assert ManifestFits(p, k);
    }
    TotalCovers(Remaining(p));
    assert Remaining(p)[id] == p.manifests[id].remainingAmount;
  }

  /** The balance is never short of the books: publishing can only fail for lack of free credit. */
  lemma AvailableNeverDeficit(p: Pool, balance: int)
    requires Accounts(p, balance) && p.governance.Some?
    ensures AvailableBalance(p, balance) == Ok(p.totalCredited - p.totalPaid - p.totalLiability)
  {}

  ghost predicate OnlyManifest(p: Pool, q: Pool, id: nat) {
    && id in q.manifests && q.manifests == p.manifests[id := q.manifests[id]]
    && q.latestManifestId >= p.latestManifestId
    && (forall k: nat, i: nat :: k != id ==>
          ((k, i) in q.allocations <==> (k, i) in p.allocations)
          && ((k, i) in p.allocations ==> q.allocations[(k, i)] == p.allocations[(k, i)]))
  }

  /** A change of one manifest that is itself in order keeps every manifest in order, and liability their sum. */
  lemma OneManifestChanged(p: Pool, q: Pool, balance: int, id: nat)
    requires Accounts(p, balance) && OnlyManifest(p, q, id) && ManifestFits(q, id)
    requires q.totalLiability == p.totalLiability + q.manifests[id].remainingAmount
                                 - (if id in p.manifests then p.manifests[id].remainingAmount else 0)
    requires q.totalPaid == p.totalPaid + ClaimedOf(q.allocations, id, q.manifests[id].allocationCount)
                            - (if id in p.manifests
                               then ClaimedOf(p.allocations, id, p.manifests[id].allocationCount) else 0)
    ensures forall k :: k in q.manifests ==> ManifestFits(q, k)
    ensures 0 <= q.totalLiability == Total(Remaining(q)) && q.totalPaid == Total(Taken(q))
  {
    TakenUpdate(p, q, id);
    hide Taken;
    forall k | k in q.manifests && k != id ensures ManifestFits(q, k) {
      assert ManifestFits(p, k);
      UnclaimedSame(p.allocations, q.allocations, k, p.manifests[k].allocationCount);
    }
    RemainingUpdate(p, q, id);
    forall k | k in Remaining(q) ensures Remaining(q)[k] >= 0 {
      assert ManifestFits(q, k);
    }
    TotalCovers(Remaining(q));
  }

  /** What publishing writes: the manifest in full, its allocations open, and nothing of any other manifest. */
  lemma PublishWrites(p: Pool, balance: int, now: nat, signers: set<Address>, id: nat, expiresAt: nat,
                      recipients: seq<Address>, amounts: seq<int>)
    requires Publish(p, balance, now, signers, id, expiresAt, recipients, amounts).Ok?
    ensures var q := Publish(p, balance, now, signers, id, expiresAt, recipients, amounts).value;
            && id !in p.manifests && OnlyManifest(p, q, id)
            && q == p.(manifests := q.manifests, allocations := q.allocations, latestManifestId := id,
                       totalLiability := p.totalLiability + Sum(amounts))
            && q.manifests[id] == Manifest(Sum(amounts), Sum(amounts), |amounts|, expiresAt, Active)
            && (forall i :: 0 <= i < |amounts| ==>
                  (id, i) in q.allocations
                  && q.allocations[(id, i)] == Allocation(recipients[i], amounts[i], false))
  {}

  /**
    * Publishing succeeds exactly for both role holders together, with a valid list, in the claim window, under a new
    * highest id and within the credit that is still free; on consistent books neither a deficit nor an overflow of the
    * liability can stop it.
    */
  lemma PublishSucceedsExactly(p: Pool, balance: int, now: nat, signers: set<Address>, id: nat, expiresAt: nat,
                               recipients: seq<Address>, amounts: seq<int>)
    requires Accounts(p, balance)
    ensures var r := Publish(p, balance, now, signers, id, expiresAt, recipients, amounts);
            && (r.Ok? <==>
                  && p.governance.Some? && !p.paused && p.governance.value in signers && p.eligibility in signers
                  && 0 < |recipients| == |amounts| <= 64 && now < expiresAt <= now + 30 * 24 * 3600
                  && id > p.latestManifestId
                  && (forall i :: 0 <= i < |amounts| ==> amounts[i] > 0)
                  && (forall i, j :: 0 <= i < j < |recipients| ==> recipients[i] != recipients[j])
                  && Sum(amounts) <= p.totalCredited - p.totalPaid - p.totalLiability)
            && r != Err(Deficit)
  {
    if id in p.manifests {
      assert ManifestFits(p, id);
    }
    hide ManifestFits, Remaining, Taken;
  }

  /** Publishing writes no allocation that was there before. */
  lemma PublishedOpen(p: Pool, balance: int, now: nat, signers: set<Address>, id: nat, expiresAt: nat,
                      recipients: seq<Address>, amounts: seq<int>)
    requires Accounts(p, balance)
    requires Publish(p, balance, now, signers, id, expiresAt, recipients, amounts).Ok?
    ensures var q := Publish(p, balance, now, signers, id, expiresAt, recipients, amounts).value;
            && (forall i: nat :: (id, i) !in p.allocations)
            && (forall i: nat :: (id, i) in q.allocations ==> !q.allocations[(id, i)].claimed)
  {
    hide Remaining, Taken, ValidAllocations, AvailableBalance;
  }

  lemma PublishedFits(q: Pool, id: nat, recipients: seq<Address>, amounts: seq<int>)
    requires |recipients| == |amounts| > 0 && forall i :: 0 <= i < |amounts| ==> amounts[i] > 0
    requires id in q.manifests && id <= q.latestManifestId
    requires q.manifests[id].remainingAmount == Sum(amounts) && q.manifests[id].allocationCount == |amounts|
    requires q.manifests[id].status == Active
    requires forall i :: 0 <= i < |amounts| ==>
               (id, i) in q.allocations && q.allocations[(id, i)] == Allocation(recipients[i], amounts[i], false)
    ensures ManifestFits(q, id) && ClaimedOf(q.allocations, id, |amounts|) == 0
  {
    SumPositive(amounts);
    UnclaimedFresh(q.allocations, id, amounts);
  }

  lemma PublishKeeps(p: Pool, balance: int, now: nat, signers: set<Address>, id: nat, expiresAt: nat,
                     recipients: seq<Address>, amounts: seq<int>)
    requires Accounts(p, balance)
    requires Publish(p, balance, now, signers, id, expiresAt, recipients, amounts).Ok?
    ensures Accounts(Publish(p, balance, now, signers, id, expiresAt, recipients, amounts).value, balance)
  {
    var q := Publish(p, balance, now, signers, id, expiresAt, recipients, amounts).value;
    hide OnlyManifest, Remaining, Taken, ManifestFits, Sum, Unclaimed, ClaimedOf;
    PublishWrites(p, balance, now, signers, id, expiresAt, recipients, amounts);
    PublishedFits(q, id, recipients, amounts);
    OneManifestChanged(p, q, balance, id);
  }

  /** On consistent books a claim of an open allocation in time is paid: it never meets a deficit. */
  lemma ClaimSucceedsExactly(p: Pool, balance: int, now: nat, signers: set<Address>, id: nat, index: nat)
    requires Accounts(p, balance)
    ensures Claim(p, balance, now, signers, id, index).Ok? <==>
            && p.governance.Some? && !p.paused && id in p.manifests && p.manifests[id].status == Active
            && now < p.manifests[id].expiresAt && index < p.manifests[id].allocationCount
            && (id, index) in p.allocations && !p.allocations[(id, index)].claimed
            && p.allocations[(id, index)].recipient in signers
    ensures Claim(p, balance, now, signers, id, index) != Err(Deficit)
  {
    if id in p.manifests && p.manifests[id].status == Active {
      assert ManifestFits(p, id);
      ManifestWithinLiability(p, balance, id);
      UnclaimedCovers(p.allocations, id, p.manifests[id].allocationCount);
    }
  }

  lemma ClaimKeeps(p: Pool, balance: int, now: nat, signers: set<Address>, id: nat, index: nat)
    requires Accounts(p, balance) && Claim(p, balance, now, signers, id, index).Ok?
    ensures var c := Claim(p, balance, now, signers, id, index).value;
            && 0 < c.amount <= balance && c.recipient in signers
            && Accounts(c.pool, balance - c.amount)
  {
    hide Remaining, Taken, ClaimedOf, Unclaimed;
    var c := Claim(p, balance, now, signers, id, index).value;
    assert ManifestFits(p, id);
    ManifestWithinLiability(p, balance, id);
    UnclaimedCovers(p.allocations, id, p.manifests[id].allocationCount);
    UnclaimedAfterClaim(p.allocations, id, p.manifests[id].allocationCount, index);
    assert ManifestFits(c.pool, id);
    OneManifestChanged(p, c.pool, balance, id);
  }

  /** Anyone can release an overdue manifest: the only failures are the wrong state and the wrong time. */
  lemma ExpireSucceedsExactly(p: Pool, balance: int, now: nat, id: nat)
    requires Accounts(p, balance)
    ensures Expire(p, now, id).Ok? <==>
            p.governance.Some? && id in p.manifests && p.manifests[id].status == Active
            && now >= p.manifests[id].expiresAt
    ensures Expire(p, now, id) != Err(Deficit)
    ensures Expire(p, now, id).Ok? ==> Accounts(Expire(p, now, id).value, balance)
  {
    hide Remaining, Taken, ClaimedOf, Unclaimed;
    if id in p.manifests {
      ManifestWithinLiability(p, balance, id);
    }
    if Expire(p, now, id).Ok? {
      assert ManifestFits(p, id);
      assert ManifestFits(Expire(p, now, id).value, id);
      OneManifestChanged(p, Expire(p, now, id).value, balance, id);
    }
  }

  /** Changes to roles, switches and credits leave manifests and liability alone. */
  lemma ManifestsUntouched(p: Pool, q: Pool)
    requires q.manifests == p.manifests && q.allocations == p.allocations
    requires q.latestManifestId == p.latestManifestId || p.manifests == map[]
    ensures Remaining(q) == Remaining(p) && Taken(q) == Taken(p)
    ensures (forall id :: id in p.manifests ==> ManifestFits(p, id)) ==>
              forall id :: id in q.manifests ==> ManifestFits(q, id)
  {
    if forall id :: id in p.manifests ==> ManifestFits(p, id) {
      forall id | id in q.manifests ensures ManifestFits(q, id) {
        assert ManifestFits(p, id);
      }
    }
  }

  lemma CreditKeeps(p: Pool, balance: int, authorized: bool, campaign: nat, amount: int)
    requires Accounts(p, balance - amount) && amount >= 0
    ensures RecordCredit(p, balance, authorized, campaign, amount).Ok? <==>
            p.governance.Some? && amount > 0 && authorized && campaign !in p.credited
            && p.totalCredited + amount <= I128_MAX
    ensures RecordCredit(p, balance, authorized, campaign, amount).Ok? ==>
              Accounts(RecordCredit(p, balance, authorized, campaign, amount).value, balance)
  {
    if RecordCredit(p, balance, authorized, campaign, amount).Ok? {
      ManifestsUntouched(p, RecordCredit(p, balance, authorized, campaign, amount).value);
    }
  }
}
