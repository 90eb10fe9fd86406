/** The campaign contracts as one system: every call anyone can make, in any order. */
module Campaigns {
  import opened Basics
  import opened TokenLedger
  import opened EscrowContract
  import P = PoolContract

  datatype PoolCall =
    | InitializePool(governance: Address, eligibility: Address, token: Address, escrow: Address, deployer: Address,
                     deployedHere: bool)
    | RecordCredit(campaign: nat, amount: int)
    | Publish(id: nat, expiresAt: nat, recipients: seq<Address>, amounts: seq<int>)
    | Expire(id: nat)
    | ProposePoolRole(role: P.Role, account: Address)
    | AcceptPoolRole(role: P.Role)
    | SetPoolPaused(paused: bool)

  datatype Call =
    | InitializeEscrow(governance: Address, settlement: Address, token: Address, serviceTreasury: Address,
                       nftPool: Address, revenuePool: Address, deployer: Address, deployedHere: bool)
    | Fund(id: nat, sponsor: Address, amount: int)
    | Activate(id: nat, creator: Address, referrer: Option<Address>, terms: seq<nat>)
    | Complete(id: nat, version: nat)
    | RefundExpired(id: nat)
    | ProposeRole(role: P.Role, account: Address)
    | AcceptRole(role: P.Role)
    | SetPaused(paused: bool)
    | OnPool(pool: Address, poolCall: PoolCall)
    | Claim(pool: Address, id: nat, index: nat)
    | Move(token: Address, from: Address, to: Address, amount: int)
    | Wait(until: nat)

  datatype Failure = ByEscrow(escrowError: EscrowError) | ByPool(poolError: P.PoolError) | Refused

  /** The calls of a pool that pay nobody. */
  function ExecutePool(p: P.Pool, balance: int, now: nat, signers: set<Address>, call: PoolCall): P.Outcome {
    match call
    case InitializePool(g, e, token, escrow, deployer, here) =>
      P.Initialize(p, signers, g, e, token, escrow, deployer, here)
    case RecordCredit(campaign, amount) => P.RecordCredit(p, balance, p.escrow in signers, campaign, amount)
    case Publish(id, expiresAt, recipients, amounts) =>
      P.Publish(p, balance, now, signers, id, expiresAt, recipients, amounts)
    case Expire(id) => P.Expire(p, now, id)
    case ProposePoolRole(role, account) => P.ProposeRole(p, signers, role, account)
    case AcceptPoolRole(role) => P.AcceptRole(p, signers, role)
    case SetPoolPaused(paused) => P.SetPaused(p, signers, paused)
  }

  function ClaimFrom(w: World, signers: set<Address>, pool: Address, id: nat, index: nat): Result<World, Failure>
    requires pool in w.pools
  {
    match P.Claim(w.pools[pool], PoolBalance(w, pool), w.now, signers, id, index)
    case Err(e) => Err(ByPool(e))
    case Ok(c) =>
      var moved := Transfer(w.ledger, c.pool.token, pool, c.recipient, c.amount);
      :- Need(moved.Some?, Refused);
      Ok(w.(pools := w.pools[pool := c.pool], ledger := moved.value,
            payouts := w.payouts + [Payout(Claiming(pool, id, index), c.recipient, c.amount)]))
  }

  function Lift(r: Outcome): Result<World, Failure> {
    match r
    case Ok(w) => Ok(w)
    case Err(e) => Err(ByEscrow(e))
  }

  /** One call with the addresses that authorize it. */
  function Execute(w: World, signers: set<Address>, call: Call): Result<World, Failure> {
    match call
    case InitializeEscrow(g, s, token, treasury, nft, revenue, deployer, here) =>
      Lift(EscrowContract.Initialize(w, signers, g, s, token, treasury, nft, revenue, deployer, here))
    case Fund(id, sponsor, amount) => Lift(EscrowContract.Fund(w, signers, id, sponsor, amount))
    case Activate(id, creator, referrer, terms) =>
      Lift(EscrowContract.Activate(w, signers, id, creator, referrer, terms))
    case Complete(id, version) => Lift(EscrowContract.Complete(w, signers, id, version))
    case RefundExpired(id) => Lift(EscrowContract.RefundExpired(w, id))
    case ProposeRole(role, account) => Lift(EscrowContract.ProposeRole(w, signers, role, account))
    case AcceptRole(role) => Lift(EscrowContract.AcceptRole(w, signers, role))
    case SetPaused(paused) => Lift(EscrowContract.SetPaused(w, signers, paused))
    case OnPool(pool, poolCall) =>
      :- Need(pool in w.pools, Refused);
      (match ExecutePool(w.pools[pool], PoolBalance(w, pool), w.now, signers, poolCall)
       case Err(e) => Err(ByPool(e))
       case Ok(p) => Ok(w.(pools := w.pools[pool := p])))
    case Claim(pool, id, index) =>
      :- Need(pool in w.pools, Refused);
      ClaimFrom(w, signers, pool, id, index)
    case Move(token, from, to, amount) =>
      var moved := Transfer(w.ledger, token, from, to, amount);
      :- Need(from in signers && moved.Some?, Refused);
      Ok(w.(ledger := moved.value))
    case Wait(until) =>
      :- Need(w.now <= until <= U64_MAX, Refused);
      Ok(w.(now := until))
  }

  /** A call that fails is undone altogether. */
  function Step(w: World, signers: set<Address>, call: Call): World {
    match Execute(w, signers, call)
    case Ok(next) => next
    case Err(_) => w
  }

  datatype Signed = Signed(signers: set<Address>, call: Call)

  function Run(w: World, calls: seq<Signed>): World
    decreases |calls|
  {
    if calls == [] then w else Run(Step(w, calls[0].signers, calls[0].call), calls[1..])
  }

  /** Neither the escrow nor a pool ever authorizes a call on its own initiative. */
  ghost predicate Outside(w: World, signers: set<Address>) {
    w.self !in signers && forall pool :: pool in w.pools ==> pool !in signers
  }

  ghost predicate AllOutside(w: World, calls: seq<Signed>) {
    forall i :: 0 <= i < |calls| ==> Outside(w, calls[i].signers)
  }
}
