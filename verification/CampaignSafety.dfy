/** Safety of the campaign contracts over every run, and what it gives a sponsor and a recipient. */
module CampaignSafety {
  import opened Basics
  import opened Sums
  import opened TokenLedger
  import opened EscrowContract
  import opened Settlement
  import opened CampaignInvariants
  import opened EscrowSafety
  import opened Campaigns
  import P = PoolContract

  // ---------- the calls of a pool ----------

  lemma PlainCallKeepsBooks(p: P.Pool, balance: int, now: nat, signers: set<Address>, call: PoolCall, after: int)
    requires P.Accounts(p, balance) && ExecutePool(p, balance, now, signers, call).Ok?
    requires !call.Publish? && !call.Expire? && after >= 0 && (p.governance.Some? ==> after == balance)
    ensures P.Accounts(ExecutePool(p, balance, now, signers, call).value, after)
  {
    hide P.ManifestFits, P.Remaining, P.Taken, P.Publish, P.Expire;
    P.ManifestsUntouched(p, ExecutePool(p, balance, now, signers, call).value);
  }

  /** A call that pays nobody keeps the books, for any balance if it is the one that sets the pool up. */
  lemma PoolCallKeepsBooks(p: P.Pool, balance: int, now: nat, signers: set<Address>, call: PoolCall, after: int)
    requires P.Accounts(p, balance) && ExecutePool(p, balance, now, signers, call).Ok?
    requires after >= 0 && (p.governance.Some? ==> after == balance)
    ensures P.Accounts(ExecutePool(p, balance, now, signers, call).value, after)
  {
    if call.Publish? {
      hide P.Accounts, P.AvailableBalance, P.ValidAllocations;
      P.PublishKeeps(p, balance, now, signers, call.id, call.expiresAt, call.recipients, call.amounts);
    } else if call.Expire? {
      hide P.Accounts;
      P.ExpireSucceedsExactly(p, balance, now, call.id);
    } else {
      hide ExecutePool, P.Accounts;
      PlainCallKeepsBooks(p, balance, now, signers, call, after);
    }
  }

  /** What a pool is set up with stays; only its escrow can make it record a credit. */
  lemma PoolCallFrame(p: P.Pool, balance: int, now: nat, signers: set<Address>, call: PoolCall)
    requires P.Accounts(p, balance) && ExecutePool(p, balance, now, signers, call).Ok?
    ensures var q := ExecutePool(p, balance, now, signers, call).value;
            && q.governance.Some?
            && (p.governance.Some? ==> q.escrow == p.escrow && q.token == p.token)
            && (p.governance.None? || p.escrow !in signers ==>
                  q.credited == p.credited && q.totalCredited == p.totalCredited)
  {
    hide P.ManifestFits, P.Remaining, P.Taken, P.ValidAllocations, P.AvailableBalance;
  }

  /** No such call changes what was claimed or for whom. */
  lemma PoolCallClaims(p: P.Pool, balance: int, now: nat, signers: set<Address>, call: PoolCall)
    requires P.Accounts(p, balance) && ExecutePool(p, balance, now, signers, call).Ok?
    ensures var q := ExecutePool(p, balance, now, signers, call).value;
            && q.totalPaid == p.totalPaid
            && forall m: nat, i: nat ::
                 WasClaimed(q, m, i) == WasClaimed(p, m, i)
                 && (WasClaimed(p, m, i) ==> q.allocations[(m, i)] == p.allocations[(m, i)])
  {
    match call
    case Publish(id, expiresAt, recipients, amounts) =>
      P.PublishWrites(p, balance, now, signers, id, expiresAt, recipients, amounts);
      P.PublishedOpen(p, balance, now, signers, id, expiresAt, recipients, amounts);
      hide P.Publish;
    case _ =>
  }

  /** The world after one pool changed. */
  ghost predicate OnePool(w: World, v: World, a: Address) {
    a in w.pools && a in v.pools && v == w.(pools := w.pools[a := v.pools[a]], ledger := v.ledger, payouts := v.payouts)
  }

  lemma PoolChangeAgrees(w: World, v: World, a: Address)
    requires AllAgree(w) && OnePool(w, v, a)
    requires v.pools[a].governance.Some?
    requires w.pools[a].governance.Some? ==> SameEscrow(w.pools[a], v.pools[a])
    requires (w.pools[a].governance.Some? && w.pools[a].escrow != w.self)
             || (v.pools[a].credited == w.pools[a].credited && v.pools[a].totalCredited == w.pools[a].totalCredited)
    requires w.pools[a].governance.None? ==> w.pools[a].credited == {} && w.pools[a].totalCredited == 0
    requires PoolsFit(w)
    ensures AllAgree(v)
  {
    hide P.Accounts, Shares, CompletedIds;
    forall b | b in v.pools ensures Agrees(v, b) {
      assert Agrees(w, b);
    }
  }

  predicate SameEscrow(p: P.Pool, q: P.Pool) {
    q.escrow == p.escrow && q.token == p.token
  }

  lemma PoolChangeFits(w: World, v: World, a: Address)
    requires PoolsFit(w) && OnePool(w, v, a) && v.pools[a].governance.Some?
    requires w.pools[a].governance.Some? ==> SameEscrow(w.pools[a], v.pools[a])
    requires P.Accounts(v.pools[a], PoolBalance(v, a))
    requires forall t, b :: b in w.pools && b != a ==> Balance(v.ledger, t, b) >= Balance(w.ledger, t, b)
    ensures PoolsFit(v)
  {
    hide P.Accounts, Balance;
    forall b | b in v.pools ensures P.Accounts(v.pools[b], PoolBalance(v, b)) {
      if b != a {
        RicherAccounts(w.pools[b], PoolBalance(w, b), PoolBalance(v, b));
      }
    }
  }

  lemma PoolChangeSolvent(w: World, v: World, a: Address)
    requires Solvent(w) && OnePool(w, v, a)
    requires Balance(v.ledger, w.escrow.token, w.self) >= Balance(w.ledger, w.escrow.token, w.self)
    ensures Solvent(v)
  {
    hide Balance, Owing;
    forall k | k in v.escrow.campaigns ensures CampaignFits(v, k) {
      assert CampaignFits(w, k);
    }
  }

  lemma OnPoolKeeps(w: World, signers: set<Address>, a: Address, call: PoolCall)
    requires Safe(w) && Outside(w, signers) && Execute(w, signers, OnPool(a, call)).Ok?
    ensures Safe(Execute(w, signers, OnPool(a, call)).value)
  {
    hide ExecutePool, Solvent, AllAgree, Logged, P.Accounts, Sound, WasClaimed;
    var v := Execute(w, signers, OnPool(a, call)).value;
    var p, q := w.pools[a], v.pools[a];
    PoolCallFrame(p, PoolBalance(w, a), w.now, signers, call);
    BalancesBounded(w.ledger, q.token, a, a);
    PoolCallKeepsBooks(p, PoolBalance(w, a), w.now, signers, call, PoolBalance(v, a));
    PoolCallClaims(p, PoolBalance(w, a), w.now, signers, call);
    if p.governance.None? {
      UnsetUncredited(p, PoolBalance(w, a));
    }
    PoolChangeAgrees(w, v, a);
    PoolChangeFits(w, v, a);
    PoolChangeSolvent(w, v, a);
    PoolChangeLogged(w, v, a);
  }

  lemma UnsetUncredited(p: P.Pool, balance: int)
    requires P.Accounts(p, balance) && p.governance.None?
    ensures p.credited == {} && p.totalCredited == 0
  {}

  lemma PoolChangeLogged(w: World, v: World, a: Address)
    requires Logged(w) && OnePool(w, v, a) && v.payouts == w.payouts && v.pools[a].totalPaid == w.pools[a].totalPaid
    requires forall m: nat, i: nat ::
               WasClaimed(v.pools[a], m, i) == WasClaimed(w.pools[a], m, i)
               && (WasClaimed(w.pools[a], m, i) ==>
                     v.pools[a].allocations[(m, i)] == w.pools[a].allocations[(m, i)])
    ensures Logged(v)
  {
    forall b | b in v.pools ensures ClaimsLogged(v, b) {
      assert ClaimsLogged(w, b);
    }
  }

  // ---------- claims ----------

  /** In a safe state a claim is paid exactly when its recipient asks in time for what it has not claimed yet. */
  lemma ClaimExact(w: World, signers: set<Address>, a: Address, id: nat, index: nat)
    requires Safe(w) && a in w.pools
    ensures var p := w.pools[a];
            ClaimFrom(w, signers, a, id, index).Ok? <==>
            && p.governance.Some? && !p.paused && id in p.manifests && p.manifests[id].status == P.Active
            && w.now < p.manifests[id].expiresAt && index < p.manifests[id].allocationCount
            && (id, index) in p.allocations && !p.allocations[(id, index)].claimed
            && p.allocations[(id, index)].recipient in signers
    ensures ClaimFrom(w, signers, a, id, index) != Err(ByPool(P.Deficit))
  {
    hide Solvent, AllAgree, Logged, P.ManifestFits, P.Remaining, P.Taken, Transfer;
    var p := w.pools[a];
    P.ClaimSucceedsExactly(p, PoolBalance(w, a), w.now, signers, id, index);
    if P.Claim(p, PoolBalance(w, a), w.now, signers, id, index).Ok? {
      var c := P.Claim(p, PoolBalance(w, a), w.now, signers, id, index).value;
      P.ClaimKeeps(p, PoolBalance(w, a), w.now, signers, id, index);
      TransferSucceeds(w.ledger, c.pool.token, a, c.recipient, c.amount);
    }
  }

  /** What a claim changes. */
  ghost predicate Claims(w: World, signers: set<Address>, a: Address, id: nat, index: nat, v: World) {
    && OnePool(w, v, a) && (id, index) in w.pools[a].allocations
    && var p, q, allocation := w.pools[a], v.pools[a], w.pools[a].allocations[(id, index)];
    && p.governance.Some? && q.governance.Some? && SameEscrow(p, q) && !allocation.claimed && 0 < allocation.amount
    && q.credited == p.credited && q.totalCredited == p.totalCredited
    && q.totalPaid == p.totalPaid + allocation.amount
    && q.allocations == p.allocations[(id, index) := allocation.(claimed := true)]
    && v.payouts == w.payouts + [Payout(Claiming(a, id, index), allocation.recipient, allocation.amount)]
    && Transfer(w.ledger, p.token, a, allocation.recipient, allocation.amount) == Some(v.ledger)
    && P.Accounts(q, PoolBalance(w, a) - allocation.amount)
  }

  lemma ClaimMakes(w: World, signers: set<Address>, a: Address, id: nat, index: nat)
    requires Safe(w) && a in w.pools && ClaimFrom(w, signers, a, id, index).Ok?
    ensures Claims(w, signers, a, id, index, ClaimFrom(w, signers, a, id, index).value)
  {
    hide Solvent, AllAgree, Logged, Sound, P.Accounts, Transfer;
    P.ClaimKeeps(w.pools[a], PoolBalance(w, a), w.now, signers, id, index);
  }

  lemma ClaimBooks(w: World, signers: set<Address>, a: Address, id: nat, index: nat, v: World)
    requires Sound(w.ledger) && Solvent(w) && PoolsFit(w) && Claims(w, signers, a, id, index, v)
    ensures Sound(v.ledger) && Solvent(v) && PoolsFit(v)
  {
    hide Solvent, Transfer, P.Accounts, Sound, Supply, Balance;
    var allocation := w.pools[a].allocations[(id, index)];
    TransferMoves(w.ledger, w.pools[a].token, a, allocation.recipient, allocation.amount);
    assert w.self != a;
    RicherAccounts(v.pools[a], PoolBalance(w, a) - allocation.amount, PoolBalance(v, a));
    PoolChangeSolvent(w, v, a);
    PoolChangeFits(w, v, a);
  }

  lemma OutflowMore(done: seq<Payout>, p: Payout)
    ensures forall cause ::
              Outflow(done + [p], cause) == Outflow(done, cause) + if cause == p.cause then p.amount else 0
  {
    assert (done + [p])[..|done|] == done;
  }

  lemma PaidFromMore(done: seq<Payout>, p: Payout, pool: Address)
    ensures PaidFrom(done + [p], pool)
         == PaidFrom(done, pool) + if p.cause.Claiming? && p.cause.pool == pool then p.amount else 0
  {
    assert (done + [p])[..|done|] == done;
  }

  lemma ClaimLogsHere(w: World, a: Address, id: nat, index: nat, v: World, p: Payout)
    requires a in w.pools && a in v.pools && ClaimsLogged(w, a) && (id, index) in w.pools[a].allocations
    requires var allocation := w.pools[a].allocations[(id, index)];
             && !allocation.claimed && p == Payout(Claiming(a, id, index), allocation.recipient, allocation.amount)
             && v.pools[a].allocations == w.pools[a].allocations[(id, index) := allocation.(claimed := true)]
             && v.pools[a].totalPaid == w.pools[a].totalPaid + allocation.amount
    requires v.payouts == w.payouts + [p]
    ensures ClaimsLogged(v, a)
  {
    OutflowMore(w.payouts, p);
    PaidFromMore(w.payouts, p, a);
    hide Outflow, PaidFrom;
  }

  lemma ClaimLogsElsewhere(w: World, v: World, p: Payout, b: Address)
    requires b in w.pools && b in v.pools && v.pools[b] == w.pools[b] && ClaimsLogged(w, b)
    requires v.payouts == w.payouts + [p] && p.cause.Claiming? && p.cause.pool != b
    ensures ClaimsLogged(v, b)
  {
    OutflowMore(w.payouts, p);
    PaidFromMore(w.payouts, p, b);
    hide Outflow, PaidFrom;
  }

  lemma ClaimLogs(w: World, signers: set<Address>, a: Address, id: nat, index: nat, v: World)
    requires Logged(w) && Claims(w, signers, a, id, index, v)
    ensures Logged(v)
  {
    hide Transfer, P.Accounts, Outflow, ClaimsLogged, Balance;
    var allocation := w.pools[a].allocations[(id, index)];
    var p := Payout(Claiming(a, id, index), allocation.recipient, allocation.amount);
    OutflowMore(w.payouts, p);
    forall b | b in v.pools ensures ClaimsLogged(v, b) {
      if b == a {
        ClaimLogsHere(w, a, id, index, v, p);
      } else {
        ClaimLogsElsewhere(w, v, p, b);
      }
    }
  }

  lemma ClaimKeepsSafe(w: World, signers: set<Address>, a: Address, id: nat, index: nat)
    requires Safe(w) && a in w.pools && ClaimFrom(w, signers, a, id, index).Ok?
    ensures Safe(ClaimFrom(w, signers, a, id, index).value)
  {
    hide ClaimFrom, Solvent, AllAgree, Logged, Sound, P.Accounts, Transfer;
    var v := ClaimFrom(w, signers, a, id, index).value;
    ClaimMakes(w, signers, a, id, index);
    ClaimBooks(w, signers, a, id, index, v);
    ClaimLogs(w, signers, a, id, index, v);
    PoolChangeAgrees(w, v, a);
  }

  // ---------- every step, every run ----------

  lemma MoveKeeps(w: World, signers: set<Address>, token: Address, from: Address, to: Address, amount: int)
    requires Safe(w) && Outside(w, signers) && Execute(w, signers, Move(token, from, to, amount)).Ok?
    ensures Safe(Execute(w, signers, Move(token, from, to, amount)).value)
  {
    hide Solvent, PoolsFit, AllAgree, Logged, Transfer, Balance, Supply, Sound;
    var v := Execute(w, signers, Move(token, from, to, amount)).value;
    SoundLedger(w);
    TransferSucceeds(w.ledger, token, from, to, amount);
    TransferMoves(w.ledger, token, from, to, amount);
    LedgerRicher(w, v);
    LoggedStill(w, v);
  }

  /** New balances that take nothing from the escrow or a pool. */
  lemma LedgerRicher(w: World, v: World)
    requires Solvent(w) && PoolsFit(w) && AllAgree(w) && v == w.(ledger := v.ledger)
    requires forall t, h :: h == w.self || h in w.pools ==> Balance(v.ledger, t, h) >= Balance(w.ledger, t, h)
    ensures Solvent(v) && PoolsFit(v) && AllAgree(v)
  {
    hide P.Accounts, Balance, Owing, CompletedIds, Shares;
    forall k | k in v.escrow.campaigns ensures CampaignFits(v, k) {
      assert CampaignFits(w, k);
    }
    forall a | a in v.pools ensures Agrees(v, a) && P.Accounts(v.pools[a], PoolBalance(v, a)) {
      assert Agrees(w, a);
      RicherAccounts(w.pools[a], PoolBalance(w, a), PoolBalance(v, a));
    }
  }

  lemma WaitKeeps(w: World, until: nat)
    requires Safe(w) && w.now <= until
    ensures Safe(w.(now := until))
  {
    var v := w.(now := until);
    hide P.Accounts, Sound, Balance, Owing, CompletedIds, Shares, Logged;
    forall k | k in v.escrow.campaigns ensures CampaignFits(v, k) {
      assert CampaignFits(w, k);
    }
    forall a | a in v.pools ensures Agrees(v, a) {
      assert Agrees(w, a);
    }
    LoggedStill(w, v);
  }

  lemma ExecuteKeeps(w: World, signers: set<Address>, call: Call)
    requires Safe(w) && Outside(w, signers) && Execute(w, signers, call).Ok?
    ensures Safe(Execute(w, signers, call).value)
  {
    hide Safe, EscrowContract.Initialize, EscrowContract.Fund, EscrowContract.Activate, EscrowContract.Complete,
      EscrowContract.RefundExpired, ExecutePool, ClaimFrom, Transfer;
    match call
    case InitializeEscrow(g, s, token, treasury, nft, revenue, deployer, here) =>
      InitializeKeeps(w, signers, g, s, token, treasury, nft, revenue, deployer, here);
    case Fund(id, sponsor, amount) => FundKeeps(w, signers, id, sponsor, amount);
    case Activate(id, creator, referrer, terms) => ActivateKeeps(w, signers, id, creator, referrer, terms);
    case Complete(id, version) => CompleteKeeps(w, signers, id, version);
    case RefundExpired(id) => RefundKeeps(w, id);
    case OnPool(pool, poolCall) => OnPoolKeeps(w, signers, pool, poolCall);
    case Claim(pool, id, index) => ClaimKeepsSafe(w, signers, pool, id, index);
    case Move(token, from, to, amount) => MoveKeeps(w, signers, token, from, to, amount);
    case Wait(until) => WaitKeeps(w, until);
    case _ => RolesKeep(w, Execute(w, signers, call).value);
  }

  /** The same contracts at the same addresses, and as much of every token. */
  ghost predicate SameWhole(w: World, v: World) {
    v.self == w.self && v.pools.Keys == w.pools.Keys && forall t :: Supply(v.ledger, t) == Supply(w.ledger, t)
  }

  lemma TransferConserves(w: World, v: World, token: Address, from: Address, to: Address, amount: int)
    requires Sound(w.ledger) && Transfer(w.ledger, token, from, to, amount) == Some(v.ledger)
    requires v.self == w.self && v.pools.Keys == w.pools.Keys
    ensures SameWhole(w, v)
  {
    hide Transfer, Sound, Supply, Balance;
    TransferMoves(w.ledger, token, from, to, amount);
  }

  lemma CompleteConserves(w: World, signers: set<Address>, id: nat, version: nat)
    requires Safe(w) && EscrowContract.Complete(w, signers, id, version).Ok?
    ensures SameWhole(w, EscrowContract.Complete(w, signers, id, version).value)
  {
    hide Safe, Distribute, Settle, Sound, Supply, Balance, ReadyToDistribute, Legs, CreditsFit,
      CreditFollows;
    CompleteMakes(w, signers, id, version);
    CompletesFrame(w, id, Settle(w, signers, id, version).value,
                   EscrowContract.Complete(w, signers, id, version).value);
  }

  lemma RefundConserves(w: World, id: nat)
    requires Safe(w) && EscrowContract.RefundExpired(w, id).Ok?
    ensures SameWhole(w, EscrowContract.RefundExpired(w, id).value)
  {
    hide Safe, EscrowContract.RefundExpired, Sound, Supply, Balance;
    RefundExact(w, id);
  }

  predicate MovesTokens(call: Call) {
    call.Fund? || call.Complete? || call.RefundExpired? || call.Claim? || call.Move?
  }

  lemma LedgerKept(w: World, signers: set<Address>, call: Call)
    requires !MovesTokens(call) && Execute(w, signers, call).Ok?
    ensures SameWhole(w, Execute(w, signers, call).value)
  {
    hide ExecutePool;
  }

  lemma TransfersConserve(w: World, signers: set<Address>, call: Call)
    requires Sound(w.ledger) && Execute(w, signers, call).Ok? && (call.Fund? || call.Claim? || call.Move?)
    ensures SameWhole(w, Execute(w, signers, call).value)
  {
    hide Transfer, Sound, SameWhole, P.Claim;
    var v := Execute(w, signers, call).value;
    match call
    case Fund(_, sponsor, amount) => TransferConserves(w, v, w.escrow.token, sponsor, w.self, amount);
    case Claim(a, id, index) =>
      var c := P.Claim(w.pools[a], PoolBalance(w, a), w.now, signers, id, index).value;
      TransferConserves(w, v, c.pool.token, a, c.recipient, c.amount);
    case Move(token, from, to, amount) => TransferConserves(w, v, token, from, to, amount);
  }

  /** No call deploys or moves a contract, and none makes or destroys tokens. */
  lemma ExecuteConserves(w: World, signers: set<Address>, call: Call)
    requires Safe(w) && Execute(w, signers, call).Ok?
    ensures SameWhole(w, Execute(w, signers, call).value)
  {
    if call.Complete? {
      hide Safe, EscrowContract.Complete, SameWhole;
      CompleteConserves(w, signers, call.id, call.version);
    } else if call.RefundExpired? {
      hide Safe, EscrowContract.RefundExpired, SameWhole;
      RefundConserves(w, call.id);
    } else {
      SoundLedger(w);
      hide Safe, Execute, SameWhole;
      if MovesTokens(call) {
        TransfersConserve(w, signers, call);
      } else {
        LedgerKept(w, signers, call);
      }
    }
  }

  /** Whatever is called, in any order and by anyone: a safe state stays safe, and no token is made or lost. */
  lemma {:induction false} RunKeeps(w: World, calls: seq<Signed>)
    requires Safe(w) && AllOutside(w, calls)
    ensures Safe(Run(w, calls)) && SameWhole(w, Run(w, calls))
    decreases |calls|
  {
    hide Safe, Execute, Supply;
    if calls != [] {
      var v := Step(w, calls[0].signers, calls[0].call);
      if Execute(w, calls[0].signers, calls[0].call).Ok? {
        ExecuteKeeps(w, calls[0].signers, calls[0].call);
        ExecuteConserves(w, calls[0].signers, calls[0].call);
      }
      assert forall i :: 0 <= i < |calls| - 1 ==> calls[1..][i] == calls[i + 1];
      RunKeeps(v, calls[1..]);
    }
  }

  /** Where every run begins: the contracts deployed but not set up, and any sound token balances. */
  ghost predicate Initial(w: World) {
    && w.escrow == Undeployed() && w.self !in w.pools && w.payouts == [] && Sound(w.ledger)
    && forall a :: a in w.pools ==> w.pools[a] == P.Undeployed()
  }

  lemma InitialSafe(w: World)
    requires Initial(w)
    ensures Safe(w)
  {
    NothingYet();
    P.UndeployedAccounts();
    forall a | a in w.pools ensures P.Accounts(w.pools[a], PoolBalance(w, a)) {
      BalancesBounded(w.ledger, w.pools[a].token, a, a);
      RicherAccounts(w.pools[a], 0, PoolBalance(w, a));
    }
  }

  /** Every reachable state is safe. */
  lemma ReachableSafe(w: World, calls: seq<Signed>)
    requires Initial(w) && AllOutside(w, calls)
    ensures Safe(Run(w, calls))
  {
    InitialSafe(w);
    RunKeeps(w, calls);
  }
}
