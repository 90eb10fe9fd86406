/** What settling a campaign pays: the split of an amount, and the exact effect of `complete` and `refund_expired`. */
module Settlement {
  import opened Basics
  import opened TokenLedger
  import opened EscrowContract
  import P = PoolContract

  /** An amount that `fund` admits. */
  predicate Admitted(total: int) {
    MINIMUM_CAMPAIGN_AMOUNT <= total <= I128_MAX / DENOM
  }

  /** The treasury gets a tenth, the two pools a twentieth and a fiftieth, the referrer a hundredth, all rounded down
      and positive; the creator the rest, at least 82% and less than 82% plus four units. Nothing overflows. */
  lemma SplitExact(total: int)
    requires Admitted(total)
    ensures total * SERVICE <= I128_MAX && total * NFT_POOL <= I128_MAX && total * REVENUE <= I128_MAX
            && total * REFERRER <= I128_MAX
    ensures Share(total, SERVICE) == total / 10 && Share(total, NFT_POOL) == total / 20
            && Share(total, REVENUE) == total / 50 && Share(total, REFERRER) == total / 100
    ensures Share(total, SERVICE) > 0 && Share(total, NFT_POOL) > 0 && Share(total, REVENUE) > 0
            && Share(total, REFERRER) > 0 && CreatorShare(total) > 0
    ensures CreatorShare(total) + Share(total, SERVICE) + Share(total, NFT_POOL) + Share(total, REVENUE)
            + Share(total, REFERRER) == total
    ensures 82 * total <= 100 * CreatorShare(total) < 82 * total + 400
  {}

  /** What one holder gets from a list of payments. */
  function Received(payouts: seq<Payout>, holder: Address): int {
    if payouts == [] then 0
    else
      var last := payouts[|payouts| - 1];
      Received(payouts[..|payouts| - 1], holder) + if last.to == holder then last.amount else 0
  }

  /** What a list of payments costs the payer. */
  function Spent(payouts: seq<Payout>): int {
    if payouts == [] then 0 else Spent(payouts[..|payouts| - 1]) + payouts[|payouts| - 1].amount
  }

  /** From `w` the escrow made exactly these payments, and nothing else moved in any token. */
  ghost predicate Paid(w: World, payouts: seq<Payout>, v: World) {
    && v == w.(pools := v.pools, ledger := v.ledger, payouts := w.payouts + payouts)
    && Sound(v.ledger)
    && (forall t :: Supply(v.ledger, t) == Supply(w.ledger, t))
    && (forall t, h :: Balance(v.ledger, t, h) == Balance(w.ledger, t, h)
          + if t != w.escrow.token then 0 else Received(payouts, h) - if h == w.self then Spent(payouts) else 0)
  }

  lemma PaidNothing(w: World)
    requires Sound(w.ledger)
    ensures Paid(w, [], w)
  {
    assert w.payouts + [] == w.payouts;
    assert Spent([]) == 0 && forall h :: Received([], h) == 0;
  }

  lemma PayMore(w: World, done: seq<Payout>, v: World, id: nat, to: Address, amount: int)
    requires Paid(w, done, v) && 0 <= amount <= Balance(v.ledger, v.escrow.token, v.self)
    ensures Pay(v, id, to, amount).Ok?
    ensures var u := Pay(v, id, to, amount).value;
            && u.pools == v.pools && Paid(w, done + [Payout(Settling(id), to, amount)], u)
            && Balance(u.ledger, v.escrow.token, v.self) >= Balance(v.ledger, v.escrow.token, v.self) - amount
            && (forall h :: h != v.self ==>
                  Balance(u.ledger, v.escrow.token, h)
                  == Balance(v.ledger, v.escrow.token, h) + if h == to then amount else 0)
  {
    TransferSucceeds(v.ledger, v.escrow.token, v.self, to, amount);
    TransferMoves(v.ledger, v.escrow.token, v.self, to, amount);
    var all := done + [Payout(Settling(id), to, amount)];
    assert all[..|all| - 1] == done;
    assert w.payouts + all == w.payouts + done + [Payout(Settling(id), to, amount)];
    hide Transfer, Balance, Supply, Sound;
  }

  /** The pool, set up for this escrow, has yet to be credited for the campaign, and its balance covers its books. */
  ghost predicate Expects(w: World, pool: Address, id: nat) {
    && pool in w.pools && pool != w.self
    && w.pools[pool].governance.Some? && w.pools[pool].escrow == w.self && w.pools[pool].token == w.escrow.token
    && id !in w.pools[pool].credited
    && PoolBalance(w, pool) >= w.pools[pool].totalCredited - w.pools[pool].totalPaid
  }

  predicate Fits(w: World, pool: Address, amount: int)
    requires pool in w.pools
  {
    w.pools[pool].totalCredited + amount <= I128_MAX
  }

  function Credited(p: P.Pool, id: nat, amount: int): P.Pool {
    p.(credited := p.credited + {id}, totalCredited := p.totalCredited + amount)
  }

  /** Paying a pool and crediting it, as a settlement does for each of its two pools. */
  function PayPool(w: World, pool: Address, id: nat, amount: int): Outcome {
    var paid :- Pay(w, id, pool, amount);
    Credit(paid, pool, id, amount)
  }

  /** A pool that was just paid the amount accepts the credit unless its running total overflows. */
  lemma PayPoolMore(w: World, done: seq<Payout>, v: World, pool: Address, id: nat, amount: int)
    requires Paid(w, done, v) && 0 < amount <= Balance(v.ledger, v.escrow.token, v.self)
    requires Expects(v, pool, id)
    ensures PayPool(v, pool, id, amount).Ok? <==> Fits(v, pool, amount)
    ensures Fits(v, pool, amount) ==>
              var u := PayPool(v, pool, id, amount).value;
              && u.pools == v.pools[pool := Credited(v.pools[pool], id, amount)]
              && Paid(w, done + [Payout(Settling(id), pool, amount)], u)
              && Balance(u.ledger, v.escrow.token, v.self) >= Balance(v.ledger, v.escrow.token, v.self) - amount
              && (forall h :: h != v.self ==>
                    Balance(u.ledger, v.escrow.token, h) >= Balance(v.ledger, v.escrow.token, h))
  {
    PayMore(w, done, v, id, pool, amount);
    hide Pay, Balance, Supply, Sound, Received, Spent;
  }

  /** The five payments of a settlement, in order. */
  function Legs(e: Escrow, id: nat, c: Campaign): seq<Payout>
    requires c.referrer.Some?
  {
    [Payout(Settling(id), c.creator, CreatorShare(c.amount)),
     Payout(Settling(id), e.serviceTreasury, Share(c.amount, SERVICE)),
     Payout(Settling(id), e.nftPool, Share(c.amount, NFT_POOL)),
     Payout(Settling(id), e.revenuePool, Share(c.amount, REVENUE)),
     Payout(Settling(id), c.referrer.value, Share(c.amount, REFERRER))]
  }

  ghost predicate ReadyToDistribute(w: World, id: nat) {
    && Sound(w.ledger) && id in w.escrow.campaigns
    && w.escrow.campaigns[id].referrer.Some? && Admitted(w.escrow.campaigns[id].amount)
    && w.escrow.campaigns[id].amount <= Balance(w.ledger, w.escrow.token, w.self)
    && w.escrow.nftPool != w.escrow.revenuePool
    && Expects(w, w.escrow.nftPool, id) && Expects(w, w.escrow.revenuePool, id)
  }

  predicate CreditsFit(w: World, amount: int)
    requires w.escrow.nftPool in w.pools && w.escrow.revenuePool in w.pools
  {
    Fits(w, w.escrow.nftPool, Share(amount, NFT_POOL)) && Fits(w, w.escrow.revenuePool, Share(amount, REVENUE))
  }

  /** Both pools credited with their legs, and no other pool touched. */
  function PoolsCredited(w: World, id: nat, amount: int): map<Address, P.Pool>
    requires w.escrow.nftPool in w.pools && w.escrow.revenuePool in w.pools
  {
    w.pools[w.escrow.nftPool := Credited(w.pools[w.escrow.nftPool], id, Share(amount, NFT_POOL))]
           [w.escrow.revenuePool := Credited(w.pools[w.escrow.revenuePool], id, Share(amount, REVENUE))]
  }

  lemma LegsByStep(e: Escrow, id: nat, c: Campaign)
    requires c.referrer.Some?
    ensures Legs(e, id, c) == [] + [Payout(Settling(id), c.creator, CreatorShare(c.amount))]
                              + [Payout(Settling(id), e.serviceTreasury, Share(c.amount, SERVICE))]
                              + [Payout(Settling(id), e.nftPool, Share(c.amount, NFT_POOL))]
                              + [Payout(Settling(id), e.revenuePool, Share(c.amount, REVENUE))]
                              + [Payout(Settling(id), c.referrer.value, Share(c.amount, REFERRER))]
  {}

  lemma SpentMore(done: seq<Payout>, p: Payout)
    ensures Spent(done + [p]) == Spent(done) + p.amount
  {
    assert (done + [p])[..|done|] == done;
  }

  lemma LegsSpend(e: Escrow, id: nat, c: Campaign)
    requires c.referrer.Some?
    ensures Spent(Legs(e, id, c)) == c.amount
  {
    var legs := Legs(e, id, c);
    SpentMore([], legs[0]);
    assert [] + [legs[0]] + [legs[1]] == legs[..2];
    SpentMore([] + [legs[0]], legs[1]);
    SpentMore(legs[..2], legs[2]);
    SpentMore(legs[..2] + [legs[2]], legs[3]);
    assert legs[..2] + [legs[2]] + [legs[3]] == legs[..4];
    SpentMore(legs[..4], legs[4]);
    assert legs[..4] + [legs[4]] == legs;
  }

  /** The five payments and two credits go through exactly when both running totals still fit. */
  lemma DistributeExact(w: World, id: nat)
    requires ReadyToDistribute(w, id)
    ensures Distribute(w, id).Ok? <==> CreditsFit(w, w.escrow.campaigns[id].amount)
    ensures Distribute(w, id).Ok? ==>
              && Paid(w, Legs(w.escrow, id, w.escrow.campaigns[id]), Distribute(w, id).value)
              && Distribute(w, id).value.pools == PoolsCredited(w, id, w.escrow.campaigns[id].amount)
  {
    var e, c := w.escrow, w.escrow.campaigns[id];
    SplitExact(c.amount);
    LegsByStep(e, id, c);
    PaidNothing(w);
    hide Share, CreatorShare, Pay, Credit, Balance, Supply, Sound, Received, Spent, Legs;
    PayMore(w, [], w, id, c.creator, CreatorShare(c.amount));
    var w1 := Pay(w, id, c.creator, CreatorShare(c.amount)).value;
    var legs := [] + [Payout(Settling(id), c.creator, CreatorShare(c.amount))];
    PayMore(w, legs, w1, id, e.serviceTreasury, Share(c.amount, SERVICE));
    var w2 := Pay(w1, id, e.serviceTreasury, Share(c.amount, SERVICE)).value;
    legs := legs + [Payout(Settling(id), e.serviceTreasury, Share(c.amount, SERVICE))];
    PayPoolMore(w, legs, w2, e.nftPool, id, Share(c.amount, NFT_POOL));
    if Fits(w, e.nftPool, Share(c.amount, NFT_POOL)) {
      var w4 := PayPool(w2, e.nftPool, id, Share(c.amount, NFT_POOL)).value;
      legs := legs + [Payout(Settling(id), e.nftPool, Share(c.amount, NFT_POOL))];
      PayPoolMore(w, legs, w4, e.revenuePool, id, Share(c.amount, REVENUE));
      if Fits(w, e.revenuePool, Share(c.amount, REVENUE)) {
        var w6 := PayPool(w4, e.revenuePool, id, Share(c.amount, REVENUE)).value;
        legs := legs + [Payout(Settling(id), e.revenuePool, Share(c.amount, REVENUE))];
        PayMore(w, legs, w6, id, c.referrer.value, Share(c.amount, REFERRER));
      }
    }
  }
}
