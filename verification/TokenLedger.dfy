/** The balances of the tokens that the campaign contracts move, as seen through an honest token contract. */
module TokenLedger {
  import opened Basics
  import opened Sums

  /** Token, then holder. A holder without an entry holds nothing. */
  type Ledger = map<Address, map<Address, int>>

  function Holdings(ledger: Ledger, token: Address): map<Address, int> {
    if token in ledger then ledger[token] else map[]
  }

  function Held(holdings: map<Address, int>, holder: Address): int {
    if holder in holdings then holdings[holder] else 0
  }

  function Balance(ledger: Ledger, token: Address, holder: Address): int {
    Held(Holdings(ledger, token), holder)
  }

  function Moved(holdings: map<Address, int>, from: Address, to: Address, amount: int): map<Address, int> {
    var debited := holdings[from := Held(holdings, from) - amount];
    debited[to := Held(debited, to) + amount]
  }

  /** The sender has authorized the transfer. It fails without funds, or when the receiver's balance overflows. */
  function Transfer(ledger: Ledger, token: Address, from: Address, to: Address, amount: int): Option<Ledger> {
    var holdings := Holdings(ledger, token);
    if amount < 0 || Held(holdings, from) < amount || Held(Moved(holdings, from, to, amount), to) > I128_MAX then None
    else Some(ledger[token := Moved(holdings, from, to, amount)])
  }

  ghost function Supply(ledger: Ledger, token: Address): int {
    Total(Holdings(ledger, token))
  }

  /** No negative balance, and no more of any token than an i128 can count. */
  ghost predicate Sound(ledger: Ledger) {
    forall token :: token in ledger ==>
      && (forall holder :: holder in ledger[token] ==> ledger[token][holder] >= 0)
      && Supply(ledger, token) <= I128_MAX
  }

  lemma {:induction false} TwoWithinTotal(m: map<Address, int>, a: Address, b: Address)
    requires forall k :: k in m ==> m[k] >= 0
    ensures Held(m, a) >= 0 && Held(m, a) <= Total(m)
    ensures a != b ==> Held(m, a) + Held(m, b) <= Total(m)
  {
    TotalCovers(m);
    if a in m {
      TotalRemove(m, a);
      TotalCovers(m - {a});
      if a != b && b in m {
        assert (m - {a})[b] == m[b];
      }
    }
  }

  /** On sound balances two holders together never hold more than an i128 can count. */
  lemma BalancesBounded(ledger: Ledger, token: Address, a: Address, b: Address)
    requires Sound(ledger)
    ensures 0 <= Balance(ledger, token, a) <= I128_MAX
    ensures a != b ==> Balance(ledger, token, a) + Balance(ledger, token, b) <= I128_MAX
  {
    if token in ledger {
      TwoWithinTotal(Holdings(ledger, token), a, b);
    }
  }

  lemma MovedWithin(holdings: map<Address, int>, from: Address, to: Address, amount: int)
    requires forall k :: k in holdings ==> holdings[k] >= 0
    requires 0 <= amount <= Held(holdings, from)
    ensures var after := Moved(holdings, from, to, amount);
            && Total(after) == Total(holdings)
            && (forall h :: Held(after, h) == Held(holdings, h)
                  + (if h == to then amount else 0) - (if h == from then amount else 0))
            && (forall h :: h in after ==> after[h] >= 0)
  {
    var debited := holdings[from := Held(holdings, from) - amount];
    TotalUpdate(holdings, from, Held(holdings, from) - amount);
    TotalUpdate(debited, to, Held(debited, to) + amount);
  }

  /** A transfer needs the funds, and room in the receiver's balance. */
  lemma TransferExact(ledger: Ledger, token: Address, from: Address, to: Address, amount: int)
    ensures Transfer(ledger, token, from, to, amount).Some? <==>
            && 0 <= amount <= Balance(ledger, token, from)
            && Balance(ledger, token, to) + (if from == to then 0 else amount)
               <= 0x7FFF_FFFF_FFFF_FFFF_FFFF_FFFF_FFFF_FFFF
  {}

  /** Between sound balances a transfer succeeds exactly when the sender holds the amount. */
  lemma TransferSucceeds(ledger: Ledger, token: Address, from: Address, to: Address, amount: int)
    requires Sound(ledger)
    ensures Transfer(ledger, token, from, to, amount).Some? <==> 0 <= amount <= Balance(ledger, token, from)
  {
    BalancesBounded(ledger, token, from, to);
  }

  /** It moves exactly the amount from one holder to the other and keeps every supply. */
  lemma TransferMoves(ledger: Ledger, token: Address, from: Address, to: Address, amount: int)
    requires Sound(ledger) && Transfer(ledger, token, from, to, amount).Some?
    ensures var after := Transfer(ledger, token, from, to, amount).value;
            && Sound(after)
            && (forall t :: Supply(after, t) == Supply(ledger, t))
            && (forall t, h :: Balance(after, t, h) == Balance(ledger, t, h)
                  + (if t == token && h == to then amount else 0)
                  - (if t == token && h == from then amount else 0))
  {
    var after := Transfer(ledger, token, from, to, amount).value;
    MovedWithin(Holdings(ledger, token), from, to, amount);
    assert forall t :: Holdings(after, t)
             == if t == token then Moved(Holdings(ledger, token), from, to, amount) else Holdings(ledger, t);
    hide Moved, Transfer;
    if token !in ledger {
      assert Total(Holdings(ledger, token)) == 0;
    }
  }
}
