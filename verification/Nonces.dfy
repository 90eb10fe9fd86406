/** Nonces as temporary ledger entries: verification, expiry, and replay across ledgers. */
module Nonces {
  import opened Basics

  datatype NonceKey = NonceKey(address: Address, nonce: int)

  /** Ledger parameters and the live nonce entries with the last ledger of their life. */
  datatype Ledger = Ledger(seqNum: nat, minTempTtl: nat, maxTtl: nat, live: map<NonceKey, nat>)

  datatype Verdict = Accepted(ledger: Ledger) | Rejected

  function LastLedger(from: nat, ttl: nat): Option<nat> {
    var last := from + if ttl == 0 then 0 else ttl - 1;
    if last > U32_MAX then None else Some(last)
  }

  /** Writes the nonce entry unless one is live; it lives at least the minimum for new entries. */
  function Consume(l: Ledger, key: NonceKey, liveUntil: nat): Verdict {
    match LastLedger(l.seqNum, l.minTempTtl)
    case None => Rejected
    case Some(least) =>
      if key in l.live then Rejected
      else Accepted(l.(live := l.live[key := Max(liveUntil, least)]))
  }

  /** The nonce check of a signed entry whose signature expires with ledger `expiration`. */
  function Verify(l: Ledger, key: NonceKey, expiration: nat): Verdict {
    if l.seqNum > expiration then Rejected
    else match LastLedger(l.seqNum, l.maxTtl)
         case None => Rejected
         case Some(most) => if expiration > most then Rejected else Consume(l, key, expiration)
  }

  /** The ledger has not passed the expiration, that lies within the longest life of an entry, and the nonce is not
      live. (No last ledger of a life may exceed 32 bits.) */
  predicate NonceUsable(l: Ledger, key: NonceKey, expiration: nat) {
    && l.seqNum <= expiration < l.seqNum + Max(l.maxTtl, 1) <= 0x1_0000_0000
    && l.seqNum + Max(l.minTempTtl, 1) <= 0x1_0000_0000
    && key !in l.live
  }

  /** One more nonce is live: up to the expiration, or for the least life of a new entry if that is longer. */
  ghost predicate NonceUsed(l: Ledger, key: NonceKey, expiration: nat, after: Ledger) {
    && after == l.(live := after.live)
    && after.live.Keys == l.live.Keys + {key}
    && (forall k :: k in l.live ==> after.live[k] == l.live[k])
    && after.live[key] >= expiration && after.live[key] >= l.seqNum + l.minTempTtl - 1
    && (after.live[key] == expiration || after.live[key] == l.seqNum + Max(l.minTempTtl, 1) - 1)
  }

  lemma VerifyExact(l: Ledger, key: NonceKey, expiration: nat)
    ensures Verify(l, key, expiration).Accepted? <==> NonceUsable(l, key, expiration)
    ensures Verify(l, key, expiration).Accepted? ==> NonceUsed(l, key, expiration, Verify(l, key, expiration).ledger)
  {}

  // ---------- ledgers over time ----------

  datatype Event =
    | Close(seqNum: nat, minTempTtl: nat, maxTtl: nat)             // a later ledger, expired entries gone
    | Attempt(key: NonceKey, expiration: nat, commits: bool)       // one verification; its transaction may fail
    | Prolong(key: NonceKey, liveUntil: nat)                       // somebody extends the entry

  function Apply(l: Ledger, e: Event): Ledger {
    match e
    case Close(seqNum, least, most) =>
      if seqNum <= l.seqNum then l
      else Ledger(seqNum, least, most, map k | k in l.live && l.live[k] >= seqNum :: l.live[k])
    case Attempt(key, expiration, commits) =>
      if commits && Verify(l, key, expiration).Accepted? then Verify(l, key, expiration).ledger else l
    case Prolong(key, liveUntil) =>
      if key in l.live && liveUntil > l.live[key] then l.(live := l.live[key := liveUntil]) else l
  }

  /** How often `key` was accepted for `expiration` in committed history. */
  function Acceptances(l: Ledger, es: seq<Event>, key: NonceKey, expiration: nat): nat
    decreases |es|
  {
    if es == [] then 0
    else
      (if es[0] == Attempt(key, expiration, true) && Verify(l, key, expiration).Accepted? then 1 else 0)
      + Acceptances(Apply(l, es[0]), es[1..], key, expiration)
  }

  /** The nonce can no longer serve a signature with this expiration. */
  ghost predicate Blocked(l: Ledger, key: NonceKey, expiration: nat) {
    l.seqNum > expiration || (key in l.live && l.live[key] >= expiration)
  }

  /** A live nonce blocks the signature until it has expired, whatever happens in between. */
  lemma {:induction false} BlockedForever(l: Ledger, es: seq<Event>, key: NonceKey, expiration: nat)
    requires Blocked(l, key, expiration)
    ensures Acceptances(l, es, key, expiration) == 0
    decreases |es|
  {
    if es != [] {
      assert Blocked(Apply(l, es[0]), key, expiration);
      BlockedForever(Apply(l, es[0]), es[1..], key, expiration);
    }
  }

  /** No replay: over any history a signed nonce is accepted at most once. */
  lemma {:induction false} AcceptedAtMostOnce(l: Ledger, es: seq<Event>, key: NonceKey, expiration: nat)
    ensures Acceptances(l, es, key, expiration) <= 1
    decreases |es|
  {
    if es != [] {
      if es[0] == Attempt(key, expiration, true) && Verify(l, key, expiration).Accepted? {
        BlockedForever(Apply(l, es[0]), es[1..], key, expiration);
      } else {
        AcceptedAtMostOnce(Apply(l, es[0]), es[1..], key, expiration);
      }
    }
  }

  /** A used nonce becomes usable again exactly when its entry has expired, which is after every
      signature it served: the next signature accepted on it expires strictly later. */
  lemma ReuseOnlyAfterExpiry(l: Ledger, es: seq<Event>, key: NonceKey, first: nat, second: nat)
    requires Verify(l, key, first).Accepted?
    requires Acceptances(Apply(l, Attempt(key, first, true)), es, key, second) > 0
    ensures first < second
  {
    if second <= first {
      BlockedForever(Apply(l, Attempt(key, first, true)), es, key, second);
    }
  }
}
