/** Signature check of a classic account: ordered keys, valid signatures, and enough weight. */
module AccountSignatures {
  import opened Basics

  const MAX_ACCOUNT_SIGNATURES: nat := 20

  /** Public keys are compared as 256-bit numbers, which is the order of their bytes. */
  datatype SignerKey = Ed25519(publicKey: nat) | OtherKey(hash: nat)

  datatype Signer = Signer(key: SignerKey, weight: nat)

  datatype AccountEntry = AccountEntry(id: nat, masterWeight: nat, mediumThreshold: nat, signers: seq<Signer>)

  datatype Signature = Signature(publicKey: nat, signature: nat)

  predicate WellFormed(a: AccountEntry) {
    a.masterWeight <= 255 && a.mediumThreshold <= 255
  }

  /** The weight of the first signer with this key, at most 255; 0 if there is none. */
  function ListedWeight(pk: nat, signers: seq<Signer>): (w: nat)
    ensures w <= 255
  {
    if signers == [] then 0
    else if signers[0].key == Ed25519(pk) then Min(signers[0].weight, 255)
    else ListedWeight(pk, signers[1..])
  }

  function SignerWeight(pk: nat, a: AccountEntry): nat {
    if a.id == pk then a.masterWeight else ListedWeight(pk, a.signers)
  }

  /** The first signer with this key is number `i`. */
  ghost predicate FirstListed(pk: nat, signers: seq<Signer>, i: nat) {
    i < |signers| && signers[i].key == Ed25519(pk) && forall j :: 0 <= j < i ==> signers[j].key != Ed25519(pk)
  }

  lemma {:induction false} ListedWeightExact(pk: nat, signers: seq<Signer>)
    ensures forall i: nat :: FirstListed(pk, signers, i) ==> ListedWeight(pk, signers) == Min(signers[i].weight, 255)
    ensures (forall i :: 0 <= i < |signers| ==> signers[i].key != Ed25519(pk)) ==> ListedWeight(pk, signers) == 0
    decreases |signers|
  {
    if signers != [] && signers[0].key != Ed25519(pk) {
      ListedWeightExact(pk, signers[1..]);
      forall i: nat | FirstListed(pk, signers, i)
        ensures ListedWeight(pk, signers) == Min(signers[i].weight, 255)
      {
        assert FirstListed(pk, signers[1..], i - 1);
      }
    }
  }

  /** The master weight for the account's own key, the weight of the first signer with the key, or 0. */
  method GetSignerWeight(pk: nat, a: AccountEntry) returns (w: nat)
    ensures w == SignerWeight(pk, a)
    ensures a.id == pk ==> w == a.masterWeight
    ensures a.id != pk ==> forall i: nat :: FirstListed(pk, a.signers, i) ==> w == Min(a.signers[i].weight, 255)
    ensures a.id != pk && (forall i :: 0 <= i < |a.signers| ==> a.signers[i].key != Ed25519(pk)) ==> w == 0
  {
    ListedWeightExact(pk, a.signers);
    if a.id == pk {
      return a.masterWeight;
    }
    for i := 0 to |a.signers|
      invariant ListedWeight(pk, a.signers) == ListedWeight(pk, a.signers[i..])
    {
      if a.signers[i].key == Ed25519(pk) {
        return Min(a.signers[i].weight, 255);
      }
    }
    w := 0;
  }

  function TotalWeight(sigs: seq<Signature>, a: AccountEntry): nat {
    if sigs == [] then 0
    else TotalWeight(sigs[..|sigs| - 1], a) + SignerWeight(sigs[|sigs| - 1].publicKey, a)
  }

  /** Every signature adds the weight of its key. */
  lemma {:induction false} WeightsAdd(x: seq<Signature>, y: seq<Signature>, s: Signature, a: AccountEntry)
    ensures TotalWeight(x + y, a) == TotalWeight(x, a) + TotalWeight(y, a)
    ensures TotalWeight([s], a) == SignerWeight(s.publicKey, a)
    decreases |y|
  {
    assert [s][..0] == [];
    if y == [] {
      assert x + y == x;
    } else {
      assert (x + y)[..|x + y| - 1] == x + y[..|y| - 1];
      WeightsAdd(x, y[..|y| - 1], s, a);
    }
  }

  predicate StrictlyOrdered(sigs: seq<Signature>) {
    forall i, j :: 0 <= i < j < |sigs| ==> sigs[i].publicKey < sigs[j].publicKey
  }

  ghost predicate Accepted(a: AccountEntry, sigs: seq<Signature>, verifies: Signature -> bool) {
    && 1 <= |sigs| <= 20
    && StrictlyOrdered(sigs)
    && (forall i :: 0 <= i < |sigs| ==> verifies(sigs[i]) && SignerWeight(sigs[i].publicKey, a) > 0)
    && TotalWeight(sigs, a) >= a.mediumThreshold
  }

  /** Accepts exactly one to twenty valid signatures in strict key order, each of a key with weight,
      whose weights reach the medium threshold; the saturating sum never saturates. */
  method CheckAccountAuthentication(a: AccountEntry, sigs: seq<Signature>, verifies: Signature -> bool)
    returns (ok: bool)
    requires WellFormed(a)
    ensures ok <==> Accepted(a, sigs, verifies)
  {
    if |sigs| > MAX_ACCOUNT_SIGNATURES || |sigs| == 0 {
      return false;
    }
    var prev: Option<nat> := None;
    var weight := 0;
    for i := 0 to |sigs|
      invariant prev == if i == 0 then None else Some(sigs[i - 1].publicKey)
      invariant StrictlyOrdered(sigs[..i])
      invariant forall j :: 0 <= j < i ==> verifies(sigs[j]) && SignerWeight(sigs[j].publicKey, a) > 0
      invariant weight == TotalWeight(sigs[..i], a) <= 255 * i
    {
      var sig := sigs[i];
      assert sigs[..i + 1][..i] == sigs[..i];
      if prev.Some? && prev.value >= sig.publicKey {
        assert !StrictlyOrdered(sigs);
        return false;
      }
      assert StrictlyOrdered(sigs[..i + 1]) by {
        assert forall j :: 0 <= j < i ==> sigs[..i][j].publicKey <= sigs[..i][i - 1].publicKey;
      }
      if !verifies(sig) {
        return false;
      }
      var signerWeight := GetSignerWeight(sig.publicKey, a);
      if signerWeight == 0 {
        return false;
      }
      weight := Min(weight + signerWeight, U32_MAX);
      prev := Some(sig.publicKey);
    }
    assert sigs[..|sigs|] == sigs;
    ok := weight >= a.mediumThreshold;
  }

  // ---------- no key counts twice ----------

  function ListedTotal(sigs: seq<Signature>, signers: seq<Signer>): nat {
    if sigs == [] then 0 else ListedTotal(sigs[1..], signers) + ListedWeight(sigs[0].publicKey, signers)
  }

  function SignersTotal(signers: seq<Signer>): nat {
    if signers == [] then 0
    else (if signers[0].key.Ed25519? then Min(signers[0].weight, 255) else 0) + SignersTotal(signers[1..])
  }

  lemma OrderedTail(sigs: seq<Signature>)
    requires StrictlyOrdered(sigs) && sigs != []
    ensures StrictlyOrdered(sigs[1..])
    ensures forall j :: 0 <= j < |sigs[1..]| ==> sigs[1..][j].publicKey > sigs[0].publicKey
  {}

  /** One more signer adds its weight at most once. */
  lemma {:induction false} OneSignerCountsOnce(sigs: seq<Signature>, s: Signer, rest: seq<Signer>)
    requires StrictlyOrdered(sigs)
    ensures ListedTotal(sigs, [s] + rest)
         <= ListedTotal(sigs, rest) + (if s.key.Ed25519? then Min(s.weight, 255) else 0)
    ensures (forall j :: 0 <= j < |sigs| ==> s.key != Ed25519(sigs[j].publicKey)) ==>
              ListedTotal(sigs, [s] + rest) == ListedTotal(sigs, rest)
    decreases |sigs|
  {
    if sigs != [] {
      OrderedTail(sigs);
      OneSignerCountsOnce(sigs[1..], s, rest);
      assert ([s] + rest)[1..] == rest;
      assert forall j :: 0 <= j < |sigs[1..]| ==> sigs[1..][j] == sigs[j + 1];
    }
  }

  lemma {:induction false} ListedTotalBounded(sigs: seq<Signature>, signers: seq<Signer>)
    requires StrictlyOrdered(sigs)
    ensures ListedTotal(sigs, signers) <= SignersTotal(signers)
    decreases |signers|
  {
    if signers == [] {
      NothingListed(sigs);
    } else {
      assert [signers[0]] + signers[1..] == signers;
      OneSignerCountsOnce(sigs, signers[0], signers[1..]);
      ListedTotalBounded(sigs, signers[1..]);
    }
  }

  lemma {:induction false} NothingListed(sigs: seq<Signature>)
    ensures ListedTotal(sigs, []) == 0
    decreases |sigs|
  {
    if sigs != [] {
      NothingListed(sigs[1..]);
    }
  }

  lemma {:induction false} TotalWeightCons(sigs: seq<Signature>, a: AccountEntry)
    requires sigs != []
    ensures TotalWeight(sigs, a) == SignerWeight(sigs[0].publicKey, a) + TotalWeight(sigs[1..], a)
    decreases |sigs|
  {
    if |sigs| > 1 {
      var front := sigs[..|sigs| - 1];
      TotalWeightCons(front, a);
      assert front[1..] == sigs[1..][..|sigs| - 2];
    } else {
      assert sigs[..0] == [] && sigs[1..] == [];
    }
  }

  /** The master key adds its weight at most once, the listed signers theirs. */
  lemma {:induction false} TotalWeightSplits(sigs: seq<Signature>, a: AccountEntry)
    requires StrictlyOrdered(sigs)
    ensures TotalWeight(sigs, a) <= a.masterWeight + ListedTotal(sigs, a.signers)
    ensures (forall j :: 0 <= j < |sigs| ==> sigs[j].publicKey != a.id) ==>
              TotalWeight(sigs, a) == ListedTotal(sigs, a.signers)
    decreases |sigs|
  {
    if sigs != [] {
      TotalWeightCons(sigs, a);
      OrderedTail(sigs);
      TotalWeightSplits(sigs[1..], a);
      assert forall j :: 0 <= j < |sigs[1..]| ==> sigs[1..][j] == sigs[j + 1];
    }
  }

  /** Accepted signatures come from different keys, and never weigh more than the account's own signers
      do when each is counted once. */
  lemma NoKeyCountsTwice(a: AccountEntry, sigs: seq<Signature>, verifies: Signature -> bool)
    requires Accepted(a, sigs, verifies)
    ensures forall i, j :: 0 <= i < j < |sigs| ==> sigs[i].publicKey != sigs[j].publicKey
    ensures a.mediumThreshold <= TotalWeight(sigs, a) <= a.masterWeight + SignersTotal(a.signers)
  {
    TotalWeightSplits(sigs, a);
    ListedTotalBounded(sigs, a.signers);
  }

  // ---------- the two-of-three account ----------

  predicate TwoOfThree(a: AccountEntry, x: nat, y: nat, z: nat) {
    && a.masterWeight == 0 && a.mediumThreshold == 2
    && a.signers == [Signer(Ed25519(x), 1), Signer(Ed25519(y), 1), Signer(Ed25519(z), 1)]
    && a.id != x && a.id != y && a.id != z && x != y && y != z && x != z
  }

  lemma {:induction false} UnitWeights(sigs: seq<Signature>, a: AccountEntry)
    requires forall i :: 0 <= i < |sigs| ==> SignerWeight(sigs[i].publicKey, a) == 1
    ensures TotalWeight(sigs, a) == |sigs|
    decreases |sigs|
  {
    if sigs != [] {
      UnitWeights(sigs[..|sigs| - 1], a);
    }
  }

  lemma MembersWeighOne(a: AccountEntry, x: nat, y: nat, z: nat, pk: nat)
    requires TwoOfThree(a, x, y, z)
    ensures SignerWeight(pk, a) == if pk in {x, y, z} then 1 else 0
  {
    var s2, s3 := a.signers[1..], a.signers[2..];
    assert s2 == [Signer(Ed25519(y), 1), Signer(Ed25519(z), 1)] && s2[1..] == s3;
    assert s3 == [Signer(Ed25519(z), 1)] && s3[1..] == [];
    assert ListedWeight(pk, s3) == if pk == z then 1 else 0;
    assert ListedWeight(pk, s2) == if pk == y || pk == z then 1 else 0;
  }

  /** With weights 1/1/1, master weight 0 and threshold 2, signatures are accepted exactly when at least
      two different members signed and nobody else did. */
  lemma TwoMembersNeeded(a: AccountEntry, x: nat, y: nat, z: nat, sigs: seq<Signature>, verifies: Signature -> bool)
    requires TwoOfThree(a, x, y, z)
    ensures Accepted(a, sigs, verifies) <==>
            && 2 <= |sigs| <= 20 && StrictlyOrdered(sigs)
            && (forall i :: 0 <= i < |sigs| ==> verifies(sigs[i]) && sigs[i].publicKey in {x, y, z})
  {
    forall i | 0 <= i < |sigs|
      ensures SignerWeight(sigs[i].publicKey, a) == if sigs[i].publicKey in {x, y, z} then 1 else 0
    {
      MembersWeighOne(a, x, y, z, sigs[i].publicKey);
    }
    if forall i :: 0 <= i < |sigs| ==> SignerWeight(sigs[i].publicKey, a) == 1 {
      UnitWeights(sigs, a);
    }
  }
}
