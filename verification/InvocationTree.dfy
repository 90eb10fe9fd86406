/** The trees of authorized invocations, their snapshots, and the paths a tracker walks in them. */
module InvocationTree {
  import opened Basics

  datatype Function =
    | ContractFn(contract: Address, name: nat, args: nat)
    | CreateContractHostFn(createArgs: nat)

  /** One node and all its authorized sub-invocations; `exhausted` marks a node already used. */
  datatype Invocation = Invocation(fn: Function, subs: seq<Invocation>, exhausted: bool)

  /** The mutable part of an `Invocation`. */
  datatype Snapshot = Snapshot(exhausted: bool, subs: seq<Snapshot>)

  /** The tree as it is loaded from its external form: same functions, nothing used. */
  function Fresh(t: Invocation): (r: Invocation)
    ensures r.fn == t.fn && !r.exhausted && |r.subs| == |t.subs|
    decreases t
  {
    Invocation(t.fn, seq(|t.subs|, i requires 0 <= i < |t.subs| => Fresh(t.subs[i])), false)
  }

  /** Same functions at the same places, whatever has been used. */
  ghost predicate SameTree(t: Invocation, u: Invocation) {
    Fresh(t) == Fresh(u)
  }

  function Snap(t: Invocation): (r: Snapshot)
    ensures r.exhausted == t.exhausted && |r.subs| == |t.subs|
    decreases t
  {
    Snapshot(t.exhausted, seq(|t.subs|, i requires 0 <= i < |t.subs| => Snap(t.subs[i])))
  }

  /** Writes the flags of a snapshot back; `None` when the shapes differ. */
  function Restore(t: Invocation, s: Snapshot): (r: Option<Invocation>)
    decreases t
  {
    if |t.subs| != |s.subs| then None
    else if exists i :: 0 <= i < |t.subs| && Restore(t.subs[i], s.subs[i]).None? then None
    else Some(Invocation(t.fn,
                         seq(|t.subs|, i requires 0 <= i < |t.subs| => Restore(t.subs[i], s.subs[i]).value),
                         s.exhausted))
  }

  /** Rolling a tree back to a snapshot recovers every flag, whatever was used in between. */
  lemma {:induction false} RestoreRecovers(t: Invocation, u: Invocation)
    requires SameTree(t, u)
    ensures Restore(u, Snap(t)) == Some(t)
    decreases t
  {
    forall i | 0 <= i < |t.subs|
      ensures Restore(u.subs[i], Snap(t).subs[i]) == Some(t.subs[i])
    {
      assert Fresh(t).subs[i] == Fresh(u).subs[i];
      RestoreRecovers(t.subs[i], u.subs[i]);
    }
    assert Restore(u, Snap(t)).value.subs == t.subs;
    assert Fresh(t).fn == Fresh(u).fn;
  }

  // ---------- paths ----------

  predicate ValidPath(t: Invocation, p: seq<nat>)
    decreases |p|
  {
    p == [] || (p[0] < |t.subs| && ValidPath(t.subs[p[0]], p[1..]))
  }

  function At(t: Invocation, p: seq<nat>): Invocation
    requires ValidPath(t, p)
    decreases |p|
  {
    if p == [] then t else At(t.subs[p[0]], p[1..])
  }

  /** Replaces the node at the end of a path. */
  function Put(t: Invocation, p: seq<nat>, n: Invocation): (r: Invocation)
    requires ValidPath(t, p)
    ensures p != [] ==> r.exhausted == t.exhausted && r.fn == t.fn && |r.subs| == |t.subs|
    decreases |p|
  {
    if p == [] then n else t.(subs := t.subs[p[0] := Put(t.subs[p[0]], p[1..], n)])
  }

  /** Uses the node at the end of a path. */
  function Exhaust(t: Invocation, p: seq<nat>): Invocation
    requires ValidPath(t, p)
  {
    Put(t, p, At(t, p).(exhausted := true))
  }

  /** Every node on the way to the end of `p`, both ends included, has been used. */
  predicate Spent(t: Invocation, p: seq<nat>)
    decreases |p|
  {
    t.exhausted && (p == [] || (p[0] < |t.subs| && Spent(t.subs[p[0]], p[1..])))
  }

  /** A used node never hangs under an unused one. */
  ghost predicate Closed(t: Invocation)
    decreases t
  {
    forall i :: 0 <= i < |t.subs| ==> (t.subs[i].exhausted ==> t.exhausted) && Closed(t.subs[i])
  }

  lemma {:induction false} PathStep(t: Invocation, p: seq<nat>, k: nat)
    requires ValidPath(t, p)
    ensures ValidPath(t, p + [k]) <==> k < |At(t, p).subs|
    ensures k < |At(t, p).subs| ==> At(t, p + [k]) == At(t, p).subs[k]
    decreases |p|
  {
    if p == [] {
      assert (p + [k])[1..] == [];
    } else {
      assert (p + [k])[1..] == p[1..] + [k];
      PathStep(t.subs[p[0]], p[1..], k);
    }
  }

  lemma {:induction false} SpentPath(t: Invocation, p: seq<nat>)
    requires Spent(t, p)
    ensures ValidPath(t, p) && At(t, p).exhausted
    decreases |p|
  {
    if p != [] {
      SpentPath(t.subs[p[0]], p[1..]);
    }
  }

  lemma {:induction false} SpentPrefix(t: Invocation, p: seq<nat>, k: nat)
    requires Spent(t, p + [k])
    ensures Spent(t, p)
    decreases |p|
  {
    if p != [] {
      assert (p + [k])[1..] == p[1..] + [k];
      SpentPrefix(t.subs[p[0]], p[1..], k);
    }
  }

  /** Using a child of a used node keeps the used nodes closed under parents. */
  lemma {:induction false} ExhaustChild(t: Invocation, p: seq<nat>, k: nat)
    requires Closed(t) && Spent(t, p) && ValidPath(t, p + [k])
    ensures Closed(Exhaust(t, p + [k])) && Spent(Exhaust(t, p + [k]), p + [k])
    ensures SameTree(t, Exhaust(t, p + [k]))
    decreases |p|
  {
    var q := p + [k];
    var u := Exhaust(t, q);
    var h := q[0];
    assert p != [] ==> q[1..] == p[1..] + [k];
    if p == [] {
      var n := At(t, q).(exhausted := true);
      assert q[1..] == [] && At(t, q) == t.subs[h];
      assert Put(t.subs[h], q[1..], n) == n;
      assert u.subs[h] == t.subs[h].(exhausted := true);
      assert Closed(u.subs[h]) by { ClosedWhenUsed(t.subs[h]); }
      SameFresh(t.subs[h], u.subs[h]);
    } else {
      ExhaustChild(t.subs[h], p[1..], k);
    }
    assert forall i :: 0 <= i < |t.subs| && i != h ==> u.subs[i] == t.subs[i];
    assert Fresh(u).subs == Fresh(t).subs by {
      assert forall i :: 0 <= i < |t.subs| ==> Fresh(u).subs[i] == Fresh(t).subs[i];
    }
  }

  /** Using one node changes the flag of that node and of no other. */
  lemma {:induction false} ExhaustExact(t: Invocation, p: seq<nat>, q: seq<nat>)
    requires ValidPath(t, p)
    ensures ValidPath(Exhaust(t, p), q) <==> ValidPath(t, q)
    ensures ValidPath(t, q) ==> (At(Exhaust(t, p), q).exhausted <==> At(t, q).exhausted || q == p)
    ensures ValidPath(t, q) ==> At(Exhaust(t, p), q).fn == At(t, q).fn
    decreases |p|
  {
    if p != [] && q != [] && p[0] == q[0] && p[0] < |t.subs| {
      ExhaustExact(t.subs[p[0]], p[1..], q[1..]);
      assert q == p <==> q[1..] == p[1..] by { assert p == [p[0]] + p[1..] && q == [q[0]] + q[1..]; }
    }
  }

  lemma ClosedWhenUsed(t: Invocation)
    requires Closed(t)
    ensures Closed(t.(exhausted := true))
  {}

  lemma SameFresh(t: Invocation, u: Invocation)
    requires u == t.(exhausted := !t.exhausted) || u == t.(exhausted := true)
    ensures Fresh(t) == Fresh(u)
  {}
}
