/** The external form of a tree, in full or reduced to the nodes that were used. */
module InvocationExport {
  import opened InvocationTree

  function Export(t: Invocation, usedOnly: bool): Invocation
    decreases t, 1
  {
    Invocation(t.fn, ExportAll(t.subs, usedOnly), false)
  }

  function ExportAll(ts: seq<Invocation>, usedOnly: bool): seq<Invocation>
    decreases ts, 0
  {
    if ts == [] then []
    else
      (if ts[0].exhausted || !usedOnly then [Export(ts[0], usedOnly)] else []) + ExportAll(ts[1..], usedOnly)
  }

  /** All nodes with their depths, parents first: this list determines the tree. */
  function Listing(t: Invocation, depth: nat): seq<(nat, Function)>
    decreases t, 1
  {
    [(depth, t.fn)] + ListingAll(t.subs, depth + 1)
  }

  function ListingAll(ts: seq<Invocation>, depth: nat): seq<(nat, Function)>
    decreases ts, 0
  {
    if ts == [] then [] else Listing(ts[0], depth) + ListingAll(ts[1..], depth)
  }

  /** The used nodes with their depths, wherever they hang. */
  function Used(t: Invocation, depth: nat): seq<(nat, Function)>
    decreases t, 1
  {
    (if t.exhausted then [(depth, t.fn)] else []) + UsedAll(t.subs, depth + 1)
  }

  function UsedAll(ts: seq<Invocation>, depth: nat): seq<(nat, Function)>
    decreases ts, 0
  {
    if ts == [] then [] else Used(ts[0], depth) + UsedAll(ts[1..], depth)
  }

  ghost predicate ClosedUnder(ts: seq<Invocation>, used: bool) {
    forall i :: 0 <= i < |ts| ==> (ts[i].exhausted ==> used) && Closed(ts[i])
  }

  lemma {:induction false} UnusedClosed(t: Invocation, depth: nat)
    requires !t.exhausted
    ensures Closed(t) <==> Used(t, depth) == []
    decreases t, 1
  {
    UnusedClosedAll(t.subs, depth + 1);
  }

  lemma {:induction false} UnusedClosedAll(ts: seq<Invocation>, depth: nat)
    ensures ClosedUnder(ts, false) <==> UsedAll(ts, depth) == []
    decreases ts, 0
  {
    if ts != [] {
      UnusedClosedAll(ts[1..], depth);
      assert ts == [ts[0]] + ts[1..];
      assert ClosedUnder(ts, false) <==> (!ts[0].exhausted && Closed(ts[0]) && ClosedUnder(ts[1..], false));
      if !ts[0].exhausted {
        UnusedClosed(ts[0], depth);
      }
    }
  }

  /** Under a used root, the reduced form keeps the used nodes and nothing else exactly when no used
      node hangs under an unused one; otherwise it loses some. */
  lemma {:induction false} ReducedExportExact(t: Invocation, depth: nat)
    requires t.exhausted
    ensures Closed(t) <==> Listing(Export(t, true), depth) == Used(t, depth)
    ensures |Listing(Export(t, true), depth)| <= |Used(t, depth)|
    ensures !Closed(t) ==> |Listing(Export(t, true), depth)| < |Used(t, depth)|
    decreases t, 1
  {
    ReducedExportAll(t.subs, depth + 1);
    assert Closed(t) <==> ClosedUnder(t.subs, true);
  }

  lemma {:induction false} ReducedExportAll(ts: seq<Invocation>, depth: nat)
    ensures ClosedUnder(ts, true) ==> ListingAll(ExportAll(ts, true), depth) == UsedAll(ts, depth)
    ensures |ListingAll(ExportAll(ts, true), depth)| <= |UsedAll(ts, depth)|
    ensures !ClosedUnder(ts, true) ==> |ListingAll(ExportAll(ts, true), depth)| < |UsedAll(ts, depth)|
    decreases ts, 0
  {
    if ts != [] {
      ReducedExportAll(ts[1..], depth);
      assert ts == [ts[0]] + ts[1..];
      assert ClosedUnder(ts, true) <==> (Closed(ts[0]) && ClosedUnder(ts[1..], true));
      if ts[0].exhausted {
        ReducedExportExact(ts[0], depth);
        assert ExportAll(ts, true)[1..] == ExportAll(ts[1..], true);
      } else {
        UnusedClosed(ts[0], depth);
        assert ExportAll(ts, true) == ExportAll(ts[1..], true);
      }
    }
  }

  /** The full form drops the flags and nothing else. */
  lemma {:induction false} FullExportIsFresh(t: Invocation)
    ensures Export(t, false) == Fresh(t)
    decreases t, 1
  {
    FullExportAll(t.subs);
  }

  lemma {:induction false} FullExportAll(ts: seq<Invocation>)
    ensures |ExportAll(ts, false)| == |ts|
    ensures forall i :: 0 <= i < |ts| ==> ExportAll(ts, false)[i] == Fresh(ts[i])
    decreases ts, 0
  {
    if ts != [] {
      FullExportIsFresh(ts[0]);
      FullExportAll(ts[1..]);
      assert ts == [ts[0]] + ts[1..];
    }
  }
}
