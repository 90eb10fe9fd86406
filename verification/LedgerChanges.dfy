/** Building storage from what a transaction supplies, and reporting what it changed. */
module LedgerChanges {
  import opened Basics
  import opened LedgerStorage
  import opened StorageReplay

  datatype TtlChange = TtlChange(durability: Kind, oldLiveUntil: nat, newLiveUntil: nat)

  datatype EntryChange = EntryChange(
    key: LedgerKey,
    readOnly: bool,
    oldSize: nat,
    newValue: Option<Entry>,
    ttl: Option<TtlChange>)

  /** The change reported for one key; `None` is an internal error. */
  function ChangeOf(fp: Footprint, init: StorageMap, k: LedgerKey, now: Option<Stored>): Option<EntryChange> {
    var before := if k in init then init[k] else None;
    if Durable(k) && before.Some? && before.value.liveUntil.None? then None
    else if Durable(k) && now.Some? && now.value.liveUntil.None? then None
    else if k !in fp then None
    else
      var oldLive := if Durable(k) && before.Some? then before.value.liveUntil.value else 0;
      var newLive := if Durable(k) && now.Some? then Max(now.value.liveUntil.value, oldLive) else 0;
      Some(EntryChange(k, fp[k] == ReadOnly,
                       if before.Some? then before.value.entry.size else 0,
                       if fp[k] == ReadWrite && now.Some? then Some(now.value.entry) else None,
                       if Durable(k) then Some(TtlChange(k.kind, oldLive, newLive)) else None))
  }

  /** An entry that can expire, without the end of its life. */
  predicate LacksLife(k: LedgerKey, v: Option<Stored>) {
    && (k.kind == TemporaryData || k.kind == PersistentData || k.kind == CodeKind)
    && v.Some? && v.value.liveUntil.None?
  }

  lemma ChangeExact(fp: Footprint, init: StorageMap, k: LedgerKey, now: Option<Stored>)
    ensures ChangeOf(fp, init, k, now).Some? <==>
            k in fp && !LacksLife(k, now) && (k in init ==> !LacksLife(k, init[k]))
  {}

  ghost predicate Reports(changes: seq<EntryChange>, fp: Footprint, init: StorageMap, entries: StorageMap) {
    && (forall i :: 0 <= i < |changes| ==>
          changes[i].key in entries
          && ChangeOf(fp, init, changes[i].key, entries[changes[i].key]) == Some(changes[i]))
    && (forall i, j :: 0 <= i < j < |changes| ==> changes[i].key != changes[j].key)
  }

  /** Walks the storage map and reports one change per key, in some order. */
  method GetLedgerChanges(fp: Footprint, entries: StorageMap, init: StorageMap)
    returns (r: Option<seq<EntryChange>>)
    ensures r.Some? <==> forall k :: k in entries ==> ChangeOf(fp, init, k, entries[k]).Some?
    ensures r.Some? <==> forall k :: k in entries ==>
              k in fp && !LacksLife(k, entries[k]) && (k in init ==> !LacksLife(k, init[k]))
    ensures r.Some? ==> Reports(r.value, fp, init, entries)
    ensures r.Some? ==> forall k :: k in entries ==> exists i :: 0 <= i < |r.value| && r.value[i].key == k
  {
    forall k | k in entries
      ensures ChangeOf(fp, init, k, entries[k]).Some?
              <==> k in fp && !LacksLife(k, entries[k]) && (k in init ==> !LacksLife(k, init[k]))
    {
      ChangeExact(fp, init, k, entries[k]);
    }
    hide ChangeOf, LacksLife;
    var changes: seq<EntryChange> := [];
    var rest := entries.Keys;
    while rest != {}
      invariant rest <= entries.Keys
      invariant Reports(changes, fp, init, entries)
      invariant forall i :: 0 <= i < |changes| ==> changes[i].key !in rest
      invariant forall k :: k in entries && k !in rest ==> exists i :: 0 <= i < |changes| && changes[i].key == k
      decreases rest
    {
      var k :| k in rest;
      var change := ChangeOf(fp, init, k, entries[k]);
      if change.None? {
        return None;
      }
      ghost var was := changes;
      changes := changes + [change.value];
      rest := rest - {k};
      forall j | j in entries && j !in rest ensures exists i :: 0 <= i < |changes| && changes[i].key == j {
        if j == k {
          assert changes[|was|].key == k;
        } else {
          var i :| 0 <= i < |was| && was[i].key == j;
          assert changes[i].key == j;
        }
      }
    }
    forall k | k in entries ensures ChangeOf(fp, init, k, entries[k]).Some? {
      var i :| 0 <= i < |changes| && changes[i].key == k;
    }
    r := Some(changes);
  }

  // ---------- what a transaction supplies ----------

  /** A decoded ledger entry with its TTL entry, if one came with it. */
  datatype Supplied = Supplied(key: LedgerKey, stored: Stored)

  predicate Acceptable(fp: Footprint, seqNum: nat, s: Supplied) {
    && Supported(s.key) && s.key in fp
    && (s.stored.liveUntil.Some? ==> s.stored.liveUntil.value >= seqNum)
    && (Durable(s.key) ==> s.stored.liveUntil.Some?)
  }

  /** The last entry supplied under a key. */
  function LastSupplied(es: seq<Supplied>, k: LedgerKey): Option<Stored> {
    if es == [] then None
    else if es[|es| - 1].key == k then Some(es[|es| - 1].stored)
    else LastSupplied(es[..|es| - 1], k)
  }

  method BuildStorageMap(fp: Footprint, es: seq<Supplied>, seqNum: nat) returns (r: Option<StorageMap>)
    ensures r.Some? <==>
            forall i :: 0 <= i < |es| ==>
              && es[i].key.kind != UnsupportedKind && es[i].key in fp
              && (es[i].stored.liveUntil.Some? ==> es[i].stored.liveUntil.value >= seqNum)
              && (es[i].key.kind == TemporaryData || es[i].key.kind == PersistentData || es[i].key.kind == CodeKind ==>
                    es[i].stored.liveUntil.Some?)
    ensures r.Some? ==> r.value.Keys == fp.Keys && forall k :: k in fp ==> r.value[k] == LastSupplied(es, k)
  {
    var m: StorageMap := map[];
    for i := 0 to |es|
      invariant forall j :: 0 <= j < i ==> Acceptable(fp, seqNum, es[j])
      invariant m.Keys <= fp.Keys
      invariant forall k :: k in m ==> m[k].Some?
      invariant forall k :: LastSupplied(es[..i], k) == if k in m then m[k] else None
    {
      if !Acceptable(fp, seqNum, es[i]) {
        return None;
      }
      assert es[..i + 1][..i] == es[..i];
      m := m[es[i].key := Some(es[i].stored)];
    }
    assert es[..|es|] == es;
    var rest := fp.Keys;
    ghost var loaded := m;
    while rest != {}
      invariant rest <= fp.Keys && m.Keys == loaded.Keys + (fp.Keys - rest)
      invariant forall k :: k in m ==> m[k] == if k in loaded then loaded[k] else None
      decreases rest
    {
      var k :| k in rest;
      if k !in m {
        m := m[k := None];
      }
      rest := rest - {k};
    }
    r := Some(m);
  }

  /** The entries of the snapshot under the footprint's keys, each once. */
  ghost predicate Enumerates(es: seq<Supplied>, fp: Footprint, src: Source) {
    && (forall i :: 0 <= i < |es| ==> es[i].key in fp && es[i].key in src && es[i].stored == src[es[i].key])
    && (forall k :: k in fp && k in src ==> exists i :: 0 <= i < |es| && es[i].key == k)
  }

  lemma {:induction false} LastSuppliedIsStored(es: seq<Supplied>, src: Source, k: LedgerKey)
    requires forall i :: 0 <= i < |es| ==> es[i].key in src && es[i].stored == src[es[i].key]
    ensures LastSupplied(es, k)
         == if exists i :: 0 <= i < |es| && es[i].key == k then Lookup(src, k) else None
    decreases |es|
  {
    if es != [] {
      var n := |es| - 1;
      LastSuppliedIsStored(es[..n], src, k);
      if es[n].key != k && exists i :: 0 <= i < |es| && es[i].key == k {
        var i :| 0 <= i < |es| && es[i].key == k;
        assert es[..n][i].key == k;
      }
    }
  }

  /** Loading the entries that a snapshot holds for a footprint gives the map that replaying starts from. */
  lemma SuppliedEntriesLoad(es: seq<Supplied>, fp: Footprint, src: Source, m: StorageMap)
    requires Enumerates(es, fp, src)
    requires m.Keys == fp.Keys && forall k :: k in fp ==> m[k] == LastSupplied(es, k)
    ensures m == LoadMap(fp, src)
  {
    forall k | k in fp ensures m[k] == Lookup(src, k) {
      LastSuppliedIsStored(es, src, k);
    }
  }

  // ---------- the footprint as two lists ----------

  method SplitFootprint(fp: Footprint) returns (readOnly: seq<LedgerKey>, readWrite: seq<LedgerKey>)
    ensures forall k :: k in readOnly <==> k in fp && fp[k] == ReadOnly
    ensures forall k :: k in readWrite <==> k in fp && fp[k] == ReadWrite
  {
    readOnly, readWrite := [], [];
    var rest := fp.Keys;
    while rest != {}
      invariant rest <= fp.Keys
      invariant forall k :: k in readOnly <==> k in fp && k !in rest && fp[k] == ReadOnly
      invariant forall k :: k in readWrite <==> k in fp && k !in rest && fp[k] == ReadWrite
      decreases rest
    {
      var k :| k in rest;
      if fp[k] == ReadOnly {
        readOnly := readOnly + [k];
      } else {
        readWrite := readWrite + [k];
      }
      rest := rest - {k};
    }
  }

  /** A key listed both ways ends up read-only; an unsupported one is an error. */
  method BuildFootprint(readOnly: seq<LedgerKey>, readWrite: seq<LedgerKey>) returns (r: Option<Footprint>)
    ensures r.Some? <==> forall k :: k in readOnly || k in readWrite ==> k.kind != UnsupportedKind
    ensures r.Some? ==> forall k :: k in r.value <==> k in readOnly || k in readWrite
    ensures r.Some? ==> forall k :: k in r.value ==> r.value[k] == if k in readOnly then ReadOnly else ReadWrite
  {
    var fp: Footprint := map[];
    for i := 0 to |readWrite|
      invariant forall j :: 0 <= j < i ==> Supported(readWrite[j])
      invariant forall k :: k in fp <==> k in readWrite[..i]
      invariant forall k :: k in fp ==> fp[k] == ReadWrite
    {
      if !Supported(readWrite[i]) {
        return None;
      }
      fp := fp[readWrite[i] := ReadWrite];
    }
    for i := 0 to |readOnly|
      invariant forall j :: 0 <= j < i ==> Supported(readOnly[j])
      invariant forall k :: k in fp <==> k in readOnly[..i] || k in readWrite
      invariant forall k :: k in fp ==> fp[k] == if k in readOnly[..i] then ReadOnly else ReadWrite
    {
      if !Supported(readOnly[i]) {
        return None;
      }
      fp := fp[readOnly[i] := ReadOnly];
    }
    r := Some(fp);
  }

  /** The two lists carry a footprint of supported keys without loss. */
  method FootprintRoundTrip(fp: Footprint) returns (r: Option<Footprint>)
    requires forall k :: k in fp ==> Supported(k)
    ensures r == Some(fp)
  {
    var readOnly, readWrite := SplitFootprint(fp);
    r := BuildFootprint(readOnly, readWrite);
    assert r.value == fp;
  }

  // ---------- what the reported changes promise ----------

  /** Entries that expire carry the end of their life. */
  ghost predicate TtlsPresent(m: StorageMap) {
    forall k :: k in m && Durable(k) && m[k].Some? ==> m[k].value.liveUntil.Some?
  }

  ghost predicate PutsCarryTtl(cmds: seq<Command>)
    decreases cmds, 0
  {
    forall i :: 0 <= i < |cmds| ==> CommandCarriesTtl(cmds[i])
  }

  ghost predicate CommandCarriesTtl(cmd: Command)
    decreases cmd, 1
  {
    match cmd
    case Do(op) => op.Put? && Durable(op.key) ==> op.liveUntil.Some?
    case Scope(body, _) => PutsCarryTtl(body)
  }

  lemma CommandKeepsTtls(c: Clock, s: State, cmd: Command)
    requires s.mode.Enforcing? && TtlsPresent(s.entries) && CommandCarriesTtl(cmd)
    ensures RunCommand(c, s, cmd).0.mode.Enforcing? && TtlsPresent(RunCommand(c, s, cmd).0.entries)
    decreases cmd, 1
  {
    match cmd
    case Do(op) =>
    case Scope(body, _) => RunKeepsTtls(c, s, body);
  }

  lemma RunKeepsTtls(c: Clock, s: State, cmds: seq<Command>)
    requires s.mode.Enforcing? && TtlsPresent(s.entries) && PutsCarryTtl(cmds)
    ensures Run(c, s, cmds).0.mode.Enforcing? && TtlsPresent(Run(c, s, cmds).0.entries)
    decreases cmds, 0
  {
    if cmds != [] {
      CommandKeepsTtls(c, s, cmds[0]);
      RunKeepsTtls(c, RunCommand(c, s, cmds[0]).0, cmds[1..]);
    }
  }

  /** After any enforcing run from a map that carries the TTLs it has to: the change of a key is an internal error
      exactly when its entry can expire and was last written without a TTL. Otherwise a read-only key reports no
      new value and its entry is the one it started with. The change reports the size and the end of the life the
      entry started with, the value it has now, and the end of its life now, never an earlier one; for an entry that
      is gone, no value and no life. */
  lemma ChangesAfterRun(c: Clock, fp: Footprint, start: StorageMap, cmds: seq<Command>, k: LedgerKey)
    requires start.Keys == fp.Keys && TtlsPresent(start) && k in fp
    ensures var now := Run(c, State(fp, Enforcing, start), cmds).0.entries;
            && now.Keys == fp.Keys
            && (ChangeOf(fp, start, k, now[k]).None? <==>
                  Durable(k) && now[k].Some? && now[k].value.liveUntil.None?)
            && (fp[k] == ReadOnly ==> ChangeOf(fp, start, k, now[k]).Some?)
            && (ChangeOf(fp, start, k, now[k]).Some? ==>
                  var change := ChangeOf(fp, start, k, now[k]).value;
                  && change.key == k && change.readOnly == (fp[k] == ReadOnly)
                  && change.oldSize == (if start[k].Some? then start[k].value.entry.size else 0)
                  && (change.ttl.Some? <==> k.kind == TemporaryData || k.kind == PersistentData || k.kind == CodeKind)
                  && (change.ttl.Some? ==>
                        var was := if start[k].Some? then start[k].value.liveUntil.value else 0;
                        && change.ttl.value.durability == k.kind && change.ttl.value.oldLiveUntil == was
                        && change.ttl.value.newLiveUntil
                           == if now[k].Some? then Max(now[k].value.liveUntil.value, was) else 0)
                  && (fp[k] == ReadOnly ==>
                        && change.readOnly && change.newValue.None?
                        && (start[k].None? <==> now[k].None?)
                        && (now[k].Some? ==> now[k].value.entry == start[k].value.entry)
                        && (change.ttl.Some? && change.ttl.value.newLiveUntil != change.ttl.value.oldLiveUntil ==>
                              MaxLiveUntil(c).Some? && change.ttl.value.newLiveUntil <= MaxLiveUntil(c).value))
                  && (fp[k] == ReadWrite ==>
                        change.newValue == (if now[k].Some? then Some(now[k].value.entry) else None))
                  && (change.ttl.Some? && now[k].Some? ==>
                        change.ttl.value.newLiveUntil >= change.ttl.value.oldLiveUntil))
  {
    RunConfined(c, State(fp, Enforcing, start), cmds, start);
    hide Run;
  }

  /** So if every put of an entry that can expire carries a TTL, no change is an internal error. */
  lemma NoChangeMissing(c: Clock, fp: Footprint, start: StorageMap, cmds: seq<Command>)
    requires start.Keys == fp.Keys && TtlsPresent(start) && PutsCarryTtl(cmds)
    ensures var now := Run(c, State(fp, Enforcing, start), cmds).0.entries;
            forall k :: k in now ==> ChangeOf(fp, start, k, now[k]).Some?
  {
    var s := State(fp, Enforcing, start);
    RunKeepsTtls(c, s, cmds);
    var now := Run(c, s, cmds).0.entries;
    RunConfined(c, s, cmds, start);
    hide Run, ChangeOf;
    forall k | k in now ensures ChangeOf(fp, start, k, now[k]).Some? {
      ChangesAfterRun(c, fp, start, cmds, k);
    }
  }
}
