/** What reads see, in both modes: the last write, or else what the storage started with. */
module StorageReads {
  import opened Basics
  import opened LedgerStorage

  /** Every kind of read of `k` succeeds and agrees on what is there. */
  ghost predicate Reads(c: Clock, s: State, k: LedgerKey, v: Option<Stored>) {
    && Apply(c, s, TryGet(k)).1 == Value(v)
    && Apply(c, s, Get(k)).1 == (if v.Some? then Single(v.value.entry) else Error(MissingValue))
    && Apply(c, s, Has(k)).1 == Present(v.Some?)
  }

  predicate Readable(s: State, k: LedgerKey, v: Option<Stored>) {
    Supported(k)
    && match s.mode
       case Recording(src) => (if k in s.entries then s.entries[k] else Lookup(src, k)) == v
       case Enforcing => Allowed(s.footprint, k, ReadOnly) && k in s.entries && s.entries[k] == v
  }

  lemma ReadsExact(c: Clock, s: State, k: LedgerKey, v: Option<Stored>)
    ensures Reads(c, s, k, v) <==> Readable(s, k, v)
  {}

  predicate Writes(op: Op, k: LedgerKey) {
    (op.Put? || op.Del? || op.ExtendTtl?) && op.key == k
  }

  /** No operation outside failing scopes writes under `k`. */
  ghost predicate Leaves(cmds: seq<Command>, k: LedgerKey)
    decreases cmds, 0
  {
    forall i :: 0 <= i < |cmds| ==> CommandLeaves(cmds[i], k)
  }

  ghost predicate CommandLeaves(cmd: Command, k: LedgerKey)
    decreases cmd, 1
  {
    match cmd
    case Do(op) => !Writes(op, k)
    case Scope(body, fails) => fails || Leaves(body, k)
  }

  // ---------- what one operation makes readable ----------

  /** A put that is done is what the next read sees. */
  lemma PutIsRead(c: Clock, s: State, k: LedgerKey, e: Entry, liveUntil: Option<nat>)
    requires Apply(c, s, Put(k, e, liveUntil)).1 == Done
    ensures Reads(c, Apply(c, s, Put(k, e, liveUntil)).0, k, Some(Stored(e, liveUntil)))
  {}

  lemma DelIsRead(c: Clock, s: State, k: LedgerKey)
    requires Apply(c, s, Del(k)).1 == Done
    ensures Reads(c, Apply(c, s, Del(k)).0, k, None)
  {}

  /** The end of an entry's life after an extension: only one with at most `threshold` ledgers left is extended, to
      `extendTo` ledgers from now, or for a persistent entry to the longest life there is if that is shorter. */
  function Prolonged(c: Clock, until: nat, threshold: nat, extendTo: nat): nat {
    if until - c.seqNum > threshold then until
    else Max(until, Min(c.seqNum + extendTo, c.seqNum + Max(c.maxTtl, 1) - 1))
  }

  /** An extension is done exactly for a live entry, in 32 bits, and for a temporary entry within the longest life. */
  ghost predicate Extends(c: Clock, k: LedgerKey, v: Option<Stored>, threshold: nat, extendTo: nat) {
    && threshold <= extendTo && v.Some? && v.value.liveUntil.Some? && v.value.liveUntil.value >= c.seqNum
    && c.seqNum + extendTo < 0x1_0000_0000 && c.seqNum + Max(c.maxTtl, 1) <= 0x1_0000_0000
    && (k.kind == PersistentData || k.kind == CodeKind || extendTo < Max(c.maxTtl, 1))
  }

  /** It changes nothing but the end of the life; an extension that is not done changes nothing. */
  lemma ExtensionIsRead(c: Clock, s: State, k: LedgerKey, threshold: nat, extendTo: nat, v: Option<Stored>)
    requires Reads(c, s, k, v)
    ensures var r := Apply(c, s, ExtendTtl(k, threshold, extendTo));
            && (r.1 == Done <==> Extends(c, k, v, threshold, extendTo))
            && (r.1 == Done ==>
                  Reads(c, r.0, k, Some(v.value.(liveUntil := Some(
                                          Prolonged(c, v.value.liveUntil.value, threshold, extendTo))))))
            && (r.1 != Done ==> Reads(c, r.0, k, v))
            && (r.1 == Error(InvalidInput) <==> threshold > extendTo)
            && (r.1 == Error(MissingValue) <==> threshold <= extendTo && v.None?)
            && (r.1 == Error(InvalidAction) <==>
                  && threshold <= extendTo && v.Some? && v.value.liveUntil.Some?
                  && v.value.liveUntil.value >= c.seqNum && k.kind == TemporaryData
                  && c.seqNum + extendTo < 0x1_0000_0000 && c.seqNum + Max(c.maxTtl, 1) <= 0x1_0000_0000
                  && extendTo >= Max(c.maxTtl, 1))
            && (r.1 == Done || r.1 in {Error(InvalidInput), Error(MissingValue), Error(InvalidAction),
                                       Error(InternalError)})
  {}

  /** An unsupported key or entry is an internal error, and a key outside the footprint exceeds its limit, whatever the
      operation; neither changes anything. */
  lemma RefusedAccess(c: Clock, s: State, op: Op)
    ensures op.key.kind == UnsupportedKind || (op.Put? && !op.entry.supported) ==>
              Apply(c, s, op) == (s, Error(InternalError))
    ensures op.key.kind != UnsupportedKind && (op.Put? ==> op.entry.supported) && s.mode.Enforcing?
            && op.key !in s.footprint && (op.ExtendTtl? ==> op.threshold <= op.extendTo) ==>
              Apply(c, s, op) == (s, Error(ExceededLimit))
  {}

  /** Any other operation leaves a read as it is. */
  lemma OthersAreRead(c: Clock, s: State, op: Op, k: LedgerKey, v: Option<Stored>)
    requires Reads(c, s, k, v) && !Writes(op, k)
    ensures Reads(c, Apply(c, s, op).0, k, v)
  {
    ReadsExact(c, s, k, v);
    ReadsExact(c, Apply(c, s, op).0, k, v);
    hide Reads, TargetTtl;
  }

  // ---------- over runs ----------

  ghost predicate SameAccess(s: State, t: State) {
    t.mode == s.mode && (s.mode.Enforcing? ==> t.footprint == s.footprint)
  }

  lemma AccessStays(c: Clock, s: State, op: Op)
    ensures SameAccess(s, Apply(c, s, op).0)
  {}

  lemma CommandAccessStays(c: Clock, s: State, cmd: Command)
    ensures SameAccess(s, RunCommand(c, s, cmd).0)
    decreases cmd, 1
  {
    match cmd
    case Do(op) => AccessStays(c, s, op);
    case Scope(body, _) => RunAccessStays(c, s, body);
  }

  lemma RunAccessStays(c: Clock, s: State, cmds: seq<Command>)
    ensures SameAccess(s, Run(c, s, cmds).0)
    decreases cmds, 0
  {
    if cmds != [] {
      CommandAccessStays(c, s, cmds[0]);
      RunAccessStays(c, RunCommand(c, s, cmds[0]).0, cmds[1..]);
    }
  }

  lemma SameMapIsRead(c: Clock, s: State, t: State, k: LedgerKey, v: Option<Stored>)
    requires Reads(c, s, k, v) && SameAccess(s, t) && t.entries == s.entries
    ensures Reads(c, t, k, v)
  {}

  /** A scope that fails takes all its writes back: every read is what it was before it. */
  lemma FailedScopeIsUndone(c: Clock, s: State, body: seq<Command>, k: LedgerKey, v: Option<Stored>)
    requires Reads(c, s, k, v)
    ensures Reads(c, RunCommand(c, s, Scope(body, true)).0, k, v)
  {
    RunAccessStays(c, s, body);
    SameMapIsRead(c, s, RunCommand(c, s, Scope(body, true)).0, k, v);
  }

  lemma CommandKeepsRead(c: Clock, s: State, cmd: Command, k: LedgerKey, v: Option<Stored>)
    requires Reads(c, s, k, v) && CommandLeaves(cmd, k)
    ensures Reads(c, RunCommand(c, s, cmd).0, k, v)
    decreases cmd, 1
  {
    hide Reads;
    match cmd
    case Do(op) => OthersAreRead(c, s, op, k, v);
    case Scope(body, fails) =>
      if fails {
        FailedScopeIsUndone(c, s, body, k, v);
      } else {
        RunKeepsRead(c, s, body, k, v);
      }
  }

  /** What is read stays until the next write that is not taken back. */
  lemma RunKeepsRead(c: Clock, s: State, cmds: seq<Command>, k: LedgerKey, v: Option<Stored>)
    requires Reads(c, s, k, v) && Leaves(cmds, k)
    ensures Reads(c, Run(c, s, cmds).0, k, v)
    decreases cmds, 0
  {
    hide Reads;
    if cmds != [] {
      CommandKeepsRead(c, s, cmds[0], k, v);
      RunKeepsRead(c, RunCommand(c, s, cmds[0]).0, cmds[1..], k, v);
    }
  }

  /** In either mode, after any run: until the next write, a key that was put reads as it was put, and a deleted key as
      missing. */
  lemma LastWriteIsRead(c: Clock, s: State, before: seq<Command>, k: LedgerKey, e: Entry, liveUntil: Option<nat>,
                        after: seq<Command>)
    requires Leaves(after, k)
    ensures var put := Apply(c, Run(c, s, before).0, Put(k, e, liveUntil));
            put.1 == Done ==> Reads(c, Run(c, put.0, after).0, k, Some(Stored(e, liveUntil)))
    ensures var del := Apply(c, Run(c, s, before).0, Del(k));
            del.1 == Done ==> Reads(c, Run(c, del.0, after).0, k, None)
  {
    var u := Run(c, s, before).0;
    var put, del := Apply(c, u, Put(k, e, liveUntil)), Apply(c, u, Del(k));
    hide Reads, Apply, Run;
    if put.1 == Done {
      PutIsRead(c, u, k, e, liveUntil);
      RunKeepsRead(c, put.0, after, k, Some(Stored(e, liveUntil)));
    }
    if del.1 == Done {
      DelIsRead(c, u, k);
      RunKeepsRead(c, del.0, after, k, None);
    }
  }

  /** A key that is not written reads as the snapshot has it: while recording any supported key, while enforcing any
      of the footprint. */
  lemma UnwrittenIsRead(c: Clock, src: Source, fp: Footprint, cmds: seq<Command>, k: LedgerKey)
    requires Supported(k) && Leaves(cmds, k)
    ensures Reads(c, Run(c, StartRecording(src), cmds).0, k, if k in src then Some(src[k]) else None)
    ensures k in fp ==> Reads(c, Run(c, StartEnforcing(fp, src), cmds).0, k, if k in src then Some(src[k]) else None)
  {
    RunKeepsRead(c, StartRecording(src), cmds, k, Lookup(src, k));
    if k in fp {
      RunKeepsRead(c, StartEnforcing(fp, src), cmds, k, Lookup(src, k));
    }
  }

  /** While recording every supported write is done; while enforcing exactly those that the footprint allows. */
  lemma WritesDone(c: Clock, s: State, k: LedgerKey, e: Entry, liveUntil: Option<nat>)
    ensures var allowed := s.mode.Enforcing? ==> k in s.footprint && s.footprint[k] == ReadWrite;
            && (Apply(c, s, Put(k, e, liveUntil)).1 == Done
                <==> k.kind != UnsupportedKind && e.supported && allowed)
            && (Apply(c, s, Del(k)).1 == Done <==> k.kind != UnsupportedKind && allowed)
            && (Apply(c, s, Del(k)).1 == Error(ExceededLimit) <==> k.kind != UnsupportedKind && !allowed)
  {}
}
