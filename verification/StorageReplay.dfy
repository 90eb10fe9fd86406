/** Recording mode predicts enforcing mode, and predicts it exactly. */
module StorageReplay {
  import opened Basics
  import opened LedgerStorage

  /** `more` allows whatever `fp` allows. */
  ghost predicate Covers(more: Footprint, fp: Footprint) {
    forall k :: k in fp ==> Allowed(more, k, fp[k])
  }

  /** What a recording would read under `k` now. */
  function Seen(s: State, k: LedgerKey): Option<Stored> {
    if k in s.entries then s.entries[k]
    else match s.mode
         case Recording(src) => Lookup(src, k)
         case Enforcing => None
  }

  ghost predicate Simulates(rec: State, enf: State) {
    && rec.mode.Recording? && enf.mode.Enforcing? && enf.entries.Keys == enf.footprint.Keys
    && forall k :: k in enf.footprint ==> enf.entries[k] == Seen(rec, k)
  }

  lemma ReadReplays(rec: State, enf: State, k: LedgerKey)
    requires Simulates(rec, enf) && (Supported(k) ==> k in enf.footprint)
    ensures match ReadFull(rec, k)
            case Refused(code) => ReadFull(enf, k) == Refused(code)
            case Read(rec', v) => ReadFull(enf, k) == Read(enf, v) && Simulates(rec', enf)
                                  && k in rec'.entries && k in enf.entries
  {}

  lemma UpdateReplays(rec: State, enf: State, k: LedgerKey, v: Option<Stored>)
    requires Simulates(rec, enf) && k in enf.footprint
    ensures Simulates(rec.(entries := rec.entries[k := v]), enf.(entries := enf.entries[k := v]))
  {}

  lemma OpReplays(c: Clock, rec: State, enf: State, op: Op)
    requires Simulates(rec, enf)
    requires AccessOf(op).Access? ==> Allowed(enf.footprint, AccessOf(op).key, AccessOf(op).ty)
    ensures Apply(c, enf, op).1 == Apply(c, rec, op).1
    ensures Simulates(Apply(c, rec, op).0, Apply(c, enf, op).0)
    ensures Apply(c, enf, op).0.footprint == enf.footprint
  {
    if AccessOf(op).Access? {
      match op
      case Put(k, e, liveUntil) =>
        UpdateReplays(rec, enf, k, Some(Stored(e, liveUntil)));
      case Del(k) =>
        UpdateReplays(rec, enf, k, None);
      case ExtendTtl(k, threshold, extendTo) =>
        ReadReplays(rec, enf, k);
        var r := ReadFull(rec, k).state;
        hide ReadFull, TargetTtl, MaxLiveUntil;
        if TargetTtl(c, k, extendTo).Until? && ReadFull(rec, k).result.Some? {
          UpdateReplays(r, enf, k, Some(ReadFull(rec, k).result.value.(
                                          liveUntil := Some(TargetTtl(c, k, extendTo).ledger))));
        }
      case _ =>
        ReadReplays(rec, enf, op.key);
        hide ReadFull;
    }
  }

  lemma ReadRecords(rec: State, k: LedgerKey)
    requires rec.mode.Recording? && Supported(k)
    ensures ReadFull(rec, k).Read? && ReadFull(rec, k).state.mode == rec.mode
    ensures ReadFull(rec, k).state.footprint == RecordAccess(rec.footprint, k, ReadOnly)
  {}

  lemma AccessCovers(fp: Footprint, k: LedgerKey, ty: AccessType)
    ensures Covers(RecordAccess(fp, k, ty), fp)
  {}

  lemma OpRecords(c: Clock, rec: State, op: Op)
    requires rec.mode.Recording?
    ensures var r := Apply(c, rec, op).0;
            && r.mode == rec.mode
            && r.footprint == (if AccessOf(op).NoAccess? then rec.footprint
                               else RecordAccess(rec.footprint, AccessOf(op).key, AccessOf(op).ty))
    ensures Apply(c, rec, op).1 != Error(ExceededLimit)
    ensures Covers(Apply(c, rec, op).0.footprint, rec.footprint)
  {
    hide RecordAccess, TargetTtl;
    if AccessOf(op).Access? {
      AccessCovers(rec.footprint, AccessOf(op).key, AccessOf(op).ty);
      if AccessOf(op).ty == ReadOnly {
        ReadRecords(rec, op.key);
        hide ReadFull;
      }
    } else {
      assert Covers(rec.footprint, rec.footprint);
    }
    TargetNeverExceeds(c, op);
  }

  lemma TargetNeverExceeds(c: Clock, op: Op)
    ensures op.ExtendTtl? ==> TargetTtl(c, op.key, op.extendTo) != Bad(ExceededLimit)
  {}

  lemma {:induction false} CoversTrans(a: Footprint, b: Footprint, c: Footprint)
    requires Covers(a, b) && Covers(b, c)
    ensures Covers(a, c)
  {}

  lemma CommandRecords(c: Clock, rec: State, cmd: Command)
    requires rec.mode.Recording?
    ensures RunCommand(c, rec, cmd).0.mode == rec.mode
    ensures Covers(RunCommand(c, rec, cmd).0.footprint, rec.footprint)
    decreases cmd, 1
  {
    match cmd
    case Do(op) => OpRecords(c, rec, op);
    case Scope(body, _) => RunRecords(c, rec, body);
  }

  lemma RunRecords(c: Clock, rec: State, cmds: seq<Command>)
    requires rec.mode.Recording?
    ensures Run(c, rec, cmds).0.mode == rec.mode
    ensures Covers(Run(c, rec, cmds).0.footprint, rec.footprint)
    decreases cmds, 0
  {
    if cmds != [] {
      var s1 := RunCommand(c, rec, cmds[0]).0;
      CommandRecords(c, rec, cmds[0]);
      RunRecords(c, s1, cmds[1..]);
      CoversTrans(Run(c, rec, cmds).0.footprint, s1.footprint, rec.footprint);
    }
  }

  lemma CommandReplays(c: Clock, rec: State, enf: State, cmd: Command)
    requires Simulates(rec, enf) && Covers(enf.footprint, RunCommand(c, rec, cmd).0.footprint)
    ensures RunCommand(c, enf, cmd).1 == RunCommand(c, rec, cmd).1
    ensures Simulates(RunCommand(c, rec, cmd).0, RunCommand(c, enf, cmd).0)
    ensures RunCommand(c, enf, cmd).0.footprint == enf.footprint
    decreases cmd, 1
  {
    match cmd
    case Do(op) =>
      OpRecords(c, rec, op);
      if AccessOf(op).Access? {
        assert AccessOf(op).key in Apply(c, rec, op).0.footprint;
      }
      OpReplays(c, rec, enf, op);
    case Scope(body, _) =>
      RunRecords(c, rec, body);
      RunReplays(c, rec, enf, body);
  }

  lemma RunReplays(c: Clock, rec: State, enf: State, cmds: seq<Command>)
    requires Simulates(rec, enf) && Covers(enf.footprint, Run(c, rec, cmds).0.footprint)
    ensures Run(c, enf, cmds).1 == Run(c, rec, cmds).1
    ensures Simulates(Run(c, rec, cmds).0, Run(c, enf, cmds).0)
    ensures Run(c, enf, cmds).0.footprint == enf.footprint
    decreases cmds, 0
  {
    if cmds != [] {
      var s1 := RunCommand(c, rec, cmds[0]).0;
      CommandRecords(c, rec, cmds[0]);
      RunRecords(c, s1, cmds[1..]);
      CoversTrans(enf.footprint, Run(c, rec, cmds).0.footprint, s1.footprint);
      CommandReplays(c, rec, enf, cmds[0]);
      RunReplays(c, s1, RunCommand(c, enf, cmds[0]).0, cmds[1..]);
    }
  }

  // ---------- what the footprint says ----------

  ghost predicate Accessed(ops: seq<Op>, k: LedgerKey) {
    exists i :: 0 <= i < |ops| && AccessOf(ops[i]).Access? && AccessOf(ops[i]).key == k
  }

  ghost predicate Written(ops: seq<Op>, k: LedgerKey) {
    exists i :: 0 <= i < |ops| && AccessOf(ops[i]) == Access(k, ReadWrite)
  }

  lemma AccessedConcat(a: seq<Op>, b: seq<Op>, k: LedgerKey)
    ensures Accessed(a + b, k) <==> Accessed(a, k) || Accessed(b, k)
    ensures Written(a + b, k) <==> Written(a, k) || Written(b, k)
  {
    assert forall i :: 0 <= i < |a| ==> (a + b)[i] == a[i];
    assert forall i :: 0 <= i < |b| ==> (a + b)[|a| + i] == b[i];
    if Accessed(a + b, k) {
      var i :| 0 <= i < |a + b| && AccessOf((a + b)[i]).Access? && AccessOf((a + b)[i]).key == k;
      assert if i < |a| then (a + b)[i] == a[i] else (a + b)[i] == b[i - |a|];
    }
    if Written(a + b, k) {
      var i :| 0 <= i < |a + b| && AccessOf((a + b)[i]) == Access(k, ReadWrite);
      assert if i < |a| then (a + b)[i] == a[i] else (a + b)[i] == b[i - |a|];
    }
  }

  lemma CommandFootprint(c: Clock, s: State, cmd: Command, k: LedgerKey)
    requires s.mode.Recording?
    ensures var fp := RunCommand(c, s, cmd).0.footprint;
            && (k in fp <==> k in s.footprint || Accessed(OpsOf(cmd), k))
            && (k in fp ==> (fp[k] == ReadWrite <==>
                             (k in s.footprint && s.footprint[k] == ReadWrite) || Written(OpsOf(cmd), k)))
    decreases cmd, 1
  {
    match cmd
    case Do(op) =>
      OpRecords(c, s, op);
      assert OpsOf(cmd)[0] == op;
    case Scope(body, _) => RunFootprint(c, s, body, k);
  }

  lemma RunFootprint(c: Clock, s: State, cmds: seq<Command>, k: LedgerKey)
    requires s.mode.Recording?
    ensures var fp := Run(c, s, cmds).0.footprint;
            && (k in fp <==> k in s.footprint || Accessed(Ops(cmds), k))
            && (k in fp ==> (fp[k] == ReadWrite <==>
                             (k in s.footprint && s.footprint[k] == ReadWrite) || Written(Ops(cmds), k)))
    decreases cmds, 0
  {
    if cmds != [] {
      CommandRecords(c, s, cmds[0]);
      CommandFootprint(c, s, cmds[0], k);
      RunFootprint(c, RunCommand(c, s, cmds[0]).0, cmds[1..], k);
      AccessedConcat(OpsOf(cmds[0]), Ops(cmds[1..]), k);
    }
  }

  /** A recorded footprint holds exactly the keys that were accessed, failed frames included, and
      allows writing exactly those that were written at least once. */
  lemma RecordedFootprintExact(c: Clock, src: Source, cmds: seq<Command>, k: LedgerKey)
    ensures var fp := Run(c, StartRecording(src), cmds).0.footprint;
            && (k in fp <==> Accessed(Ops(cmds), k))
            && (k in fp ==> (fp[k] == ReadWrite <==> Written(Ops(cmds), k)))
  {
    RunFootprint(c, StartRecording(src), cmds, k);
  }

  // ---------- accesses beyond the footprint ----------

  lemma CommandReplies(c: Clock, s: State, cmd: Command)
    ensures |RunCommand(c, s, cmd).1| == |OpsOf(cmd)|
    ensures s.mode.Recording? ==>
              forall i :: 0 <= i < |OpsOf(cmd)| ==> RunCommand(c, s, cmd).1[i] != Error(ExceededLimit)
    ensures s.mode.Enforcing? ==>
              && RunCommand(c, s, cmd).0.mode.Enforcing? && RunCommand(c, s, cmd).0.footprint == s.footprint
              && forall i :: 0 <= i < |OpsOf(cmd)| && AccessOf(OpsOf(cmd)[i]).Access?
                             && !Allowed(s.footprint, AccessOf(OpsOf(cmd)[i]).key, AccessOf(OpsOf(cmd)[i]).ty) ==>
                               RunCommand(c, s, cmd).1[i] == Error(ExceededLimit)
    decreases cmd, 1
  {
    match cmd
    case Do(op) =>
    case Scope(body, _) => RunRepliesTo(c, s, body);
  }

  lemma RunRepliesTo(c: Clock, s: State, cmds: seq<Command>)
    ensures |Run(c, s, cmds).1| == |Ops(cmds)|
    ensures s.mode.Recording? ==>
              forall i :: 0 <= i < |Ops(cmds)| ==> Run(c, s, cmds).1[i] != Error(ExceededLimit)
    ensures s.mode.Enforcing? ==>
              && Run(c, s, cmds).0.mode.Enforcing? && Run(c, s, cmds).0.footprint == s.footprint
              && forall i :: 0 <= i < |Ops(cmds)| && AccessOf(Ops(cmds)[i]).Access?
                             && !Allowed(s.footprint, AccessOf(Ops(cmds)[i]).key, AccessOf(Ops(cmds)[i]).ty) ==>
                               Run(c, s, cmds).1[i] == Error(ExceededLimit)
    decreases cmds, 0
  {
    if cmds != [] {
      CommandReplies(c, s, cmds[0]);
      if s.mode.Recording? {
        CommandRecords(c, s, cmds[0]);
      }
      RunRepliesTo(c, RunCommand(c, s, cmds[0]).0, cmds[1..]);
    }
  }

  /** The recorded footprint is the least that works: replaying the run under a footprint, over a map
      filled from the same snapshot, gives the recorded replies if and only if the footprint covers the
      recorded one; and if it does, both modes end with the same values. */
  lemma ReplaysExactlyWhenCovered(c: Clock, src: Source, cmds: seq<Command>, fp: Footprint)
    ensures var rec := Run(c, StartRecording(src), cmds);
            var enf := Run(c, StartEnforcing(fp, src), cmds);
            && (enf.1 == rec.1 <==> Covers(fp, rec.0.footprint))
            && (enf.1 == rec.1 ==> forall k :: k in fp ==> k in enf.0.entries && enf.0.entries[k] == Seen(rec.0, k))
  {
    var rec := Run(c, StartRecording(src), cmds);
    RunRecords(c, StartRecording(src), cmds);
    if Covers(fp, rec.0.footprint) {
      RunReplays(c, StartRecording(src), StartEnforcing(fp, src), cmds);
    } else {
      var k :| k in rec.0.footprint && !Allowed(fp, k, rec.0.footprint[k]);
      RecordedFootprintExact(c, src, cmds, k);
      RunRepliesTo(c, StartRecording(src), cmds);
      RunRepliesTo(c, StartEnforcing(fp, src), cmds);
    }
  }

  /** Removing any recorded key, or denying a recorded write, makes some operation of the replay exceed
      its footprint. */
  lemma RecordedFootprintMinimal(c: Clock, src: Source, cmds: seq<Command>, fp: Footprint) returns (i: nat)
    requires !Covers(fp, Run(c, StartRecording(src), cmds).0.footprint)
    ensures i < |Run(c, StartEnforcing(fp, src), cmds).1|
    ensures Run(c, StartEnforcing(fp, src), cmds).1[i] == Error(ExceededLimit)
  {
    var rec := Run(c, StartRecording(src), cmds).0;
    var k :| k in rec.footprint && !Allowed(fp, k, rec.footprint[k]);
    RecordedFootprintExact(c, src, cmds, k);
    RunRepliesTo(c, StartEnforcing(fp, src), cmds);
    if rec.footprint[k] == ReadWrite {
      i :| 0 <= i < |Ops(cmds)| && AccessOf(Ops(cmds)[i]) == Access(k, ReadWrite);
    } else {
      i :| 0 <= i < |Ops(cmds)| && AccessOf(Ops(cmds)[i]).Access? && AccessOf(Ops(cmds)[i]).key == k;
    }
  }

  // ---------- confinement ----------

  /** Under a read-only key nothing changes but the end of its life, which only moves later and never
      past the maximum. */
  ghost predicate Confined(c: Clock, fp: Footprint, a: StorageMap, b: StorageMap) {
    && a.Keys == fp.Keys && b.Keys == fp.Keys
    && forall k :: k in fp && fp[k] == ReadOnly ==>
         && (a[k].None? <==> b[k].None?)
         && (a[k].Some? ==>
               && b[k].value.entry == a[k].value.entry
               && (b[k].value.liveUntil == a[k].value.liveUntil
                   || (&& a[k].value.liveUntil.Some? && b[k].value.liveUntil.Some? && MaxLiveUntil(c).Some?
                       && a[k].value.liveUntil.value < b[k].value.liveUntil.value <= MaxLiveUntil(c).value)))
  }

  lemma TargetWithin(c: Clock, k: LedgerKey, extendTo: nat)
    ensures TargetTtl(c, k, extendTo).Until? ==>
              MaxLiveUntil(c).Some? && TargetTtl(c, k, extendTo).ledger <= MaxLiveUntil(c).value
  {}

  lemma WriteConfined(c: Clock, fp: Footprint, start: StorageMap, entries: StorageMap, k: LedgerKey,
                      v: Option<Stored>)
    requires Confined(c, fp, start, entries) && k in fp && fp[k] == ReadWrite
    ensures Confined(c, fp, start, entries[k := v])
  {}

  lemma LifeConfined(c: Clock, fp: Footprint, start: StorageMap, entries: StorageMap, k: LedgerKey, target: nat)
    requires Confined(c, fp, start, entries) && k in fp && entries[k].Some? && entries[k].value.liveUntil.Some?
    requires entries[k].value.liveUntil.value < target && MaxLiveUntil(c).Some? && target <= MaxLiveUntil(c).value
    ensures Confined(c, fp, start, entries[k := Some(entries[k].value.(liveUntil := Some(target)))])
  {}

  lemma OpConfined(c: Clock, s: State, op: Op, start: StorageMap)
    requires s.mode.Enforcing? && Confined(c, s.footprint, start, s.entries)
    ensures Confined(c, s.footprint, start, Apply(c, s, op).0.entries)
    ensures Apply(c, s, op).0 == s.(entries := Apply(c, s, op).0.entries)
  {
    match op
    case Put(k, e, liveUntil) =>
      if Allowed(s.footprint, k, ReadWrite) {
        WriteConfined(c, s.footprint, start, s.entries, k, Some(Stored(e, liveUntil)));
      }
    case Del(k) =>
      if Allowed(s.footprint, k, ReadWrite) {
        WriteConfined(c, s.footprint, start, s.entries, k, None);
      }
    case ExtendTtl(k, threshold, extendTo) =>
      TargetWithin(c, k, extendTo);
      hide TargetTtl, MaxLiveUntil;
      if Apply(c, s, op).0 != s {
        LifeConfined(c, s.footprint, start, s.entries, k, TargetTtl(c, k, extendTo).ledger);
      }
    case _ => hide Confined;
  }

  lemma CommandConfined(c: Clock, s: State, cmd: Command, start: StorageMap)
    requires s.mode.Enforcing? && Confined(c, s.footprint, start, s.entries)
    ensures Confined(c, s.footprint, start, RunCommand(c, s, cmd).0.entries)
    ensures RunCommand(c, s, cmd).0 == s.(entries := RunCommand(c, s, cmd).0.entries)
    decreases cmd, 1
  {
    hide Confined, Apply;
    match cmd
    case Do(op) => OpConfined(c, s, op, start);
    case Scope(body, _) => RunConfined(c, s, body, start);
  }

  /** Enforcing mode keeps the map closed under the footprint and read-only values as they were. */
  lemma RunConfined(c: Clock, s: State, cmds: seq<Command>, start: StorageMap)
    requires s.mode.Enforcing? && Confined(c, s.footprint, start, s.entries)
    ensures Confined(c, s.footprint, start, Run(c, s, cmds).0.entries)
    ensures Run(c, s, cmds).0 == s.(entries := Run(c, s, cmds).0.entries)
    decreases cmds, 0
  {
    if cmds != [] {
      CommandConfined(c, s, cmds[0], start);
      RunConfined(c, RunCommand(c, s, cmds[0]).0, cmds[1..], start);
    }
  }
}
