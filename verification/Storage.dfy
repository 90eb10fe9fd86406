/** Storage as the host keeps it: an object whose operations update footprint and map in place. */
module StorageObject {
  import opened Basics
  import opened LedgerStorage

  class Storage {
    var footprint: Footprint
    var mode: Mode
    var entries: StorageMap

    ghost function View(): State
      reads this
    {
      State(footprint, mode, entries)
    }

    constructor WithEnforcingFootprintAndMap(fp: Footprint, m: StorageMap)
      ensures View() == State(fp, Enforcing, m)
    {
      mode := Enforcing;
      footprint := fp;
      entries := m;
    }

    constructor WithRecordingFootprint(src: Source)
      ensures View() == StartRecording(src)
    {
      mode := Recording(src);
      footprint := map[];
      entries := map[];
    }

    /** Notes an access: the only change to a key already noted is from reading to writing. */
    method NoteAccess(k: LedgerKey, ty: AccessType)
      modifies this`footprint
      ensures footprint == RecordAccess(old(footprint), k, ty)
    {
      if k in footprint {
        if footprint[k] == ReadOnly && ty == ReadWrite {
          footprint := footprint[k := ty];
        }
      } else {
        footprint := footprint[k := ty];
      }
    }

    method EnforceAccess(k: LedgerKey, ty: AccessType) returns (ok: bool)
      ensures ok == Allowed(footprint, k, ty)
    {
      if k in footprint {
        match (footprint[k], ty)
        case (ReadOnly, ReadWrite) => ok := false;
        case (ReadOnly, ReadOnly) => ok := true;
        case (ReadWrite, _) => ok := true;
      } else {
        ok := false;
      }
    }

    method PrepareReadOnlyAccess(k: LedgerKey) returns (ok: bool)
      modifies this
      ensures ok <==> PrepareRead(old(View()), k).Some?
      ensures View() == if ok then PrepareRead(old(View()), k).value else old(View())
    {
      match mode
      case Recording(src) =>
        NoteAccess(k, ReadOnly);
        if k !in entries {
          entries := entries[k := Lookup(src, k)];
        }
        ok := true;
      case Enforcing =>
        ok := EnforceAccess(k, ReadOnly);
    }

    method TryGetFull(k: LedgerKey) returns (r: Read)
      modifies this
      ensures match ReadFull(old(View()), k)
              case Refused(code) => r == Refused(code)
              case Read(s, v) => r == Read(s, v) && View() == s
      ensures r.Refused? && old(mode.Enforcing?) ==> View() == old(View())
      ensures r.Refused? && !Supported(k) ==> View() == old(View())
    {
      if !Supported(k) {
        return Refused(InternalError);
      }
      var ok := PrepareReadOnlyAccess(k);
      if !ok {
        return Refused(ExceededLimit);
      }
      if k in entries {
        r := Read(State(footprint, mode, entries), entries[k]);
      } else {
        r := Refused(InternalError);
      }
    }

    method PutOptional(k: LedgerKey, v: Option<Stored>) returns (r: Reply)
      modifies this
      ensures (View(), r) == PutOpt(old(View()), k, v)
    {
      if !Supported(k) || (v.Some? && !v.value.entry.supported) {
        return Error(InternalError);
      }
      match mode {
        case Recording(_) =>
          NoteAccess(k, ReadWrite);
        case Enforcing =>
          var ok := EnforceAccess(k, ReadWrite);
          if !ok {
            return Error(ExceededLimit);
          }
      }
      entries := entries[k := v];
      r := Done;
    }

    /** Extends the life of an entry that is due; the footprint counts this as reading. */
    method ExtendTtl(c: Clock, k: LedgerKey, threshold: nat, extendTo: nat) returns (r: Reply)
      requires mode.Recording? || entries.Keys == footprint.Keys
      modifies this
      ensures (View(), r) == Apply(c, old(View()), Op.ExtendTtl(k, threshold, extendTo))
    {
      if !Supported(k) {
        return Error(InternalError);
      }
      if threshold > extendTo {
        return Error(InvalidInput);
      }
      var read := TryGetFull(k);
      if read.Refused? {
        return Error(read.code);
      }
      if read.result.None? {
        return Error(MissingValue);
      }
      var stored := read.result.value;
      if stored.liveUntil.None? || stored.liveUntil.value < c.seqNum {
        return Error(InternalError);
      }
      var oldLiveUntil := stored.liveUntil.value;
      var newLiveUntil := c.seqNum + extendTo;
      var most := MaxLiveUntil(c);
      if newLiveUntil > U32_MAX || most.None? {
        return Error(InternalError);
      }
      if newLiveUntil > most.value {
        if !Durable(k) {
          return Error(InternalError);
        }
        if k.kind == TemporaryData {
          return Error(InvalidAction);
        }
        newLiveUntil := most.value;
      }
      if newLiveUntil > oldLiveUntil && oldLiveUntil - c.seqNum <= threshold {
        entries := entries[k := Some(stored.(liveUntil := Some(newLiveUntil)))];
      }
      r := Done;
    }

    method Perform(c: Clock, op: Op) returns (r: Reply)
      requires mode.Recording? || entries.Keys == footprint.Keys
      modifies this
      ensures (View(), r) == Apply(c, old(View()), op)
      ensures mode == old(mode) && (mode.Recording? || entries.Keys == footprint.Keys)
    {
      match op
      case TryGet(k) =>
        var read := TryGetFull(k);
        r := if read.Refused? then Error(read.code) else Value(read.result);
      case Get(k) =>
        var read := TryGetFull(k);
        r := if read.Refused? then Error(read.code)
             else if read.result.None? then Error(MissingValue) else Single(read.result.value.entry);
      case Has(k) =>
        var read := TryGetFull(k);
        r := if read.Refused? then Error(read.code) else Present(read.result.Some?);
      case Put(k, e, liveUntil) => r := PutOptional(k, Some(Stored(e, liveUntil)));
      case Del(k) => r := PutOptional(k, None);
      case ExtendTtl(k, threshold, extendTo) => r := ExtendTtl(c, k, threshold, extendTo);
    }

    method ExecuteCommand(c: Clock, cmd: Command) returns (rs: seq<Reply>)
      requires mode.Recording? || entries.Keys == footprint.Keys
      modifies this
      ensures (View(), rs) == RunCommand(c, old(View()), cmd)
      ensures mode == old(mode) && (mode.Recording? || entries.Keys == footprint.Keys)
      ensures mode.Enforcing? ==> footprint == old(footprint)
      decreases cmd, 1
    {
      match cmd
      case Do(op) =>
        var r := Perform(c, op);
        rs := [r];
      case Scope(body, fails) =>
        var rollbackPoint := entries;
        rs := Execute(c, body);
        if fails {
          entries := rollbackPoint;
        }
    }

    method Execute(c: Clock, cmds: seq<Command>) returns (rs: seq<Reply>)
      requires mode.Recording? || entries.Keys == footprint.Keys
      modifies this
      ensures (View(), rs) == Run(c, old(View()), cmds)
      ensures mode == old(mode) && (mode.Recording? || entries.Keys == footprint.Keys)
      ensures mode.Enforcing? ==> footprint == old(footprint)
      decreases cmds, 0
    {
      if cmds == [] {
        return [];
      }
      rs := ExecuteCommand(c, cmds[0]);
      var rest := Execute(c, cmds[1..]);
      rs := rs + rest;
    }
  }
}
