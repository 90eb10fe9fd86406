/** Ledger storage behind a footprint: recording mode reads through to a snapshot and notes what is
    accessed, enforcing mode is closed under the footprint it is given. */
module LedgerStorage {
  import opened Basics

  /** Contract data is temporary or persistent; contract code counts as persistent. */
  datatype Kind = AccountKind | TrustlineKind | TemporaryData | PersistentData | CodeKind | UnsupportedKind

  datatype LedgerKey = LedgerKey(id: nat, kind: Kind)

  datatype Entry = Entry(value: nat, supported: bool, size: nat)

  /** An entry with the last ledger of its life, for the kinds that have one. */
  datatype Stored = Stored(entry: Entry, liveUntil: Option<nat>)

  datatype AccessType = ReadOnly | ReadWrite

  type Footprint = map<LedgerKey, AccessType>

  type StorageMap = map<LedgerKey, Option<Stored>>

  type Source = map<LedgerKey, Stored>

  datatype Mode = Recording(source: Source) | Enforcing

  datatype State = State(footprint: Footprint, mode: Mode, entries: StorageMap)

  /** The ledger the transaction runs in. */
  datatype Clock = Clock(seqNum: nat, maxTtl: nat)

  datatype Code = ExceededLimit | MissingValue | InternalError | InvalidInput | InvalidAction

  datatype Op =
    | TryGet(key: LedgerKey)
    | Get(key: LedgerKey)
    | Has(key: LedgerKey)
    | Put(key: LedgerKey, entry: Entry, liveUntil: Option<nat>)
    | Del(key: LedgerKey)
    | ExtendTtl(key: LedgerKey, threshold: nat, extendTo: nat)

  datatype Reply = Value(stored: Option<Stored>) | Single(entry: Entry) | Present(yes: bool) | Done | Error(code: Code)

  predicate Supported(k: LedgerKey) {
    k.kind != UnsupportedKind
  }

  /** Whether entries under this key expire. */
  predicate Durable(k: LedgerKey) {
    k.kind == TemporaryData || k.kind == PersistentData || k.kind == CodeKind
  }

  function Lookup(src: Source, k: LedgerKey): Option<Stored> {
    if k in src then Some(src[k]) else None
  }

  function RecordAccess(fp: Footprint, k: LedgerKey, ty: AccessType): Footprint {
    if k in fp && (fp[k] == ReadWrite || ty == ReadOnly) then fp else fp[k := ty]
  }

  predicate Allowed(fp: Footprint, k: LedgerKey, ty: AccessType) {
    k in fp && (fp[k] == ReadWrite || ty == ReadOnly)
  }

  /** Access for reading; `None` when the footprint forbids it. */
  function PrepareRead(s: State, k: LedgerKey): Option<State> {
    match s.mode
    case Recording(src) =>
      Some(s.(footprint := RecordAccess(s.footprint, k, ReadOnly),
              entries := if k in s.entries then s.entries else s.entries[k := Lookup(src, k)]))
    case Enforcing => if Allowed(s.footprint, k, ReadOnly) then Some(s) else None
  }

  function PrepareWrite(s: State, k: LedgerKey): Option<State> {
    match s.mode
    case Recording(_) => Some(s.(footprint := RecordAccess(s.footprint, k, ReadWrite)))
    case Enforcing => if Allowed(s.footprint, k, ReadWrite) then Some(s) else None
  }

  datatype Read = Read(state: State, result: Option<Stored>) | Refused(code: Code)

  function ReadFull(s: State, k: LedgerKey): Read {
    if !Supported(k) then Refused(InternalError)
    else match PrepareRead(s, k)
         case None => Refused(ExceededLimit)
         case Some(s') => if k in s'.entries then Read(s', s'.entries[k]) else Refused(InternalError)
  }

  function PutOpt(s: State, k: LedgerKey, v: Option<Stored>): (State, Reply) {
    if !Supported(k) || (v.Some? && !v.value.entry.supported) then (s, Error(InternalError))
    else match PrepareWrite(s, k)
         case None => (s, Error(ExceededLimit))
         case Some(s') => (s'.(entries := s'.entries[k := v]), Done)
  }

  function MaxLiveUntil(c: Clock): Option<nat> {
    var last := c.seqNum + if c.maxTtl == 0 then 0 else c.maxTtl - 1;
    if last > U32_MAX then None else Some(last)
  }

  datatype NewTtl = Until(ledger: nat) | Bad(code: Code)

  /** The ledger an extension asks for: past the maximum, a persistent entry is clamped to it and any
      other is an error. */
  function TargetTtl(c: Clock, k: LedgerKey, extendTo: nat): NewTtl {
    if c.seqNum + extendTo > U32_MAX then Bad(InternalError)
    else match MaxLiveUntil(c)
         case None => Bad(InternalError)
         case Some(most) =>
           if c.seqNum + extendTo <= most then Until(c.seqNum + extendTo)
           else if k.kind == PersistentData || k.kind == CodeKind then Until(most)
           else if k.kind == TemporaryData then Bad(InvalidAction)
           else Bad(InternalError)
  }

  function ExtendStored(c: Clock, s: State, k: LedgerKey, stored: Stored, threshold: nat, extendTo: nat)
    : (State, Reply)
  {
    if stored.liveUntil.None? || stored.liveUntil.value < c.seqNum then (s, Error(InternalError))
    else
      var current := stored.liveUntil.value;
      match TargetTtl(c, k, extendTo)
      case Bad(code) => (s, Error(code))
      case Until(target) =>
        if target > current && current - c.seqNum <= threshold
        then (s.(entries := s.entries[k := Some(stored.(liveUntil := Some(target)))]), Done)
        else (s, Done)
  }

  function Apply(c: Clock, s: State, op: Op): (State, Reply) {
    match op
    case TryGet(k) =>
      (match ReadFull(s, k) case Refused(code) => (s, Error(code)) case Read(s', v) => (s', Value(v)))
    case Get(k) =>
      (match ReadFull(s, k)
       case Refused(code) => (s, Error(code))
       case Read(s', v) => (s', if v.None? then Error(MissingValue) else Single(v.value.entry)))
    case Has(k) =>
      (match ReadFull(s, k) case Refused(code) => (s, Error(code)) case Read(s', v) => (s', Present(v.Some?)))
    case Put(k, e, liveUntil) => PutOpt(s, k, Some(Stored(e, liveUntil)))
    case Del(k) => PutOpt(s, k, None)
    case ExtendTtl(k, threshold, extendTo) =>
      if !Supported(k) then (s, Error(InternalError))
      else if threshold > extendTo then (s, Error(InvalidInput))
      else match ReadFull(s, k)
           case Refused(code) => (s, Error(code))
           case Read(s', v) =>
             if v.None? then (s', Error(MissingValue)) else ExtendStored(c, s', k, v.value, threshold, extendTo)
  }

  // ---------- runs with frames ----------

  /** A frame that fails restores the map it started with; the footprint stays as it is. */
  datatype Command = Do(op: Op) | Scope(body: seq<Command>, fails: bool)

  function RunCommand(c: Clock, s: State, cmd: Command): (State, seq<Reply>)
    decreases cmd, 1
  {
    match cmd
    case Do(op) => var (s', r) := Apply(c, s, op); (s', [r])
    case Scope(body, fails) =>
      var (s', rs) := Run(c, s, body);
      (if fails then s'.(entries := s.entries) else s', rs)
  }

  function Run(c: Clock, s: State, cmds: seq<Command>): (State, seq<Reply>)
    decreases cmds, 0
  {
    if cmds == [] then (s, [])
    else
      var (s1, r1) := RunCommand(c, s, cmds[0]);
      var (s2, r2) := Run(c, s1, cmds[1..]);
      (s2, r1 + r2)
  }

  function StartRecording(src: Source): State {
    State(map[], Recording(src), map[])
  }

  /** Every footprint key with its entry in the snapshot, or with none. */
  function LoadMap(fp: Footprint, src: Source): StorageMap {
    map k | k in fp :: Lookup(src, k)
  }

  function StartEnforcing(fp: Footprint, src: Source): State {
    State(fp, Enforcing, LoadMap(fp, src))
  }

  // ---------- the operations of a run, in order ----------

  function OpsOf(cmd: Command): seq<Op>
    decreases cmd, 1
  {
    match cmd
    case Do(op) => [op]
    case Scope(body, _) => Ops(body)
  }

  function Ops(cmds: seq<Command>): seq<Op>
    decreases cmds, 0
  {
    if cmds == [] then [] else OpsOf(cmds[0]) + Ops(cmds[1..])
  }

  datatype Access = NoAccess | Access(key: LedgerKey, ty: AccessType)

  /** What an operation accesses, if it gets so far: this does not depend on the state. */
  function AccessOf(op: Op): Access {
    match op
    case TryGet(k) => if Supported(k) then Access(k, ReadOnly) else NoAccess
    case Get(k) => if Supported(k) then Access(k, ReadOnly) else NoAccess
    case Has(k) => if Supported(k) then Access(k, ReadOnly) else NoAccess
    case Put(k, e, _) => if Supported(k) && e.supported then Access(k, ReadWrite) else NoAccess
    case Del(k) => if Supported(k) then Access(k, ReadWrite) else NoAccess
    case ExtendTtl(k, threshold, extendTo) =>
      if Supported(k) && threshold <= extendTo then Access(k, ReadOnly) else NoAccess
  }
}
