/** The authorization manager as a value, its steps, and the runs that call trees make of them. */
module Authorization {
  import opened Basics
  import opened InvocationTree
  import opened InvocationTracking
  import opened Nonces

  datatype Frame = ContractFrame(contract: Address, name: nat) | CreateFrame(createArgs: nat)

  datatype SignedNonce = SignedNonce(value: int, expiration: nat)

  /** `borrowed` while the tracker is in the middle of its own authentication. */
  datatype AccountTracker = AccountTracker(
    address: Address,
    tracker: Tracker,
    isSource: bool,
    verified: bool,
    nonce: Option<SignedNonce>,
    borrowed: bool)

  /** `born` is the call depth at creation; the host does not store it, the scoping lemmas speak of it. */
  datatype InvokerTracker = InvokerTracker(address: Address, tracker: Tracker, born: nat)

  datatype Mode = Enforcing | Recording(handles: map<nat, nat>, disableNonRoot: bool, source: Option<Address>)

  /** `ledger` stands for the storage that a frame's rollback point restores along with the trackers. */
  datatype Manager = Manager(
    mode: Mode,
    callStack: seq<Frame>,
    accounts: seq<AccountTracker>,
    invokers: seq<InvokerTracker>,
    ledger: Ledger)

  datatype AccountSnapshot = AccountSnapshot(root: Snapshot, verified: bool)

  datatype ManagerSnapshot = ManagerSnapshot(
    accounts: AccountsSnapshot,
    invokers: seq<Snapshot>,
    mode: Mode,
    ledger: Ledger)

  datatype AccountsSnapshot =
    | Flags(trackers: seq<Option<AccountSnapshot>>)
    | Copies(copies: seq<AccountTracker>)

  /** One step of a contract. `check` is what the `__check_auth` of a contract account does, inside its own frame, if
      it is asked; `authentic` whether it succeeds, or for another account the verdict on the signatures; `random` the
      nonce drawn when a tracker is recorded. */
  datatype Step =
    | RequireAuth(handle: nat, address: Address, args: nat, check: seq<Step>, authentic: bool, random: int)
    | AuthorizeAsCurrent(entries: seq<Invocation>)
    | Call(frame: Frame, body: seq<Step>, fails: bool)

  /** `Crashed` stands for an internal error or panic, which no contract survives. */
  datatype Outcome = Ran(m: Manager, granted: bool) | Crashed

  // ---------- frames ----------

  function PushAccount(a: AccountTracker): AccountTracker {
    if a.borrowed then a else a.(tracker := Push(a.tracker))
  }

  function PopAccount(a: AccountTracker): AccountTracker {
    if a.borrowed then a else a.(tracker := Pop(a.tracker))
  }

  function PushInvoker(t: InvokerTracker): InvokerTracker {
    t.(tracker := Push(t.tracker))
  }

  function PopInvoker(t: InvokerTracker): InvokerTracker {
    t.(tracker := Pop(t.tracker))
  }

  function Map<A, B>(f: A -> B, s: seq<A>): (r: seq<B>)
    ensures |r| == |s| && forall i :: 0 <= i < |s| ==> r[i] == f(s[i])
  {
    seq(|s|, i requires 0 <= i < |s| => f(s[i]))
  }

  function PushFrame(m: Manager, f: Frame): Manager {
    m.(callStack := m.callStack + [f],
       accounts := Map(PushAccount, m.accounts),
       invokers := Map(PushInvoker, m.invokers))
  }

  function SnapAccount(a: AccountTracker): Option<AccountSnapshot> {
    if a.borrowed then None else Some(AccountSnapshot(Snap(a.tracker.root), a.verified))
  }

  function SnapInvoker(t: InvokerTracker): Snapshot {
    Snap(t.tracker.root)
  }

  function TakeSnapshot(m: Manager): ManagerSnapshot {
    ManagerSnapshot(
      if m.mode.Enforcing?
      then Flags(Map(SnapAccount, m.accounts))
      else Copies(m.accounts),
      Map(SnapInvoker, m.invokers),
      m.mode,
      m.ledger)
  }

  /** A snapshot of a tracker that is now borrowed, or of another shape, is an internal error. */
  function RollBackAccount(a: AccountTracker, s: Option<AccountSnapshot>): Option<AccountTracker> {
    if s.None? then Some(a)
    else if a.borrowed then None
    else match RollBack(a.tracker, s.value.root)
         case None => None
         case Some(t) => Some(a.(tracker := t, verified := s.value.verified))
  }

  function RollBackAccounts(accounts: seq<AccountTracker>, s: AccountsSnapshot): Option<seq<AccountTracker>> {
    match s
    case Copies(copies) => Some(copies)
    case Flags(ss) =>
      if |accounts| != |ss| then None
      else if exists i :: 0 <= i < |accounts| && RollBackAccount(accounts[i], ss[i]).None? then None
      else Some(seq(|accounts|, i requires 0 <= i < |accounts| => RollBackAccount(accounts[i], ss[i]).value))
  }

  function RollBackInvokers(invokers: seq<InvokerTracker>, ss: seq<Snapshot>): Option<seq<InvokerTracker>> {
    if |invokers| != |ss| then None
    else if exists i :: 0 <= i < |invokers| && RollBack(invokers[i].tracker, ss[i]).None? then None
    else Some(seq(|invokers|, i requires 0 <= i < |invokers| =>
                    invokers[i].(tracker := RollBack(invokers[i].tracker, ss[i]).value)))
  }

  function RollBackManager(m: Manager, s: ManagerSnapshot): Option<Manager> {
    var accounts := RollBackAccounts(m.accounts, s.accounts);
    var invokers := RollBackInvokers(m.invokers, s.invokers);
    if accounts.None? || invokers.None? then None
    else Some(m.(accounts := accounts.value, invokers := invokers.value, mode := s.mode, ledger := s.ledger))
  }

  /** Drops the trackers that went out of scope, from the end up to the first one still in scope. */
  function DropOutOfScope(ts: seq<InvokerTracker>): seq<InvokerTracker> {
    if ts == [] || ts[|ts| - 1].tracker.stack != [] then ts else DropOutOfScope(ts[..|ts| - 1])
  }

  function PopTop(m: Manager): Manager {
    if m.callStack == [] then m
    else
      m.(callStack := m.callStack[..|m.callStack| - 1],
         accounts := Map(PopAccount, m.accounts),
         invokers := DropOutOfScope(Map(PopInvoker, m.invokers)))
  }

  function PopFrame(m: Manager, s: Option<ManagerSnapshot>): Option<Manager> {
    match s
    case None => Some(PopTop(m))
    case Some(snapshot) =>
      match RollBackManager(m, snapshot)
      case None => None
      case Some(r) => Some(PopTop(r))
  }

  // ---------- require_auth ----------

  function ToFunction(f: Frame, args: nat): Function {
    match f
    case ContractFrame(contract, name) => ContractFn(contract, name, args)
    case CreateFrame(createArgs) => CreateContractHostFn(createArgs)
  }

  /** The first invoker tracker from `i` on that answers for `address`, or their number. */
  function FirstInvoker(ts: seq<InvokerTracker>, address: Address, fn: Function, i: nat): (r: nat)
    requires i <= |ts|
    ensures i <= r <= |ts|
    ensures r < |ts| ==> ts[r].address == address && !Extend(ts[r].tracker, fn, true).NoMatch?
    ensures forall j :: i <= j < r ==> ts[j].address != address || Extend(ts[j].tracker, fn, true).NoMatch?
    decreases |ts| - i
  {
    if i == |ts| || (ts[i].address == address && !Extend(ts[i].tracker, fn, true).NoMatch?) then i
    else FirstInvoker(ts, address, fn, i + 1)
  }

  predicate DirectInvoker(m: Manager, address: Address) {
    |m.callStack| >= 2 && m.callStack[|m.callStack| - 2].ContractFrame?
    && m.callStack[|m.callStack| - 2].contract == address
  }

  datatype InvokerAnswer = NotFound | Granted(m: Manager) | Broke

  function CheckInvokers(m: Manager, address: Address, fn: Function): InvokerAnswer {
    if |m.callStack| < 2 then NotFound
    else if DirectInvoker(m, address) then Granted(m)
    else
      var i := FirstInvoker(m.invokers, address, fn, 0);
      if i == |m.invokers| then NotFound
      else match Extend(m.invokers[i].tracker, fn, true)
           case Extended(t) => Granted(m.(invokers := m.invokers[i := m.invokers[i].(tracker := t)]))
           case _ => Broke
  }

  predicate HasActive(accounts: seq<AccountTracker>, address: Address) {
    exists i :: 0 <= i < |accounts| && !accounts[i].borrowed && accounts[i].address == address
                && IsActive(accounts[i].tracker) && !CurrentMatched(accounts[i].tracker)
  }

  /** The first account tracker from `i` on that answers for `address`, or their number. */
  function FirstAccount(accounts: seq<AccountTracker>, address: Address, fn: Function, allowRoot: bool, i: nat)
    : (r: nat)
    requires i <= |accounts|
    ensures i <= r <= |accounts|
    ensures r < |accounts| ==> !accounts[r].borrowed && accounts[r].address == address
                               && !Extend(accounts[r].tracker, fn, allowRoot).NoMatch?
    ensures forall j :: i <= j < r ==> accounts[j].borrowed || accounts[j].address != address
                                       || Extend(accounts[j].tracker, fn, allowRoot).NoMatch?
    decreases |accounts| - i
  {
    if i == |accounts| || (!accounts[i].borrowed && accounts[i].address == address
                           && !Extend(accounts[i].tracker, fn, allowRoot).NoMatch?)
    then i
    else FirstAccount(accounts, address, fn, allowRoot, i + 1)
  }

  datatype NonceCheck = NonceOk(ledger: Ledger) | NonceBad | NonceMissing

  function CheckNonce(l: Ledger, a: AccountTracker): NonceCheck {
    if a.isSource then NonceOk(l)
    else match a.nonce
         case None => NonceMissing
         case Some(n) =>
           match Verify(l, NonceKey(a.address, n.value), n.expiration)
           case Accepted(l') => NonceOk(l')
           case Rejected => NonceBad
  }

  /** After authentication: the tracker is released, and verified if signature and nonce hold. */
  function Finish(m: Manager, i: nat, authentic: bool): Outcome
    requires i < |m.accounts|
  {
    var a := m.accounts[i].(borrowed := false);
    if !authentic then Ran(m.(accounts := m.accounts[i := a]), false)
    else match CheckNonce(m.ledger, a)
         case NonceMissing => Crashed
         case NonceBad => Ran(m.(accounts := m.accounts[i := a]), false)
         case NonceOk(l) => Ran(m.(accounts := m.accounts[i := a.(verified := true)], ledger := l), true)
  }

  /** The name of `__check_auth`. */
  const CHECK_AUTH: nat := 0

  function CheckFrame(account: Address): Frame {
    ContractFrame(account, CHECK_AUTH)
  }

  /** Only a contract account runs code of its own to authenticate. */
  predicate RunsCheck(a: AccountTracker) {
    !a.isSource && a.address.Contract?
  }

  function RequireEnforcing(m: Manager, s: Step, fn: Function): Outcome
    requires s.RequireAuth?
    decreases s, 1
  {
    var allowRoot := !HasActive(m.accounts, s.address);
    var i := FirstAccount(m.accounts, s.address, fn, allowRoot, 0);
    if i == |m.accounts| then Ran(m, false)
    else match Extend(m.accounts[i].tracker, fn, allowRoot)
         case Extended(t) =>
           var a := m.accounts[i].(tracker := t);
           if a.verified then Ran(m.(accounts := m.accounts[i := a]), true)
           else Authenticate(m.(accounts := m.accounts[i := a.(borrowed := true)]), i, s)
         case _ => Crashed
  }

  /** Authentication of the borrowed tracker `i`. The code of a contract account runs in a frame like any other: when it
      fails, that frame is rolled back. */
  function Authenticate(m: Manager, i: nat, s: Step): Outcome
    requires s.RequireAuth? && i < |m.accounts|
    decreases s, 0
  {
    if RunsCheck(m.accounts[i]) then
      match RunCall(m, CheckFrame(m.accounts[i].address), s.check, !s.authentic)
      case Crashed => Crashed
      case Ran(m2, _) => if i < |m2.accounts| then Finish(m2, i, s.authentic) else Crashed
    else Finish(m, i, m.accounts[i].isSource || s.authentic)
  }

  function RecordAt(m: Manager, i: nat, fn: Function): Outcome
    requires i < |m.accounts|
  {
    match Record(m.accounts[i].tracker, fn)
    case Failed => Crashed
    case NoMatch => Ran(m, false)
    case Extended(t) => Ran(m.(accounts := m.accounts[i := m.accounts[i].(tracker := t)]), true)
  }

  /** The first tracker for `address` still in the call stack and free in the frame on top. */
  function FirstRecording(accounts: seq<AccountTracker>, address: Address, i: nat): (r: nat)
    requires i <= |accounts|
    ensures i <= r <= |accounts|
    ensures r < |accounts| ==> accounts[r].address == address && AnyMatched(accounts[r].tracker)
                               && !CurrentMatched(accounts[r].tracker)
    ensures forall j :: i <= j < r ==> accounts[j].address != address || !AnyMatched(accounts[j].tracker)
                                       || CurrentMatched(accounts[j].tracker)
    decreases |accounts| - i
  {
    if i == |accounts| || (accounts[i].address == address && AnyMatched(accounts[i].tracker)
                           && !CurrentMatched(accounts[i].tracker))
    then i
    else FirstRecording(accounts, address, i + 1)
  }

  function CreateRecording(m: Manager, s: Step, fn: Function): Outcome
    requires s.RequireAuth? && m.mode.Recording?
  {
    if m.mode.disableNonRoot && |m.callStack| != 1 then Ran(m, false)
    else if m.callStack == [] then Crashed
    else
      var isSource := m.mode.source == Some(s.address);
      var most := LastLedger(m.ledger.seqNum, m.ledger.maxTtl);
      var consumed := if most.None? then Rejected
                      else Consume(m.ledger, NonceKey(s.address, s.random), most.value);
      if !isSource && consumed.Rejected? then Ran(m, false)
      else
        var a := AccountTracker(s.address, NewRecording(fn, |m.callStack|), isSource, true,
                         if isSource then None else Some(SignedNonce(s.random, 0)), false);
        Ran(m.(mode := m.mode.(handles := m.mode.handles[s.handle := |m.accounts|]),
               accounts := m.accounts + [a],
               ledger := if isSource then m.ledger else consumed.ledger), true)
  }

  /** Recording: the tracker of this handle while it is in the call stack, else another tracker of the
      address that is, else a new one. Nothing is borrowed in this mode. */
  function RequireRecording(m: Manager, s: Step, fn: Function): Outcome
    requires s.RequireAuth? && m.mode.Recording?
  {
    if exists i :: 0 <= i < |m.accounts| && m.accounts[i].borrowed then Crashed
    else if s.handle in m.mode.handles && m.mode.handles[s.handle] >= |m.accounts| then Crashed
    else if s.handle in m.mode.handles && AnyMatched(m.accounts[m.mode.handles[s.handle]].tracker) then
      RecordAt(m, m.mode.handles[s.handle], fn)
    else RecordByAddress(m.(mode := m.mode.(handles := m.mode.handles - {s.handle})), s, fn)
  }

  function RecordByAddress(m: Manager, s: Step, fn: Function): Outcome
    requires s.RequireAuth? && m.mode.Recording?
  {
    var i := FirstRecording(m.accounts, s.address, 0);
    if i < |m.accounts| then RecordAt(m, i, fn) else CreateRecording(m, s, fn)
  }

  function Require(m: Manager, s: Step): Outcome
    requires s.RequireAuth?
    decreases s, 2
  {
    if m.callStack == [] then Crashed
    else
      var fn := ToFunction(m.callStack[|m.callStack| - 1], s.args);
      match CheckInvokers(m, s.address, fn)
      case Broke => Crashed
      case Granted(m') => Ran(m', true)
      case NotFound => if m.mode.Enforcing? then RequireEnforcing(m, s, fn) else RequireRecording(m, s, fn)
  }

  function Authorize(m: Manager, entries: seq<Invocation>): Outcome {
    if m.callStack == [] || !m.callStack[|m.callStack| - 1].ContractFrame? then Crashed
    else
      var self := m.callStack[|m.callStack| - 1].contract;
      Ran(m.(invokers := m.invokers + seq(|entries|, i requires 0 <= i < |entries| =>
                                            InvokerTracker(self, NewTracker(Fresh(entries[i])), |m.callStack|))), true)
  }

  // ---------- runs ----------

  function RunStep(m: Manager, s: Step): Outcome
    decreases s, 3
  {
    match s
    case RequireAuth(_, _, _, _, _, _) => Require(m, s)
    case AuthorizeAsCurrent(entries) => Authorize(m, entries)
    case Call(frame, body, fails) => RunCall(m, frame, body, fails)
  }

  function RunCall(m: Manager, frame: Frame, body: seq<Step>, fails: bool): Outcome
    decreases body, 1
  {
    var m1 := PushFrame(m, frame);
    match Run(m1, body)
    case Crashed => Crashed
    case Ran(m2, granted) =>
      match PopFrame(m2, if fails then Some(TakeSnapshot(m1)) else None)
      case None => Crashed
      case Some(m3) => Ran(m3, granted)
  }

  /** Steps in order. A contract that carries on after a denial is included. */
  function Run(m: Manager, ss: seq<Step>): Outcome
    decreases ss, 0
  {
    if ss == [] then Ran(m, true)
    else match RunStep(m, ss[0])
         case Crashed => Crashed
         case Ran(m1, g1) =>
           match Run(m1, ss[1..])
           case Crashed => Crashed
           case Ran(m2, g2) => Ran(m2, g1 && g2)
  }
}
