/** The authorization manager as the host keeps it: lists of tracker objects updated in place. */
module AuthorizationManagerObject {
  import opened Basics
  import opened InvocationTree
  import opened InvocationTracking
  import opened InvocationTrackerObject
  import opened Nonces
  import opened Authorization

  class AccountAuthorizationTracker {
    const address: Address
    const invocations: InvocationTracker
    const isTransactionSourceAccount: bool
    const nonce: Option<SignedNonce>
    var verified: bool
    var borrowed: bool

    ghost function State(): AccountTracker
      reads this, invocations
    {
      AccountTracker(address, invocations.State(), isTransactionSourceAccount, verified, nonce, borrowed)
    }

    constructor (a: AccountTracker)
      ensures State() == a && fresh(invocations)
    {
      address := a.address;
      isTransactionSourceAccount := a.isSource;
      nonce := a.nonce;
      verified := a.verified;
      borrowed := a.borrowed;
      invocations := new InvocationTracker.Copy(a.tracker);
    }
  }

  class InvokerContractAuthorizationTracker {
    const contractAddress: Address
    const invocations: InvocationTracker
    const born: nat

    ghost function State(): InvokerTracker
      reads this, invocations
    {
      InvokerTracker(contractAddress, invocations.State(), born)
    }

    constructor (t: InvokerTracker)
      ensures State() == t && fresh(invocations)
    {
      contractAddress := t.address;
      born := t.born;
      invocations := new InvocationTracker.Copy(t.tracker);
    }
  }

  ghost function AccountObjects(ts: seq<AccountAuthorizationTracker>): set<object> {
    (set i | 0 <= i < |ts| :: ts[i] as object)
    + (set i | 0 <= i < |ts| :: ts[i].invocations as object)
  }

  ghost function InvokerObjects(ts: seq<InvokerContractAuthorizationTracker>): set<object> {
    (set i | 0 <= i < |ts| :: ts[i] as object)
    + (set i | 0 <= i < |ts| :: ts[i].invocations as object)
  }

  ghost predicate DistinctAccounts(ts: seq<AccountAuthorizationTracker>) {
    forall i, j :: 0 <= i < j < |ts| ==> ts[i] != ts[j] && ts[i].invocations != ts[j].invocations
  }

  ghost predicate DistinctInvokers(ts: seq<InvokerContractAuthorizationTracker>) {
    forall i, j :: 0 <= i < j < |ts| ==> ts[i] != ts[j] && ts[i].invocations != ts[j].invocations
  }

  ghost function AccountStates(ts: seq<AccountAuthorizationTracker>): (r: seq<AccountTracker>)
    reads AccountObjects(ts)
    ensures |r| == |ts| && forall i :: 0 <= i < |ts| ==> r[i] == ts[i].State()
  {
    seq(|ts|, i requires 0 <= i < |ts| reads AccountObjects(ts) => ts[i].State())
  }

  ghost function InvokerStates(ts: seq<InvokerContractAuthorizationTracker>): (r: seq<InvokerTracker>)
    reads InvokerObjects(ts)
    ensures |r| == |ts| && forall i :: 0 <= i < |ts| ==> r[i] == ts[i].State()
  {
    seq(|ts|, i requires 0 <= i < |ts| reads InvokerObjects(ts) => ts[i].State())
  }

  // ---------- loops over the trackers ----------

  method PushAccounts(ts: seq<AccountAuthorizationTracker>)
    requires DistinctAccounts(ts)
    modifies AccountObjects(ts)
    ensures AccountStates(ts) == Map(PushAccount, old(AccountStates(ts)))
  {
    hide Push, Pop;
    for i := 0 to |ts|
      invariant forall j :: 0 <= j < i ==> ts[j].State() == PushAccount(old(ts[j].State()))
      invariant forall j :: i <= j < |ts| ==> ts[j].State() == old(ts[j].State())
    {
      if !ts[i].borrowed {
        ts[i].invocations.PushFrame();
      }
    }
  }

  method PopAccounts(ts: seq<AccountAuthorizationTracker>)
    requires DistinctAccounts(ts)
    modifies AccountObjects(ts)
    ensures AccountStates(ts) == Map(PopAccount, old(AccountStates(ts)))
  {
    hide Push, Pop;
    for i := 0 to |ts|
      invariant forall j :: 0 <= j < i ==> ts[j].State() == PopAccount(old(ts[j].State()))
      invariant forall j :: i <= j < |ts| ==> ts[j].State() == old(ts[j].State())
    {
      if !ts[i].borrowed {
        ts[i].invocations.PopFrame();
      }
    }
  }

  method PushInvokers(ts: seq<InvokerContractAuthorizationTracker>)
    requires DistinctInvokers(ts)
    modifies InvokerObjects(ts)
    ensures InvokerStates(ts) == Map(PushInvoker, old(InvokerStates(ts)))
  {
    hide Push, Pop;
    for i := 0 to |ts|
      invariant forall j :: 0 <= j < i ==> ts[j].State() == PushInvoker(old(ts[j].State()))
      invariant forall j :: i <= j < |ts| ==> ts[j].State() == old(ts[j].State())
    {
      ts[i].invocations.PushFrame();
    }
  }

  method PopInvokers(ts: seq<InvokerContractAuthorizationTracker>)
    requires DistinctInvokers(ts)
    modifies InvokerObjects(ts)
    ensures InvokerStates(ts) == Map(PopInvoker, old(InvokerStates(ts)))
  {
    hide Push, Pop;
    for i := 0 to |ts|
      invariant forall j :: 0 <= j < i ==> ts[j].State() == PopInvoker(old(ts[j].State()))
      invariant forall j :: i <= j < |ts| ==> ts[j].State() == old(ts[j].State())
    {
      ts[i].invocations.PopFrame();
    }
  }

  method RollbackAccounts(ts: seq<AccountAuthorizationTracker>, ss: seq<Option<AccountSnapshot>>) returns (ok: bool)
    requires DistinctAccounts(ts)
    modifies AccountObjects(ts)
    ensures ok <==> RollBackAccounts(old(AccountStates(ts)), Flags(ss)).Some?
    ensures ok ==> AccountStates(ts) == RollBackAccounts(old(AccountStates(ts)), Flags(ss)).value
  {
    if |ts| != |ss| {
      return false;
    }
    hide RollBack;
    for i := 0 to |ts|
      invariant forall j :: 0 <= j < i ==> RollBackAccount(old(ts[j].State()), ss[j]) == Some(ts[j].State())
      invariant forall j :: i <= j < |ts| ==> ts[j].State() == old(ts[j].State())
    {
      ghost var was := ts[i].State();
      assert was == old(AccountStates(ts))[i];
      if ss[i].Some? {
        if ts[i].borrowed {
          return false;
        }
        var done := ts[i].invocations.Rollback(ss[i].value.root);
        if !done {
          return false;
        }
        ts[i].verified := ss[i].value.verified;
      }
      assert RollBackAccount(was, ss[i]) == Some(ts[i].State());
    }
    ok := true;
  }

  method RollbackInvokers(ts: seq<InvokerContractAuthorizationTracker>, ss: seq<Snapshot>) returns (ok: bool)
    requires DistinctInvokers(ts)
    modifies InvokerObjects(ts)
    ensures ok <==> RollBackInvokers(old(InvokerStates(ts)), ss).Some?
    ensures ok ==> InvokerStates(ts) == RollBackInvokers(old(InvokerStates(ts)), ss).value
  {
    if |ts| != |ss| {
      return false;
    }
    for i := 0 to |ts|
      invariant forall j :: 0 <= j < i ==>
                  RollBack(old(ts[j].State()).tracker, ss[j]) == Some(ts[j].State().tracker)
      invariant forall j :: i <= j < |ts| ==> ts[j].State() == old(ts[j].State())
    {
      assert ts[i].State() == old(InvokerStates(ts))[i];
      var done := ts[i].invocations.Rollback(ss[i]);
      if !done {
        return false;
      }
    }
    ok := true;
  }

  method NewAccounts(copies: seq<AccountTracker>) returns (ts: seq<AccountAuthorizationTracker>)
    ensures DistinctAccounts(ts) && AccountStates(ts) == copies
    ensures forall j :: 0 <= j < |ts| ==> fresh(ts[j]) && fresh(ts[j].invocations)
  {
    ts := [];
    for i := 0 to |copies|
      invariant |ts| == i && DistinctAccounts(ts)
      invariant forall j :: 0 <= j < i ==> fresh(ts[j]) && fresh(ts[j].invocations)
      invariant forall j :: 0 <= j < i ==> ts[j].State() == copies[j]
    {
      var t := new AccountAuthorizationTracker(copies[i]);
      ts := ts + [t];
    }
  }

  method NewInvokers(contract: Address, born: nat, entries: seq<Invocation>)
    returns (ts: seq<InvokerContractAuthorizationTracker>)
    ensures DistinctInvokers(ts)
    ensures forall j :: 0 <= j < |ts| ==> fresh(ts[j]) && fresh(ts[j].invocations)
    ensures InvokerStates(ts) == seq(|entries|, i requires 0 <= i < |entries| =>
                                       InvokerTracker(contract, NewTracker(Fresh(entries[i])), born))
  {
    ts := [];
    for i := 0 to |entries|
      invariant |ts| == i && DistinctInvokers(ts)
      invariant forall j :: 0 <= j < i ==> fresh(ts[j]) && fresh(ts[j].invocations)
      invariant forall j :: 0 <= j < i ==>
                  ts[j].State() == InvokerTracker(contract, NewTracker(Fresh(entries[j])), born)
    {
      var t := new InvokerContractAuthorizationTracker(InvokerTracker(contract, NewTracker(Fresh(entries[i])), born));
      ts := ts + [t];
    }
  }

  /** How many trackers stay when those at the end that are out of scope are popped. */
  method InScope(ts: seq<InvokerContractAuthorizationTracker>) returns (k: nat)
    ensures k <= |ts| && InvokerStates(ts[..k]) == DropOutOfScope(InvokerStates(ts))
  {
    k := |ts|;
    assert InvokerStates(ts)[..k] == InvokerStates(ts);
    while k > 0 && ts[k - 1].invocations.matchStack == []
      invariant k <= |ts|
      invariant DropOutOfScope(InvokerStates(ts)[..k]) == DropOutOfScope(InvokerStates(ts))
    {
      k := k - 1;
      assert InvokerStates(ts)[..k + 1][..k] == InvokerStates(ts)[..k];
    }
    assert InvokerStates(ts[..k]) == InvokerStates(ts)[..k];
  }

  method AskInvokers(ts: seq<InvokerContractAuthorizationTracker>, address: Address, fn: Function)
    returns (r: Attempt)
    requires DistinctInvokers(ts)
    modifies InvokerObjects(ts)
    ensures var was := old(InvokerStates(ts));
            var i := FirstInvoker(was, address, fn, 0);
            if i == |was| then r == Skipped && InvokerStates(ts) == was
            else match Extend(was[i].tracker, fn, true)
                 case Extended(t) => r == Matched && InvokerStates(ts) == was[i := was[i].(tracker := t)]
                 case _ => r == InternalError
  {
    hide Extend;
    ghost var was := InvokerStates(ts);
    var i := 0;
    while i < |ts|
      invariant 0 <= i <= |ts| && InvokerStates(ts) == was
      invariant FirstInvoker(was, address, fn, 0) == FirstInvoker(was, address, fn, i)
    {
      assert was[i] == ts[i].State();
      if ts[i].contractAddress == address {
        r := ts[i].invocations.MaybeExtendInvocationMatch(fn, true);
        if r != Skipped {
          assert InvokerStates(ts) == was[i := ts[i].State()];
          return;
        }
        assert InvokerStates(ts) == was;
      }
      i := i + 1;
    }
    r := Skipped;
  }

  method AnyActive(ts: seq<AccountAuthorizationTracker>, address: Address) returns (r: bool)
    ensures r == HasActive(AccountStates(ts), address)
  {
    r := false;
    var i := 0;
    ghost var was := AccountStates(ts);
    while i < |ts|
      invariant 0 <= i <= |ts|
      invariant forall j :: 0 <= j < i ==> was[j].borrowed || was[j].address != address
                                           || !IsActive(was[j].tracker) || CurrentMatched(was[j].tracker)
    {
      assert was[i] == ts[i].State();
      var t := ts[i].invocations;
      if !ts[i].borrowed && ts[i].address == address
         && t.rootAuthorizedInvocation.exhausted && !t.isFullyProcessed
         && !(t.matchStack != [] && t.matchStack[|t.matchStack| - 1] != Unmatched) {
        return true;
      }
      i := i + 1;
    }
  }

  method AskAccounts(ts: seq<AccountAuthorizationTracker>, address: Address, fn: Function, allowRoot: bool)
    returns (r: Attempt, i: nat)
    requires DistinctAccounts(ts)
    modifies AccountObjects(ts)
    ensures var was := old(AccountStates(ts));
            && i == FirstAccount(was, address, fn, allowRoot, 0)
            && if i == |was| then r == Skipped && AccountStates(ts) == was
               else match Extend(was[i].tracker, fn, allowRoot)
                    case Extended(t) => r == Matched && AccountStates(ts) == was[i := was[i].(tracker := t)]
                    case _ => r == InternalError
  {
    hide Extend;
    ghost var was := AccountStates(ts);
    i := 0;
    while i < |ts|
      invariant 0 <= i <= |ts| && AccountStates(ts) == was
      invariant FirstAccount(was, address, fn, allowRoot, 0) == FirstAccount(was, address, fn, allowRoot, i)
    {
      assert was[i] == ts[i].State();
      if !ts[i].borrowed && ts[i].address == address {
        r := ts[i].invocations.MaybeExtendInvocationMatch(fn, allowRoot);
        if r != Skipped {
          assert AccountStates(ts) == was[i := ts[i].State()];
          return;
        }
        assert AccountStates(ts) == was;
      }
      i := i + 1;
    }
    r := Skipped;
  }

  predicate SomeBorrowed(ts: seq<AccountAuthorizationTracker>)
    reads AccountObjects(ts)
  {
    exists i :: 0 <= i < |ts| && ts[i].borrowed
  }

  method FindRecording(ts: seq<AccountAuthorizationTracker>, address: Address) returns (i: nat)
    ensures i == FirstRecording(AccountStates(ts), address, 0)
  {
    ghost var was := AccountStates(ts);
    i := 0;
    while i < |ts|
      invariant 0 <= i <= |ts|
      invariant FirstRecording(was, address, 0) == FirstRecording(was, address, i)
    {
      assert was[i] == ts[i].State();
      var t := ts[i].invocations;
      if ts[i].address == address && t.HasMatchedInvocationsInStack()
         && !(t.matchStack != [] && t.matchStack[|t.matchStack| - 1] != Unmatched) {
        return;
      }
      i := i + 1;
    }
  }

  method SnapshotAccounts(ts: seq<AccountAuthorizationTracker>) returns (r: seq<Option<AccountSnapshot>>)
    ensures r == Map(SnapAccount, AccountStates(ts))
  {
    r := [];
    for i := 0 to |ts|
      invariant |r| == i && forall j :: 0 <= j < i ==> r[j] == SnapAccount(ts[j].State())
    {
      r := r + [if ts[i].borrowed then None
                else Some(AccountSnapshot(Snap(ts[i].invocations.rootAuthorizedInvocation), ts[i].verified))];
    }
  }

  method CopyAccounts(ts: seq<AccountAuthorizationTracker>) returns (r: seq<AccountTracker>)
    ensures r == AccountStates(ts)
  {
    r := [];
    for i := 0 to |ts|
      invariant |r| == i && forall j :: 0 <= j < i ==> r[j] == ts[j].State()
    {
      var t := ts[i].invocations;
      r := r + [AccountTracker(ts[i].address,
                               Tracker(t.rootAuthorizedInvocation, t.matchStack, t.rootExhaustedFrame,
                                       t.isFullyProcessed),
                               ts[i].isTransactionSourceAccount, ts[i].verified, ts[i].nonce, ts[i].borrowed)];
    }
  }

  method SnapshotInvokers(ts: seq<InvokerContractAuthorizationTracker>) returns (r: seq<Snapshot>)
    ensures r == Map(SnapInvoker, InvokerStates(ts))
  {
    r := [];
    for i := 0 to |ts|
      invariant |r| == i && forall j :: 0 <= j < i ==> r[j] == SnapInvoker(ts[j].State())
    {
      r := r + [Snap(ts[i].invocations.rootAuthorizedInvocation)];
    }
  }

  datatype Verdict = Allowed | Denied | Crash

  predicate Reports(r: Verdict, o: Outcome) {
    match o
    case Crashed => r == Crash
    case Ran(_, granted) => r == if granted then Allowed else Denied
  }

  class AuthorizationManager {
    var mode: Mode
    var callStack: seq<Frame>
    var accountTrackers: seq<AccountAuthorizationTracker>
    var invokerContractTrackers: seq<InvokerContractAuthorizationTracker>
    var ledger: Ledger

    ghost function Objects(): set<object>
      reads this
    {
      {this} + AccountObjects(accountTrackers) + InvokerObjects(invokerContractTrackers)
    }

    ghost predicate Valid()
      reads this
    {
      DistinctAccounts(accountTrackers) && DistinctInvokers(invokerContractTrackers)
      && AccountObjects(accountTrackers) !! InvokerObjects(invokerContractTrackers)
      && this !in AccountObjects(accountTrackers) && this !in InvokerObjects(invokerContractTrackers)
    }

    ghost function View(): Manager
      reads Objects()
    {
      Manager(mode, callStack, AccountStates(accountTrackers), InvokerStates(invokerContractTrackers), ledger)
    }

    constructor (mode: Mode, l: Ledger)
      ensures Valid() && fresh(Objects()) && View() == Manager(mode, [], [], [], l)
    {
      this.mode := mode;
      callStack := [];
      accountTrackers := [];
      invokerContractTrackers := [];
      ledger := l;
    }

    /** Adds a tracker object for `a`: an entry given to the manager, or one just recorded. */
    method AddAccount(a: AccountTracker)
      requires Valid()
      modifies this
      ensures Valid() && fresh(Objects() - old(Objects()))
      ensures View() == old(View()).(accounts := old(View()).accounts + [a])
    {
      var t := new AccountAuthorizationTracker(a);
      accountTrackers := accountTrackers + [t];
    }

    method PushFrame(f: Frame)
      requires Valid()
      modifies Objects()
      ensures Valid() && Objects() == old(Objects()) && accountTrackers == old(accountTrackers)
      ensures View() == Authorization.PushFrame(old(View()), f) && mode == old(mode)
    {
      callStack := callStack + [f];
      PushAccounts(accountTrackers);
      PushInvokers(invokerContractTrackers);
    }

    /** Pops the frame on top; a failed frame is rolled back first. False is an internal error. */
    method PopFrame(s: Option<ManagerSnapshot>) returns (ok: bool)
      requires Valid()
      requires s.Some? && s.value.accounts.Flags? ==> mode.Enforcing?
      modifies Objects()
      ensures Valid() && fresh(Objects() - old(Objects()))
      ensures s.None? || s.value.accounts.Flags? ==> accountTrackers == old(accountTrackers)
      ensures ok <==> Authorization.PopFrame(old(View()), s).Some?
      ensures ok ==> View() == Authorization.PopFrame(old(View()), s).value
      ensures ok ==> mode == if s.Some? then s.value.mode else old(mode)
    {
      if s.Some? {
        ok := Rollback(s.value);
        if !ok {
          return;
        }
      }
      ok := true;
      if callStack == [] {
        return;
      }
      PopTopFrame();
    }

    method PopTopFrame()
      requires Valid() && callStack != []
      modifies Objects()
      ensures Valid() && Objects() <= old(Objects()) && accountTrackers == old(accountTrackers)
      ensures View() == PopTop(old(View()))
    {
      PopTrackers();
      DropTrackersOutOfScope();
    }

    method DropTrackersOutOfScope()
      requires Valid() && callStack != []
      modifies this`callStack, this`invokerContractTrackers
      ensures Valid() && Objects() <= old(Objects())
      ensures callStack == old(callStack)[..|old(callStack)| - 1]
      ensures AccountStates(accountTrackers) == old(AccountStates(accountTrackers))
      ensures InvokerStates(invokerContractTrackers) == DropOutOfScope(old(InvokerStates(invokerContractTrackers)))
    {
      var k := InScope(invokerContractTrackers);
      assert InvokerObjects(invokerContractTrackers[..k]) <= InvokerObjects(invokerContractTrackers);
      callStack := callStack[..|callStack| - 1];
      invokerContractTrackers := invokerContractTrackers[..k];
    }

    method PopTrackers()
      requires Valid()
      modifies Objects() - {this}
      ensures AccountStates(accountTrackers) == Map(PopAccount, old(AccountStates(accountTrackers)))
      ensures InvokerStates(invokerContractTrackers)
           == Map(PopInvoker, old(InvokerStates(invokerContractTrackers)))
    {
      PopAccounts(accountTrackers);
      PopInvokers(invokerContractTrackers);
    }

    method Rollback(s: ManagerSnapshot) returns (ok: bool)
      requires Valid()
      modifies Objects()
      ensures Valid() && fresh(Objects() - old(Objects()))
      ensures s.accounts.Flags? ==> accountTrackers == old(accountTrackers)
      ensures ok <==> RollBackManager(old(View()), s).Some?
      ensures ok ==> View() == RollBackManager(old(View()), s).value
    {
      ok := RollbackAccountTrackers(s.accounts);
      if !ok {
        return;
      }
      ok := RollbackRest(s);
    }

    method RollbackAccountTrackers(s: AccountsSnapshot) returns (ok: bool)
      requires Valid()
      modifies this`accountTrackers, AccountObjects(accountTrackers)
      ensures Valid() && fresh(AccountObjects(accountTrackers) - old(AccountObjects(accountTrackers)))
      ensures s.Flags? ==> accountTrackers == old(accountTrackers)
      ensures InvokerStates(invokerContractTrackers) == old(InvokerStates(invokerContractTrackers))
      ensures ok <==> RollBackAccounts(old(AccountStates(accountTrackers)), s).Some?
      ensures ok ==> AccountStates(accountTrackers) == RollBackAccounts(old(AccountStates(accountTrackers)), s).value
    {
      match s
      case Flags(ss) =>
        ok := RollbackAccounts(accountTrackers, ss);
      case Copies(copies) =>
        accountTrackers := NewAccounts(copies);
        ok := true;
    }

    method RollbackRest(s: ManagerSnapshot) returns (ok: bool)
      requires Valid()
      modifies this`mode, this`ledger, InvokerObjects(invokerContractTrackers)
      ensures AccountStates(accountTrackers) == old(AccountStates(accountTrackers))
      ensures ok <==> RollBackInvokers(old(InvokerStates(invokerContractTrackers)), s.invokers).Some?
      ensures mode == s.mode && ledger == s.ledger
      ensures ok ==> (InvokerStates(invokerContractTrackers)
                      == RollBackInvokers(old(InvokerStates(invokerContractTrackers)), s.invokers).value)
    {
      ok := RollbackInvokers(invokerContractTrackers, s.invokers);
      mode := s.mode;
      ledger := s.ledger;
    }

    method AuthorizeAsCurrentContract(entries: seq<Invocation>) returns (r: Verdict)
      requires Valid()
      modifies this
      ensures Valid() && fresh(Objects() - old(Objects()))
      ensures accountTrackers == old(accountTrackers) && mode == old(mode)
      ensures Reports(r, Authorize(old(View()), entries))
      ensures r != Crash ==> View() == Authorize(old(View()), entries).m
    {
      if callStack == [] || !callStack[|callStack| - 1].ContractFrame? {
        return Crash;
      }
      var ts := NewInvokers(callStack[|callStack| - 1].contract, |callStack|, entries);
      ghost var was := InvokerStates(invokerContractTrackers);
      invokerContractTrackers := invokerContractTrackers + ts;
      assert InvokerStates(invokerContractTrackers) == was + InvokerStates(ts);
      r := Allowed;
    }

    method CheckInvokerContractAuth(address: Address, fn: Function) returns (r: Attempt)
      requires Valid() && callStack != []
      modifies InvokerObjects(invokerContractTrackers)
      ensures AccountStates(accountTrackers) == old(AccountStates(accountTrackers))
      ensures match CheckInvokers(old(View()), address, fn)
              case NotFound => r == Skipped && View() == old(View())
              case Granted(m) => r == Matched && View() == m
              case Broke => r == InternalError
    {
      if |callStack| < 2 {
        return Skipped;
      }
      var invoker := callStack[|callStack| - 2];
      if invoker.ContractFrame? && invoker.contract == address {
        return Matched;
      }
      r := AskInvokers(invokerContractTrackers, address, fn);
    }

    method FinishAuthentication(i: nat, authentic: bool) returns (r: Verdict)
      requires Valid() && i < |accountTrackers|
      modifies this`ledger, accountTrackers[i]
      ensures Reports(r, Finish(old(View()), i, authentic))
      ensures r != Crash ==> View() == Finish(old(View()), i, authentic).m
    {
      ghost var was := AccountStates(accountTrackers);
      var t := accountTrackers[i];
      t.borrowed := false;
      r := Denied;
      if authentic {
        if t.isTransactionSourceAccount {
          t.verified := true;
          r := Allowed;
        } else if t.nonce.None? {
          return Crash;
        } else {
          var check := Verify(ledger, NonceKey(t.address, t.nonce.value.value), t.nonce.value.expiration);
          if check.Accepted? {
            ledger := check.ledger;
            t.verified := true;
            r := Allowed;
          }
        }
      }
      assert AccountStates(accountTrackers) == was[i := t.State()];
    }

    method BorrowTracker(i: nat)
      requires Valid() && i < |accountTrackers|
      modifies accountTrackers[i]
      ensures View() == old(View()).(accounts := old(View()).accounts[i := old(View()).accounts[i].(borrowed := true)])
    {
      accountTrackers[i].borrowed := true;
      assert AccountStates(accountTrackers)
          == old(AccountStates(accountTrackers))[i := old(AccountStates(accountTrackers))[i].(borrowed := true)];
    }

    method MatchAccounts(address: Address, fn: Function) returns (r: Attempt, i: nat)
      requires Valid()
      modifies AccountObjects(accountTrackers)
      ensures var m := old(View());
              var allowRoot := !HasActive(m.accounts, address);
              && i == FirstAccount(m.accounts, address, fn, allowRoot, 0)
              && if i == |m.accounts| then r == Skipped && View() == m
                 else match Extend(m.accounts[i].tracker, fn, allowRoot)
                      case Extended(t) =>
                        r == Matched && View() == m.(accounts := m.accounts[i := m.accounts[i].(tracker := t)])
                      case _ => r == InternalError
    {
      ghost var was := AccountStates(accountTrackers);
      var hasActive := AnyActive(accountTrackers, address);
      assert AccountStates(accountTrackers) == was;
      r, i := AskAccounts(accountTrackers, address, fn, !hasActive);
    }

    method RequireAuthEnforcing(s: Step, fn: Function) returns (r: Verdict)
      requires s.RequireAuth? && Valid() && mode.Enforcing?
      modifies Objects()
      ensures Valid() && fresh(Objects() - old(Objects()))
      ensures r != Crash ==> mode.Enforcing? && accountTrackers == old(accountTrackers)
      ensures Reports(r, RequireEnforcing(old(View()), s, fn))
      ensures r != Crash ==> View() == RequireEnforcing(old(View()), s, fn).m
      decreases s, 1
    {
      hide Authenticate, Extend, FirstAccount, HasActive;
      ghost var m := View();
      var attempt, i := MatchAccounts(s.address, fn);
      match attempt
      case Skipped => r := Denied;
      case InternalError => r := Crash;
      case Matched =>
        ghost var m1 := View();
        assert m1.accounts[i] == accountTrackers[i].State();
        if accountTrackers[i].verified {
          assert RequireEnforcing(m, s, fn) == Ran(m1, true);
          return Allowed;
        }
        BorrowTracker(i);
        assert View().accounts == m.accounts[i := m1.accounts[i].(borrowed := true)];
        assert RequireEnforcing(m, s, fn) == Authenticate(View(), i, s);
        r := AuthenticateTracker(i, s);
    }

    method AuthenticateTracker(i: nat, s: Step) returns (r: Verdict)
      requires s.RequireAuth? && Valid() && mode.Enforcing? && i < |accountTrackers|
      modifies Objects()
      ensures Valid() && fresh(Objects() - old(Objects()))
      ensures r != Crash ==> mode.Enforcing? && accountTrackers == old(accountTrackers)
      ensures Reports(r, Authenticate(old(View()), i, s))
      ensures r != Crash ==> View() == Authenticate(old(View()), i, s).m
      decreases s, 0
    {
      hide RunCall, Finish;
      var t := accountTrackers[i];
      if !t.isTransactionSourceAccount && t.address.Contract? {
        r := ExecuteCall(CheckFrame(t.address), s.check, !s.authentic);
        if r == Crash {
          return;
        }
        r := FinishAuthentication(i, s.authentic);
      } else {
        r := FinishAuthentication(i, t.isTransactionSourceAccount || s.authentic);
      }
    }

    /** In recording mode: the tracker at `i` records the request. */
    method RecordInTracker(i: nat, fn: Function) returns (r: Verdict)
      requires Valid() && i < |accountTrackers|
      modifies AccountObjects(accountTrackers)
      ensures Reports(r, RecordAt(old(View()), i, fn))
      ensures r != Crash ==> View() == RecordAt(old(View()), i, fn).m
    {
      ghost var was := AccountStates(accountTrackers);
      var attempt := accountTrackers[i].invocations.RecordInvocation(fn);
      assert AccountStates(accountTrackers) == was[i := accountTrackers[i].State()];
      r := if attempt == Matched then Allowed else if attempt == Skipped then Denied else Crash;
    }

    method RequireAuthRecording(s: Step, fn: Function) returns (r: Verdict)
      requires s.RequireAuth? && Valid() && mode.Recording?
      modifies Objects()
      ensures Valid() && fresh(Objects() - old(Objects()))
      ensures Reports(r, RequireRecording(old(View()), s, fn))
      ensures r != Crash ==> View() == RequireRecording(old(View()), s, fn).m
    {
      hide RecordByAddress, RecordAt;
      ghost var m := View();
      assert SomeBorrowed(accountTrackers) <==> exists i :: 0 <= i < |m.accounts| && m.accounts[i].borrowed;
      if SomeBorrowed(accountTrackers) {
        return Crash;
      }
      if s.handle in mode.handles {
        var id := mode.handles[s.handle];
        if id >= |accountTrackers| {
          return Crash;
        }
        assert m.accounts[id] == accountTrackers[id].State();
        if accountTrackers[id].invocations.HasMatchedInvocationsInStack() {
          assert RequireRecording(m, s, fn) == RecordAt(m, id, fn);
          r := RecordInTracker(id, fn);
          return;
        }
      }
      mode := mode.(handles := mode.handles - {s.handle});
      assert RequireRecording(m, s, fn) == RecordByAddress(View(), s, fn);
      r := RecordForAddress(s, fn);
    }

    method RecordForAddress(s: Step, fn: Function) returns (r: Verdict)
      requires s.RequireAuth? && Valid() && mode.Recording?
      modifies Objects()
      ensures Valid() && fresh(Objects() - old(Objects()))
      ensures Reports(r, RecordByAddress(old(View()), s, fn))
      ensures r != Crash ==> View() == RecordByAddress(old(View()), s, fn).m
    {
      hide RecordAt, CreateRecording, FirstRecording;
      var i := FindRecording(accountTrackers, s.address);
      if i < |accountTrackers| {
        r := RecordInTracker(i, fn);
      } else {
        r := RecordNewTracker(s, fn);
      }
    }

    method RecordNewTracker(s: Step, fn: Function) returns (r: Verdict)
      requires s.RequireAuth? && Valid() && mode.Recording?
      modifies this
      ensures Valid() && fresh(Objects() - old(Objects()))
      ensures Reports(r, CreateRecording(old(View()), s, fn))
      ensures r != Crash ==> View() == CreateRecording(old(View()), s, fn).m
    {
      if mode.disableNonRoot && |callStack| != 1 {
        return Denied;
      }
      if callStack == [] {
        return Crash;
      }
      var isSource := mode.source == Some(s.address);
      var nonce := None;
      var l := ledger;
      if !isSource {
        var most := LastLedger(ledger.seqNum, ledger.maxTtl);
        if most.None? {
          return Denied;
        }
        var consumed := Consume(ledger, NonceKey(s.address, s.random), most.value);
        if consumed.Rejected? {
          return Denied;
        }
        l := consumed.ledger;
        nonce := Some(SignedNonce(s.random, 0));
      }
      var id := |accountTrackers|;
      AddAccount(AccountTracker(s.address, NewRecording(fn, |callStack|), isSource, true, nonce, false));
      mode := mode.(handles := mode.handles[s.handle := id]);
      ledger := l;
      r := Allowed;
    }

    method Snapshot() returns (s: ManagerSnapshot)
      ensures s == TakeSnapshot(View()) && s.mode == mode && (s.accounts.Flags? <==> mode.Enforcing?)
    {
      var invokers := SnapshotInvokers(invokerContractTrackers);
      if mode.Enforcing? {
        var flags := SnapshotAccounts(accountTrackers);
        s := ManagerSnapshot(Flags(flags), invokers, mode, ledger);
      } else {
        var copies := CopyAccounts(accountTrackers);
        s := ManagerSnapshot(Copies(copies), invokers, mode, ledger);
      }
    }

    method RequireAuth(s: Step) returns (r: Verdict)
      requires s.RequireAuth? && Valid()
      modifies Objects()
      ensures Valid() && fresh(Objects() - old(Objects()))
      ensures old(mode.Enforcing?) && r != Crash ==> mode.Enforcing? && accountTrackers == old(accountTrackers)
      ensures Reports(r, Require(old(View()), s))
      ensures r != Crash ==> View() == Require(old(View()), s).m
      decreases s, 2
    {
      hide RequireEnforcing, RequireRecording, CheckInvokers;
      if callStack == [] {
        return Crash;
      }
      var fn := ToFunction(callStack[|callStack| - 1], s.args);
      var answer := CheckInvokerContractAuth(s.address, fn);
      match answer
      case InternalError => r := Crash;
      case Matched => r := Allowed;
      case Skipped =>
        if mode.Enforcing? {
          r := RequireAuthEnforcing(s, fn);
        } else {
          r := RequireAuthRecording(s, fn);
        }
    }

    method Execute(ss: seq<Step>) returns (r: Verdict)
      requires Valid()
      modifies Objects()
      ensures Valid() && fresh(Objects() - old(Objects()))
      ensures old(mode.Enforcing?) && r != Crash ==> mode.Enforcing? && accountTrackers == old(accountTrackers)
      ensures Reports(r, Run(old(View()), ss))
      ensures r != Crash ==> View() == Run(old(View()), ss).m
      decreases ss, 0
    {
      hide RunStep, View;
      if ss == [] {
        return Allowed;
      }
      r := ExecuteStep(ss[0]);
      if r == Crash {
        return;
      }
      var rest := Execute(ss[1..]);
      r := if r == Denied && rest != Crash then Denied else rest;
    }

    method ExecuteStep(s: Step) returns (r: Verdict)
      requires Valid()
      modifies Objects()
      ensures Valid() && fresh(Objects() - old(Objects()))
      ensures old(mode.Enforcing?) && r != Crash ==> mode.Enforcing? && accountTrackers == old(accountTrackers)
      ensures Reports(r, RunStep(old(View()), s))
      ensures r != Crash ==> View() == RunStep(old(View()), s).m
      decreases s, 3
    {
      hide Require, Authorize, RunCall, View;
      match s
      case AuthorizeAsCurrent(entries) =>
        r := AuthorizeAsCurrentContract(entries);
      case RequireAuth(_, _, _, _, _, _) =>
        r := RequireAuth(s);
      case Call(frame, body, fails) =>
        r := ExecuteCall(frame, body, fails);
    }

    method ExecuteCall(frame: Frame, body: seq<Step>, fails: bool) returns (r: Verdict)
      requires Valid()
      modifies Objects()
      ensures Valid() && fresh(Objects() - old(Objects()))
      ensures old(mode.Enforcing?) && r != Crash ==> mode.Enforcing? && accountTrackers == old(accountTrackers)
      ensures Reports(r, RunCall(old(View()), frame, body, fails))
      ensures r != Crash ==> View() == RunCall(old(View()), frame, body, fails).m
      decreases body, 1
    {
      hide Run, Authorization.PushFrame, TakeSnapshot, Authorization.PopFrame, View;
      PushFrame(frame);
      var snapshot := Snapshot();
      r := Execute(body);
      if r == Crash {
        return;
      }
      var ok := PopFrame(if fails then Some(snapshot) else None);
      if !ok {
        r := Crash;
      }
    }
  }
}
