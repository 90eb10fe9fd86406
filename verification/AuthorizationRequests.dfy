/** What it takes to be granted: which tracker answers a request, and what its signature has to withstand. */
module AuthorizationRequests {
  import opened Basics
  import opened InvocationTree
  import opened InvocationExport
  import opened InvocationTracking
  import opened Nonces
  import opened Authorization
  import opened AuthorizationInvariants
  import opened AuthorizationTheorems

  // ---------- what a tracker can answer ----------

  ghost predicate TopFree(t: Tracker) {
    t.stack == [] || t.stack[|t.stack| - 1] == Unmatched
  }

  ghost predicate Begun(t: Tracker) {
    t.root.exhausted && !t.processed
  }

  /** Child `k` of the node matched last is unused and stands for `fn`. */
  ghost predicate UnusedBelow(t: Tracker, fn: Function, k: nat) {
    && ValidPath(t.root, SubPath(t.stack)) && k < |At(t.root, SubPath(t.stack)).subs|
    && var child := At(t.root, SubPath(t.stack)).subs[k];
    !child.exhausted && child.fn == fn
  }

  /** A tree that is in use continues below the node matched last; any other starts at its root, once. */
  ghost predicate CanUse(t: Tracker, fn: Function, rootAllowed: bool) {
    && TopFree(t)
    && if Begun(t) then exists k: nat :: UnusedBelow(t, fn, k)
       else !t.root.exhausted && rootAllowed && t.root.fn == fn
  }

  /** A tracker answers exactly when its tree has a place for the call; of several children it uses the first. */
  lemma ExtendExact(t: Tracker, fn: Function, allowRoot: bool)
    requires Consistent(t)
    ensures !Extend(t, fn, allowRoot).NoMatch? <==> CanUse(t, fn, allowRoot)
    ensures Extend(t, fn, allowRoot).Extended? && Begun(t) ==>
              var p := SubPath(Extend(t, fn, allowRoot).t.stack);
              p != [] && UnusedBelow(t, fn, p[|p| - 1]) && forall k: nat :: k < p[|p| - 1] ==> !UnusedBelow(t, fn, k)
  {
    WalkNeverBreaks(t);
    if IsActive(t) {
      var n := At(t.root, SubPath(t.stack));
      var k := FirstUnused(n.subs, fn, 0);
      assert k < |n.subs| ==> UnusedBelow(t, fn, k);
      if !CurrentMatched(t) && t.stack != [] {
        SubPathTop(t.stack, SubMatch(k));
      }
    }
  }

  // ---------- contracts that answer for themselves ----------

  /** The contract on top was called by `address`. */
  ghost predicate CalledBy(m: Manager, address: Address) {
    |m.callStack| >= 2 && exists name: nat :: m.callStack[|m.callStack| - 2] == ContractFrame(address, name)
  }

  ghost predicate InvokerAnswers(m: Manager, i: nat, address: Address, fn: Function) {
    && |m.callStack| >= 2 && i < |m.invokers| && m.invokers[i].address == address
    && CanUse(m.invokers[i].tracker, fn, true)
  }

  /** The caller answers for itself, at no cost. Otherwise the first invoker tracker of the address that can answers,
      and uses one node for it; nothing else changes. Nobody is found exactly when there is neither. */
  lemma InvokersExact(m: Manager, address: Address, fn: Function) returns (i: nat, p: seq<nat>)
    requires Inv(m) && m.callStack != []
    ensures CalledBy(m, address) ==> CheckInvokers(m, address, fn) == Granted(m)
    ensures CheckInvokers(m, address, fn).NotFound? <==>
            !CalledBy(m, address) && forall j: nat :: !InvokerAnswers(m, j, address, fn)
    ensures !CheckInvokers(m, address, fn).NotFound? && !CalledBy(m, address) ==>
              && InvokerAnswers(m, i, address, fn) && (forall j: nat :: j < i ==> !InvokerAnswers(m, j, address, fn))
              && (CheckInvokers(m, address, fn).Broke? <==> m.invokers[i].tracker.stack == [])
    ensures CheckInvokers(m, address, fn).Granted? && !CalledBy(m, address) ==>
              var r := CheckInvokers(m, address, fn).m;
              && UsesOne(m.invokers[i].tracker.root, r.invokers[i].tracker.root, p, fn)
              && r == m.(invokers := m.invokers[i := m.invokers[i].(tracker := r.invokers[i].tracker)])
  {
    i := FirstInvoker(m.invokers, address, fn, 0);
    p := [];
    if CalledBy(m, address) {
      assert DirectInvoker(m, address);
    } else if DirectInvoker(m, address) {
      var f := m.callStack[|m.callStack| - 2];
      assert f == ContractFrame(address, f.name);
    }
    hide Extend, CanUse, Consistent;
    forall j | 0 <= j < |m.invokers|
      ensures InvokerAnswers(m, j, address, fn) <==>
              && |m.callStack| >= 2 && m.invokers[j].address == address
              && !Extend(m.invokers[j].tracker, fn, true).NoMatch?
    {
      assert InvokerFits(m.invokers[j], |m.callStack|);
      ExtendExact(m.invokers[j].tracker, fn, true);
    }
    if i < |m.invokers| {
      assert InvokerFits(m.invokers[i], |m.callStack|);
      p := ExtendUsesOne(m.invokers[i].tracker, fn, true);
    }
  }

  /** What the frame on top asks for: its own call, with the arguments of the request. */
  ghost predicate Asks(m: Manager, s: Step, fn: Function)
    requires s.RequireAuth?
  {
    m.callStack != []
    && match m.callStack[|m.callStack| - 1]
       case ContractFrame(contract, name) => fn == ContractFn(contract, name, s.args)
       case CreateFrame(createArgs) => fn == CreateContractHostFn(createArgs)
  }

  ghost predicate NoInvoker(m: Manager, address: Address, fn: Function) {
    !CalledBy(m, address) && forall j: nat :: !InvokerAnswers(m, j, address, fn)
  }

  /** A request is granted for the caller, at no cost, and by the first invoker tracker that can answer, at the cost of
      one node, in either mode; if that tracker waits for a call of the frame on top, it is an internal error. */
  lemma InvokersGrant(m: Manager, s: Step, fn: Function) returns (i: nat, p: seq<nat>)
    requires s.RequireAuth? && Inv(m) && Asks(m, s, fn) && !NoInvoker(m, s.address, fn)
    ensures CalledBy(m, s.address) ==> Require(m, s) == Ran(m, true)
    ensures !CalledBy(m, s.address) ==>
              && InvokerAnswers(m, i, s.address, fn)
              && (forall j: nat :: j < i ==> !InvokerAnswers(m, j, s.address, fn))
              && (Require(m, s).Crashed? <==> m.invokers[i].tracker.stack == [])
              && (Require(m, s).Ran? ==>
                    var r := Require(m, s).m;
                    && Require(m, s).granted && |r.invokers| == |m.invokers|
                    && UsesOne(m.invokers[i].tracker.root, r.invokers[i].tracker.root, p, fn)
                    && r == m.(invokers := m.invokers[i := m.invokers[i].(tracker := r.invokers[i].tracker)]))
  {
    hide RequireEnforcing, RequireRecording, CheckInvokers, CanUse, CalledBy, Inv, UsesOne;
    i, p := InvokersExact(m, s.address, fn);
    assert fn == ToFunction(m.callStack[|m.callStack| - 1], s.args);
  }

  // ---------- accounts ----------

  /** A tracker of the address is in use and free in the frame on top: no other tree of it can start here. */
  ghost predicate InUse(m: Manager, address: Address) {
    exists j :: 0 <= j < |m.accounts| && !m.accounts[j].borrowed && m.accounts[j].address == address
                && Begun(m.accounts[j].tracker) && TopFree(m.accounts[j].tracker)
  }

  ghost predicate AccountAnswers(m: Manager, i: nat, address: Address, fn: Function) {
    && i < |m.accounts| && !m.accounts[i].borrowed && m.accounts[i].address == address
    && CanUse(m.accounts[i].tracker, fn, !InUse(m, address))
  }

  lemma InUseExact(m: Manager, address: Address)
    ensures HasActive(m.accounts, address) <==> InUse(m, address)
  {
    forall j | 0 <= j < |m.accounts|
      ensures IsActive(m.accounts[j].tracker) <==> Begun(m.accounts[j].tracker)
      ensures !CurrentMatched(m.accounts[j].tracker) <==> TopFree(m.accounts[j].tracker)
    {}
    hide IsActive, CurrentMatched, Begun, TopFree;
  }

  lemma SearchExact(m: Manager, address: Address, fn: Function)
    requires Inv(m)
    ensures var i := FirstAccount(m.accounts, address, fn, !HasActive(m.accounts, address), 0);
            && (forall j: nat :: j < i ==> !AccountAnswers(m, j, address, fn))
            && (i < |m.accounts| ==> AccountAnswers(m, i, address, fn))
  {
    InUseExact(m, address);
    hide Extend, CanUse, Consistent, InUse, HasActive;
    forall j | 0 <= j < |m.accounts|
      ensures !Extend(m.accounts[j].tracker, fn, !InUse(m, address)).NoMatch?
              <==> CanUse(m.accounts[j].tracker, fn, !InUse(m, address))
    {
      assert AccountFits(m.accounts[j], |m.callStack|);
      ExtendExact(m.accounts[j].tracker, fn, !InUse(m, address));
    }
  }

  /** `r` follows from matching and authenticating tracker `i` of `m`: one node of its tree is used, and it is verified
      if and only if the request is granted. */
  ghost predicate Answered(m: Manager, i: nat, fn: Function, p: seq<nat>, r: Manager, granted: bool)
    requires i < |m.accounts|
  {
    && |r.accounts| == |m.accounts| && UsesOne(m.accounts[i].tracker.root, r.accounts[i].tracker.root, p, fn)
    && CurrentMatched(r.accounts[i].tracker)
    && r.accounts[i] == m.accounts[i].(tracker := r.accounts[i].tracker, verified := granted)
    && r.callStack == m.callStack && r.mode == m.mode
  }

  /** The state in which the code of the account is run: its tracker matched and borrowed. */
  function Borrowed(m: Manager, i: nat, a: AccountTracker): Manager
    requires i < |m.accounts|
  {
    m.(accounts := m.accounts[i := a.(verified := false, borrowed := true)])
  }

  /**
    * A request in enforcing mode that no invoker answers. The first tracker that can answer does; without one the
    * request is denied and nothing changes. A verified tracker, or one of the source account, grants it. Any other
    * needs a genuine signature and a usable nonce, on the ledger that the code of a contract account left: without the
    * first the request is denied and the ledger is as it was.
    */
  lemma RequestExact(m: Manager, s: Step, fn: Function) returns (i: nat, p: seq<nat>)
    requires s.RequireAuth? && Inv(m) && m.mode.Enforcing? && Asks(m, s, fn) && NoInvoker(m, s.address, fn)
    requires Require(m, s).Ran?
    ensures forall j: nat :: j < i ==> !AccountAnswers(m, j, s.address, fn)
    ensures i >= |m.accounts| ==> Require(m, s) == Ran(m, false)
    ensures i < |m.accounts| ==> AccountAnswers(m, i, s.address, fn)
                                 && Answered(m, i, fn, p, Require(m, s).m, Require(m, s).granted)
    ensures i < |m.accounts| ==>
              var a, r, granted := m.accounts[i], Require(m, s).m, Require(m, s).granted;
              && (a.verified || a.isSource ==> granted && r == m.(accounts := m.accounts[i := r.accounts[i]]))
              && (!a.verified && !a.isSource && !s.authentic ==> !granted && r.ledger == m.ledger)
              && (!a.verified && !a.isSource && s.authentic ==>
                    var checked := RunCall(Borrowed(m, i, r.accounts[i]), ContractFrame(s.address, CHECK_AUTH), s.check,
                                           false);
                    && (a.address.Contract? ==> checked.Ran?)
                    && var l := if a.address.Contract? then checked.m.ledger else m.ledger;
                    && (granted <==> NonceUsable(l, NonceKey(a.address, a.nonce.value.value), a.nonce.value.expiration))
                    && (if granted then NonceUsed(l, NonceKey(a.address, a.nonce.value.value), a.nonce.value.expiration,
                                             r.ledger)
                        else r.ledger == l))
  {
    hide RunStep, Inv, Extend, CheckInvokers, HasActive, RunCall, NonceUsable, NonceUsed, AccountAnswers, InFrame,
      CurrentMatched;
    var allowRoot := !HasActive(m.accounts, s.address);
    var j, q := InvokersExact(m, s.address, fn);
    assert fn == ToFunction(m.callStack[|m.callStack| - 1], s.args);
    SearchExact(m, s.address, fn);
    i := FirstAccount(m.accounts, s.address, fn, allowRoot, 0);
    p := [];
    if i < |m.accounts| {
      var a, m1;
      a, m1, p := MatchedAccount(m, i, fn, allowRoot);
      assert Consistent(m.accounts[i].tracker) by { FitsConsistent(m, i); }
      q := ExtendUsesOne(m.accounts[i].tracker, fn, allowRoot);
      if !a.verified {
        assert Require(m, s) == Authenticate(m1, i, s);
        AuthenticateExact(m, m1, i, s);
      }
    }
  }

  lemma FitsConsistent(m: Manager, i: nat)
    requires Inv(m) && i < |m.accounts|
    ensures Consistent(m.accounts[i].tracker) && (m.accounts[i].nonce.None? <==> m.accounts[i].isSource)
  {
    assert AccountFits(m.accounts[i], |m.callStack|);
  }

  lemma AuthenticateExact(m: Manager, m1: Manager, i: nat, s: Step)
    requires s.RequireAuth? && Authenticating(m, m1, i) && Authenticate(m1, i, s).Ran?
    requires m.accounts[i].address == s.address
    ensures var a, r, granted := m1.accounts[i], Authenticate(m1, i, s).m, Authenticate(m1, i, s).granted;
            && |r.accounts| == |m.accounts| && r.accounts[i] == a.(borrowed := false, verified := granted)
            && r.callStack == m.callStack && r.mode == m.mode
            && (a.isSource ==> granted && r == m.(accounts := m.accounts[i := r.accounts[i]]))
            && (!a.isSource && !s.authentic ==> !granted && r.ledger == m.ledger)
            && (!a.isSource && s.authentic ==>
                  var checked := RunCall(m1, CheckFrame(s.address), s.check, false);
                  && (a.address.Contract? ==> checked.Ran?)
                  && var l := if a.address.Contract? then checked.m.ledger else m.ledger;
                  && (granted <==> NonceUsable(l, NonceKey(a.address, a.nonce.value.value), a.nonce.value.expiration))
                  && (if granted then NonceUsed(l, NonceKey(a.address, a.nonce.value.value), a.nonce.value.expiration,
                                           r.ledger)
                      else r.ledger == l))
  {
    hide Inv, RunCall, NonceUsable, NonceUsed, InFrame, Verify;
    var a := m1.accounts[i];
    FitsConsistent(m1, i);
    var m2 := m1;
    if RunsCheck(a) {
      var f := CheckFrame(a.address);
      CallKeeps(m1, f, s.check, !s.authentic);
      m2 := RunCall(m1, f, s.check, !s.authentic).m;
      InFrameAccount(m1, m2, i);
      if !s.authentic {
        FailedCheck(m1, f, s.check);
      }
    }
    FinishKeeps(m2, i, s.authentic || a.isSource);
    if !a.isSource {
      VerifyExact(m2.ledger, NonceKey(a.address, a.nonce.value.value), a.nonce.value.expiration);
    }
  }

  lemma InFrameAccount(m1: Manager, m2: Manager, i: nat)
    requires Inv(m1) && InFrame(m1, m2) && m1.mode.Enforcing? && i < |m1.accounts| && m1.accounts[i].borrowed
    ensures |m2.accounts| == |m1.accounts| && m2.accounts[i] == m1.accounts[i] && m2.callStack == m1.callStack
    ensures m2.mode == m1.mode
  {
    assert AccountInFrame(m1.accounts[i], m2.accounts[i]);
  }

  lemma FailedCheck(m: Manager, f: Frame, body: seq<Step>)
    requires Inv(m) && RunCall(m, f, body, true).Ran?
    ensures RunCall(m, f, body, true).m.ledger == m.ledger
  {
    PushKeeps(m, f);
    RunKeeps(PushFrame(m, f), body);
    FailureUndoes(m, f, Run(PushFrame(m, f), body).m);
  }

  // ---------- nobody is verified without a genuine signature ----------

  /** No request for `x` in these steps has a genuine signature, those in account code included. */
  ghost predicate NoneSigned(ss: seq<Step>, x: Address)
    decreases ss, 0
  {
    forall i :: 0 <= i < |ss| ==> NoneSignedStep(ss[i], x)
  }

  ghost predicate NoneSignedStep(s: Step, x: Address)
    decreases s, 1
  {
    match s
    case RequireAuth(_, address, _, check, authentic, _) => (address == x ==> !authentic) && NoneSigned(check, x)
    case AuthorizeAsCurrent(_) => true
    case Call(_, body, _) => NoneSigned(body, x)
  }

  /** No tracker of `x` but those of the source account is verified. */
  ghost predicate Unverified(m: Manager, x: Address) {
    m.mode.Enforcing? && forall i :: 0 <= i < |m.accounts| && m.accounts[i].address == x && !m.accounts[i].isSource ==>
                           !m.accounts[i].verified
  }

  lemma RunVerifiesNobody(m: Manager, ss: seq<Step>, x: Address)
    requires Inv(m) && Unverified(m, x) && NoneSigned(ss, x) && Run(m, ss).Ran?
    ensures Unverified(Run(m, ss).m, x)
    decreases ss, 0
  {
    if ss != [] {
      StepKeeps(m, ss[0]);
      StepVerifiesNobody(m, ss[0], x);
      RunVerifiesNobody(RunStep(m, ss[0]).m, ss[1..], x);
    }
  }

  lemma StepVerifiesNobody(m: Manager, s: Step, x: Address)
    requires Inv(m) && Unverified(m, x) && NoneSignedStep(s, x) && RunStep(m, s).Ran?
    ensures Unverified(RunStep(m, s).m, x)
    decreases s, 1
  {
    match s
    case AuthorizeAsCurrent(_) =>
    case RequireAuth(_, _, _, _, _, _) => RequestVerifiesNobody(m, s, x);
    case Call(f, body, fails) => CallVerifiesNobody(m, f, body, fails, x);
  }

  lemma RequestVerifiesNobody(m: Manager, s: Step, x: Address)
    requires s.RequireAuth? && Inv(m) && Unverified(m, x) && NoneSignedStep(s, x) && Require(m, s).Ran?
    ensures Unverified(Require(m, s).m, x)
    decreases s, 0
  {
    hide Inv, InFrame, Extend, HasActive, RunCall, Finish, NoneSigned;
    var fn := ToFunction(m.callStack[|m.callStack| - 1], s.args);
    var allowRoot := !HasActive(m.accounts, s.address);
    var i := FirstAccount(m.accounts, s.address, fn, allowRoot, 0);
    if CheckInvokers(m, s.address, fn).NotFound? && i < |m.accounts| {
      var a, m1, p := MatchedAccount(m, i, fn, allowRoot);
      if !a.verified {
        assert Require(m, s) == Authenticate(m1, i, s);
        if RunsCheck(a) {
          CallVerifiesNobody(m1, CheckFrame(a.address), s.check, !s.authentic, x);
          CallKeeps(m1, CheckFrame(a.address), s.check, !s.authentic);
          InFrameAccount(m1, RunCall(m1, CheckFrame(a.address), s.check, !s.authentic).m, i);
          FinishVerifies(RunCall(m1, CheckFrame(a.address), s.check, !s.authentic).m, i, s.authentic, x);
        } else {
          FinishVerifies(m1, i, a.isSource || s.authentic, x);
        }
      }
    }
  }

  lemma FinishVerifies(m: Manager, i: nat, authentic: bool, x: Address)
    requires Unverified(m, x) && i < |m.accounts| && Finish(m, i, authentic).Ran?
    requires m.accounts[i].address == x && !m.accounts[i].isSource ==> !authentic
    ensures Unverified(Finish(m, i, authentic).m, x)
  {}

  lemma CallVerifiesNobody(m: Manager, f: Frame, body: seq<Step>, fails: bool, x: Address)
    requires Inv(m) && Unverified(m, x) && NoneSigned(body, x) && RunCall(m, f, body, fails).Ran?
    ensures Unverified(RunCall(m, f, body, fails).m, x)
    decreases body, 1
  {
    hide Inv, InFrame, NoneSigned, Push, Pop, DropOutOfScope;
    var m1 := PushFrame(m, f);
    PushKeeps(m, f);
    RunKeeps(m1, body);
    if fails {
      FailureUndoes(m, f, Run(m1, body).m);
    } else {
      RunVerifiesNobody(m1, body, x);
    }
  }

  /** Whatever runs, in no state of it is a tracker of `x` verified if nothing was signed for it. */
  lemma UnsignedIsNeverVerified(m: Manager, ss: seq<Step>, y: Manager, x: Address)
    requires Inv(m) && Unverified(m, x) && NoneSigned(ss, x) && Visited(m, ss, y)
    ensures Unverified(y, x)
    decreases ss, 0
  {
    if y != m {
      if VisitedInStep(m, ss[0], y) {
        UnsignedInStep(m, ss[0], y, x);
      } else {
        StepKeeps(m, ss[0]);
        StepVerifiesNobody(m, ss[0], x);
        UnsignedIsNeverVerified(RunStep(m, ss[0]).m, ss[1..], y, x);
      }
    }
  }

  lemma UnsignedInStep(m: Manager, s: Step, y: Manager, x: Address)
    requires Inv(m) && Unverified(m, x) && NoneSignedStep(s, x) && VisitedInStep(m, s, y)
    ensures Unverified(y, x)
    decreases s, 1
  {
    hide Inv, Extend, HasActive, CheckInvokers, InFrame, NoneSigned;
    match s
    case Call(f, body, _) =>
      PushKeeps(m, f);
      UnsignedIsNeverVerified(PushFrame(m, f), body, y, x);
    case RequireAuth(_, _, _, _, _, _) =>
      var fn := ToFunction(m.callStack[|m.callStack| - 1], s.args);
      var allowRoot := !HasActive(m.accounts, s.address);
      var i := FirstAccount(m.accounts, s.address, fn, allowRoot, 0);
      var a, m1, p := MatchedAccount(m, i, fn, allowRoot);
      if y != m1 {
        PushKeeps(m1, CheckFrame(a.address));
        UnsignedIsNeverVerified(PushFrame(m1, CheckFrame(a.address)), s.check, y, x);
      }
  }

  /** A run is granted when every part of it is. */
  lemma {:induction false} RunConcat(m: Manager, a: seq<Step>, b: seq<Step>)
    ensures Run(m, a + b).Ran? <==> Run(m, a).Ran? && Run(Run(m, a).m, b).Ran?
    ensures Run(m, a + b).Ran? ==>
              && Run(m, a + b).m == Run(Run(m, a).m, b).m
              && (Run(m, a + b).granted <==> Run(m, a).granted && Run(Run(m, a).m, b).granted)
    decreases |a|
  {
    hide RunStep;
    if a == [] {
      assert a + b == b;
    } else {
      assert (a + b)[1..] == a[1..] + b;
      if RunStep(m, a[0]).Ran? {
        RunConcat(RunStep(m, a[0]).m, a[1..], b);
      }
    }
  }

  // ---------- for whom an invoker tracker speaks ----------

  /** Every invoker tracker stands for the contract whose frame made it, and that frame is still on the call stack. */
  ghost predicate SpeakForFrames(m: Manager) {
    forall i :: 0 <= i < |m.invokers| ==>
      && 0 < m.invokers[i].born <= |m.callStack|
      && m.callStack[m.invokers[i].born - 1].ContractFrame?
      && m.callStack[m.invokers[i].born - 1].contract == m.invokers[i].address
  }

  lemma PushSpeaks(m: Manager, f: Frame)
    requires SpeakForFrames(m)
    ensures SpeakForFrames(PushFrame(m, f))
  {
    var r := PushFrame(m, f);
    assert forall i :: 0 <= i < |m.invokers| ==> r.invokers[i].born == m.invokers[i].born
                                                 && r.invokers[i].address == m.invokers[i].address;
  }

  lemma PopSpeaks(m: Manager)
    requires Inv(m) && SpeakForFrames(m) && m.callStack != []
    ensures SpeakForFrames(PopTop(m))
  {
    hide Consistent, Pop, Push, PopAccount, DropOutOfScope, AccountFits, NoncesHeld, ModeFits;
    PopInvokers(m.invokers, |m.callStack|);
    var r := PopTop(m);
    forall i | 0 <= i < |r.invokers|
      ensures r.invokers[i].born == m.invokers[i].born < |m.callStack|
      ensures r.invokers[i].address == m.invokers[i].address
    {}
  }

  lemma CallSpeaks(m: Manager, f: Frame, body: seq<Step>, fails: bool)
    requires Inv(m) && SpeakForFrames(m) && RunCall(m, f, body, fails).Ran?
    ensures SpeakForFrames(RunCall(m, f, body, fails).m)
    decreases body, 1
  {
    var m1 := PushFrame(m, f);
    PushKeeps(m, f);
    PushSpeaks(m, f);
    RunKeeps(m1, body);
    if fails {
      FailureUndoes(m, f, Run(m1, body).m);
      PopSpeaks(m1);
    } else {
      RunSpeaks(m1, body);
      PopSpeaks(Run(m1, body).m);
    }
  }

  lemma RequestSpeaks(m: Manager, s: Step)
    requires s.RequireAuth? && Inv(m) && SpeakForFrames(m) && Require(m, s).Ran?
    ensures SpeakForFrames(Require(m, s).m)
    decreases s, 0
  {
    hide Inv, InFrame, Extend, HasActive, RunCall, Record, AnyMatched, NewRecording, CheckNonce, Authenticating,
      LastLedger, Consume;
    var fn := ToFunction(m.callStack[|m.callStack| - 1], s.args);
    if m.mode.Recording? {
      hide RequireRecording, SpeakForFrames;
      if CheckInvokers(m, s.address, fn).NotFound? {
        RecordingSpeaks(m, s, fn);
      } else {
        InvokersSpeak(m, s.address, fn);
      }
    } else if CheckInvokers(m, s.address, fn).NotFound? {
      var allowRoot := !HasActive(m.accounts, s.address);
      var i := FirstAccount(m.accounts, s.address, fn, allowRoot, 0);
      if i < |m.accounts| {
        var a, m1, p := MatchedAccount(m, i, fn, allowRoot);
        if !a.verified {
          assert Require(m, s) == Authenticate(m1, i, s);
        }
        if !a.verified && RunsCheck(a) {
          CallSpeaks(m1, CheckFrame(a.address), s.check, !s.authentic);
        }
      }
    }
  }

  lemma RecordingSpeaks(m: Manager, s: Step, fn: Function)
    requires s.RequireAuth? && m.mode.Recording? && SpeakForFrames(m) && RequireRecording(m, s, fn).Ran?
    ensures SpeakForFrames(RequireRecording(m, s, fn).m)
  {
    hide Record, AnyMatched, NewRecording, LastLedger, Consume;
    var r := RequireRecording(m, s, fn).m;
    assert r.invokers == m.invokers && r.callStack == m.callStack;
  }

  lemma InvokersSpeak(m: Manager, address: Address, fn: Function)
    requires SpeakForFrames(m) && CheckInvokers(m, address, fn).Granted?
    ensures SpeakForFrames(CheckInvokers(m, address, fn).m)
  {
    hide Extend;
  }

  lemma StepSpeaks(m: Manager, s: Step)
    requires Inv(m) && SpeakForFrames(m) && RunStep(m, s).Ran?
    ensures SpeakForFrames(RunStep(m, s).m)
    decreases s, 1
  {
    match s
    case AuthorizeAsCurrent(_) =>
    case RequireAuth(_, _, _, _, _, _) => RequestSpeaks(m, s);
    case Call(f, body, fails) => CallSpeaks(m, f, body, fails);
  }

  lemma RunSpeaks(m: Manager, ss: seq<Step>)
    requires Inv(m) && SpeakForFrames(m) && Run(m, ss).Ran?
    ensures SpeakForFrames(Run(m, ss).m)
    decreases ss, 0
  {
    if ss != [] {
      StepKeeps(m, ss[0]);
      StepSpeaks(m, ss[0]);
      RunSpeaks(RunStep(m, ss[0]).m, ss[1..]);
    }
  }

  /** So in every state of every run: a contract is answered for only while a frame of it is on the call stack, by what
      that frame itself authorized. */
  lemma InvokersSpeakForFrames(m: Manager, ss: seq<Step>, y: Manager)
    requires Inv(m) && SpeakForFrames(m) && Visited(m, ss, y)
    ensures SpeakForFrames(y)
    decreases ss, 0
  {
    if y != m {
      if VisitedInStep(m, ss[0], y) {
        SpeakInStep(m, ss[0], y);
      } else {
        StepKeeps(m, ss[0]);
        StepSpeaks(m, ss[0]);
        InvokersSpeakForFrames(RunStep(m, ss[0]).m, ss[1..], y);
      }
    }
  }

  lemma SpeakInStep(m: Manager, s: Step, y: Manager)
    requires Inv(m) && SpeakForFrames(m) && VisitedInStep(m, s, y)
    ensures SpeakForFrames(y)
    decreases s, 1
  {
    hide Inv, Extend, HasActive, CheckInvokers, InFrame;
    match s
    case Call(f, body, _) =>
      PushKeeps(m, f);
      PushSpeaks(m, f);
      InvokersSpeakForFrames(PushFrame(m, f), body, y);
    case RequireAuth(_, _, _, _, _, _) =>
      var fn := ToFunction(m.callStack[|m.callStack| - 1], s.args);
      var allowRoot := !HasActive(m.accounts, s.address);
      var i := FirstAccount(m.accounts, s.address, fn, allowRoot, 0);
      var a, m1, p := MatchedAccount(m, i, fn, allowRoot);
      if y != m1 {
        PushKeeps(m1, CheckFrame(a.address));
        PushSpeaks(m1, CheckFrame(a.address));
        InvokersSpeakForFrames(PushFrame(m1, CheckFrame(a.address)), s.check, y);
      }
  }

  lemma {:induction false} FreshLists(t: Invocation, depth: nat)
    ensures Listing(Fresh(t), depth) == Listing(t, depth) && Used(Fresh(t), depth) == []
    decreases t, 1
  {
    FreshListsAll(t.subs, Fresh(t).subs, depth + 1);
  }

  lemma {:induction false} FreshListsAll(ts: seq<Invocation>, us: seq<Invocation>, depth: nat)
    requires |us| == |ts| && forall i :: 0 <= i < |ts| ==> us[i] == Fresh(ts[i])
    ensures ListingAll(us, depth) == ListingAll(ts, depth) && UsedAll(us, depth) == []
    decreases ts, 0
  {
    if ts != [] {
      FreshLists(ts[0], depth);
      FreshListsAll(ts[1..], us[1..], depth);
    }
  }

  /** Only a contract authorizes sub-calls. Each entry makes one more invoker tracker for it, with every node of the
      entry and none used, that waits for the next call; nothing else changes. */
  lemma AuthorizeExact(m: Manager, entries: seq<Invocation>)
    ensures RunStep(m, AuthorizeAsCurrent(entries)).Ran? <==>
            m.callStack != [] && m.callStack[|m.callStack| - 1].ContractFrame?
    ensures RunStep(m, AuthorizeAsCurrent(entries)).Ran? ==>
              var r := RunStep(m, AuthorizeAsCurrent(entries)).m;
              && RunStep(m, AuthorizeAsCurrent(entries)).granted && r == m.(invokers := r.invokers)
              && |r.invokers| == |m.invokers| + |entries| && m.invokers <= r.invokers
              && forall i :: 0 <= i < |entries| ==>
                   var t := r.invokers[|m.invokers| + i];
                   && t.address == m.callStack[|m.callStack| - 1].contract
                   && Listing(t.tracker.root, 0) == Listing(entries[i], 0) && Used(t.tracker.root, 0) == []
                   && t.tracker.stack == [] && !t.tracker.processed
  {
    forall i | 0 <= i < |entries|
      ensures Listing(Fresh(entries[i]), 0) == Listing(entries[i], 0) && Used(Fresh(entries[i]), 0) == []
    {
      FreshLists(entries[i], 0);
    }
    hide Listing, Used, Fresh;
    if m.callStack != [] {
      assert RunStep(m, AuthorizeAsCurrent(entries)) == Authorize(m, entries);
    }
  }

  // ---------- recording ----------

  ghost predicate InCallStack(t: Tracker) {
    RootMatch in t.stack
  }

  /** The handle of the request names tracker `k`, and its tree is in the call stack. */
  ghost predicate NamesTree(m: Manager, s: Step, k: nat)
    requires s.RequireAuth? && m.mode.Recording?
  {
    && k < |m.accounts| && s.handle in m.mode.handles && m.mode.handles[s.handle] == k
    && InCallStack(m.accounts[k].tracker)
  }

  /** Tracker `k` has a tree of the address in the call stack that the frame on top can still extend. */
  ghost predicate ExtendsTree(m: Manager, s: Step, k: nat)
    requires s.RequireAuth?
  {
    && k < |m.accounts| && m.accounts[k].address == s.address
    && InCallStack(m.accounts[k].tracker) && TopFree(m.accounts[k].tracker)
  }

  /** The tree to continue: the one the handle names, else the first of the address. */
  ghost predicate Continues(m: Manager, s: Step, k: nat)
    requires s.RequireAuth? && m.mode.Recording?
  {
    if exists j: nat :: NamesTree(m, s, j) then NamesTree(m, s, k)
    else ExtendsTree(m, s, k) && forall j: nat :: j < k ==> !ExtendsTree(m, s, j)
  }

  /** A used child for `fn` was appended to the node at `p`. */
  ghost predicate AppendsOne(t: Invocation, u: Invocation, p: seq<nat>, fn: Function) {
    ValidPath(t, p) && u == Put(t, p, At(t, p).(subs := At(t, p).subs + [Invocation(fn, [], true)]))
  }

  lemma StackExact(m: Manager, k: nat)
    requires Inv(m) && k < |m.accounts|
    ensures InCallStack(m.accounts[k].tracker) <==> AnyMatched(m.accounts[k].tracker)
    ensures CurrentMatched(m.accounts[k].tracker) <==> !TopFree(m.accounts[k].tracker)
  {
    assert AccountFits(m.accounts[k], |m.callStack|);
    WalkNeverBreaks(m.accounts[k].tracker);
  }

  lemma RecordAppends(t: Tracker, fn: Function)
    requires Consistent(t) && InCallStack(t) && TopFree(t)
    ensures Record(t, fn).Extended?
    ensures var u := Record(t, fn).t;
            AppendsOne(t.root, u.root, SubPath(t.stack), fn)
            && u == t.(root := u.root, stack := t.stack[|t.stack| - 1 := SubMatch(|At(t.root, SubPath(t.stack)).subs|)])
  {
    WalkNeverBreaks(t);
  }

  /** A recorded request with a tree to continue appends one node to it, below the node matched last, or is denied
      without any change if the frame on top has already been recorded in the tree that its handle names. */
  lemma ContinuedRecordingExact(m: Manager, s: Step, fn: Function, k: nat)
    requires s.RequireAuth? && Inv(m) && m.mode.Recording? && Asks(m, s, fn) && NoInvoker(m, s.address, fn)
    requires Continues(m, s, k)
    ensures Require(m, s).Ran? && (Require(m, s).granted <==> TopFree(m.accounts[k].tracker))
    ensures !Require(m, s).granted ==> Require(m, s).m == m
    ensures Require(m, s).granted ==>
              var t, r := m.accounts[k].tracker, Require(m, s).m;
              && |r.accounts| == |m.accounts|
              && r == m.(mode := r.mode, accounts := m.accounts[k := m.accounts[k].(tracker := r.accounts[k].tracker)])
              && var u := r.accounts[k].tracker;
              && AppendsOne(t.root, u.root, SubPath(t.stack), fn) && t.stack != []
              && u == t.(root := u.root,
                         stack := t.stack[|t.stack| - 1 := SubMatch(|At(t.root, SubPath(t.stack)).subs|)])
  {
    var i, q := InvokersExact(m, s.address, fn);
    assert fn == ToFunction(m.callStack[|m.callStack| - 1], s.args);
    hide CheckInvokers, Inv, InvokerAnswers, CalledBy, Continues, Record, RequireRecording, Consistent, AppendsOne,
      SubPath;
    var mode := ContinuesAt(m, s, fn, k);
    assert Require(m, s) == RecordAt(m.(mode := mode), k, fn);
    StackExact(m, k);
    FitsConsistent(m, k);
    if TopFree(m.accounts[k].tracker) {
      RecordAppends(m.accounts[k].tracker, fn);
    }
  }

  lemma ContinuesAt(m: Manager, s: Step, fn: Function, k: nat) returns (mode: Mode)
    requires s.RequireAuth? && Inv(m) && m.mode.Recording? && m.callStack != [] && Continues(m, s, k)
    ensures k < |m.accounts| && InCallStack(m.accounts[k].tracker)
    ensures RequireRecording(m, s, fn) == RecordAt(m.(mode := mode), k, fn)
    ensures !TopFree(m.accounts[k].tracker) ==> mode == m.mode
  {
    InvModeFits(m);
    forall j | 0 <= j < |m.accounts|
      ensures InCallStack(m.accounts[j].tracker) <==> AnyMatched(m.accounts[j].tracker)
      ensures CurrentMatched(m.accounts[j].tracker) <==> !TopFree(m.accounts[j].tracker)
    {
      StackExact(m, j);
    }
    hide InCallStack, TopFree, AnyMatched, CurrentMatched, RecordAt, Inv;
    if exists j: nat :: NamesTree(m, s, j) {
      mode := m.mode;
    } else {
      mode := m.mode.(handles := m.mode.handles - {s.handle});
      SearchRecording(m, s, k);
      if s.handle in m.mode.handles {
        assert !NamesTree(m, s, m.mode.handles[s.handle]);
      }
    }
  }

  lemma InvModeFits(m: Manager)
    requires Inv(m)
    ensures ModeFits(m)
  {}

  lemma SearchRecording(m: Manager, s: Step, k: nat)
    requires s.RequireAuth? && k <= |m.accounts| && (k < |m.accounts| ==> ExtendsTree(m, s, k))
    requires forall j: nat :: j < k ==> !ExtendsTree(m, s, j)
    requires forall j :: 0 <= j < |m.accounts| ==>
               && (InCallStack(m.accounts[j].tracker) <==> AnyMatched(m.accounts[j].tracker))
               && (CurrentMatched(m.accounts[j].tracker) <==> !TopFree(m.accounts[j].tracker))
    ensures FirstRecording(m.accounts, s.address, 0) == k
  {
    hide InCallStack, AnyMatched, CurrentMatched, TopFree;
    var i := FirstRecording(m.accounts, s.address, 0);
    assert i < |m.accounts| ==> ExtendsTree(m, s, i);
  }

  /** The tree starts at the frame on top; the nonce is the drawn one, live as long as possible. */
  ghost predicate StartsTree(m: Manager, s: Step, fn: Function, r: Manager)
    requires s.RequireAuth? && m.mode.Recording?
  {
    && r.mode.Recording? && r == m.(mode := r.mode, accounts := r.accounts, ledger := r.ledger)
    && |r.accounts| == |m.accounts| + 1 && m.accounts <= r.accounts
    && r.mode.handles == m.mode.handles[s.handle := |m.accounts|]
    && var a, source, l := r.accounts[|m.accounts|], m.mode.source == Some(s.address), m.ledger;
    && a.address == s.address && a.isSource == source && a.verified && !a.borrowed
    && a.tracker.root == Invocation(fn, [], true) && |a.tracker.stack| == |m.callStack| > 0
    && (forall j :: 0 <= j < |a.tracker.stack| - 1 ==> a.tracker.stack[j] == Unmatched)
    && a.tracker.stack[|a.tracker.stack| - 1] == RootMatch
    && (if source then a.nonce.None? && r.ledger == l
        else && a.nonce.Some? && a.nonce.value.value == s.random
             && r.ledger == l.(live := l.live[NonceKey(s.address, s.random)
                                              := l.seqNum + Max(Max(l.maxTtl, l.minTempTtl), 1) - 1]))
  }

  predicate CanStart(m: Manager, s: Step)
    requires s.RequireAuth? && m.mode.Recording?
  {
    && (m.mode.disableNonRoot ==> |m.callStack| == 1)
    && (m.mode.source == Some(s.address)
        || (&& NonceKey(s.address, s.random) !in m.ledger.live
            && m.ledger.seqNum + Max(m.ledger.maxTtl, 1) <= 0x1_0000_0000
            && m.ledger.seqNum + Max(m.ledger.minTempTtl, 1) <= 0x1_0000_0000))
  }

  /** A recorded request with no tree to continue. It is denied away from the outermost frame if non-root authorization
      is disabled, and if its nonce cannot be used; otherwise it starts a tree. */
  lemma NewRecordingExact(m: Manager, s: Step, fn: Function)
    requires s.RequireAuth? && Inv(m) && m.mode.Recording? && Asks(m, s, fn) && NoInvoker(m, s.address, fn)
    requires forall k: nat :: !Continues(m, s, k)
    ensures Require(m, s).Ran? && (Require(m, s).granted <==> CanStart(m, s))
    ensures if Require(m, s).granted then StartsTree(m, s, fn, Require(m, s).m)
            else Require(m, s).m == m.(mode := Require(m, s).m.mode)
  {
    var i, q := InvokersExact(m, s.address, fn);
    assert fn == ToFunction(m.callStack[|m.callStack| - 1], s.args);
    hide RequireRecording, CheckInvokers, StartsTree, CanStart, Inv, NamesTree, ExtendsTree;
    NothingContinues(m, s);
    CreateExact(m, s, fn);
  }

  lemma NothingContinues(m: Manager, s: Step)
    requires s.RequireAuth? && m.mode.Recording? && forall k: nat :: !Continues(m, s, k)
    ensures forall k: nat :: !NamesTree(m, s, k) && !ExtendsTree(m, s, k)
  {
    hide NamesTree, ExtendsTree;
    forall k: nat ensures !NamesTree(m, s, k) {
      assert !Continues(m, s, k);
    }
    forall k: nat ensures !ExtendsTree(m, s, k) {
      NoFirst(m, s, k);
    }
  }

  lemma {:induction false} NoFirst(m: Manager, s: Step, k: nat)
    requires s.RequireAuth? && m.mode.Recording? && forall j: nat :: !Continues(m, s, j)
    requires forall j: nat :: !NamesTree(m, s, j)
    ensures !ExtendsTree(m, s, k)
    decreases k
  {
    hide NamesTree, ExtendsTree;
    forall j: nat | j < k ensures !ExtendsTree(m, s, j) {
      NoFirst(m, s, j);
    }
    assert !Continues(m, s, k);
  }

  lemma CreateExact(m: Manager, s: Step, fn: Function)
    requires s.RequireAuth? && Inv(m) && m.mode.Recording? && m.callStack != []
    requires forall k: nat :: !NamesTree(m, s, k) && !ExtendsTree(m, s, k)
    ensures var r := RequireRecording(m, s, fn);
            && r.Ran? && (r.granted <==> CanStart(m, s))
            && if r.granted then StartsTree(m, s, fn, r.m) else r.m == m.(mode := r.m.mode)
  {
    assert ModeFits(m);
    forall j | 0 <= j < |m.accounts|
      ensures InCallStack(m.accounts[j].tracker) <==> AnyMatched(m.accounts[j].tracker)
      ensures CurrentMatched(m.accounts[j].tracker) <==> !TopFree(m.accounts[j].tracker)
    {
      StackExact(m, j);
    }
    hide AnyMatched, CurrentMatched, Inv, AccountFits, InCallStack, TopFree;
    if s.handle in m.mode.handles {
      assert !NamesTree(m, s, m.mode.handles[s.handle]);
    }
    SearchRecording(m, s, |m.accounts|);
    hide NamesTree, ExtendsTree, CreateRecording, StartsTree, CanStart;
    var m1 := m.(mode := m.mode.(handles := m.mode.handles - {s.handle}));
    assert FirstRecording(m.accounts, s.address, 0) == |m.accounts|;
    assert RequireRecording(m, s, fn) == CreateRecording(m1, s, fn);
    CreatedTree(m, m1, s, fn);
  }

  lemma CreatedTree(m: Manager, m1: Manager, s: Step, fn: Function)
    requires s.RequireAuth? && m.mode.Recording? && m.callStack != []
    requires m1 == m.(mode := m.mode.(handles := m.mode.handles - {s.handle}))
    ensures var r := CreateRecording(m1, s, fn);
            && r.Ran? && (r.granted <==> CanStart(m, s))
            && if r.granted then StartsTree(m, s, fn, r.m) else r.m == m.(mode := r.m.mode)
  {
    assert m1.mode.handles[s.handle := |m.accounts|] == m.mode.handles[s.handle := |m.accounts|];
    if CreateRecording(m1, s, fn).granted {
      assert m.accounts <= CreateRecording(m1, s, fn).m.accounts;
    }
  }
}
