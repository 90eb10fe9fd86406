/** What does not depend on the account trackers: the call stack, the invoker trackers and the internal errors. */
module AuthorizationLockstep {
  import opened Basics
  import opened InvocationTree
  import opened InvocationTracking
  import opened Authorization
  import opened AuthorizationInvariants

  ghost predicate SameFrames(a: Manager, b: Manager) {
    a.callStack == b.callStack && a.invokers == b.invokers
  }

  // ---------- code that leaves the trackers alone ----------

  /** Called on `stack`, the steps ask only for the contract that called the asking one. */
  ghost predicate SelfContained(stack: seq<Frame>, ss: seq<Step>)
    decreases ss, 0
  {
    forall i :: 0 <= i < |ss| ==> SelfContainedStep(stack, ss[i])
  }

  ghost predicate SelfContainedStep(stack: seq<Frame>, s: Step)
    decreases s, 1
  {
    match s
    case RequireAuth(_, address, _, _, _, _) =>
      |stack| >= 2 && stack[|stack| - 2].ContractFrame? && stack[|stack| - 2].contract == address
    case AuthorizeAsCurrent(_) => true
    case Call(f, body, _) => SelfContained(stack + [f], body)
  }

  /** Only trackers that the frame on top created may differ. */
  ghost predicate SameBelow(a: Manager, b: Manager) {
    var d := |a.callStack|;
    b == a.(invokers := b.invokers)
    && b.invokers[..Below(b.invokers, d)] == a.invokers[..Below(a.invokers, d)]
  }

  lemma BelowPrefix(a: seq<InvokerTracker>, b: seq<InvokerTracker>, depth: nat, k: nat)
    requires k <= |a| && k <= |b| && a[..k] == b[..k] && Below(a, depth) <= k
    requires k < |b| ==> b[k].born >= depth
    requires k < |a| ==> a[k].born >= depth
    ensures Below(b, depth) == Below(a, depth)
  {
    assert forall i :: 0 <= i < k ==> b[i] == b[..k][i] == a[..k][i];
  }

  lemma PushedBelow(m: Manager, f: Frame)
    requires Inv(m)
    ensures var a := PushFrame(m, f);
            Below(a.invokers, |m.callStack| + 1) == |a.invokers|
            && a.invokers[..|a.invokers|] == a.invokers
  {
    assert forall i :: 0 <= i < |m.invokers| ==> InvokerFits(m.invokers[i], |m.callStack|);
  }

  lemma PopInvokersSameBelow(a: seq<InvokerTracker>, b: seq<InvokerTracker>, depth: nat)
    requires InvokersFit(a, depth + 1) && InvokersFit(b, depth + 1)
    requires |a| <= |b| && b[..|a|] == a && (|a| < |b| ==> b[|a|].born >= depth)
    ensures DropOutOfScope(Map(PopInvoker, b)) == DropOutOfScope(Map(PopInvoker, a))
  {
    PopInvokers(a, depth + 1);
    PopInvokers(b, depth + 1);
    BelowPrefix(a, b, depth, |a|);
    hide InvokersFit, DropOutOfScope, PopInvoker;
    assert forall i :: 0 <= i < |a| ==> b[i] == b[..|a|][i];
  }

  /** Whatever the frame on top created is gone once it is popped. */
  lemma PopSameBelow(m: Manager, f: Frame, b: Manager)
    requires Inv(m) && Inv(b) && SameBelow(PushFrame(m, f), b)
    ensures PopTop(b) == PopTop(PushFrame(m, f))
  {
    var a := PushFrame(m, f);
    PushKeeps(m, f);
    PushedBelow(m, f);
    PopInvokersSameBelow(a.invokers, b.invokers, |m.callStack|);
    hide Inv, DropOutOfScope, PopInvoker, PopAccount;
  }

  lemma AuthorizeSameBelow(m: Manager, entries: seq<Invocation>)
    requires Inv(m) && Authorize(m, entries).Ran?
    ensures SameBelow(m, Authorize(m, entries).m)
  {
    var d := |m.callStack|;
    var r := Authorize(m, entries).m;
    var k := |m.invokers|;
    assert r.invokers[..k] == m.invokers;
    BelowAppend(m.invokers, r.invokers, d);
  }

  lemma BelowAppend(a: seq<InvokerTracker>, b: seq<InvokerTracker>, depth: nat)
    requires |a| <= |b| && b[..|a|] == a && forall i :: |a| <= i < |b| ==> b[i].born == depth
    ensures Below(b, depth) == Below(a, depth)
    ensures b[..Below(b, depth)] == a[..Below(a, depth)]
  {
    var n := Below(a, depth);
    BelowPrefix(a, b, depth, |a|);
    assert b[..n] == b[..|a|][..n];
  }

  lemma SameBelowTrans(a: Manager, b: Manager, c: Manager)
    requires SameBelow(a, b) && SameBelow(b, c)
    ensures SameBelow(a, c)
  {}

  lemma SelfContainedStepKeeps(m: Manager, s: Step)
    requires Inv(m) && SelfContainedStep(m.callStack, s) && RunStep(m, s).Ran?
    ensures SameBelow(m, RunStep(m, s).m)
    decreases s, 1
  {
    match s
    case RequireAuth(_, _, _, _, _, _) =>
    case AuthorizeAsCurrent(entries) => AuthorizeSameBelow(m, entries);
    case Call(f, body, fails) =>
      SelfContainedCall(m, f, body, fails);
      PopAfterPush(m, f);
      hide Inv, RunCall;
      var n := Below(m.invokers, |m.callStack|);
      BelowPrefix(m.invokers, m.invokers[..n], |m.callStack|, n);
  }

  /** A self-contained call leaves nothing but that it took place: the trackers that waited for a call are gone. */
  lemma SelfContainedCall(m: Manager, f: Frame, body: seq<Step>, fails: bool)
    requires Inv(m) && SelfContained(m.callStack + [f], body) && RunCall(m, f, body, fails).Ran?
    ensures RunCall(m, f, body, fails).m == PopTop(PushFrame(m, f))
    decreases body, 1
  {
    var m1 := PushFrame(m, f);
    PushKeeps(m, f);
    RunKeeps(m1, body);
    if fails {
      FailureUndoes(m, f, Run(m1, body).m);
    } else {
      SelfContainedRun(m1, body);
      PopSameBelow(m, f, Run(m1, body).m);
    }
  }

  lemma SelfContainedRun(m: Manager, ss: seq<Step>)
    requires Inv(m) && SelfContained(m.callStack, ss) && Run(m, ss).Ran?
    ensures SameBelow(m, Run(m, ss).m)
    decreases ss, 0
  {
    if ss != [] {
      var m1 := RunStep(m, ss[0]).m;
      StepKeeps(m, ss[0]);
      SelfContainedStepKeeps(m, ss[0]);
      SelfContainedRun(m1, ss[1..]);
      SameBelowTrans(m, m1, Run(m, ss).m);
    }
  }

  /** The code that a request runs to authenticate a contract account asks only for callers, and ends. */
  ghost predicate CheckEnds(m: Manager, s: Step)
    requires s.RequireAuth?
  {
    && SelfContained(m.callStack + [CheckFrame(s.address)], s.check)
    && RunCall(m, CheckFrame(s.address), s.check, !s.authentic).Ran?
  }

  /** It also cuts no invoker tracker short. */
  ghost predicate CheckHarmless(m: Manager, s: Step)
    requires s.RequireAuth?
  {
    NonePending(m) && CheckEnds(m, s)
  }

  lemma NonePendingBelow(m: Manager)
    requires Inv(m)
    ensures NonePending(m) <==> m.invokers[..Below(m.invokers, |m.callStack|)] == m.invokers
  {
    var d := |m.callStack|;
    var k := Below(m.invokers, d);
    assert forall i :: 0 <= i < |m.invokers| ==> InvokerFits(m.invokers[i], d);
    assert k < |m.invokers| ==> m.invokers[k].tracker.stack == [];
    assert m.invokers[..|m.invokers|] == m.invokers;
  }

  // ---------- lockstep ----------

  /** Wherever a request could reach an account tracker of a contract, the code that is run then is harmless. */
  ghost predicate Orderly(m: Manager, ss: seq<Step>)
    decreases ss, 0
  {
    ss == []
    || (OrderlyStep(m, ss[0]) && (RunStep(m, ss[0]).Ran? ==> Orderly(RunStep(m, ss[0]).m, ss[1..])))
  }

  ghost predicate OrderlyStep(m: Manager, s: Step)
    decreases s, 1
  {
    match s
    case RequireAuth(_, address, args, _, _, _) =>
      (&& address.Contract? && m.callStack != []
       && CheckInvokers(m, address, ToFunction(m.callStack[|m.callStack| - 1], args)).NotFound?) ==>
        CheckHarmless(m, s)
    case AuthorizeAsCurrent(_) => true
    case Call(f, body, _) => Orderly(PushFrame(m, f), body)
  }

  lemma SelfContainedIsOrderly(m: Manager, ss: seq<Step>)
    requires Inv(m) && SelfContained(m.callStack, ss)
    ensures Orderly(m, ss)
    decreases ss, 0
  {
    if ss != [] {
      SelfContainedStepIsOrderly(m, ss[0]);
      StepKeeps(m, ss[0]);
      if RunStep(m, ss[0]).Ran? {
        SelfContainedIsOrderly(RunStep(m, ss[0]).m, ss[1..]);
      }
    }
  }

  lemma SelfContainedStepIsOrderly(m: Manager, s: Step)
    requires Inv(m) && SelfContainedStep(m.callStack, s)
    ensures OrderlyStep(m, s)
    decreases s, 1
  {
    if s.Call? {
      PushKeeps(m, s.frame);
      SelfContainedIsOrderly(PushFrame(m, s.frame), s.body);
    }
  }

  /** Run on any manager with the same frames, such a check drops the invoker trackers that wait for a call, and
      changes nothing else. */
  lemma EndingCheck(m: Manager, s: Step, m1: Manager)
    requires Inv(m) && Inv(m1) && SameFrames(m, m1) && s.RequireAuth? && CheckEnds(m, s)
    ensures RunCall(m1, CheckFrame(s.address), s.check, !s.authentic).Ran?
    ensures RunCall(m1, CheckFrame(s.address), s.check, !s.authentic).m
         == m1.(invokers := m1.invokers[..Below(m1.invokers, |m1.callStack|)])
    decreases s, 0
  {
    var f := CheckFrame(s.address);
    PushKeeps(m, f);
    SelfContainedIsOrderly(PushFrame(m, f), s.check);
    CallLockstep(m, m1, f, s.check, !s.authentic);
    SelfContainedCall(m1, f, s.check, !s.authentic);
    PopAfterPush(m1, f);
  }

  lemma HarmlessCheck(m: Manager, s: Step, m1: Manager)
    requires Inv(m) && Inv(m1) && SameFrames(m, m1) && s.RequireAuth? && CheckHarmless(m, s)
    ensures RunCall(m1, CheckFrame(s.address), s.check, !s.authentic).Ran?
    ensures RunCall(m1, CheckFrame(s.address), s.check, !s.authentic).m == m1
    decreases s, 1
  {
    EndingCheck(m, s, m1);
    NonePendingBelow(m1);
  }

  lemma EnforcingKeepsFrames(m: Manager, s: Step, fn: Function)
    requires s.RequireAuth? && Inv(m) && m.mode.Enforcing? && m.callStack != []
    requires s.address.Contract? ==> CheckHarmless(m, s)
    ensures RequireEnforcing(m, s, fn).Ran? && SameFrames(m, RequireEnforcing(m, s, fn).m)
    decreases s, 2
  {
    hide Inv, Extend, HasActive, RunCall, CheckHarmless, InFrame;
    var allowRoot := !HasActive(m.accounts, s.address);
    var i := FirstAccount(m.accounts, s.address, fn, allowRoot, 0);
    if i < |m.accounts| {
      var a, m1, p := MatchedAccount(m, i, fn, allowRoot);
      if !a.verified {
        if RunsCheck(a) {
          HarmlessCheck(m, s, m1);
        }
        FinishKeeps(m1, i, a.isSource || s.authentic);
        FinishKeeps(m1, i, s.authentic);
      }
    }
  }

  lemma RecordingKeepsFrames(m: Manager, s: Step, fn: Function)
    requires s.RequireAuth? && Inv(m) && m.mode.Recording? && m.callStack != []
    ensures RequireRecording(m, s, fn).Ran? && SameFrames(m, RequireRecording(m, s, fn).m)
  {
    RequireRecordingKeeps(m, s, fn);
    hide Inv, Record, AnyMatched;
  }

  lemma RequestKeepsFrames(m: Manager, s: Step, fn: Function)
    requires s.RequireAuth? && Inv(m) && m.callStack != [] && (s.address.Contract? ==> CheckHarmless(m, s))
    ensures var r := if m.mode.Enforcing? then RequireEnforcing(m, s, fn) else RequireRecording(m, s, fn);
            r.Ran? && SameFrames(m, r.m)
    decreases s, 3
  {
    hide Inv, RequireEnforcing, RequireRecording, CheckHarmless;
    if m.mode.Enforcing? {
      EnforcingKeepsFrames(m, s, fn);
    } else {
      RecordingKeepsFrames(m, s, fn);
    }
  }

  /** Whether a check is harmless depends on the frames alone. */
  lemma HarmlessTransfers(a: Manager, b: Manager, s: Step)
    requires Inv(a) && Inv(b) && SameFrames(a, b) && s.RequireAuth? && CheckHarmless(a, s)
    ensures CheckHarmless(b, s)
    decreases s, 2
  {
    HarmlessCheck(a, s, b);
  }

  lemma RequestLockstep(a: Manager, b: Manager, s: Step)
    requires Inv(a) && Inv(b) && SameFrames(a, b) && s.RequireAuth? && OrderlyStep(a, s)
    ensures Require(a, s).Ran? <==> Require(b, s).Ran?
    ensures Require(a, s).Ran? ==> SameFrames(Require(a, s).m, Require(b, s).m)
    decreases s, 4
  {
    hide Inv, RequireEnforcing, RequireRecording, Extend, CheckHarmless;
    if a.callStack != [] {
      var fn := ToFunction(a.callStack[|a.callStack| - 1], s.args);
      if CheckInvokers(a, s.address, fn).NotFound? {
        RequestKeepsFrames(a, s, fn);
        if s.address.Contract? {
          HarmlessTransfers(a, b, s);
        }
        RequestKeepsFrames(b, s, fn);
      }
    }
  }

  lemma StepLockstep(a: Manager, b: Manager, s: Step)
    requires Inv(a) && Inv(b) && SameFrames(a, b) && OrderlyStep(a, s)
    ensures RunStep(a, s).Ran? <==> RunStep(b, s).Ran?
    ensures RunStep(a, s).Ran? ==> SameFrames(RunStep(a, s).m, RunStep(b, s).m)
    decreases s, 5
  {
    hide Inv, Require, Run, PopFrame, PopTop, CheckHarmless;
    match s
    case RequireAuth(_, _, _, _, _, _) => RequestLockstep(a, b, s);
    case AuthorizeAsCurrent(_) =>
    case Call(f, body, fails) => CallLockstep(a, b, f, body, fails);
  }

  lemma CallLockstep(a: Manager, b: Manager, f: Frame, body: seq<Step>, fails: bool)
    requires Inv(a) && Inv(b) && SameFrames(a, b) && Orderly(PushFrame(a, f), body)
    ensures RunCall(a, f, body, fails).Ran? <==> RunCall(b, f, body, fails).Ran?
    ensures RunCall(a, f, body, fails).Ran? ==>
              SameFrames(RunCall(a, f, body, fails).m, RunCall(b, f, body, fails).m)
    decreases body, 1
  {
    var a1, b1 := PushFrame(a, f), PushFrame(b, f);
    PushKeeps(a, f);
    PushKeeps(b, f);
    RunLockstep(a1, b1, body);
    RunKeeps(a1, body);
    RunKeeps(b1, body);
    hide Inv, InFrame, Run, RollBackManager, TakeSnapshot, Orderly;
    if Run(a1, body).Ran? && fails {
      FailureUndoes(a, f, Run(a1, body).m);
      FailureUndoes(b, f, Run(b1, body).m);
      hide PopFrame;
      assert NonePending(Run(a1, body).m) <==> NonePending(Run(b1, body).m);
    }
  }

  /**
    * Whatever their modes and account trackers: two managers with the same call stack and invoker trackers keep them
    * equal over any orderly run, and end in an internal error together.
    */
  lemma RunLockstep(a: Manager, b: Manager, ss: seq<Step>)
    requires Inv(a) && Inv(b) && SameFrames(a, b) && Orderly(a, ss)
    ensures Run(a, ss).Ran? <==> Run(b, ss).Ran?
    ensures Run(a, ss).Ran? ==> SameFrames(Run(a, ss).m, Run(b, ss).m)
    decreases ss, 0
  {
    if ss != [] {
      StepLockstep(a, b, ss[0]);
      if RunStep(a, ss[0]).Ran? {
        StepKeeps(a, ss[0]);
        StepKeeps(b, ss[0]);
        RunLockstep(RunStep(a, ss[0]).m, RunStep(b, ss[0]).m, ss[1..]);
      }
    }
  }
}
