/** The promises of the authorization manager, over every run from a fresh manager. */
module AuthorizationTheorems {
  import opened Basics
  import opened InvocationTree
  import opened InvocationTracking
  import opened Nonces
  import opened Authorization
  import opened AuthorizationInvariants

  // ---------- every state between operations ----------

  /** `x` is a state the run of `ss` from `m` passes through between two operations of the manager,
      at any depth of calls and authentications, whether or not the run crashes later. */
  ghost predicate Visited(m: Manager, ss: seq<Step>, x: Manager)
    decreases ss, 0
  {
    || x == m
    || (ss != [] && VisitedInStep(m, ss[0], x))
    || (ss != [] && RunStep(m, ss[0]).Ran? && Visited(RunStep(m, ss[0]).m, ss[1..], x))
  }

  ghost predicate VisitedInStep(m: Manager, s: Step, x: Manager)
    decreases s, 1
  {
    match s
    case Call(frame, body, _) => Visited(PushFrame(m, frame), body, x)
    case RequireAuth(_, _, _, _, _, _) => VisitedInCheck(m, s, x)
    case _ => false
  }

  /** The code an account runs to authenticate, while its own tracker is borrowed. */
  ghost predicate VisitedInCheck(m: Manager, s: Step, x: Manager)
    requires s.RequireAuth?
    decreases s, 0
  {
    && m.mode.Enforcing? && m.callStack != []
    && var fn := ToFunction(m.callStack[|m.callStack| - 1], s.args);
    && CheckInvokers(m, s.address, fn).NotFound?
    && var allowRoot := !HasActive(m.accounts, s.address);
    && var i := FirstAccount(m.accounts, s.address, fn, allowRoot, 0);
    && i < |m.accounts| && Extend(m.accounts[i].tracker, fn, allowRoot).Extended?
    && var a := m.accounts[i].(tracker := Extend(m.accounts[i].tracker, fn, allowRoot).t);
    && !a.verified && RunsCheck(a)
    && var m1 := m.(accounts := m.accounts[i := a.(borrowed := true)]);
    && (x == m1 || Visited(PushFrame(m1, CheckFrame(a.address)), s.check, x))
  }

  lemma VisitedKeeps(m: Manager, ss: seq<Step>, x: Manager)
    requires Inv(m) && Visited(m, ss, x)
    ensures Inv(x)
    decreases ss, 0
  {
    if x != m {
      StepKeeps(m, ss[0]);
      if VisitedInStep(m, ss[0], x) {
        VisitedInStepKeeps(m, ss[0], x);
      } else {
        VisitedKeeps(RunStep(m, ss[0]).m, ss[1..], x);
      }
    }
  }

  lemma VisitedInStepKeeps(m: Manager, s: Step, x: Manager)
    requires Inv(m) && VisitedInStep(m, s, x)
    ensures Inv(x)
    decreases s, 1
  {
    match s
    case Call(frame, body, _) =>
      PushKeeps(m, frame);
      VisitedKeeps(PushFrame(m, frame), body, x);
    case RequireAuth(_, _, _, _, _, _) =>
      var fn := ToFunction(m.callStack[|m.callStack| - 1], s.args);
      var allowRoot := !HasActive(m.accounts, s.address);
      var i := FirstAccount(m.accounts, s.address, fn, allowRoot, 0);
      var a, m1, p := MatchedAccount(m, i, fn, allowRoot);
      if x != m1 {
        PushKeeps(m1, CheckFrame(a.address));
        VisitedKeeps(PushFrame(m1, CheckFrame(a.address)), s.check, x);
      }
  }

  /** A manager as it is created, for entries given to it or for recording. */
  ghost predicate Created(m: Manager) {
    && m.callStack == [] && m.invokers == []
    && (m.mode.Recording? ==> m.accounts == [] && m.mode.handles == map[])
    && (forall i :: 0 <= i < |m.accounts| ==>
          var a := m.accounts[i];
          && a.tracker == NewTracker(Fresh(a.tracker.root)) && !a.verified && !a.borrowed
          && (a.nonce.None? <==> a.isSource))
  }

  lemma CreatedFits(m: Manager)
    requires Created(m)
    ensures Inv(m)
  {
    forall i | 0 <= i < |m.accounts| ensures AccountFits(m.accounts[i], 0) {
      FreshClosed(m.accounts[i].tracker.root);
    }
  }

  /** The match of a tracker embeds its tree in the call stack: it is active exactly when a root match
      is on its stack, there is then one root match with nothing before it, the sub-matches spell a path
      of used nodes, and the walk that looks for the last of them reaches it without internal error. */
  ghost predicate MatchEmbeds(t: Tracker) {
    && (IsActive(t) <==> RootMatch in t.stack)
    && (forall i, j :: 0 <= i < j < |t.stack| && t.stack[j] == RootMatch ==> t.stack[i] == Unmatched)
    && (IsActive(t) ==> Spent(t.root, SubPath(t.stack)))
    && (!IsActive(t) ==> AllUnmatched(t.stack))
    && WalkStack(t.root, t.stack) == (if IsActive(t) then Found(SubPath(t.stack)) else NoRoot)
    && Closed(t.root)
  }

  lemma ConsistentEmbeds(t: Tracker)
    requires Consistent(t)
    ensures MatchEmbeds(t)
  {
    WalkNeverBreaks(t);
  }

  /** In every state of every run, all trackers embed, borrowed ones included. */
  lemma EveryStateEmbeds(m: Manager, ss: seq<Step>, x: Manager)
    requires Created(m) && Visited(m, ss, x)
    ensures forall i :: 0 <= i < |x.accounts| ==> MatchEmbeds(x.accounts[i].tracker)
    ensures forall i :: 0 <= i < |x.invokers| ==> MatchEmbeds(x.invokers[i].tracker)
    ensures forall i :: 0 <= i < |x.accounts| && !x.accounts[i].borrowed ==>
              |x.accounts[i].tracker.stack| == |x.callStack|
  {
    CreatedFits(m);
    VisitedKeeps(m, ss, x);
    forall i | 0 <= i < |x.accounts| ensures MatchEmbeds(x.accounts[i].tracker) {
      ConsistentEmbeds(x.accounts[i].tracker);
    }
    forall i | 0 <= i < |x.invokers| ensures MatchEmbeds(x.invokers[i].tracker) {
      ConsistentEmbeds(x.invokers[i].tracker);
    }
  }

  /** In every state of every run, the match stack of an invoker tracker is as long as the calls made
      since its creation, and these lengths do not increase along the list. */
  lemma InvokerTrackersScoped(m: Manager, ss: seq<Step>, x: Manager)
    requires Created(m) && Visited(m, ss, x)
    ensures forall i :: 0 <= i < |x.invokers| ==>
              |x.invokers[i].tracker.stack| == |x.callStack| - x.invokers[i].born
    ensures forall i, j :: 0 <= i < j < |x.invokers| ==>
              |x.invokers[j].tracker.stack| <= |x.invokers[i].tracker.stack|
  {
    CreatedFits(m);
    VisitedKeeps(m, ss, x);
  }

  /** A call ends the life of every tracker its caller created, and leaves none out of scope anywhere;
      the trackers created further down stay. */
  lemma CallEndsPendingTrackers(m: Manager, ss: seq<Step>, x: Manager, s: Step)
    requires Created(m) && Visited(m, ss, x) && s.Call? && RunStep(x, s).Ran?
    ensures var r := RunStep(x, s).m;
            var k := Below(x.invokers, |x.callStack|);
            && |r.invokers| == k
            && (forall i :: 0 <= i < k ==> r.invokers[i].born == x.invokers[i].born < |x.callStack|)
            && (forall i :: 0 <= i < k ==> |r.invokers[i].tracker.stack| == |x.invokers[i].tracker.stack| > 0)
  {
    CreatedFits(m);
    VisitedKeeps(m, ss, x);
    var m1 := PushFrame(x, s.frame);
    PushKeeps(x, s.frame);
    RunKeeps(m1, s.body);
    var m2 := Run(m1, s.body).m;
    var r := RunStep(x, s).m;
    InFrameRefl(m1);
    if s.fails {
      FailureUndoes(x, s.frame, m2);
      SuccessKeeps(x, s.frame, m1);
    } else {
      SuccessKeeps(x, s.frame, m2);
    }
    ScopeEnds(x.invokers, r.invokers, |x.callStack|);
  }

  lemma ScopeEnds(a: seq<InvokerTracker>, b: seq<InvokerTracker>, depth: nat)
    requires InvokersFit(a, depth) && InvokersInFrame(a, b, depth)
    requires forall i :: 0 <= i < |b| ==> b[i].born < depth
    ensures |b| == Below(a, depth)
    ensures forall i :: 0 <= i < |b| ==>
              b[i].born == a[i].born && |b[i].tracker.stack| == |a[i].tracker.stack| > 0
  {
    var k := Below(a, depth);
    assert k > 0 ==> a[k - 1].born < depth;
    forall i | 0 <= i < |b| ensures i < |a| && a[i].born < depth {
      assert b[i].born < depth;
      assert i < |a| ==> InvokerFits(a[i], depth);
    }
    forall i | 0 <= i < k ensures |b[i].tracker.stack| == |a[i].tracker.stack| > 0 && b[i].born == a[i].born {
      assert InvokerFits(a[i], depth) && a[i].born < depth;
    }
  }

  /** A failed call. It ends in an internal error exactly when its body does or leaves an invoker tracker
      waiting for a call; otherwise every account tracker, the ledger and the call stack are what they
      were before the call, and so are the invoker trackers, less those that waited for this call. */
  lemma FailedCallIsUndone(m: Manager, ss: seq<Step>, x: Manager, f: Frame, body: seq<Step>)
    requires Created(m) && Visited(m, ss, x)
    ensures var inner := Run(PushFrame(x, f), body);
            var r := RunStep(x, Call(f, body, true));
            && (r.Crashed? <==> inner.Crashed? || !NonePending(inner.m))
            && (r.Ran? ==> r.m == x.(invokers := x.invokers[..Below(x.invokers, |x.callStack|)]))
  {
    CreatedFits(m);
    VisitedKeeps(m, ss, x);
    PushKeeps(x, f);
    RunKeeps(PushFrame(x, f), body);
    if Run(PushFrame(x, f), body).Ran? {
      FailureUndoes(x, f, Run(PushFrame(x, f), body).m);
      PopAfterPush(x, f);
    }
  }

  /** The guard is real: a contract that authorizes a sub-call, makes none and fails. */
  lemma FailingWithPendingTrackerCrashes(m: Manager, contract: Address, entry: Invocation)
    requires Created(m)
    ensures RunStep(m, Call(ContractFrame(contract, 0), [AuthorizeAsCurrent([entry])], true)).Crashed?
  {
    var f := ContractFrame(contract, 0);
    var body := [AuthorizeAsCurrent([entry])];
    var m1 := PushFrame(m, f);
    var m2 := Authorize(m1, [entry]).m;
    assert body[1..] == [];
    assert RunStep(m1, body[0]) == Ran(m2, true);
    assert Run(m2, []) == Ran(m2, true);
    assert Run(m1, body) == Ran(m2, true);
    assert m2.invokers[|m2.invokers| - 1].tracker.stack == [];
    assert !NonePending(m2);
    FailedCallIsUndone(m, [], m, f, body);
  }

  /** The other guard: the asking frame itself authorized the very call it asks for. Besides it, a request ends in an
      internal error exactly when the code of an account, run to authenticate, does. */
  lemma AskingOwnPendingTrackerBreaks(m: Manager, ss: seq<Step>, x: Manager, s: Step)
    requires Created(m) && Visited(m, ss, x) && x.callStack != [] && s.RequireAuth?
    ensures var fn := ToFunction(x.callStack[|x.callStack| - 1], s.args);
            var i := FirstInvoker(x.invokers, s.address, fn, 0);
            CheckInvokers(x, s.address, fn).Broke? <==>
            |x.callStack| >= 2 && !DirectInvoker(x, s.address)
            && i < |x.invokers| && x.invokers[i].born == |x.callStack|
    ensures var fn := ToFunction(x.callStack[|x.callStack| - 1], s.args);
            Require(x, s).Crashed? <==>
            || CheckInvokers(x, s.address, fn).Broke?
            || (CheckInvokers(x, s.address, fn).NotFound? && x.mode.Enforcing? && CheckCrashes(x, s, fn))
  {
    CreatedFits(m);
    VisitedKeeps(m, ss, x);
    hide Inv, Visited, Created, Require, CheckInvokers, CheckCrashes;
    CheckInvokersKeeps(x, s.address, ToFunction(x.callStack[|x.callStack| - 1], s.args));
    RequireCrashExact(x, s);
  }

  /** Authorize as `c` the call of `c` itself, then ask for `c`: what the inner of two frames does to get there. */
  function AskForOwnCall(c: Address, name: nat, args: nat, handle: nat): seq<Step> {
    [AuthorizeAsCurrent([Invocation(ContractFn(c, name, args), [], false)]),
     RequireAuth(handle, c, args, [], true, 0)]
  }

  /** The guard is real: any other contract only has to call such a contract. */
  lemma AskingForOwnCallCrashes(m: Manager, outer: Address, c: Address, name: nat, args: nat, handle: nat)
    requires Created(m) && outer != c
    ensures var inner := Call(ContractFrame(c, name), AskForOwnCall(c, name, args, handle), false);
            RunStep(m, Call(ContractFrame(outer, 0), [inner], false)).Crashed?
  {
    var m1 := PushFrame(m, ContractFrame(outer, 0));
    var m2 := PushFrame(m1, ContractFrame(c, name));
    var body := AskForOwnCall(c, name, args, handle);
    var fn := ContractFn(c, name, args);
    var t := InvokerTracker(c, NewTracker(Fresh(body[0].entries[0])), 2);
    var m3 := Authorize(m2, body[0].entries).m;
    assert m3.invokers == [t] && m3.callStack == [ContractFrame(outer, 0), ContractFrame(c, name)];
    assert Extend(t.tracker, fn, true).Failed?;
    assert FirstInvoker(m3.invokers, c, fn, 0) == 0;
    assert CheckInvokers(m3, c, fn).Broke?;
    assert RunStep(m3, body[1]).Crashed?;
    assert Run(m3, body[1..]).Crashed?;
    assert RunStep(m2, body[0]) == Ran(m3, true);
    assert Run(m2, body).Crashed?;
    var inner := Call(ContractFrame(c, name), body, false);
    assert RunStep(m1, inner).Crashed?;
    assert Run(m1, [inner]).Crashed?;
  }

  /** Within one transaction, two trackers that share address and nonce are never both verified. */
  lemma NonceServesOneTracker(m: Manager, ss: seq<Step>, x: Manager, i: nat, j: nat)
    requires Created(m) && Visited(m, ss, x)
    requires i < j < |x.accounts| && x.accounts[i].address == x.accounts[j].address
    requires x.accounts[i].nonce.Some? && x.accounts[j].nonce.Some?
    requires x.accounts[i].nonce.value.value == x.accounts[j].nonce.value.value
    ensures !(x.accounts[i].verified && x.accounts[j].verified)
  {
    CreatedFits(m);
    VisitedKeeps(m, ss, x);
    assert AccountFits(x.accounts[i], |x.callStack|) && AccountFits(x.accounts[j], |x.callStack|);
    assert KeyOf(x.accounts[i]) == KeyOf(x.accounts[j]);
  }
}
