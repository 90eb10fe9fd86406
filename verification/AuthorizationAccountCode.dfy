/**
  * Why a recording does not predict every run with contract accounts. Recording never runs their `__check_auth`, and
  * the frame in which it is run later can cut an invoker tracker short, or spend a node recorded for somebody else.
  */
module AuthorizationAccountCode {
  import opened Basics
  import opened InvocationTree
  import opened InvocationTracking
  import opened Nonces
  import opened Authorization
  import opened AuthorizationInvariants
  import opened AuthorizationTheorems
  import opened AuthorizationReplay

  function Ask(address: Address, random: int): Step {
    RequireAuth(0, address, 0, [], true, random)
  }

  function Fn(contract: Address): Function {
    ContractFn(contract, 1, 0)
  }

  function In(contract: Address): Frame {
    ContractFrame(contract, 1)
  }

  /** `a` authorizes `c` as its invoker, asks for the account `w`, and reaches `c` through `b`; `c` asks for `a`. */
  function AskBetween(a: Address, b: Address, c: Address, w: Address): seq<Step> {
    [Call(In(a), [AuthorizeAsCurrent([Invocation(Fn(c), [], false)]), Ask(w, 7), Through(a, b, c)], false)]
  }

  function Through(a: Address, b: Address, c: Address): Step {
    Call(In(b), [Call(In(c), [Ask(a, 8)], false)], false)
  }

  /** The nonce that is drawn for `w` can be stored. */
  predicate CanDraw(l: Ledger, w: Address) {
    && NonceKey(w, 7) !in l.live
    && LastLedger(l.seqNum, l.minTempTtl).Some? && LastLedger(l.seqNum, l.maxTtl).Some?
  }

  function Recorder(l: Ledger): Manager {
    Manager(Recording(map[], false, None), [], [], [], l)
  }

  lemma OneCall(m: Manager, f: Frame, s: Step, inside: Outcome)
    requires inside.Ran? && RunStep(PushFrame(m, f), s) == inside
    ensures RunStep(m, Call(f, [s], false)) == Ran(PopTop(inside.m), inside.granted)
  {
    RunOne(PushFrame(m, f), s);
  }

  /** The same trackers as to what was recorded, wherever in the call stack. */
  predicate SameRecord(a: seq<AccountTracker>, b: seq<AccountTracker>) {
    |a| == |b| && forall k :: 0 <= k < |a| ==>
      && b[k].address == a[k].address && b[k].isSource == a[k].isSource && b[k].nonce == a[k].nonce
      && b[k].tracker.root == a[k].tracker.root
  }

  lemma InvokerAnswers(m: Manager, a: Address, c: Address)
    requires |m.callStack| == 3 && m.callStack[2] == In(c) && !DirectInvoker(m, a) && |m.invokers| == 1
    requires m.invokers[0].address == a
    requires m.invokers[0].tracker == Push(Push(NewTracker(Invocation(Fn(c), [], false))))
    ensures RunStep(m, Ask(a, 8)).Ran? && RunStep(m, Ask(a, 8)).granted
    ensures RunStep(m, Ask(a, 8)).m == m.(invokers := RunStep(m, Ask(a, 8)).m.invokers)
  {
    var t := m.invokers[0];
    assert t.tracker.stack == [Unmatched, Unmatched];
    WalkBlank(t.tracker.root, t.tracker.stack);
    assert Extend(t.tracker, Fn(c), true).Extended?;
    assert FirstInvoker(m.invokers, a, Fn(c), 0) == 0;
    hide Extend, FirstInvoker;
    assert CheckInvokers(m, a, Fn(c)).Granted?;
  }

  /** On the way to `c` a waiting invoker tracker of `a` answers for it. */
  lemma AnsweredThrough(m: Manager, a: Address, b: Address, c: Address)
    requires m.callStack == [In(a)] && a != b
    requires m.invokers == [InvokerTracker(a, NewTracker(Invocation(Fn(c), [], false)), 1)]
    ensures RunStep(m, Through(a, b, c)).Ran? && RunStep(m, Through(a, b, c)).granted
    ensures SameRecord(m.accounts, RunStep(m, Through(a, b, c)).m.accounts)
  {
    var m1 := PushFrame(m, In(b));
    var m2 := PushFrame(m1, In(c));
    InvokerAnswers(m2, a, c);
    hide Require, DropOutOfScope, Push, Pop;
    var m3 := RunStep(m2, Ask(a, 8)).m;
    OneCall(m1, In(c), Ask(a, 8), Ran(m3, true));
    OneCall(m, In(b), Call(In(c), [Ask(a, 8)], false), Ran(PopTop(m3), true));
    hide RunStep;
    PushPopSame(m, m1, m2, m3);
  }

  lemma PushPopSame(m: Manager, m1: Manager, m2: Manager, m3: Manager)
    requires m1.accounts == Map(PushAccount, m.accounts) && m2.accounts == Map(PushAccount, m1.accounts)
    requires m3.accounts == m2.accounts && |m3.callStack| >= 2
    ensures SameRecord(m.accounts, PopTop(PopTop(m3)).accounts)
  {
    hide DropOutOfScope;
  }

  /** Without it nobody does. */
  lemma DeniedThrough(m: Manager, a: Address, b: Address, c: Address)
    requires m.mode.Enforcing? && m.callStack == [In(a)] && a != b && m.invokers == []
    requires forall k :: 0 <= k < |m.accounts| ==> m.accounts[k].address != a
    ensures RunStep(m, Through(a, b, c)).Ran? && !RunStep(m, Through(a, b, c)).granted
  {
    var m1 := PushFrame(m, In(b));
    var m2 := PushFrame(m1, In(c));
    assert CheckInvokers(m2, a, Fn(c)) == NotFound;
    assert forall k :: 0 <= k < |m2.accounts| ==> m2.accounts[k].address != a;
    assert RequireEnforcing(m2, Ask(a, 8), Fn(c)) == Ran(m2, false);
    OneCall(m1, In(c), Ask(a, 8), Ran(m2, false));
    OneCall(m, In(b), Call(In(c), [Ask(a, 8)], false), Ran(PopTop(m2), false));
  }

  /** The invoker tracker that the first step of `a` leaves waiting. */
  function Waiting(a: Address, c: Address): InvokerTracker {
    InvokerTracker(a, NewTracker(Invocation(Fn(c), [], false)), 1)
  }

  lemma AuthorizesFirst(m: Manager, a: Address, c: Address)
    requires m.callStack == [In(a)] && m.invokers == []
    ensures RunStep(m, AuthorizeAsCurrent([Invocation(Fn(c), [], false)])) == Ran(m.(invokers := [Waiting(a, c)]), true)
  {
    var entry := Invocation(Fn(c), [], false);
    assert Fresh(entry) == entry;
    assert Authorize(m, [entry]).m.invokers == [Waiting(a, c)];
  }

  /** Recording the request starts a tracker; nothing is run. */
  lemma RecordsAccount(m: Manager, a: Address, w: Address)
    requires m.callStack == [In(a)] && m.accounts == [] && m.mode == Recording(map[], false, None)
    requires CanDraw(m.ledger, w)
    ensures var r := RunStep(m, Ask(w, 7));
            && r.Ran? && r.granted && r.m.callStack == m.callStack && r.m.invokers == m.invokers
            && SameRecord(r.m.accounts, [AccountTracker(w, NewTracker(Invocation(Fn(a), [], true)), false, true,
                                                        Some(SignedNonce(7, 0)), false)])
  {
    assert CheckInvokers(m, w, Fn(a)) == NotFound;
    assert m.mode.handles - {0} == map[];
    assert RequireRecording(m, Ask(w, 7), Fn(a)) == CreateRecording(m, Ask(w, 7), Fn(a));
  }

  lemma AuthenticationStarts(n: Manager, a: Address, s: Step, m1: Manager)
    requires s.RequireAuth? && s.args == 0 && n.mode.Enforcing? && n.callStack == [In(a)] && |n.accounts| == 1
    requires CheckInvokers(n, s.address, Fn(a)) == NotFound
    requires !HasActive(n.accounts, s.address) && FirstAccount(n.accounts, s.address, Fn(a), true, 0) == 0
    requires !n.accounts[0].verified && Extend(n.accounts[0].tracker, Fn(a), true).Extended?
    requires m1 == n.(accounts := n.accounts[0 := n.accounts[0].(
                        tracker := Extend(n.accounts[0].tracker, Fn(a), true).t, borrowed := true)])
    ensures RunStep(n, s) == Authenticate(m1, 0, s)
  {
    hide Extend, HasActive, CheckInvokers, Authenticate;
    assert RequireEnforcing(n, s, Fn(a)) == Authenticate(m1, 0, s);
  }

  /** Enforcing it runs the account's code, in a frame that does nothing; popping that frame drops the tracker. */
  lemma AuthenticatesAlone(n: Manager, a: Address, c: Address, w: Address)
    requires n.mode.Enforcing? && n.callStack == [In(a)] && n.invokers == [Waiting(a, c)] && w.Contract? && Inv(n)
    requires |n.accounts| == 1 && n.accounts[0].address == w && !n.accounts[0].isSource && !n.accounts[0].verified
    requires n.accounts[0].tracker == Push(NewTracker(Invocation(Fn(a), [], false))) && !n.accounts[0].borrowed
    requires CheckNonce(n.ledger, n.accounts[0]).NonceOk?
    ensures var r := RunStep(n, Ask(w, 7));
            && r.Ran? && r.granted && r.m.callStack == n.callStack && r.m.mode.Enforcing? && r.m.invokers == []
            && |r.m.accounts| == 1 && r.m.accounts[0].address == w
  {
    var s := Ask(w, 7);
    var t := n.accounts[0].tracker;
    assert t.stack == [Unmatched];
    WalkBlank(t.root, t.stack);
    assert Extend(t, Fn(a), true).Extended?;
    assert !HasActive(n.accounts, w);
    assert CheckInvokers(n, w, Fn(a)) == NotFound;
    assert FirstAccount(n.accounts, w, Fn(a), true, 0) == 0;
    var b, m1, p := MatchedAccount(n, 0, Fn(a), true);
    AuthenticationStarts(n, a, s, m1);
    var f := CheckFrame(w);
    assert Run(PushFrame(m1, f), []) == Ran(PushFrame(m1, f), true);
    PopAfterPush(m1, f);
    assert Below(m1.invokers, 1) == 0;
    var m2 := m1.(invokers := []);
    assert RunCall(m1, f, [], false) == Ran(m2, true);
    hide Extend, PushFrame, PopTop, Inv;
    assert Authenticate(m1, 0, s) == Finish(m2, 0, true);
  }

  lemma ThreeSteps(m: Manager, ss: seq<Step>, m1: Manager, m2: Manager, r: Outcome)
    requires |ss| == 3 && RunStep(m, ss[0]) == Ran(m1, true) && RunStep(m1, ss[1]) == Ran(m2, true)
    requires RunStep(m2, ss[2]) == r && r.Ran?
    ensures Run(m, ss) == r
  {
    hide RunStep;
    RunOne(m2, ss[2]);
    assert ss[1..][1..] == [ss[2]];
    assert Run(m1, ss[1..]) == r;
  }

  /** The recording of the run. */
  lemma AskBetweenIsRecorded(l: Ledger, a: Address, b: Address, c: Address, w: Address)
    requires a != b && CanDraw(l, w)
    ensures var r := Run(Recorder(l), AskBetween(a, b, c, w));
            && r.Ran? && r.granted
            && SameRecord(r.m.accounts, [AccountTracker(w, NewTracker(Invocation(Fn(a), [], true)), false, true,
                                                        Some(SignedNonce(7, 0)), false)])
  {
    var m := Recorder(l);
    var call := AskBetween(a, b, c, w)[0];
    var m1 := PushFrame(m, In(a));
    assert m1.accounts == [] && m1.invokers == [] && m1.callStack == [In(a)];
    AuthorizesFirst(m1, a, c);
    var m2 := m1.(invokers := [Waiting(a, c)]);
    RecordsAccount(m2, a, w);
    var m3 := RunStep(m2, Ask(w, 7)).m;
    AnsweredThrough(m3, a, b, c);
    var r := RunStep(m3, Through(a, b, c));
    ThreeSteps(m1, call.body, m2, m3, r);
    RunOne(m, call);
    hide RunStep, Run, DropOutOfScope;
  }

  /**
    * Recorded and granted, then denied. The frame of `__check_auth` that authenticates `w` ends the life of the invoker
    * tracker that `a` meant for its next call, so that nobody answers for `a` any more when `c` asks.
    */
  lemma CheckCutsTrackerShort(l: Ledger, a: Address, b: Address, c: Address, w: Address, expiration: nat)
    requires w.Contract? && a != b && a != w && CanDraw(l, w)
    requires l.seqNum <= expiration <= LastLedger(l.seqNum, l.maxTtl).value
    ensures var ss := AskBetween(a, b, c, w);
            && Run(Recorder(l), ss).Ran? && Run(Recorder(l), ss).granted
            && var full := Run(Recorder(l), ss).m.accounts;
            && Usable(full, expiration, l)
            && Run(Load(full, expiration, l), ss).Ran? && !Run(Load(full, expiration, l), ss).granted
  {
    AskBetweenIsRecorded(l, a, b, c, w);
    var ss := AskBetween(a, b, c, w);
    var full := Run(Recorder(l), ss).m.accounts;
    assert KeyOf(full[0]) == NonceKey(w, 7);
    hide Run;
    var n := Load(full, expiration, l);
    LoadStarts(full, expiration, l, a, w);
    var n1 := PushFrame(n, In(a));
    AuthorizesFirst(n1, a, c);
    var n2 := n1.(invokers := [Waiting(a, c)]);
    AuthorizeKeeps(n1, [Invocation(Fn(c), [], false)]);
    assert Authorize(n1, [Invocation(Fn(c), [], false)]) == RunStep(n1, ss[0].body[0]);
    AuthenticatesAlone(n2, a, c, w);
    var n3 := RunStep(n2, Ask(w, 7)).m;
    DeniedThrough(n3, a, b, c);
    ThreeSteps(n1, ss[0].body, n2, n3, RunStep(n3, Through(a, b, c)));
    hide RunStep;
    CallDenied(n, In(a), ss[0].body);
    RunOne(n, ss[0]);
    assert ss == [ss[0]];
  }

  lemma CallRecorded(m: Manager, f: Frame, body: seq<Step>, recorded: seq<AccountTracker>)
    requires Run(PushFrame(m, f), body).Ran? && Run(PushFrame(m, f), body).granted
    requires SameRecord(Run(PushFrame(m, f), body).m.accounts, recorded)
    ensures var r := RunStep(m, Call(f, body, false)); r.Ran? && r.granted && SameRecord(r.m.accounts, recorded)
  {
    hide Run, DropOutOfScope;
  }

  lemma CallDenied(m: Manager, f: Frame, body: seq<Step>)
    requires Run(PushFrame(m, f), body).Ran? && !Run(PushFrame(m, f), body).granted
    ensures RunStep(m, Call(f, body, false)).Ran? && !RunStep(m, Call(f, body, false)).granted
  {}

  lemma LoadStarts(full: seq<AccountTracker>, expiration: nat, l: Ledger, a: Address, w: Address)
    requires SameRecord(full, [AccountTracker(w, NewTracker(Invocation(Fn(a), [], true)), false, true,
                                              Some(SignedNonce(7, 0)), false)])
    requires Usable(full, expiration, l)
    ensures var n1 := PushFrame(Load(full, expiration, l), In(a));
            && Inv(n1) && n1.mode.Enforcing? && n1.callStack == [In(a)] && n1.invokers == [] && |n1.accounts| == 1
            && n1.accounts[0].address == w && !n1.accounts[0].isSource && !n1.accounts[0].verified
            && n1.accounts[0].tracker == Push(NewTracker(Invocation(Fn(a), [], false))) && !n1.accounts[0].borrowed
            && n1.ledger == l && CheckNonce(l, n1.accounts[0]).NonceOk?
  {
    var n := Load(full, expiration, l);
    var root := Invocation(Fn(a), [], true);
    assert Fresh(root) == Invocation(Fn(a), [], false);
    FreshClosed(root);
    assert Created(n);
    CreatedFits(n);
    PushKeeps(n, In(a));
  }

  // ---------- code that asks for somebody else ----------

  /** `a` asks for the account `x` that submits the transaction, then for `w`, whose code calls `b`, and calls `b`
      itself; `b` asks for `x`. */
  function AskTwice(a: Address, b: Address, x: Address, w: Address): seq<Step> {
    [Call(In(a), [RequireAuth(1, x, 0, [], true, 0), RequireAuth(0, w, 0, [CallAsking(b, x)], true, 7),
                  CallAsking(b, x)], false)]
  }

  function CallAsking(b: Address, x: Address): Step {
    Call(In(b), [RequireAuth(1, x, 0, [], true, 0)], false)
  }

  /** The tree of `x` that is recorded: what `a` asks for, and below it what `b` asks for. */
  function Tree(a: Address, b: Address, used: bool, usedBelow: bool): Invocation {
    Invocation(Fn(a), [Invocation(Fn(b), [], usedBelow)], used)
  }

  function Matched(depth: nat): seq<MatchState> {
    [RootMatch] + Blank(depth)
  }

  function Submitter(x: Address, t: Tracker): AccountTracker {
    AccountTracker(x, t, true, true, None, false)
  }

  /** While the root of the tree is matched further down, the node for `b` answers once. */
  lemma NodeAnswersOnce(a: Address, b: Address, depth: nat, usedBelow: bool)
    requires depth >= 1
    ensures var t := Tracker(Tree(a, b, true, usedBelow), Matched(depth), Some(0), false);
            && !CurrentMatched(t) && IsActive(t)
            && Extend(t, Fn(b), false)
               == if usedBelow then NoMatch
                  else Extended(Tracker(Tree(a, b, true, true), SetTop(Matched(depth), SubMatch(0)), Some(0), false))
  {
    var root := Tree(a, b, true, usedBelow);
    var s := Matched(depth);
    assert s[1..] == Blank(depth);
    SubPathBlank(s);
    WalkFinds(root, s, 0);
    assert WalkStack(root, s) == Found([]);
    assert FirstUnused(root.subs, Fn(b), 0) == if usedBelow then 1 else 0;
  }

  lemma {:induction false} SubPathBlank(s: seq<MatchState>)
    requires forall i :: 0 <= i < |s| ==> !s[i].SubMatch?
    ensures SubPath(s) == []
    decreases |s|
  {
    if s != [] {
      SubPathBlank(s[..|s| - 1]);
    }
  }

  /** `b` asks for `x` in enforcing mode. */
  lemma AskedBelow(m: Manager, a: Address, b: Address, x: Address, depth: nat, usedBelow: bool)
    requires depth >= 1 && m.mode.Enforcing? && |m.callStack| >= 2 && m.callStack[|m.callStack| - 1] == In(b)
    requires !DirectInvoker(m, x) && m.invokers == [] && |m.accounts| == 2 && m.accounts[1].address != x
    requires m.accounts[0] == Submitter(x, Tracker(Tree(a, b, true, usedBelow), Matched(depth), Some(0), false))
    ensures var t := Tracker(Tree(a, b, true, true), SetTop(Matched(depth), SubMatch(0)), Some(0), false);
            RunStep(m, RequireAuth(1, x, 0, [], true, 0))
            == if usedBelow then Ran(m, false) else Ran(m.(accounts := m.accounts[0 := Submitter(x, t)]), true)
  {
    NodeAnswersOnce(a, b, depth, usedBelow);
    hide Extend, Tree, IsActive, CurrentMatched, Matched;
    var s := RequireAuth(1, x, 0, [], true, 0);
    assert HasActive(m.accounts, x);
    assert CheckInvokers(m, x, Fn(b)) == NotFound;
    assert FirstAccount(m.accounts, x, Fn(b), false, 0) == if usedBelow then 2 else 0;
    hide HasActive, CheckInvokers, FirstAccount;
    assert RequireEnforcing(m, s, Fn(b))
           == if usedBelow then Ran(m, false)
              else Ran(m.(accounts := m.accounts[0 := m.accounts[0].(
                         tracker := Extend(m.accounts[0].tracker, Fn(b), false).t)]), true);
  }

  function Signer(w: Address, t: Tracker, verified: bool, borrowed: bool, expiration: nat): AccountTracker {
    AccountTracker(w, t, false, verified, Some(SignedNonce(7, expiration)), borrowed)
  }

  function Unasked(a: Address, b: Address, x: Address): AccountTracker {
    Submitter(x, Tracker(Tree(a, b, false, false), [Unmatched], None, false)).(verified := false)
  }

  /** `a` asks for `x` in enforcing mode: the root of its tree answers. */
  lemma SubmitterAsked(n: Manager, a: Address, b: Address, x: Address, other: AccountTracker)
    requires n.mode.Enforcing? && n.callStack == [In(a)] && other.address != x
    requires n.accounts == [Unasked(a, b, x), other]
    ensures var t := Tracker(Tree(a, b, true, false), Matched(0), Some(0), false);
            RunStep(n, RequireAuth(1, x, 0, [], true, 0)) == Ran(n.(accounts := [Submitter(x, t), other]), true)
  {
    var s := RequireAuth(1, x, 0, [], true, 0);
    var t := n.accounts[0].tracker;
    WalkBlank(t.root, t.stack);
    assert Extend(t, Fn(a), true) == Extended(Tracker(Tree(a, b, true, false), Matched(0), Some(0), false));
    assert !HasActive(n.accounts, x);
    assert CheckInvokers(n, x, Fn(a)) == NotFound;
    assert FirstAccount(n.accounts, x, Fn(a), true, 0) == 0;
    hide Extend, HasActive, CheckInvokers, FirstAccount;
    var m1 := n.(accounts := n.accounts[0 := n.accounts[0].(
                   tracker := Tracker(Tree(a, b, true, false), Matched(0), Some(0), false), borrowed := true)]);
    assert RequireEnforcing(n, s, Fn(a)) == Authenticate(m1, 0, s);
    assert Authenticate(m1, 0, s) == Finish(m1, 0, true);
  }

  /** The code of `w` calls `b` and spends the node. */
  lemma CheckSpends(m: Manager, a: Address, b: Address, x: Address, w: Address, t: Tracker, expiration: nat)
    requires m.mode.Enforcing? && m.callStack == [In(a)] && m.invokers == [] && x != w
    requires m.accounts == [Submitter(x, Tracker(Tree(a, b, true, false), Matched(0), Some(0), false)),
                            Signer(w, t, false, true, expiration)]
    ensures RunCall(m, CheckFrame(w), [CallAsking(b, x)], false)
            == Ran(m.(accounts := [Submitter(x, Tracker(Tree(a, b, true, true), Matched(0), Some(0), false)),
                                   m.accounts[1]]), true)
  {
    var p1 := PushFrame(m, CheckFrame(w));
    var p2 := PushFrame(p1, In(b));
    assert Matched(0) + [Unmatched] == Matched(1) && Matched(1) + [Unmatched] == Matched(2);
    assert p2.accounts == [Submitter(x, Tracker(Tree(a, b, true, false), Matched(2), Some(0), false)), m.accounts[1]];
    AskedBelow(p2, a, b, x, 2, false);
    var spent := SetTop(Matched(2), SubMatch(0));
    var p3 := p2.(accounts := p2.accounts[
      0 := Submitter(x, Tracker(Tree(a, b, true, true), spent, Some(0), false))]);
    OneCall(p1, In(b), RequireAuth(1, x, 0, [], true, 0), Ran(p3, true));
    RunOne(p1, CallAsking(b, x));
    hide RunStep, Run;
    assert spent[..2][..1] == Matched(0);
    PopBoth(p3, x, Tree(a, b, true, true), spent);
    assert PopTop(PopTop(p3)).callStack == m.callStack;
  }

  lemma PopBoth(m: Manager, x: Address, root: Invocation, s: seq<MatchState>)
    requires |m.callStack| == 3 && m.invokers == [] && |m.accounts| == 2 && m.accounts[1].borrowed && |s| == 3
    requires m.accounts[0] == Submitter(x, Tracker(root, s, Some(0), false))
    ensures var r := PopTop(PopTop(m));
            && r == m.(callStack := m.callStack[..2][..1],
                       accounts := [Submitter(x, Tracker(root, s[..2][..1], Some(0), false)), m.accounts[1]])
  {
    var r := PopTop(PopTop(m));
    assert r.accounts == [Submitter(x, Tracker(root, s[..2][..1], Some(0), false)), m.accounts[1]];
  }

  /** Authenticating `w` ends well, with the node spent. */
  lemma SignerAsked(n: Manager, a: Address, b: Address, x: Address, w: Address, expiration: nat)
    requires n.mode.Enforcing? && n.callStack == [In(a)] && n.invokers == [] && x != w && w.Contract?
    requires n.accounts == [Submitter(x, Tracker(Tree(a, b, true, false), Matched(0), Some(0), false)),
                            Signer(w, Tracker(Invocation(Fn(a), [], false), [Unmatched], None, false), false, false,
                                   expiration)]
    requires CheckNonce(n.ledger, n.accounts[1]).NonceOk?
    ensures var r := RunStep(n, RequireAuth(0, w, 0, [CallAsking(b, x)], true, 7));
            && r.Ran? && r.granted && r.m.mode.Enforcing? && r.m.callStack == n.callStack && r.m.invokers == []
            && |r.m.accounts| == 2 && r.m.accounts[1].address == w
            && r.m.accounts[0] == Submitter(x, Tracker(Tree(a, b, true, true), Matched(0), Some(0), false))
  {
    var s := RequireAuth(0, w, 0, [CallAsking(b, x)], true, 7);
    var t := n.accounts[1].tracker;
    WalkBlank(t.root, t.stack);
    var u := Tracker(Invocation(Fn(a), [], true), [RootMatch], Some(0), false);
    assert Extend(t, Fn(a), true) == Extended(u);
    assert !HasActive(n.accounts, w);
    assert CheckInvokers(n, w, Fn(a)) == NotFound;
    assert FirstAccount(n.accounts, w, Fn(a), true, 0) == 1;
    hide Extend, HasActive, CheckInvokers, FirstAccount, RunCall;
    var m1 := n.(accounts := n.accounts[1 := n.accounts[1].(tracker := u, borrowed := true)]);
    assert RequireEnforcing(n, s, Fn(a)) == Authenticate(m1, 1, s);
    CheckSpends(m1, a, b, x, w, u, expiration);
  }

  /** The node is gone when `a` calls `b` itself. */
  lemma SecondCallDenied(m: Manager, a: Address, b: Address, x: Address)
    requires m.mode.Enforcing? && m.callStack == [In(a)] && m.invokers == [] && x != a
    requires |m.accounts| == 2 && m.accounts[1].address != x
    requires m.accounts[0] == Submitter(x, Tracker(Tree(a, b, true, true), Matched(0), Some(0), false))
    ensures RunStep(m, CallAsking(b, x)).Ran? && !RunStep(m, CallAsking(b, x)).granted
  {
    var m1 := PushFrame(m, In(b));
    assert Matched(0) + [Unmatched] == Matched(1);
    AskedBelow(m1, a, b, x, 1, true);
    OneCall(m, In(b), RequireAuth(1, x, 0, [], true, 0), Ran(m1, false));
  }

  function SourceRecorder(l: Ledger, x: Address): Manager {
    Manager(Recording(map[], false, Some(x)), [], [], [], l)
  }

  /** What recording the run leaves: the tree of `x` with one node for `b`, and the root for `w`. */
  function Recorded(a: Address, b: Address, x: Address, w: Address): seq<AccountTracker> {
    [Submitter(x, NewTracker(Tree(a, b, true, true))),
     Signer(w, NewTracker(Invocation(Fn(a), [], true)), true, false, 0)]
  }

  lemma RecordsSubmitter(m: Manager, a: Address, x: Address)
    requires m.callStack == [In(a)] && m.invokers == [] && m.accounts == []
    requires m.mode == Recording(map[], false, Some(x))
    ensures RunStep(m, RequireAuth(1, x, 0, [], true, 0))
         == Ran(m.(mode := Recording(map[1 := 0], false, Some(x)),
                   accounts := [Submitter(x, NewRecording(Fn(a), 1))]), true)
  {
    var s := RequireAuth(1, x, 0, [], true, 0);
    assert CheckInvokers(m, x, Fn(a)) == NotFound;
    assert m.mode.handles - {1} == map[];
    assert RequireRecording(m, s, Fn(a)) == CreateRecording(m, s, Fn(a));
    hide LastLedger, Consume;
  }

  lemma RecordsSigner(m: Manager, a: Address, b: Address, x: Address, w: Address)
    requires m.callStack == [In(a)] && m.invokers == [] && m.accounts == [Submitter(x, NewRecording(Fn(a), 1))]
    requires m.mode == Recording(map[1 := 0], false, Some(x)) && x != w
    requires CanDraw(m.ledger, w)
    ensures var r := RunStep(m, RequireAuth(0, w, 0, [CallAsking(b, x)], true, 7));
            && r.Ran? && r.granted && r.m.callStack == m.callStack && r.m.invokers == []
            && r.m.mode == Recording(map[0 := 1, 1 := 0], false, Some(x))
            && r.m.accounts == m.accounts + [Signer(w, NewRecording(Fn(a), 1), true, false, 0)]
  {
    var s := RequireAuth(0, w, 0, [CallAsking(b, x)], true, 7);
    assert CheckInvokers(m, w, Fn(a)) == NotFound;
    assert m.mode.handles - {0} == m.mode.handles;
    assert FirstRecording(m.accounts, w, 0) == 1;
    hide AnyMatched, CurrentMatched, FirstRecording;
    assert RequireRecording(m, s, Fn(a)) == CreateRecording(m, s, Fn(a));
  }

  lemma RecordsNode(a: Address, b: Address)
    ensures var t := Push(NewRecording(Fn(a), 1));
            AnyMatched(t) && Record(t, Fn(b)).Extended? && Record(t, Fn(b)).t.root == Tree(a, b, true, true)
  {
    var t := Push(NewRecording(Fn(a), 1));
    assert Blank(0) == [];
    assert t.stack == [RootMatch, Unmatched] == Matched(1);
    SubPathBlank(t.stack);
    WalkFinds(t.root, t.stack, 0);
    assert AnyMatched(t) by { assert t.stack[0] == RootMatch; }
    assert [] + [Invocation(Fn(b), [], true)] == [Invocation(Fn(b), [], true)];
  }

  lemma RecordsBelow(m: Manager, a: Address, b: Address, x: Address, w: Address)
    requires m.callStack == [In(a)] && m.invokers == [] && x != a
    requires m.mode == Recording(map[0 := 1, 1 := 0], false, Some(x))
    requires m.accounts == [Submitter(x, NewRecording(Fn(a), 1)), Signer(w, NewRecording(Fn(a), 1), true, false, 0)]
    ensures var r := RunStep(m, CallAsking(b, x));
            r.Ran? && r.granted && SameRecord(r.m.accounts, Recorded(a, b, x, w))
  {
    var m1 := PushFrame(m, In(b));
    var t := m1.accounts[0].tracker;
    RecordsNode(a, b);
    hide NewRecording, Push;
    var s := RequireAuth(1, x, 0, [], true, 0);
    assert CheckInvokers(m1, x, Fn(b)) == NotFound;
    hide Record, AnyMatched;
    assert RequireRecording(m1, s, Fn(b)) == RecordAt(m1, 0, Fn(b));
    var m2 := m1.(accounts := m1.accounts[0 := m1.accounts[0].(tracker := Record(t, Fn(b)).t)]);
    assert RunStep(m1, s) == Ran(m2, true);
    OneCall(m, In(b), s, Ran(m2, true));
    hide RunStep, DropOutOfScope;
  }

  lemma AskTwiceIsRecorded(l: Ledger, a: Address, b: Address, x: Address, w: Address)
    requires x != w && x != a && CanDraw(l, w)
    ensures var r := Run(SourceRecorder(l, x), AskTwice(a, b, x, w));
            r.Ran? && r.granted && SameRecord(r.m.accounts, Recorded(a, b, x, w))
  {
    var m := SourceRecorder(l, x);
    var call := AskTwice(a, b, x, w)[0];
    var m1 := PushFrame(m, In(a));
    assert m1.accounts == [] && m1.invokers == [] && m1.callStack == [In(a)];
    RecordsSubmitter(m1, a, x);
    hide Require, PushFrame, SameRecord, NewRecording, DropOutOfScope;
    var m2 := RunStep(m1, call.body[0]).m;
    RecordsSigner(m2, a, b, x, w);
    var m3 := RunStep(m2, call.body[1]).m;
    RecordsBelow(m3, a, b, x, w);
    hide RunStep;
    ThreeSteps(m1, call.body, m2, m3, RunStep(m3, call.body[2]));
    hide Run;
    CallRecorded(m, In(a), call.body, Recorded(a, b, x, w));
    RunOne(m, call);
  }

  lemma BothLoaded(full: seq<AccountTracker>, expiration: nat, l: Ledger, a: Address, b: Address, x: Address,
                   w: Address)
    requires SameRecord(full, Recorded(a, b, x, w)) && Usable(full, expiration, l)
    ensures var n1 := PushFrame(Load(full, expiration, l), In(a));
            && n1.mode.Enforcing? && n1.callStack == [In(a)] && n1.invokers == [] && n1.ledger == l
            && n1.accounts == [Unasked(a, b, x),
                               Signer(w, Tracker(Invocation(Fn(a), [], false), [Unmatched], None, false), false, false,
                                      expiration)]
            && CheckNonce(l, n1.accounts[1]).NonceOk?
  {
    var below := Invocation(Fn(b), [], true);
    assert Fresh(below) == below.(exhausted := false);
    assert Fresh(Tree(a, b, true, true)) == Tree(a, b, false, false);
    assert Fresh(Invocation(Fn(a), [], true)) == Invocation(Fn(a), [], false);
    assert KeyOf(full[1]) == NonceKey(w, 7);
    assert [] + [Unmatched] == [Unmatched];
  }

  lemma AskTwiceIsDenied(full: seq<AccountTracker>, l: Ledger, a: Address, b: Address, x: Address, w: Address,
                         expiration: nat)
    requires SameRecord(full, Recorded(a, b, x, w)) && Usable(full, expiration, l) && w.Contract? && x != w && x != a
    ensures var r := Run(Load(full, expiration, l), AskTwice(a, b, x, w)); r.Ran? && !r.granted
  {
    var call := AskTwice(a, b, x, w)[0];
    BothLoaded(full, expiration, l, a, b, x, w);
    var n := Load(full, expiration, l);
    hide SameRecord, Usable, Load;
    var n1 := PushFrame(n, In(a));
    SubmitterAsked(n1, a, b, x, n1.accounts[1]);
    hide Require, CheckNonce, PushFrame;
    var n2 := RunStep(n1, call.body[0]).m;
    SignerAsked(n2, a, b, x, w, expiration);
    var n3 := RunStep(n2, call.body[1]).m;
    SecondCallDenied(n3, a, b, x);
    hide RunStep;
    ThreeSteps(n1, call.body, n2, n3, RunStep(n3, CallAsking(b, x)));
    hide Run;
    CallDenied(n, In(a), call.body);
    RunOne(n, call);
  }

  /**
    * Recorded and granted, then denied, with no invoker tracker involved: the code of `w` asks for `x` on its own way
    * to `b`, which recording never saw, and is served by the node that was recorded for the call `a` makes afterwards.
    */
  lemma CheckSpendsNode(l: Ledger, a: Address, b: Address, x: Address, w: Address, expiration: nat)
    requires w.Contract? && x != w && x != a && CanDraw(l, w)
    requires l.seqNum <= expiration <= LastLedger(l.seqNum, l.maxTtl).value
    ensures var ss := AskTwice(a, b, x, w);
            && Run(SourceRecorder(l, x), ss).Ran? && Run(SourceRecorder(l, x), ss).granted
            && var full := Run(SourceRecorder(l, x), ss).m.accounts;
            && Usable(full, expiration, l)
            && Run(Load(full, expiration, l), ss).Ran? && !Run(Load(full, expiration, l), ss).granted
  {
    AskTwiceIsRecorded(l, a, b, x, w);
    var full := Run(SourceRecorder(l, x), AskTwice(a, b, x, w)).m.accounts;
    hide Run;
    assert KeyOf(full[1]) == NonceKey(w, 7);
    AskTwiceIsDenied(full, l, a, b, x, w, expiration);
  }
}
