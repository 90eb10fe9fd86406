/** Single use: what the granted requests consume of the authorized trees. */
module AuthorizationUse {
  import opened Basics
  import opened InvocationTree
  import opened InvocationExport
  import opened InvocationTracking
  import opened Nonces
  import opened Authorization
  import opened AuthorizationInvariants

  lemma {:induction false} UsedAllUpdate(ts: seq<Invocation>, i: nat, u: Invocation, depth: nat)
    requires i < |ts|
    ensures |UsedAll(ts[i := u], depth)| == |UsedAll(ts, depth)| - |Used(ts[i], depth)| + |Used(u, depth)|
    decreases |ts|
  {
    if i == 0 {
      assert ts[i := u][1..] == ts[1..];
    } else {
      assert ts[i := u][1..] == ts[1..][i - 1 := u];
      UsedAllUpdate(ts[1..], i - 1, u, depth);
    }
  }

  lemma {:induction false} ExhaustAddsOne(t: Invocation, p: seq<nat>, depth: nat)
    requires ValidPath(t, p) && !At(t, p).exhausted
    ensures |Used(Exhaust(t, p), depth)| == |Used(t, depth)| + 1
    decreases |p|
  {
    if p != [] {
      ExhaustAddsOne(t.subs[p[0]], p[1..], depth + 1);
      UsedAllUpdate(t.subs, p[0], Exhaust(t.subs[p[0]], p[1..]), depth + 1);
    }
  }

  /** The used nodes of all account trackers together. */
  function TotalUsed(accounts: seq<AccountTracker>): nat {
    if accounts == [] then 0 else |Used(accounts[0].tracker.root, 0)| + TotalUsed(accounts[1..])
  }

  lemma {:induction false} TotalUpdate(accounts: seq<AccountTracker>, i: nat, a: AccountTracker)
    requires i < |accounts|
    ensures TotalUsed(accounts[i := a])
         == TotalUsed(accounts) - |Used(accounts[i].tracker.root, 0)| + |Used(a.tracker.root, 0)|
    decreases |accounts|
  {
    if i == 0 {
      assert accounts[i := a][1..] == accounts[1..];
    } else {
      assert accounts[i := a][1..] == accounts[1..][i - 1 := a];
      TotalUpdate(accounts[1..], i - 1, a);
    }
  }

  lemma {:induction false} TotalSame(a: seq<AccountTracker>, b: seq<AccountTracker>)
    requires |a| == |b| && forall i :: 0 <= i < |a| ==> a[i].tracker.root == b[i].tracker.root
    ensures TotalUsed(a) == TotalUsed(b)
    decreases |a|
  {
    if a != [] {
      TotalSame(a[1..], b[1..]);
    }
  }

  // ---------- requests answered by account trackers ----------

  /** How many requests the account trackers answer in frames that are not rolled back. */
  function Answered(m: Manager, ss: seq<Step>): nat
    decreases ss, 0
  {
    if ss == [] then 0
    else AnsweredStep(m, ss[0])
         + if RunStep(m, ss[0]).Ran? then Answered(RunStep(m, ss[0]).m, ss[1..]) else 0
  }

  function AnsweredStep(m: Manager, s: Step): nat
    decreases s, 1
  {
    match s
    case AuthorizeAsCurrent(_) => 0
    case Call(frame, body, fails) => AnsweredCall(m, frame, body, fails)
    case RequireAuth(_, _, _, _, _, _) => AnsweredRequest(m, s)
  }

  function AnsweredCall(m: Manager, frame: Frame, body: seq<Step>, fails: bool): nat
    decreases body, 1
  {
    if fails then 0 else Answered(PushFrame(m, frame), body)
  }

  function AnsweredRequest(m: Manager, s: Step): nat
    requires s.RequireAuth?
    decreases s, 0
  {
    if m.callStack == [] then 0
    else
      var fn := ToFunction(m.callStack[|m.callStack| - 1], s.args);
      var allowRoot := !HasActive(m.accounts, s.address);
      var i := FirstAccount(m.accounts, s.address, fn, allowRoot, 0);
      if !CheckInvokers(m, s.address, fn).NotFound? || i == |m.accounts| then 0
      else if !Extend(m.accounts[i].tracker, fn, allowRoot).Extended? then 0
      else
        var a := m.accounts[i].(tracker := Extend(m.accounts[i].tracker, fn, allowRoot).t);
        1 + if !a.verified && RunsCheck(a)
            then AnsweredCall(m.(accounts := m.accounts[i := a.(borrowed := true)]), CheckFrame(a.address), s.check,
                              !s.authentic)
            else 0
  }

  /** A request granted by an account tracker uses exactly one node of one tree of that address, a node
      for the function asked for that was unused before; and the tracker is verified after it. */
  lemma GrantUsesOneNode(m: Manager, s: Step) returns (i: nat, p: seq<nat>)
    requires s.RequireAuth? && Inv(m) && m.mode.Enforcing? && m.callStack != []
    requires CheckInvokers(m, s.address, ToFunction(m.callStack[|m.callStack| - 1], s.args)).NotFound?
    requires Require(m, s).Ran? && Require(m, s).granted
    ensures i < |m.accounts| && m.accounts[i].address == s.address && !m.accounts[i].borrowed
    ensures var r := Require(m, s).m;
            && |r.accounts| == |m.accounts| && r.accounts[i].verified
            && UsesOne(m.accounts[i].tracker.root, r.accounts[i].tracker.root, p,
                       ToFunction(m.callStack[|m.callStack| - 1], s.args))
            && (s.check == [] ==> forall j :: 0 <= j < |m.accounts| && j != i ==> r.accounts[j] == m.accounts[j])
  {
    hide RunStep, Inv, Extend, CheckInvokers;
    var fn := ToFunction(m.callStack[|m.callStack| - 1], s.args);
    var allowRoot := !HasActive(m.accounts, s.address);
    i := FirstAccount(m.accounts, s.address, fn, allowRoot, 0);
    var a, m1;
    a, m1, p := MatchedAccount(m, i, fn, allowRoot);
    if !a.verified {
      assert Require(m, s) == Authenticate(m1, i, s);
      if RunsCheck(a) {
        var f := CheckFrame(a.address);
        CallKeeps(m1, f, s.check, !s.authentic);
        var m2 := RunCall(m1, f, s.check, !s.authentic).m;
        assert AccountInFrame(m1.accounts[i], m2.accounts[i]);
        FinishKeeps(m2, i, s.authentic);
        if s.check == [] {
          assert Run(PushFrame(m1, f), []) == Ran(PushFrame(m1, f), true);
          PopAfterPush(m1, f);
        }
      } else {
        FinishKeeps(m1, i, a.isSource || s.authentic);
      }
    }
  }

  lemma FinishUsesNothing(m: Manager, m1: Manager, i: nat, m2: Manager, authentic: bool)
    requires Authenticating(m, m1, i) && Inv(m2) && InFrame(m1, m2)
    ensures i < |m2.accounts| && Finish(m2, i, authentic).Ran?
    ensures TotalUsed(Finish(m2, i, authentic).m.accounts) == TotalUsed(m2.accounts)
  {
    assert AccountInFrame(m1.accounts[i], m2.accounts[i]);
    FinishKeeps(m2, i, authentic);
    TotalSame(m2.accounts, Finish(m2, i, authentic).m.accounts);
  }

  lemma MatchUsesOne(m: Manager, i: nat, fn: Function, allowRoot: bool, borrowed: bool)
    requires Inv(m) && i < |m.accounts| && Extend(m.accounts[i].tracker, fn, allowRoot).Extended?
    ensures var a := m.accounts[i].(tracker := Extend(m.accounts[i].tracker, fn, allowRoot).t, borrowed := borrowed);
            TotalUsed(m.accounts[i := a]) == TotalUsed(m.accounts) + 1
  {
    var p := ExtendUsesOne(m.accounts[i].tracker, fn, allowRoot);
    ExhaustAddsOne(m.accounts[i].tracker.root, p, 0);
    TotalUpdate(m.accounts, i,
                m.accounts[i].(tracker := Extend(m.accounts[i].tracker, fn, allowRoot).t, borrowed := borrowed));
  }

  lemma RequestUsesAnswered(m: Manager, s: Step)
    requires s.RequireAuth? && Inv(m) && m.mode.Enforcing? && Require(m, s).Ran?
    ensures TotalUsed(Require(m, s).m.accounts) == TotalUsed(m.accounts) + AnsweredRequest(m, s)
    decreases s, 0
  {
    hide Authenticate, Answered, Inv, InFrame, TotalUsed;
    var fn := ToFunction(m.callStack[|m.callStack| - 1], s.args);
    var allowRoot := !HasActive(m.accounts, s.address);
    var i := FirstAccount(m.accounts, s.address, fn, allowRoot, 0);
    if CheckInvokers(m, s.address, fn).NotFound? && i < |m.accounts| {
      var a, m1, p := MatchedAccount(m, i, fn, allowRoot);
      MatchUsesOne(m, i, fn, allowRoot, a.borrowed);
      MatchUsesOne(m, i, fn, allowRoot, true);
      if !a.verified {
        AuthenticationUsesAnswered(m, m1, i, s);
      }
    }
  }

  lemma AuthenticationUsesAnswered(m: Manager, m1: Manager, i: nat, s: Step)
    requires s.RequireAuth? && Authenticating(m, m1, i) && Authenticate(m1, i, s).Ran?
    ensures TotalUsed(Authenticate(m1, i, s).m.accounts)
         == TotalUsed(m1.accounts)
            + if RunsCheck(m1.accounts[i])
              then AnsweredCall(m1, CheckFrame(m1.accounts[i].address), s.check, !s.authentic) else 0
    decreases s.check, 2
  {
    if RunsCheck(m1.accounts[i]) {
      var f := CheckFrame(m1.accounts[i].address);
      CallKeeps(m1, f, s.check, !s.authentic);
      CallUsesAnswered(m1, f, s.check, !s.authentic);
      FinishUsesNothing(m, m1, i, RunCall(m1, f, s.check, !s.authentic).m, s.authentic);
    } else {
      InFrameRefl(m1);
      FinishUsesNothing(m, m1, i, m1, m1.accounts[i].isSource || s.authentic);
    }
  }

  lemma StepUsesAnswered(m: Manager, s: Step)
    requires Inv(m) && m.mode.Enforcing? && RunStep(m, s).Ran?
    ensures TotalUsed(RunStep(m, s).m.accounts) == TotalUsed(m.accounts) + AnsweredStep(m, s)
    decreases s, 1
  {
    match s
    case AuthorizeAsCurrent(_) =>
    case RequireAuth(_, _, _, _, _, _) => RequestUsesAnswered(m, s);
    case Call(f, body, fails) => CallUsesAnswered(m, f, body, fails);
  }

  lemma CallUsesAnswered(m: Manager, f: Frame, body: seq<Step>, fails: bool)
    requires Inv(m) && m.mode.Enforcing? && RunCall(m, f, body, fails).Ran?
    ensures TotalUsed(RunCall(m, f, body, fails).m.accounts)
         == TotalUsed(m.accounts) + AnsweredCall(m, f, body, fails)
    decreases body, 1
  {
    var m1 := PushFrame(m, f);
    PushKeeps(m, f);
    RunKeeps(m1, body);
    var m2 := Run(m1, body).m;
    if fails {
      FailureUndoes(m, f, m2);
      PopAfterPush(m, f);
    } else {
      TotalSame(m.accounts, m1.accounts);
      AnsweredEqualsUsed(m1, body);
      TotalSame(m2.accounts, PopTop(m2).accounts);
    }
  }

  /** No node serves twice and none is lost: over every run the account trackers use exactly as many
      nodes as they answered requests, counting authentications and not counting failed calls. */
  lemma AnsweredEqualsUsed(m: Manager, ss: seq<Step>)
    requires Inv(m) && m.mode.Enforcing? && Run(m, ss).Ran?
    ensures TotalUsed(Run(m, ss).m.accounts) == TotalUsed(m.accounts) + Answered(m, ss)
    decreases ss, 0
  {
    if ss != [] {
      StepUsesAnswered(m, ss[0]);
      StepKeeps(m, ss[0]);
      AnsweredEqualsUsed(RunStep(m, ss[0]).m, ss[1..]);
    }
  }
}
