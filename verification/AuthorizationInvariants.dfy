/** What every run of the authorization manager keeps, and what a failed frame undoes. */
module AuthorizationInvariants {
  import opened Basics
  import opened InvocationTree
  import opened InvocationTracking
  import opened Nonces
  import opened Authorization

  // ---------- the invariant ----------

  ghost predicate AccountFits(a: AccountTracker, depth: nat) {
    && Consistent(a.tracker)
    && (if a.borrowed then !a.verified && 0 < |a.tracker.stack| <= depth else |a.tracker.stack| == depth)
    && (a.nonce.None? <==> a.isSource)
  }

  /** The match stack of an invoker tracker covers the frames pushed since its creation. */
  ghost predicate InvokerFits(t: InvokerTracker, depth: nat) {
    Consistent(t.tracker) && 0 < t.born <= depth && |t.tracker.stack| == depth - t.born
  }

  ghost predicate InvokersFit(ts: seq<InvokerTracker>, depth: nat) {
    && (forall i :: 0 <= i < |ts| ==> InvokerFits(ts[i], depth))
    && (forall i, j :: 0 <= i < j < |ts| ==> ts[i].born <= ts[j].born)
  }

  function KeyOf(a: AccountTracker): NonceKey {
    NonceKey(a.address, if a.nonce.Some? then a.nonce.value.value else 0)
  }

  /** A verified signed tracker holds its nonce, and no other verified tracker holds the same one. */
  ghost predicate NoncesHeld(accounts: seq<AccountTracker>, l: Ledger) {
    && (forall i :: 0 <= i < |accounts| && accounts[i].verified && !accounts[i].isSource ==>
          KeyOf(accounts[i]) in l.live)
    && (forall i, j :: 0 <= i < j < |accounts| && accounts[i].verified && accounts[j].verified
                       && !accounts[i].isSource && !accounts[j].isSource ==>
          KeyOf(accounts[i]) != KeyOf(accounts[j]))
  }

  ghost predicate ModeFits(m: Manager) {
    m.mode.Recording? ==>
      && (forall i :: 0 <= i < |m.accounts| ==> !m.accounts[i].borrowed)
      && (forall h :: h in m.mode.handles ==> m.mode.handles[h] < |m.accounts|)
  }

  ghost predicate Inv(m: Manager) {
    && (forall i :: 0 <= i < |m.accounts| ==> AccountFits(m.accounts[i], |m.callStack|))
    && InvokersFit(m.invokers, |m.callStack|)
    && NoncesHeld(m.accounts, m.ledger)
    && ModeFits(m)
  }

  // ---------- what a frame can do to the manager ----------

  ghost predicate AccountInFrame(a: AccountTracker, b: AccountTracker) {
    && a.address == b.address && a.isSource == b.isSource && a.nonce == b.nonce && a.borrowed == b.borrowed
    && (if a.borrowed then a == b else Evolved(a.tracker, b.tracker))
  }

  ghost predicate InvokersInFrame(a: seq<InvokerTracker>, b: seq<InvokerTracker>, depth: nat) {
    && (forall i :: 0 <= i < |a| && a[i].born < depth ==>
          i < |b| && b[i].born == a[i].born && b[i].address == a[i].address && Evolved(a[i].tracker, b[i].tracker))
    && (forall i :: 0 <= i < |b| && (i >= |a| || a[i].born == depth) ==> b[i].born == depth)
  }

  ghost predicate SameParameters(a: Ledger, b: Ledger) {
    a.seqNum == b.seqNum && a.minTempTtl == b.minTempTtl && a.maxTtl == b.maxTtl && a.live.Keys <= b.live.Keys
  }

  ghost predicate SameMode(a: Mode, b: Mode) {
    && (a.Enforcing? <==> b.Enforcing?)
    && (a.Recording? ==> a.disableNonRoot == b.disableNonRoot && a.source == b.source)
  }

  /** `b` can follow `a` in the frame on top of their common call stack. */
  ghost predicate InFrame(a: Manager, b: Manager) {
    && a.callStack == b.callStack && SameMode(a.mode, b.mode) && SameParameters(a.ledger, b.ledger)
    && InvokersInFrame(a.invokers, b.invokers, |a.callStack|)
    && (a.mode.Enforcing? ==>
          |a.accounts| == |b.accounts|
          && forall i :: 0 <= i < |a.accounts| ==> AccountInFrame(a.accounts[i], b.accounts[i]))
  }

  lemma InFrameRefl(a: Manager)
    requires Inv(a)
    ensures InFrame(a, a)
  {}

  lemma InFrameTrans(a: Manager, b: Manager, c: Manager)
    requires InFrame(a, b) && InFrame(b, c)
    ensures InFrame(a, c)
  {
    var d := |a.callStack|;
    forall i | 0 <= i < |c.invokers| && (i >= |a.invokers| || a.invokers[i].born == d)
      ensures c.invokers[i].born == d
    {
      if i < |b.invokers| {
        assert b.invokers[i].born == d;
      }
    }
  }

  // ---------- pushing and popping ----------

  lemma PushKeeps(m: Manager, f: Frame)
    requires Inv(m)
    ensures Inv(PushFrame(m, f))
  {
    var r := PushFrame(m, f);
    forall i | 0 <= i < |m.accounts|
      ensures AccountFits(r.accounts[i], |r.callStack|)
      ensures r.accounts[i].verified == m.accounts[i].verified && KeyOf(r.accounts[i]) == KeyOf(m.accounts[i])
    {
      PushConsistent(m.accounts[i].tracker);
    }
    forall i | 0 <= i < |m.invokers|
      ensures InvokerFits(r.invokers[i], |r.callStack|)
    {
      PushConsistent(m.invokers[i].tracker);
    }
  }

  /** The number of trackers created below `depth`; they come first. */
  function Below(ts: seq<InvokerTracker>, depth: nat): (k: nat)
    ensures k <= |ts|
    ensures forall i :: 0 <= i < k ==> ts[i].born < depth
    ensures k < |ts| ==> ts[k].born >= depth
  {
    if ts == [] || ts[0].born >= depth then 0 else 1 + Below(ts[1..], depth)
  }

  lemma {:induction false} DropExact(ts: seq<InvokerTracker>, k: nat)
    requires k <= |ts|
    requires k > 0 ==> ts[k - 1].tracker.stack != []
    requires forall i :: k <= i < |ts| ==> ts[i].tracker.stack == []
    ensures DropOutOfScope(ts) == ts[..k]
    decreases |ts|
  {
    if k < |ts| {
      DropExact(ts[..|ts| - 1], k);
      assert ts[..|ts| - 1][..k] == ts[..k];
    } else {
      assert ts[..k] == ts;
    }
  }

  lemma PopInvokerFits(t: InvokerTracker, depth: nat)
    requires depth > 0 && InvokerFits(t, depth)
    ensures PopInvoker(t).tracker.stack != [] <==> t.born < depth - 1
    ensures t.born <= depth - 1 ==> InvokerFits(PopInvoker(t), depth - 1)
  {
    PopConsistent(t.tracker);
  }

  /** Popping from the end up to the first tracker in scope drops every tracker that is out of scope:
      what is left are exactly the trackers created below the frame that remains. */
  lemma PopInvokers(ts: seq<InvokerTracker>, depth: nat)
    requires depth > 0 && InvokersFit(ts, depth)
    ensures var k := Below(ts, depth - 1);
            && DropOutOfScope(Map(PopInvoker, ts)) == Map(PopInvoker, ts)[..k]
            && (forall i :: 0 <= i < k ==> Map(PopInvoker, ts)[i].tracker.stack != [])
            && (forall i :: k <= i < |ts| ==> Map(PopInvoker, ts)[i].tracker.stack == [])
  {
    hide Consistent, Pop, DropOutOfScope;
    var popped := Map(PopInvoker, ts);
    var k := Below(ts, depth - 1);
    forall i | 0 <= i < |ts|
      ensures popped[i].tracker.stack != [] <==> i < k
    {
      PopInvokerFits(ts[i], depth);
      assert k <= i ==> ts[k].born <= ts[i].born;
    }
    DropExact(popped, k);
  }

  lemma PopAccountFits(a: AccountTracker, depth: nat)
    requires depth > 0 && AccountFits(a, depth) && (a.borrowed ==> |a.tracker.stack| < depth)
    ensures AccountFits(PopAccount(a), depth - 1)
  {
    PopConsistent(a.tracker);
  }

  lemma PopTopKeeps(m: Manager)
    requires Inv(m) && m.callStack != []
    requires forall i :: 0 <= i < |m.accounts| && m.accounts[i].borrowed ==>
               |m.accounts[i].tracker.stack| < |m.callStack|
    ensures Inv(PopTop(m))
    ensures forall i :: 0 <= i < |PopTop(m).invokers| ==> PopTop(m).invokers[i].born < |PopTop(m).callStack|
  {
    var r := PopTop(m);
    forall i | 0 <= i < |m.accounts|
      ensures AccountFits(r.accounts[i], |r.callStack|)
    {
      PopAccountFits(m.accounts[i], |m.callStack|);
    }
    PopInvokersKeeps(m.invokers, |m.callStack|);
    hide AccountFits, InvokersFit, DropOutOfScope, Pop;
    assert forall i :: 0 <= i < |m.accounts| ==> KeyOf(r.accounts[i]) == KeyOf(m.accounts[i]);
  }

  lemma PopInvokersKeeps(ts: seq<InvokerTracker>, depth: nat)
    requires depth > 0 && InvokersFit(ts, depth)
    ensures InvokersFit(DropOutOfScope(Map(PopInvoker, ts)), depth - 1)
    ensures forall i :: 0 <= i < |DropOutOfScope(Map(PopInvoker, ts))| ==>
              DropOutOfScope(Map(PopInvoker, ts))[i].born < depth - 1
  {
    PopInvokers(ts, depth);
    hide DropOutOfScope, Consistent, Pop;
    forall i | 0 <= i < Below(ts, depth - 1)
      ensures InvokerFits(Map(PopInvoker, ts)[i], depth - 1)
    {
      PopInvokerFits(ts[i], depth);
    }
  }

  // ---------- require_auth ----------

  /** Replacing one account tracker keeps the invariant; a newly verified one brings a nonce that was
      not live before. */
  lemma ReplaceAccount(m: Manager, i: nat, a: AccountTracker, l: Ledger)
    requires Inv(m) && i < |m.accounts|
    requires AccountFits(a, |m.callStack|) && KeyOf(a) == KeyOf(m.accounts[i]) && a.isSource == m.accounts[i].isSource
    requires m.ledger.live.Keys <= l.live.Keys
    requires a.verified && !m.accounts[i].verified && !a.isSource ==>
               KeyOf(a) in l.live && KeyOf(a) !in m.ledger.live
    requires m.mode.Recording? ==> !a.borrowed
    ensures Inv(m.(accounts := m.accounts[i := a], ledger := l))
  {
    var r := m.accounts[i := a];
    forall j, k | 0 <= j < k < |r| && r[j].verified && r[k].verified && !r[j].isSource && !r[k].isSource
      ensures KeyOf(r[j]) != KeyOf(r[k])
    {
      assert j != i ==> KeyOf(m.accounts[j]) in m.ledger.live;
      assert k != i ==> KeyOf(m.accounts[k]) in m.ledger.live;
    }
  }

  lemma ReplaceInvoker(m: Manager, i: nat, t: Tracker)
    requires Inv(m) && i < |m.invokers|
    requires Consistent(t) && Evolved(m.invokers[i].tracker, t)
    ensures var r := m.(invokers := m.invokers[i := m.invokers[i].(tracker := t)]);
            Inv(r) && InFrame(m, r)
  {
    var b := m.invokers[i := m.invokers[i].(tracker := t)];
    assert InvokersFit(b, |m.callStack|) by {
      assert forall j :: 0 <= j < |b| ==> b[j].born == m.invokers[j].born;
    }
  }

  /** Asking the invoker trackers keeps the invariant; it ends in an internal error exactly when the
      first tracker that answers was created by the very frame that asks. */
  lemma CheckInvokersKeeps(m: Manager, address: Address, fn: Function)
    requires Inv(m) && m.callStack != []
    ensures var i := FirstInvoker(m.invokers, address, fn, 0);
            CheckInvokers(m, address, fn).Broke? <==>
            |m.callStack| >= 2 && !DirectInvoker(m, address)
            && i < |m.invokers| && m.invokers[i].born == |m.callStack|
    ensures CheckInvokers(m, address, fn).Granted? ==>
              Inv(CheckInvokers(m, address, fn).m) && InFrame(m, CheckInvokers(m, address, fn).m)
  {
    var i := FirstInvoker(m.invokers, address, fn, 0);
    if i < |m.invokers| {
      var t := m.invokers[i].tracker;
      var p := ExtendUsesOne(t, fn, true);
      assert t.stack == [] <==> m.invokers[i].born == |m.callStack|;
      assert InvokerFits(m.invokers[i], |m.callStack|);
      if Extend(t, fn, true).Extended? {
        ReplaceInvoker(m, i, Extend(t, fn, true).t);
      }
    }
  }

  lemma CheckNonceConsumes(l: Ledger, a: AccountTracker)
    ensures CheckNonce(l, a).NonceMissing? <==> !a.isSource && a.nonce.None?
    ensures CheckNonce(l, a).NonceOk? ==>
              SameParameters(l, CheckNonce(l, a).ledger)
              && (!a.isSource ==> KeyOf(a) !in l.live && KeyOf(a) in CheckNonce(l, a).ledger.live)
  {}

  /** Ending the authentication of a borrowed tracker. */
  lemma FinishKeeps(m: Manager, i: nat, authentic: bool)
    requires Inv(m) && m.mode.Enforcing? && i < |m.accounts|
    requires !m.accounts[i].verified && |m.accounts[i].tracker.stack| == |m.callStack|
    ensures Finish(m, i, authentic).Ran?
    ensures Inv(Finish(m, i, authentic).m)
    ensures var r := Finish(m, i, authentic).m;
            && r.callStack == m.callStack && r.mode == m.mode && r.invokers == m.invokers
            && SameParameters(m.ledger, r.ledger) && |r.accounts| == |m.accounts|
            && (forall j :: 0 <= j < |m.accounts| && j != i ==> r.accounts[j] == m.accounts[j])
            && r.accounts[i] == m.accounts[i].(borrowed := false, verified := Finish(m, i, authentic).granted)
  {
    var a := m.accounts[i].(borrowed := false);
    CheckNonceConsumes(m.ledger, a);
    ReplaceAccount(m, i, a, m.ledger);
    if CheckNonce(m.ledger, a).NonceOk? {
      ReplaceAccount(m, i, a.(verified := true), CheckNonce(m.ledger, a).ledger);
    }
  }

  /** The state in which an authentication starts: the tracker is matched and borrowed. */
  ghost predicate Authenticating(m: Manager, m1: Manager, i: nat) {
    && Inv(m) && Inv(m1) && m.mode.Enforcing? && i < |m.accounts| == |m1.accounts| && !m.accounts[i].borrowed
    && m1 == m.(accounts := m.accounts[i := m1.accounts[i]])
    && m1.accounts[i].borrowed && !m1.accounts[i].verified
    && |m1.accounts[i].tracker.stack| == |m.callStack|
    && m1.accounts[i].address == m.accounts[i].address
    && m1.accounts[i].isSource == m.accounts[i].isSource
    && m1.accounts[i].nonce == m.accounts[i].nonce
    && Evolved(m.accounts[i].tracker, m1.accounts[i].tracker)
  }

  lemma AuthenticationKeeps(m: Manager, m1: Manager, i: nat, m2: Manager, authentic: bool)
    requires Authenticating(m, m1, i) && Inv(m2) && InFrame(m1, m2)
    ensures i < |m2.accounts| && Finish(m2, i, authentic).Ran?
    ensures Inv(Finish(m2, i, authentic).m) && InFrame(m, Finish(m2, i, authentic).m)
  {
    assert AccountInFrame(m1.accounts[i], m2.accounts[i]);
    FinishKeeps(m2, i, authentic);
    var r := Finish(m2, i, authentic).m;
    forall j | 0 <= j < |m.accounts| ensures AccountInFrame(m.accounts[j], r.accounts[j]) {
      assert j != i ==> AccountInFrame(m1.accounts[j], m2.accounts[j]);
    }
  }

  lemma RequireEnforcingKeeps(m: Manager, s: Step, fn: Function)
    requires s.RequireAuth? && Inv(m) && m.mode.Enforcing? && m.callStack != []
    ensures RequireEnforcing(m, s, fn).Ran? ==>
              Inv(RequireEnforcing(m, s, fn).m) && InFrame(m, RequireEnforcing(m, s, fn).m)
    ensures s.check == [] ==> RequireEnforcing(m, s, fn).Ran?
    decreases s, 1
  {
    hide Authenticate, Inv, InFrame, Authenticating, Extend, HasActive;
    var allowRoot := !HasActive(m.accounts, s.address);
    var i := FirstAccount(m.accounts, s.address, fn, allowRoot, 0);
    if i < |m.accounts| {
      var a, m1, p := MatchedAccount(m, i, fn, allowRoot);
      if !a.verified {
        AuthenticateKeeps(m, m1, i, s);
      } else {
        InFrameRefl(m);
      }
    } else {
      InFrameRefl(m);
    }
  }

  lemma AuthenticateKeeps(m: Manager, m1: Manager, i: nat, s: Step)
    requires s.RequireAuth? && Authenticating(m, m1, i)
    ensures Authenticate(m1, i, s).Ran? ==>
              Inv(Authenticate(m1, i, s).m) && InFrame(m, Authenticate(m1, i, s).m)
    ensures s.check == [] ==> Authenticate(m1, i, s).Ran?
    decreases s, 0
  {
    hide Finish, InFrame;
    if RunsCheck(m1.accounts[i]) {
      var f := CheckFrame(m1.accounts[i].address);
      CallKeeps(m1, f, s.check, !s.authentic);
      if s.check == [] {
        EmptyCall(m1, f, !s.authentic);
      }
      if RunCall(m1, f, s.check, !s.authentic).Ran? {
        AuthenticationKeeps(m, m1, i, RunCall(m1, f, s.check, !s.authentic).m, s.authentic);
      }
    } else {
      InFrameRefl(m1);
      AuthenticationKeeps(m, m1, i, m1, m1.accounts[i].isSource || s.authentic);
    }
  }

  /** The account tracker that answers is matched: if it is verified already the manager is fit, and
      else an authentication can start. */
  lemma MatchedAccount(m: Manager, i: nat, fn: Function, allowRoot: bool)
    returns (a: AccountTracker, m1: Manager, p: seq<nat>)
    requires Inv(m) && m.mode.Enforcing? && m.callStack != [] && i < |m.accounts| && !m.accounts[i].borrowed
    requires !Extend(m.accounts[i].tracker, fn, allowRoot).NoMatch?
    ensures Extend(m.accounts[i].tracker, fn, allowRoot).Extended?
    ensures a == m.accounts[i].(tracker := Extend(m.accounts[i].tracker, fn, allowRoot).t)
    ensures UsesOne(m.accounts[i].tracker.root, a.tracker.root, p, fn)
    ensures m1 == m.(accounts := m.accounts[i := a.(borrowed := true)])
    ensures a.verified ==> Inv(m.(accounts := m.accounts[i := a])) && InFrame(m, m.(accounts := m.accounts[i := a]))
    ensures !a.verified ==> Authenticating(m, m1, i)
  {
    p := ExtendUsesOne(m.accounts[i].tracker, fn, allowRoot);
    a := m.accounts[i].(tracker := Extend(m.accounts[i].tracker, fn, allowRoot).t);
    m1 := m.(accounts := m.accounts[i := a.(borrowed := true)]);
    assert AccountFits(m.accounts[i], |m.callStack|);
    if a.verified {
      ReplaceAccount(m, i, a, m.ledger);
    } else {
      ReplaceAccount(m, i, a.(borrowed := true), m.ledger);
    }
  }

  lemma RecordAtKeeps(m: Manager, i: nat, fn: Function)
    requires Inv(m) && m.mode.Recording? && i < |m.accounts| && AnyMatched(m.accounts[i].tracker)
    ensures RecordAt(m, i, fn).Ran? && Inv(RecordAt(m, i, fn).m) && InFrame(m, RecordAt(m, i, fn).m)
  {
    WalkNeverBreaks(m.accounts[i].tracker);
    RecordConsistent(m.accounts[i].tracker, fn);
    if Record(m.accounts[i].tracker, fn).Extended? {
      ReplaceAccount(m, i, m.accounts[i].(tracker := Record(m.accounts[i].tracker, fn).t), m.ledger);
    }
  }

  lemma RecordingDepth(fn: Function, depth: nat)
    requires depth > 0
    ensures |NewRecording(fn, depth).stack| == depth
  {}

  lemma CreateRecordingKeeps(m: Manager, s: Step, fn: Function)
    requires s.RequireAuth? && Inv(m) && m.mode.Recording? && m.callStack != []
    ensures CreateRecording(m, s, fn).Ran?
    ensures Inv(CreateRecording(m, s, fn).m) && InFrame(m, CreateRecording(m, s, fn).m)
  {
    RecordingStartsConsistent(fn, |m.callStack|);
    hide Consistent, NewRecording, InvokersFit, AnyMatched;
    assert |NewRecording(fn, |m.callStack|).stack| == |m.callStack| by {
      RecordingDepth(fn, |m.callStack|);
    }
    var r := CreateRecording(m, s, fn).m;
    if CreateRecording(m, s, fn).granted {
      var n := |m.accounts|;
      assert AccountFits(r.accounts[n], |m.callStack|);
      assert !r.accounts[n].isSource ==>
          KeyOf(r.accounts[n]) !in m.ledger.live && KeyOf(r.accounts[n]) in r.ledger.live;
      assert forall j :: 0 <= j < n ==> r.accounts[j] == m.accounts[j];
    }
  }

  /** In recording mode none of the internal errors of `require_auth` on account trackers is reachable. */
  lemma RequireRecordingKeeps(m: Manager, s: Step, fn: Function)
    requires s.RequireAuth? && Inv(m) && m.mode.Recording? && m.callStack != []
    ensures RequireRecording(m, s, fn).Ran?
    ensures Inv(RequireRecording(m, s, fn).m) && InFrame(m, RequireRecording(m, s, fn).m)
  {
    if s.handle in m.mode.handles && AnyMatched(m.accounts[m.mode.handles[s.handle]].tracker) {
      RecordAtKeeps(m, m.mode.handles[s.handle], fn);
    } else {
      var m1 := m.(mode := m.mode.(handles := m.mode.handles - {s.handle}));
      assert Inv(m1) && InFrame(m, m1);
      var i := FirstRecording(m1.accounts, s.address, 0);
      if i < |m1.accounts| {
        RecordAtKeeps(m1, i, fn);
        InFrameTrans(m, m1, RecordAt(m1, i, fn).m);
      } else {
        CreateRecordingKeeps(m1, s, fn);
        InFrameTrans(m, m1, CreateRecording(m1, s, fn).m);
      }
    }
  }

  lemma RequireKeeps(m: Manager, s: Step)
    requires s.RequireAuth? && Inv(m)
    ensures Require(m, s).Ran? ==> Inv(Require(m, s).m) && InFrame(m, Require(m, s).m)
    decreases s, 2
  {
    hide RequireEnforcing, RequireRecording, CheckInvokers, Inv, InFrame;
    if m.callStack != [] {
      var fn := ToFunction(m.callStack[|m.callStack| - 1], s.args);
      CheckInvokersKeeps(m, s.address, fn);
      if CheckInvokers(m, s.address, fn).NotFound? {
        if m.mode.Enforcing? {
          RequireEnforcingKeeps(m, s, fn);
        } else {
          RequireRecordingKeeps(m, s, fn);
        }
      }
    }
  }

  /** The request matches a tracker that has yet to be verified, and the frame in which the code of its account
      is run for this ends in an internal error of its own. */
  ghost predicate CheckCrashes(m: Manager, s: Step, fn: Function)
    requires s.RequireAuth?
  {
    var allowRoot := !HasActive(m.accounts, s.address);
    var i := FirstAccount(m.accounts, s.address, fn, allowRoot, 0);
    && i < |m.accounts| && !m.accounts[i].verified && RunsCheck(m.accounts[i])
    && match Extend(m.accounts[i].tracker, fn, allowRoot)
       case Extended(t) =>
         RunCall(m.(accounts := m.accounts[i := m.accounts[i].(tracker := t, borrowed := true)]),
                 CheckFrame(m.accounts[i].address), s.check, !s.authentic).Crashed?
       case _ => false
  }

  lemma EnforcingCrashExact(m: Manager, s: Step, fn: Function)
    requires s.RequireAuth? && Inv(m) && m.mode.Enforcing? && m.callStack != []
    ensures RequireEnforcing(m, s, fn).Crashed? <==> CheckCrashes(m, s, fn)
  {
    hide Inv, InFrame, Authenticating, Extend, HasActive, Finish, RunCall;
    var allowRoot := !HasActive(m.accounts, s.address);
    var i := FirstAccount(m.accounts, s.address, fn, allowRoot, 0);
    if i < |m.accounts| {
      var a, m1, p := MatchedAccount(m, i, fn, allowRoot);
      if !a.verified {
        AuthenticateCrashExact(m, m1, i, s);
        assert RunsCheck(m1.accounts[i]) == RunsCheck(m.accounts[i]);
      }
    }
  }

  lemma AuthenticateCrashExact(m: Manager, m1: Manager, i: nat, s: Step)
    requires s.RequireAuth? && Authenticating(m, m1, i)
    ensures Authenticate(m1, i, s).Crashed? <==>
            RunsCheck(m1.accounts[i])
            && RunCall(m1, CheckFrame(m1.accounts[i].address), s.check, !s.authentic).Crashed?
  {
    hide Finish, InFrame;
    if RunsCheck(m1.accounts[i]) {
      var f := CheckFrame(m1.accounts[i].address);
      CallKeeps(m1, f, s.check, !s.authentic);
      if RunCall(m1, f, s.check, !s.authentic).Ran? {
        AuthenticationKeeps(m, m1, i, RunCall(m1, f, s.check, !s.authentic).m, s.authentic);
      }
    } else {
      InFrameRefl(m1);
      AuthenticationKeeps(m, m1, i, m1, m1.accounts[i].isSource || s.authentic);
    }
  }

  /** A request ends in an internal error exactly where the invoker trackers break, or code run to authenticate does. */
  lemma RequireCrashExact(m: Manager, s: Step)
    requires s.RequireAuth? && Inv(m) && m.callStack != []
    ensures var fn := ToFunction(m.callStack[|m.callStack| - 1], s.args);
            Require(m, s).Crashed? <==>
            || CheckInvokers(m, s.address, fn).Broke?
            || (CheckInvokers(m, s.address, fn).NotFound? && m.mode.Enforcing? && CheckCrashes(m, s, fn))
  {
    hide RequireEnforcing, RequireRecording, CheckInvokers, Inv, CheckCrashes;
    var fn := ToFunction(m.callStack[|m.callStack| - 1], s.args);
    if m.mode.Recording? {
      RequireRecordingKeeps(m, s, fn);
    } else {
      EnforcingCrashExact(m, s, fn);
    }
  }

  lemma AuthorizeKeeps(m: Manager, entries: seq<Invocation>)
    requires Inv(m)
    ensures Authorize(m, entries).Ran? ==> Inv(Authorize(m, entries).m) && InFrame(m, Authorize(m, entries).m)
  {
    if Authorize(m, entries).Ran? {
      var r := Authorize(m, entries).m;
      var n := |m.invokers|;
      forall i | n <= i < |r.invokers|
        ensures InvokerFits(r.invokers[i], |m.callStack|)
      {
        FreshClosed(entries[i - n]);
      }
      assert forall i :: 0 <= i < n ==> r.invokers[i] == m.invokers[i];
    }
  }

  lemma {:induction false} FreshClosed(t: Invocation)
    ensures Closed(Fresh(t))
    decreases t
  {
    forall i | 0 <= i < |t.subs| ensures Closed(Fresh(t).subs[i]) {
      FreshClosed(t.subs[i]);
    }
  }

  // ---------- calls ----------

  /** A call that succeeds. */
  lemma SuccessKeeps(m: Manager, f: Frame, m2: Manager)
    requires Inv(m) && Inv(m2) && InFrame(PushFrame(m, f), m2)
    ensures Inv(PopTop(m2)) && InFrame(m, PopTop(m2))
    ensures forall i :: 0 <= i < |PopTop(m2).invokers| ==> PopTop(m2).invokers[i].born < |m.callStack|
  {
    var m1 := PushFrame(m, f);
    var r := PopTop(m2);
    forall i | m.mode.Enforcing? && 0 <= i < |m2.accounts| && m2.accounts[i].borrowed
      ensures |m2.accounts[i].tracker.stack| < |m2.callStack|
    {
      assert m1.accounts[i] == m.accounts[i];
      assert AccountFits(m.accounts[i], |m.callStack|);
    }
    PopTopKeeps(m2);
    assert r.callStack == m.callStack;
    if m.mode.Enforcing? {
      forall i | 0 <= i < |m.accounts|
        ensures AccountInFrame(m.accounts[i], r.accounts[i])
      {
        assert AccountInFrame(m1.accounts[i], m2.accounts[i]);
        if !m.accounts[i].borrowed {
          EvolvedThroughCall(m.accounts[i].tracker, m2.accounts[i].tracker);
        }
      }
    }
    SuccessKeepsInvokers(m.invokers, m2.invokers, |m.callStack|);
  }

  lemma SuccessKeepsInvokers(ts: seq<InvokerTracker>, us: seq<InvokerTracker>, depth: nat)
    requires InvokersFit(ts, depth) && InvokersFit(us, depth + 1)
    requires InvokersInFrame(Map(PushInvoker, ts), us, depth + 1)
    ensures InvokersInFrame(ts, DropOutOfScope(Map(PopInvoker, us)), depth)
  {
    var r := DropOutOfScope(Map(PopInvoker, us));
    PopInvokers(us, depth + 1);
    assert |r| == Below(us, depth) && forall i :: 0 <= i < |r| ==> r[i] == PopInvoker(us[i]);
    hide InvokersInFrame, InvokersFit, DropOutOfScope, Below, Evolved, Consistent, Pop, Push;
    forall i | 0 <= i < |ts| && ts[i].born < depth
      ensures i < |r| && r[i].born == ts[i].born
      ensures r[i].address == ts[i].address && Evolved(ts[i].tracker, r[i].tracker)
    {
      InvokerSurvives(ts, us, depth, i);
    }
    forall i | 0 <= i < |r|
      ensures r[i].born < depth && i < |ts| && ts[i].born < depth
    {
      InvokerIsOld(ts, us, depth, i);
    }
    OnlyOldInFrame(ts, r, depth);
  }

  lemma OnlyOldInFrame(a: seq<InvokerTracker>, b: seq<InvokerTracker>, depth: nat)
    requires forall i :: 0 <= i < |a| && a[i].born < depth ==>
               i < |b| && b[i].born == a[i].born && b[i].address == a[i].address && Evolved(a[i].tracker, b[i].tracker)
    requires forall i :: 0 <= i < |b| ==> b[i].born < depth && i < |a| && a[i].born < depth
    ensures InvokersInFrame(a, b, depth)
  {}

  lemma InvokerSurvives(ts: seq<InvokerTracker>, us: seq<InvokerTracker>, depth: nat, i: nat)
    requires InvokersFit(ts, depth) && InvokersFit(us, depth + 1)
    requires InvokersInFrame(Map(PushInvoker, ts), us, depth + 1)
    requires i < |ts| && ts[i].born < depth
    ensures i < Below(us, depth) && us[i].born == ts[i].born && us[i].address == ts[i].address
    ensures Evolved(ts[i].tracker, Pop(us[i].tracker))
  {
    var t := Map(PushInvoker, ts)[i];
    assert t.born == ts[i].born < depth + 1;
    EvolvedThroughCall(ts[i].tracker, us[i].tracker);
    BelowCovers(us, depth, i);
  }

  lemma {:induction false} BelowCovers(ts: seq<InvokerTracker>, depth: nat, i: nat)
    requires i < |ts| && ts[i].born < depth && forall j :: 0 <= j < i ==> ts[j].born <= ts[i].born
    ensures i < Below(ts, depth)
  {
    if i > 0 {
      assert ts[0].born < depth;
      assert forall j :: 0 <= j < i - 1 ==> ts[1..][j].born <= ts[1..][i - 1].born;
      BelowCovers(ts[1..], depth, i - 1);
    }
  }

  lemma InvokerIsOld(ts: seq<InvokerTracker>, us: seq<InvokerTracker>, depth: nat, i: nat)
    requires InvokersFit(ts, depth)
    requires InvokersInFrame(Map(PushInvoker, ts), us, depth + 1)
    requires i < Below(us, depth)
    ensures us[i].born < depth && i < |ts| && ts[i].born < depth
  {
    assert us[i].born < depth;
    assert i < |ts| ==> Map(PushInvoker, ts)[i].born == ts[i].born;
  }

  /** No invoker tracker created by the frame on top is waiting for a call. */
  ghost predicate NonePending(m: Manager) {
    forall i :: 0 <= i < |m.invokers| ==> m.invokers[i].tracker.stack != []
  }

  lemma RollBackInvokersSame(a: seq<InvokerTracker>, b: seq<InvokerTracker>)
    requires |a| == |b|
    requires forall i :: 0 <= i < |a| ==>
               && Consistent(a[i].tracker) && a[i].tracker.stack != [] && !CurrentMatched(a[i].tracker)
               && Evolved(a[i].tracker, b[i].tracker) && a[i] == b[i].(tracker := a[i].tracker)
    ensures var r := RollBackInvokers(b, Map(SnapInvoker, a));
            r.Some? && Map(PopInvoker, r.value) == Map(PopInvoker, a)
  {
    forall i | 0 <= i < |a|
      ensures RollBack(b[i].tracker, SnapInvoker(a[i])).Some?
      ensures PopInvoker(b[i].(tracker := RollBack(b[i].tracker, SnapInvoker(a[i])).value)) == PopInvoker(a[i])
    {
      RollBackThenPop(a[i].tracker, b[i].tracker);
    }
  }

  lemma PendingAreNew(m1: Manager, m2: Manager)
    requires Inv(m1) && Inv(m2) && InFrame(m1, m2)
    requires forall i :: 0 <= i < |m1.invokers| ==> m1.invokers[i].born < |m1.callStack|
    ensures |m2.invokers| >= |m1.invokers|
    ensures NonePending(m2) <==> |m2.invokers| == |m1.invokers|
  {
    var d := |m1.callStack|;
    assert forall i :: 0 <= i < |m2.invokers| ==> InvokerFits(m2.invokers[i], d);
    assert |m1.invokers| > 0 ==> m1.invokers[|m1.invokers| - 1].born < d;
    if |m2.invokers| > |m1.invokers| {
      assert m2.invokers[|m1.invokers|].born == d;
      assert m2.invokers[|m1.invokers|].tracker.stack == [];
    } else {
      forall i | 0 <= i < |m2.invokers| ensures m2.invokers[i].tracker.stack != [] {
        assert m1.invokers[i].born == m2.invokers[i].born;
      }
    }
  }

  lemma RollBackInvokersExact(m: Manager, f: Frame, m2: Manager)
    requires Inv(m) && Inv(m2) && InFrame(PushFrame(m, f), m2)
    ensures var ss := Map(SnapInvoker, PushFrame(m, f).invokers);
            var r := RollBackInvokers(m2.invokers, ss);
            && (r.Some? <==> NonePending(m2))
            && (r.Some? ==> Map(PopInvoker, r.value) == Map(PopInvoker, PushFrame(m, f).invokers))
  {
    var m1 := PushFrame(m, f);
    PushKeeps(m, f);
    assert forall i :: 0 <= i < |m1.invokers| ==> m1.invokers[i].born == m.invokers[i].born;
    PendingAreNew(m1, m2);
    if |m2.invokers| == |m1.invokers| {
      forall i | 0 <= i < |m1.invokers|
        ensures Consistent(m1.invokers[i].tracker) && Evolved(m1.invokers[i].tracker, m2.invokers[i].tracker)
        ensures m1.invokers[i].tracker.stack != [] && !CurrentMatched(m1.invokers[i].tracker)
        ensures m1.invokers[i] == m2.invokers[i].(tracker := m1.invokers[i].tracker)
      {
        assert InvokerFits(m1.invokers[i], |m1.callStack|);
      }
      RollBackInvokersSame(m1.invokers, m2.invokers);
    }
  }

  lemma RollBackAccountSame(a: AccountTracker, b: AccountTracker, depth: nat)
    requires depth > 0 && AccountFits(a, depth) && AccountInFrame(a, b) && !CurrentMatched(a.tracker)
    ensures RollBackAccount(b, SnapAccount(a)).Some?
    ensures PopAccount(RollBackAccount(b, SnapAccount(a)).value) == PopAccount(a)
  {
    if !a.borrowed {
      RollBackThenPop(a.tracker, b.tracker);
    }
  }

  lemma RollBackAccountsExact(m: Manager, f: Frame, m2: Manager)
    requires Inv(m) && Inv(m2) && InFrame(PushFrame(m, f), m2)
    ensures var r := RollBackAccounts(m2.accounts, TakeSnapshot(PushFrame(m, f)).accounts);
            r.Some? && Map(PopAccount, r.value) == Map(PopAccount, PushFrame(m, f).accounts)
  {
    var m1 := PushFrame(m, f);
    PushKeeps(m, f);
    if m.mode.Enforcing? {
      var ss := Map(SnapAccount, m1.accounts);
      forall i | 0 <= i < |m1.accounts|
        ensures RollBackAccount(m2.accounts[i], ss[i]).Some?
        ensures PopAccount(RollBackAccount(m2.accounts[i], ss[i]).value) == PopAccount(m1.accounts[i])
      {
        assert AccountInFrame(m1.accounts[i], m2.accounts[i]);
        if m1.accounts[i].borrowed {
          assert m1.accounts[i] == m2.accounts[i];
        } else {
          RollBackAccountSame(m1.accounts[i], m2.accounts[i], |m1.callStack|);
        }
      }
      hide RollBackAccount, PopAccount, SnapAccount, Inv, InFrame;
    }
  }

  /** A failed frame. Rolling back to its snapshot and popping it succeeds exactly when the frame left no
      invoker tracker waiting, and it then gives what popping right after the push would have given,
      whatever ran in the frame, trackers borrowed by an authentication higher up included. */
  lemma FailureUndoes(m: Manager, f: Frame, m2: Manager)
    requires Inv(m) && Inv(m2) && InFrame(PushFrame(m, f), m2)
    ensures var m1 := PushFrame(m, f);
            var r := PopFrame(m2, Some(TakeSnapshot(m1)));
            && (r.Some? <==> NonePending(m2))
            && (r.Some? ==> r.value == PopTop(m1))
  {
    RollBackInvokersExact(m, f, m2);
    RollBackAccountsExact(m, f, m2);
  }

  /** Popping a frame right after pushing it changes nothing but drops the invoker trackers that were
      waiting for this call. */
  lemma PopAfterPush(m: Manager, f: Frame)
    requires Inv(m)
    ensures PopTop(PushFrame(m, f)) == m.(invokers := m.invokers[..Below(m.invokers, |m.callStack|)])
  {
    var m1 := PushFrame(m, f);
    PushKeeps(m, f);
    PopInvokers(m1.invokers, |m.callStack| + 1);
    forall i | 0 <= i < |m.accounts| ensures PopAccount(m1.accounts[i]) == m.accounts[i] {
      if !m.accounts[i].borrowed {
        PopUndoesPush(m.accounts[i].tracker);
      }
    }
    assert Map(PopAccount, m1.accounts) == m.accounts;
    forall i | 0 <= i < |m.invokers| ensures PopInvoker(m1.invokers[i]) == m.invokers[i] {
      PopUndoesPush(m.invokers[i].tracker);
    }
    assert Map(PopInvoker, m1.invokers) == m.invokers;
    BelowPushed(m.invokers, m1.invokers, |m.callStack|);
  }

  lemma {:induction false} BelowPushed(a: seq<InvokerTracker>, b: seq<InvokerTracker>, depth: nat)
    requires |a| == |b| && forall i :: 0 <= i < |a| ==> a[i].born == b[i].born
    ensures Below(a, depth) == Below(b, depth)
  {
    if a != [] && a[0].born < depth {
      assert forall i :: 0 <= i < |a[1..]| ==> a[1..][i].born == b[1..][i].born;
      BelowPushed(a[1..], b[1..], depth);
    }
  }

  lemma StepKeeps(m: Manager, s: Step)
    requires Inv(m)
    ensures RunStep(m, s).Ran? ==> Inv(RunStep(m, s).m) && InFrame(m, RunStep(m, s).m)
    decreases s, 3
  {
    match s
    case RequireAuth(_, _, _, _, _, _) => RequireKeeps(m, s);
    case AuthorizeAsCurrent(entries) => AuthorizeKeeps(m, entries);
    case Call(f, body, fails) => CallKeeps(m, f, body, fails);
  }

  lemma CallKeeps(m: Manager, f: Frame, body: seq<Step>, fails: bool)
    requires Inv(m)
    ensures RunCall(m, f, body, fails).Ran? ==>
              Inv(RunCall(m, f, body, fails).m) && InFrame(m, RunCall(m, f, body, fails).m)
    decreases body, 1
  {
    var m1 := PushFrame(m, f);
    PushKeeps(m, f);
    RunKeeps(m1, body);
    if Run(m1, body).Ran? {
      var m2 := Run(m1, body).m;
      if fails {
        FailureUndoes(m, f, m2);
        InFrameRefl(m1);
        SuccessKeeps(m, f, m1);
      } else {
        SuccessKeeps(m, f, m2);
      }
    }
  }

  /** A frame in which nothing happens never ends in an internal error. */
  lemma EmptyCall(m: Manager, f: Frame, fails: bool)
    requires Inv(m)
    ensures RunCall(m, f, [], fails).Ran?
  {
    var m1 := PushFrame(m, f);
    assert Run(m1, []) == Ran(m1, true);
    PushKeeps(m, f);
    InFrameRefl(m1);
    FailureUndoes(m, f, m1);
  }

  /** Every run keeps the invariant, and touches the frames below only through the call it is in. */
  lemma RunKeeps(m: Manager, ss: seq<Step>)
    requires Inv(m)
    ensures Run(m, ss).Ran? ==> Inv(Run(m, ss).m) && InFrame(m, Run(m, ss).m)
    decreases ss, 0
  {
    if ss == [] {
      InFrameRefl(m);
    } else {
      StepKeeps(m, ss[0]);
      if RunStep(m, ss[0]).Ran? {
        var m1 := RunStep(m, ss[0]).m;
        RunKeeps(m1, ss[1..]);
        if Run(m1, ss[1..]).Ran? {
          InFrameTrans(m, m1, Run(m1, ss[1..]).m);
        }
      }
    }
  }
}
