/** Recording mode predicts enforcing mode: the recorded trees, loaded as fresh signed entries, make every
    request of the same run succeed. */
module AuthorizationReplay {
  import opened Basics
  import opened InvocationTree
  import opened InvocationTracking
  import opened Nonces
  import opened Authorization
  import opened AuthorizationInvariants
  import opened AuthorizationTheorems
  import opened AuthorizationLockstep

  // ---------- trees that grow, and trees used so far ----------

  /** `b` has every node of `a` at the same place, and possibly later siblings. */
  ghost predicate Grows(a: Invocation, b: Invocation)
    decreases a
  {
    a.fn == b.fn && |a.subs| <= |b.subs| && forall i :: 0 <= i < |a.subs| ==> Grows(a.subs[i], b.subs[i])
  }

  lemma {:induction false} GrowsRefl(a: Invocation)
    ensures Grows(a, a)
    decreases a
  {
    forall i | 0 <= i < |a.subs| ensures Grows(a.subs[i], a.subs[i]) {
      GrowsRefl(a.subs[i]);
    }
  }

  lemma {:induction false} GrowsTrans(a: Invocation, b: Invocation, c: Invocation)
    requires Grows(a, b) && Grows(b, c)
    ensures Grows(a, c)
    decreases a
  {
    forall i | 0 <= i < |a.subs| ensures Grows(a.subs[i], c.subs[i]) {
      GrowsTrans(a.subs[i], b.subs[i], c.subs[i]);
    }
  }

  /** The tree `full` in which exactly the nodes of `part` have been used. */
  function Overlay(part: Invocation, full: Invocation): (r: Invocation)
    ensures r.fn == full.fn && |r.subs| == |full.subs| && r.exhausted
    decreases full
  {
    Invocation(full.fn,
               seq(|full.subs|, i requires 0 <= i < |full.subs| =>
                     if i < |part.subs| then Overlay(part.subs[i], full.subs[i]) else Fresh(full.subs[i])),
               true)
  }

  lemma {:induction false} OverlayAt(part: Invocation, full: Invocation, p: seq<nat>)
    requires Grows(part, full) && ValidPath(part, p)
    ensures ValidPath(full, p) && Grows(At(part, p), At(full, p))
    ensures ValidPath(Overlay(part, full), p) && At(Overlay(part, full), p) == Overlay(At(part, p), At(full, p))
    decreases |p|
  {
    if p != [] {
      OverlayAt(part.subs[p[0]], full.subs[p[0]], p[1..]);
    }
  }

  function Append(t: Invocation, p: seq<nat>, fn: Function): Invocation
    requires ValidPath(t, p)
  {
    Put(t, p, At(t, p).(subs := At(t, p).subs + [Invocation(fn, [], true)]))
  }

  lemma {:induction false} AppendGrows(t: Invocation, p: seq<nat>, fn: Function)
    requires ValidPath(t, p)
    ensures Grows(t, Append(t, p, fn))
    decreases |p|
  {
    var u := Append(t, p, fn);
    forall i | 0 <= i < |t.subs| ensures Grows(t.subs[i], u.subs[i]) {
      GrowsRefl(t.subs[i]);
      if p != [] && i == p[0] {
        AppendGrows(t.subs[i], p[1..], fn);
      }
    }
  }

  /** Recording one more node and using that node in the full tree are the same step. */
  lemma {:induction false} OverlayAppend(part: Invocation, full: Invocation, p: seq<nat>, fn: Function)
    requires ValidPath(part, p) && Grows(part, full) && Grows(Append(part, p, fn), full)
    ensures var k := |At(part, p).subs|;
            && ValidPath(full, p) && ValidPath(Overlay(part, full), p)
            && k < |At(full, p).subs| && At(full, p).subs[k].fn == fn
            && var n := At(Overlay(part, full), p);
            && n == Overlay(At(part, p), At(full, p))
            && Overlay(Append(part, p, fn), full)
               == Put(Overlay(part, full), p, n.(subs := n.subs[k := n.subs[k].(exhausted := true)]))
    decreases |p|
  {
    OverlayAt(part, full, p);
    var k := |At(part, p).subs|;
    var grown := Append(part, p, fn);
    if p == [] {
      assert Grows(grown.subs[k], full.subs[k]);
      assert Overlay(grown.subs[k], full.subs[k]) == Fresh(full.subs[k]).(exhausted := true);
      var n := Overlay(part, full);
      assert Overlay(grown, full).subs == n.subs[k := n.subs[k].(exhausted := true)];
    } else {
      var h := p[0];
      assert Grows(grown.subs[h], full.subs[h]);
      OverlayAppend(part.subs[h], full.subs[h], p[1..], fn);
      var n := At(Overlay(part, full), p);
      var r := Put(Overlay(part, full), p, n.(subs := n.subs[k := n.subs[k].(exhausted := true)]));
      assert Overlay(grown, full).subs == r.subs;
    }
  }

  /** Every node of a recorded tree has been used once the whole of it is overlaid. */
  ghost predicate AllUsed(t: Invocation)
    decreases t
  {
    t.exhausted && forall i :: 0 <= i < |t.subs| ==> AllUsed(t.subs[i])
  }

  lemma {:induction false} OverlayWhole(t: Invocation)
    ensures AllUsed(Overlay(t, t)) && SameTree(Overlay(t, t), t)
    decreases t
  {
    forall i | 0 <= i < |t.subs|
      ensures AllUsed(Overlay(t, t).subs[i]) && Fresh(Overlay(t, t).subs[i]) == Fresh(t.subs[i])
    {
      OverlayWhole(t.subs[i]);
    }
    assert Fresh(Overlay(t, t)).subs == Fresh(t).subs;
  }

  // ---------- runs that can be replayed ----------

  ghost predicate Injective(h: Address -> nat) {
    forall a, b :: h(a) == h(b) ==> a == b
  }

  /** One handle per address and every signature genuine; in a call that fails anything goes. */
  ghost predicate Replayable(ss: seq<Step>, h: Address -> nat)
    decreases ss, 0
  {
    forall i :: 0 <= i < |ss| ==> ReplayableStep(ss[i], h)
  }

  ghost predicate ReplayableStep(s: Step, h: Address -> nat)
    decreases s, 1
  {
    match s
    case RequireAuth(handle, address, _, _, authentic, _) => handle == h(address) && authentic
    case AuthorizeAsCurrent(_) => true
    case Call(_, body, fails) => fails || Replayable(body, h)
  }

  /** Wherever code of an account will run that recording does not run, it is harmless: outside failing calls that is
      where recording starts a tracker for a contract account, inside them wherever it might have to. */
  ghost predicate Harmless(m: Manager, ss: seq<Step>)
    decreases ss, 0
  {
    ss == []
    || (HarmlessStep(m, ss[0]) && (RunStep(m, ss[0]).Ran? ==> Harmless(RunStep(m, ss[0]).m, ss[1..])))
  }

  ghost predicate HarmlessStep(m: Manager, s: Step)
    decreases s, 1
  {
    match s
    case RequireAuth(_, _, _, _, _, _) => RunStep(m, s).Ran? && StartsCheck(m, RunStep(m, s).m) ==> CheckHarmless(m, s)
    case AuthorizeAsCurrent(_) => true
    case Call(f, body, fails) => if fails then Orderly(PushFrame(m, f), body) else Harmless(PushFrame(m, f), body)
  }

  /** The tracker that was added last will have to run code of its account. */
  predicate StartsCheck(before: Manager, after: Manager) {
    |after.accounts| > |before.accounts| && RunsCheck(after.accounts[|before.accounts|])
  }

  /** Every request is granted, but for those made in calls that fail. */
  ghost predicate GrantedOutside(m: Manager, ss: seq<Step>)
    decreases ss, 0
  {
    ss == [] || (GrantedStep(m, ss[0]) && GrantedOutside(RunStep(m, ss[0]).m, ss[1..]))
  }

  ghost predicate GrantedStep(m: Manager, s: Step)
    decreases s, 1
  {
    RunStep(m, s).Ran?
    && match s
       case Call(f, body, fails) => fails || GrantedOutside(PushFrame(m, f), body)
       case _ => RunStep(m, s).granted
  }

  lemma GrantedRuns(m: Manager, ss: seq<Step>)
    requires GrantedOutside(m, ss)
    ensures Run(m, ss).Ran?
    decreases |ss|
  {
    if ss != [] {
      GrantedRuns(RunStep(m, ss[0]).m, ss[1..]);
    }
  }

  /** The handle map points to the one tracker of an address that is in the call stack, if any. */
  ghost predicate HandlesFit(m: Manager, h: Address -> nat) {
    && m.mode.Recording? && Inv(m)
    && (forall k :: 0 <= k < |m.accounts| ==> m.accounts[k].tracker.root.exhausted && m.accounts[k].verified)
    && (forall k :: 0 <= k < |m.accounts| && AnyMatched(m.accounts[k].tracker) ==>
          h(m.accounts[k].address) in m.mode.handles && m.mode.handles[h(m.accounts[k].address)] == k)
    && (forall x :: x in m.mode.handles ==> h(m.accounts[m.mode.handles[x]].address) == x)
  }

  ghost predicate AllGrow(a: seq<AccountTracker>, b: seq<AccountTracker>) {
    |a| <= |b| && forall k :: 0 <= k < |a| ==>
      && a[k].address == b[k].address && a[k].isSource == b[k].isSource && a[k].nonce == b[k].nonce
      && Grows(a[k].tracker.root, b[k].tracker.root)
  }

  lemma AllGrowTrans(a: seq<AccountTracker>, b: seq<AccountTracker>, c: seq<AccountTracker>)
    requires AllGrow(a, b) && AllGrow(b, c)
    ensures AllGrow(a, c)
  {
    forall k | 0 <= k < |a| ensures Grows(a[k].tracker.root, c[k].tracker.root) {
      GrowsTrans(a[k].tracker.root, b[k].tracker.root, c[k].tracker.root);
    }
  }

  lemma AllGrowSame(a: seq<AccountTracker>, b: seq<AccountTracker>)
    requires |a| == |b|
    requires forall k :: 0 <= k < |a| ==>
               && a[k].address == b[k].address && a[k].isSource == b[k].isSource && a[k].nonce == b[k].nonce
               && a[k].tracker.root == b[k].tracker.root
    ensures AllGrow(a, b)
  {
    forall k | 0 <= k < |a| ensures Grows(a[k].tracker.root, b[k].tracker.root) {
      GrowsRefl(a[k].tracker.root);
    }
  }

  // ---------- the simulation ----------

  ghost predicate NonceFits(recorded: Option<SignedNonce>, signed: Option<SignedNonce>, l: Ledger) {
    && (recorded.None? <==> signed.None?)
    && (signed.Some? ==>
          && signed.value.value == recorded.value.value && l.seqNum <= signed.value.expiration
          && LastLedger(l.seqNum, l.maxTtl).Some? && LastLedger(l.seqNum, l.minTempTtl).Some?
          && signed.value.expiration <= LastLedger(l.seqNum, l.maxTtl).value)
  }

  /** The nonces drawn from the tracker `n` on are all different, and none is live. */
  ghost predicate NoncesReady(full: seq<AccountTracker>, n: nat, l: Ledger) {
    && (forall k :: n <= k < |full| && !full[k].isSource ==> KeyOf(full[k]) !in l.live)
    && (forall j, k :: 0 <= j < k < |full| && !full[j].isSource && !full[k].isSource ==>
          KeyOf(full[j]) != KeyOf(full[k]))
  }

  function Shadow(t: Tracker, full: Invocation): Tracker {
    t.(root := Overlay(t.root, full))
  }

  /** The enforcing tracker `e` of the recorded tracker `k`: it stands where the recording stands. */
  ghost predicate Mirrors(rec: seq<AccountTracker>, full: seq<AccountTracker>, k: nat, e: AccountTracker, m: Manager)
    requires k < |full|
  {
    && e.address == full[k].address && e.isSource == full[k].isSource && !e.borrowed
    && NonceFits(full[k].nonce, e.nonce, m.ledger)
    && e.verified == (k < |rec|)
    && e.tracker == (if k < |rec| then Shadow(rec[k].tracker, full[k].tracker.root)
                     else Tracker(Fresh(full[k].tracker.root), Blank(|m.callStack|), None, false))
  }

  ghost predicate Simulates(rec: Manager, enf: Manager, full: seq<AccountTracker>) {
    && enf.mode.Enforcing? && enf.callStack == rec.callStack && enf.invokers == rec.invokers
    && NoncesReady(full, |rec.accounts|, enf.ledger)
    && AllGrow(rec.accounts, full) && |enf.accounts| == |full|
    && (forall k :: 0 <= k < |full| ==> Mirrors(rec.accounts, full, k, enf.accounts[k], enf))
  }

  // ---------- one request ----------

  /** A recorded tracker that left the call stack answers nothing when it is replayed. */
  lemma LeftTrackersAreSilent(t: Tracker, full: Invocation, fn: Function, allowRoot: bool)
    requires Consistent(t) && !AnyMatched(t)
    ensures Extend(Shadow(t, full), fn, allowRoot).NoMatch?
  {
    WalkNeverBreaks(t);
    WalkBlank(Overlay(t.root, full), t.stack);
  }

  /** A recorded tracker in the call stack, about to record `fn`, answers `fn` when it is replayed, and
      the two stay in step. */
  lemma ActiveTrackerAnswers(t: Tracker, full: Invocation, fn: Function, allowRoot: bool)
    requires Consistent(t) && AnyMatched(t) && !CurrentMatched(t)
    requires Record(t, fn).Extended? && Grows(t.root, full) && Grows(Record(t, fn).t.root, full)
    ensures Extend(Shadow(t, full), fn, allowRoot) == Extended(Shadow(Record(t, fn).t, full))
  {
    WalkNeverBreaks(t);
    var q := SubPath(t.stack);
    assert Record(t, fn).t.root == Append(t.root, q, fn);
    OverlayAppend(t.root, full, q, fn);
    WalkFinds(Overlay(t.root, full), t.stack, t.rootFrame.value);
    var n := At(Overlay(t.root, full), q);
    var k := |At(t.root, q).subs|;
    assert forall j :: 0 <= j < k ==> n.subs[j].exhausted;
    assert !n.subs[k].exhausted && n.subs[k].fn == fn;
    assert FirstUnused(n.subs, fn, 0) == k;
  }

  lemma RecordGrows(t: Tracker, fn: Function)
    requires Consistent(t) && AnyMatched(t) && !CurrentMatched(t)
    ensures Record(t, fn).Extended? && Grows(t.root, Record(t, fn).t.root) && Record(t, fn).t.root.exhausted
  {
    WalkNeverBreaks(t);
    RecordConsistent(t, fn);
    AppendGrows(t.root, SubPath(t.stack), fn);
  }

  /** The enforcing search reaches the tracker `k` when those before it are silent. */
  lemma SearchReaches(accounts: seq<AccountTracker>, address: Address, fn: Function, allowRoot: bool, k: nat)
    requires k < |accounts| && accounts[k].address == address && !accounts[k].borrowed
    requires !Extend(accounts[k].tracker, fn, allowRoot).NoMatch?
    requires forall j :: 0 <= j < k ==>
               accounts[j].address != address || Extend(accounts[j].tracker, fn, allowRoot).NoMatch?
    ensures FirstAccount(accounts, address, fn, allowRoot, 0) == k
  {}

  /** Which tracker a recorded request goes to, and what it is afterwards. */
  lemma RecordingCases(rec: Manager, s: Step, fn: Function, h: Address -> nat) returns (k: nat)
    requires HandlesFit(rec, h) && Injective(h) && s.RequireAuth? && s.handle == h(s.address)
    requires rec.callStack != []
    requires RequireRecording(rec, s, fn).Ran? && RequireRecording(rec, s, fn).granted
    ensures k <= |rec.accounts|
    ensures forall j :: 0 <= j < |rec.accounts| && j != k && rec.accounts[j].address == s.address ==>
              !AnyMatched(rec.accounts[j].tracker)
    ensures k < |rec.accounts| ==>
              && rec.accounts[k].address == s.address && AnyMatched(rec.accounts[k].tracker)
              && !CurrentMatched(rec.accounts[k].tracker) && Record(rec.accounts[k].tracker, fn).Extended?
              && RequireRecording(rec, s, fn).m == rec.(accounts := rec.accounts[
                   k := rec.accounts[k].(tracker := Record(rec.accounts[k].tracker, fn).t)])
    ensures k == |rec.accounts| ==>
              && CreateRecording(rec, s, fn).Ran? && CreateRecording(rec, s, fn).granted
              && RequireRecording(rec, s, fn).m == CreateRecording(rec, s, fn).m
  {
    if s.handle in rec.mode.handles && AnyMatched(rec.accounts[rec.mode.handles[s.handle]].tracker) {
      k := rec.mode.handles[s.handle];
      HandleIsCurrent(rec, s, fn, h);
    } else {
      k := |rec.accounts|;
      NoneIsCurrent(rec, s, fn, h);
    }
  }

  lemma HandleIsCurrent(rec: Manager, s: Step, fn: Function, h: Address -> nat)
    requires HandlesFit(rec, h) && Injective(h) && s.RequireAuth? && s.handle == h(s.address)
    requires RequireRecording(rec, s, fn).Ran? && RequireRecording(rec, s, fn).granted
    requires s.handle in rec.mode.handles && AnyMatched(rec.accounts[rec.mode.handles[s.handle]].tracker)
    ensures var k := rec.mode.handles[s.handle];
            && k < |rec.accounts| && rec.accounts[k].address == s.address
            && !CurrentMatched(rec.accounts[k].tracker) && Record(rec.accounts[k].tracker, fn).Extended?
            && RequireRecording(rec, s, fn).m == rec.(accounts := rec.accounts[
                 k := rec.accounts[k].(tracker := Record(rec.accounts[k].tracker, fn).t)])
            && forall j :: 0 <= j < |rec.accounts| && j != k && rec.accounts[j].address == s.address ==>
                 !AnyMatched(rec.accounts[j].tracker)
  {
    var k := rec.mode.handles[s.handle];
    WalkNeverBreaks(rec.accounts[k].tracker);
    RecordConsistent(rec.accounts[k].tracker, fn);
    hide Record, Consistent, RecordByAddress;
    assert RequireRecording(rec, s, fn) == RecordAt(rec, k, fn);
  }

  lemma NoneIsCurrent(rec: Manager, s: Step, fn: Function, h: Address -> nat)
    requires HandlesFit(rec, h) && Injective(h) && s.RequireAuth? && s.handle == h(s.address)
    requires rec.callStack != []
    requires RequireRecording(rec, s, fn).Ran? && RequireRecording(rec, s, fn).granted
    requires !(s.handle in rec.mode.handles && AnyMatched(rec.accounts[rec.mode.handles[s.handle]].tracker))
    ensures forall j :: 0 <= j < |rec.accounts| && rec.accounts[j].address == s.address ==>
              !AnyMatched(rec.accounts[j].tracker)
    ensures CreateRecording(rec, s, fn).Ran? && CreateRecording(rec, s, fn).granted
    ensures RequireRecording(rec, s, fn).m == CreateRecording(rec, s, fn).m
  {
    assert ModeFits(rec);
    hide Record, Inv, AnyMatched, RecordAt;
    var m1 := rec.(mode := rec.mode.(handles := rec.mode.handles - {s.handle}));
    assert RequireRecording(rec, s, fn) == RecordByAddress(m1, s, fn);
    assert FirstRecording(m1.accounts, s.address, 0) == |rec.accounts|;
    assert m1.mode.handles[s.handle := |rec.accounts|] == rec.mode.handles[s.handle := |rec.accounts|];
  }

  lemma RequestKeepsHandles(rec: Manager, s: Step, fn: Function, h: Address -> nat)
    requires HandlesFit(rec, h) && Injective(h) && s.RequireAuth? && s.handle == h(s.address)
    requires rec.callStack != []
    requires RequireRecording(rec, s, fn).Ran? && RequireRecording(rec, s, fn).granted
    ensures HandlesFit(RequireRecording(rec, s, fn).m, h)
    ensures AllGrow(rec.accounts, RequireRecording(rec, s, fn).m.accounts)
  {
    assert forall j :: 0 <= j < |rec.accounts| ==> Consistent(rec.accounts[j].tracker);
    hide RequireRecording, Record, Inv, CreateRecording, AllGrow, Consistent;
    var k := RecordingCases(rec, s, fn, h);
    RequireRecordingKeeps(rec, s, fn);
    if k < |rec.accounts| {
      RecordGrows(rec.accounts[k].tracker, fn);
      ReplaceKeepsHandles(rec, k, Record(rec.accounts[k].tracker, fn).t, h);
    } else {
      CreateKeepsHandles(rec, s, fn, h);
    }
  }

  lemma ReplaceKeepsHandles(rec: Manager, k: nat, t: Tracker, h: Address -> nat)
    requires HandlesFit(rec, h) && k < |rec.accounts| && AnyMatched(rec.accounts[k].tracker)
    requires t.root.exhausted && Grows(rec.accounts[k].tracker.root, t.root)
    requires Inv(rec.(accounts := rec.accounts[k := rec.accounts[k].(tracker := t)]))
    ensures HandlesFit(rec.(accounts := rec.accounts[k := rec.accounts[k].(tracker := t)]), h)
    ensures AllGrow(rec.accounts, rec.accounts[k := rec.accounts[k].(tracker := t)])
  {
    hide Consistent;
    forall j | 0 <= j < |rec.accounts|
      ensures Grows(rec.accounts[j].tracker.root, rec.accounts[k := rec.accounts[k].(tracker := t)][j].tracker.root)
    {
      GrowsRefl(rec.accounts[j].tracker.root);
    }
  }

  lemma CreateKeepsHandles(rec: Manager, s: Step, fn: Function, h: Address -> nat)
    requires HandlesFit(rec, h) && Injective(h) && s.RequireAuth? && s.handle == h(s.address)
    requires rec.callStack != []
    requires forall j :: 0 <= j < |rec.accounts| && rec.accounts[j].address == s.address ==>
               !AnyMatched(rec.accounts[j].tracker)
    requires CreateRecording(rec, s, fn).Ran? && CreateRecording(rec, s, fn).granted
    requires Inv(CreateRecording(rec, s, fn).m)
    ensures HandlesFit(CreateRecording(rec, s, fn).m, h)
    ensures AllGrow(rec.accounts, CreateRecording(rec, s, fn).m.accounts)
  {
    var r := CreateRecording(rec, s, fn).m;
    assert ModeFits(rec);
    hide Inv, Consume, NewRecording, AnyMatched;
    forall j | 0 <= j < |rec.accounts| ensures Grows(rec.accounts[j].tracker.root, r.accounts[j].tracker.root) {
      GrowsRefl(rec.accounts[j].tracker.root);
    }
    assert r.accounts[|rec.accounts|].tracker.root.exhausted by {
      RecordingStartsConsistent(fn, |rec.callStack|);
    }
  }

  lemma OthersAreSilent(rec: Manager, enf: Manager, full: seq<AccountTracker>, address: Address, fn: Function, k: nat)
    requires Inv(rec) && Simulates(rec, enf, full)
    requires forall j :: 0 <= j < |rec.accounts| ==> rec.accounts[j].tracker.root.exhausted
    requires forall j :: 0 <= j < |rec.accounts| && j != k && rec.accounts[j].address == address ==>
               !AnyMatched(rec.accounts[j].tracker)
    ensures forall j, allowRoot :: 0 <= j < |rec.accounts| && j != k && rec.accounts[j].address == address ==>
              Extend(enf.accounts[j].tracker, fn, allowRoot).NoMatch?
    ensures forall j :: 0 <= j < |rec.accounts| && j != k && rec.accounts[j].address == address ==>
              !IsActive(enf.accounts[j].tracker)
  {
    forall j, allowRoot | 0 <= j < |rec.accounts| && j != k && rec.accounts[j].address == address
      ensures Extend(enf.accounts[j].tracker, fn, allowRoot).NoMatch?
    {
      assert Mirrors(rec.accounts, full, j, enf.accounts[j], enf);
      LeftTrackersAreSilent(rec.accounts[j].tracker, full[j].tracker.root, fn, allowRoot);
    }
    forall j | 0 <= j < |rec.accounts| && j != k && rec.accounts[j].address == address
      ensures !IsActive(enf.accounts[j].tracker)
    {
      assert Mirrors(rec.accounts, full, j, enf.accounts[j], enf);
      WalkNeverBreaks(rec.accounts[j].tracker);
    }
  }

  /** A recorded request succeeds when it is replayed. */
  lemma RequestReplays(rec: Manager, enf: Manager, full: seq<AccountTracker>, s: Step, fn: Function, h: Address -> nat)
    requires HandlesFit(rec, h) && Injective(h) && ReplayableStep(s, h) && s.RequireAuth?
    requires rec.callStack != [] && Inv(enf) && Simulates(rec, enf, full)
    requires RequireRecording(rec, s, fn).Ran? && RequireRecording(rec, s, fn).granted
    requires AllGrow(RequireRecording(rec, s, fn).m.accounts, full)
    requires StartsCheck(rec, RequireRecording(rec, s, fn).m) ==> CheckHarmless(rec, s)
    ensures RequireEnforcing(enf, s, fn).Ran? && RequireEnforcing(enf, s, fn).granted
    ensures Simulates(RequireRecording(rec, s, fn).m, RequireEnforcing(enf, s, fn).m, full)
  {
    var k := RecordingCases(rec, s, fn, h);
    OthersAreSilent(rec, enf, full, s.address, fn, k);
    hide RunCall, RequireEnforcing, Extend, AnyMatched, IsActive, Record, AllGrow, SelfContained, Orderly;
    if k < |rec.accounts| {
      KnownTrackerReplays(rec, enf, full, s, fn, k);
    } else {
      NewTrackerReplays(rec, enf, full, s, fn);
    }
  }

  lemma KnownTrackerReplays(rec: Manager, enf: Manager, full: seq<AccountTracker>, s: Step, fn: Function, k: nat)
    requires Inv(rec) && s.RequireAuth? && Simulates(rec, enf, full)
    requires k < |rec.accounts| && rec.accounts[k].address == s.address && AnyMatched(rec.accounts[k].tracker)
    requires !CurrentMatched(rec.accounts[k].tracker) && Record(rec.accounts[k].tracker, fn).Extended?
    requires var t := Record(rec.accounts[k].tracker, fn).t; Grows(t.root, full[k].tracker.root)
    requires forall j, allowRoot :: 0 <= j < k && rec.accounts[j].address == s.address ==>
               Extend(enf.accounts[j].tracker, fn, allowRoot).NoMatch?
    ensures var t := Record(rec.accounts[k].tracker, fn).t;
            var e := enf.accounts[k].(tracker := Shadow(t, full[k].tracker.root));
            var r := rec.(accounts := rec.accounts[k := rec.accounts[k].(tracker := t)]);
            && RequireEnforcing(enf, s, fn) == Ran(enf.(accounts := enf.accounts[k := e]), true)
            && Simulates(r, enf.(accounts := enf.accounts[k := e]), full)
  {
    var t := rec.accounts[k].tracker;
    var e := enf.accounts[k];
    assert Mirrors(rec.accounts, full, k, e, enf);
    assert e.tracker == Shadow(t, full[k].tracker.root);
    WalkNeverBreaks(t);
    assert HasActive(enf.accounts, s.address) by {
      assert IsActive(e.tracker) && !CurrentMatched(e.tracker);
    }
    ActiveTrackerAnswers(t, full[k].tracker.root, fn, false);
    forall j | 0 <= j < k
      ensures enf.accounts[j].address != s.address || Extend(enf.accounts[j].tracker, fn, false).NoMatch?
    {
      assert Mirrors(rec.accounts, full, j, enf.accounts[j], enf);
    }
    SearchReaches(enf.accounts, s.address, fn, false, k);
    ReplaceMirror(rec, enf, full, k, Record(t, fn).t);
  }

  lemma ReplaceMirror(rec: Manager, enf: Manager, full: seq<AccountTracker>, k: nat, t: Tracker)
    requires Simulates(rec, enf, full) && k < |rec.accounts| && Grows(t.root, full[k].tracker.root)
    ensures Simulates(rec.(accounts := rec.accounts[k := rec.accounts[k].(tracker := t)]),
                      enf.(accounts := enf.accounts[
                        k := enf.accounts[k].(tracker := Shadow(t, full[k].tracker.root))]), full)
  {
    var r := rec.(accounts := rec.accounts[k := rec.accounts[k].(tracker := t)]);
    var x := enf.(accounts := enf.accounts[k := enf.accounts[k].(tracker := Shadow(t, full[k].tracker.root))]);
    forall j | 0 <= j < |full| ensures Mirrors(r.accounts, full, j, x.accounts[j], x) {
      assert Mirrors(rec.accounts, full, j, enf.accounts[j], enf);
    }
  }

  /** What the enforcing manager does with a request for which recording starts a tracker: it matches the mirror of that
      tracker, and authenticates it. */
  lemma NewTrackerMatches(rec: Manager, enf: Manager, full: seq<AccountTracker>, s: Step, fn: Function)
    requires Inv(rec) && Inv(enf) && rec.mode.Recording? && s.RequireAuth?
    requires rec.callStack != [] && Simulates(rec, enf, full)
    requires CreateRecording(rec, s, fn).Ran? && CreateRecording(rec, s, fn).granted
    requires AllGrow(CreateRecording(rec, s, fn).m.accounts, full)
    requires forall j, allowRoot :: 0 <= j < |rec.accounts| && rec.accounts[j].address == s.address ==>
               Extend(enf.accounts[j].tracker, fn, allowRoot).NoMatch?
    requires forall j :: 0 <= j < |rec.accounts| && rec.accounts[j].address == s.address ==>
               !IsActive(enf.accounts[j].tracker)
    ensures var k := |rec.accounts|;
            var t := Shadow(NewRecording(fn, |rec.callStack|), full[k].tracker.root);
            var m1 := enf.(accounts := enf.accounts[k := enf.accounts[k].(tracker := t, borrowed := true)]);
            && RequireEnforcing(enf, s, fn) == Authenticate(m1, k, s) && Inv(m1)
            && m1.accounts[k].address == s.address
            && RunsCheck(m1.accounts[k]) == RunsCheck(CreateRecording(rec, s, fn).m.accounts[k])
  {
    hide Inv, Overlay, Extend, Fresh, Authenticate;
    var k := |rec.accounts|;
    var r := CreateRecording(rec, s, fn).m;
    var e := enf.accounts[k];
    assert r.accounts[k].address == full[k].address && Grows(r.accounts[k].tracker.root, full[k].tracker.root);
    forall j | 0 <= j < |enf.accounts| && enf.accounts[j].address == s.address
      ensures !IsActive(enf.accounts[j].tracker)
    {
      assert Mirrors(rec.accounts, full, j, enf.accounts[j], enf);
      assert j < k ==> enf.accounts[j].address == rec.accounts[j].address;
    }
    assert !HasActive(enf.accounts, s.address);
    assert Mirrors(rec.accounts, full, k, e, enf);
    FreshTrackerAnswers(full[k].tracker.root, fn, |rec.callStack|);
    assert forall j :: 0 <= j < k ==> enf.accounts[j].address == rec.accounts[j].address;
    SearchReaches(enf.accounts, s.address, fn, true, k);
    var a, m1, p := MatchedAccount(enf, k, fn, true);
    hide NewRecording, Shadow, Blank, FirstAccount;
    assert RequireEnforcing(enf, s, fn) == Authenticate(m1, k, s);
  }

  lemma NewTrackerReplays(rec: Manager, enf: Manager, full: seq<AccountTracker>, s: Step, fn: Function)
    requires Inv(rec) && Inv(enf) && rec.mode.Recording? && s.RequireAuth? && s.authentic
    requires rec.callStack != [] && Simulates(rec, enf, full)
    requires CreateRecording(rec, s, fn).Ran? && CreateRecording(rec, s, fn).granted
    requires AllGrow(CreateRecording(rec, s, fn).m.accounts, full)
    requires forall j, allowRoot :: 0 <= j < |rec.accounts| && rec.accounts[j].address == s.address ==>
               Extend(enf.accounts[j].tracker, fn, allowRoot).NoMatch?
    requires forall j :: 0 <= j < |rec.accounts| && rec.accounts[j].address == s.address ==>
               !IsActive(enf.accounts[j].tracker)
    requires RunsCheck(CreateRecording(rec, s, fn).m.accounts[|rec.accounts|]) ==> CheckEnds(rec, s)
    ensures RequireEnforcing(enf, s, fn).Ran? && RequireEnforcing(enf, s, fn).granted
    ensures var r := CreateRecording(rec, s, fn).m;
            Simulates(r, RequireEnforcing(enf, s, fn).m, full) <==>
            (RunsCheck(r.accounts[|rec.accounts|]) ==> NonePending(rec))
  {
    NewTrackerMatches(rec, enf, full, s, fn);
    NewTrackerVerified(rec, enf, full, s, fn);
    hide RequireEnforcing, Shadow, Overlay, Extend, Inv, NonePending, RunCall, NewRecording;
    var k := |rec.accounts|;
    var t := Shadow(NewRecording(fn, |rec.callStack|), full[k].tracker.root);
    var m1 := enf.(accounts := enf.accounts[k := enf.accounts[k].(tracker := t, borrowed := true)]);
    if RunsCheck(m1.accounts[k]) {
      EndingCheck(rec, s, m1);
      NonePendingBelow(rec);
      var left := rec.invokers[..Below(rec.invokers, |rec.callStack|)];
      FinishWithFewer(m1, k, left);
      FewerInvokers(CreateRecording(rec, s, fn).m, Finish(m1, k, true).m, full, left);
      assert RequireEnforcing(enf, s, fn) == Finish(m1.(invokers := left), k, true);
    } else {
      assert RequireEnforcing(enf, s, fn) == Finish(m1, k, true);
    }
  }

  lemma FinishWithFewer(m: Manager, k: nat, left: seq<InvokerTracker>)
    requires k < |m.accounts| && Finish(m, k, true).Ran?
    ensures Finish(m.(invokers := left), k, true).Ran?
    ensures Finish(m.(invokers := left), k, true).granted == Finish(m, k, true).granted
    ensures Finish(m.(invokers := left), k, true).m == Finish(m, k, true).m.(invokers := left)
  {
    hide CheckNonce;
  }

  lemma FewerInvokers(rec: Manager, enf: Manager, full: seq<AccountTracker>, left: seq<InvokerTracker>)
    requires Simulates(rec, enf, full)
    ensures Simulates(rec, enf.(invokers := left), full) <==> left == rec.invokers
  {
    var x := enf.(invokers := left);
    forall k | 0 <= k < |full| ensures Mirrors(rec.accounts, full, k, x.accounts[k], x) {
      assert Mirrors(rec.accounts, full, k, enf.accounts[k], enf);
    }
  }

  /** The nonce a recording drew is free when its signed entry is verified. */
  lemma NewTrackerVerified(rec: Manager, enf: Manager, full: seq<AccountTracker>, s: Step, fn: Function)
    requires rec.mode.Recording? && s.RequireAuth? && rec.callStack != [] && Simulates(rec, enf, full)
    requires CreateRecording(rec, s, fn).Ran? && CreateRecording(rec, s, fn).granted
    requires AllGrow(CreateRecording(rec, s, fn).m.accounts, full)
    ensures var k := |rec.accounts|;
            var t := Shadow(NewRecording(fn, |rec.callStack|), full[k].tracker.root);
            var m1 := enf.(accounts := enf.accounts[k := enf.accounts[k].(tracker := t, borrowed := true)]);
            && Finish(m1, k, true).Ran? && Finish(m1, k, true).granted
            && Simulates(CreateRecording(rec, s, fn).m, Finish(m1, k, true).m, full)
  {
    hide Overlay, NewRecording, Fresh;
    var k := |rec.accounts|;
    var r := CreateRecording(rec, s, fn).m;
    var e := enf.accounts[k];
    assert Mirrors(rec.accounts, full, k, e, enf);
    assert r.accounts[k].address == full[k].address && r.accounts[k].nonce == full[k].nonce;
    var m1 := enf.(accounts := enf.accounts[
      k := e.(tracker := Shadow(NewRecording(fn, |rec.callStack|), full[k].tracker.root), borrowed := true)]);
    assert CheckNonce(m1.ledger, m1.accounts[k].(borrowed := false)).NonceOk?;
    var x := Finish(m1, k, true).m;
    forall j | 0 <= j < |full| ensures Mirrors(r.accounts, full, j, x.accounts[j], x) {
      assert Mirrors(rec.accounts, full, j, enf.accounts[j], enf);
    }
  }

  lemma FreshTrackerAnswers(full: Invocation, fn: Function, depth: nat)
    requires depth > 0 && full.fn == fn
    ensures Extend(Tracker(Fresh(full), Blank(depth), None, false), fn, true)
         == Extended(Shadow(NewRecording(fn, depth), full))
  {
    WalkBlank(Fresh(full), Blank(depth));
    assert SetTop(Blank(depth), RootMatch) == NewRecording(fn, depth).stack;
    assert Overlay(Invocation(fn, [], true), full).subs == Fresh(full).subs;
  }

  // ---------- whole runs ----------

  lemma PushKeepsHandles(rec: Manager, f: Frame, h: Address -> nat)
    requires HandlesFit(rec, h)
    ensures HandlesFit(PushFrame(rec, f), h) && AllGrow(rec.accounts, PushFrame(rec, f).accounts)
  {
    var r := PushFrame(rec, f);
    PushKeeps(rec, f);
    AllGrowSame(rec.accounts, r.accounts);
    forall k | 0 <= k < |rec.accounts| && AnyMatched(r.accounts[k].tracker)
      ensures AnyMatched(rec.accounts[k].tracker)
    {
      var s := rec.accounts[k].tracker.stack;
      var i :| 0 <= i < |s| + 1 && r.accounts[k].tracker.stack[i] != Unmatched;
      assert s[i] != Unmatched;
    }
  }

  lemma PushReplays(rec: Manager, enf: Manager, full: seq<AccountTracker>, f: Frame)
    requires rec.mode.Recording? && Inv(rec) && Simulates(rec, enf, full)
    ensures Simulates(PushFrame(rec, f), PushFrame(enf, f), full)
  {
    var r, x := PushFrame(rec, f), PushFrame(enf, f);
    forall k | 0 <= k < |full| ensures Mirrors(r.accounts, full, k, x.accounts[k], x) {
      assert Mirrors(rec.accounts, full, k, enf.accounts[k], enf);
      assert Blank(|rec.callStack|) + [Unmatched] == Blank(|rec.callStack| + 1);
    }
  }

  lemma PopKeepsHandles(rec: Manager, h: Address -> nat)
    requires HandlesFit(rec, h) && rec.callStack != []
    ensures HandlesFit(PopTop(rec), h) && AllGrow(rec.accounts, PopTop(rec).accounts)
  {
    var r := PopTop(rec);
    PopTopKeeps(rec);
    AllGrowSame(rec.accounts, r.accounts);
    forall k | 0 <= k < |rec.accounts| && AnyMatched(r.accounts[k].tracker)
      ensures AnyMatched(rec.accounts[k].tracker)
    {
      var i :| 0 <= i < |r.accounts[k].tracker.stack| && r.accounts[k].tracker.stack[i] != Unmatched;
      assert rec.accounts[k].tracker.stack[i] != Unmatched;
    }
  }

  lemma PopReplays(rec: Manager, enf: Manager, full: seq<AccountTracker>)
    requires rec.mode.Recording? && Inv(rec) && Simulates(rec, enf, full)
    requires rec.callStack != [] && AllGrow(PopTop(rec).accounts, full)
    ensures Simulates(PopTop(rec), PopTop(enf), full)
  {
    var r, x := PopTop(rec), PopTop(enf);
    forall k | 0 <= k < |full| ensures Mirrors(r.accounts, full, k, x.accounts[k], x) {
      var e := enf.accounts[k];
      assert Mirrors(rec.accounts, full, k, e, enf);
      assert x.accounts[k] == PopAccount(e);
      if k < |rec.accounts| {
        assert r.accounts[k] == PopAccount(rec.accounts[k]);
        assert Pop(e.tracker) == Shadow(Pop(rec.accounts[k].tracker), full[k].tracker.root);
      } else {
        assert Blank(|rec.callStack|)[..|rec.callStack| - 1] == Blank(|rec.callStack| - 1);
      }
    }
  }

  /** A failing call that ends leaves of its frame only that it took place. */
  lemma FailingCall(m: Manager, f: Frame, body: seq<Step>)
    requires Inv(m) && RunCall(m, f, body, true).Ran?
    ensures RunCall(m, f, body, true).m == PopTop(PushFrame(m, f))
  {
    PushKeeps(m, f);
    RunKeeps(PushFrame(m, f), body);
    FailureUndoes(m, f, Run(PushFrame(m, f), body).m);
  }

  /** Recording only adds: nothing recorded outside failing calls is lost. */
  lemma StepRecords(rec: Manager, s: Step, h: Address -> nat)
    requires HandlesFit(rec, h) && Injective(h) && ReplayableStep(s, h) && GrantedStep(rec, s)
    ensures HandlesFit(RunStep(rec, s).m, h) && AllGrow(rec.accounts, RunStep(rec, s).m.accounts)
    decreases s, 1
  {
    match s
    case AuthorizeAsCurrent(entries) => AuthorizeRecords(rec, entries, h);
    case RequireAuth(_, _, _, _, _, _) => RequestRecords(rec, s, h);
    case Call(f, body, fails) =>
      hide HandlesFit, AllGrow, Run, PushFrame, PopTop;
      if fails {
        FailingCallRecords(rec, f, body, h);
      } else {
        CallRecords(rec, f, body, h);
        CallRuns(rec, f, body);
      }
  }

  lemma AuthorizeRecords(rec: Manager, entries: seq<Invocation>, h: Address -> nat)
    requires HandlesFit(rec, h) && Authorize(rec, entries).Ran?
    ensures HandlesFit(Authorize(rec, entries).m, h) && AllGrow(rec.accounts, Authorize(rec, entries).m.accounts)
  {
    AuthorizeKeeps(rec, entries);
    AllGrowSame(rec.accounts, rec.accounts);
    hide Inv, InFrame, AnyMatched, AllGrow;
  }

  lemma RequestRecords(rec: Manager, s: Step, h: Address -> nat)
    requires HandlesFit(rec, h) && Injective(h) && s.RequireAuth? && s.handle == h(s.address)
    requires Require(rec, s).Ran? && Require(rec, s).granted
    ensures HandlesFit(Require(rec, s).m, h) && AllGrow(rec.accounts, Require(rec, s).m.accounts)
  {
    var fn := ToFunction(rec.callStack[|rec.callStack| - 1], s.args);
    CheckInvokersKeeps(rec, s.address, fn);
    hide Inv, InFrame, AnyMatched, RequireRecording, AllGrow;
    if CheckInvokers(rec, s.address, fn).NotFound? {
      RequestKeepsHandles(rec, s, fn, h);
    } else {
      AllGrowSame(rec.accounts, rec.accounts);
    }
  }

  lemma FailingCallRecords(rec: Manager, f: Frame, body: seq<Step>, h: Address -> nat)
    requires HandlesFit(rec, h) && RunCall(rec, f, body, true).Ran?
    ensures var r := RunCall(rec, f, body, true).m;
            HandlesFit(r, h) && AllGrow(rec.accounts, r.accounts) && |r.accounts| == |rec.accounts|
  {
    var m1 := PushFrame(rec, f);
    PushKeepsHandles(rec, f, h);
    FailingCall(rec, f, body);
    PopKeepsHandles(m1, h);
    AllGrowTrans(rec.accounts, m1.accounts, PopTop(m1).accounts);
  }

  lemma CallRecords(rec: Manager, f: Frame, body: seq<Step>, h: Address -> nat)
    requires HandlesFit(rec, h) && Injective(h) && Replayable(body, h) && GrantedOutside(PushFrame(rec, f), body)
    ensures Run(PushFrame(rec, f), body).Ran?
    ensures var m2 := Run(PushFrame(rec, f), body).m;
            m2.callStack != [] && HandlesFit(m2, h) && HandlesFit(PopTop(m2), h)
            && AllGrow(rec.accounts, PopTop(m2).accounts) && AllGrow(m2.accounts, PopTop(m2).accounts)
    decreases body, 1
  {
    var m1 := PushFrame(rec, f);
    PushKeepsHandles(rec, f, h);
    RunRecords(m1, body, h);
    RunKeeps(m1, body);
    var m2 := Run(m1, body).m;
    PopKeepsHandles(m2, h);
    AllGrowTrans(rec.accounts, m1.accounts, m2.accounts);
    AllGrowTrans(rec.accounts, m2.accounts, PopTop(m2).accounts);
  }

  lemma RunRecords(rec: Manager, ss: seq<Step>, h: Address -> nat)
    requires HandlesFit(rec, h) && Injective(h) && Replayable(ss, h) && GrantedOutside(rec, ss)
    ensures Run(rec, ss).Ran?
    ensures HandlesFit(Run(rec, ss).m, h) && AllGrow(rec.accounts, Run(rec, ss).m.accounts)
    decreases ss, 0
  {
    if ss == [] {
      AllGrowSame(rec.accounts, rec.accounts);
    } else {
      var m1 := RunStep(rec, ss[0]).m;
      StepRecords(rec, ss[0], h);
      RunRecords(m1, ss[1..], h);
      AllGrowTrans(rec.accounts, m1.accounts, Run(rec, ss).m.accounts);
    }
  }

  lemma StepReplays(rec: Manager, enf: Manager, full: seq<AccountTracker>, s: Step, h: Address -> nat)
    requires HandlesFit(rec, h) && Injective(h) && ReplayableStep(s, h) && Inv(enf) && Simulates(rec, enf, full)
    requires GrantedStep(rec, s) && HarmlessStep(rec, s) && AllGrow(RunStep(rec, s).m.accounts, full)
    ensures GrantedStep(enf, s) && Inv(RunStep(enf, s).m)
    ensures Simulates(RunStep(rec, s).m, RunStep(enf, s).m, full)
    decreases s, 1
  {
    StepKeeps(enf, s);
    hide Require, Authorize, RunCall, HandlesFit, Simulates, Inv, AllGrow, InFrame, CheckHarmless, StartsCheck;
    match s
    case AuthorizeAsCurrent(entries) => AuthorizeReplays(rec, enf, full, entries);
    case RequireAuth(_, _, _, _, _, _) => RequireReplays(rec, enf, full, s, h);
    case Call(f, body, fails) =>
      if fails {
        FailingCallReplays(rec, enf, full, f, body, h);
      } else {
        CallReplays(rec, enf, full, f, body, h);
        CallRuns(rec, f, body);
        CallRuns(enf, f, body);
      }
  }

  lemma CallRuns(m: Manager, f: Frame, body: seq<Step>)
    requires Run(PushFrame(m, f), body).Ran?
    ensures RunCall(m, f, body, false).Ran?
    ensures RunCall(m, f, body, false).m == PopTop(Run(PushFrame(m, f), body).m)
  {
    hide Run, PushFrame, PopTop;
  }

  lemma AuthorizeReplays(rec: Manager, enf: Manager, full: seq<AccountTracker>, entries: seq<Invocation>)
    requires Simulates(rec, enf, full) && Authorize(rec, entries).Ran?
    ensures Authorize(enf, entries).Ran? && Simulates(Authorize(rec, entries).m, Authorize(enf, entries).m, full)
  {}

  lemma RequireReplays(rec: Manager, enf: Manager, full: seq<AccountTracker>, s: Step, h: Address -> nat)
    requires HandlesFit(rec, h) && Injective(h) && s.RequireAuth? && ReplayableStep(s, h)
    requires Inv(enf) && Simulates(rec, enf, full)
    requires Require(rec, s).Ran? && StartsCheck(rec, Require(rec, s).m) ==> CheckHarmless(rec, s)
    requires Require(rec, s).Ran? && Require(rec, s).granted && AllGrow(Require(rec, s).m.accounts, full)
    ensures Require(enf, s).Ran? && Require(enf, s).granted
    ensures Simulates(Require(rec, s).m, Require(enf, s).m, full)
  {
    hide RequireEnforcing, RequireRecording, Inv, CheckHarmless;
    var fn := ToFunction(rec.callStack[|rec.callStack| - 1], s.args);
    if CheckInvokers(rec, s.address, fn).NotFound? {
      RequestReplays(rec, enf, full, s, fn, h);
    }
  }

  lemma FailingCallReplays(rec: Manager, enf: Manager, full: seq<AccountTracker>, f: Frame, body: seq<Step>,
                           h: Address -> nat)
    requires HandlesFit(rec, h) && Orderly(PushFrame(rec, f), body) && Inv(enf) && Simulates(rec, enf, full)
    requires RunCall(rec, f, body, true).Ran?
    ensures RunCall(enf, f, body, true).Ran?
    ensures Simulates(RunCall(rec, f, body, true).m, RunCall(enf, f, body, true).m, full)
  {
    CallLockstep(rec, enf, f, body, true);
    FailingCall(rec, f, body);
    FailingCall(enf, f, body);
    FailingCallRecords(rec, f, body, h);
    PushKeepsHandles(rec, f, h);
    PushReplays(rec, enf, full, f);
    hide PushFrame, PopTop, RunCall, HandlesFit;
    assert AllGrow(PopTop(PushFrame(rec, f)).accounts, full) by {
      StillGrows(rec, f, full);
    }
    assert PushFrame(rec, f).callStack != [] && PushFrame(rec, f).mode.Recording? by { StillGrows(rec, f, full); }
    assert Inv(PushFrame(rec, f)) by { PushKeeps(rec, f); }
    PopReplays(PushFrame(rec, f), PushFrame(enf, f), full);
  }

  lemma StillGrows(rec: Manager, f: Frame, full: seq<AccountTracker>)
    requires AllGrow(rec.accounts, full)
    ensures AllGrow(PopTop(PushFrame(rec, f)).accounts, full)
    ensures PushFrame(rec, f).callStack != [] && PushFrame(rec, f).mode == rec.mode
  {
    hide Grows;
  }

  lemma CallReplays(rec: Manager, enf: Manager, full: seq<AccountTracker>, f: Frame, body: seq<Step>, h: Address -> nat)
    requires HandlesFit(rec, h) && Injective(h) && Replayable(body, h) && Inv(enf) && Simulates(rec, enf, full)
    requires GrantedOutside(PushFrame(rec, f), body) && Harmless(PushFrame(rec, f), body)
    requires Run(PushFrame(rec, f), body).Ran?
    requires AllGrow(PopTop(Run(PushFrame(rec, f), body).m).accounts, full)
    ensures GrantedOutside(PushFrame(enf, f), body) && Run(PushFrame(enf, f), body).Ran?
    ensures Simulates(PopTop(Run(PushFrame(rec, f), body).m), PopTop(Run(PushFrame(enf, f), body).m), full)
    decreases body, 1
  {
    var m1 := PushFrame(rec, f);
    var m2 := Run(m1, body).m;
    PushKeeps(enf, f);
    PushKeepsHandles(rec, f, h);
    PushReplays(rec, enf, full, f);
    CallRecords(rec, f, body, h);
    AllGrowTrans(m2.accounts, PopTop(m2).accounts, full);
    RunReplays(m1, PushFrame(enf, f), full, body, h);
    PopReplays(m2, Run(PushFrame(enf, f), body).m, full);
  }

  lemma RunReplays(rec: Manager, enf: Manager, full: seq<AccountTracker>, ss: seq<Step>, h: Address -> nat)
    requires HandlesFit(rec, h) && Injective(h) && Replayable(ss, h) && Inv(enf) && Simulates(rec, enf, full)
    requires GrantedOutside(rec, ss) && Harmless(rec, ss)
    requires Run(rec, ss).Ran? && AllGrow(Run(rec, ss).m.accounts, full)
    ensures GrantedOutside(enf, ss) && Run(enf, ss).Ran?
    ensures Simulates(Run(rec, ss).m, Run(enf, ss).m, full)
    decreases ss, 0
  {
    if ss != [] {
      var m1 := RunStep(rec, ss[0]).m;
      StepRecords(rec, ss[0], h);
      RunRecords(m1, ss[1..], h);
      AllGrowTrans(m1.accounts, Run(rec, ss).m.accounts, full);
      StepReplays(rec, enf, full, ss[0], h);
      RunReplays(m1, RunStep(enf, ss[0]).m, full, ss[1..], h);
    }
  }

  // ---------- the nonces that a recording draws ----------

  /** What `b` recorded after `a` uses nonces that were not live in `a`. */
  ghost predicate DrawnFree(a: Manager, b: Manager) {
    forall k :: |a.accounts| <= k < |b.accounts| && !b.accounts[k].isSource ==> KeyOf(b.accounts[k]) !in a.ledger.live
  }

  lemma RequestDraws(rec: Manager, s: Step, h: Address -> nat)
    requires HandlesFit(rec, h) && Injective(h) && s.RequireAuth? && s.handle == h(s.address) && GrantedStep(rec, s)
    ensures DrawnFree(rec, RunStep(rec, s).m)
  {
    hide Inv, Record, AnyMatched, RequireRecording, RequireEnforcing;
    var fn := ToFunction(rec.callStack[|rec.callStack| - 1], s.args);
    if CheckInvokers(rec, s.address, fn).NotFound? {
      assert RunStep(rec, s) == Require(rec, s) == RequireRecording(rec, s, fn);
      var k := RecordingCases(rec, s, fn, h);
    }
  }

  lemma StepDraws(rec: Manager, s: Step, h: Address -> nat)
    requires HandlesFit(rec, h) && Injective(h) && ReplayableStep(s, h) && GrantedStep(rec, s)
    ensures DrawnFree(rec, RunStep(rec, s).m)
    decreases s, 1
  {
    match s
    case AuthorizeAsCurrent(_) =>
    case RequireAuth(_, _, _, _, _, _) => RequestDraws(rec, s, h);
    case Call(f, body, fails) =>
      if fails {
        FailingCallRecords(rec, f, body, h);
      } else {
        PushKeepsHandles(rec, f, h);
        RunDraws(PushFrame(rec, f), body, h);
        CallRecords(rec, f, body, h);
        hide Run, HandlesFit;
        assert |PushFrame(rec, f).accounts| == |rec.accounts| && PushFrame(rec, f).ledger == rec.ledger;
      }
  }

  lemma RunDraws(rec: Manager, ss: seq<Step>, h: Address -> nat)
    requires HandlesFit(rec, h) && Injective(h) && Replayable(ss, h) && GrantedOutside(rec, ss)
    ensures Run(rec, ss).Ran? && DrawnFree(rec, Run(rec, ss).m)
    decreases ss, 0
  {
    if ss != [] {
      var m1 := RunStep(rec, ss[0]).m;
      StepRecords(rec, ss[0], h);
      StepKeeps(rec, ss[0]);
      StepDraws(rec, ss[0], h);
      RunDraws(m1, ss[1..], h);
      RunRecords(m1, ss[1..], h);
    }
  }

  /** The recorded payload of a tracker as a signed entry with an expiration of the signer's choice. */
  function LoadEntry(a: AccountTracker, expiration: nat): AccountTracker {
    AccountTracker(a.address, NewTracker(Fresh(a.tracker.root)), a.isSource, false,
                   if a.nonce.None? then None else Some(SignedNonce(a.nonce.value.value, expiration)), false)
  }

  function Load(accounts: seq<AccountTracker>, expiration: nat, l: Ledger): Manager {
    Manager(Enforcing, [], seq(|accounts|, i requires 0 <= i < |accounts| => LoadEntry(accounts[i], expiration)), [], l)
  }

  /** A ledger on which the recorded entries can be used: it knows none of their nonces, and they have not expired. */
  ghost predicate Usable(accounts: seq<AccountTracker>, expiration: nat, l: Ledger) {
    && (forall k :: 0 <= k < |accounts| && !accounts[k].isSource ==> KeyOf(accounts[k]) !in l.live)
    && LastLedger(l.seqNum, l.minTempTtl).Some? && LastLedger(l.seqNum, l.maxTtl).Some?
    && l.seqNum <= expiration <= LastLedger(l.seqNum, l.maxTtl).value
  }

  /** What was recorded suffices. Take any run recorded with every request outside failing calls granted, in which
      the code that accounts run to authenticate is harmless. Then the recorded trees, signed and submitted on any
      ledger on which they are usable, grant every request outside failing calls of the same run; after it every
      node of every tree has been used. The ledger of the recording, for one, knows none of the nonces. */
  lemma RecordedAuthorizationSuffices(rec: Manager, ss: seq<Step>, h: Address -> nat, expiration: nat, l: Ledger)
    requires Created(rec) && rec.mode.Recording? && Injective(h) && Replayable(ss, h)
    requires GrantedOutside(rec, ss) && Harmless(rec, ss)
    ensures Run(rec, ss).Ran? && DrawnFree(rec, Run(rec, ss).m)
    ensures var full := Run(rec, ss).m.accounts;
            var enf := Load(full, expiration, l);
            Usable(full, expiration, l) ==>
              && GrantedOutside(enf, ss) && Run(enf, ss).Ran? && |Run(enf, ss).m.accounts| == |full|
              && forall k :: 0 <= k < |full| ==>
                   && SameTree(Run(enf, ss).m.accounts[k].tracker.root, full[k].tracker.root)
                   && AllUsed(Run(enf, ss).m.accounts[k].tracker.root) && Run(enf, ss).m.accounts[k].verified
  {
    CreatedFits(rec);
    RunRecords(rec, ss, h);
    RunDraws(rec, ss, h);
    var full := Run(rec, ss).m.accounts;
    if Usable(full, expiration, l) {
      var enf := Load(full, expiration, l);
      LoadSimulates(rec, Run(rec, ss).m, h, expiration, l);
      AllGrowSame(full, full);
      RunReplays(rec, enf, full, ss, h);
      forall k | 0 <= k < |full|
        ensures SameTree(Run(enf, ss).m.accounts[k].tracker.root, full[k].tracker.root)
        ensures AllUsed(Run(enf, ss).m.accounts[k].tracker.root) && Run(enf, ss).m.accounts[k].verified
      {
        assert Mirrors(full, full, k, Run(enf, ss).m.accounts[k], Run(enf, ss).m);
        OverlayWhole(full[k].tracker.root);
      }
    }
  }

  lemma LoadSimulates(rec: Manager, end: Manager, h: Address -> nat, expiration: nat, l: Ledger)
    requires Created(rec) && rec.mode.Recording? && HandlesFit(end, h) && Usable(end.accounts, expiration, l)
    ensures Inv(Load(end.accounts, expiration, l)) && Simulates(rec, Load(end.accounts, expiration, l), end.accounts)
  {
    var full := end.accounts;
    var enf := Load(full, expiration, l);
    forall k | 0 <= k < |full| ensures AccountFits(full[k], |end.callStack|) {}
    forall k | 0 <= k < |full| ensures Mirrors(rec.accounts, full, k, enf.accounts[k], enf) {
      assert Blank(0) == [];
    }
    assert Created(enf) by {
      forall k | 0 <= k < |full|
        ensures enf.accounts[k].tracker == NewTracker(Fresh(enf.accounts[k].tracker.root))
      {
        FreshTwice(full[k].tracker.root);
      }
    }
    CreatedFits(enf);
  }

  lemma {:induction false} FreshTwice(t: Invocation)
    ensures Fresh(Fresh(t)) == Fresh(t)
    decreases t
  {
    forall i | 0 <= i < |t.subs| ensures Fresh(Fresh(t)).subs[i] == Fresh(t).subs[i] {
      FreshTwice(t.subs[i]);
    }
    assert Fresh(Fresh(t)).subs == Fresh(t).subs;
  }

  // ---------- why requests in a failing call do not count ----------

  /** A failed call takes what it recorded with it, so the replay denies what was granted inside it. */
  lemma FailedCallsAreNotRecorded(rec: Manager, f: Frame, s: Step, expiration: nat)
    requires Created(rec) && rec.mode.Recording? && rec.accounts == [] && rec.callStack == [] && s.RequireAuth?
    requires Run(rec, [Call(f, [s], true)]).Ran? && Run(rec, [Call(f, [s], true)]).granted
    ensures var full := Run(rec, [Call(f, [s], true)]).m.accounts;
            full == [] && Run(Load(full, expiration, rec.ledger), [Call(f, [s], true)]).Ran?
            && !Run(Load(full, expiration, rec.ledger), [Call(f, [s], true)]).granted
  {
    RunOne(rec, Call(f, [s], true));
    FailedCallIsUndone(rec, [], rec, f, [s]);
    var full := Run(rec, [Call(f, [s], true)]).m.accounts;
    var enf := Load(full, expiration, rec.ledger);
    var inside := PushFrame(enf, f);
    assert inside.accounts == [] && inside.invokers == [] && |inside.callStack| == 1;
    assert CheckInvokers(inside, s.address, ToFunction(f, s.args)) == NotFound;
    assert RequireEnforcing(inside, s, ToFunction(f, s.args)) == Ran(inside, false);
    RunOne(inside, s);
    FailedCallIsUndone(enf, [], enf, f, [s]);
    RunOne(enf, Call(f, [s], true));
  }

  lemma RunOne(m: Manager, s: Step)
    ensures Run(m, [s]) == RunStep(m, s)
  {
    assert [s][1..] == [];
    if RunStep(m, s).Ran? {
      assert Run(RunStep(m, s).m, []) == Ran(RunStep(m, s).m, true);
    }
  }
}
