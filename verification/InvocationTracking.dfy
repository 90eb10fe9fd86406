/** Matching one tree of authorized invocations against the live call stack. */
module InvocationTracking {
  import opened Basics
  import opened InvocationTree

  datatype MatchState = Unmatched | RootMatch | SubMatch(indexInParent: nat)

  /** The fields of an invocation tracker. `stack` has one entry per frame of the call stack. */
  datatype Tracker = Tracker(
    root: Invocation,
    stack: seq<MatchState>,
    rootFrame: Option<nat>,
    processed: bool)

  function NewTracker(root: Invocation): Tracker {
    Tracker(root, [], None, false)
  }

  function NewRecording(fn: Function, depth: nat): Tracker
    requires depth > 0
  {
    Tracker(Invocation(fn, [], true), Blank(depth - 1) + [RootMatch], Some(depth - 1), false)
  }

  function Blank(n: nat): seq<MatchState> {
    seq(n, _ => Unmatched)
  }

  predicate IsActive(t: Tracker) {
    t.root.exhausted && !t.processed
  }

  predicate CurrentMatched(t: Tracker) {
    t.stack != [] && t.stack[|t.stack| - 1] != Unmatched
  }

  predicate AnyMatched(t: Tracker) {
    exists i :: 0 <= i < |t.stack| && t.stack[i] != Unmatched
  }

  function Push(t: Tracker): Tracker {
    t.(stack := t.stack + [Unmatched])
  }

  function Pop(t: Tracker): Tracker {
    var s := if t.stack == [] then [] else t.stack[..|t.stack| - 1];
    t.(stack := s, processed := t.processed || (t.rootFrame.Some? && t.rootFrame.value >= |s|))
  }

  function RollBack(t: Tracker, s: Snapshot): Option<Tracker> {
    var r := Restore(t.root, s);
    if r.None? then None
    else if !r.value.exhausted then Some(t.(root := r.value, rootFrame := None, processed := false))
    else Some(t.(root := r.value))
  }

  // ---------- the walk to the last matched node ----------

  datatype Walk = NoRoot | Found(path: seq<nat>) | Broken

  /** Looks for the root match; meeting a sub-match first is an internal error. */
  function WalkStack(root: Invocation, s: seq<MatchState>): Walk {
    if s == [] then NoRoot
    else match s[0]
         case RootMatch => WalkTree(root, s[1..])
         case SubMatch(_) => Broken
         case Unmatched => WalkStack(root, s[1..])
  }

  /** Descends by the sub-matches; a second root match or a bad index is an internal error. */
  function WalkTree(node: Invocation, s: seq<MatchState>): Walk {
    if s == [] then Found([])
    else match s[0]
         case RootMatch => Broken
         case Unmatched => WalkTree(node, s[1..])
         case SubMatch(k) =>
           if k >= |node.subs| then Broken
           else match WalkTree(node.subs[k], s[1..])
                case Found(p) => Found([k] + p)
                case _ => Broken
  }

  // ---------- matching ----------

  datatype Extension = NoMatch | Extended(t: Tracker) | Failed

  /** The first unused child for `fn` from `i` on, or the number of children. */
  function FirstUnused(ts: seq<Invocation>, fn: Function, i: nat): (r: nat)
    requires i <= |ts|
    ensures i <= r <= |ts|
    ensures r < |ts| ==> !ts[r].exhausted && ts[r].fn == fn
    ensures forall j :: i <= j < r ==> ts[j].exhausted || ts[j].fn != fn
    decreases |ts| - i
  {
    if i == |ts| || (!ts[i].exhausted && ts[i].fn == fn) then i else FirstUnused(ts, fn, i + 1)
  }

  function SetTop(s: seq<MatchState>, m: MatchState): seq<MatchState>
    requires s != []
  {
    s[|s| - 1 := m]
  }

  /** Extends the match by the frame on top. On an empty match stack a root match fails: the frame
      index `len - 1` does not exist. */
  function Extend(t: Tracker, fn: Function, allowRoot: bool): Extension {
    if CurrentMatched(t) then NoMatch
    else match WalkStack(t.root, t.stack)
         case Broken => Failed
         case NoRoot =>
           if t.root.exhausted || !allowRoot || t.root.fn != fn then NoMatch
           else if t.stack == [] then Failed
           else Extended(Tracker(t.root.(exhausted := true), SetTop(t.stack, RootMatch),
                                 Some(|t.stack| - 1), t.processed))
         case Found(p) =>
           if !ValidPath(t.root, p) || t.stack == [] then Failed
           else
             var k := FirstUnused(At(t.root, p).subs, fn, 0);
             if k == |At(t.root, p).subs| then NoMatch
             else
               var child := At(t.root, p).subs[k].(exhausted := true);
               Extended(t.(root := Put(t.root, p, At(t.root, p).(subs := At(t.root, p).subs[k := child])),
                           stack := SetTop(t.stack, SubMatch(k))))
  }

  /** Recording: appends a used child to the last matched node. */
  function Record(t: Tracker, fn: Function): Extension {
    if CurrentMatched(t) then NoMatch
    else match WalkStack(t.root, t.stack)
         case Found(p) =>
           if !ValidPath(t.root, p) || t.stack == [] then Failed
           else
             var n := At(t.root, p);
             Extended(t.(root := Put(t.root, p, n.(subs := n.subs + [Invocation(fn, [], true)])),
                         stack := SetTop(t.stack, SubMatch(|n.subs|))))
         case _ => Failed
  }

  // ---------- the invariant ----------

  predicate AllUnmatched(s: seq<MatchState>) {
    forall i :: 0 <= i < |s| ==> s[i] == Unmatched
  }

  /** The child indices along a match stack. */
  function SubPath(s: seq<MatchState>): seq<nat> {
    if s == [] then []
    else
      var p := SubPath(s[..|s| - 1]);
      match s[|s| - 1]
      case SubMatch(k) => p + [k]
      case _ => p
  }

  /** One root match, nothing before it, no second one after it, and the sub-matches after it spell a
      path of used nodes. */
  ghost predicate Embedded(t: Tracker) {
    && t.rootFrame.Some? && t.rootFrame.value < |t.stack|
    && t.stack[t.rootFrame.value] == RootMatch
    && (forall i :: 0 <= i < t.rootFrame.value ==> t.stack[i] == Unmatched)
    && (forall i :: t.rootFrame.value < i < |t.stack| ==> t.stack[i] != RootMatch)
    && Spent(t.root, SubPath(t.stack))
  }

  ghost predicate Consistent(t: Tracker) {
    && Closed(t.root)
    && (t.root.exhausted <==> t.rootFrame.Some?)
    && (t.processed ==> t.root.exhausted)
    && (if IsActive(t) then Embedded(t) else AllUnmatched(t.stack))
  }

  lemma {:induction false} SubPathCons(m: MatchState, s: seq<MatchState>)
    ensures SubPath([m] + s) == (if m.SubMatch? then [m.indexInParent] else []) + SubPath(s)
    decreases |s|
  {
    if s == [] {
      assert ([m] + s)[..0] == [];
      assert [m] + s == [m];
    } else {
      assert ([m] + s)[..|s|] == [m] + s[..|s| - 1];
      SubPathCons(m, s[..|s| - 1]);
    }
  }

  lemma {:induction false} WalkTreeFinds(node: Invocation, s: seq<MatchState>)
    requires forall i :: 0 <= i < |s| ==> s[i] != RootMatch
    requires ValidPath(node, SubPath(s))
    ensures WalkTree(node, s) == Found(SubPath(s))
    decreases |s|
  {
    if s != [] {
      assert s == [s[0]] + s[1..];
      SubPathCons(s[0], s[1..]);
      if s[0].SubMatch? {
        assert SubPath(s)[1..] == SubPath(s[1..]);
        WalkTreeFinds(node.subs[s[0].indexInParent], s[1..]);
      } else {
        assert SubPath(s) == SubPath(s[1..]);
        WalkTreeFinds(node, s[1..]);
      }
    }
  }

  lemma {:induction false} WalkBlank(root: Invocation, s: seq<MatchState>)
    requires AllUnmatched(s)
    ensures WalkStack(root, s) == NoRoot && SubPath(s) == []
    decreases |s|
  {
    if s != [] {
      assert s == [s[0]] + s[1..];
      SubPathCons(s[0], s[1..]);
      WalkBlank(root, s[1..]);
    }
  }

  lemma {:induction false} WalkFinds(root: Invocation, s: seq<MatchState>, r: nat)
    requires r < |s| && s[r] == RootMatch
    requires forall i :: 0 <= i < r ==> s[i] == Unmatched
    requires forall i :: r < i < |s| ==> s[i] != RootMatch
    requires ValidPath(root, SubPath(s))
    ensures WalkStack(root, s) == Found(SubPath(s))
    decreases r
  {
    assert s == [s[0]] + s[1..];
    SubPathCons(s[0], s[1..]);
    assert SubPath(s) == SubPath(s[1..]);
    if r == 0 {
      WalkTreeFinds(root, s[1..]);
    } else {
      WalkFinds(root, s[1..], r - 1);
    }
  }

  /** The walk of a consistent tracker never meets an internal error: it finds the root match exactly
      when the tracker is active, and then the path of its sub-matches, all of them used nodes. */
  lemma WalkNeverBreaks(t: Tracker)
    requires Consistent(t)
    ensures WalkStack(t.root, t.stack) == if IsActive(t) then Found(SubPath(t.stack)) else NoRoot
    ensures IsActive(t) ==> ValidPath(t.root, SubPath(t.stack)) && At(t.root, SubPath(t.stack)).exhausted
    ensures IsActive(t) <==> RootMatch in t.stack
    ensures IsActive(t) <==> AnyMatched(t)
  {
    if IsActive(t) {
      SpentPath(t.root, SubPath(t.stack));
      WalkFinds(t.root, t.stack, t.rootFrame.value);
      assert t.stack[t.rootFrame.value] != Unmatched;
    } else {
      WalkBlank(t.root, t.stack);
    }
  }

  // ---------- what each operation keeps ----------

  lemma PushConsistent(t: Tracker)
    requires Consistent(t)
    ensures Consistent(Push(t))
  {
    assert Push(t).stack[..|t.stack|] == t.stack;
  }

  lemma PopConsistent(t: Tracker)
    requires Consistent(t)
    ensures Consistent(Pop(t))
  {
    if IsActive(t) {
      var n := |t.stack| - 1;
      assert Pop(t).stack == t.stack[..n];
      if IsActive(Pop(t)) {
        if t.stack[n].SubMatch? {
          SpentPrefix(t.root, SubPath(t.stack[..n]), t.stack[n].indexInParent);
        }
      }
    }
  }

  lemma PopUndoesPush(t: Tracker)
    requires Consistent(t)
    ensures Pop(Push(t)) == t
  {
    assert (t.stack + [Unmatched])[..|t.stack|] == t.stack;
  }

  /** The path of the match after its top entry changes. */
  lemma SubPathTop(s: seq<MatchState>, m: MatchState)
    requires s != [] && s[|s| - 1] == Unmatched
    ensures SubPath(SetTop(s, m)) == SubPath(s) + (if m.SubMatch? then [m.indexInParent] else [])
  {
    assert SetTop(s, m)[..|s| - 1] == s[..|s| - 1];
  }

  /** Two trackers that a frame can turn into one another: the frames below keep their matches, the
      tree keeps its functions, and a tree already begun stays begun where it was. */
  ghost predicate Evolved(a: Tracker, b: Tracker) {
    && SameTree(a.root, b.root)
    && |a.stack| == |b.stack|
    && (forall i :: 0 <= i < |a.stack| - 1 ==> a.stack[i] == b.stack[i])
    && (a.root.exhausted ==> b.root.exhausted && b.rootFrame == a.rootFrame && b.processed == a.processed)
  }

  /** `u` is `t` with the one unused node at `p`, a node for `fn`, now used. */
  ghost predicate UsesOne(t: Invocation, u: Invocation, p: seq<nat>, fn: Function) {
    ValidPath(t, p) && !At(t, p).exhausted && At(t, p).fn == fn && u == Exhaust(t, p)
  }

  lemma {:induction false} PutChild(t: Invocation, p: seq<nat>, k: nat)
    requires ValidPath(t, p) && k < |At(t, p).subs|
    ensures ValidPath(t, p + [k]) && At(t, p + [k]) == At(t, p).subs[k]
    ensures Put(t, p, At(t, p).(subs := At(t, p).subs[k := At(t, p).subs[k].(exhausted := true)]))
         == Exhaust(t, p + [k])
    decreases |p|
  {
    var q := p + [k];
    PathStep(t, p, k);
    if p == [] {
      assert q[1..] == [] && At(t, q) == t.subs[k];
      assert Put(t.subs[k], q[1..], At(t, q).(exhausted := true)) == At(t, q).(exhausted := true);
    } else {
      assert q[1..] == p[1..] + [k];
      PutChild(t.subs[p[0]], p[1..], k);
    }
  }

  /** An extension fails only for the root of an untouched tree on an empty match stack. When it
      succeeds it uses exactly one node, which was unused and stands for `fn`: the root of an untouched
      tree, or a child of the node the frames below matched last; and the frame on top is matched. */
  lemma ExtendUsesOne(t: Tracker, fn: Function, allowRoot: bool) returns (p: seq<nat>)
    requires Consistent(t)
    ensures Extend(t, fn, allowRoot).Failed? <==>
            t.stack == [] && !t.root.exhausted && allowRoot && t.root.fn == fn
    ensures Extend(t, fn, allowRoot).Extended? ==>
              var u := Extend(t, fn, allowRoot).t;
              && Consistent(u) && Evolved(t, u) && CurrentMatched(u) && !CurrentMatched(t)
              && UsesOne(t.root, u.root, p, fn)
              && (p == [] ==> allowRoot)
              && (p != [] ==> IsActive(t) && p[..|p| - 1] == SubPath(t.stack))
              && IsActive(u) && SubPath(u.stack) == p
  {
    WalkNeverBreaks(t);
    p := [];
    if Extend(t, fn, allowRoot).Extended? {
      if IsActive(t) {
        p := ExtendUsesChild(t, fn, allowRoot);
      } else {
        ExtendUsesRoot(t, fn, allowRoot);
      }
    }
  }

  lemma ExtendUsesChild(t: Tracker, fn: Function, allowRoot: bool) returns (p: seq<nat>)
    requires Consistent(t) && IsActive(t) && Extend(t, fn, allowRoot).Extended?
    ensures var u := Extend(t, fn, allowRoot).t;
            && Consistent(u) && Evolved(t, u) && CurrentMatched(u) && !CurrentMatched(t)
            && UsesOne(t.root, u.root, p, fn) && IsActive(u) && SubPath(u.stack) == p
            && p != [] && p[..|p| - 1] == SubPath(t.stack)
  {
    WalkNeverBreaks(t);
    hide WalkStack, ValidPath, At, Put, Closed, Spent, SubPath, Fresh;
    var q := SubPath(t.stack);
    var k := FirstUnused(At(t.root, q).subs, fn, 0);
    PutChild(t.root, q, k);
    p := q + [k];
    ExhaustChild(t.root, q, k);
    SubPathTop(t.stack, SubMatch(k));
    assert p[..|p| - 1] == q;
  }

  lemma ExtendUsesRoot(t: Tracker, fn: Function, allowRoot: bool)
    requires Consistent(t) && !IsActive(t) && Extend(t, fn, allowRoot).Extended?
    ensures var u := Extend(t, fn, allowRoot).t;
            && Consistent(u) && Evolved(t, u) && CurrentMatched(u) && !CurrentMatched(t)
            && UsesOne(t.root, u.root, [], fn) && IsActive(u) && SubPath(u.stack) == [] && allowRoot
  {
    var u := Extend(t, fn, allowRoot).t;
    WalkBlank(t.root, t.stack);
    SubPathTop(t.stack, RootMatch);
    SameFresh(t.root, u.root);
    assert Closed(u.root) by { ClosedWhenUsed(t.root); }
  }

  /** Rolling back to a snapshot of `a` and popping the frame recovers `Pop(a)`, the state before the
      frame was pushed, from anything the frame can have turned `a` into. */
  lemma RollBackThenPop(a: Tracker, b: Tracker)
    requires Consistent(a) && a.stack != [] && !CurrentMatched(a) && Evolved(a, b)
    ensures RollBack(b, Snap(a.root)).Some?
    ensures Pop(RollBack(b, Snap(a.root)).value) == Pop(a)
  {
    RestoreRecovers(a.root, b.root);
    assert a.stack[..|a.stack| - 1] == b.stack[..|b.stack| - 1];
  }

  /** A frame that succeeds leaves the matches of the frames below as they were. */
  lemma EvolvedThroughCall(a: Tracker, b: Tracker)
    requires Consistent(a) && Consistent(b) && Evolved(Push(a), b)
    ensures Evolved(a, Pop(b)) && Pop(b).stack == a.stack
  {
    assert b.stack[..|a.stack|] == a.stack by {
      assert forall i :: 0 <= i < |a.stack| ==> b.stack[i] == Push(a).stack[i];
    }
  }

  lemma {:induction false} AppendChild(t: Invocation, p: seq<nat>, fn: Function)
    requires Closed(t) && Spent(t, p) && ValidPath(t, p)
    ensures var n := At(t, p);
            var u := Put(t, p, n.(subs := n.subs + [Invocation(fn, [], true)]));
            Closed(u) && Spent(u, p + [|n.subs|])
    decreases |p|
  {
    var n := At(t, p);
    var q := p + [|n.subs|];
    var u := Put(t, p, n.(subs := n.subs + [Invocation(fn, [], true)]));
    if p == [] {
      assert q[1..] == [] && u.subs[q[0]] == Invocation(fn, [], true);
    } else {
      assert q[1..] == p[1..] + [|n.subs|];
      AppendChild(t.subs[p[0]], p[1..], fn);
      assert forall i :: 0 <= i < |t.subs| && i != p[0] ==> u.subs[i] == t.subs[i];
    }
  }

  /** Recording in an active tracker whose frame is free always succeeds and keeps the invariant. */
  lemma RecordConsistent(t: Tracker, fn: Function)
    requires Consistent(t) && IsActive(t)
    ensures Record(t, fn).NoMatch? <==> CurrentMatched(t)
    ensures !CurrentMatched(t) ==> Record(t, fn).Extended?
    ensures Record(t, fn).Extended? ==>
              var u := Record(t, fn).t;
              Consistent(u) && |u.stack| == |t.stack| && CurrentMatched(u) && IsActive(u)
  {
    WalkNeverBreaks(t);
    if !CurrentMatched(t) {
      var q := SubPath(t.stack);
      AppendChild(t.root, q, fn);
      SubPathTop(t.stack, SubMatch(|At(t.root, q).subs|));
    }
  }

  lemma RecordingStartsConsistent(fn: Function, depth: nat)
    requires depth > 0
    ensures Consistent(NewRecording(fn, depth)) && IsActive(NewRecording(fn, depth))
  {
    var t := NewRecording(fn, depth);
    assert t.stack[..depth - 1] == Blank(depth - 1);
    WalkBlank(t.root, Blank(depth - 1));
  }
}
