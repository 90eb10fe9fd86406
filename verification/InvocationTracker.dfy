/** The invocation tracker as the host keeps it: an object whose operations update it in place. */
module InvocationTrackerObject {
  import opened Basics
  import opened InvocationTree
  import opened InvocationTracking

  datatype Attempt = Matched | Skipped | InternalError

  class InvocationTracker {
    var rootAuthorizedInvocation: Invocation
    var matchStack: seq<MatchState>
    var rootExhaustedFrame: Option<nat>
    var isFullyProcessed: bool

    ghost function State(): Tracker
      reads this
    {
      Tracker(rootAuthorizedInvocation, matchStack, rootExhaustedFrame, isFullyProcessed)
    }

    predicate HasMatchedInvocationsInStack()
      reads this
      ensures HasMatchedInvocationsInStack() <==> AnyMatched(State())
    {
      exists i :: 0 <= i < |matchStack| && matchStack[i] != Unmatched
    }

    constructor (root: Invocation)
      ensures State() == NewTracker(root)
    {
      rootAuthorizedInvocation := root;
      matchStack := [];
      rootExhaustedFrame := None;
      isFullyProcessed := false;
    }

    constructor Recording(fn: Function, currentStackLen: nat)
      requires currentStackLen > 0
      ensures State() == NewRecording(fn, currentStackLen)
    {
      rootAuthorizedInvocation := Invocation(fn, [], true);
      matchStack := Blank(currentStackLen - 1) + [RootMatch];
      rootExhaustedFrame := Some(currentStackLen - 1);
      isFullyProcessed := false;
    }

    constructor Copy(t: Tracker)
      ensures State() == t
    {
      rootAuthorizedInvocation := t.root;
      matchStack := t.stack;
      rootExhaustedFrame := t.rootFrame;
      isFullyProcessed := t.processed;
    }

    method PushFrame()
      modifies this
      ensures State() == Push(old(State()))
    {
      matchStack := matchStack + [Unmatched];
    }

    method PopFrame()
      modifies this
      ensures State() == Pop(old(State()))
    {
      if matchStack != [] {
        matchStack := matchStack[..|matchStack| - 1];
      }
      if rootExhaustedFrame.Some? {
        if rootExhaustedFrame.value >= |matchStack| {
          isFullyProcessed := true;
        }
      }
    }

    /** Descends from `node` by the entries of the match stack from `from` on. */
    method LastAuthorizedInvocation(node: Invocation, from: nat) returns (w: Walk)
      requires from <= |matchStack|
      ensures w == WalkTree(node, matchStack[from..])
      decreases |matchStack| - from
    {
      var i := from;
      while i < |matchStack|
        invariant from <= i <= |matchStack|
        invariant WalkTree(node, matchStack[from..]) == WalkTree(node, matchStack[i..])
      {
        assert matchStack[i..][1..] == matchStack[i + 1..];
        match matchStack[i]
        case SubMatch(k) =>
          if k < |node.subs| {
            var rest := LastAuthorizedInvocation(node.subs[k], i + 1);
            return match rest case Found(p) => Found([k] + p) case _ => Broken;
          } else {
            return Broken;
          }
        case RootMatch =>
          return Broken;
        case Unmatched =>
          i := i + 1;
      }
      w := Found([]);
    }

    method LastMatched() returns (w: Walk)
      ensures w == WalkStack(rootAuthorizedInvocation, matchStack)
    {
      var i := 0;
      while i < |matchStack|
        invariant 0 <= i <= |matchStack|
        invariant WalkStack(rootAuthorizedInvocation, matchStack)
               == WalkStack(rootAuthorizedInvocation, matchStack[i..])
      {
        assert matchStack[i..][1..] == matchStack[i + 1..];
        match matchStack[i]
        case RootMatch =>
          w := LastAuthorizedInvocation(rootAuthorizedInvocation, i + 1);
          return;
        case SubMatch(_) =>
          return Broken;
        case Unmatched =>
          i := i + 1;
      }
      w := NoRoot;
    }

    /** Extends the match by the frame on top, if the tree has a matching unused node there. */
    method MaybeExtendInvocationMatch(fn: Function, allowMatchingRoot: bool) returns (r: Attempt)
      modifies this
      ensures match Extend(old(State()), fn, allowMatchingRoot)
              case NoMatch => r == Skipped && State() == old(State())
              case Extended(t) => r == Matched && State() == t
              case Failed => r == InternalError
    {
      if CurrentMatched(Tracker(rootAuthorizedInvocation, matchStack, rootExhaustedFrame, isFullyProcessed)) {
        return Skipped;
      }
      var w := LastMatched();
      var newMatchState := Unmatched;
      match w {
        case Broken =>
          return InternalError;
        case Found(p) =>
          if !ValidPath(rootAuthorizedInvocation, p) || matchStack == [] {
            return InternalError;
          }
          var curr := At(rootAuthorizedInvocation, p);
          var i := 0;
          while i < |curr.subs| && (curr.subs[i].exhausted || curr.subs[i].fn != fn)
            invariant 0 <= i <= |curr.subs|
            invariant FirstUnused(curr.subs, fn, 0) == FirstUnused(curr.subs, fn, i)
          {
            i := i + 1;
          }
          if i < |curr.subs| {
            newMatchState := SubMatch(i);
            rootAuthorizedInvocation := Put(rootAuthorizedInvocation, p,
                                            curr.(subs := curr.subs[i := curr.subs[i].(exhausted := true)]));
          }
        case NoRoot =>
          if !rootAuthorizedInvocation.exhausted && allowMatchingRoot && rootAuthorizedInvocation.fn == fn {
            newMatchState := RootMatch;
            rootAuthorizedInvocation := rootAuthorizedInvocation.(exhausted := true);
            if matchStack == [] {
              return InternalError;
            }
            rootExhaustedFrame := Some(|matchStack| - 1);
          }
      }
      if newMatchState != Unmatched {
        matchStack := matchStack[|matchStack| - 1 := newMatchState];
      }
      r := if newMatchState != Unmatched then Matched else Skipped;
    }

    method RecordInvocation(fn: Function) returns (r: Attempt)
      modifies this
      ensures match Record(old(State()), fn)
              case NoMatch => r == Skipped && State() == old(State())
              case Extended(t) => r == Matched && State() == t
              case Failed => r == InternalError
    {
      if CurrentMatched(Tracker(rootAuthorizedInvocation, matchStack, rootExhaustedFrame, isFullyProcessed)) {
        return Skipped;
      }
      var w := LastMatched();
      if !w.Found? || !ValidPath(rootAuthorizedInvocation, w.path) || matchStack == [] {
        return InternalError;
      }
      var curr := At(rootAuthorizedInvocation, w.path);
      rootAuthorizedInvocation := Put(rootAuthorizedInvocation, w.path,
                                      curr.(subs := curr.subs + [Invocation(fn, [], true)]));
      matchStack := matchStack[|matchStack| - 1 := SubMatch(|curr.subs|)];
      r := Matched;
    }

    method Rollback(s: Snapshot) returns (ok: bool)
      modifies this
      ensures ok <==> RollBack(old(State()), s).Some?
      ensures ok ==> State() == RollBack(old(State()), s).value
    {
      var restored := Restore(rootAuthorizedInvocation, s);
      if restored.None? {
        return false;
      }
      rootAuthorizedInvocation := restored.value;
      if !rootAuthorizedInvocation.exhausted {
        rootExhaustedFrame := None;
        isFullyProcessed := false;
      }
      ok := true;
    }
  }
}
