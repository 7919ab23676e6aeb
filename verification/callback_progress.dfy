/**
 No request gets lost: of a composite that has been requested and is not over, whatever has to be
 requested next has been requested, or is about to be by a frame of the stack.
 */
module CallbackProgress {
  import opened Options
  import opened CallbackModel
  import opened CallbackInvariant
  import opened CallbackSteps
  import opened CallbackCall
  import opened CallbackRun
  import opened CallbackApi
  import opened CallbackTheorems
  import opened CallbackOrder

  /** Some activation is going to request k. */
  predicate Awaited(stack: seq<Frame>, k: Id) {
    exists f | f in stack :: k in Pending(f)
  }

  predicate Begun(s: State, stack: seq<Frame>, k: Id) {
    k in s.past.requested || Awaited(stack, k)
  }

  /** Requested, and neither timed out nor canceled. */
  predicate Running(s: State, p: Id) {
    p in s.nodes && p in s.children && p in s.past.requested && p !in s.past.timeouted && p !in s.past.canceled
  }

  ghost predicate ChildrenBegun(s: State, stack: seq<Frame>, p: Id) {
    Running(s, p) ==>
      && (s.nodes[p].kind.Parallel? ==> forall k | k in s.children[p] :: Begun(s, stack, k))
      && (s.nodes[p].kind.Serial? && s.children[p] != {} ==> Begun(s, stack, First(s.children[p])))
  }

  ghost predicate EmptyCalled(s: State, stack: seq<Frame>, p: Id) {
    Running(s, p) && !s.nodes[p].kind.Leaf? && Kids(s.nodes, p) != {} && s.children[p] == {} ==>
      p in s.past.called || CheckEmpty(p) in stack || CallById(p) in stack
  }

  ghost predicate Busy(s: State, stack: seq<Frame>) {
    forall p :: ChildrenBegun(s, stack, p) && EmptyCalled(s, stack, p)
  }

  // ---------------------------------------------------------------- steps

  lemma AwaitedRest(f: Frame, top: seq<Frame>, rest: seq<Frame>, k: Id)
    ensures Awaited([f] + rest, k) ==> k in Pending(f) || Awaited(rest, k)
    ensures Awaited(top + rest, k) <==> Awaited(top, k) || Awaited(rest, k)
  {
    if Awaited(top, k) {
      var g :| g in top && k in Pending(g);
      assert g in top + rest;
    }
    if Awaited(rest, k) {
      var g :| g in rest && k in Pending(g);
      assert g in top + rest;
    }
  }

  /** The top frame gives way; whoever it was going to request is requested or still awaited. */
  lemma BegunStays(s: State, t: State, f: Frame, top: seq<Frame>, rest: seq<Frame>)
    requires s.past.requested <= t.past.requested
    requires forall k | k in Pending(f) :: Begun(t, top, k)
    ensures forall k | Begun(s, [f] + rest, k) :: Begun(t, top + rest, k)
  {
    forall k | Begun(s, [f] + rest, k) ensures Begun(t, top + rest, k) {
      AwaitedRest(f, top, rest, k);
    }
  }

  lemma BusyRequest(s: State, r: Id, rest: seq<Frame>)
    requires Inv(Config(s, [Request(r)] + rest)) && Busy(s, [Request(r)] + rest)
    ensures Shape(s) && r in s.nodes && Busy(Enqueue(s, r), RequestFrames(s, r) + [Counted(r)] + rest)
  {
    hide Forest, History, Waits, Times, Pressed, Books, Separate, Erasing, Kept, Alive, OneByOne, Left, Exclusive;
    FramesRest(s, Request(r), rest);
    RequestIsNew(s, r);
    FreshKids(s, r);
    var t, top := Enqueue(s, r), RequestFrames(s, r) + [Counted(r)];
    RequestAwaits(s, r);
    hide FrameOk, RequestFrames, Shape;
    BegunStays(s, t, Request(r), top, rest);
    forall p ensures ChildrenBegun(t, top + rest, p) && EmptyCalled(t, top + rest, p) {
      assert ChildrenBegun(s, [Request(r)] + rest, p) && EmptyCalled(s, [Request(r)] + rest, p);
      forall k ensures Awaited(top, k) ==> Awaited(top + rest, k) {
        AwaitedRest(Request(r), top, rest, k);
      }
    }
  }

  /** The frames of a request await the children that come first. */
  lemma RequestAwaits(s: State, r: Id)
    requires Shape(s) && r in s.nodes
    ensures var top := RequestFrames(s, r) + [Counted(r)];
            && (s.nodes[r].kind.Parallel? ==> forall k | k in s.children[r] :: Awaited(top, k))
            && (s.nodes[r].kind.Serial? && s.children[r] != {} ==> Awaited(top, First(s.children[r])))
  {
    hide Forest;
    var top := RequestFrames(s, r) + [Counted(r)];
    if s.nodes[r].kind.Parallel? {
      var f := Loop(Some(r), Sorted(s.children[r]));
      assert top[0] == f && f in top;
      forall k | k in s.children[r] ensures Awaited(top, k) {
        assert k in Pending(f);
      }
    } else if s.nodes[r].kind.Serial? && s.children[r] != {} {
      var f := Request(First(s.children[r]));
      assert top[0] == f && f in top;
      assert f.id in Pending(f);
    }
  }

  /** Steps that neither request nor call. */
  lemma BusyRest(s: State, t: State, f: Frame, top: seq<Frame>, rest: seq<Frame>)
    requires t.nodes == s.nodes && t.children == s.children && t.past == s.past
    requires Busy(s, [f] + rest) && forall k | k in Pending(f) :: Awaited(top, k)
    requires (f.CheckEmpty? ==> f.id in s.children && (s.children[f.id] == {} ==> CallById(f.id) in top))
    requires (f.CallById? && Running(s, f.id) ==> f.id in s.past.called)
    ensures Busy(t, top + rest)
  {
    BegunStays(s, t, f, top, rest);
    forall p ensures ChildrenBegun(t, top + rest, p) && EmptyCalled(t, top + rest, p) {
      assert ChildrenBegun(s, [f] + rest, p) && EmptyCalled(s, [f] + rest, p);
    }
  }

  /** In the wait queue no more, and not gone: it was called. */
  lemma NotWaitingCalled(s: State, x: Id)
    requires Waits(s) && x !in s.wait && Running(s, x)
    ensures x in s.past.called
  {
  }

  lemma BusyCall(s: State, x: Id, rest: seq<Frame>)
    requires Inv(Config(s, [CallById(x)] + rest)) && Busy(s, [CallById(x)] + rest) && x in s.wait
    requires Shape(s) && x in s.nodes && (s.nodes[x].parent.Some? ==> s.nodes[x].parent.value in s.children)
    ensures Busy(Answered(s, x), AnsweredFrames(s, x) + rest)
  {
    hide Forest, History, Waits, Times, Pressed, Books, Separate, Erasing, Kept, Alive, OneByOne, Left, Exclusive, FrameOk, Frames;
    var t, top := Answered(s, x), AnsweredFrames(s, x);
    AnsweredIs(s, x);
    hide Shape, AnsweredFrames, Answered;
    BegunStays(s, t, CallById(x), top, rest);
    forall p ensures ChildrenBegun(t, top + rest, p) && EmptyCalled(t, top + rest, p) {
      assert ChildrenBegun(s, [CallById(x)] + rest, p) && EmptyCalled(s, [CallById(x)] + rest, p);
      forall k ensures Awaited(top, k) ==> Awaited(top + rest, k) {
        AwaitedRest(CallById(x), top, rest, k);
      }
    }
  }

  /** What a call changes for the families, and the frames that look after it. */
  lemma AnsweredIs(s: State, x: Id)
    requires Shape(s) && x in s.nodes
    requires s.nodes[x].parent.Some? ==> s.nodes[x].parent.value in s.children
    ensures var t, top := Answered(s, x), AnsweredFrames(s, x);
            && t.nodes == s.nodes && t.children.Keys == s.children.Keys
            && t.past == s.past.(called := s.past.called + {x})
            && (forall p | p in s.children && s.nodes[x].parent != Some(p) :: t.children[p] == s.children[p])
            && (s.nodes[x].parent.Some? ==>
                  var p := s.nodes[x].parent.value;
                  && t.children[p] == s.children[p] - {x} && CheckEmpty(p) in top
                  && (p in s.nodes && s.nodes[p].kind.Serial? && t.children[p] != {} ==> Awaited(top, First(t.children[p]))))
  {
    if s.nodes[x].parent.Some? {
      var p, t, top := s.nodes[x].parent.value, Answered(s, x), AnsweredFrames(s, x);
      if s.nodes[p].kind.Serial? && t.children[p] != {} {
        var f := Request(First(t.children[p]));
        assert top[0] == f && f in top;
        assert f.id in Pending(f);
      }
    }
  }

  lemma BusyStep(c: Config)
    requires Inv(c) && c.Config? && c.stack != [] && FramesInForest(c) && Busy(c.s, c.stack)
    ensures Step(c).Config? ==> Busy(Step(c).s, Step(c).stack)
  {
    hide Life, Stack, Books, Forest, Busy, Shape, FrameOk, RequestFrames, Enqueue, CallStep;
    var s, f, rest := c.s, c.stack[0], c.stack[1..];
    assert c.stack == [f] + rest && [] + rest == rest;
    assert f in c.stack;
    InvParts(c);
    match f {
      case Request(r) => BusyRequest(s, r, rest);
      case CallById(x) =>
        if x in s.wait {
          WaitingIsNode(s, x);
          StepCall(s, x, rest);
          if Step(c).Config? {
            BusyCall(s, x, rest);
          }
        } else {
          if Running(s, x) {
            NotWaitingCalled(s, x);
          }
          BusyRest(s, s, f, [], rest);
        }
      case Erase(x) => BusyRest(s, s.(wait := s.wait - {x}), f, [], rest);
      case Counted(_) => BusyRest(s, s.(stats := s.stats.(requested := s.stats.requested + 1)), f, [], rest);
      case Loop(o, xs) =>
        if xs == [] {
          BusyRest(s, s, f, [], rest);
        } else {
          LoopAwaits(o, xs);
          BusyRest(s, s, f, [Request(xs[0]), Loop(o, xs[1..])], rest);
        }
      case CheckEmpty(p) =>
        CheckedKnown(c, p);
        BusyRest(s, s, f, if s.children[p] == {} then [CallById(p)] else [], rest);
    }
  }

  lemma InvParts(c: Config)
    requires Inv(c)
    ensures c.Config? && Shape(c.s) && Waits(c.s)
  {
  }

  lemma CheckedKnown(c: Config, p: Id)
    requires c.Config? && FramesInForest(c) && CheckEmpty(p) in c.stack
    ensures p in c.s.children
  {
  }

  lemma LoopAwaits(o: Option<Id>, xs: seq<Id>)
    requires xs != []
    ensures forall k | k in Pending(Loop(o, xs)) :: Awaited([Request(xs[0]), Loop(o, xs[1..])], k)
  {
    var top := [Request(xs[0]), Loop(o, xs[1..])];
    forall k | k in Pending(Loop(o, xs)) ensures Awaited(top, k) {
      if k == xs[0] {
        assert top[0] in top && k in Pending(top[0]);
      } else {
        assert top[1] in top && k in Pending(top[1]);
      }
    }
  }

  lemma {:induction false} BusyRun(c: Config)
    requires Inv(c) && c.Config? && Busy(c.s, c.stack)
    ensures RunToEnd(c).Config? ==> Busy(RunToEnd(c).s, [])
    decreases Unrequested(c), Uncalled(c), Weight(c.stack)
  {
    hide Life, Stack, Books, Forest, Busy, Step;
    if c.stack != [] {
      InvReady(c);
      BusyStep(c);
      OneStep(c);
      StepDescends(c);
      if Step(c).Config? {
        BusyRun(Step(c));
      } else {
        BrokenEnds();
      }
    }
  }

  // ---------------------------------------------------------------- timeouts, and whole runs

  lemma BusyTimeout(s: State, x: Id)
    requires Shape(s) && x in s.nodes && Busy(s, [])
    ensures Busy(Timeout(s, x), [])
  {
    hide Under, Forest;
    TimeoutIs(s, x);
    var t := Timeout(s, x);
    forall p ensures ChildrenBegun(t, [], p) && EmptyCalled(t, [], p) {
      assert ChildrenBegun(s, [], p) && EmptyCalled(s, [], p);
    }
  }

  lemma {:induction false} BusyScan(s: State, i: nat, now: int)
    requires Shape(s) && i <= |s.index| && Busy(s, [])
    ensures Busy(Scan(s, i, now), [])
    decreases |s.index| - i
  {
    hide Busy, Timeout;
    if i < |s.index| {
      ScanAtShape(s, i, now);
      var x := s.index[i].1;
      if x in s.wait && Due(s, x, now) {
        BusyTimeout(s, x);
      }
      BusySame(s);
      BusyIndex(s, i, now);
      BusyScan(ScanAt(s, i, now), if |ScanAt(s, i, now).index| < |s.index| then i else i + 1, now);
    }
  }

  lemma BusySame(s: State)
    requires Busy(s, [])
    ensures forall index :: Busy(s.(index := index), [])
    ensures forall ready :: Busy(s.(ready := ready), [])
  {
    forall index ensures Busy(s.(index := index), []) {
      SameBusy(s, s.(index := index));
    }
    forall ready ensures Busy(s.(ready := ready), []) {
      SameBusy(s, s.(ready := ready));
    }
  }

  lemma SameBusy(s: State, t: State)
    requires Busy(s, []) && t.nodes == s.nodes && t.children == s.children
    requires t.past == s.past.(replied := t.past.replied)
    ensures Busy(t, [])
  {
    forall p ensures ChildrenBegun(t, [], p) && EmptyCalled(t, [], p) {
      assert ChildrenBegun(s, [], p) && EmptyCalled(s, [], p);
    }
  }

  lemma BusyIndex(s: State, i: nat, now: int)
    requires Shape(s) && i < |s.index| && Busy(s, [])
    requires var x := s.index[i].1; x in s.wait && Due(s, x, now) ==> Busy(Timeout(s, x), [])
    ensures Busy(ScanAt(s, i, now), [])
  {
    hide Busy, Timeout, Forest;
    var x := s.index[i].1;
    BusySame(s);
    if x in s.wait && Due(s, x, now) {
      BusySame(Timeout(s, x));
    }
  }

  lemma BusyApply(s: State, op: Op)
    requires Quiet(s) && (op.Submit? ==> CanSubmit(s, op.root)) && Busy(s, [])
    ensures Apply(s, op).Config? ==> Busy(Apply(s, op).s, [])
  {
    hide Life, Stack, Books, Busy, Scan, RunToEnd, Forest;
    match op {
      case Submit(r) => BusySame(s);
      case Answer(x) =>
        AnswerInv(s, x);
        var t := if x in s.wait then Log(s, Event(Replied, x, {})) else s;
        SameBusy(s, t);
        BusyMore(t, CallById(x));
        BusyRun(Config(t, [CallById(x)]));
      case Run(now) =>
        ScanQuiet(s, 0, now);
        QuietShape(s);
        BusyScan(s, 0, now);
        var t := Scan(s, 0, now);
        BusySame(t);
        ReadyInv(t);
        BusyMore(t.(ready := {}), Loop(None, Sorted(t.ready)));
        BusyRun(Config(t.(ready := {}), [Loop(None, Sorted(t.ready))]));
    }
  }

  lemma BusyMore(s: State, f: Frame)
    requires Busy(s, [])
    ensures Busy(s, [f])
  {
    forall p ensures ChildrenBegun(s, [f], p) && EmptyCalled(s, [f], p) {
      assert ChildrenBegun(s, [], p) && EmptyCalled(s, [], p);
    }
  }

  lemma {:induction false} BusyExecute(s: State, ops: seq<Op>)
    requires Quiet(s) && Legal(s, ops) && Busy(s, [])
    ensures Execute(s, ops).Config? ==> Busy(Execute(s, ops).s, [])
    decreases |ops|
  {
    hide Quiet, Busy, Apply;
    if ops != [] {
      BusyApply(s, ops[0]);
      if Apply(s, ops[0]).Config? {
        BusyExecute(Apply(s, ops[0]).s, ops[1..]);
      }
    }
  }

  // ---------------------------------------------------------------- no timeout is lost

  /** Who has left the queue after its request does not come back. */
  lemma StepStaysOut(c: Config, x: Id)
    requires Inv(c) && c.Config? && c.stack != [] && FramesInForest(c) && x in c.s.past.requested && x !in c.s.wait
    ensures Step(c).Config? ==> x in Step(c).s.past.requested && x !in Step(c).s.wait
  {
    hide Life, Separate, Erasing, Books, Forest;
    var s, f, rest := c.s, c.stack[0], c.stack[1..];
    assert c.stack == [f] + rest;
    InvFrames(c);
    FramesRest(s, f, rest);
    if f.Request? {
      RequestIsNew(s, f.id);
    } else if f.CallById? && f.id in s.wait {
      WaitingIsNode(s, f.id);
    }
  }

  lemma {:induction false} StaysOut(c: Config, x: Id)
    requires Inv(c) && c.Config? && x in c.s.past.requested && x !in c.s.wait
    ensures RunToEnd(c).Config? ==> x !in RunToEnd(c).s.wait
    decreases Unrequested(c), Uncalled(c), Weight(c.stack)
  {
    hide Life, Stack, Books, Forest, Step;
    if c.stack != [] {
      InvReady(c);
      StepStaysOut(c, x);
      OneStep(c);
      StepDescends(c);
      if Step(c).Config? {
        StaysOut(Step(c), x);
      } else {
        BrokenEnds();
      }
    }
  }

  /** No finite timeout is lost: after one turn of run() no RPC waits that was overdue before it. */
  lemma NoTimeoutLost(s: State, now: int, x: Id)
    requires Quiet(s) && x in s.wait && x in s.nodes && s.nodes[x].limit != INFINITE
    requires now - s.nodes[x].created >= s.nodes[x].limit
    ensures Apply(s, Run(now)).Config? ==> x !in Apply(s, Run(now)).s.wait
  {
    hide Life, Stack, Books, Scan, RunToEnd, Forest, Shape;
    ScanQuiet(s, 0, now);
    OverdueSwept(s, now, x);
    WasRequested(s, x);
    ScanRequested(s, 0, now);
    var t := Scan(s, 0, now);
    ReadyInv(t);
    StaysOut(Config(t.(ready := {}), [Loop(None, Sorted(t.ready))]), x);
  }

  lemma WasRequested(s: State, x: Id)
    requires Quiet(s) && x in s.wait
    ensures x in s.past.requested
  {
  }

  lemma {:induction false} ScanRequested(s: State, i: nat, now: int)
    requires Shape(s) && i <= |s.index|
    ensures Scan(s, i, now).past.requested == s.past.requested
    decreases |s.index| - i
  {
    if i < |s.index| {
      ScanAtShape(s, i, now);
      ScanAtRequested(s, i, now);
      hide ScanAt, Shape;
      var t := ScanAt(s, i, now);
      ScanRequested(t, if |t.index| < |s.index| then i else i + 1, now);
    }
  }

  lemma ScanAtRequested(s: State, i: nat, now: int)
    requires Shape(s) && i < |s.index|
    ensures ScanAt(s, i, now).past.requested == s.past.requested
  {
    hide Under, Forest;
  }
}
