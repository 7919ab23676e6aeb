/**
 The loop of ParallelCallBack::request runs over the map that childCalled erases from. Exactly which
 trees break it: a parallel is racy if one of its children is completed within its own request(), and
 a cascade ends in undefined behaviour if and only if it requests a racy parallel.
 */
module CallbackRace {
  import opened Options
  import opened CallbackModel
  import opened CallbackInvariant
  import opened CallbackSteps
  import opened CallbackCall
  import opened CallbackRun
  import opened CallbackApi
  import opened CallbackTheorems
  import opened CallbackOrder

  /** Requesting c calls c before request() returns: all leaves below reply at once, through serials. */
  ghost predicate Completes(nodes: map<Id, Node>, height: nat, c: Id)
    requires Forest(nodes, height) && c in nodes
    decreases height - nodes[c].depth
  {
    match nodes[c].kind
    case Leaf(immediate) => immediate
    case Serial => Kids(nodes, c) != {} && forall k | k in Kids(nodes, c) :: KidCompletes(nodes, height, c, k)
    case Parallel => false
  }

  ghost predicate KidCompletes(nodes: map<Id, Node>, height: nat, p: Id, c: Id)
    requires Forest(nodes, height) && p in nodes && Kid(nodes, p, c)
    decreases height - nodes[p].depth, 0
  {
    Completes(nodes, height, c)
  }

  ghost predicate Racy(nodes: map<Id, Node>, height: nat, p: Id)
    requires Forest(nodes, height)
  {
    p in nodes && nodes[p].kind.Parallel? && exists c :: c in Kids(nodes, p) && Completes(nodes, height, c)
  }

  ghost predicate Inside(nodes: map<Id, Node>, height: nat, p: Id, y: Id)
    requires Forest(nodes, height)
  {
    y in nodes && y != p && Above(nodes, height, p, y)
  }

  // ---------------------------------------------------------------- a racy parallel is never started: nothing breaks

  /** While the loop of p runs, what is called inside p completes within its own request. */
  ghost predicate LoopSafe(s: State, p: Id)
    requires Forest(s.nodes, s.height)
  {
    && !Racy(s.nodes, s.height, p)
    && forall y | Inside(s.nodes, s.height, p, y) ::
         && y !in s.past.replied
         && (y in s.past.called ==> Completes(s.nodes, s.height, y))
         && (y in s.past.requested ==> !Racy(s.nodes, s.height, y))
  }

  ghost predicate CallSafe(s: State, p: Id, f: Frame)
    requires Forest(s.nodes, s.height)
  {
    f.CallById? && f.id in s.wait && Inside(s.nodes, s.height, p, f.id) ==> Completes(s.nodes, s.height, f.id)
  }

  ghost predicate LoopOf(f: Frame, p: Id) {
    f.Loop? && f.owner == Some(p)
  }

  ghost predicate Safe(s: State, stack: seq<Frame>)
    requires Forest(s.nodes, s.height)
  {
    && (forall g, p | g in stack && LoopOf(g, p) :: LoopSafe(s, p))
    && (forall f, g, p | f in stack && g in stack && LoopOf(g, p) :: CallSafe(s, p, f))
    && (forall f | f in stack && f.CheckEmpty? :: Kids(s.nodes, f.id) != {})
  }

  /** Below a fresh RPC nothing has been requested. */
  lemma FreshInside(s: State, r: Id, y: Id)
    requires Shape(s) && History(s.nodes, s.log, s.past) && r !in s.past.requested && Inside(s.nodes, s.height, r, y)
    ensures y !in s.past.requested
    decreases s.nodes[y].depth
  {
    hide History;
    if y in s.past.requested {
      ParentRequested(s, y);
      if s.nodes[y].parent.value != r {
        FreshInside(s, r, s.nodes[y].parent.value);
      }
    }
  }

  lemma FreshLoop(s: State, r: Id)
    requires Life(s) && r in s.nodes && Fresh(s, r) && !Racy(s.nodes, s.height, r)
    ensures LoopSafe(s, r)
  {
    hide Forest, Waits, Family, Times, Pressed, History, Completes;
    forall y | Inside(s.nodes, s.height, r, y) ensures y !in s.past.requested {
      FreshInside(s, r, y);
    }
  }

  /** The top frame is replaced; what is new is safe for every running loop, and the loops stay safe. */
  lemma SafePush(s: State, t: State, f: Frame, top: seq<Frame>, rest: seq<Frame>)
    requires Forest(s.nodes, s.height) && t.nodes == s.nodes && t.height == s.height
    requires Safe(s, [f] + rest) && forall g | g in rest :: !g.CallById?
    requires forall g, p | g in top + rest && LoopOf(g, p) :: LoopSafe(t, p)
    requires forall g, h, p | g in top && h in top + rest && LoopOf(h, p) :: CallSafe(t, p, g)
    requires forall g | g in top && g.CheckEmpty? :: Kids(t.nodes, g.id) != {}
    ensures Safe(t, top + rest)
  {
    hide Forest, LoopSafe, LoopOf;
    assert forall g | g in rest :: g in [f] + rest;
    forall g, h, p | g in top + rest && h in top + rest && LoopOf(h, p) ensures CallSafe(t, p, g) {
      if g !in top {
        assert g in rest;
      }
    }
  }

  /** Steps that neither request nor call leave the loops safe. */
  lemma LoopsStay(s: State, t: State, f: Frame, rest: seq<Frame>)
    requires Forest(s.nodes, s.height) && t.nodes == s.nodes && t.height == s.height && t.past == s.past
    requires Safe(s, [f] + rest)
    ensures forall g, p | g in [f] + rest && LoopOf(g, p) :: LoopSafe(t, p)
  {
    hide Forest, Racy, Inside, Completes;
  }

  lemma LowerFrames(s: State, f: Frame, rest: seq<Frame>)
    requires Shape(s) && Stack(s, [f] + rest)
    ensures forall g | g in rest :: !g.Request? && !g.CallById?
  {
    SeparateRest(s.nodes, s.height, f, rest);
    hide Shape, Stack, FrameOk, Above;
    forall g | g in rest ensures !g.Request? && !g.CallById? {
      assert Apart(s.nodes, s.height, f, g);
    }
  }

  lemma SafeRequest(s: State, r: Id, rest: seq<Frame>)
    requires Inv(Config(s, [Request(r)] + rest)) && Forest(s.nodes, s.height) && Safe(s, [Request(r)] + rest)
    requires !Racy(s.nodes, s.height, r)
    ensures Shape(s) && r in s.nodes
    ensures Safe(Enqueue(s, r), RequestFrames(s, r) + [Counted(r)] + rest)
  {
    hide Forest, History, Family, Times, Pressed, Books, Separate, Erasing, Waits, Completes, Racy, Inside, LoopSafe,
         Exclusive, Sorted, First, Insert, Safe;
    FramesRest(s, Request(r), rest);
    RequestIsNew(s, r);
    var t, top := Enqueue(s, r), RequestFrames(s, r) + [Counted(r)];
    LowerFrames(s, Request(r), rest);
    FreshLoop(s, r);
    forall g, p | g in top + rest && LoopOf(g, p) ensures LoopSafe(t, p) {
      RequestLoop(s, r, p, if g in rest then g else Request(r), rest);
    }
    forall g, h, p | g in top && h in top + rest && LoopOf(h, p) ensures CallSafe(t, p, g) {
      LeafCompletes(s, r);
    }
    SafePush(s, t, Request(r), top, rest);
  }

  lemma LeafCompletes(s: State, r: Id)
    requires Forest(s.nodes, s.height) && r in s.nodes
    ensures s.nodes[r].kind == Leaf(true) ==> Completes(s.nodes, s.height, r)
  {
  }

  /** The request of r is no harm to a loop that is running, nor to its own. */
  lemma RequestLoop(s: State, r: Id, p: Id, g: Frame, rest: seq<Frame>)
    requires Shape(s) && r in s.nodes && !Racy(s.nodes, s.height, r)
    requires Safe(s, [Request(r)] + rest) && LoopSafe(s, r)
    requires p == r || (g in rest && LoopOf(g, p))
    ensures LoopSafe(Enqueue(s, r), p)
  {
    hide Forest, Racy, Inside, Completes;
    assert g in rest ==> g in [Request(r)] + rest;
    assert LoopSafe(s, p);
  }

  /** A call is no harm to the running loops, and erases from none of them. */
  lemma SafeCall(s: State, x: Id, rest: seq<Frame>)
    requires Inv(Config(s, [CallById(x)] + rest)) && Forest(s.nodes, s.height) && Safe(s, [CallById(x)] + rest) && x in s.wait
    ensures Shape(s) && x in s.nodes && CallStep(s, x, rest).Config?
    ensures CallStep(s, x, rest).s.nodes == s.nodes && CallStep(s, x, rest).s.height == s.height
    ensures Safe(CallStep(s, x, rest).s, CallStep(s, x, rest).stack)
  {
    hide Forest, History, Family, Times, Pressed, Books, Separate, Erasing, Waits, Completes, Racy, Inside, LoopSafe, FrameOk;
    WaitingIsNode(s, x);
    LowerFrames(s, CallById(x), rest);
    NotIterating(s, x, rest);
    CallStepGoesOn(s, x, rest);
    StepCall(s, x, rest);
    AnsweredNodes(s, x);
    var t, top := Answered(s, x), AnsweredFrames(s, x);
    AnsweredTop(s, x);
    forall g, p | g in top + rest && LoopOf(g, p) ensures LoopSafe(t, p) {
      CallLoop(s, x, p, g, rest);
    }
    SafePush(s, t, CallById(x), top, rest);
  }

  lemma CallLoop(s: State, x: Id, p: Id, g: Frame, rest: seq<Frame>)
    requires Shape(s) && x in s.nodes && x in s.wait && Safe(s, [CallById(x)] + rest) && g in rest && LoopOf(g, p)
    ensures LoopSafe(Answered(s, x), p)
  {
    hide Forest, Racy, Inside, Completes;
    assert g in [CallById(x)] + rest && CallById(x) in [CallById(x)] + rest;
    assert LoopSafe(s, p) && CallSafe(s, p, CallById(x));
    AnsweredNodes(s, x);
  }

  lemma AnsweredTop(s: State, x: Id)
    requires Shape(s) && x in s.nodes
    ensures forall g | g in AnsweredFrames(s, x) :: !g.Loop? && !g.CallById? && (g.CheckEmpty? ==> Kids(s.nodes, g.id) != {})
  {
    if s.nodes[x].parent.Some? {
      assert x in Kids(s.nodes, s.nodes[x].parent.value);
    }
  }

  /** A parallel whose loop is running is not racy, so its children are not called meanwhile. */
  lemma NotIterating(s: State, x: Id, rest: seq<Frame>)
    requires Shape(s) && x in s.nodes && x in s.wait && Safe(s, [CallById(x)] + rest)
    ensures s.nodes[x].parent.Some? && s.nodes[s.nodes[x].parent.value].kind.Parallel? ==> !Iterating(rest, s.nodes[x].parent.value)
  {
    hide Completes;
    if s.nodes[x].parent.Some? && s.nodes[s.nodes[x].parent.value].kind.Parallel? {
      var p := s.nodes[x].parent.value;
      assert x in Kids(s.nodes, p);
      if f :| f in rest && f.Loop? && f.owner == Some(p) {
        assert f in [CallById(x)] + rest && CallById(x) in [CallById(x)] + rest && LoopOf(f, p);
        assert LoopSafe(s, p) && CallSafe(s, p, CallById(x));
        assert Above(s.nodes, s.height, p, p);
      }
    }
  }

  lemma CallStepGoesOn(s: State, x: Id, rest: seq<Frame>)
    requires Shape(s) && x in s.nodes
    requires s.nodes[x].parent.Some? && s.nodes[s.nodes[x].parent.value].kind.Parallel? ==> !Iterating(rest, s.nodes[x].parent.value)
    ensures CallStep(s, x, rest).Config?
  {
  }

  /** When the last child of a composite inside a running loop is called, the composite completes. */
  lemma EmptyCompletes(s: State, q: Id, p: Id)
    requires Life(s) && q in s.nodes && !s.nodes[q].kind.Leaf? && q in s.children && s.children[q] == {} && q in s.wait
    requires Kids(s.nodes, q) != {} && LoopSafe(s, p) && Inside(s.nodes, s.height, p, q)
    ensures Completes(s.nodes, s.height, q)
  {
    hide Forest, History, Times, Pressed, Kept, Alive, OneByOne, Completes, Racy;
    forall k | k in Kids(s.nodes, q) ensures Completes(s.nodes, s.height, k) {
      KidCalled(s, q, k);
      assert Inside(s.nodes, s.height, p, k) by {
        InsideKid(s, p, q, k);
      }
    }
    KidsComplete(s.nodes, s.height, q);
  }

  lemma KidCalled(s: State, q: Id, k: Id)
    requires Left(s) && Waits(s) && q in s.wait && q in s.children && s.children[q] == {} && Kid(s.nodes, q, k)
    ensures k in s.past.called
  {
  }

  lemma InsideKid(s: State, p: Id, q: Id, k: Id)
    requires Forest(s.nodes, s.height) && Inside(s.nodes, s.height, p, q) && Kid(s.nodes, q, k)
    ensures Inside(s.nodes, s.height, p, k)
  {
    AboveDepth(s.nodes, s.height, p, q);
  }

  lemma KidsComplete(nodes: map<Id, Node>, height: nat, q: Id)
    requires Forest(nodes, height) && q in nodes && !nodes[q].kind.Leaf? && Kids(nodes, q) != {}
    requires forall k | k in Kids(nodes, q) :: Completes(nodes, height, k)
    requires !Racy(nodes, height, q)
    ensures Completes(nodes, height, q)
  {
    var k :| k in Kids(nodes, q);
  }

  lemma SafeCheckEmpty(s: State, q: Id, rest: seq<Frame>)
    requires Inv(Config(s, [CheckEmpty(q)] + rest)) && Forest(s.nodes, s.height) && Safe(s, [CheckEmpty(q)] + rest)
    requires q in s.children && s.children[q] == {}
    ensures Safe(s, [CallById(q)] + rest)
  {
    hide Forest, History, Family, Times, Pressed, Books, Separate, Erasing, Completes, Racy, Inside, LoopSafe;
    FramesRest(s, CheckEmpty(q), rest);
    LowerFrames(s, CheckEmpty(q), rest);
    LoopsStay(s, s, CheckEmpty(q), rest);
    assert CheckEmpty(q) in [CheckEmpty(q)] + rest;
    forall g, h, p | g in [CallById(q)] && h in [CallById(q)] + rest && LoopOf(h, p) ensures CallSafe(s, p, g) {
      assert h in rest;
      assert LoopSafe(s, p);
      if q in s.wait && Inside(s.nodes, s.height, p, q) {
        InsideRequested(s, q, p);
        EmptyCompletes(s, q, p);
      }
    }
    SafePush(s, s, CheckEmpty(q), [CallById(q)], rest);
  }

  lemma InsideRequested(s: State, q: Id, p: Id)
    requires Waits(s) && q in s.wait
    ensures q in s.past.requested
  {
  }

  lemma SafeStepRequest(c: Config)
    requires Inv(c) && c.stack != [] && FramesInForest(c) && Forest(c.s.nodes, c.s.height) && Safe(c.s, c.stack)
    requires c.stack[0].Request? && !Racy(c.s.nodes, c.s.height, c.stack[0].id)
    ensures Step(c).Config? && Step(c).s.nodes == c.s.nodes && Step(c).s.height == c.s.height
    ensures Safe(Step(c).s, Step(c).stack)
  {
    hide Forest, Life, Stack, Books, Racy, Safe, Enqueue, RequestFrames;
    var s, r, rest := c.s, c.stack[0].id, c.stack[1..];
    assert c.stack == [Request(r)] + rest && c == Config(s, [Request(r)] + rest);
    SafeRequest(s, r, rest);
    EnqueueNodes(s, r);
  }

  lemma SafeStepCall(c: Config)
    requires Inv(c) && c.stack != [] && FramesInForest(c) && Forest(c.s.nodes, c.s.height) && Safe(c.s, c.stack)
    requires c.stack[0].CallById? && c.stack[0].id in c.s.wait
    ensures Step(c).Config? && Step(c).s.nodes == c.s.nodes && Step(c).s.height == c.s.height
    ensures Safe(Step(c).s, Step(c).stack)
  {
    hide Forest, Life, Stack, Books, Safe, CallStep;
    var s, x, rest := c.s, c.stack[0].id, c.stack[1..];
    assert c.stack == [CallById(x)] + rest && c == Config(s, [CallById(x)] + rest);
    SafeCall(s, x, rest);
  }

  lemma SafeStepCheck(c: Config)
    requires Inv(c) && c.stack != [] && FramesInForest(c) && Forest(c.s.nodes, c.s.height) && Safe(c.s, c.stack)
    requires c.stack[0].CheckEmpty?
    ensures Step(c).Config? && Step(c).s.nodes == c.s.nodes && Step(c).s.height == c.s.height
    ensures Safe(Step(c).s, Step(c).stack)
  {
    hide Forest, Life, Stack, Books, Safe;
    var s, q, rest := c.s, c.stack[0].id, c.stack[1..];
    assert c.stack == [CheckEmpty(q)] + rest && [] + rest == rest && c == Config(s, [CheckEmpty(q)] + rest);
    InvLower(s, c.stack[0], rest);
    if s.children[q] == {} {
      SafeCheckEmpty(s, q, rest);
    } else {
      SafeRest(s, s, c.stack[0], [], rest);
    }
  }

  lemma SafeStepRest(c: Config)
    requires Inv(c) && c.stack != [] && FramesInForest(c) && Forest(c.s.nodes, c.s.height) && Safe(c.s, c.stack)
    requires c.stack[0].Loop? || c.stack[0].Counted? || c.stack[0].Erase? || (c.stack[0].CallById? && c.stack[0].id !in c.s.wait)
    ensures Step(c).Config? && Step(c).s.nodes == c.s.nodes && Step(c).s.height == c.s.height
    ensures Safe(Step(c).s, Step(c).stack)
  {
    hide Forest, Life, Stack, Books, Safe;
    var s, f, rest := c.s, c.stack[0], c.stack[1..];
    assert c.stack == [f] + rest && [] + rest == rest && c == Config(s, [f] + rest);
    InvLower(s, f, rest);
    if f.Loop? && f.rest != [] {
      var top := [Request(f.rest[0]), Loop(f.owner, f.rest[1..])];
      SafeRest(s, s, f, top, rest);
    } else {
      SafeRest(s, Step(c).s, f, [], rest);
    }
  }

  lemma SafeStep(c: Config)
    requires Inv(c) && c.stack != [] && FramesInForest(c) && Forest(c.s.nodes, c.s.height) && Safe(c.s, c.stack)
    requires c.stack[0].Request? ==> !Racy(c.s.nodes, c.s.height, c.stack[0].id)
    ensures Step(c).Config? && Step(c).s.nodes == c.s.nodes && Step(c).s.height == c.s.height
    ensures Safe(Step(c).s, Step(c).stack)
  {
    hide Forest, Life, Stack, Books, Racy, Safe, Step, FramesInForest;
    var f := c.stack[0];
    if f.Request? {
      SafeStepRequest(c);
    } else if f.CheckEmpty? {
      SafeStepCheck(c);
    } else if f.CallById? && f.id in c.s.wait {
      SafeStepCall(c);
    } else {
      SafeStepRest(c);
    }
  }

  lemma InvLower(s: State, f: Frame, rest: seq<Frame>)
    requires Inv(Config(s, [f] + rest))
    ensures Shape(s) && Forest(s.nodes, s.height) && forall g | g in rest :: !g.Request? && !g.CallById?
  {
    hide Forest, History, Family, Times, Pressed, Books, FrameOk, Separate;
    LowerFrames(s, f, rest);
  }

  /** Steps that only unwind, or go on with a loop. */
  lemma SafeRest(s: State, t: State, f: Frame, top: seq<Frame>, rest: seq<Frame>)
    requires Forest(s.nodes, s.height) && t.nodes == s.nodes && t.height == s.height && t.past == s.past
    requires Safe(s, [f] + rest) && forall g | g in rest :: !g.CallById?
    requires top == [] || (f.Loop? && f.rest != [] && top == [Request(f.rest[0]), Loop(f.owner, f.rest[1..])])
    ensures Safe(t, top + rest)
  {
    hide Forest, LoopSafe;
    LoopsStay(s, t, f, rest);
    forall g, p | g in top + rest && LoopOf(g, p) ensures LoopSafe(t, p) {
      if g in rest {
        assert g in [f] + rest;
      } else {
        assert LoopOf(f, p) && f in [f] + rest;
      }
    }
    SafePush(s, t, f, top, rest);
  }

  /** In the rest of the cascade some racy parallel is requested. */
  ghost predicate RequestsRacy(c: Config)
    requires c.Config? ==> Inv(c)
    decreases c.Config?, if c.Config? then Unrequested(c) else 0, if c.Config? then Uncalled(c) else 0,
              if c.Config? then Weight(c.stack) else 0
  {
    c.Config? && c.stack != [] &&
    (StepShape(c);
     StepKeeps(c);
     StepDescends(c);
     (c.stack[0].Request? && Racy(c.s.nodes, c.s.height, c.stack[0].id)) || RequestsRacy(Step(c)))
  }

  lemma {:induction false} SafeRun(c: Config)
    requires Inv(c) && Forest(c.s.nodes, c.s.height) && Safe(c.s, c.stack) && !RequestsRacy(c)
    ensures RunToEnd(c).Config? && RunToEnd(c).s.height == c.s.height
    decreases Unrequested(c), Uncalled(c), Weight(c.stack)
  {
    hide Life, Stack, Books, Forest, Safe, Racy, Step;
    if c.stack != [] {
      InvReady(c);
      SafeStep(c);
      OneStep(c);
      StepDescends(c);
      SafeRun(Step(c));
    }
  }

  // ---------------------------------------------------------------- a racy parallel is requested: it breaks

  /** What a cascade leaves alone: the trees, and whatever does not come from requests and calls. */
  ghost predicate Along(s: State, t: State) {
    && t.nodes == s.nodes && t.height == s.height
    && t.past.replied == s.past.replied && t.past.timeouted == s.past.timeouted && t.past.canceled == s.past.canceled
    && s.past.requested <= t.past.requested && s.past.called <= t.past.called
  }

  /** The run from c breaks, or goes through d. */
  ghost predicate Through(c: Config, d: Config)
    requires Inv(c)
  {
    RunToEnd(c).Broken? || (Inv(d) && RunToEnd(d) == RunToEnd(c) && Along(c.s, d.s))
  }

  lemma ThroughTrans(c: Config, d: Config, e: Config)
    requires Inv(c) && Through(c, d) && (Inv(d) ==> Through(d, e))
    ensures Through(c, e)
  {
    hide Inv, RunToEnd;
  }

  lemma EnqueueAlong(s: State, r: Id)
    requires Shape(s) && r in s.nodes
    ensures Along(s, Enqueue(s, r))
  {
    hide Shape, Insert;
  }

  lemma CallAlong(s: State, x: Id, stack: seq<Frame>)
    requires Shape(s) && x in s.nodes
    ensures CallStep(s, x, stack).Config? ==> Along(s, CallStep(s, x, stack).s)
  {
    hide Forest, FirstRequest, First;
  }

  lemma StepAlong(c: Config)
    requires Inv(c) && c.stack != [] && FramesInForest(c)
    ensures Step(c).Config? ==> Along(c.s, Step(c).s)
  {
    hide Life, Stack, Books, Forest, Enqueue, CallStep, RequestFrames;
    var s, f, rest := c.s, c.stack[0], c.stack[1..];
    assert c.stack == [f] + rest;
    if f.Request? {
      EnqueueAlong(s, f.id);
    } else if f.CallById? && f.id in s.wait {
      InvFrames(c);
      WaitingIsNode(s, f.id);
      CallAlong(s, f.id, rest);
    }
  }

  /** One step of the run, when it does not break. */
  lemma StepThrough(c: Config)
    requires Inv(c) && c.stack != [] && FramesInForest(c)
    ensures Step(c).Broken? ==> RunToEnd(c).Broken?
    ensures Step(c).Config? ==> Inv(Step(c)) && FramesInForest(Step(c)) && Through(c, Step(c))
  {
    hide Life, Stack, Books, Forest, Step, FramesInForest;
    OneStep(c);
    StepAlong(c);
    BrokenEnds();
  }

  /** The frames that CallStep puts on the stack. */
  ghost function TopOfCall(s: State, x: Id): seq<Frame>
    requires Shape(s) && x in s.nodes
  {
    match s.nodes[x].parent
    case None => [Erase(x)]
    case Some(p) =>
      var hit := x in s.children[p] && (s.nodes[p].kind.Serial? ==> x == First(s.children[p]));
      (if s.nodes[p].kind.Serial? && hit then FirstRequest(Erased(Reply(s, x), p, x), p) else []) + [CheckEmpty(p), Erase(x)]
  }

  lemma CallStepTop(s: State, x: Id, stack: seq<Frame>)
    requires Shape(s) && x in s.nodes
    ensures CallStep(s, x, stack).Config? ==> CallStep(s, x, stack).stack == TopOfCall(s, x) + stack
  {
  }

  /** What the top frame leaves in its place. */
  ghost function Pushed(s: State, f: Frame): seq<Frame>
    requires Shape(s) && (f.Request? || f.CheckEmpty? ==> f.id in s.nodes)
  {
    match f
    case Request(r) => RequestFrames(s, r) + [Counted(r)]
    case Loop(o, xs) => if xs == [] then [] else [Request(xs[0]), Loop(o, xs[1..])]
    case CheckEmpty(p) => if s.children[p] == {} then [CallById(p)] else []
    case CallById(x) => if x in s.wait then TopOfCall(s, x) else []
    case _ => []
  }

  lemma StepStack(c: Config)
    requires c.Config? && c.stack != [] && FramesInForest(c)
    ensures c.stack[0].Request? || c.stack[0].CheckEmpty? ==> c.stack[0].id in c.s.nodes
    ensures Step(c).Config? ==> Step(c).stack == Pushed(c.s, c.stack[0]) + c.stack[1..]
  {
    hide Forest, RequestFrames, CallStep, TopOfCall;
    var s, f := c.s, c.stack[0];
    assert f in c.stack;
    if f.CallById? && f.id in s.wait {
      CallStepTop(s, f.id, c.stack[1..]);
    }
  }

  lemma StepOnTop(c: Config, top: seq<Frame>, rest: seq<Frame>)
    requires c.Config? && FramesInForest(c) && c.stack == top + rest && top != []
    ensures Step(c).Config? ==> exists more: seq<Frame> :: Step(c).stack == more + rest
  {
    hide Forest, Step, Shape, Pushed;
    StepStack(c);
    InForestShape(c);
    if Step(c).Config? {
      var more := Pushed(c.s, c.stack[0]) + top[1..];
      assert c.stack[1..] == top[1..] + rest;
      assert Step(c).stack == more + rest;
    }
  }

  lemma InForestShape(c: Config)
    requires c.Config? && FramesInForest(c)
    ensures Shape(c.s)
  {
  }

  /** Every cascade on top of a stack comes back to it, unless it breaks. */
  lemma {:induction false} Returns(c: Config, top: seq<Frame>, rest: seq<Frame>) returns (d: Config)
    requires Inv(c) && c.stack == top + rest
    ensures Through(c, d) && (RunToEnd(c).Broken? || (d.Config? && d.stack == rest))
    decreases Unrequested(c), Uncalled(c), Weight(c.stack)
  {
    hide Life, Stack, Books, Forest, Step, RunToEnd, Inv, FramesInForest;
    if top == [] {
      d := c;
      assert top + rest == rest;
      ThroughSelf(c);
    } else {
      InvReady(c);
      StepThrough(c);
      StepDescends(c);
      StepOnTop(c, top, rest);
      d := c;
      if Step(c).Config? {
        var more: seq<Frame> :| Step(c).stack == more + rest;
        d := Returns(Step(c), more, rest);
        ThroughTrans(c, Step(c), d);
        ThroughEnd(c, Step(c));
      } else {
        ThroughSelf(c);
      }
    }
  }

  lemma ThroughSelf(c: Config)
    requires Inv(c)
    ensures Through(c, c)
  {
  }

  lemma ThroughEnd(c: Config, d: Config)
    requires Inv(c) && Through(c, d) && d.Config? && Inv(d)
    ensures RunToEnd(d).Broken? ==> RunToEnd(c).Broken?
  {
  }

  /** A composite is not called while one of its children is not, unless somebody replied to its id. */
  lemma NotBeforeKids(s: State, q: Id, m: Id)
    requires Shape(s) && History(s.nodes, s.log, s.past) && Kid(s.nodes, q, m) && m !in s.past.called && q !in s.past.replied
    ensures q !in s.past.called
  {
    if q in s.past.called {
      PastAt(s.log, Called, q);
      var i :| At(s.log, i, Called, q);
      assert Caused(s.nodes, PastOf(s.log[..i]), s.log[i]);
      PastGrows(s.log, i);
      if m in PastOf(s.log[..i]).called {
        PastAt(s.log[..i], Called, m);
        var j :| At(s.log[..i], j, Called, m);
        assert At(s.log, j, Called, m);
        PastAt(s.log, Called, m);
      }
    }
  }

  ghost predicate Untouched(s: State, q: Id) {
    q !in s.past.replied && q !in s.past.timeouted && q !in s.past.canceled
  }

  /** A composite whose child waits, waits. */
  lemma StillWaiting(s: State, q: Id, m: Id)
    requires Life(s) && Kid(s.nodes, q, m) && m in s.wait && m !in s.past.called && Untouched(s, q)
    ensures q in s.wait
  {
    hide Forest, Times, Pressed, Family, History;
    NotBeforeKids(s, q, m);
    ParentRequested(s, m);
  }

  lemma SerialCalled(c: Config, q: Id, m: Id, under: seq<Frame>)
    requires Inv(c) && c.stack == [CallById(m)] + under && m in c.s.wait && Kid(c.s.nodes, q, m)
    requires q in c.s.nodes && c.s.nodes[q].kind.Serial? && Untouched(c.s, q)
    ensures Shape(c.s) && FramesInForest(c) && q in c.s.children && q in c.s.wait
    ensures Step(c) == Config(Answered(c.s, m), AnsweredFrames(c.s, m) + under)
    ensures Uncalled(Step(c)) < Uncalled(c)
  {
    hide Forest, History, Family, Times, Pressed, Books, Separate, Erasing, FrameOk, Frames, Step, CallStep;
    var s := c.s;
    InvReady(c);
    CallStepNow(c, m, under);
    CallStepGoesOn(s, m, under);
    StepCall(s, m, under);
    StillWaiting(s, q, m);
    AnsweredNodes(s, m);
    CardLess(s.nodes.Keys, s.past.called, m);
  }

  lemma AnsweredSerial(s: State, q: Id, m: Id)
    requires Shape(s) && Kid(s.nodes, q, m) && q in s.nodes && s.nodes[q].kind.Serial?
    ensures q in s.children && q in Answered(s, m).children && Answered(s, m).wait == s.wait
    ensures if Answered(s, m).children[q] == {} then AnsweredFrames(s, m) == [CheckEmpty(q), Erase(m)]
            else exists k :: Kid(s.nodes, q, k) && AnsweredFrames(s, m) == [Request(k)] + [CheckEmpty(q), Erase(m)]
  {
    if Answered(s, m).children[q] != {} {
      NextKid(s, q, m, First(Answered(s, m).children[q]));
    }
  }

  /** What triggerCall does for the child m of a serial: the next child is requested, or the serial is called. */
  lemma SerialCall(c: Config, q: Id, m: Id, under: seq<Frame>) returns (d: Config)
    requires Inv(c) && c.Config? && c.stack == [CallById(m)] + under && m in c.s.wait && Kid(c.s.nodes, q, m)
    requires q in c.s.nodes && c.s.nodes[q].kind.Serial? && Untouched(c.s, q)
    ensures Through(c, d) && d.Config? && (RunToEnd(c).Broken? || Inv(d))
    ensures d.s.nodes == c.s.nodes && Uncalled(d) < Uncalled(c)
    ensures (d.stack == [CallById(q)] + ([Erase(m)] + under) && q in d.s.wait)
            || exists k :: Kid(c.s.nodes, q, k) && d.stack == [Request(k)] + ([CheckEmpty(q), Erase(m)] + under)
  {
    hide Life, Stack, Books, Forest, RunToEnd, Step, Inv, Through, Answered, AnsweredFrames;
    SerialCalled(c, q, m, under);
    AnsweredSerial(c.s, q, m);
    AnsweredNodes(c.s, m);
    StepThrough(c);
    d := Step(c);
    if d.s.children[q] == {} {
      assert d.stack == [CheckEmpty(q)] + ([Erase(m)] + under);
      StepThrough(d);
      CheckStepNow(d, q, [Erase(m)] + under);
      ThroughTrans(c, d, Step(d));
      d := Step(d);
    } else {
      var k :| Kid(c.s.nodes, q, k) && AnsweredFrames(c.s, m) == [Request(k)] + [CheckEmpty(q), Erase(m)];
      assert d.stack == [Request(k)] + ([CheckEmpty(q), Erase(m)] + under);
    }
  }

  lemma CallStepNow(c: Config, m: Id, under: seq<Frame>)
    requires c.Config? && FramesInForest(c) && c.stack == [CallById(m)] + under && m in c.s.wait
    ensures m in c.s.nodes && Step(c) == CallStep(c.s, m, under)
  {
  }

  lemma CheckStepNow(c: Config, q: Id, under: seq<Frame>)
    requires c.Config? && FramesInForest(c) && c.stack == [CheckEmpty(q)] + under && q in c.s.children && c.s.children[q] == {}
    ensures Step(c) == Config(c.s, [CallById(q)] + under)
  {
  }

  lemma NextKid(s: State, q: Id, m: Id, k: Id)
    requires Shape(s) && Kid(s.nodes, q, m) && k in Answered(s, m).children[q]
    ensures Kid(s.nodes, q, k)
  {
  }

  ghost predicate Ends(c: Config, d: Config, r: Id, rest: seq<Frame>)
    requires Inv(c)
  {
    Through(c, d) &&
    (RunToEnd(c).Broken? || (d.Config? && r in d.s.wait && exists mid: seq<Frame> :: d.stack == [CallById(r)] + (mid + rest)))
  }

  lemma EndsLater(c: Config, d: Config, e: Config, r: Id, top: seq<Frame>, rest: seq<Frame>)
    requires Inv(c) && Through(c, d) && Inv(d) && Ends(d, e, r, top + rest)
    ensures Ends(c, e, r, rest)
  {
    hide Life, Stack, Books;
    ThroughTrans(c, d, e);
    if RunToEnd(c).Config? {
      var mid: seq<Frame> :| e.stack == [CallById(r)] + (mid + (top + rest));
      assert mid + (top + rest) == (mid + top) + rest;
    }
  }

  lemma EndsBroken(c: Config, r: Id, rest: seq<Frame>)
    requires Inv(c) && RunToEnd(c).Broken?
    ensures Ends(c, c, r, rest)
  {
  }

  /** Requesting an RPC that completes leads to its call before the request is over, or breaks before. */
  lemma {:induction false} Reaches(c: Config, r: Id, rest: seq<Frame>) returns (d: Config)
    requires Inv(c) && c.Config? && Forest(c.s.nodes, c.s.height) && c.stack == [Request(r)] + rest
    requires r in c.s.nodes && Completes(c.s.nodes, c.s.height, r)
    ensures Ends(c, d, r, rest)
    decreases c.s.height - c.s.nodes[r].depth, 1, 0
  {
    hide Life, Stack, Books, Forest, RunToEnd, Step, Inv, Through;
    InvReady(c);
    StepThrough(c);
    if Step(c).Broken? {
      d := c;
      EndsBroken(c, r, rest);
    } else if c.s.nodes[r].kind.Leaf? {
      d := Step(c);
      LeafRequested(c, r, rest);
      assert d.stack == [CallById(r)] + ([Counted(r)] + rest);
    } else {
      var m := SerialRequested(c, r, rest);
      d := SerialOn(Step(c), r, m, [Counted(r)] + rest);
      EndsLater(c, Step(c), d, r, [Counted(r)], rest);
    }
  }

  lemma LeafRequested(c: Config, r: Id, rest: seq<Frame>)
    requires c.Config? && FramesInForest(c) && c.stack == [Request(r)] + rest && r in c.s.nodes && c.s.nodes[r].kind == Leaf(true)
    ensures Step(c).Config? && Step(c).stack == [CallById(r)] + ([Counted(r)] + rest) && r in Step(c).s.wait
  {
  }

  /** A serial that completes has children, and requests the first. */
  lemma SerialRequested(c: Config, q: Id, rest: seq<Frame>) returns (m: Id)
    requires Inv(c) && c.Config? && FramesInForest(c) && Forest(c.s.nodes, c.s.height) && c.stack == [Request(q)] + rest
    requires q in c.s.nodes && c.s.nodes[q].kind.Serial? && Kids(c.s.nodes, q) != {}
    ensures Step(c).Config? && Step(c).s.nodes == c.s.nodes && Step(c).s.height == c.s.height
    ensures Kid(c.s.nodes, q, m) && Step(c).stack == [Request(m)] + ([Counted(q)] + rest) && Untouched(Step(c).s, q)
  {
    hide Forest, Times, Pressed, Books, Separate, Erasing, Waits, Kept, Alive, OneByOne, History, Left, Exclusive;
    FramesRest(c.s, Request(q), rest);
    FreshKids(c.s, q);
    FreshUntouched(c.s, q);
    m := First(c.s.children[q]);
    assert m in Kids(c.s.nodes, q);
  }

  lemma FreshUntouched(s: State, q: Id)
    requires Exclusive(s.past) && Fresh(s, q)
    ensures Untouched(s, q)
  {
  }

  lemma EndsAt(c: Config, d: Config, r: Id, top: seq<Frame>, rest: seq<Frame>)
    requires Inv(c) && Through(c, d) && d.Config? && r in d.s.wait && d.stack == [CallById(r)] + (top + rest)
    ensures Ends(c, d, r, rest)
  {
    hide Inv, Through;
  }

  lemma EndsParts(c: Config, d: Config, r: Id, rest: seq<Frame>) returns (mid: seq<Frame>)
    requires Inv(c) && Ends(c, d, r, rest) && RunToEnd(c).Config?
    ensures Through(c, d) && d.Config? && r in d.s.wait && d.stack == [CallById(r)] + (mid + rest)
  {
    hide Inv, Through, RunToEnd;
    mid :| d.stack == [CallById(r)] + (mid + rest);
  }

  /** From the request of one child of a serial that completes to the call of the serial. */
  lemma {:induction false} SerialOn(c: Config, q: Id, m: Id, rest: seq<Frame>) returns (d: Config)
    requires Inv(c) && c.Config? && Forest(c.s.nodes, c.s.height) && c.stack == [Request(m)] + rest
    requires q in c.s.nodes && c.s.nodes[q].kind.Serial? && Completes(c.s.nodes, c.s.height, q)
    requires Kid(c.s.nodes, q, m) && Untouched(c.s, q)
    ensures Ends(c, d, q, rest)
    decreases c.s.height - c.s.nodes[q].depth, 0, Uncalled(c)
  {
    hide Forest, RunToEnd, Step, Inv, Through, Completes, Untouched, Ends, Uncalled;
    KidDeeper(c, q, m);
    d := Reaches(c, m, rest);
    if RunToEnd(c).Config? {
      var mid := EndsParts(c, d, m, rest);
      AlongSame(c, d, q);
      var e := SerialCall(d, q, m, mid + rest);
      ThroughTrans(c, d, e);
      ThroughBroken(c, d);
      AlongSame(d, e, q);
      if e.stack == [CallById(q)] + ([Erase(m)] + (mid + rest)) && q in e.s.wait {
        d := e;
        Regroup([Erase(m)], mid, rest);
        EndsAt(c, d, q, [Erase(m)] + mid, rest);
      } else {
        var k :| Kid(c.s.nodes, q, k) && e.stack == [Request(k)] + ([CheckEmpty(q), Erase(m)] + (mid + rest));
        d := SerialOn(e, q, k, [CheckEmpty(q), Erase(m)] + (mid + rest));
        Regroup([CheckEmpty(q), Erase(m)], mid, rest);
        EndsLater(c, e, d, q, [CheckEmpty(q), Erase(m)] + mid, rest);
      }
    } else {
      d := c;
      EndsBroken(c, q, rest);
    }
  }

  lemma Regroup(a: seq<Frame>, b: seq<Frame>, c: seq<Frame>)
    ensures a + (b + c) == (a + b) + c
  {
  }

  lemma KidDeeper(c: Config, q: Id, m: Id)
    requires c.Config? && Forest(c.s.nodes, c.s.height) && q in c.s.nodes && Kid(c.s.nodes, q, m)
    requires c.s.nodes[q].kind.Serial? && Completes(c.s.nodes, c.s.height, q)
    ensures c.s.nodes[m].depth == c.s.nodes[q].depth + 1 && c.s.nodes[m].depth <= c.s.height
    ensures Completes(c.s.nodes, c.s.height, m)
  {
    assert m in Kids(c.s.nodes, q);
    assert KidCompletes(c.s.nodes, c.s.height, q, m);
  }

  /** The trees are the same further on, q is still untouched, and no fewer RPCs are called. */
  lemma AlongSame(c: Config, d: Config, q: Id)
    requires Inv(c) && c.Config? && d.Config? && Through(c, d) && RunToEnd(c).Config? && Untouched(c.s, q)
    ensures Inv(d) && d.s.nodes == c.s.nodes && d.s.height == c.s.height && Untouched(d.s, q) && Uncalled(d) <= Uncalled(c)
    ensures Shape(c.s) && Shape(d.s) && Forest(d.s.nodes, d.s.height)
  {
    hide Stack, Books, RunToEnd, Exclusive, History, Waits, Family, Times, Pressed, Forest;
    FewerLeft(c.s.nodes.Keys, c.s.past.called, d.s.past.called);
  }

  lemma FewerLeft(all: set<Id>, done: set<Id>, more: set<Id>)
    requires done <= more
    ensures |all - more| <= |all - done|
  {
    assert all - more <= all - done;
    SubsetSize(all - more, all - done);
  }

  lemma SubsetSize(a: set<Id>, b: set<Id>)
    requires a <= b
    ensures |a| <= |b|
  {
    assert b == a + (b - a);
  }

  lemma ThroughBroken(c: Config, d: Config)
    requires Inv(c) && Through(c, d) && RunToEnd(c).Config?
    ensures Inv(d) && RunToEnd(d).Config?
  {
  }

  /** In the loop of a parallel the call of a child that is being requested is the breach. */
  lemma CallBreaks(c: Config, p: Id, x: Id, xs: seq<Id>, mid: seq<Frame>, rest: seq<Frame>)
    requires Inv(c) && c.Config? && x in c.s.wait && Kid(c.s.nodes, p, x) && p in c.s.nodes && c.s.nodes[p].kind.Parallel?
    requires c.stack == [CallById(x)] + (mid + ([Loop(Some(p), xs)] + rest))
    ensures RunToEnd(c).Broken?
  {
    hide Forest, History, Times, Pressed, Books, Erasing, FrameOk, Kept, Alive, OneByOne, Left;
    var under := mid + ([Loop(Some(p), xs)] + rest);
    InvReady(c);
    NotCalledYet(c.s, x, under);
    HitsParallel(c.s, x, p);
    assert under[|mid|] == Loop(Some(p), xs);
    assert Iterating(under, p);
    CallStepNow(c, x, under);
    StepThrough(c);
  }

  lemma HitsParallel(s: State, x: Id, p: Id)
    requires Life(s) && x in s.wait && x !in s.past.called && Kid(s.nodes, p, x)
    ensures p in s.children && x in s.children[p]
  {
    hide Forest, History, Times, Pressed, Exclusive;
    WaitingIsNode(s, x);
    ReplyHits(s, x, p);
  }

  lemma LoopNow(c: Config, p: Id, xs: seq<Id>, rest: seq<Frame>)
    requires Inv(c) && c.Config? && FramesInForest(c) && c.stack == [Loop(Some(p), xs)] + rest && xs != []
    ensures Step(c) == Config(c.s, [Request(xs[0])] + ([Loop(Some(p), xs[1..])] + rest))
    ensures Kid(c.s.nodes, p, xs[0]) && p in c.s.nodes && c.s.nodes[p].kind.Parallel?
  {
    hide Life, Separate, Erasing, Books;
    FramesRest(c.s, Loop(Some(p), xs), rest);
    assert xs[0] in xs;
    assert [Request(xs[0]), Loop(Some(p), xs[1..])] + rest == [Request(xs[0])] + ([Loop(Some(p), xs[1..])] + rest);
  }

  /** A loop that still has a child that completes is going to break. */
  lemma {:induction false} LoopBreaks(c: Config, p: Id, xs: seq<Id>, rest: seq<Frame>, x: Id)
    requires Inv(c) && c.Config? && Forest(c.s.nodes, c.s.height) && c.stack == [Loop(Some(p), xs)] + rest
    requires x in xs && x in c.s.nodes && Completes(c.s.nodes, c.s.height, x)
    ensures RunToEnd(c).Broken?
    decreases |xs|
  {
    hide Life, Stack, Books, Forest, RunToEnd, Step, Inv, Through, Completes;
    InvReady(c);
    LoopNow(c, p, xs, rest);
    StepThrough(c);
    var d, tail := Step(c), [Loop(Some(p), xs[1..])] + rest;
    if RunToEnd(c).Config? {
      ThroughBroken(c, d);
      if xs[0] == x {
        var e := Reaches(d, x, tail);
        var mid: seq<Frame> :| e.stack == [CallById(x)] + (mid + tail);
        ThroughNodes(d, e);
        CallBreaks(e, p, x, xs[1..], mid, rest);
        ThroughEnd(d, e);
      } else {
        var e := Returns(d, [Request(xs[0])], tail);
        ThroughNodes(d, e);
        LoopBreaks(e, p, xs[1..], rest, x);
        ThroughEnd(d, e);
      }
    }
  }

  lemma ThroughNodes(c: Config, d: Config)
    requires Inv(c) && c.Config? && d.Config? && Through(c, d) && RunToEnd(c).Config?
    ensures Inv(d) && d.s.nodes == c.s.nodes && d.s.height == c.s.height
  {
  }

  /** Requesting a racy parallel breaks the run. */
  lemma RaceBreaks(c: Config, p: Id, rest: seq<Frame>)
    requires Inv(c) && c.Config? && Forest(c.s.nodes, c.s.height) && c.stack == [Request(p)] + rest && Racy(c.s.nodes, c.s.height, p)
    ensures RunToEnd(c).Broken?
  {
    hide Life, Stack, Books, Forest, RunToEnd, Step, Inv, Through, Completes;
    InvReady(c);
    StepThrough(c);
    var x :| x in Kids(c.s.nodes, p) && Completes(c.s.nodes, c.s.height, x);
    ParallelRequested(c, p, rest);
    var d := Step(c);
    var xs := Sorted(c.s.children[p]);
    LoopBreaks(d, p, xs, [Counted(p)] + rest, x);
    ThroughEnd(c, d);
  }

  lemma ParallelRequested(c: Config, p: Id, rest: seq<Frame>)
    requires Inv(c) && c.Config? && FramesInForest(c) && Forest(c.s.nodes, c.s.height) && c.stack == [Request(p)] + rest
    requires p in c.s.nodes && c.s.nodes[p].kind.Parallel?
    ensures Step(c).Config? && Step(c).s.nodes == c.s.nodes && Step(c).s.height == c.s.height
    ensures p in c.s.children && c.s.children[p] == Kids(c.s.nodes, p)
    ensures Step(c).stack == [Loop(Some(p), Sorted(c.s.children[p]))] + ([Counted(p)] + rest)
  {
    hide Life, Stack, Books, Forest, Step;
    FreshRequest(c.s, p, rest);
    RequestNow(c, p, rest);
    StepHeight(c);
  }

  lemma FreshRequest(s: State, p: Id, rest: seq<Frame>)
    requires Inv(Config(s, [Request(p)] + rest))
    ensures p in s.children && s.children[p] == Kids(s.nodes, p)
  {
    hide Forest, Times, Pressed, Books, Separate, Erasing, Waits, Kept, Alive, OneByOne, History, Left, Exclusive;
    FramesRest(s, Request(p), rest);
    FreshKids(s, p);
  }

  lemma RequestNow(c: Config, p: Id, rest: seq<Frame>)
    requires c.Config? && FramesInForest(c) && c.stack == [Request(p)] + rest && p in c.s.nodes && c.s.nodes[p].kind.Parallel?
    ensures p in c.s.children && Step(c).Config?
    ensures Step(c).stack == [Loop(Some(p), Sorted(c.s.children[p]))] + ([Counted(p)] + rest)
  {
    hide Forest, Enqueue;
  }

  lemma RacyNow(c: Config)
    requires Inv(c) && c.Config? && RequestsRacy(c)
    ensures c.stack != [] && Forest(c.s.nodes, c.s.height) && FramesInForest(c)
    ensures (c.stack[0].Request? && Racy(c.s.nodes, c.s.height, c.stack[0].id))
            || (Step(c).Config? && Inv(Step(c)) && RequestsRacy(Step(c)) && Less(Step(c), c))
  {
    hide Life, Stack, Books, Forest, Step, Racy, Less;
    StepShape(c);
    InvReady(c);
    StepKeeps(c);
    StepDescends(c);
  }

  lemma {:induction false} RaceRun(c: Config)
    requires Inv(c) && c.Config? && Forest(c.s.nodes, c.s.height) && RequestsRacy(c)
    ensures RunToEnd(c).Broken?
    decreases Unrequested(c), Uncalled(c), Weight(c.stack)
  {
    hide Forest, RunToEnd, Step, Inv, Through, Racy, RequestsRacy, Weight, Uncalled, Unrequested, FramesInForest, Shape;
    InvReady(c);
    RacyNow(c);
    if c.stack[0].Request? && Racy(c.s.nodes, c.s.height, c.stack[0].id) {
      assert c.stack == [c.stack[0]] + c.stack[1..];
      RaceBreaks(c, c.stack[0].id, c.stack[1..]);
    } else {
      StepThrough(c);
      StepShape(Step(c));
      RaceRun(Step(c));
      ThroughEnd(c, Step(c));
    }
  }

  // ---------------------------------------------------------------- exactly

  /** No loop of a parallel is running: so it is when a reply comes in, and when run() starts the ready trees. */
  predicate NoLoop(stack: seq<Frame>) {
    forall f | f in stack :: (f.Loop? ==> f.owner == None) && !f.CheckEmpty?
  }

  /** A cascade ends in undefined behaviour if and only if it requests a racy parallel. */
  lemma BreaksIff(c: Config)
    requires Inv(c) && c.Config? && NoLoop(c.stack)
    ensures RunToEnd(c).Broken? <==> RequestsRacy(c)
  {
    hide Life, Stack, Books, Forest, RunToEnd, Racy;
    StepShape(c);
    if RequestsRacy(c) {
      RaceRun(c);
    } else {
      NoLoopSafe(c);
      SafeRun(c);
    }
  }

  lemma NoLoopSafe(c: Config)
    requires c.Config? && Forest(c.s.nodes, c.s.height) && NoLoop(c.stack)
    ensures Safe(c.s, c.stack)
  {
    hide Forest;
  }

  /** A caller can see it from the trees: without racy parallels no run ever breaks. */
  ghost predicate NoRace(nodes: map<Id, Node>, height: nat)
    requires Forest(nodes, height)
  {
    forall p :: !Racy(nodes, height, p)
  }

  lemma {:induction false} NoneRacy(c: Config)
    requires Inv(c) && c.Config? && Forest(c.s.nodes, c.s.height) && NoRace(c.s.nodes, c.s.height)
    ensures !RequestsRacy(c)
    decreases Unrequested(c), Uncalled(c), Weight(c.stack)
  {
    hide Life, Stack, Books, Forest, Racy, Step;
    if c.stack != [] {
      InvReady(c);
      StepKeeps(c);
      StepDescends(c);
      if Step(c).Config? {
        StepHeight(c);
        NoneRacy(Step(c));
      }
    }
  }

  lemma StepHeight(c: Config)
    requires Inv(c) && c.Config? && c.stack != [] && FramesInForest(c)
    ensures Step(c).Config? ==> Step(c).s.nodes == c.s.nodes && Step(c).s.height == c.s.height
  {
    hide Life, Stack, Books, Forest, Step;
    StepAlong(c);
  }

  lemma NeverBroken(s: State, ops: seq<Op>)
    requires Quiet(s) && Legal(s, ops) && Forest(s.nodes, s.height) && NoRace(s.nodes, s.height)
    ensures Execute(s, ops).Config?
    decreases |ops|
  {
    hide Life, Stack, Books, Forest, Racy, Scan, RunToEnd;
    if ops != [] {
      var op := ops[0];
      match op {
        case Submit(r) => SubmitQuiet(s, r);
        case Answer(x) =>
          AnswerInv(s, x);
          var t := if x in s.wait then Log(s, Event(Replied, x, {})) else s;
          NeverBreaks(Config(t, [CallById(x)]));
        case Run(now) =>
          ScanQuiet(s, 0, now);
          ScanSame(s, 0, now);
          var t := Scan(s, 0, now);
          ReadyInv(t);
          NeverBreaks(Config(t.(ready := {}), [Loop(None, Sorted(t.ready))]));
      }
      NeverBroken(Apply(s, op).s, ops[1..]);
    }
  }

  lemma NeverBreaks(c: Config)
    requires Inv(c) && c.Config? && NoLoop(c.stack) && Forest(c.s.nodes, c.s.height) && NoRace(c.s.nodes, c.s.height)
    ensures RunToEnd(c).Config? && RunToEnd(c).s.height == c.s.height
  {
    hide Life, Stack, Books, Forest, RunToEnd, Racy, NoRace;
    NoneRacy(c);
    NoLoopSafe(c);
    SafeRun(c);
  }
}
