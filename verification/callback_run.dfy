/** Every step keeps the invariant, and every cascade of steps comes to an end. */
module CallbackRun {
  import opened Options
  import opened CallbackModel
  import opened CallbackInvariant
  import opened CallbackSteps
  import opened CallbackCall

  lemma CountedConcat(a: seq<Frame>, b: seq<Frame>)
    ensures CountedIn(a + b) == CountedIn(a) + CountedIn(b)
  {
    if a == [] {
      assert a + b == b;
    } else {
      CountedConcat(a[1..], b);
      assert (a + b)[1..] == a[1..] + b;
    }
  }

  lemma CountedRequest(s: State, r: Id)
    requires Shape(s) && r in s.nodes
    ensures CountedIn(RequestFrames(s, r)) == 0
  {
  }

  lemma CountedAnswered(s: State, x: Id)
    requires Shape(s) && x in s.nodes
    ensures CountedIn(AnsweredFrames(s, x)) == 0
  {
    match s.nodes[x].parent {
      case None =>
      case Some(p) =>
        var first := if s.nodes[p].kind.Serial? then FirstRequest(Answered(s, x), p) else [];
        assert [CheckEmpty(p), Erase(x)] == [CheckEmpty(p)] + [Erase(x)];
        CountedConcat([CheckEmpty(p)], [Erase(x)]);
        assert CountedIn(first) == 0;
        CountedConcat(first, [CheckEmpty(p), Erase(x)]);
    }
  }

  lemma RequestIsNew(s: State, r: Id)
    requires FrameOk(s, Request(r))
    ensures r in s.nodes && r !in s.past.requested
  {
  }

  lemma WaitingIsNode(s: State, x: Id)
    requires Shape(s) && x in s.wait
    ensures x in s.nodes && (s.nodes[x].parent.Some? ==> s.nodes[x].parent.value in s.children)
  {
  }

  lemma StepRequest(s: State, r: Id, rest: seq<Frame>)
    requires Inv(Config(s, [Request(r)] + rest))
    ensures r in s.nodes && Inv(Config(Enqueue(s, r), RequestFrames(s, r) + [Counted(r)] + rest))
  {
    hide Shape, Forest, History, Waits, Kept, Alive, OneByOne, Left, Times, FrameOk, Frames, Separate, Erasing;
    FramesRest(s, Request(r), rest);
    RequestIsNew(s, r);
    RequestLife(s, r);
    RequestStack(s, r, rest);
    CountedConcat([Request(r)], rest);
    CountedRequest(s, r);
    CountedConcat(RequestFrames(s, r) + [Counted(r)], rest);
    CountedConcat(RequestFrames(s, r), [Counted(r)]);
  }

  lemma StepCall(s: State, x: Id, rest: seq<Frame>)
    requires Inv(Config(s, [CallById(x)] + rest)) && x in s.wait
    ensures CallStep(s, x, rest).Config? ==>
              && CallStep(s, x, rest) == Config(Answered(s, x), AnsweredFrames(s, x) + rest)
              && Inv(CallStep(s, x, rest))
    ensures x !in s.past.called
  {
    hide Shape, Forest, History, Waits, Kept, Alive, OneByOne, Left, Times, FrameOk, Frames, Separate, Erasing;
    WaitingIsNode(s, x);
    NotCalledYet(s, x, rest);
    if CallStep(s, x, rest).Config? {
      FramesRest(s, CallById(x), rest);
      CallStepIs(s, x, rest);
      CallLife(s, x);
      CallStack(s, x, rest);
      CountedConcat([CallById(x)], rest);
      CountedAnswered(s, x);
      CountedConcat(AnsweredFrames(s, x), rest);
    }
  }

  /** Dropping the top frame. */
  lemma StackRest(s: State, f: Frame, rest: seq<Frame>)
    requires Shape(s) && Stack(s, [f] + rest) && !f.Erase?
    ensures Stack(s, rest)
  {
    FramesRest(s, f, rest);
    ErasingRest(s, f, rest);
    SeparateRest(s.nodes, s.height, f, rest);
  }

  lemma StepLoop(s: State, o: Option<Id>, xs: seq<Id>, rest: seq<Frame>)
    requires Shape(s) && Exclusive(s.past) && Stack(s, [Loop(o, xs)] + rest) && xs != []
    ensures Stack(s, [Request(xs[0]), Loop(o, xs[1..])] + rest)
  {
    FramesRest(s, Loop(o, xs), rest);
    SeparateRest(s.nodes, s.height, Loop(o, xs), rest);
    ErasingRest(s, Loop(o, xs), rest);
    var top := [Request(xs[0]), Loop(o, xs[1..])];
    assert forall x | x in xs[1..] :: x in xs;
    forall f, g | f in top && g in rest ensures Apart(s.nodes, s.height, f, g) {
      assert FrameOk(s, g) && Apart(s.nodes, s.height, Loop(o, xs), g);
      if f == Request(xs[0]) {
        assert Startable(s, xs[0]);
      }
    }
    SeparateConcat(s.nodes, s.height, top, rest);
    assert FrameOk(s, Request(xs[0]));
    assert FrameOk(s, Loop(o, xs[1..]));
  }

  lemma StepCheckEmpty(s: State, p: Id, rest: seq<Frame>)
    requires Shape(s) && Stack(s, [CheckEmpty(p)] + rest)
    ensures p in s.children && (s.children[p] == {} ==> Stack(s, [CallById(p)] + rest))
  {
    FramesRest(s, CheckEmpty(p), rest);
    SeparateRest(s.nodes, s.height, CheckEmpty(p), rest);
    ErasingRest(s, CheckEmpty(p), rest);
    if s.children[p] == {} {
      forall g | g in rest ensures Apart(s.nodes, s.height, CallById(p), g) {
        assert Apart(s.nodes, s.height, CheckEmpty(p), g);
      }
      SeparateConcat(s.nodes, s.height, [CallById(p)], rest);
    }
  }

  lemma StepErase(s: State, x: Id, rest: seq<Frame>)
    requires Life(s) && Stack(s, [Erase(x)] + rest)
    ensures Life(s.(wait := s.wait - {x})) && Stack(s.(wait := s.wait - {x}), rest)
  {
    var t := s.(wait := s.wait - {x});
    FramesRest(s, Erase(x), rest);
    SeparateRest(s.nodes, s.height, Erase(x), rest);
    forall f | f in rest ensures FrameOk(t, f) {
      assert FrameOk(s, f) && Apart(s.nodes, s.height, Erase(x), f);
    }
    forall y | y in t.wait && y in t.past.called ensures Erase(y) in rest {
      assert Erase(y) in [Erase(x)] + rest;
    }
    assert Waits(t) && Family(t) && Times(t) && Pressed(t);
  }

  /** The main invariant lemma: whatever the top frame does, the next configuration is well formed again. */
  lemma StepKeeps(c: Config)
    requires Inv(c) && c.stack != []
    ensures FramesInForest(c)
    ensures Step(c).Config? ==> Inv(Step(c))
  {
    hide Forest, Exclusive, History, Waits, Kept, Alive, OneByOne, Left, Times, Pressed, FrameOk, Separate, Erasing;
    var s, f, rest := c.s, c.stack[0], c.stack[1..];
    assert c.stack == [f] + rest;
    InvInForest(c);
    match f {
      case Request(r) => StepRequest(s, r, rest);
      case CallById(x) =>
        if x in s.wait {
          StepCall(s, x, rest);
        } else {
          StackRest(s, f, rest);
        }
      case Erase(x) => StepErase(s, x, rest);
      case Counted(_) =>
        StackRest(s, f, rest);
        StackSame(s, Step(c).s, rest);
        LifeSame(s, Step(c).s);
      case Loop(o, xs) =>
        StackRest(s, f, rest);
        if xs != [] {
          StepLoop(s, o, xs, rest);
          CountedConcat([Request(xs[0]), Loop(o, xs[1..])], rest);
        }
      case CheckEmpty(p) =>
        StackRest(s, f, rest);
        StepCheckEmpty(s, p, rest);
        CountedConcat([CallById(p)], rest);
    }
  }

  lemma LifeSame(s: State, t: State)
    requires Life(s) && t == s.(stats := t.stats)
    ensures Life(t)
  {
  }

  lemma StackSame(s: State, t: State, stack: seq<Frame>)
    requires Shape(s) && Stack(s, stack) && t == s.(stats := t.stats)
    ensures Stack(t, stack)
  {
    forall f | f in stack ensures FrameOk(t, f) {
      assert FrameOk(s, f);
    }
  }

  // ---------------------------------------------------------------- termination

  function Weight(stack: seq<Frame>): nat {
    if stack == [] then 0 else
      (match stack[0]
       case Loop(_, rest) => 1 + 2 * |rest|
       case CheckEmpty(_) => 2
       case _ => 1) + Weight(stack[1..])
  }

  lemma WeightConcat(a: seq<Frame>, b: seq<Frame>)
    ensures Weight(a + b) == Weight(a) + Weight(b)
  {
    if a == [] {
      assert a + b == b;
    } else {
      WeightConcat(a[1..], b);
      assert (a + b)[1..] == a[1..] + b;
    }
  }

  /** What a cascade can still do: request, call, and unwind. */
  ghost function Unrequested(c: Config): nat
    requires c.Config?
  {
    |c.s.nodes.Keys - c.s.past.requested|
  }

  ghost function Uncalled(c: Config): nat
    requires c.Config?
  {
    |c.s.nodes.Keys - c.s.past.called|
  }

  ghost predicate Less(c: Config, d: Config)
    requires c.Config? && d.Config?
  {
    || Unrequested(c) < Unrequested(d)
    || (Unrequested(c) == Unrequested(d) && Uncalled(c) < Uncalled(d))
    || (Unrequested(c) == Unrequested(d) && Uncalled(c) == Uncalled(d) && Weight(c.stack) < Weight(d.stack))
  }

  lemma CardLess(all: set<Id>, done: set<Id>, x: Id)
    requires x in all && x !in done
    ensures |all - (done + {x})| < |all - done|
  {
    assert all - (done + {x}) == (all - done) - {x};
  }

  lemma AnsweredNodes(s: State, x: Id)
    requires Shape(s) && x in s.nodes
    ensures Answered(s, x).nodes == s.nodes && Answered(s, x).past == Add(s.past, Event(Called, x, {}))
  {
  }

  lemma CallDescends(s: State, x: Id, rest: seq<Frame>)
    requires Inv(Config(s, [CallById(x)] + rest)) && x in s.wait && Shape(s) && x in s.nodes
    ensures CallStep(s, x, rest).Config? ==>
              CallStep(s, x, rest).s.nodes == s.nodes && Less(CallStep(s, x, rest), Config(s, [CallById(x)] + rest))
  {
    hide Shape, Forest, History, Waits, Kept, Alive, OneByOne, Left, Times, FrameOk, Frames, Separate, Erasing;
    StepCall(s, x, rest);
    AnsweredNodes(s, x);
    CardLess(s.nodes.Keys, s.past.called, x);
  }

  lemma RequestDescends(s: State, r: Id, rest: seq<Frame>)
    requires Shape(s) && FrameOk(s, Request(r))
    ensures Enqueue(s, r).nodes == s.nodes
    ensures Less(Config(Enqueue(s, r), RequestFrames(s, r) + [Counted(r)] + rest), Config(s, [Request(r)] + rest))
  {
    CardLess(s.nodes.Keys, s.past.requested, r);
  }

  lemma WeightLoop(o: Option<Id>, xs: seq<Id>, rest: seq<Frame>)
    requires xs != []
    ensures Weight([Request(xs[0]), Loop(o, xs[1..])] + rest) < Weight([Loop(o, xs)] + rest)
  {
    assert [Request(xs[0]), Loop(o, xs[1..])] + rest == [Request(xs[0])] + ([Loop(o, xs[1..])] + rest);
    WeightConcat([Request(xs[0])], [Loop(o, xs[1..])] + rest);
    WeightConcat([Loop(o, xs[1..])], rest);
    WeightConcat([Loop(o, xs)], rest);
  }

  /** Frames that neither request nor call: only the stack gets lighter. */
  lemma UnwindDescends(c: Config, t: State, top: seq<Frame>)
    requires c.Config? && c.stack != []
    requires t.nodes == c.s.nodes && t.past == c.s.past
    requires Weight(top + c.stack[1..]) < Weight(c.stack)
    ensures Less(Config(t, top + c.stack[1..]), c)
  {
  }

  lemma WeightDrop(f: Frame, rest: seq<Frame>)
    ensures Weight(rest) < Weight([f] + rest)
    ensures f.CheckEmpty? ==> Weight([CallById(f.id)] + rest) < Weight([f] + rest)
  {
    WeightConcat([f], rest);
    if f.CheckEmpty? {
      WeightConcat([CallById(f.id)], rest);
    }
  }

  lemma StepDescends(c: Config)
    requires c.Config? && Inv(c) && c.stack != [] && FramesInForest(c)
    ensures Step(c).Config? ==> Step(c).s.nodes == c.s.nodes && Less(Step(c), c)
  {
    hide Less, Inv, Shape, FrameOk, CallStep, Enqueue, RequestFrames, FramesInForest, Weight;
    var s, f, rest := c.s, c.stack[0], c.stack[1..];
    assert c.stack == [f] + rest && [] + rest == rest;
    InvFrames(c);
    FramesRest(s, f, rest);
    WeightDrop(f, rest);
    match f {
      case Request(r) => RequestDescends(s, r, rest);
      case CallById(x) =>
        if x in s.wait {
          WaitingIsNode(s, x);
          CallDescends(s, x, rest);
        } else {
          UnwindDescends(c, s, []);
          }
      case Erase(x) =>
        UnwindDescends(c, s.(wait := s.wait - {x}), []);
      case Counted(_) =>
        UnwindDescends(c, s.(stats := s.stats.(requested := s.stats.requested + 1)), []);
      case Loop(o, xs) =>
        if xs != [] {
          WeightLoop(o, xs, rest);
          UnwindDescends(c, s, [Request(xs[0]), Loop(o, xs[1..])]);
        } else {
          UnwindDescends(c, s, []);
          }
      case CheckEmpty(p) =>
        UnwindDescends(c, s, if s.children[p] == {} then [CallById(p)] else []);
    }
  }

  lemma InvFrames(c: Config)
    requires Inv(c)
    ensures Shape(c.s) && Frames(c.s, c.stack)
  {
  }

  /** The effect of a whole call into the scheduler: small steps until the stack is empty (or Broken). */
  ghost function RunToEnd(c: Config): (e: Config)
    requires c.Config? ==> Inv(c)
    ensures e.Config? ==> c.Config? && e.stack == [] && Inv(e) && e.s.nodes == c.s.nodes
    decreases c.Config?, if c.Config? then Unrequested(c) else 0, if c.Config? then Uncalled(c) else 0,
              if c.Config? then Weight(c.stack) else 0
  {
    if c.Broken? || c.stack == [] then c else
      StepKeeps(c);
      StepDescends(c);
      RunToEnd(Step(c))
  }
}
