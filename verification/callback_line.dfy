/**
 The order of the requests: a turn of run() requests every ready RPC, by growing id, and a composite its
 children by growing id, whatever runs inside each request. An answer is called at once.
 */
module CallbackLine {
  import opened Options
  import opened CallbackModel
  import opened CallbackInvariant
  import opened CallbackSteps
  import opened CallbackCall
  import opened CallbackRun
  import opened CallbackTimeout
  import opened CallbackApi
  import opened CallbackTheorems
  import opened CallbackOrder
  import opened CallbackProgress
  import opened CallbackRace
  import opened CallbackReach
  import opened CallbackTimely

  // ---------------------------------------------------------------- the lines

  /** Whom a loop requests: the children of its parallel, or the RPCs that were ready when the turn began. */
  ghost function Members(nodes: map<Id, Node>, ready: set<Id>, owner: Option<Id>): set<Id> {
    match owner
    case None => ready
    case Some(p) => Kids(nodes, p)
  }

  /** Every smaller one of its line is requested before r is. */
  ghost predicate InLine(nodes: map<Id, Node>, ready: set<Id>, requested: set<Id>, r: Id) {
    && (r in ready ==> forall d | d in ready && d < r :: d in requested)
    && (r in nodes && nodes[r].parent.Some? ==>
          var p := nodes[r].parent.value;
          p in nodes && nodes[p].kind.Parallel? ==> forall d: Id | Kid(nodes, p, d) && d < r :: d in requested)
  }

  ghost predicate Ascending(xs: seq<Id>) {
    forall i, j | 0 <= i < j < |xs| :: xs[i] < xs[j]
  }

  /** A loop under way: in order, and who is neither to come nor requested is being requested, and comes first. */
  ghost predicate Queued(nodes: map<Id, Node>, ready: set<Id>, requested: set<Id>, top: Frame, f: Frame) {
    match f
    case Request(r) => InLine(nodes, ready, requested, r)
    case Loop(owner, rest) =>
      && Ascending(rest)
      && (forall d | d in Members(nodes, ready, owner) && d !in rest ::
            d in requested || (top == Request(d) && forall x | x in rest :: d < x))
    case _ => true
  }

  /** Each request since the beginning of the turn found the smaller ones of its line requested. */
  ghost predicate LinedUp(nodes: map<Id, Node>, ready: set<Id>, start: nat, log: seq<Event>) {
    forall i | start <= i < |log| && log[i].kind == Requested :: InLine(nodes, ready, PastOf(log[..i]).requested, log[i].id)
  }

  ghost predicate QueuedAll(nodes: map<Id, Node>, ready: set<Id>, requested: set<Id>, stack: seq<Frame>) {
    forall f | f in stack :: Queued(nodes, ready, requested, stack[0], f)
  }

  /** Whoever was ready is requested or about to be. */
  ghost predicate NobodyLost(ready: set<Id>, requested: set<Id>, stack: seq<Frame>) {
    forall d | d in ready :: d in requested || Awaited(stack, d)
  }

  ghost predicate Lines(s: State, stack: seq<Frame>, ready: set<Id>, start: nat) {
    && LinedUp(s.nodes, ready, start, s.log)
    && QueuedAll(s.nodes, ready, s.past.requested, stack)
    && NobodyLost(ready, s.past.requested, stack)
  }

  // ---------------------------------------------------------------- steps

  /** A frame below the top, when the top gives way to frames that request nobody it waits for. */
  lemma QueuedStays(nodes: map<Id, Node>, ready: set<Id>, before: set<Id>, after: set<Id>, f: Frame, top: Frame, g: Frame)
    requires Queued(nodes, ready, before, f, g) && before <= after && !g.Request?
    requires f.Request? ==> f.id in after
    ensures Queued(nodes, ready, after, top, g)
  {
  }

  lemma QueuedRest(nodes: map<Id, Node>, ready: set<Id>, before: set<Id>, after: set<Id>, f: Frame, top: seq<Frame>, rest: seq<Frame>)
    requires QueuedAll(nodes, ready, before, [f] + rest) && before <= after && forall g | g in rest :: !g.Request?
    requires f.Request? ==> f.id in after
    requires forall g | g in top :: Queued(nodes, ready, after, top[0], g)
    ensures QueuedAll(nodes, ready, after, top + rest)
  {
    hide Queued;
    forall g | g in top + rest ensures Queued(nodes, ready, after, (top + rest)[0], g) {
      if g !in top {
        assert g in [f] + rest;
        QueuedStays(nodes, ready, before, after, f, (top + rest)[0], g);
      }
    }
  }

  lemma NobodyRest(ready: set<Id>, before: set<Id>, after: set<Id>, f: Frame, top: seq<Frame>, rest: seq<Frame>)
    requires NobodyLost(ready, before, [f] + rest) && before <= after
    requires forall k | k in Pending(f) :: k in after || Awaited(top, k)
    ensures NobodyLost(ready, after, top + rest)
  {
    forall d | d in ready ensures d in after || Awaited(top + rest, d) {
      AwaitedRest(f, top, rest, d);
    }
  }

  /** Only the top frame is a request. */
  lemma NoRequestBelow(c: Config)
    requires Inv(c) && c.Config? && c.stack != []
    ensures forall g | g in c.stack[1..] :: !g.Request?
  {
    hide Books, Frames, Erasing, Forest, Exclusive, History, Waits, Family, Times, Pressed;
    var s, f, rest := c.s, c.stack[0], c.stack[1..];
    assert c.stack == [f] + rest;
    SeparateRest(s.nodes, s.height, f, rest);
  }

  lemma LinedUpGrows(nodes: map<Id, Node>, ready: set<Id>, start: nat, log: seq<Event>, e: Event)
    requires LinedUp(nodes, ready, start, log)
    requires e.kind == Requested ==> InLine(nodes, ready, PastOf(log).requested, e.id)
    ensures LinedUp(nodes, ready, start, log + [e])
  {
    hide InLine, PastOf;
    var more := log + [e];
    assert more[..|log|] == log;
    forall i | start <= i < |more| && more[i].kind == Requested
      ensures InLine(nodes, ready, PastOf(more[..i]).requested, more[i].id)
    {
      if i < |log| {
        assert more[..i] == log[..i];
      }
    }
  }

  /** The frames of a request start with the smallest child. */
  lemma RequestQueued(s: State, r: Id, ready: set<Id>, after: set<Id>)
    requires Shape(s) && r in s.nodes && (forall k | k in ready && k in s.nodes :: s.nodes[k].parent == None)
    requires s.nodes[r].kind.Parallel? ==> s.children[r] == Kids(s.nodes, r)
    ensures var top := RequestFrames(s, r) + [Counted(r)];
            forall g | g in top :: Queued(s.nodes, ready, after, top[0], g)
  {
    hide Forest;
    if s.nodes[r].kind.Serial? && s.children[r] != {} {
      FirstInLine(s, r, ready, after);
    }
  }

  lemma FirstInLine(s: State, p: Id, ready: set<Id>, requested: set<Id>)
    requires Shape(s) && p in s.nodes && s.nodes[p].kind.Serial? && s.children[p] != {}
    requires forall k | k in ready && k in s.nodes :: s.nodes[k].parent == None
    ensures InLine(s.nodes, ready, requested, First(s.children[p]))
  {
    hide Forest;
    assert Kid(s.nodes, p, First(s.children[p]));
  }

  ghost predicate Rooted(nodes: map<Id, Node>, ready: set<Id>) {
    forall k | k in ready && k in nodes :: nodes[k].parent == None
  }

  lemma LinesRequest(s: State, r: Id, rest: seq<Frame>, ready: set<Id>, start: nat)
    requires Inv(Config(s, [Request(r)] + rest)) && Lines(s, [Request(r)] + rest, ready, start) && Rooted(s.nodes, ready)
    ensures Shape(s) && r in s.nodes && Lines(Enqueue(s, r), RequestFrames(s, r) + [Counted(r)] + rest, ready, start)
  {
    hide Forest, Waits, Times, Pressed, Books, Separate, Erasing, Kept, Alive, OneByOne, Left, Exclusive, Ordered,
         InLine, LinedUp, Members;
    FramesRest(s, Request(r), rest);
    RequestIsNew(s, r);
    FreshKids(s, r);
    NoRequestBelow(Config(s, [Request(r)] + rest));
    assert ([Request(r)] + rest)[1..] == rest;
    var t, top := Enqueue(s, r), RequestFrames(s, r) + [Counted(r)];
    assert Request(r) in [Request(r)] + rest;
    EnqueueIndex(s, r);
    EnqueuePast(s, r);
    RequestQueued(s, r, ready, t.past.requested);
    hide Queued, RequestFrames, Enqueue, Shape, Frames;
    LinesOn(s, t, Request(r), top, rest, ready, start);
    LinedNow(s, r, [Request(r)] + rest, ready, start);
  }

  lemma LinedNow(s: State, r: Id, stack: seq<Frame>, ready: set<Id>, start: nat)
    requires LinedUp(s.nodes, ready, start, s.log) && PastOf(s.log) == s.past && Request(r) in stack
    requires QueuedAll(s.nodes, ready, s.past.requested, stack)
    ensures LinedUp(s.nodes, ready, start, s.log + [Event(Requested, r, {})])
  {
    hide InLine, LinedUp, Members, PastOf;
    assert Queued(s.nodes, ready, s.past.requested, stack[0], Request(r));
    LinedUpGrows(s.nodes, ready, start, s.log, Event(Requested, r, {}));
  }

  lemma EnqueuePast(s: State, r: Id)
    requires Shape(s) && r in s.nodes
    ensures Enqueue(s, r).past.requested == s.past.requested + {r} && Enqueue(s, r).nodes == s.nodes
  {
    hide Forest, Insert;
  }

  lemma LinesOn(s: State, t: State, f: Frame, top: seq<Frame>, rest: seq<Frame>, ready: set<Id>, start: nat)
    requires Lines(s, [f] + rest, ready, start) && t.nodes == s.nodes && s.past.requested <= t.past.requested
    requires forall g | g in rest :: !g.Request?
    requires f.Request? ==> f.id in t.past.requested
    requires forall g | g in top :: Queued(s.nodes, ready, t.past.requested, top[0], g)
    requires forall k | k in Pending(f) :: k in t.past.requested || Awaited(top, k)
    ensures QueuedAll(t.nodes, ready, t.past.requested, top + rest) && NobodyLost(ready, t.past.requested, top + rest)
  {
    hide QueuedAll, NobodyLost, LinedUp, Queued;
    QueuedRest(s.nodes, ready, s.past.requested, t.past.requested, f, top, rest);
    NobodyRest(ready, s.past.requested, t.past.requested, f, top, rest);
  }

  /** Steps that request nobody. */
  lemma LinesRest(s: State, t: State, f: Frame, top: seq<Frame>, rest: seq<Frame>, ready: set<Id>, start: nat)
    requires Lines(s, [f] + rest, ready, start) && t.nodes == s.nodes && s.past.requested == t.past.requested && !f.Request?
    requires t.log == s.log || exists x :: t.log == s.log + [Event(Called, x, {})]
    requires forall g | g in rest :: !g.Request?
    requires forall g | g in top :: Queued(s.nodes, ready, t.past.requested, top[0], g)
    requires forall k | k in Pending(f) :: Awaited(top, k)
    ensures Lines(t, top + rest, ready, start)
  {
    hide QueuedAll, NobodyLost, LinedUp, Queued;
    LinesOn(s, t, f, top, rest, ready, start);
    if t.log != s.log {
      var x :| t.log == s.log + [Event(Called, x, {})];
      LinedUpGrows(s.nodes, ready, start, s.log, Event(Called, x, {}));
    }
  }

  /** The next one of a loop is in line. */
  lemma LoopQueued(c: Config, o: Option<Id>, xs: seq<Id>, ready: set<Id>)
    requires Inv(c) && c.Config? && c.stack != [] && c.stack[0] == Loop(o, xs) && xs != []
    requires Queued(c.s.nodes, ready, c.s.past.requested, c.stack[0], c.stack[0]) && Rooted(c.s.nodes, ready)
    ensures var top := [Request(xs[0]), Loop(o, xs[1..])];
            forall g | g in top :: Queued(c.s.nodes, ready, c.s.past.requested, top[0], g)
  {
    hide Life, Separate, Erasing, Books;
    assert c.stack[0] in c.stack;
    assert FrameOk(c.s, Loop(o, xs));
    assert xs[0] in xs && Startable(c.s, xs[0]) && c.s.nodes[xs[0]].parent == o;
    forall d | d in Members(c.s.nodes, ready, o) && d !in xs[1..]
      ensures d in c.s.past.requested || (d == xs[0] && forall x | x in xs[1..] :: d < x)
    {
      if d !in c.s.past.requested {
        assert d in xs;
      }
    }
    forall d | d in Members(c.s.nodes, ready, o) && d < xs[0] ensures d in c.s.past.requested {
      assert d !in xs;
    }
    assert InLine(c.s.nodes, ready, c.s.past.requested, xs[0]);
  }

  /** After an answer the next child of a serial may be requested: no line it has to keep. */
  lemma AnsweredQueued(s: State, x: Id, ready: set<Id>, after: set<Id>)
    requires Shape(s) && x in s.nodes && (s.nodes[x].parent.Some? ==> s.nodes[x].parent.value in s.children)
    requires Shape(Answered(s, x)) && Rooted(s.nodes, ready)
    ensures var top := AnsweredFrames(s, x);
            forall g | g in top :: Queued(s.nodes, ready, after, top[0], g)
  {
    hide Forest;
    if s.nodes[x].parent.Some? {
      var p, t := s.nodes[x].parent.value, Answered(s, x);
      if s.nodes[p].kind.Serial? && t.children[p] != {} {
        FirstInLine(t, p, ready, after);
      }
    }
  }

  lemma AnsweredLog(s: State, x: Id)
    requires Shape(s) && x in s.nodes && (s.nodes[x].parent.Some? ==> s.nodes[x].parent.value in s.children)
    ensures Answered(s, x).log == s.log + [Event(Called, x, {})] && Answered(s, x).nodes == s.nodes
    ensures Answered(s, x).past.requested == s.past.requested
  {
  }

  lemma LinesCall(s: State, x: Id, rest: seq<Frame>, ready: set<Id>, start: nat)
    requires Inv(Config(s, [CallById(x)] + rest)) && x in s.wait && Lines(s, [CallById(x)] + rest, ready, start)
    requires forall g | g in rest :: !g.Request?
    requires Rooted(s.nodes, ready)
    ensures CallStep(s, x, rest).Config? ==> Lines(CallStep(s, x, rest).s, CallStep(s, x, rest).stack, ready, start)
  {
    hide Shape, Life, Stack, Books, Lines, Queued, Answered, AnsweredFrames;
    StepCall(s, x, rest);
    LifeShape(s);
    WaitingIsNode(s, x);
    if CallStep(s, x, rest).Config? {
      LifeShape(Answered(s, x));
      AnsweredLog(s, x);
      AnsweredQueued(s, x, ready, s.past.requested);
      LinesRest(s, Answered(s, x), CallById(x), AnsweredFrames(s, x), rest, ready, start);
    }
  }

  lemma LifeShape(s: State)
    requires Life(s)
    ensures Shape(s)
  {
  }

  lemma TopQueued(s: State, stack: seq<Frame>, ready: set<Id>, start: nat)
    requires Lines(s, stack, ready, start) && stack != []
    ensures Queued(s.nodes, ready, s.past.requested, stack[0], stack[0])
  {
    hide Queued, LinedUp;
    assert stack[0] in stack;
  }

  /** Calls keep no line. */
  lemma PlainQueued(nodes: map<Id, Node>, ready: set<Id>, requested: set<Id>, top: Frame, g: Frame)
    requires g.CallById?
    ensures Queued(nodes, ready, requested, top, g)
  {
  }

  lemma LinesStep(c: Config, ready: set<Id>, start: nat)
    requires Inv(c) && c.Config? && c.stack != [] && FramesInForest(c) && Lines(c.s, c.stack, ready, start) && Rooted(c.s.nodes, ready)
    ensures Step(c).Config? ==> Lines(Step(c).s, Step(c).stack, ready, start)
  {
    hide Life, Stack, Books, Forest, Lines, Shape, FrameOk, RequestFrames, Enqueue, CallStep, Queued;
    var s, f, rest := c.s, c.stack[0], c.stack[1..];
    assert c.stack == [f] + rest && [] + rest == rest;
    assert f in c.stack;
    NoRequestBelow(c);
    TopQueued(s, c.stack, ready, start);
    match f {
      case Request(r) => LinesRequest(s, r, rest, ready, start);
      case CallById(x) =>
        if x in s.wait {
          LinesCall(s, x, rest, ready, start);
        } else {
          LinesRest(s, s, f, [], rest, ready, start);
        }
      case Erase(x) => LinesRest(s, s.(wait := s.wait - {x}), f, [], rest, ready, start);
      case Counted(_) => LinesRest(s, s.(stats := s.stats.(requested := s.stats.requested + 1)), f, [], rest, ready, start);
      case Loop(o, xs) =>
        if xs == [] {
          LinesRest(s, s, f, [], rest, ready, start);
        } else {
          LoopAwaits(o, xs);
          LoopQueued(c, o, xs, ready);
          LinesRest(s, s, f, [Request(xs[0]), Loop(o, xs[1..])], rest, ready, start);
        }
      case CheckEmpty(p) =>
        CheckedKnown(c, p);
        PlainQueued(s.nodes, ready, s.past.requested, CallById(p), CallById(p));
        LinesRest(s, s, f, if s.children[p] == {} then [CallById(p)] else [], rest, ready, start);
    }
  }

  lemma {:induction false} LinesRun(c: Config, ready: set<Id>, start: nat)
    requires Inv(c) && c.Config? && Lines(c.s, c.stack, ready, start) && Rooted(c.s.nodes, ready)
    ensures RunToEnd(c).Config? ==> Lines(RunToEnd(c).s, [], ready, start) && RunToEnd(c).s.ready == c.s.ready
    decreases Unrequested(c), Uncalled(c), Weight(c.stack)
  {
    hide Inv, Forest, Step, Lines, Shape, FramesInForest;
    if c.stack != [] {
      InvReady(c);
      LinesStep(c, ready, start);
      StepWorks(c);
      StepReady(c);
      OneStep(c);
      StepDescends(c);
      if Step(c).Config? {
        LinesRun(Step(c), ready, start);
      } else {
        BrokenEnds();
      }
    }
  }

  lemma StepReady(c: Config)
    requires c.Config? && c.stack != [] && FramesInForest(c)
    ensures Step(c).Config? ==> Step(c).s.ready == c.s.ready
  {
    hide Forest, Insert;
  }

  // ---------------------------------------------------------------- whole runs

  /** The loop of a turn at its start: in order, and nobody is missing. */
  lemma LoopBegins(nodes: map<Id, Node>, all: set<Id>, ready: set<Id>, requested: set<Id>, f: Frame)
    requires f == Loop(None, Sorted(all)) && (ready == {} || ready == all)
    ensures Queued(nodes, ready, requested, f, f) && forall d | d in ready :: d in Pending(f)
  {
    hide Sorted, InLine, Kids;
  }

  lemma LinesBegin(s: State, f: Frame, ready: set<Id>, start: nat)
    requires LinedUp(s.nodes, ready, start, s.log) && Queued(s.nodes, ready, s.past.requested, f, f)
    requires forall d | d in ready :: d in Pending(f)
    ensures Lines(s, [f], ready, start)
  {
    hide LinedUp, Queued, Pending;
    forall d | d in ready ensures Awaited([f], d) {
      assert f in [f];
    }
  }

  lemma LinesEnd(s: State, ready: set<Id>, start: nat)
    requires Lines(s, [], ready, start)
    ensures LinedUp(s.nodes, ready, start, s.log) && ready <= s.past.requested
  {
    hide LinedUp;
    forall d | d in ready ensures d in s.past.requested {
      assert !Awaited([], d);
    }
  }

  /** With no turn under way only the parallels keep their lines. */
  ghost predicate AllLined(s: State) {
    LinedUp(s.nodes, {}, 0, s.log)
  }

  lemma LinedSilent(nodes: map<Id, Node>, ready: set<Id>, start: nat, log: seq<Event>, more: seq<Event>)
    requires LinedUp(nodes, ready, start, log) && Extends(log, more)
    requires forall i | |log| <= i < |more| :: more[i].kind != Requested
    ensures LinedUp(nodes, ready, start, more)
  {
    hide InLine, PastOf;
    forall i | start <= i < |more| && more[i].kind == Requested ensures InLine(nodes, ready, PastOf(more[..i]).requested, more[i].id) {
      assert more[..i] == log[..i] && more[i] == log[i];
    }
  }

  /** The timeouts of a turn. */
  lemma TimeoutsSilent(before: seq<Event>, nodes: map<Id, Node>, wait: set<Id>, index: seq<(int, Id)>, log: seq<Event>, more: seq<Event>, now: int)
    requires TimesOut(before, nodes, wait, index, log, more, now)
    ensures Extends(log, more) && forall i | |log| <= i < |more| :: more[i].kind != Requested
  {
    hide Before, NotEarly;
  }

  lemma {:induction false} ScanReady(s: State, i: nat, now: int)
    requires Shape(s) && i <= |s.index|
    ensures Scan(s, i, now).ready == s.ready
    decreases |s.index| - i
  {
    if i < |s.index| {
      ScanAtShape(s, i, now);
      ScanAtReady(s, i, now);
      hide ScanAt, Shape;
      var t := ScanAt(s, i, now);
      ScanReady(t, if |t.index| < |s.index| then i else i + 1, now);
    }
  }

  lemma ScanAtReady(s: State, i: nat, now: int)
    requires Shape(s) && i < |s.index|
    ensures ScanAt(s, i, now).ready == s.ready
  {
    hide Under, Forest;
  }

  lemma ReadyRooted(s: State)
    requires Quiet(s)
    ensures Rooted(s.nodes, s.ready)
  {
  }

  /** The turn of run(), with the lines of everything before it or with its own. */
  lemma TurnLines(s: State, now: int, ready: set<Id>, start: nat)
    requires Quiet(s) && Timely(s) && LinedUp(s.nodes, ready, start, s.log) && (ready == {} || ready == s.ready)
    ensures Apply(s, Run(now)).Config? ==>
              var t := Apply(s, Run(now)).s;
              LinedUp(s.nodes, ready, start, t.log) && ready <= t.past.requested && t.ready == {}
  {
    hide Inv, Timely, Scan, RunToEnd, Forest, Shape, TimesOut, Working, LinedUp, Lines, Extends;
    ScanQuiet(s, 0, now);
    ScanTimely(s, now);
    ScanSame(s, 0, now);
    ScanReady(s, 0, now);
    var t := Scan(s, 0, now);
    TimeoutsSilent(s.log, s.nodes, s.wait, s.index, s.log, t.log, now);
    LinedSilent(s.nodes, ready, start, s.log, t.log);
    ReadyRooted(s);
    ReadyInv(t);
    var c := Config(t.(ready := {}), [Loop(None, Sorted(t.ready))]);
    LoopBegins(s.nodes, t.ready, ready, c.s.past.requested, c.stack[0]);
    LinesBegin(c.s, c.stack[0], ready, start);
    LinesRun(c, ready, start);
    if RunToEnd(c).Config? {
      LinesEnd(RunToEnd(c).s, ready, start);
    }
  }

  lemma ApplyLined(s: State, op: Op)
    requires Quiet(s) && (op.Submit? ==> CanSubmit(s, op.root)) && Timely(s) && AllLined(s)
    ensures Apply(s, op).Config? ==> AllLined(Apply(s, op).s)
  {
    hide Inv, Timely, Scan, RunToEnd, Forest, Shape, LinedUp, Lines;
    match op {
      case Submit(r) =>
      case Answer(x) =>
        AnswerInv(s, x);
        var t := if x in s.wait then Log(s, Event(Replied, x, {})) else s;
        LinedSilent(s.nodes, {}, 0, s.log, t.log);
        PlainQueued(s.nodes, {}, t.past.requested, CallById(x), CallById(x));
        LinesBegin(t, CallById(x), {}, 0);
        var c := Config(t, [CallById(x)]);
        LinesRun(c, {}, 0);
        if RunToEnd(c).Config? {
          LinesEnd(RunToEnd(c).s, {}, 0);
        }
      case Run(now) => TurnLines(s, now, {}, 0);
    }
  }

  lemma {:induction false} ExecuteLined(s: State, ops: seq<Op>)
    requires Quiet(s) && Legal(s, ops) && Timely(s) && AllLined(s)
    ensures Execute(s, ops).Config? ==> AllLined(Execute(s, ops).s)
    decreases |ops|
  {
    hide Quiet, Timely, AllLined, Apply;
    if ops != [] {
      ApplyLined(s, ops[0]);
      ApplyTimely(s, ops[0]);
      if Apply(s, ops[0]).Config? {
        ExecuteLined(Apply(s, ops[0]).s, ops[1..]);
      }
    }
  }

  lemma InitialLined(nodes: map<Id, Node>, height: nat)
    ensures AllLined(Initial(nodes, height))
  {
  }

  lemma ReachableLined(nodes: map<Id, Node>, height: nat, s: State)
    requires Reachable(nodes, height, s)
    ensures AllLined(s) && Timely(s) && Quiet(s) && s.nodes == nodes
  {
    hide Quiet, Timely, AllLined, Execute, Legal;
    ReachableIs(nodes, height, s);
    var ops :| ReachedBy(nodes, height, ops, s);
    InitialQuiet(nodes, height);
    InitialTimely(nodes, height);
    InitialLined(nodes, height);
    ExecuteLined(Initial(nodes, height), ops);
    IndexInOrder(nodes, height, s);
  }

  /** In every legal run a child of a parallel is requested after every smaller sibling. */
  lemma ParallelOrder(nodes: map<Id, Node>, height: nat, s: State, i: nat, p: Id, c: Id, d: Id)
    requires Reachable(nodes, height, s) && At(s.log, i, Requested, c)
    requires Kid(nodes, p, c) && Kid(nodes, p, d) && d < c && p in nodes && nodes[p].kind.Parallel?
    ensures exists j :: 0 <= j < i && At(s.log, j, Requested, d)
  {
    hide Reachable, Quiet, Timely, PastOf;
    ReachableLined(nodes, height, s);
    assert InLine(s.nodes, {}, PastOf(s.log[..i]).requested, s.log[i].id);
    PastAt(s.log[..i], Requested, d);
    var j :| At(s.log[..i], j, Requested, d);
    assert At(s.log, j, Requested, d);
  }

  /** A turn of run() requests every ready RPC and empties the ready queue. */
  lemma ReadyRequested(nodes: map<Id, Node>, height: nat, s: State, now: int)
    requires Reachable(nodes, height, s) && Quiet(s) && Apply(s, Run(now)).Config?
    ensures Apply(s, Run(now)).s.ready == {} && s.ready <= Apply(s, Run(now)).s.past.requested
  {
    hide Reachable, Quiet, Timely, Apply;
    ReachableLined(nodes, height, s);
    NothingLined(s.nodes, s.ready, s.log);
    TurnLines(s, now, s.ready, |s.log|);
  }

  lemma NothingLined(nodes: map<Id, Node>, ready: set<Id>, log: seq<Event>)
    ensures LinedUp(nodes, ready, |log|, log)
  {
  }

  /** ... by growing id: before r is requested, every smaller one has been, in the same turn. */
  lemma ReadyOrder(nodes: map<Id, Node>, height: nat, s: State, now: int, i: nat, r: Id, d: Id)
    requires Reachable(nodes, height, s) && Quiet(s) && Apply(s, Run(now)).Config?
    requires At(Apply(s, Run(now)).s.log, i, Requested, r) && r in s.ready && d in s.ready && d < r
    ensures |s.log| <= i && exists j :: |s.log| <= j < i && At(Apply(s, Run(now)).s.log, j, Requested, d)
  {
    hide Reachable, Inv, Timely, Apply, PastOf, Turn;
    var log := Apply(s, Run(now)).s.log;
    ReachableLined(nodes, height, s);
    NothingLined(s.nodes, s.ready, s.log);
    TurnLines(s, now, s.ready, |s.log|);
    TurnInOrder(nodes, height, s, now);
    var n :| Turn(s, n, log, now);
    NotBefore(s, n, log, now, i, r);
    assert InLine(s.nodes, s.ready, PastOf(log[..i]).requested, log[i].id);
    PastAt(log[..i], Requested, d);
    var j :| At(log[..i], j, Requested, d);
    assert At(log, j, Requested, d);
    NotBefore(s, n, log, now, j, d);
  }

  /** Who is ready has not been requested yet. */
  lemma NotBefore(s: State, n: nat, log: seq<Event>, now: int, i: nat, r: Id)
    requires Quiet(s) && Turn(s, n, log, now) && At(log, i, Requested, r) && r in s.ready
    ensures |s.log| <= i
  {
    hide Stack, Books, Family, Times, PastOf, Ordered, Forest, Hurried, RequestedBefore;
    if i < |s.log| {
      assert s.log[i] == log[i];
      assert At(s.log, i, Requested, r);
      PastAt(s.log, Requested, r);
    }
  }

  // ---------------------------------------------------------------- answers

  /** An answer to a waiting RPC calls it at once, and whatever that sets off requests and calls only. */
  lemma AnswerFirst(s: State, x: Id)
    requires Quiet(s) && Shape(s) && x in s.wait && Timely(s) && Apply(s, Answer(x)).Config?
    ensures var t := Apply(s, Answer(x)).s;
            && Working(s.log + [Event(Replied, x, {}), Event(Called, x, {})], t.log)
            && x !in t.wait && x in t.past.called
  {
    hide Life, Stack, Books, Scan, RunToEnd, Forest, Step, Shape, Timely, Working;
    AnswerInv(s, x);
    var u := Log(s, Event(Replied, x, {}));
    var c := Config(u, [CallById(x)]);
    InvReady(c);
    OneStep(c);
    CalledFirst(c, x);
    SubmitTimely(s, u);
    StepTimely(c);
    if Step(c).Config? {
      RunTimely(Step(c));
      RunAlong(Step(c));
      assert s.log + [Event(Replied, x, {}), Event(Called, x, {})] == u.log + [Event(Called, x, {})];
      QuietParts(Apply(s, Answer(x)).s);
    } else {
      BrokenEnds();
    }
  }

  lemma CalledFirst(c: Config, x: Id)
    requires Inv(c) && FramesInForest(c) && c.Config? && c.stack == [CallById(x)] && x in c.s.wait
    ensures Step(c).Config? ==> Step(c).s.log == c.s.log + [Event(Called, x, {})] && x in Step(c).s.past.called
  {
    hide Life, Stack, Books, Forest, Shape;
    InvFrames(c);
    CalledNow(c, x);
    CallStepIndex(c.s, x, []);
  }
}
