/**
 Runs that get somewhere: as long as nothing breaks, every RPC of the trees is requested in some legal
 run. So the trees that never break are exactly those without a racy parallel.
 */
module CallbackReach {
  import opened Options
  import opened CallbackModel
  import opened CallbackInvariant
  import opened CallbackRun
  import opened CallbackApi
  import opened CallbackTheorems
  import opened CallbackOrder
  import opened CallbackRace
  import opened CallbackProgress

  // ---------------------------------------------------------------- runs, one operation longer

  lemma {:induction false} ExecuteSnoc(s: State, ops: seq<Op>, op: Op)
    requires Quiet(s) && Legal(s, ops) && Execute(s, ops).Config?
    requires op.Submit? ==> CanSubmit(Execute(s, ops).s, op.root)
    ensures Legal(s, ops + [op]) && Execute(s, ops + [op]) == Apply(Execute(s, ops).s, op)
    decreases |ops|
  {
    hide Quiet, Apply;
    if ops == [] {
      assert ops + [op] == [op] && [op][1..] == [];
    } else {
      assert (ops + [op])[1..] == ops[1..] + [op];
      ExecuteSnoc(Apply(s, ops[0]).s, ops[1..], op);
    }
  }

  ghost predicate ReachedBy(nodes: map<Id, Node>, height: nat, ops: seq<Op>, s: State) {
    LegalRun(nodes, height, ops) && WholeRun(nodes, height, ops) == Config(s, [])
  }

  ghost predicate Reachable(nodes: map<Id, Node>, height: nat, s: State) {
    exists ops :: ReachedBy(nodes, height, ops, s)
  }

  /** Every legal run on these trees ends well. */
  ghost predicate AllFine(nodes: map<Id, Node>, height: nat) {
    forall ops | LegalRun(nodes, height, ops) :: WholeRun(nodes, height, ops).Config?
  }

  lemma ReachableIs(nodes: map<Id, Node>, height: nat, s: State)
    requires Reachable(nodes, height, s)
    ensures Quiet(s) && Shape(s) && s.nodes == nodes && s.height == height && Forest(nodes, height) && Busy(s, [])
  {
    hide Quiet, Busy, Execute, Legal;
    var ops :| ReachedBy(nodes, height, ops, s);
    InitialQuiet(nodes, height);
    InitialBusy(nodes, height);
    BusyExecute(Initial(nodes, height), ops);
    ExecuteHeight(Initial(nodes, height), ops);
    QuietShape(s);
  }

  lemma InitialBusy(nodes: map<Id, Node>, height: nat)
    ensures Busy(Initial(nodes, height), [])
  {
  }

  lemma NextReached(nodes: map<Id, Node>, height: nat, ops: seq<Op>, s: State, op: Op)
    requires ReachedBy(nodes, height, ops, s) && AllFine(nodes, height) && Quiet(s) && (op.Submit? ==> CanSubmit(s, op.root))
    ensures Apply(s, op).Config? && ReachedBy(nodes, height, ops + [op], Apply(s, op).s)
  {
    hide Quiet, Apply, Execute, Legal, Forest;
    InitialQuiet(nodes, height);
    ExecuteSnoc(Initial(nodes, height), ops, op);
    assert LegalRun(nodes, height, ops + [op]);
  }

  lemma OneOpMore(nodes: map<Id, Node>, height: nat, s: State, op: Op)
    requires Reachable(nodes, height, s) && AllFine(nodes, height) && Quiet(s) && (op.Submit? ==> CanSubmit(s, op.root))
    ensures Apply(s, op).Config? && Reachable(nodes, height, Apply(s, op).s)
  {
    hide Quiet, Apply, ReachedBy, AllFine;
    var ops :| ReachedBy(nodes, height, ops, s);
    NextReached(nodes, height, ops, s, op);
    assert ReachedBy(nodes, height, ops + [op], Apply(s, op).s);
  }

  /**
   A waiting composite never waits for nothing: it has a child left, the first of a serial's and all of
   a parallel's are requested, and what of them is not waiting has timed out.
   */
  lemma WaitingHasWork(nodes: map<Id, Node>, height: nat, s: State, p: Id)
    requires Reachable(nodes, height, s) && p in s.wait && Kids(nodes, p) != {}
    ensures p in nodes && p in s.children && s.children[p] != {}
    ensures nodes[p].kind.Serial? ==> First(s.children[p]) in s.past.requested
    ensures nodes[p].kind.Parallel? ==> s.children[p] <= s.past.requested
    ensures forall k | k in s.children[p] && k in s.past.requested :: k in s.wait || k in s.past.timeouted
  {
    hide Forest, Busy, Life, Stack, Books;
    ReachableIs(nodes, height, s);
    HasWork(s, p);
  }

  lemma HasWork(s: State, p: Id)
    requires Quiet(s) && Shape(s) && Busy(s, []) && p in s.wait && Kids(s.nodes, p) != {}
    ensures p in s.nodes && p in s.children && s.children[p] != {}
    ensures s.nodes[p].kind.Serial? ==> First(s.children[p]) in s.past.requested
    ensures s.nodes[p].kind.Parallel? ==> s.children[p] <= s.past.requested
    ensures forall k | k in s.children[p] && k in s.past.requested :: k in s.wait || k in s.past.timeouted
  {
    hide Times, Books, History, Kept, OneByOne, Left, Frames, Separate, Erasing;
    QuietParts(s);
    var k :| k in Kids(s.nodes, p);
    assert Kid(s.nodes, p, k);
    assert ChildrenBegun(s, [], p) && EmptyCalled(s, [], p);
    forall j ensures !Awaited([], j) {
      NotAwaited(j);
    }
  }

  // ---------------------------------------------------------------- what a cascade leaves alone

  lemma {:induction false} RunAlong(c: Config)
    requires Inv(c) && c.Config?
    ensures RunToEnd(c).Config? ==> Along(c.s, RunToEnd(c).s)
    decreases Unrequested(c), Uncalled(c), Weight(c.stack)
  {
    hide Life, Stack, Books, Forest, Step;
    if c.stack != [] {
      InvReady(c);
      StepAlong(c);
      OneStep(c);
      StepDescends(c);
      if Step(c).Config? {
        RunAlong(Step(c));
      } else {
        BrokenEnds();
      }
    }
  }

  lemma ApplyHeight(s: State, op: Op)
    requires Quiet(s) && (op.Submit? ==> CanSubmit(s, op.root))
    ensures Apply(s, op).Config? ==> Apply(s, op).s.nodes == s.nodes && Apply(s, op).s.height == s.height
  {
    hide Life, Stack, Books, Scan, RunToEnd, Forest;
    match op {
      case Submit(r) =>
      case Answer(x) =>
        AnswerInv(s, x);
        RunAlong(Config(if x in s.wait then Log(s, Event(Replied, x, {})) else s, [CallById(x)]));
      case Run(now) =>
        ScanQuiet(s, 0, now);
        QuietShape(s);
        ScanSame(s, 0, now);
        var t := Scan(s, 0, now);
        ReadyInv(t);
        RunAlong(Config(t.(ready := {}), [Loop(None, Sorted(t.ready))]));
    }
  }

  lemma {:induction false} ExecuteHeight(s: State, ops: seq<Op>)
    requires Quiet(s) && Legal(s, ops)
    ensures Execute(s, ops).Config? ==> Execute(s, ops).s.nodes == s.nodes && Execute(s, ops).s.height == s.height
    decreases |ops|
  {
    hide Quiet, Apply;
    if ops != [] {
      ApplyHeight(s, ops[0]);
      if Apply(s, ops[0]).Config? {
        ExecuteHeight(Apply(s, ops[0]).s, ops[1..]);
      }
    }
  }

  // ---------------------------------------------------------------- answering on

  predicate NoLoss(s: State) {
    s.past.timeouted == {} && s.past.canceled == {}
  }

  /** An answer to a waiting RPC calls it, and nothing times out. */
  lemma AnswerCalls(s: State, x: Id)
    requires Quiet(s) && Shape(s) && x in s.wait && NoLoss(s) && Apply(s, Answer(x)).Config?
    ensures var t := Apply(s, Answer(x)).s;
            && NoLoss(t) && x in t.past.called && t.past.replied == s.past.replied + {x}
            && s.past.called <= t.past.called && s.past.requested <= t.past.requested
  {
    hide Life, Stack, Books, Scan, RunToEnd, Forest, Step, Shape;
    AnswerInv(s, x);
    var c := Config(Log(s, Event(Replied, x, {})), [CallById(x)]);
    InvReady(c);
    OneStep(c);
    CalledNow(c, x);
    if Step(c).Config? {
      RunAlong(Step(c));
    } else {
      BrokenEnds();
    }
  }

  lemma CalledNow(c: Config, x: Id)
    requires Inv(c) && FramesInForest(c) && c.Config? && c.stack == [CallById(x)] && x in c.s.wait
    ensures Step(c).Config? ==> Along(c.s, Step(c).s) && x in Step(c).s.past.called
  {
    hide Life, Stack, Books, Forest, Step;
    assert [CallById(x)] + [] == [CallById(x)];
    StepAlong(c);
    CallStepNow(c, x, []);
    CalledIn(c.s, x, []);
  }

  lemma CalledIn(s: State, x: Id, rest: seq<Frame>)
    requires Shape(s) && x in s.nodes
    ensures CallStep(s, x, rest).Config? ==> x in CallStep(s, x, rest).s.past.called
  {
  }

  /** A serial that is going on: if z is not requested yet, the child whose turn it is waits. */
  lemma TurnWaits(s: State, q: Id, z: Id)
    requires Quiet(s) && Shape(s) && Busy(s, []) && NoLoss(s) && Kid(s.nodes, q, z) && q in s.past.requested && z !in s.past.requested
    ensures q in s.children && s.children[q] != {} && First(s.children[q]) in s.wait
    ensures Kid(s.nodes, q, First(s.children[q])) && First(s.children[q]) !in s.past.called
  {
    hide Times, Books, Stack, Pressed;
    QuietParts(s);
    assert z in s.children[q];
    assert ChildrenBegun(s, [], q);
    NotAwaited(z);
    NotAwaited(First(s.children[q]));
  }

  lemma NotAwaited(k: Id)
    ensures !Awaited([], k)
  {
  }

  /** Answering the children of q in turn gets z requested. */
  lemma {:induction false} AdvanceTo(nodes: map<Id, Node>, height: nat, s: State, q: Id, z: Id) returns (t: State)
    requires AllFine(nodes, height) && Reachable(nodes, height, s) && NoLoss(s) && Kid(nodes, q, z) && q in s.past.requested
    ensures Reachable(nodes, height, t) && NoLoss(t) && z in t.past.requested
    decreases |Kids(nodes, q) - s.past.called|
  {
    hide Quiet, Shape, Forest, Busy, Reachable, AllFine, Apply, Kids;
    ReachableIs(nodes, height, s);
    if z in s.past.requested {
      t := s;
    } else {
      TurnWaits(s, q, z);
      var m := First(s.children[q]);
      OneOpMore(nodes, height, s, Answer(m));
      AnswerCalls(s, m);
      var u := Apply(s, Answer(m)).s;
      FewerKids(nodes, q, s.past.called, u.past.called, m);
      t := AdvanceTo(nodes, height, u, q, z);
    }
  }

  lemma FewerKids(nodes: map<Id, Node>, q: Id, done: set<Id>, more: set<Id>, m: Id)
    requires Kid(nodes, q, m) && m !in done && m in more && done <= more
    ensures |Kids(nodes, q) - more| < |Kids(nodes, q) - done|
  {
    var a, b := Kids(nodes, q) - more, Kids(nodes, q) - done;
    assert a <= b - {m} && m in b;
    SubsetSize(a, b - {m});
  }

  // ---------------------------------------------------------------- starting

  /** A tree is submitted and run() called once. */
  lemma RootRequested(nodes: map<Id, Node>, height: nat, r: Id) returns (s: State)
    requires AllFine(nodes, height) && Forest(nodes, height) && r in nodes && nodes[r].parent == None
    ensures Reachable(nodes, height, s) && NoLoss(s) && r in s.past.requested && s.past.replied == {}
    ensures ReachedBy(nodes, height, [Submit(r), Run(0)], s)
  {
    hide Quiet, Shape, Forest, Busy, ReachedBy, AllFine, Apply;
    var s0 := Initial(nodes, height);
    InitialReachable(nodes, height);
    ReachableIs(nodes, height, s0);
    NextReached(nodes, height, [], s0, Submit(r));
    var s1 := Apply(s0, Submit(r)).s;
    assert [] + [Submit(r)] == [Submit(r)] && [Submit(r)] + [Run(0)] == [Submit(r), Run(0)];
    assert Reachable(nodes, height, s1);
    ReachableIs(nodes, height, s1);
    SubmitIs(s0, r);
    NextReached(nodes, height, [Submit(r)], s1, Run(0));
    FirstRun(s1, r);
    s := Apply(s1, Run(0)).s;
  }

  lemma InitialReachable(nodes: map<Id, Node>, height: nat)
    requires Forest(nodes, height)
    ensures ReachedBy(nodes, height, [], Initial(nodes, height)) && Reachable(nodes, height, Initial(nodes, height))
  {
    hide Quiet, Forest;
    InitialQuiet(nodes, height);
    assert ReachedBy(nodes, height, [], Initial(nodes, height));
  }

  lemma SubmitIs(s: State, r: Id)
    requires Quiet(s) && CanSubmit(s, r)
    ensures Apply(s, Submit(r)) == Config(s.(ready := s.ready + {r}), [])
  {
  }

  lemma FirstRun(s: State, r: Id)
    requires Quiet(s) && Shape(s) && s.index == [] && s.ready == {r} && NoLoss(s) && Apply(s, Run(0)).Config?
    ensures var t := Apply(s, Run(0)).s; NoLoss(t) && r in t.past.requested && t.past.replied == s.past.replied
  {
    hide Life, Stack, Books, RunToEnd, Forest, Step, Shape;
    ReadyInv(s);
    var t := s.(ready := {});
    OneSorted(r);
    var c := Config(t, [Loop(None, [r])]);
    assert Scan(s, 0, 0) == s;
    StartNow(c, r);
    OneStep(c);
    OneStep(Step(c));
    assert RunToEnd(c).Config?;
    if Step(Step(c)).Config? {
      RunAlong(Step(Step(c)));
    } else {
      BrokenEnds();
    }
  }

  lemma OneSorted(r: Id)
    ensures Sorted({r}) == [r]
  {
  }

  lemma StartNow(c: Config, r: Id)
    requires Inv(c) && c.Config? && c.stack == [Loop(None, [r])]
    ensures FramesInForest(c) && Step(c).Config? && Inv(Step(c)) && Step(c).stack != [] && FramesInForest(Step(c))
    ensures Step(Step(c)).Config? && Step(Step(c)).s.past == c.s.past.(requested := c.s.past.requested + {r})
  {
    hide Life, Stack, Books, Forest, RequestFrames;
    InvReady(c);
    OneStep(c);
  }

  /** If nothing ever breaks, every RPC is requested in some legal run, without any timeout. */
  lemma {:induction false} EveryRequested(nodes: map<Id, Node>, height: nat, z: Id) returns (s: State)
    requires AllFine(nodes, height) && Forest(nodes, height) && z in nodes
    ensures Reachable(nodes, height, s) && NoLoss(s) && z in s.past.requested
    decreases nodes[z].depth
  {
    hide Reachable, AllFine;
    match nodes[z].parent
    case None => s := RootRequested(nodes, height, z);
    case Some(q) =>
      s := EveryRequested(nodes, height, q);
      s := AdvanceTo(nodes, height, s, q, z);
  }

  // ---------------------------------------------------------------- a run that ends well requests nothing racy

  ghost predicate NoRacy(s: State)
    requires Forest(s.nodes, s.height)
  {
    forall p | p in s.past.requested :: !Racy(s.nodes, s.height, p)
  }

  lemma NoRacyStep(c: Config)
    requires Inv(c) && c.Config? && c.stack != [] && FramesInForest(c) && Forest(c.s.nodes, c.s.height)
    requires NoRacy(c.s) && RunToEnd(c).Config?
    ensures Step(c).Config? && Step(c).s.nodes == c.s.nodes && Step(c).s.height == c.s.height && NoRacy(Step(c).s)
  {
    hide Life, Stack, Books, Forest, Step, Racy, RunToEnd, Inv;
    OneStep(c);
    BrokenEnds();
    if Step(c).Config? {
      StepHeight(c);
      StepRequests(c);
      RequestedNotRacy(c);
    }
  }

  lemma RequestedNotRacy(c: Config)
    requires Inv(c) && c.Config? && c.stack != [] && Forest(c.s.nodes, c.s.height) && RunToEnd(c).Config?
    ensures c.stack[0].Request? ==> !Racy(c.s.nodes, c.s.height, c.stack[0].id)
  {
    hide Life, Stack, Books, Forest, Racy, RunToEnd, Inv;
    assert c.stack == [c.stack[0]] + c.stack[1..];
    if c.stack[0].Request? && Racy(c.s.nodes, c.s.height, c.stack[0].id) {
      RaceBreaks(c, c.stack[0].id, c.stack[1..]);
    }
  }

  lemma {:induction false} NoRacyRun(c: Config)
    requires Inv(c) && c.Config? && Forest(c.s.nodes, c.s.height) && NoRacy(c.s) && RunToEnd(c).Config?
    ensures RunToEnd(c).s.nodes == c.s.nodes && RunToEnd(c).s.height == c.s.height && NoRacy(RunToEnd(c).s)
    decreases Unrequested(c), Uncalled(c), Weight(c.stack)
  {
    hide Life, Stack, Books, Forest, Step, NoRacy;
    if c.stack != [] {
      InvReady(c);
      OneStep(c);
      StepDescends(c);
      NoRacyStep(c);
      NoRacyRun(Step(c));
    }
  }

  lemma StepRequests(c: Config)
    requires Inv(c) && c.Config? && c.stack != [] && FramesInForest(c)
    ensures Step(c).Config? ==>
              Step(c).s.past.requested == c.s.past.requested + if c.stack[0].Request? then {c.stack[0].id} else {}
  {
    hide Life, Stack, Books, Forest;
    var s, f, rest := c.s, c.stack[0], c.stack[1..];
    assert c.stack == [f] + rest;
    if f.CallById? && f.id in s.wait {
      InvFrames(c);
      WaitingIsNode(s, f.id);
    }
  }

  lemma NoRacyApply(s: State, op: Op)
    requires Quiet(s) && (op.Submit? ==> CanSubmit(s, op.root)) && Forest(s.nodes, s.height) && NoRacy(s)
    ensures Apply(s, op).Config? ==>
              Apply(s, op).s.nodes == s.nodes && Apply(s, op).s.height == s.height && NoRacy(Apply(s, op).s)
  {
    hide Life, Stack, Books, Scan, RunToEnd, Forest, Racy;
    match op {
      case Submit(r) =>
      case Answer(x) =>
        AnswerInv(s, x);
        var c := Config(if x in s.wait then Log(s, Event(Replied, x, {})) else s, [CallById(x)]);
        if RunToEnd(c).Config? {
          NoRacyRun(c);
        }
      case Run(now) =>
        ScanQuiet(s, 0, now);
        QuietShape(s);
        ScanSame(s, 0, now);
        ScanRequested(s, 0, now);
        var t := Scan(s, 0, now);
        ReadyInv(t);
        var c := Config(t.(ready := {}), [Loop(None, Sorted(t.ready))]);
        if RunToEnd(c).Config? {
          NoRacyRun(c);
        }
    }
  }

  lemma {:induction false} NoRacyExecute(s: State, ops: seq<Op>)
    requires Quiet(s) && Legal(s, ops) && Forest(s.nodes, s.height) && NoRacy(s)
    ensures Execute(s, ops).Config? ==>
              Execute(s, ops).s.nodes == s.nodes && Execute(s, ops).s.height == s.height && NoRacy(Execute(s, ops).s)
    decreases |ops|
  {
    hide Quiet, Apply, Racy, Forest, NoRacy;
    if ops != [] {
      NoRacyApply(s, ops[0]);
      if Apply(s, ops[0]).Config? {
        NoRacyExecute(Apply(s, ops[0]).s, ops[1..]);
      }
    }
  }

  // ---------------------------------------------------------------- exactly

  /**
   No run on these trees ever ends in undefined behaviour if and only if none of their parallels has a
   child that completes within its own request.
   */
  lemma NoRaceIff(nodes: map<Id, Node>, height: nat)
    requires Forest(nodes, height)
    ensures NoRace(nodes, height)
            <==> forall ops | LegalRun(nodes, height, ops) :: WholeRun(nodes, height, ops).Config?
  {
    hide Racy, Forest, Quiet, Execute, Legal;
    InitialQuiet(nodes, height);
    if NoRace(nodes, height) {
      forall ops | LegalRun(nodes, height, ops) ensures WholeRun(nodes, height, ops).Config? {
        NeverBroken(Initial(nodes, height), ops);
      }
    } else if AllFine(nodes, height) {
      var p :| Racy(nodes, height, p);
      RacyIsNode(nodes, height, p);
      var s := EveryRequested(nodes, height, p);
      var ops :| ReachedBy(nodes, height, ops, s);
      NoRacyExecute(Initial(nodes, height), ops);
    }
  }

  lemma RacyIsNode(nodes: map<Id, Node>, height: nat, p: Id)
    requires Forest(nodes, height) && Racy(nodes, height, p)
    ensures p in nodes
  {
  }
}
