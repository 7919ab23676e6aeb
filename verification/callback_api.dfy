/** The calls into the scheduler, and the invariant over every run of them. */
module CallbackApi {
  import opened Options
  import opened CallbackModel
  import opened CallbackInvariant
  import opened CallbackSteps
  import opened CallbackRun
  import opened CallbackTimeout

  datatype Op =
    | Submit(root: Id)     // call, callBySerials, callByParallel: into the ready queue
    | Answer(id: Id)       // triggerCall(id, data) by whoever received a reply
    | Run(now: int)        // one turn of run() at the given time

  ghost predicate Quiet(s: State) {
    Inv(Config(s, []))
  }

  /** t is s up to ready, the index and the replies. */
  ghost predicate Alike(s: State, t: State) {
    t == s.(ready := t.ready, index := t.index, log := t.log, past := s.past.(replied := t.past.replied))
  }

  lemma LifeAlike(s: State, t: State)
    requires Life(s) && Alike(s, t)
    requires Exclusive(t.past) && History(t.nodes, t.log, t.past)
    requires t.ready <= t.nodes.Keys && forall x | x in t.ready :: x in t.nodes && Fresh(t, x) && t.nodes[x].parent == None
    requires forall e :: e in t.index ==> e in s.index
    requires forall e :: e in s.index && e.1 in s.wait ==> e in t.index
    ensures Life(t)
  {
    hide Forest, History;
  }

  lemma QuietAlike(s: State, t: State)
    requires Quiet(s) && Alike(s, t) && Life(t)
    ensures Quiet(t)
  {
    hide Life;
    QuietForest(s);
    StackAlike(s, t, []);
  }

  /** An empty call stack says that nothing that waits was called. */
  lemma QuietApart(s: State)
    requires Erasing(s, [])
    ensures s.wait !! s.past.called
  {
  }

  lemma StackAlike(s: State, t: State, stack: seq<Frame>)
    requires Forest(s.nodes, s.height) && Stack(s, []) && Alike(s, t) && |stack| <= 1
    requires forall f | f in stack :: FrameOk(t, f)
    ensures Stack(t, stack)
  {
    hide Forest, FrameOk;
    QuietApart(s);
  }

  lemma QuietForest(s: State)
    requires Quiet(s)
    ensures Forest(s.nodes, s.height) && s.wait <= s.nodes.Keys
  {
  }

  // ---------------------------------------------------------------- the timeout loop

  lemma WithoutHas(index: seq<(int, Id)>, i: nat)
    requires i < |index|
    ensures forall e :: e in Without(index, i) ==> e in index
    ensures forall e :: e in index && e != index[i] ==> e in Without(index, i)
  {
    assert index == index[..i] + [index[i]] + index[i + 1..];
  }

  lemma ScanAtQuiet(s: State, i: nat, now: int)
    requires Quiet(s) && i < |s.index|
    ensures Shape(s) && Quiet(ScanAt(s, i, now))
  {
    var x := s.index[i].1;
    WithoutHas(s.index, i);
    assert s.index[i] in s.index;
    if x !in s.wait {
      IndexQuiet(s, Without(s.index, i));
    } else if Due(s, x, now) {
      TimeoutKeeps(s, x);
      TimeoutIs(s, x);
      hide Timeout;
      IndexQuiet(Timeout(s, x), Without(s.index, i));
    }
  }

  /** Entries of RPCs that no longer wait may go. */
  lemma IndexQuiet(s: State, index: seq<(int, Id)>)
    requires Quiet(s)
    requires forall e :: e in index ==> e in s.index
    requires forall e :: e in s.index && e.1 in s.wait ==> e in index
    ensures Quiet(s.(index := index))
  {
    hide History, Family, Forest, Times;
    LifeAlike(s, s.(index := index));
    QuietAlike(s, s.(index := index));
  }

  lemma QuietShape(s: State)
    requires Quiet(s)
    ensures Shape(s)
  {
  }

  lemma ScanQuiet(s: State, i: nat, now: int)
    requires Quiet(s) && i <= |s.index|
    ensures Shape(s) && Quiet(Scan(s, i, now))
    decreases |s.index| - i
  {
    hide Life, Stack, Books, ScanAt, Shape;
    QuietShape(s);
    if i < |s.index| {
      ScanAtQuiet(s, i, now);
      ScanAtIs(s, i, now);
      var t := ScanAt(s, i, now);
      ScanQuiet(t, if |t.index| < |s.index| then i else i + 1, now);
    }
  }

  // ---------------------------------------------------------------- calls into the scheduler

  ghost predicate CanSubmit(s: State, r: Id) {
    r in s.nodes && s.nodes[r].parent == None && Fresh(s, r)
  }

  lemma SubmitQuiet(s: State, r: Id)
    requires Quiet(s) && CanSubmit(s, r)
    ensures Quiet(s.(ready := s.ready + {r}))
  {
    hide History, Family, Forest, Times;
    LifeAlike(s, s.(ready := s.ready + {r}));
    QuietAlike(s, s.(ready := s.ready + {r}));
  }

  lemma RepliedLife(s: State, x: Id)
    requires Life(s) && x in s.wait
    ensures Life(Log(s, Event(Replied, x, {})))
  {
    hide Family, Forest, Times;
    HistoryGrows(s.nodes, s.log, s.past, Event(Replied, x, {}));
    hide History;
    LifeAlike(s, Log(s, Event(Replied, x, {})));
  }

  lemma AnswerInv(s: State, x: Id)
    requires Quiet(s)
    ensures x !in s.wait ==> Inv(Config(s, [CallById(x)]))
    ensures x in s.wait ==> Inv(Config(Log(s, Event(Replied, x, {})), [CallById(x)]))
  {
    hide Life, Forest, Shape;
    QuietForest(s);
    assert CountedIn([CallById(x)]) == 0;
    if x in s.wait {
      RepliedLife(s, x);
      StackAlike(s, Log(s, Event(Replied, x, {})), [CallById(x)]);
    } else {
      StackAlike(s, s, [CallById(x)]);
    }
  }

  lemma ReadyStartable(s: State)
    requires Life(s)
    ensures Life(s.(ready := {}))
    ensures FrameOk(s.(ready := {}), Loop(None, Sorted(s.ready)))
  {
    hide History, Family, Forest, Times;
    LifeAlike(s, s.(ready := {}));
  }

  lemma ReadyInv(s: State)
    requires Quiet(s)
    ensures Inv(Config(s.(ready := {}), [Loop(None, Sorted(s.ready))]))
  {
    hide Life, Forest, Shape;
    QuietForest(s);
    ReadyStartable(s);
    assert CountedIn([Loop(None, Sorted(s.ready))]) == 0;
    StackAlike(s, s.(ready := {}), [Loop(None, Sorted(s.ready))]);
  }

  ghost function Apply(s: State, op: Op): (c: Config)
    requires Quiet(s) && (op.Submit? ==> CanSubmit(s, op.root))
    ensures c.Config? ==> c.stack == [] && Quiet(c.s) && c.s.nodes == s.nodes
  {
    match op
    case Submit(r) =>
      SubmitQuiet(s, r);
      Config(s.(ready := s.ready + {r}), [])
    case Answer(x) =>
      AnswerInv(s, x);
      RunToEnd(Config(if x in s.wait then Log(s, Event(Replied, x, {})) else s, [CallById(x)]))
    case Run(now) =>
      ScanQuiet(s, 0, now);
      var t := Scan(s, 0, now);
      ReadyInv(t);
      ScanNodes(s, 0, now);
      RunToEnd(Config(t.(ready := {}), [Loop(None, Sorted(t.ready))]))
  }

  lemma ScanNodes(s: State, i: nat, now: int)
    requires Shape(s) && i <= |s.index|
    ensures Scan(s, i, now).nodes == s.nodes
    decreases |s.index| - i
  {
    if i < |s.index| {
      ScanAtShape(s, i, now);
      var t := ScanAt(s, i, now);
      ScanNodes(t, if |t.index| < |s.index| then i else i + 1, now);
    }
  }

  // ---------------------------------------------------------------- whole runs

  /** The scheduler's callers submit each tree once. */
  ghost predicate Legal(s: State, ops: seq<Op>)
    requires Quiet(s)
    decreases |ops|
  {
    ops == [] ||
      (&& (ops[0].Submit? ==> CanSubmit(s, ops[0].root))
       && (Apply(s, ops[0]).Config? ==> Legal(Apply(s, ops[0]).s, ops[1..])))
  }

  ghost function Execute(s: State, ops: seq<Op>): (c: Config)
    requires Quiet(s) && Legal(s, ops)
    ensures c.Config? ==> c.stack == [] && Quiet(c.s) && c.s.nodes == s.nodes
    decreases |ops|
  {
    if ops == [] then Config(s, []) else
      var c := Apply(s, ops[0]);
      if c.Broken? then c else Execute(c.s, ops[1..])
  }

  /** A scheduler that has not been called yet, with every tree it is going to be given. */
  ghost function Initial(nodes: map<Id, Node>, height: nat): State {
    State(nodes, height,
          map p | p in nodes :: set c | c in nodes && Kid(nodes, p, c),
          map p | p in nodes :: nodes[p].limit,
          {}, {}, [], Stats(0, 0, 0, 0), [], Never)
  }

  lemma InitialQuiet(nodes: map<Id, Node>, height: nat)
    requires Forest(nodes, height)
    ensures Quiet(Initial(nodes, height))
  {
    var s := Initial(nodes, height);
    assert Shape(s);
    assert History(nodes, [], Never);
    assert Waits(s) && Family(s) && Times(s);
    assert Frames(s, []) && Erasing(s, []);
  }

  ghost predicate LegalRun(nodes: map<Id, Node>, height: nat, ops: seq<Op>) {
    Forest(nodes, height) &&
    (InitialQuiet(nodes, height);
     Legal(Initial(nodes, height), ops))
  }

  /** Where a whole run ends. */
  ghost function WholeRun(nodes: map<Id, Node>, height: nat, ops: seq<Op>): (c: Config)
    requires LegalRun(nodes, height, ops)
    ensures c.Config? ==> c.stack == [] && Quiet(c.s) && c.s.nodes == nodes
  {
    InitialQuiet(nodes, height);
    Execute(Initial(nodes, height), ops)
  }
}
