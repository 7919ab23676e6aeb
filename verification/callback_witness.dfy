/** Two runs that do what the comments of the scheduler do not tell. */
module CallbackWitness {
  import opened Options
  import opened CallbackModel
  import opened CallbackInvariant
  import opened CallbackRun
  import opened CallbackApi
  import opened CallbackTheorems
  import opened CallbackOrder
  import opened CallbackRace
  import opened CallbackProgress
  import opened CallbackReach
  import opened CallbackTicks

  lemma NoParallels(nodes: map<Id, Node>, height: nat)
    requires Forest(nodes, height) && forall x | x in nodes :: !nodes[x].kind.Parallel?
    ensures AllFine(nodes, height)
  {
    hide Forest, Completes;
    assert NoRace(nodes, height);
    NoRaceIff(nodes, height);
  }

  /** A leaf that answers only from outside is not called before its reply. */
  lemma LeafNotCalled(s: State, x: Id)
    requires Quiet(s) && x in s.nodes && s.nodes[x].kind == Leaf(false) && x !in s.past.replied
    ensures x !in s.past.called
  {
    hide Times, Books, Exclusive, Family, Waits;
    if x in s.past.called {
      PastAt(s.log, Called, x);
      var i :| At(s.log, i, Called, x);
      assert Caused(s.nodes, PastOf(s.log[..i]), s.log[i]);
      PastGrows(s.log, i);
    }
  }

  lemma WaitsNow(s: State, x: Id)
    requires Quiet(s) && NoLoss(s) && x in s.past.requested && x !in s.past.called
    ensures x in s.wait
  {
  }

  lemma KidNotCalled(s: State, q: Id, m: Id)
    requires Quiet(s) && Shape(s) && Kid(s.nodes, q, m) && m !in s.past.called && q !in s.past.replied
    ensures q !in s.past.called
  {
    hide Times, Books, Exclusive, Family, Waits;
    NotBeforeKids(s, q, m);
  }

  // ---------------------------------------------------------------- "this will timeout next tick"

  /** A serial without a timeout over one leaf with a timeout of 10. */
  const PAIR: map<Id, Node> := map[0 := Node(Serial, None, 0, 0, INFINITE), 1 := Node(Leaf(false), Some(0), 1, 0, 10)]

  lemma PairForest()
    ensures Forest(PAIR, 1) && (forall x | x in PAIR :: x == 0 || x == 1) && AllFine(PAIR, 1)
    ensures forall k :: Kid(PAIR, 0, k) <==> k == 1
  {
    NoParallels(PAIR, 1);
  }

  /** After the first run() both wait. */
  lemma PairStarted() returns (s: State)
    ensures ReachedBy(PAIR, 1, [Submit(0), Run(0)], s) && Quiet(s) && Shape(s) && s.nodes == PAIR && NoLoss(s)
    ensures s.past.replied == {} && 0 in s.wait && 1 in s.wait && 0 !in s.past.called
    ensures 0 in s.children && 1 in s.children[0]
  {
    hide Quiet, Shape, Forest, Busy, ReachedBy, AllFine;
    PairForest();
    s := RootRequested(PAIR, 1, 0);
    ReachableIs(PAIR, 1, s);
    LeafNotCalled(s, 1);
    KidNotCalled(s, 0, 1);
    WaitsNow(s, 0);
    OnlyChild(s);
    WaitsNow(s, 1);
  }

  lemma OnlyChild(s: State)
    requires Quiet(s) && Shape(s) && Busy(s, []) && NoLoss(s) && s.nodes == PAIR && 0 in s.past.requested && 1 !in s.past.called
    ensures 0 in s.children && 1 in s.children[0] && 1 in s.past.requested
  {
    hide Times, Books, Stack, Pressed, Exclusive, History;
    assert Kid(s.nodes, 0, 1);
    assert 1 in s.children[0];
    assert s.children[0] == {1};
    assert ChildrenBegun(s, [], 0);
    NotAwaited(1);
  }

  /** At 100 the leaf times out; its entry is the first of the index, and the only kind there is. */
  lemma PairTimesOut(s: State)
    requires Quiet(s) && Shape(s) && s.nodes == PAIR && NoLoss(s)
    requires s.past.replied == {} && 0 in s.wait && 1 in s.wait && 0 !in s.past.called && 0 in s.children && 1 in s.children[0]
    ensures |s.index| > 0 && Bereft(ScanAt(s, 0, 100), 0, 1) && |ScanAt(s, 0, 100).index| < |s.index|
  {
    hide Books, Stack, Pressed, Exclusive, History, Family, Waits, Forest, Timeout, Below;
    assert (0, 1) in s.index;
    assert s.index[0] in s.index;
    assert s.index[0] == (0, 1);
    assert Due(s, 1, 100);
    NotUnderLeaf(s);
    TimeoutIs(s, 1);
  }

  lemma NotUnderLeaf(s: State)
    requires Shape(s) && s.nodes == PAIR
    ensures 0 !in Below(s, 1)
  {
  }

  /** Three operations after which the serial waits for ever, whatever comes next (StuckForever). */
  lemma PairStuck()
    ensures LegalRun(PAIR, 1, [Submit(0), Run(0), Run(100)])
    ensures var c := WholeRun(PAIR, 1, [Submit(0), Run(0), Run(100)]); c.Config? && Stuck(c.s, 0, 1)
  {
    hide Quiet, Shape, Forest, Busy, AllFine, Stuck, Scan, ScanAt;
    PairForest();
    var s := PairStarted();
    NextReached(PAIR, 1, [Submit(0), Run(0)], s, Run(100));
    assert [Submit(0), Run(0)] + [Run(100)] == [Submit(0), Run(0), Run(100)];
    PairTimesOut(s);
    StuckLater(s);
  }

  lemma StuckLater(s: State)
    requires Quiet(s) && Shape(s) && s.nodes == PAIR && |s.index| > 0 && 0 in s.wait
    requires Bereft(ScanAt(s, 0, 100), 0, 1) && |ScanAt(s, 0, 100).index| < |s.index|
    ensures Apply(s, Run(100)).Config? ==> Stuck(Apply(s, Run(100)).s, 0, 1)
  {
    hide Life, Stack, Books, Bereft, ScanAt, RunToEnd, Forest, Limited;
    NoLimit(s);
    UnlimitedApply(s, Run(100), 0);
    Unswept(s, 0, 100);
    ScanAtQuiet(s, 0, 100);
    ScanAtShape(s, 0, 100);
    BereftScan(ScanAt(s, 0, 100), 0, 100, 0, 1);
    ScanQuiet(s, 0, 100);
    var t := Scan(s, 0, 100);
    assert Bereft(t, 0, 1);
    ReadyInv(t);
    BereftParts(t, 0, 1);
    BereftSame(t, t.(ready := {}), 0, 1);
    BereftRun(Config(t.(ready := {}), [Loop(None, Sorted(t.ready))]), 0, 1);
  }

  /** The serial is a root without a timeout. */
  lemma NoLimit(s: State)
    requires Shape(s) && s.nodes == PAIR
    ensures !Limited(s, 0)
  {
    hide Shape, Limited;
    LimitedIs(s, 0);
  }

  // ---------------------------------------------------------------- what a timeout does not sweep

  /** A serial with a timeout of 10 over a serial over leaf 2, and then leaf 3. */
  const DEEP: map<Id, Node> := map[
    0 := Node(Serial, None, 0, 0, 10),
    1 := Node(Serial, Some(0), 1, 0, INFINITE),
    2 := Node(Leaf(false), Some(1), 2, 0, INFINITE),
    3 := Node(Leaf(false), Some(0), 1, 0, INFINITE)]

  lemma DeepForest()
    ensures Forest(DEEP, 2) && AllFine(DEEP, 2) && Above(DEEP, 2, 0, 2) && Between(DEEP, 2, 0, 1, 2)
    ensures Kid(DEEP, 0, 1) && Kid(DEEP, 1, 2) && Kid(DEEP, 0, 3)
  {
    assert forall x | x in DEEP :: x == 0 || x == 1 || x == 2 || x == 3;
    NoParallels(DEEP, 2);
    assert Above(DEEP, 2, 0, 0) && Above(DEEP, 2, 0, 1) && Above(DEEP, 2, 1, 1);
  }

  /** A child that is requested in a serial whose turn it has. */
  lemma FirstBegun(s: State, q: Id, k: Id)
    requires Quiet(s) && Shape(s) && Busy(s, []) && NoLoss(s) && q in s.past.requested && Kid(s.nodes, q, k) && k !in s.past.called
    requires s.nodes[q].kind.Serial? && forall j | Kid(s.nodes, q, j) :: k <= j
    ensures k in s.past.requested
  {
    hide Times, Books, Stack, Pressed, Exclusive, History;
    assert k in s.children[q];
    assert First(s.children[q]) == k;
    assert ChildrenBegun(s, [], q);
    NotAwaited(k);
  }

  lemma DeepStarted() returns (s: State)
    ensures ReachedBy(DEEP, 2, [Submit(0), Run(0)], s) && Quiet(s) && Shape(s) && s.nodes == DEEP && s.height == 2 && NoLoss(s)
    ensures s.past.replied == {} && 0 in s.past.requested && 2 in s.past.requested && 1 in s.wait
  {
    hide Quiet, Shape, Forest, Busy, ReachedBy, AllFine;
    DeepForest();
    s := RootRequested(DEEP, 2, 0);
    ReachableIs(DEEP, 2, s);
    LeafNotCalled(s, 2);
    KidNotCalled(s, 1, 2);
    FirstBegun(s, 0, 1);
    FirstBegun(s, 1, 2);
    WaitsNow(s, 1);
  }

  /** The serial 1 is answered by its own id while its leaf waits; then a timeout of 0 leaves the leaf waiting. */
  lemma SweepMisses() returns (s: State)
    ensures ReachedBy(DEEP, 2, [Submit(0), Run(0), Answer(1)], s) && Shape(s) && s.nodes == DEEP && s.height == 2
    ensures 0 in s.wait && 2 in s.wait && Above(DEEP, 2, 0, 2) && 2 in Timeout(s, 0).wait
  {
    hide Quiet, Shape, Forest, Busy, ReachedBy, AllFine, Apply, Timeout, Above, Between;
    DeepForest();
    var t := DeepStarted();
    NextReached(DEEP, 2, [Submit(0), Run(0)], t, Answer(1));
    assert [Submit(0), Run(0)] + [Answer(1)] == [Submit(0), Run(0), Answer(1)];
    AnswerCalls(t, 1);
    s := Apply(t, Answer(1)).s;
    assert Reachable(DEEP, 2, s);
    ReachableIs(DEEP, 2, s);
    LeafNotCalled(s, 2);
    LeafNotCalled(s, 3);
    KidNotCalled(s, 0, 3);
    WaitsNow(s, 0);
    WaitsNow(s, 2);
    TimeoutSweeps(s, 0, 2);
  }
}
