/**
 When done() runs exactly once. SerialsTask::child_done calls the next child first and asks whether
 children are left afterwards; if the last child ends inside its own call(), that call has asked already.
 So the trees that are safe are exactly those without a Serial of two or more children whose last child
 completes inside its own call().
 */
module AsyncOnce {
  import opened Options
  import opened AsyncModel
  import opened AsyncInvariant
  import opened AsyncCall
  import opened AsyncDone
  import opened AsyncCascade
  import opened AsyncRun
  import opened AsyncTheorems

  /** The tree completes inside its own call(). */
  predicate Quick(s: Shape) {
    match s.kind
    case Leaf(immediate) => immediate
    case _ => s.kids != [] && forall k | k in s.kids :: Quick(k)
  }

  /** A Serial of two or more children, the last one quick, somewhere in the tree. */
  predicate Risky(s: Shape) {
    || (s.kind.Serial? && |s.kids| >= 2 && Quick(s.kids[|s.kids| - 1]))
    || exists k | k in s.kids :: Risky(k)
  }

  // ---------------------------------------------------------------- trees and their numbering

  predicate Part(g: Forest, f: Forest) {
    forall i | i in g :: i in f && f[i] == g[i]
  }

  /** The j-th child of a numbered tree, with its own tree. */
  lemma KidAt(f: Forest, s: Shape, n: Id, parent: Option<Id>, j: nat)
    requires Proper(s) && Part(Numbered(s, n, parent), f) && j < |s.kids|
    ensures n in f && |f[n].kids| == |s.kids| && f[n].kids[j] in f[n].kids
    ensures var h := Numbered(s.kids[j], f[n].kids[j], Some(n)); Part(h, f) && Part(h, Numbered(s, n, parent))
  {
    hide Numbered;
    NumberedOk(s, n, parent);
    RootsInOrder(s, n, parent, j);
  }

  lemma RootIs(f: Forest, s: Shape, n: Id, parent: Option<Id>)
    requires Proper(s) && Part(Numbered(s, n, parent), f)
    ensures n in Numbered(s, n, parent) && n in f && f[n].kind == s.kind && |f[n].kids| == |s.kids|
  {
    hide NumberedAll;
    RootsCount(s.kids, n + 1);
  }

  lemma {:induction false} SyncIs(f: Forest, s: Shape, n: Id, parent: Option<Id>)
    requires Proper(s) && Ok(f) && Part(Numbered(s, n, parent), f)
    ensures n in f && (Sync(f, n) <==> Quick(s))
    decreases s
  {
    hide Ok, Numbered, Part;
    RootIs(f, s, n, parent);
    forall j: nat | j < |s.kids| ensures f[n].kids[j] in f[n].kids && (SyncKid(f, n, f[n].kids[j]) <==> Quick(s.kids[j])) {
      KidAt(f, s, n, parent, j);
      SyncIs(f, s.kids[j], f[n].kids[j], Some(n));
    }
  }

  lemma {:induction false} KidCover(kids: seq<Shape>, n: Id, parent: Id, p: Id) returns (j: nat)
    requires p in NumberedAll(kids, n, parent)
    ensures j < |kids| == |Roots(kids, n)| && p in Numbered(kids[j], Roots(kids, n)[j], Some(parent))
    decreases kids
  {
    hide Numbered;
    RootsCount(kids, n);
    if p in NumberedAll(kids[1..], n + Size(kids[0]), parent) {
      j := KidCover(kids[1..], n + Size(kids[0]), parent, p);
      j := j + 1;
    } else {
      j := 0;
    }
  }

  /** Where in a numbered tree a task is. */
  lemma TreeCover(s: Shape, n: Id, parent: Option<Id>, p: Id) returns (j: nat)
    requires Proper(s) && p in Numbered(s, n, parent) && p != n
    ensures n in Numbered(s, n, parent)
    ensures j < |s.kids| == |Numbered(s, n, parent)[n].kids| && p in Numbered(s.kids[j], Numbered(s, n, parent)[n].kids[j], Some(n))
  {
    hide NumberedAll;
    j := KidCover(s.kids, n + 1, n, p);
  }

  lemma RootBad(f: Forest, s: Shape, n: Id, parent: Option<Id>)
    requires Proper(s) && Ok(f) && Part(Numbered(s, n, parent), f)
    ensures Bad(f, n) <==> s.kind.Serial? && |s.kids| >= 2 && Quick(s.kids[|s.kids| - 1])
  {
    hide Ok, Numbered, Part, Quick;
    RootIs(f, s, n, parent);
    if |s.kids| >= 2 {
      var j := |s.kids| - 1;
      KidAt(f, s, n, parent, j);
      SyncIs(f, s.kids[j], f[n].kids[j], Some(n));
    }
  }

  /** A risky tree has a bad serial. */
  lemma {:induction false} RiskyBad(f: Forest, s: Shape, n: Id, parent: Option<Id>) returns (p: Id)
    requires Proper(s) && Ok(f) && Part(Numbered(s, n, parent), f) && Risky(s)
    ensures Bad(f, p) && p in Numbered(s, n, parent)
    decreases s
  {
    hide Ok, Numbered, Part, Quick, Bad;
    RootIs(f, s, n, parent);
    RootBad(f, s, n, parent);
    if Bad(f, n) {
      p := n;
    } else {
      var k :| k in s.kids && Risky(k);
      var j :| 0 <= j < |s.kids| && s.kids[j] == k;
      KidAt(f, s, n, parent, j);
      p := RiskyBad(f, k, f[n].kids[j], Some(n));
      PartIn(Numbered(k, f[n].kids[j], Some(n)), Numbered(s, n, parent), p);
    }
  }

  lemma PartIn(g: Forest, f: Forest, p: Id)
    requires Part(g, f) && p in g
    ensures p in f && f[p] == g[p]
  {
  }

  /** A tree with a bad serial is risky. */
  lemma {:induction false} BadRisky(f: Forest, s: Shape, n: Id, parent: Option<Id>, p: Id)
    requires Proper(s) && Ok(f) && Part(Numbered(s, n, parent), f) && Bad(f, p) && p in Numbered(s, n, parent)
    ensures Risky(s)
    decreases s
  {
    hide Ok, Numbered, Part, Quick, Bad;
    RootIs(f, s, n, parent);
    RootBad(f, s, n, parent);
    if p != n {
      var j := TreeCover(s, n, parent, p);
      PartIn(Numbered(s, n, parent), f, n);
      KidAt(f, s, n, parent, j);
      BadRisky(f, s.kids[j], f[n].kids[j], Some(n), p);
    }
  }

  // ---------------------------------------------------------------- no risky tree, no second done

  lemma {:induction false} BadFrom(ops: seq<Op>)
    requires After(ops).Some? && SomeBad(After(ops).value.f)
    ensures exists op | op in ops :: op.Emit? && Risky(op.task)
  {
    hide Ok, Below, RootsOnly, Apply, Risky, Legal, SomeBad;
    if ops == [] {
      NoTaskYet();
    } else {
      var front, op := ops[..|ops| - 1], ops[|ops| - 1];
      var w := After(front).value;
      if SomeBad(w.f) {
        BadFrom(front);
      } else {
        NewBad(w, op);
      }
    }
  }

  lemma NoTaskYet()
    ensures Sound(FRESH) && !SomeBad(FRESH.f)
  {
  }

  lemma NewBad(w: World, op: Op)
    requires Sound(w) && Legal(w, op) && Ok(Apply(w, op).f) && SomeBad(Apply(w, op).f) && !SomeBad(w.f)
    ensures op.Emit? && Risky(op.task)
  {
    hide Ok, Risky, Numbered, Bad, CallEach, Replied, TreeOk, RootsOnly;
    var f := Apply(w, op).f;
    var p :| Bad(f, p);
    if op.Emit? {
      EmitSound(w, op.task);
      var g := Numbered(op.task, w.next, None);
      assert f == w.f + g;
      BadIn(f, p);
      if p in w.f {
        BadSame(w.f, f, p);
      } else {
        BadRisky(f, op.task, w.next, None, p);
      }
    }
  }

  // ---------------------------------------------------------------- a risky tree, a second done

  /** Every tree that the run emits is one of these. */
  ghost predicate Emits(ops: seq<Op>, shapes: set<Shape>) {
    forall op | op in ops && op.Emit? :: op.task in shapes
  }

  /** No last child of a bad serial has been called. */
  ghost predicate NoneLast(w: World)
    requires Ok(w.f)
  {
    forall x | LastOfBad(w.f, x) :: Called(x) !in w.st.log
  }

  /** While none has been, nothing above a bad serial is done. */
  lemma NotDoneYet(w: World, p: Id, r: Id)
    requires Good(w) && Ok(w.f) && NoneLast(w) && Bad(w.f, p) && Under(w.f, p, r)
    ensures Done(r) !in w.st.log
  {
    hide Ok, Ordered, CalledWhenDue, KeptRight, Sync, SyncKid;
    var l := w.f[p].kids[|w.f[p].kids| - 1];
    KidIs(w.f, p, l);
    assert TaskOk(w.f, w.st, p, Waiting(w.ready)) && TaskOk(w.f, w.st, l, Waiting(w.ready));
    if Done(r) in w.st.log {
      DoneBefore(w.f, w.st.log, r, p);
    }
  }

  lemma AlongNone(w: World, after: World, ended: set<Id>)
    requires Ok(w.f) && after.f == w.f && NoneLast(w) && Along(w.f, w.st.log, after.st.log, ended, {})
    ensures NoneLast(after)
  {
    hide Ok, LastOfBad;
  }

  lemma AfterSnoc(ops: seq<Op>, op: Op)
    requires After(ops).Some? && Legal(After(ops).value, op)
    ensures After(ops + [op]) == Some(Apply(After(ops).value, op))
  {
    hide Apply, Legal, Sound;
    assert (ops + [op])[..|ops|] == ops;
  }

  lemma WaitingIsLegal(w: World, r: Id) returns (d: Id)
    requires Good(w) && Ok(w.f) && r in w.f && Called(r) in w.st.log && Done(r) !in w.st.log
    ensures d in w.f && d in w.st.wait && Legal(w, Reply(d)) && NeedsReply(w.f, d)
  {
    hide Ok, Inv, Good;
    d := LeafWaits(w, r);
    WaitingReplies(w, d);
  }

  /** Answering whoever waits ends in a second done. */
  lemma {:induction false} Drive(ops: seq<Op>, s: Shape, r: Id, p: Id) returns (all: seq<Op>)
    requires After(ops).Some? && Emits(ops, {s}) && Good(After(ops).value) && Ok(After(ops).value.f)
    requires var w := After(ops).value; NoneLast(w) && Bad(w.f, p) && Under(w.f, p, r) && r in w.f && Called(r) in w.st.log
    ensures After(all).Some? && Emits(all, {s}) && Twice(After(all).value.st.log)
    decreases |After(ops).value.f.Keys - RepliedTasks(After(ops).value)|
  {
    hide After, Good, Ok, Sound, Apply, Legal, NoneLast, Bad, Under, RepliedTasks, Twice, Blamed, Inv, NeedsReply;
    var w := After(ops).value;
    NotDoneYet(w, p, r);
    var d := WaitingIsLegal(w, r);
    var after := Apply(w, Reply(d));
    AfterSnoc(ops, Reply(d));
    all := ops + [Reply(d)];
    AfterGood(all);
    if !Twice(after.st.log) {
      Answered(w, d);
      all := Drive(all, s, r, p);
    }
  }

  lemma Answered(w: World, d: Id)
    requires Good(w) && Sound(w) && d in w.f && d in w.st.wait && Legal(w, Reply(d)) && NeedsReply(w.f, d)
    requires Good(Apply(w, Reply(d))) && NoneLast(w)
    ensures var after := Apply(w, Reply(d));
            && after.f == w.f && Ok(w.f) && NoneLast(after) && w.st.log <= after.st.log
            && |after.f.Keys - RepliedTasks(after)| < |w.f.Keys - RepliedTasks(w)|
  {
    hide Inv, Finish, Outcome, Blamed, Ok, Waiting, NeedsReply, Below, RootsOnly, NoneLast, RepliedTasks, Along;
    var after := Apply(w, Reply(d));
    ReplyKeeps(w, d);
    StepSound(w, Reply(d));
    NotBlamed(after, w.f);
    OutcomeParts(w.f, w.st, after.st, Waiting(w.ready), {d}, {});
    AlongNone(w, after, {d});
    ReplyTasks(w, d);
    Fewer(w.f.Keys, RepliedTasks(w), d);
  }

  lemma Fewer(keys: set<Id>, some: set<Id>, d: Id)
    requires d in keys && d !in some
    ensures |keys - (some + {d})| < |keys - some|
  {
    assert keys - (some + {d}) == (keys - some) - {d};
  }

  lemma {:induction false} RootAbove(f: Forest, n: Id, i: Id)
    requires Ok(f) && TreeOk(f, n, None) && i in f
    ensures Under(f, i, n)
    decreases i
  {
    hide Ok;
    NodeOfTree(f, n, i);
    if i != n {
      ParentIs(f, i);
      RootAbove(f, n, f[i].parent.value);
    }
  }

  lemma FreshEmit(s: Shape)
    requires Proper(s)
    ensures After([]) == Some(FRESH) && Sound(FRESH) && Legal(FRESH, Emit(s))
    ensures var w := Apply(FRESH, Emit(s));
            w.f == Numbered(s, 1, None) && w.ready == [1] && w.st.log == [] && Good(w) && Sound(w) && Legal(w, Run)
  {
    hide Good, Numbered, Sound;
    FreshGood();
    EmitKeeps(FRESH, s);
    GoodSound(Emitted(FRESH, s));
    assert map[] + Numbered(s, 1, None) == Numbered(s, 1, None);
  }

  lemma FirstRun(w: World)
    requires Good(w) && Sound(w) && w.st.log == [] && w.ready == [1] && Good(Apply(w, Run))
    ensures Ok(w.f) && Apply(w, Run).f == w.f && NoneLast(Apply(w, Run)) && Called(1) in Apply(w, Run).st.log && 1 in w.f
  {
    hide Inv, CallEach, Outcome, Blamed, Ok, Waiting, Below, NoneLast, Along;
    var after := Apply(w, Run);
    RunKeeps(w);
    NotBlamed(after, w.f);
    OutcomeParts(w.f, w.st, after.st, Waiting([]), {}, {});
    assert NoneLast(w) by {
      NoneYet(w);
    }
    AlongNone(w, after, {});
    RootCalled(after, 1);
  }

  lemma NoneYet(w: World)
    requires Ok(w.f) && w.st.log == []
    ensures NoneLast(w)
  {
    hide Ok, LastOfBad;
  }

  lemma RootCalled(w: World, r: Id)
    requires Good(w) && w.ready == [] && r in w.f && w.f[r].parent.None?
    ensures Called(r) in w.st.log
  {
    hide Ok, Ordered;
    assert TaskOk(w.f, w.st, r, Waiting(w.ready));
  }

  /** The tree alone, emitted and called. */
  lemma EmitAndRun(s: Shape)
    requires Proper(s)
    ensures var all := After([Emit(s), Run]);
            && all.Some? && all.value.f == Numbered(s, 1, None) && 1 in all.value.f
            && (Twice(all.value.st.log)
                || (Good(all.value) && NoneLast(all.value) && Called(1) in all.value.st.log))
  {
    hide After, Apply, Legal, Sound, Good, Ok, NoneLast, Twice, Numbered, Blamed;
    FreshEmit(s);
    AfterSnoc([], Emit(s));
    assert [] + [Emit(s)] == [Emit(s)] && [Emit(s)] + [Run] == [Emit(s), Run];
    var w := Apply(FRESH, Emit(s));
    AfterSnoc([Emit(s)], Run);
    AfterGood([Emit(s), Run]);
    SameForest(w);
    RootIs(w.f, s, 1, None);
    if !Twice(After([Emit(s), Run]).value.st.log) {
      FirstRun(w);
    }
  }

  lemma SameForest(w: World)
    requires Sound(w)
    ensures Apply(w, Run).f == w.f && Part(w.f, w.f)
  {
  }

  /** A risky tree alone is enough. */
  lemma RiskyRuns(s: Shape) returns (ops: seq<Op>)
    requires Proper(s) && Risky(s)
    ensures After(ops).Some? && Emits(ops, {s}) && Twice(After(ops).value.st.log)
  {
    hide After, Apply, Legal, Sound, Good, Ok, NoneLast, Twice, Numbered, Blamed, TreeOk, Risky, Under, Bad;
    ops := [Emit(s), Run];
    EmitAndRun(s);
    var w := After(ops).value;
    if !Twice(w.st.log) {
      GoodOk(w);
      NumberedOk(s, 1, None);
      var p := RiskyBad(w.f, s, 1, None);
      RootAbove(w.f, 1, p);
      ops := Drive(ops, s, 1, p);
    }
  }

  // ---------------------------------------------------------------- exactly

  /** A legal run without risky trees is one without a second done, so that the theorems of AsyncTheorems hold of it. */
  lemma SafeIsClean(ops: seq<Op>)
    requires After(ops).Some? && forall op | op in ops && op.Emit? :: !Risky(op.task)
    ensures Clean(ops)
  {
    hide After, Ok, Below, RootsOnly, Twice, Risky, Blamed, SomeBad, Good;
    AfterGood(ops);
    if SomeBad(After(ops).value.f) {
      BadFrom(ops);
    }
    BlamedParts(After(ops).value);
  }

  /**
   No task is ever done twice, whatever trees of these are emitted, whenever run() is called and however
   the replies come, if and only if none of the trees has a Serial of two or more children whose last
   child completes inside its own call().
   */
  lemma OnceIff(shapes: set<Shape>)
    requires forall s | s in shapes :: Proper(s)
    ensures (forall ops | After(ops).Some? && Emits(ops, shapes) :: !Twice(After(ops).value.st.log))
       <==> (forall s | s in shapes :: !Risky(s))
  {
    hide After, Ok, Below, RootsOnly, Twice, Risky, Proper, Blamed, SomeBad, Good;
    if s :| s in shapes && Risky(s) {
      var ops := RiskyRuns(s);
      assert Emits(ops, shapes);
    } else {
      forall ops | After(ops).Some? && Emits(ops, shapes) ensures !Twice(After(ops).value.st.log) {
        SafeIsClean(ops);
      }
    }
  }

  lemma BlamedParts(w: World)
    requires GoodOrBlamed(w)
    ensures Ok(w.f) && (Good(w) || SomeBad(w.f))
  {
    hide Good, Ok, Twice, SomeBad;
  }

  // ---------------------------------------------------------------- replies to composites

  /** A reply to the id of a composite that waits ends it before its children. */
  lemma AnsweredEarly(w: World, p: Id)
    requires Good(w) && Sound(w) && p in w.st.wait && p in w.f && w.f[p].kids != []
    ensures Done(p) !in w.st.log && Done(p) in Apply(w, Reply(p)).st.log
    ensures exists k | k in w.f[p].kids :: Done(k) !in w.st.log
  {
    hide Ok, Ordered, Finish;
    assert TaskOk(w.f, w.st, p, Waiting(w.ready));
    DoneLast(w.st.log, p, Finish(w.f, w.st, p).log);
  }

  /** child_done of the last child that is left ends the composite. */
  lemma LastChild(f: Forest, st: State, p: Id, k: Id)
    requires Ok(f) && p in f && k in f[p].kids && p < k && Left(st, p) == {k}
    ensures ChildDone(f, st, p, k) == Finish(f, Without(st, p, k), p)
  {
    hide Ok, Finish, Pairs;
    KindsAre(f, p);
    FirstIs(f[p].kids, {k}, k);
    assert Left(Without(st, p, k), p) == {};
  }

  lemma LastFinish(f: Forest, st: State, p: Id, k: Id)
    requires Ok(f) && p in f && k in f[p].kids && k in f && p < k && f[k].parent == Some(p) && Left(st, p) == {k}
    ensures Finish(f, Without(Ended(st, k), p, k), p).log == Finish(f, st, k).log
  {
    hide Ok, ChildDone, Pairs;
    LastChild(f, Ended(st, k), p, k);
  }

  lemma FinishLogs(f: Forest, st: State, i: Id)
    requires Ok(f) && i in f
    ensures st.log + [Done(i)] <= Finish(f, st, i).log
  {
    hide Ok, Finish, Pairs;
  }

  lemma TwiceThen(log: seq<Event>, k: Id, p: Id, more: seq<Event>)
    requires Done(p) in log && log + [Done(k)] + [Done(p)] <= more
    ensures Twice(more)
  {
    TwiceNow(log + [Done(k)], p, more);
  }

  /** A composite that is done already is done again when the last child it has left ends. */
  lemma EndsAgain(w: World, p: Id, k: Id)
    requires Sound(w) && p in w.f && k in w.f[p].kids && k in w.st.wait
    requires Left(w.st, p) == {k} && Done(p) in w.st.log
    ensures Twice(Apply(w, Reply(k)).st.log)
  {
    hide Ok, Finish, Pairs, Below, RootsOnly, Twice;
    KidIs(w.f, p, k);
    LastFinish(w.f, w.st, p, k);
    FinishLogs(w.f, Without(Ended(w.st, k), p, k), p);
    TwiceThen(w.st.log, k, p, Finish(w.f, w.st, k).log);
  }
}
