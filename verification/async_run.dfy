/** Whole runs: tasks are emitted, run() calls the ready ones, replies come for leaves. */
module AsyncRun {
  import opened Options
  import opened AsyncModel
  import opened AsyncInvariant
  import opened AsyncCall
  import opened AsyncDone
  import opened AsyncCascade

  /** next is the global task counter; ready is queue_ready_. */
  datatype World = World(f: Forest, next: Id, st: State, ready: seq<Id>)

  datatype Op = Emit(task: Shape) | Run | Reply(id: Id)

  /** children_ as on_emit fills them. */
  function AllKids(f: Forest): map<Id, set<Id>> {
    map i | i in f :: KidSet(f[i].kids)
  }

  function Emitted(w: World, s: Shape): World {
    var g := Numbered(s, w.next, None);
    World(w.f + g, w.next + Size(s), w.st.(left := w.st.left + AllKids(g)), w.ready + [w.next])
  }

  predicate RootsOnly(f: Forest, ready: seq<Id>) {
    Increasing(ready) && forall i | i in ready :: i in f && f[i].parent.None?
  }

  /** What the code needs to run at all; a second done() does not break it. */
  predicate Sound(w: World) {
    Ok(w.f) && Below(w.f, w.next) && RootsOnly(w.f, w.ready) && w.st.wait <= w.f.Keys
  }

  /** The loop over the ready queue. */
  ghost function CallEach(f: Forest, st: State, ready: seq<Id>): (r: State)
    requires Ok(f) && forall i | i in ready :: i in f
    ensures Onward(f, st, r)
    decreases |ready|
  {
    if ready == [] then st else CallEach(f, Call(f, st, ready[0]), ready[1..])
  }

  /** triggerDone of an id. */
  ghost function Replied(f: Forest, st: State, id: Id): (r: State)
    requires Ok(f) && st.wait <= f.Keys
    ensures Onward(f, st, r)
  {
    if id in st.wait then Finish(f, st, id) else st
  }

  ghost function Apply(w: World, op: Op): World
    requires Sound(w)
  {
    match op
    case Emit(s) => Emitted(w, s)
    case Run => w.(st := CallEach(w.f, w.st, w.ready), ready := [])
    case Reply(id) => w.(st := Replied(w.f, w.st, id))
  }

  /** Replies are for tasks without children. */
  predicate Legal(w: World, op: Op) {
    match op
    case Emit(s) => Proper(s)
    case Run => true
    case Reply(id) => id in w.f ==> w.f[id].kids == []
  }

  function Waiting(ready: seq<Id>): Behind {
    Behind(KidSet(ready), {}, {})
  }

  /** Every task is where it belongs. */
  ghost predicate Good(w: World) {
    Inv(w.f, w.st, Waiting(w.ready)) && Below(w.f, w.next) && RootsOnly(w.f, w.ready)
  }

  lemma GoodSound(w: World)
    requires Good(w)
    ensures Sound(w)
  {
    hide Ordered, TaskOk;
  }

  // ---------------------------------------------------------------- emit

  /** Two forests side by side. */
  lemma SideBySide(f: Forest, g: Forest, i: Id)
    requires f.Keys !! g.Keys && i in f
    ensures (f + g)[i] == (g + f)[i] == f[i]
    ensures KidsOk(f, i) ==> KidsOk(f + g, i) && KidsOk(g + f, i)
    ensures ParentOk(f, i) ==> ParentOk(f + g, i) && ParentOk(g + f, i)
  {
  }

  ghost predicate Within(g: Forest, n: Id, top: Id) {
    forall i | i in g :: n <= i < top
  }

  ghost predicate TreeOk(g: Forest, n: Id, parent: Option<Id>) {
    && n in g && g[n].parent == parent
    && (forall i | i in g :: KidsOk(g, i) && (i != n ==> g[i].parent.Some? && ParentOk(g, i)))
  }

  ghost predicate TreesOk(g: Forest, roots: seq<Id>, parent: Id) {
    && Increasing(roots)
    && (forall i | i in roots :: i in g && g[i].parent == Some(parent))
    && (forall i | i in g :: KidsOk(g, i) && g[i].parent.Some? && (i !in roots ==> ParentOk(g, i)))
  }

  /** Numbering gives a well-formed tree on exactly the interval of ids that it takes. */
  lemma {:induction false} NumberedOk(s: Shape, n: Id, parent: Option<Id>)
    requires Proper(s)
    ensures TreeOk(Numbered(s, n, parent), n, parent) && Numbered(s, n, parent)[n].kind == s.kind
    ensures Within(Numbered(s, n, parent), n, n + Size(s))
    decreases s
  {
    hide NumberedAll, TreeOk, TreesOk, Within;
    var below, roots := NumberedAll(s.kids, n + 1, n), Roots(s.kids, n + 1);
    NumberedAllOk(s.kids, n + 1, n);
    Planted(below, n, Node(s.kind, parent, roots), n + Size(s));
    RootsEmpty(s.kids, n + 1);
    TreeWithin(below, n, Node(s.kind, parent, roots), n + Size(s));
  }

  lemma TreeWithin(below: Forest, n: Id, root: Node, top: Id)
    requires Within(below, n + 1, top) && n < top
    ensures Within(below[n := root], n, top)
  {
  }

  lemma RootsEmpty(kids: seq<Shape>, n: Id)
    ensures Roots(kids, n) == [] <==> kids == []
  {
  }

  /** A root under trees whose roots are its children. */
  lemma Planted(below: Forest, n: Id, root: Node, top: Id)
    requires TreesOk(below, root.kids, n) && Within(below, n + 1, top)
    requires root.kind.Leaf? ==> root.kids == []
    ensures TreeOk(below[n := root], n, root.parent)
  {
    hide KidsOk, ParentOk;
    var g := below[n := root];
    assert below + map[n := root] == g;
    PlantedRoots(below, n, root, top);
    forall i | i in g ensures KidsOk(g, i) && (i != n ==> g[i].parent.Some? && ParentOk(g, i)) {
      if i != n {
        SideBySide(below, map[n := root], i);
      }
    }
  }

  lemma PlantedRoots(below: Forest, n: Id, root: Node, top: Id)
    requires Increasing(root.kids) && (root.kind.Leaf? ==> root.kids == []) && Within(below, n + 1, top)
    requires forall i | i in root.kids :: i in below && below[i].parent == Some(n)
    ensures KidsOk(below[n := root], n)
    ensures forall i | i in root.kids :: ParentOk(below[n := root], i)
  {
  }

  lemma {:induction false} NumberedAllOk(kids: seq<Shape>, n: Id, parent: Id)
    requires parent < n && forall k | k in kids :: Proper(k)
    ensures TreesOk(NumberedAll(kids, n, parent), Roots(kids, n), parent)
    ensures Within(NumberedAll(kids, n, parent), n, n + SizeAll(kids))
    ensures forall r | r in Roots(kids, n) :: n <= r
    decreases kids
  {
    hide Numbered, TreeOk, TreesOk;
    if kids == [] {
      NoTrees(n, parent);
    } else {
      var m := n + Size(kids[0]);
      NumberedOk(kids[0], n, Some(parent));
      NumberedAllOk(kids[1..], m, parent);
      Joined(Numbered(kids[0], n, Some(parent)), NumberedAll(kids[1..], m, parent), n, m, Roots(kids[1..], m), parent);
    }
  }

  lemma NoTrees(n: Id, parent: Id)
    ensures TreesOk(map[], [], parent)
  {
  }

  lemma Joined(f: Forest, g: Forest, n: Id, m: Id, roots: seq<Id>, parent: Id)
    requires TreeOk(f, n, Some(parent)) && TreesOk(g, roots, parent)
    requires n < m && Within(f, n, m) && (forall i | i in g :: m <= i) && forall r | r in roots :: m <= r
    ensures TreesOk(f + g, [n] + roots, parent)
  {
    hide KidsOk, ParentOk;
    assert forall i | i in [n] + roots :: i == n || i in roots;
    assert forall k | 0 < k < |[n] + roots| :: ([n] + roots)[k] == roots[k - 1] && roots[k - 1] in roots;
    forall i | i in f + g ensures KidsOk(f + g, i) && (i !in [n] + roots ==> ParentOk(f + g, i)) {
      if i in f {
        SideBySide(f, g, i);
      } else {
        SideBySide(g, f, i);
      }
    }
  }

  lemma OldTask(w: World, s: Shape, i: Id)
    requires Good(w) && i in w.f && w.f.Keys !! Numbered(s, w.next, None).Keys
    ensures TaskOk(Emitted(w, s).f, Emitted(w, s).st, i, Waiting(w.ready + [w.next]))
  {
    hide Ordered, NodeOk, Ok, Numbered;
    assert TaskOk(w.f, w.st, i, Waiting(w.ready));
    assert Left(Emitted(w, s).st, i) == Left(w.st, i);
    assert forall k | k in w.ready + [w.next] :: k in w.ready || k == w.next;
  }

  lemma NewTask(w: World, s: Shape, i: Id)
    requires Good(w) && TreeOk(Numbered(s, w.next, None), w.next, None) && i in Numbered(s, w.next, None)
    requires w.f.Keys !! Numbered(s, w.next, None).Keys
    ensures TaskOk(Emitted(w, s).f, Emitted(w, s).st, i, Waiting(w.ready + [w.next]))
  {
    hide Inv, Ok, Numbered, NodeOk, RootsOnly, Ordered, KidsOk, ParentOk, TreeOk, Good, Due;
    NodeOfTree(Numbered(s, w.next, None), w.next, i);
    var g := Numbered(s, w.next, None);
    NotLogged(w, i);
    SideBySide(g, w.f, i);
    ReadyOld(w, i);
    NewKids(w, g, i);
    if i != w.next {
      NewParent(w, g, i);
    }
  }

  lemma NodeOfTree(g: Forest, n: Id, i: Id)
    requires TreeOk(g, n, None) && i in g
    ensures KidsOk(g, i) && (g[i].parent.None? <==> i == n)
    ensures g[i].kind.Leaf? ==> g[i].kids == []
  {
  }

  lemma NotLogged(w: World, i: Id)
    requires Good(w) && i !in w.f
    ensures Called(i) !in w.st.log && Done(i) !in w.st.log && i !in w.st.wait
  {
    hide Ok, TaskOk, RootsOnly;
    assert forall n | 0 <= n < |w.st.log| :: Justified(w.f, w.st.log[..n], w.st.log[n]);
  }

  lemma ReadyOld(w: World, i: Id)
    requires Good(w) && i !in w.f
    ensures i in w.ready + [w.next] <==> i == w.next
  {
    hide Inv;
  }

  lemma NewKids(w: World, g: Forest, i: Id)
    requires Good(w) && i in g && KidsOk(g, i) && w.f.Keys !! g.Keys
    ensures forall k | k in g[i].kids :: Done(k) !in w.st.log
    ensures g[i].kids != [] ==> exists k | k in g[i].kids :: Done(k) !in w.st.log
  {
    hide Good;
    forall k | k in g[i].kids ensures Done(k) !in w.st.log {
      NotLogged(w, k);
    }
    if g[i].kids != [] {
      assert g[i].kids[0] in g[i].kids;
    }
  }

  lemma NewParent(w: World, g: Forest, i: Id)
    requires Good(w) && TreeOk(g, w.next, None) && i in g && i != w.next && w.f.Keys !! g.Keys
    ensures g[i].parent.Some? ==> g[i].parent.value in g && !Due(w.f + g, w.st.log, g[i].parent.value, i)
    ensures i != w.next ==> g[i].parent.Some?
  {
    hide Good, KidsOk;
    if g[i].parent.Some? {
      NotLogged(w, g[i].parent.value);
    }
  }

  lemma EmitSound(w: World, s: Shape)
    requires Sound(w) && Proper(s)
    ensures Sound(Emitted(w, s))
    ensures TreeOk(Numbered(s, w.next, None), w.next, None) && w.f.Keys !! Numbered(s, w.next, None).Keys
  {
    hide NodeOk, Numbered, TreeOk;
    var g := Numbered(s, w.next, None);
    NumberedOk(s, w.next, None);
    assert w.f.Keys !! g.Keys;
    forall i | i in w.f + g ensures NodeOk(w.f + g, i) {
      EmitNode(w, g, i);
    }
    TreeRoot(g, w.next);
    EmitReady(w, g);
    assert Below(w.f + g, w.next + Size(s));
  }

  lemma EmitKeeps(w: World, s: Shape)
    requires Good(w) && Proper(s)
    ensures Good(Emitted(w, s))
  {
    hide Ordered, Ok, Numbered, TaskOk, TreeOk;
    var g := Numbered(s, w.next, None);
    GoodSound(w);
    EmitSound(w, s);
    forall i | i in w.f + g ensures TaskOk(w.f + g, Emitted(w, s).st, i, Waiting(w.ready + [w.next])) {
      if i in w.f {
        OldTask(w, s, i);
      } else {
        NewTask(w, s, i);
      }
    }
    EmitLog(w, g);
  }

  lemma EmitReady(w: World, g: Forest)
    requires RootsOnly(w.f, w.ready) && Below(w.f, w.next) && w.f.Keys !! g.Keys && w.next in g && g[w.next].parent.None?
    ensures RootsOnly(w.f + g, w.ready + [w.next])
  {
    forall j, k | 0 <= j < k < |w.ready + [w.next]| ensures (w.ready + [w.next])[j] < (w.ready + [w.next])[k] {
      assert w.ready[j] in w.f;
    }
  }

  lemma TreeRoot(g: Forest, n: Id)
    requires TreeOk(g, n, None)
    ensures n in g && g[n].parent.None?
  {
  }

  lemma EmitNode(w: World, g: Forest, i: Id)
    requires Ok(w.f) && TreeOk(g, w.next, None) && w.f.Keys !! g.Keys && i in w.f + g
    ensures NodeOk(w.f + g, i)
  {
    hide KidsOk;
    if i in w.f {
      assert NodeOk(w.f, i);
      SideBySide(w.f, g, i);
    } else {
      SideBySide(g, w.f, i);
    }
  }

  lemma EmitLog(w: World, g: Forest)
    requires Good(w) && w.f.Keys !! g.Keys
    ensures Ordered(w.f + g, w.st.log)
  {
    hide TaskOk, NodeOk;
    assert forall n | 0 <= n < |w.st.log| :: Justified(w.f, w.st.log[..n], w.st.log[n]);
  }

  // ---------------------------------------------------------------- run and reply

  lemma RootsNotLast(f: Forest, ready: seq<Id>)
    requires Ok(f) && RootsOnly(f, ready)
    ensures forall x | x in KidSet(ready) :: !LastOfBad(f, x)
  {
    hide Ok, LastOfBad;
    forall x | x in KidSet(ready) ensures !LastOfBad(f, x) {
      if LastOfBad(f, x) {
        var p := LastIs(f, x);
      }
    }
  }

  lemma {:induction false} CallEachKeeps(f: Forest, st: State, ready: seq<Id>)
    requires Inv(f, st, Waiting(ready)) && RootsOnly(f, ready)
    ensures Ok(f) && Outcome(f, st, CallEach(f, st, ready), Waiting([]), {}, KidSet(ready))
    decreases |ready|
  {
    hide Inv, Ok, Call, Outcome, Blamed, Along;
    InvOk(f, st, Waiting(ready));
    if ready == [] {
      OutcomeSelf(f, st, Waiting(ready));
      assert KidSet(ready) == {};
    } else {
      var st1, rest := Call(f, st, ready[0]), ready[1..];
      CallKeeps(f, st, ready[0], Waiting(ready));
      ReadyRest(ready);
      OutcomeParts(f, st, st1, Waiting(rest), {}, {ready[0]});
      if Blamed(f, st1.log) {
        OutcomeBlamed(f, st, st1, CallEach(f, st, ready), Waiting([]), {}, KidSet(ready));
      } else {
        CallEachKeeps(f, st1, rest);
        OutcomeThen(f, st, st1, CallEach(f, st1, rest), Waiting([]), {}, {ready[0]}, KidSet(rest));
      }
    }
  }

  lemma ReadyRest(ready: seq<Id>)
    requires ready != [] && Increasing(ready)
    ensures Late(Waiting(ready), ready[0], {}) == Waiting(ready[1..])
    ensures {ready[0]} + KidSet(ready[1..]) == KidSet(ready) && Increasing(ready[1..])
    ensures forall i | i in ready[1..] :: i in ready
  {
    assert Late(Waiting(ready), ready[0], {}).late == Waiting(ready[1..]).late;
  }

  lemma WaitingLeaf(f: Forest, st: State, ready: seq<Id>, id: Id)
    requires Inv(f, st, Waiting(ready)) && id in st.wait && f[id].kids == []
    ensures Ending(f, st, id, Waiting(ready))
    ensures NeedsReply(f, id) && Called(id) in st.log && Done(id) !in st.log
  {
    hide Ok, Ordered;
    assert TaskOk(f, st, id, Waiting(ready));
  }

  /** A reply ends its task, and nothing else that needs a reply, if the task waits; otherwise nothing. */
  lemma ReplyKeeps(w: World, id: Id)
    requires Good(w) && Legal(w, Reply(id))
    ensures Sound(w)
    ensures Outcome(w.f, w.st, Apply(w, Reply(id)).st, Waiting(w.ready), if id in w.st.wait then {id} else {}, {})
    ensures id in w.st.wait ==> Done(id) !in w.st.log && Done(id) in Apply(w, Reply(id)).st.log
  {
    hide Inv, Ok, Finish, Below, RootsOnly, Outcome, Waiting, NeedsReply, Pairs;
    GoodSound(w);
    if id in w.st.wait {
      WaitingLeaf(w.f, w.st, w.ready, id);
      FinishKeeps(w.f, w.st, id, Waiting(w.ready));
      WaitingOver(w.ready);
      DoneLast(w.st.log, id, Finish(w.f, w.st, id).log);
    } else {
      OutcomeSelf(w.f, w.st, Waiting(w.ready));
    }
  }

  lemma WaitingOver(ready: seq<Id>)
    ensures Waiting(ready).(over := {}) == Waiting(ready)
  {
  }

  lemma DoneLast(log: seq<Event>, i: Id, more: seq<Event>)
    requires log + [Done(i)] <= more
    ensures Done(i) in more
  {
    assert more[|log|] == Done(i);
  }

  lemma RunKeeps(w: World)
    requires Good(w)
    ensures Sound(w) && Outcome(w.f, w.st, Apply(w, Run).st, Waiting([]), {}, {})
  {
    hide Inv, Ok, CallEach, Below, Outcome, LastOfBad, KidSet;
    GoodSound(w);
    CallEachKeeps(w.f, w.st, w.ready);
    RootsNotLast(w.f, w.ready);
    OutcomeLess(w.f, w.st, CallEach(w.f, w.st, w.ready), Waiting([]), {}, KidSet(w.ready), {}, {});
  }

  lemma StepSound(w: World, op: Op)
    requires Sound(w) && (op.Emit? ==> Proper(op.task))
    ensures Sound(Apply(w, op)) && w.st.log <= Apply(w, op).st.log
  {
    hide Ok, Emitted, Replied, CallEach, Pairs;
    match op
    case Emit(s) =>
      EmitSound(w, s);
      SameLog(w, s);
    case Run =>
    case Reply(id) =>
  }

  lemma SameLog(w: World, s: Shape)
    ensures Emitted(w, s).st.log == w.st.log
  {
  }

  // ---------------------------------------------------------------- whole runs

  /** A scheduler without tasks; the counter starts at 1. */
  const FRESH := World(map[], 1, State({}, map[], [], 0, 0), [])

  lemma FreshGood()
    ensures Good(FRESH) && Sound(FRESH)
  {
  }

  /** The world after a history of operations, if each was legal when its turn came. */
  ghost function After(ops: seq<Op>): (w: Option<World>)
    ensures w.Some? ==> Sound(w.value)
  {
    if ops == [] then
      FreshGood();
      Some(FRESH)
    else
      var w := After(ops[..|ops| - 1]);
      var op := ops[|ops| - 1];
      if w.Some? && Legal(w.value, op) then
        StepSound(w.value, op);
        Some(Apply(w.value, op))
      else None
  }

  // ---------------------------------------------------------------- in place, or done twice

  /** What completes inside its own call() does so however many other trees there are. */
  lemma {:induction false} SyncSame(f: Forest, g: Forest, i: Id)
    requires Ok(f) && Ok(g) && (forall k | k in f :: k in g && g[k] == f[k]) && i in f
    ensures Sync(f, i) <==> Sync(g, i)
    decreases Top(f) - i
  {
    hide Ok;
    forall k | k in f[i].kids ensures SyncKid(f, i, k) <==> SyncKid(g, i, k) {
      KidIs(f, i, k);
      SyncSame(f, g, k);
    }
  }

  lemma BadSame(f: Forest, g: Forest, p: Id)
    requires Ok(f) && Ok(g) && (forall k | k in f :: k in g && g[k] == f[k]) && p in f
    ensures Bad(f, p) <==> Bad(g, p)
  {
    hide Ok, Sync;
    if |f[p].kids| >= 2 {
      var l := f[p].kids[|f[p].kids| - 1];
      KidIs(f, p, l);
      SyncSame(f, g, l);
    }
  }

  lemma EmitBlamed(w: World, s: Shape)
    requires Sound(w) && Proper(s) && Blamed(w.f, w.st.log)
    ensures Sound(Emitted(w, s)) && Blamed(Emitted(w, s).f, Emitted(w, s).st.log)
  {
    hide Ok, Bad, Numbered, TreeOk, Twice;
    EmitSound(w, s);
    SameLog(w, s);
    var p :| Bad(w.f, p);
    BadIn(w.f, p);
    BadSame(w.f, Emitted(w, s).f, p);
  }

  lemma BadIn(f: Forest, p: Id)
    requires Ok(f) && Bad(f, p)
    ensures p in f
  {
  }

  ghost predicate GoodOrBlamed(w: World) {
    Sound(w) && (Good(w) || Blamed(w.f, w.st.log))
  }

  /** Every operation leaves every task where it belongs, or does some task a second time and has a bad serial to blame. */
  lemma StepKeeps(w: World, op: Op)
    requires GoodOrBlamed(w) && Legal(w, op)
    ensures GoodOrBlamed(Apply(w, op))
  {
    hide Good, Emitted, Replied, CallEach, Sound, Blamed;
    StepSound(w, op);
    if Good(w) {
      StepGood(w, op);
    } else {
      StepBlamed(w, op);
    }
  }

  lemma StepBlamed(w: World, op: Op)
    requires Sound(w) && Blamed(w.f, w.st.log) && Legal(w, op)
    ensures Sound(Apply(w, op)) && Blamed(Apply(w, op).f, Apply(w, op).st.log)
  {
    hide Emitted, Replied, CallEach, Ok, Below, RootsOnly, Blamed;
    StepSound(w, op);
    match op
    case Emit(s) => EmitBlamed(w, s);
    case Run => BlamedStays(w.f, w.st.log, Apply(w, op).st.log);
    case Reply(id) => BlamedStays(w.f, w.st.log, Apply(w, op).st.log);
  }

  lemma StepGood(w: World, op: Op)
    requires Good(w) && Legal(w, op)
    ensures Sound(w) && GoodOrBlamed(Apply(w, op))
  {
    hide Inv, Emitted, Replied, CallEach, Blamed, Outcome, Ok, KidSet;
    GoodSound(w);
    StepSound(w, op);
    match op {
      case Emit(s) => EmitKeeps(w, s);
      case Run =>
        RunKeeps(w);
        OutcomeParts(w.f, w.st, Apply(w, op).st, Waiting([]), {}, {});
      case Reply(id) =>
        ReplyKeeps(w, id);
        OutcomeParts(w.f, w.st, Apply(w, op).st, Waiting(w.ready), if id in w.st.wait then {id} else {}, {});
    }
  }

  lemma {:induction false} AfterGood(ops: seq<Op>)
    requires After(ops).Some?
    ensures GoodOrBlamed(After(ops).value)
    ensures Good(After(ops).value) <==> !Twice(After(ops).value.st.log)
  {
    hide Good, Apply, Legal, Sound, Blamed;
    if ops == [] {
      FreshGood();
    } else {
      var front, op := ops[..|ops| - 1], ops[|ops| - 1];
      AfterGood(front);
      StepKeeps(After(front).value, op);
    }
    GoodOnce(After(ops).value);
  }

  lemma GoodOnce(w: World)
    requires GoodOrBlamed(w)
    ensures Good(w) <==> !Twice(w.st.log)
  {
    hide Ok, TaskOk, Ordered, Twice, SomeBad;
    if Good(w) {
      OrderedOnce(w.f, w.st.log);
    }
  }
}
