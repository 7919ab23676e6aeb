/**
 common/async.cpp on values: a forest of Serial and Parallel tasks over leaves, numbered as on_emit
 numbers them, and a scheduler whose triggerCall goes down the trees and whose triggerDone goes up.
 A leaf may end inside its own call(), by emit_done: then going down turns into going up, and that
 into going down again. No task has a timeout here.
 */
module AsyncModel {
  import opened Options

  type Id = nat

  /** immediate: the leaf's own call() ends it. */
  datatype Kind = Leaf(immediate: bool) | Serial | Parallel

  /** A task tree as AsyncTask::S and AsyncTask::P build it, before it is emitted. */
  datatype Shape = Shape(kind: Kind, kids: seq<Shape>)

  /** A leaf has no children; a composite may lack them too, and then waits to be ended from outside. */
  predicate Proper(s: Shape) {
    (s.kind.Leaf? ==> s.kids == []) && forall k | k in s.kids :: Proper(k)
  }

  datatype Node = Node(kind: Kind, parent: Option<Id>, kids: seq<Id>)

  type Forest = map<Id, Node>

  // ---------------------------------------------------------------- on_emit: numbering a tree

  function Size(s: Shape): (n: nat)
    ensures n >= 1
    decreases s
  {
    1 + SizeAll(s.kids)
  }

  function SizeAll(kids: seq<Shape>): nat
    decreases kids
  {
    if kids == [] then 0 else Size(kids[0]) + SizeAll(kids[1..])
  }

  /** The ids of the roots of trees numbered one after the other from n on. */
  function Roots(kids: seq<Shape>, n: Id): seq<Id> {
    if kids == [] then [] else [n] + Roots(kids[1..], n + Size(kids[0]))
  }

  /** A task takes the next id before its children do. */
  function Numbered(s: Shape, n: Id, parent: Option<Id>): Forest
    decreases s
  {
    NumberedAll(s.kids, n + 1, n)[n := Node(s.kind, parent, Roots(s.kids, n + 1))]
  }

  function NumberedAll(kids: seq<Shape>, n: Id, parent: Id): Forest
    decreases kids
  {
    if kids == [] then map[]
    else Numbered(kids[0], n, Some(parent)) + NumberedAll(kids[1..], n + Size(kids[0]), parent)
  }

  predicate Increasing(ids: seq<Id>) {
    forall j, k | 0 <= j < k < |ids| :: ids[j] < ids[k]
  }

  predicate KidsOk(f: Forest, i: Id)
    requires i in f
  {
    && (f[i].kind.Leaf? ==> f[i].kids == [])
    && (forall k | k in f[i].kids :: k in f && i < k && f[k].parent == Some(i))
    && Increasing(f[i].kids)
  }

  predicate ParentOk(f: Forest, i: Id)
    requires i in f
  {
    f[i].parent.Some? ==>
      f[i].parent.value < i && f[i].parent.value in f && i in f[f[i].parent.value].kids
  }

  predicate NodeOk(f: Forest, i: Id)
    requires i in f
  {
    KidsOk(f, i) && ParentOk(f, i)
  }

  predicate Ok(f: Forest) {
    forall i | i in f :: NodeOk(f, i)
  }

  // ---------------------------------------------------------------- the scheduler

  datatype Event = Called(id: Id) | Done(id: Id)

  /** queue_wait_, the children_ of every task, the calls of call() and done() so far, stat_. */
  datatype State = State(wait: set<Id>, left: map<Id, set<Id>>, log: seq<Event>, calls: nat, dones: nat)

  function Left(st: State, i: Id): set<Id> {
    if i in st.left then st.left[i] else {}
  }

  function Without(st: State, p: Id, i: Id): State {
    st.(left := st.left[p := Left(st, p) - {i}])
  }

  /** The position of the first of the kids that is left: children_.begin(). */
  function First(kids: seq<Id>, left: set<Id>): (j: nat)
    ensures j <= |kids|
    ensures forall k | 0 <= k < j :: kids[k] !in left
    ensures j < |kids| ==> kids[j] in left
  {
    if kids == [] || kids[0] in left then 0 else 1 + First(kids[1..], left)
  }

  function KidSet(kids: seq<Id>): set<Id> {
    set k | k in kids
  }

  predicate Below(f: Forest, n: Id) {
    forall i | i in f :: i < n
  }

  /** How far the ids of the forest go. */
  ghost function Top(f: Forest): (n: Id)
    ensures Below(f, n)
  {
    TopExists(f);
    var n :| Below(f, n);
    n
  }

  lemma TopExists(f: Forest)
    ensures exists n :: Below(f, n)
  {
    if f == map[] {
      assert Below(f, 0);
    } else {
      var j :| j in f;
      TopExists(f - {j});
      var n :| Below(f - {j}, n);
      assert forall i | i in f :: i == j || i in f - {j};
      assert Below(f, if n <= j then j + 1 else n);
    }
  }

  // ---------------------------------------------------------------- down and up

  /** Who is still a child of whom. */
  function Pairs(left: map<Id, set<Id>>): set<(Id, Id)> {
    set p, k | p in left && k in left[p] :: (p, k)
  }

  lemma WithoutPairs(st: State, p: Id, i: Id)
    ensures |Pairs(Without(st, p, i).left)| <= |Pairs(st.left)|
    ensures i in Left(st, p) ==> |Pairs(Without(st, p, i).left)| < |Pairs(st.left)|
  {
    var a, b := Pairs(Without(st, p, i).left), Pairs(st.left);
    assert a <= b;
    Subset(a, b);
    if i in Left(st, p) {
      assert (p, i) in b && (p, i) !in a;
      assert a <= b - {(p, i)};
      Subset(a, b - {(p, i)});
    }
  }

  lemma Subset(a: set<(Id, Id)>, b: set<(Id, Id)>)
    requires a <= b
    ensures |a| <= |b|
  {
    assert b == a + (b - a);
  }

  /** No cascade gives a task back a child, and none changes what was logged before. */
  ghost predicate Onward(f: Forest, st: State, after: State) {
    |Pairs(after.left)| <= |Pairs(st.left)| && st.log <= after.log && (st.wait <= f.Keys ==> after.wait <= f.Keys)
  }

  /** Into queue_wait_; call() is the next thing that happens. */
  function Begun(st: State, i: Id): State {
    st.(wait := st.wait + {i}, log := st.log + [Called(i)])
  }

  /** done() has run. */
  function Ended(st: State, i: Id): State {
    st.(log := st.log + [Done(i)], dones := st.dones + 1)
  }

  /** triggerCall. */
  ghost function Call(f: Forest, st: State, i: Id): (r: State)
    requires Ok(f) && i in f
    ensures Onward(f, st, r)
    decreases |Pairs(st.left)|, 1, Top(f) - i, 1, 0
  {
    assert NodeOk(f, i);
    var st1 := Begun(st, i);
    var st2 := match f[i].kind
      case Leaf(immediate) => if immediate then Finish(f, st1, i) else st1
      case Serial => CallFirst(f, st1, i)
      case Parallel => CallAll(f, st1, i, f[i].kids);
    st2.(calls := st2.calls + 1)
  }

  /** SerialsTask::triggerFirstCall. */
  ghost function CallFirst(f: Forest, st: State, i: Id): (r: State)
    requires Ok(f) && i in f
    ensures Onward(f, st, r)
    decreases |Pairs(st.left)|, 1, Top(f) - i, 0, 0
  {
    assert NodeOk(f, i);
    var kids := f[i].kids;
    var j := First(kids, Left(st, i));
    if j == |kids| then st else Call(f, st, kids[j])
  }

  /** The loop of ParallelTask::call. */
  ghost function CallAll(f: Forest, st: State, i: Id, kids: seq<Id>): (r: State)
    requires Ok(f) && i in f && forall k | k in kids :: k in f[i].kids
    ensures Onward(f, st, r)
    decreases |Pairs(st.left)|, 1, Top(f) - i, 0, |kids|
  {
    assert NodeOk(f, i);
    if kids == [] then st else CallAll(f, Call(f, st, kids[0]), i, kids[1..])
  }

  /** triggerDone of a task. */
  ghost function Finish(f: Forest, st: State, i: Id): (r: State)
    requires Ok(f) && i in f
    ensures Onward(f, st, r) && Ended(st, i).log <= r.log
    decreases |Pairs(st.left)|, 0, i, 0, 0
  {
    assert NodeOk(f, i);
    var st1 := Ended(st, i);
    var st2 := if f[i].parent.Some? then ChildDone(f, st1, f[i].parent.value, i) else st1;
    st2.(wait := st2.wait - {i})
  }

  /** child_done of the composite p. */
  ghost function ChildDone(f: Forest, st: State, p: Id, i: Id): (r: State)
    requires Ok(f) && p in f && p < i
    ensures Onward(f, st, r)
    decreases |Pairs(st.left)|, 0, p, 1, 0
  {
    assert NodeOk(f, p);
    WithoutPairs(st, p, i);
    match f[p].kind
    case Leaf(_) => st
    case Serial =>
      var kids := f[p].kids;
      var j := First(kids, Left(st, p));
      var st1 := if j < |kids| && kids[j] == i then CallFirst(f, Without(st, p, i), p) else st;
      if Left(st1, p) == {} then Finish(f, st1, p) else st1
    case Parallel =>
      var st1 := Without(st, p, i);
      if Left(st1, p) == {} then Finish(f, st1, p) else st1
  }
}
