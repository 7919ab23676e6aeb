/**
 AsyncTask and AsyncScheduler as objects that call each other: children_ and queue_wait_ change in
 place, calls go down through triggerFirstCall and the loop of ParallelTask, completions go up
 through parent_. Each method is proved to do what the function of AsyncModel says.
 */
module AsyncScheduling {
  import opened Options
  import opened AsyncModel
  import opened AsyncInvariant
  import opened AsyncCall
  import opened AsyncCascade
  import opened AsyncRun

  class AsyncTask {
    const kind: Kind
    const id: Id
    const parent: AsyncTask?
    var children: map<Id, AsyncTask>
    var childrenByOrder: seq<AsyncTask>

    constructor (kind: Kind, id: Id, parent: AsyncTask?)
      ensures this.kind == kind && this.id == id && this.parent == parent
      ensures children == map[] && childrenByOrder == []
    {
      this.kind, this.id, this.parent := kind, id, parent;
      children, childrenByOrder := map[], [];
    }
  }

  function Ids(ts: seq<AsyncTask>): (s: seq<Id>)
    ensures |s| == |ts| && forall j | 0 <= j < |ts| :: s[j] == ts[j].id
  {
    seq(|ts|, j requires 0 <= j < |ts| => ts[j].id)
  }

  function IdOf(t: AsyncTask?): Option<Id> {
    if t == null then None else Some(t.id)
  }

  /** std::map::begin on a map keyed by id. */
  method LeastKey(keys: set<Id>) returns (k: Id)
    requires keys != {}
    ensures k in keys && forall j | j in keys :: k <= j
  {
    k :| k in keys;
    var seen, left := {k}, keys - {k};
    while left != {}
      invariant k in keys && seen + left == keys && forall j | j in seen :: k <= j
      decreases left
    {
      var j :| j in left;
      if j < k {
        k := j;
      }
      seen, left := seen + {j}, left - {j};
    }
  }

  lemma LeastIsFirst(kids: seq<Id>, left: set<Id>, k: Id)
    requires Increasing(kids) && k in kids && k in left && (forall j | j in left :: k <= j)
    ensures First(kids, left) < |kids| && kids[First(kids, left)] == k
  {
  }

  lemma NoneIsFirst(kids: seq<Id>)
    ensures First(kids, {}) == |kids|
  {
  }

  // ---------------------------------------------------------------- numbering, one child at a time

  lemma {:induction false} NumberedKeys(s: Shape, n: Id, parent: Option<Id>)
    ensures n in Numbered(s, n, parent) && forall i | i in Numbered(s, n, parent) :: n <= i < n + Size(s)
    decreases s
  {
    NumberedAllKeys(s.kids, n + 1, n);
  }

  lemma {:induction false} NumberedAllKeys(kids: seq<Shape>, n: Id, parent: Id)
    ensures forall i | i in NumberedAll(kids, n, parent) :: n <= i < n + SizeAll(kids)
    decreases kids
  {
    if kids != [] {
      NumberedKeys(kids[0], n, Some(parent));
      NumberedAllKeys(kids[1..], n + Size(kids[0]), parent);
    }
  }

  lemma {:induction false} AllSnoc(kids: seq<Shape>, k: Shape, n: Id, parent: Id)
    ensures SizeAll(kids + [k]) == SizeAll(kids) + Size(k)
    ensures Roots(kids + [k], n) == Roots(kids, n) + [n + SizeAll(kids)]
    ensures NumberedAll(kids + [k], n, parent)
         == NumberedAll(kids, n, parent) + Numbered(k, n + SizeAll(kids), Some(parent))
    decreases kids
  {
    hide Numbered, Size, NumberedAll, Roots, SizeAll;
    if kids == [] {
      assert kids + [k] == [k];
      OneTree(k, n, parent);
    } else {
      assert (kids + [k])[1..] == kids[1..] + [k] && (kids + [k])[0] == kids[0];
      AllSnoc(kids[1..], k, n + Size(kids[0]), parent);
      FirstTree(kids, n, parent);
      FirstTree(kids + [k], n, parent);
    }
  }

  lemma OneTree(k: Shape, n: Id, parent: Id)
    ensures SizeAll([k]) == Size(k) && Roots([k], n) == [n] && NumberedAll([k], n, parent) == Numbered(k, n, Some(parent))
    ensures SizeAll([]) == 0 && Roots([], n) == [] && NumberedAll([], n, parent) == map[]
  {
    hide Numbered, Size;
    assert [k][1..] == [];
  }

  lemma FirstTree(kids: seq<Shape>, n: Id, parent: Id)
    requires kids != []
    ensures SizeAll(kids) == Size(kids[0]) + SizeAll(kids[1..])
    ensures Roots(kids, n) == [n] + Roots(kids[1..], n + Size(kids[0]))
    ensures NumberedAll(kids, n, parent)
         == Numbered(kids[0], n, Some(parent)) + NumberedAll(kids[1..], n + Size(kids[0]), parent)
  {
    hide Numbered, Size;
  }

  function WithKid(f: Forest, n: Id, k: Id): Forest
    requires n in f
  {
    f[n := f[n].(kids := f[n].kids + [k])]
  }

  /** One more child on the list: its tree is numbered behind what is there already. */
  lemma NumberedSnoc(kind: Kind, kids: seq<Shape>, k: Shape, n: Id, parent: Option<Id>)
    ensures var s, next := Shape(kind, kids), n + Size(Shape(kind, kids));
            && n in Numbered(s, n, parent) && n !in Numbered(k, next, Some(n))
            && Numbered(Shape(kind, kids + [k]), n, parent)
               == WithKid(Numbered(s, n, parent) + Numbered(k, next, Some(n)), n, next)
            && Size(Shape(kind, kids + [k])) == Size(s) + Size(k)
  {
    hide NumberedAll, Roots;
    NumberedKeys(k, n + Size(Shape(kind, kids)), Some(n));
    AllSnoc(kids, k, n + 1, n);
  }

  function Last(ts: seq<AsyncTask>): AsyncTask
    requires ts != []
  {
    ts[|ts| - 1]
  }

  lemma Bare(kind: Kind, n: Id, parent: Option<Id>)
    ensures Numbered(Shape(kind, []), n, parent) == map[n := Node(kind, parent, [])]
    ensures AllKids(Numbered(Shape(kind, []), n, parent)) == map[n := {}]
    ensures Size(Shape(kind, [])) == 1
  {
    assert Numbered(Shape(kind, []), n, parent) == map[n := Node(kind, parent, [])];
    assert KidSet([]) == {};
  }

  lemma KidsOfUnion(f: Forest, g: Forest)
    ensures AllKids(f + g) == AllKids(f) + AllKids(g)
  {
  }

  lemma KidsWith(f: Forest, n: Id, k: Id)
    requires n in f
    ensures AllKids(WithKid(f, n, k)) == AllKids(f)[n := AllKids(f)[n] + {k}]
  {
    assert KidSet(f[n].kids + [k]) == KidSet(f[n].kids) + {k};
  }

  /** The tree f0 grows by: another child's tree b, and the child's place on the list of n. */
  lemma WithKidAfter(f0: Forest, l0: map<Id, set<Id>>, a: Forest, b: Forest, n: Id, k: Id)
    requires n in a && n !in b
    ensures WithKid(f0 + a + b, n, k) == f0 + WithKid(a + b, n, k)
    ensures var l := l0 + AllKids(a) + AllKids(b);
            n in l && l[n := l[n] + {k}] == l0 + AllKids(WithKid(a + b, n, k))
  {
    hide AllKids, WithKid;
    WithKidKeys(f0, a, b, n, k);
    KidsOfUnion(a, b);
    KidsWith(a + b, n, k);
    KidsKeys(a);
    KidsKeys(b);
  }

  lemma WithKidKeys(f0: Forest, a: Forest, b: Forest, n: Id, k: Id)
    requires n in a && n !in b
    ensures WithKid(f0 + a + b, n, k) == f0 + WithKid(a + b, n, k)
  {
  }

  lemma KidsKeys(f: Forest)
    ensures AllKids(f).Keys == f.Keys
  {
  }

  class AsyncScheduler {
    var queueReady: seq<AsyncTask>
    var queueWait: map<Id, AsyncTask>
    var next: Id
    var statCall: nat
    var statDone: nat
    ghost var f: Forest
    ghost var tasks: map<Id, AsyncTask>
    ghost var log: seq<Event>

    ghost function St(): State
      reads `queueWait, `log, `statCall, `statDone, `tasks, tasks.Values
    {
      State(queueWait.Keys, map i | i in tasks :: tasks[i].children.Keys, log, statCall, statDone)
    }

    ghost function Abs(): World
      reads this, tasks.Values
    {
      World(f, next, St(), Ids(queueReady))
    }

    ghost predicate Known(t: AsyncTask)
      reads `tasks
    {
      t.id in tasks && tasks[t.id] == t
    }

    /** The object of task i is what the forest says, and knows its relatives. */
    ghost predicate TaskValid(i: Id)
      requires i in tasks && i in f
      reads `f, `tasks, tasks[i]
    {
      var t := tasks[i];
      && t.id == i && t.kind == f[i].kind && IdOf(t.parent) == f[i].parent && Ids(t.childrenByOrder) == f[i].kids
      && (t.parent != null ==> Known(t.parent))
      && (forall c | c in t.childrenByOrder :: Known(c))
      && (forall k | k in t.children :: t.children[k].id == k && Known(t.children[k]) && k in f[i].kids)
    }

    ghost predicate TasksValid()
      reads `f, `tasks, `next, tasks.Values
    {
      f.Keys == tasks.Keys && Below(f, next) && forall i | i in tasks :: TaskValid(i)
    }

    ghost predicate QueuesValid()
      reads `tasks, `queueWait, `queueReady
    {
      && (forall i | i in queueWait :: queueWait[i].id == i && Known(queueWait[i]))
      && (forall t | t in queueReady :: Known(t))
    }

    ghost predicate Valid()
      reads this, tasks.Values
    {
      TasksValid() && QueuesValid()
    }

    constructor ()
      ensures Valid() && Abs() == FRESH
    {
      queueReady, queueWait, next, statCall, statDone := [], map[], 1, 0, 0;
      f, tasks, log := map[], map[], [];
    }

    // ---------------------------------------------------------------- going down

    /** What Valid says about one task. */
    lemma ValidAt(t: AsyncTask)
      requires Valid() && Known(t)
      ensures t.id in f && t.kind == f[t.id].kind && IdOf(t.parent) == f[t.id].parent
      ensures Ids(t.childrenByOrder) == f[t.id].kids && Left(St(), t.id) == t.children.Keys
      ensures t.parent != null ==> Known(t.parent)
      ensures forall c | c in t.childrenByOrder :: Known(c)
      ensures forall k | k in t.children :: t.children[k].id == k && Known(t.children[k]) && k in f[t.id].kids
      ensures t in tasks.Values
    {
      assert TaskValid(t.id);
    }

    /** triggerCall. */
    method TriggerCall(task: AsyncTask)
      requires Valid() && Ok(f) && Known(task)
      modifies `queueWait, `statCall, `statDone, `log, tasks.Values`children
      ensures Valid() && task.id in f && St() == Call(f, old(St()), task.id)
      decreases |Pairs(St().left)|, 1, Top(f) - task.id, 1, 0
    {
      hide Valid, Ok, Call, CallFirst, CallAll, Finish, Begun, Pairs;
      ValidAt(task);
      CallIs(f, St(), task.id);
      Enter(task);
      match task.kind {
        case Leaf(immediate) =>
          if immediate {
            TriggerDone(task);
          }
        case Serial => TriggerFirstCall(task);
        case Parallel => CallChildren(task);
      }
      Count();
    }

    method Count()
      requires Valid()
      modifies `statCall
      ensures Valid() && St() == old(St()).(calls := old(St()).calls + 1)
    {
      hide TasksValid, QueuesValid;
      statCall := statCall + 1;
    }

    /** Into queue_wait_; call() is the next thing that happens. */
    method Enter(task: AsyncTask)
      requires Valid() && Known(task)
      modifies `queueWait, `log
      ensures Valid() && St() == Begun(old(St()), task.id)
    {
      hide TaskValid, TasksValid;
      queueWait := queueWait[task.id := task];
      log := log + [Called(task.id)];
    }

    /** SerialsTask::triggerFirstCall. */
    method TriggerFirstCall(task: AsyncTask)
      requires Valid() && Ok(f) && Known(task)
      modifies `queueWait, `statCall, `statDone, `log, tasks.Values`children
      ensures Valid() && task.id in f && St() == CallFirst(f, old(St()), task.id)
      decreases |Pairs(St().left)|, 1, Top(f) - task.id, 0, 0
    {
      hide Valid, Ok, Call, First, Pairs;
      ValidAt(task);
      KindsAre(f, task.id);
      if task.children != map[] {
        var first := LeastKey(task.children.Keys);
        LeastIsFirst(f[task.id].kids, task.children.Keys, first);
        KidIs(f, task.id, first);
        TriggerCall(task.children[first]);
      } else {
        NoneIsFirst(f[task.id].kids);
      }
    }

    /** ParallelTask::call. */
    method CallChildren(task: AsyncTask)
      requires Valid() && Ok(f) && Known(task)
      modifies `queueWait, `statCall, `statDone, `log, tasks.Values`children
      ensures Valid() && task.id in f && St() == CallAll(f, old(St()), task.id, f[task.id].kids)
      decreases |Pairs(St().left)|, 1, Top(f) - task.id, 0, 1
    {
      hide Valid, Ok, Call, Pairs;
      ValidAt(task);
      ghost var kids := f[task.id].kids;
      for j := 0 to |task.childrenByOrder|
        invariant Valid() && Onward(f, old(St()), St())
        invariant CallAll(f, St(), task.id, kids[j..]) == CallAll(f, old(St()), task.id, kids)
      {
        assert kids[j..][0] == task.childrenByOrder[j].id && kids[j..][1..] == kids[j + 1..];
        KidIs(f, task.id, kids[j]);
        TriggerCall(task.childrenByOrder[j]);
      }
    }

    // ---------------------------------------------------------------- going up

    /** children_.erase. */
    method RemoveChild(p: AsyncTask, i: Id)
      requires Valid() && Known(p)
      modifies p`children
      ensures Valid() && St() == Without(old(St()), p.id, i)
    {
      hide TaskValid, QueuesValid;
      ValidAt(p);
      Distinct(p);
      p.children := p.children - {i};
      StillValid(p);
      assert St().left == Without(old(St()), p.id, i).left;
    }

    lemma Distinct(p: AsyncTask)
      requires Valid() && Known(p)
      ensures forall j | j in tasks && j != p.id :: tasks[j] != p
    {
      hide QueuesValid;
      forall j | j in tasks ensures tasks[j].id == j {
        assert TaskValid(j);
      }
    }

    twostate lemma StillValid(p: AsyncTask)
      requires old(Known(p)) && tasks == old(tasks) && f == old(f) && p.id in tasks && p.id in f
      requires old(TaskValid(p.id)) && Ids(p.childrenByOrder) == old(Ids(p.childrenByOrder))
      requires p.childrenByOrder == old(p.childrenByOrder) && p.children.Keys <= old(p.children.Keys)
      requires forall k | k in p.children :: p.children[k] == old(p.children[k])
      ensures TaskValid(p.id)
    {
    }

    method Note(task: AsyncTask)
      requires Valid() && Known(task)
      modifies `log, `statDone
      ensures Valid()
      ensures St() == old(St()).(log := old(St()).log + [Done(task.id)], dones := old(St()).dones + 1)
    {
      hide TasksValid, QueuesValid;
      log := log + [Done(task.id)];
      statDone := statDone + 1;
    }

    method EraseWait(task: AsyncTask)
      requires Valid() && Known(task)
      modifies `queueWait
      ensures Valid() && St() == old(St()).(wait := old(St()).wait - {task.id})
    {
      hide TasksValid;
      queueWait := queueWait - {task.id};
    }

    /** triggerDone of a task. */
    method TriggerDone(task: AsyncTask)
      requires Valid() && Ok(f) && Known(task)
      modifies `queueWait, `statCall, `statDone, `log, tasks.Values`children
      ensures Valid() && task.id in f && St() == Finish(f, old(St()), task.id)
      decreases |Pairs(St().left)|, 0, task.id, 0, 0
    {
      hide Valid, Ok, ChildDone, Pairs;
      ValidAt(task);
      Note(task);
      if task.parent != null {
        ParentIs(f, task.id);
        ChildIsDone(task.parent, task);
      }
      EraseWait(task);
    }

    /** child_done of a Serial or a Parallel. */
    method ChildIsDone(p: AsyncTask, child: AsyncTask)
      requires Valid() && Ok(f) && Known(p) && Known(child) && p.id < child.id
      modifies `queueWait, `statCall, `statDone, `log, tasks.Values`children
      ensures Valid() && p.id in f && St() == ChildDone(f, old(St()), p.id, child.id)
      decreases |Pairs(St().left)|, 0, p.id, 1, 0
    {
      hide Valid, Ok, First, CallFirst, Finish, Pairs;
      ValidAt(p);
      WithoutPairs(St(), p.id, child.id);
      match p.kind {
        case Leaf(_) =>
          return;
        case Serial => NextChild(p, child);
        case Parallel => RemoveChild(p, child.id);
      }
      ValidAt(p);
      if p.children == map[] {
        TriggerDone(p);
      }
    }

    /** The first half of SerialsTask::child_done. */
    method NextChild(p: AsyncTask, child: AsyncTask)
      requires Valid() && Ok(f) && Known(p) && p.id < child.id
      modifies `queueWait, `statCall, `statDone, `log, tasks.Values`children
      ensures Valid() && p.id in f
      ensures var kids, st := f[p.id].kids, old(St());
              var j := First(kids, Left(st, p.id));
              St() == if j < |kids| && kids[j] == child.id then CallFirst(f, Without(st, p.id, child.id), p.id) else st
      decreases |Pairs(St().left)|, 0, p.id, 0, 0
    {
      hide Valid, Ok, First, CallFirst, Pairs;
      ValidAt(p);
      WithoutPairs(St(), p.id, child.id);
      KindsAre(f, p.id);
      if p.children != map[] {
        var first := LeastKey(p.children.Keys);
        LeastIsFirst(f[p.id].kids, p.children.Keys, first);
        if first == child.id {
          RemoveChild(p, child.id);
          TriggerFirstCall(p);
        }
      } else {
        NoneIsFirst(f[p.id].kids);
      }
    }

    // ---------------------------------------------------------------- emit

    /** id_ and the map entry of a new task; its children come later. */
    method NewTask(kind: Kind, parent: AsyncTask?) returns (task: AsyncTask)
      requires Valid() && (parent != null ==> Known(parent))
      modifies `next, `f, `tasks
      ensures Valid() && fresh(task) && task.id == old(next) && Known(task) && task.kind == kind
      ensures next == old(next) + 1 && tasks == old(tasks)[task.id := task] && task.id !in old(tasks)
      ensures f == old(f)[task.id := Node(kind, IdOf(parent), [])]
      ensures St() == old(St()).(left := old(St()).left[task.id := {}])
    {
      hide TaskValid, Known, QueuesValid, St;
      task := new AsyncTask(kind, next, parent);
      assert next !in tasks;
      next := next + 1;
      f := f[task.id := Node(kind, IdOf(parent), [])];
      tasks := tasks[task.id := task];
      KnownGrows(task.id);
      QueuesStill();
      forall i | i in tasks ensures TaskValid(i) {
        if i in old(tasks) {
          OldStill(i);
        } else {
          NewValid(task);
        }
      }
      LeftGrows(task);
    }

    twostate lemma LeftGrows(new t: AsyncTask)
      requires tasks == old(tasks)[t.id := t] && t.children == map[]
      requires forall i | i in old(tasks) && i != t.id :: tasks[i].children == old(tasks[i].children)
      requires queueWait == old(queueWait) && log == old(log) && statCall == old(statCall) && statDone == old(statDone)
      ensures St() == old(St()).(left := old(St()).left[t.id := {}])
    {
      assert t.children.Keys == {};
    }

    twostate lemma QueuesStill()
      requires old(QueuesValid()) && queueWait == old(queueWait) && queueReady == old(queueReady)
      requires forall t :: old(allocated(t)) && old(Known(t)) ==> Known(t)
      ensures QueuesValid()
    {
    }

    twostate lemma KnownGrows(i: Id)
      requires i !in old(tasks) && i in tasks && tasks == old(tasks)[i := tasks[i]] && tasks[i].id == i
      ensures forall t :: old(allocated(t)) && old(Known(t)) ==> Known(t)
      ensures Known(tasks[i])
    {
    }

    twostate lemma OldStill(i: Id)
      requires i in old(tasks) && i in old(f) && old(TaskValid(i)) && i in tasks && i in f
      requires tasks[i] == old(tasks[i]) && f[i] == old(f[i])
      requires tasks[i].children == old(tasks[i].children) && tasks[i].childrenByOrder == old(tasks[i].childrenByOrder)
      requires forall t :: old(allocated(t)) && old(Known(t)) ==> Known(t)
      ensures TaskValid(i)
    {
    }

    lemma NewValid(t: AsyncTask)
      requires Known(t) && t.id in f && f[t.id] == Node(t.kind, IdOf(t.parent), [])
      requires t.children == map[] && t.childrenByOrder == [] && (t.parent != null ==> Known(t.parent))
      ensures TaskValid(t.id)
    {
      assert Ids([]) == [];
    }

    /** children_.insert, next to the list of children. */
    method Adopt(task: AsyncTask, child: AsyncTask)
      requires Valid() && Known(task) && Known(child) && task.id in f
      modifies task, `f
      ensures Valid() && f == WithKid(old(f), task.id, child.id)
      ensures St() == old(St()).(left := old(St()).left[task.id := Left(old(St()), task.id) + {child.id}])
    {
      hide TaskValid, QueuesValid, Known;
      ValidAt(task);
      Distinct(task);
      task.childrenByOrder := task.childrenByOrder + [child];
      task.children := task.children[child.id := child];
      f := f[task.id := f[task.id].(kids := f[task.id].kids + [child.id])];
      Adopted(task.id);
      OthersStill(task.id);
      LeftSet(task.id);
      assert task.children.Keys == old(task.children.Keys) + {child.id};
    }

    twostate lemma OthersStill(p: Id)
      requires old(Valid()) && tasks == old(tasks) && p in tasks && TaskValidIn(p)
      requires next == old(next) && f.Keys == old(f).Keys
      requires forall i | i in tasks && i != p :: f[i] == old(f[i]) && tasks[i].children == old(tasks[i].children)
                                                        && tasks[i].childrenByOrder == old(tasks[i].childrenByOrder)
      ensures TasksValid()
    {
      hide TaskValid, QueuesValid;
      forall i | i in tasks ensures TaskValid(i) {
        if i != p {
          OldStill(i);
        }
      }
    }

    ghost predicate TaskValidIn(i: Id)
      requires i in tasks
      reads `f, `tasks, tasks[i]
    {
      i in f && TaskValid(i)
    }

    twostate lemma LeftSet(p: Id)
      requires tasks == old(tasks) && p in tasks
      requires forall i | i in tasks && i != p :: tasks[i].children == old(tasks[i].children)
      requires queueWait == old(queueWait) && log == old(log) && statCall == old(statCall) && statDone == old(statDone)
      ensures St() == old(St()).(left := old(St()).left[p := tasks[p].children.Keys])
    {
      assert St().left == old(St()).left[p := tasks[p].children.Keys];
    }

    twostate lemma Adopted(i: Id)
      requires tasks == old(tasks) && i in tasks && i in f && i in old(f) && tasks[i].childrenByOrder != []
      requires var c := Last(tasks[i].childrenByOrder);
               && Known(c) && f == WithKid(old(f), i, c.id)
               && tasks[i].childrenByOrder == old(tasks[i].childrenByOrder) + [c]
               && tasks[i].children == old(tasks[i].children)[c.id := c]
      requires old(TaskValid(i))
      ensures TaskValid(i)
    {
      var k := Last(tasks[i].childrenByOrder).id;
      assert Ids(tasks[i].childrenByOrder) == old(Ids(tasks[i].childrenByOrder)) + [k];
      assert forall j | j in f[i].kids :: j in old(f)[i].kids || j == k;
    }

    /** on_emit: the next id for the task, then on_emit for its children in list order. */
    method OnEmit(s: Shape, parent: AsyncTask?) returns (task: AsyncTask)
      requires Valid() && (parent != null ==> Known(parent))
      modifies `next, `f, `tasks
      ensures Valid() && fresh(task) && Known(task) && task.id == old(next)
      ensures next == old(next) + Size(s) && Extends(old(tasks))
      ensures f == old(f) + Numbered(s, old(next), IdOf(parent))
      ensures St() == old(St()).(left := old(St()).left + AllKids(Numbered(s, old(next), IdOf(parent))))
      decreases s
    {
      hide TaskValid, Valid, Numbered, Size, WithKid, AllKids, St, AsyncModel.Below;
      ghost var f0, n, l0, p := f, next, St().left, IdOf(parent);
      task := NewTask(s.kind, parent);
      Bare(s.kind, n, p);
      for j := 0 to |s.kids|
        invariant Valid() && Known(task) && fresh(task) && Extends(old(tasks))
        invariant next == n + Size(Shape(s.kind, s.kids[..j]))
        invariant f == f0 + Numbered(Shape(s.kind, s.kids[..j]), n, p)
        invariant St() == old(St()).(left := l0 + AllKids(Numbered(Shape(s.kind, s.kids[..j]), n, p)))
      {
        ghost var so := Numbered(Shape(s.kind, s.kids[..j]), n, p);
        NumberedSnoc(s.kind, s.kids[..j], s.kids[j], n, p);
        assert s.kids[..j] + [s.kids[j]] == s.kids[..j + 1];
        WithKidAfter(f0, l0, so, Numbered(s.kids[j], next, Some(n)), n, next);
        var child := OnEmit(s.kids[j], task);
        Adopt(task, child);
      }
      assert Shape(s.kind, s.kids[..|s.kids|]) == s;
    }

    /** Tasks keep their ids. */
    ghost predicate Extends(before: map<Id, AsyncTask>)
      reads `tasks
    {
      forall i | i in before :: i in tasks && tasks[i] == before[i]
    }

    // ---------------------------------------------------------------- the interface

    /** emit. */
    method Emit(s: Shape)
      requires Valid() && Sound(Abs()) && Proper(s)
      modifies `next, `f, `tasks, `queueReady
      ensures Valid() && Abs() == Apply(old(Abs()), AsyncRun.Emit(s)) && Sound(Abs())
    {
      hide Ok, TasksValid, Numbered, Size, Known, St, RootsOnly, AsyncModel.Below;
      StepSound(Abs(), AsyncRun.Emit(s));
      var task := OnEmit(s, null);
      queueReady := queueReady + [task];
      assert Ids(queueReady) == old(Ids(queueReady)) + [task.id];
    }

    /** The loop over a copy of the ready queue. */
    method CallReady(ready: seq<AsyncTask>)
      requires Valid() && Ok(f) && (forall t | t in ready :: Known(t)) && forall i | i in Ids(ready) :: i in f
      modifies `queueWait, `statCall, `statDone, `log, tasks.Values`children
      ensures Valid() && St() == CallEach(f, old(St()), Ids(ready))
    {
      hide Valid, Ok, Call, Pairs;
      ghost var ids := Ids(ready);
      assert ids[0..] == ids;
      for j := 0 to |ready|
        invariant Valid() && forall t | t in ready :: Known(t)
        invariant CallEach(f, St(), ids[j..]) == CallEach(f, old(St()), ids)
      {
        assert ids[j..][0] == ready[j].id && ids[j..][1..] == ids[j + 1..];
        TriggerCall(ready[j]);
      }
    }

    /** The ready part of run(). */
    method RunReady()
      requires Valid() && Sound(Abs())
      modifies `queueReady, `queueWait, `statCall, `statDone, `log, tasks.Values`children
      ensures Valid() && Abs() == Apply(old(Abs()), Run) && Sound(Abs())
    {
      hide Ok, TasksValid, Call, CallEach, AsyncModel.Below, Pairs, Known, St;
      StepSound(Abs(), Run);
      var ready := queueReady;
      queueReady := [];
      SameSt();
      CallReady(ready);
    }

    twostate lemma SameSt()
      requires tasks == old(tasks) && queueWait == old(queueWait) && log == old(log)
      requires statCall == old(statCall) && statDone == old(statDone)
      requires forall i | i in tasks :: tasks[i].children == old(tasks[i].children)
      ensures St() == old(St())
    {
    }

    /** triggerDone of an id, of whatever task: false if nobody waits under it. */
    method Reply(id: Id) returns (found: bool)
      requires Valid() && Sound(Abs())
      modifies `queueWait, `statCall, `statDone, `log, tasks.Values`children
      ensures Valid() && Abs() == Apply(old(Abs()), AsyncRun.Reply(id)) && Sound(Abs())
      ensures found == (id in old(Abs()).st.wait)
    {
      hide Ok, TasksValid, Finish, Below, RootsOnly, Known;
      StepSound(Abs(), AsyncRun.Reply(id));
      found := id in queueWait;
      if found {
        TriggerDone(queueWait[id]);
      }
    }
  }
}
