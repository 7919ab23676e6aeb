/**
 What every run of the scheduler keeps to, whatever the trees and whatever the order of the replies, as
 long as no task has been done twice; AsyncOnce says exactly for which trees that never happens.
 */
module AsyncTheorems {
  import opened Options
  import opened AsyncModel
  import opened AsyncInvariant
  import opened AsyncCall
  import opened AsyncDone
  import opened AsyncCascade
  import opened AsyncRun

  // ---------------------------------------------------------------- once, and in order

  /** A legal run in which no task has been done twice so far. */
  ghost predicate Clean(ops: seq<Op>) {
    After(ops).Some? && !Twice(After(ops).value.st.log)
  }

  lemma CleanGood(ops: seq<Op>)
    requires Clean(ops)
    ensures After(ops).Some? && Good(After(ops).value) && Ok(After(ops).value.f)
  {
    hide After, Good, Inv, Twice, Sound;
    AfterGood(ops);
    GoodOk(After(ops).value);
  }

  lemma GoodOk(w: World)
    requires Good(w)
    ensures Ok(w.f)
  {
    hide Ok, TaskOk;
  }

  /** Without a bad serial no task is called twice, and none is done twice. */
  lemma OnceEach(ops: seq<Op>, m: nat, n: nat)
    requires After(ops).Some? && m < n < |After(ops).value.st.log|
    requires !SomeBad(After(ops).value.f)
    ensures After(ops).value.st.log[m] != After(ops).value.st.log[n]
  {
    hide After, Ok, TaskOk, SomeBad, Twice;
    var w := After(ops).value;
    AfterGood(ops);
    assert Justified(w.f, w.st.log[..n], w.st.log[n]);
    assert w.st.log[..n][m] == w.st.log[m];
  }

  lemma JustifiedAt(w: World, n: nat)
    requires Good(w) && n < |w.st.log|
    ensures Ok(w.f) && Ordered(w.f, w.st.log[..n]) && Justified(w.f, w.st.log[..n], w.st.log[n])
  {
    hide Ok, TaskOk, Justified;
    var log := w.st.log[..n];
    forall k | 0 <= k < |log| ensures Justified(w.f, log[..k], log[k]) {
      assert log[..k] == w.st.log[..k] && log[k] == w.st.log[k];
    }
  }

  lemma DoneAt(log: seq<Event>, e: Event) returns (m: nat)
    requires e in log
    ensures m < |log| && log[m] == e
  {
    m :| m < |log| && log[m] == e;
  }

  lemma {:induction false} DoneBefore(f: Forest, log: seq<Event>, i: Id, d: Id)
    requires Ok(f) && Ordered(f, log) && Done(i) in log && Under(f, d, i)
    ensures Done(d) in log
    decreases d
  {
    hide Ok;
    if d != i {
      var p := f[d].parent.value;
      DoneBefore(f, log, i, p);
      var m := DoneAt(log, Done(p));
      assert Justified(f, log[..m], log[m]);
      ParentIs(f, d);
    }
  }

  /** A composite's done runs after all its descendants' done. */
  lemma CompositeLast(ops: seq<Op>, n: nat, i: Id, d: Id)
    requires Clean(ops) && n < |After(ops).value.st.log| && After(ops).value.st.log[n] == Done(i)
    requires Under(After(ops).value.f, d, i) && d != i
    ensures Done(d) in After(ops).value.st.log[..n]
  {
    hide After, Ok, Ordered, Inv, Good, Clean, Twice;
    CleanGood(ops);
    var w := After(ops).value;
    var log := w.st.log[..n];
    JustifiedAt(w, n);
    var k := ChildTowards(w.f, d, i);
    KidDone(w.f, log, i, k);
    DoneBefore(w.f, log, k, d);
  }

  lemma KidDone(f: Forest, log: seq<Event>, i: Id, k: Id)
    requires Justified(f, log, Done(i)) && k in f[i].kids
    ensures Done(k) in log
  {
  }

  /** The child of i on the way down to d. */
  lemma {:induction false} ChildTowards(f: Forest, d: Id, i: Id) returns (k: Id)
    requires Ok(f) && Under(f, d, i) && d != i
    ensures i in f && k in f[i].kids && Under(f, d, k)
    decreases d
  {
    hide Ok;
    ParentIs(f, d);
    if f[d].parent.value == i {
      k := d;
    } else {
      k := ChildTowards(f, f[d].parent.value, i);
    }
  }

  /**
   A Serial's child is called only after everything in the trees of the children before it is done.
   Children that come first in the list have the smaller ids (RootsInOrder).
   */
  lemma SerialOrder(ops: seq<Op>, n: nat, p: Id, j: Id, k: Id, d: Id)
    requires Clean(ops)
    requires var f := After(ops).value.f; p in f && f[p].kind.Serial? && j in f[p].kids && k in f[p].kids && j < k
    requires n < |After(ops).value.st.log| && After(ops).value.st.log[n] == Called(k)
    requires Under(After(ops).value.f, d, j)
    ensures Done(d) in After(ops).value.st.log[..n]
  {
    hide After, Ok, Ordered, Inv, Good, Clean, Twice;
    CleanGood(ops);
    var w := After(ops).value;
    JustifiedAt(w, n);
    KidIs(w.f, p, k);
    DoneBefore(w.f, w.st.log[..n], j, d);
  }

  /** No task is called before its parent, and none is done that was not called. */
  lemma ParentFirst(ops: seq<Op>, n: nat)
    requires Clean(ops) && n < |After(ops).value.st.log|
    ensures var w := After(ops).value;
            match w.st.log[n]
            case Called(i) => i in w.f && (w.f[i].parent.Some? ==> Called(w.f[i].parent.value) in w.st.log[..n])
            case Done(i) => Called(i) in w.st.log[..n]
  {
    hide After, Ok, Ordered, Inv, Good, Clean, Twice;
    CleanGood(ops);
    JustifiedAt(After(ops).value, n);
  }

  // ---------------------------------------------------------------- done exactly when the leaves are

  ghost predicate LeavesDone(f: Forest, log: seq<Event>, i: Id)
    requires Ok(f)
  {
    forall d | d in f && f[d].kids == [] && Under(f, d, i) :: Done(d) in log
  }

  lemma {:induction false} DoneByLeaves(w: World, i: Id)
    requires Good(w) && i in w.f && Ok(w.f) && LeavesDone(w.f, w.st.log, i)
    ensures Done(i) in w.st.log
    decreases Top(w.f) - i
  {
    hide Ok, Ordered, CalledWhenDue, KeptRight;
    assert TaskOk(w.f, w.st, i, Waiting(w.ready));
    assert Under(w.f, i, i);
    if w.f[i].kids != [] {
      forall k | k in w.f[i].kids ensures Done(k) in w.st.log {
        UnderKid(w.f, k, i);
        forall d | d in w.f && w.f[d].kids == [] && Under(w.f, d, k) ensures Done(d) in w.st.log {
          UnderTrans(w.f, d, k, i);
        }
        DoneByLeaves(w, k);
      }
    }
  }

  /** A task is done exactly when all tasks without children under it are. */
  lemma DoneIff(ops: seq<Op>, i: Id)
    requires Clean(ops) && i in After(ops).value.f
    ensures var w := After(ops).value; Done(i) in w.st.log <==> LeavesDone(w.f, w.st.log, i)
  {
    hide After, Ok, Ordered, TaskOk, Clean, Twice;
    CleanGood(ops);
    var w := After(ops).value;
    if Done(i) in w.st.log {
      forall d | d in w.f && w.f[d].kids == [] && Under(w.f, d, i) ensures Done(d) in w.st.log {
        DoneBefore(w.f, w.st.log, i, d);
      }
    } else if LeavesDone(w.f, w.st.log, i) {
      DoneByLeaves(w, i);
    }
  }

  /** Once a task is done, nothing under it is in queue_wait_. */
  lemma NothingWaits(ops: seq<Op>, i: Id, d: Id)
    requires Clean(ops) && Done(i) in After(ops).value.st.log
    requires Under(After(ops).value.f, d, i)
    ensures d !in After(ops).value.st.wait
  {
    hide After, Ok, Ordered, Clean, Twice;
    CleanGood(ops);
    var w := After(ops).value;
    DoneBefore(w.f, w.st.log, i, d);
    assert TaskOk(w.f, w.st, d, Waiting(w.ready));
  }

  /** queue_wait_ is exactly what has been called and is not done. */
  lemma WaitIs(ops: seq<Op>, i: Id)
    requires Clean(ops)
    ensures var w := After(ops).value; i in w.st.wait <==> Called(i) in w.st.log && Done(i) !in w.st.log
  {
    hide After, Ok, Clean, Twice;
    CleanGood(ops);
    var w := After(ops).value;
    if i in w.f {
      assert TaskOk(w.f, w.st, i, Waiting(w.ready));
    } else {
      NotLogged(w, i);
    }
  }

  // ---------------------------------------------------------------- no run gets stuck

  lemma {:induction false} LeafWaits(w: World, i: Id) returns (d: Id)
    requires Good(w) && Ok(w.f) && i in w.f && Called(i) in w.st.log && Done(i) !in w.st.log
    ensures d in w.f && w.f[d].kids == [] && Under(w.f, d, i) && d in w.st.wait
    decreases Top(w.f) - i
  {
    hide Ok, Ordered, CalledWhenDue;
    assert TaskOk(w.f, w.st, i, Waiting(w.ready));
    if w.f[i].kids == [] {
      d := i;
    } else {
      KindsAre(w.f, i);
      var j := First(w.f[i].kids, Left(w.st, i));
      FirstLeft(w, i);
      var k := w.f[i].kids[j];
      UnderKid(w.f, k, i);
      d := LeafWaits(w, k);
      UnderTrans(w.f, d, k, i);
    }
  }

  /** The first child that is not done has been called. */
  lemma FirstLeft(w: World, i: Id)
    requires Good(w) && i in w.f && w.f[i].kids != [] && Called(i) in w.st.log && Done(i) !in w.st.log
    ensures var kids := w.f[i].kids;
            var j := First(kids, Left(w.st, i));
            j < |kids| && Called(kids[j]) in w.st.log && Done(kids[j]) !in w.st.log
  {
    hide Ok, Ordered, First, NodeOk;
    var kids, left := w.f[i].kids, Left(w.st, i);
    assert TaskOk(w.f, w.st, i, Waiting(w.ready));
    KindsAre(w.f, i);
    var u :| u in kids && Done(u) !in w.st.log;
    FirstIs(kids, left, u);
    var k := kids[First(kids, left)];
    KidIs(w.f, i, k);
    FirstIs(kids, left, k);
    assert TaskOk(w.f, w.st, k, Waiting(w.ready));
    NotReady(w, k);
  }

  lemma NotReady(w: World, k: Id)
    requires Good(w) && k in w.f && w.f[k].parent.Some?
    ensures k !in Waiting(w.ready).late
  {
    hide Inv;
  }

  /** As long as a called task is not done, some task without children under it waits for its reply. */
  lemma Progress(ops: seq<Op>, i: Id)
    requires Clean(ops)
    requires Called(i) in After(ops).value.st.log && Done(i) !in After(ops).value.st.log
    ensures var w := After(ops).value;
            exists d :: d in w.f && w.f[d].kids == [] && Under(w.f, d, i) && d in w.st.wait
  {
    hide After, Ok, Inv, Clean, Twice;
    CleanGood(ops);
    var w := After(ops).value;
    if i !in w.f {
      NotLogged(w, i);
    }
    var d := LeafWaits(w, i);
  }

  // ---------------------------------------------------------------- replies

  /**
   A reply counts exactly if its task waits; then exactly this one is done of those that need a reply
   and were not done before. Any other reply, late, early or repeated, changes nothing.
   */
  lemma ReplyEffect(w: World, id: Id, k: Id)
    requires Good(w) && Sound(w) && Legal(w, Reply(id)) && k in w.f && NeedsReply(w.f, k)
    requires !Twice(Apply(w, Reply(id)).st.log)
    ensures var after := Apply(w, Reply(id));
            && (Done(k) in after.st.log <==> Done(k) in w.st.log || (k == id && id in w.st.wait))
            && (id !in w.st.wait ==> after == w)
  {
    hide Inv, Ok, Finish, Outcome, Twice, NeedsReply, Pairs, Waiting;
    ReplyKeeps(w, id);
    OutcomeParts(w.f, w.st, Apply(w, Reply(id)).st, Waiting(w.ready), if id in w.st.wait then {id} else {}, {});
  }

  /** The tasks that need a reply and have had it. */
  function RepliedTasks(w: World): set<Id> {
    set d | d in w.f && NeedsReply(w.f, d) && Done(d) in w.st.log
  }

  /** How many replies of a run found their task waiting. */
  ghost function Accepted(ops: seq<Op>): nat {
    if ops == [] then 0 else
      var front, op := ops[..|ops| - 1], ops[|ops| - 1];
      Accepted(front) + if op.Reply? && After(front).Some? && op.id in After(front).value.st.wait then 1 else 0
  }

  lemma CleanFront(ops: seq<Op>)
    requires Clean(ops) && ops != []
    ensures var front, op := ops[..|ops| - 1], ops[|ops| - 1];
            Clean(front) && Legal(After(front).value, op) && Apply(After(front).value, op) == After(ops).value
  {
    hide Apply, Sound, Twice;
    var front, op := ops[..|ops| - 1], ops[|ops| - 1];
    StepSound(After(front).value, op);
    if Twice(After(front).value.st.log) {
      TwiceStays(After(front).value.st.log, After(ops).value.st.log);
    }
  }

  /** Every reply that counts ends one more of the tasks that need one: n of them take n such replies. */
  lemma {:induction false} OnePerReply(ops: seq<Op>)
    requires Clean(ops)
    ensures |RepliedTasks(After(ops).value)| == Accepted(ops)
  {
    hide After, Good, Apply, Legal, RepliedTasks, Clean, Sound;
    CleanGood(ops);
    if ops == [] {
      NoneReplied(ops);
    } else {
      var front, op := ops[..|ops| - 1], ops[|ops| - 1];
      CleanFront(ops);
      OnePerReply(front);
      CleanGood(front);
      RepliedBy(After(front).value, op);
    }
  }

  lemma NoneReplied(ops: seq<Op>)
    requires ops == []
    ensures RepliedTasks(After(ops).value) == {}
  {
  }

  lemma RepliedBy(w: World, op: Op)
    requires Good(w) && Sound(w) && Legal(w, op) && Good(Apply(w, op))
    ensures RepliedTasks(Apply(w, op)) == RepliedTasks(w) + if op.Reply? && op.id in w.st.wait then {op.id} else {}
    ensures op.Reply? && op.id in w.st.wait ==> op.id !in RepliedTasks(w)
  {
    hide Good, Finish, Apply, RepliedTasks, Sound;
    match op
    case Emit(s) => EmittedTasks(w, s);
    case Run => RunTasks(w);
    case Reply(id) => ReplyTasks(w, id);
  }

  lemma EmittedTasks(w: World, s: Shape)
    requires Good(w) && Sound(w) && Proper(s)
    ensures RepliedTasks(Apply(w, Emit(s))) == RepliedTasks(w)
  {
    hide Good, Numbered, TreeOk, Ok, RootsOnly;
    var after := Apply(w, Emit(s));
    NumberedOk(s, w.next, None);
    assert after == Emitted(w, s);
    forall d ensures d in RepliedTasks(after) <==> d in RepliedTasks(w) {
      if d !in w.f {
        NotLogged(w, d);
      }
    }
  }

  lemma NotBlamed(w: World, f: Forest)
    requires Good(w) && Ok(f)
    ensures !Blamed(f, w.st.log)
  {
    hide Ok, TaskOk, SomeBad;
    OrderedOnce(w.f, w.st.log);
  }

  lemma RunTasks(w: World)
    requires Good(w) && Sound(w) && Good(Apply(w, Run))
    ensures RepliedTasks(Apply(w, Run)) == RepliedTasks(w)
  {
    hide Inv, CallEach, Outcome, Blamed, Ok, Waiting, NeedsReply, Below, RootsOnly;
    RunKeeps(w);
    NotBlamed(Apply(w, Run), w.f);
    OutcomeParts(w.f, w.st, Apply(w, Run).st, Waiting([]), {}, {});
  }

  lemma ReplyTasks(w: World, id: Id)
    requires Good(w) && Sound(w) && Legal(w, Reply(id)) && Good(Apply(w, Reply(id)))
    ensures RepliedTasks(Apply(w, Reply(id))) == RepliedTasks(w) + if id in w.st.wait then {id} else {}
    ensures id in w.st.wait ==> id !in RepliedTasks(w)
  {
    hide Inv, Finish, Outcome, Blamed, Ok, Waiting, NeedsReply, Below, RootsOnly;
    ReplyKeeps(w, id);
    NotBlamed(Apply(w, Reply(id)), w.f);
    OutcomeParts(w.f, w.st, Apply(w, Reply(id)).st, Waiting(w.ready), if id in w.st.wait then {id} else {}, {});
    if id in w.st.wait {
      WaitingReplies(w, id);
    }
  }

  lemma WaitingReplies(w: World, id: Id)
    requires Good(w) && Legal(w, Reply(id)) && id in w.st.wait
    ensures id in w.f && NeedsReply(w.f, id)
  {
    hide Ok, Ordered, TaskOk;
    WaitingLeaf(w.f, w.st, w.ready, id);
  }

  // ---------------------------------------------------------------- ids follow the child lists

  lemma {:induction false} KidsNumbered(kids: seq<Shape>, n: Id, parent: Id, j: nat)
    requires j < |kids| && parent < n && forall k | k in kids :: Proper(k)
    ensures |Roots(kids, n)| == |kids| && Roots(kids, n)[j] >= n
    ensures var g, h := NumberedAll(kids, n, parent), Numbered(kids[j], Roots(kids, n)[j], Some(parent));
            forall i | i in h :: i in g && g[i] == h[i]
    decreases kids
  {
    hide Numbered, TreeOk, TreesOk;
    var m := n + Size(kids[0]);
    NumberedOk(kids[0], n, Some(parent));
    NumberedAllOk(kids[1..], m, parent);
    RootsCount(kids, n);
    if j > 0 {
      KidsNumbered(kids[1..], m, parent, j - 1);
    }
  }

  lemma RootsCount(kids: seq<Shape>, n: Id)
    ensures |Roots(kids, n)| == |kids|
  {
  }

  /**
   The j-th child of a task in the order of its ids is the j-th in the list it was built from, with
   the whole tree that was there: a map iterated by id is iterated in list order.
   */
  lemma RootsInOrder(s: Shape, n: Id, parent: Option<Id>, j: nat)
    requires Proper(s) && j < |s.kids|
    ensures var g := Numbered(s, n, parent);
            && |g[n].kids| == |s.kids| && Increasing(g[n].kids)
            && (var h := Numbered(s.kids[j], g[n].kids[j], Some(n));
                forall i | i in h :: i in g && g[i] == h[i])
  {
    hide NumberedAll, TreeOk;
    NumberedOk(s, n, parent);
    KidsNumbered(s.kids, n + 1, n, j);
    var r := Roots(s.kids, n + 1)[j];
    NumberedOk(s.kids[j], r, Some(n));
    RootKids(s, n, parent);
  }

  lemma RootKids(s: Shape, n: Id, parent: Option<Id>)
    requires Proper(s)
    ensures n in Numbered(s, n, parent) && Increasing(Numbered(s, n, parent)[n].kids)
  {
    hide Numbered;
    NumberedOk(s, n, parent);
  }

  /** No id is skipped: the tasks of a tree have the next ids, as many as there are tasks. */
  lemma {:induction false} NoIdSkipped(s: Shape, n: Id, parent: Option<Id>)
    ensures forall i :: i in Numbered(s, n, parent) <==> n <= i < n + Size(s)
    ensures |Numbered(s, n, parent)| == Size(s)
    decreases s
  {
    hide NumberedAll;
    NoneSkipped(s.kids, n + 1, n);
    var below, f := NumberedAll(s.kids, n + 1, n), Numbered(s, n, parent);
    forall i: Id ensures i in f <==> n <= i < n + Size(s) {
      assert i in f <==> i == n || i in below;
    }
    Interval(Numbered(s, n, parent), n, Size(s));
  }

  lemma {:induction false} NoneSkipped(kids: seq<Shape>, n: Id, parent: Id)
    ensures forall i :: i in NumberedAll(kids, n, parent) <==> n <= i < n + SizeAll(kids)
    decreases kids
  {
    hide Numbered;
    if kids != [] {
      NoIdSkipped(kids[0], n, Some(parent));
      NoneSkipped(kids[1..], n + Size(kids[0]), parent);
    }
  }

  lemma {:induction false} Interval(f: Forest, n: Id, k: nat)
    requires forall i :: i in f <==> n <= i < n + k
    ensures |f| == k
    decreases k
  {
    if k == 0 {
      assert f == map[];
    } else {
      var g := f - {n + k - 1};
      assert g.Keys == f.Keys - {n + k - 1};
      Interval(g, n, k - 1);
    }
  }
}
