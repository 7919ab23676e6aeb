/**
 What holds of the scheduler between its steps, task by task, and what every entry of the log was
 preceded by.
 */
module AsyncInvariant {
  import opened Options
  import opened AsyncModel

  /** What p, already called or not, says about calling its child i: children of a Serial wait for the ones before. */
  predicate Due(f: Forest, log: seq<Event>, p: Id, i: Id)
    requires p in f
  {
    Called(p) in log
    && (f[p].kind.Serial? ==> forall k | k in f[p].kids && k < i :: Done(k) in log)
  }

  predicate KidsDone(f: Forest, log: seq<Event>, i: Id)
    requires i in f
  {
    forall k | k in f[i].kids :: Done(k) in log
  }

  // ---------------------------------------------------------------- the log

  /** What must have happened before e, which has not happened before. */
  predicate Justified(f: Forest, log: seq<Event>, e: Event) {
    && e !in log && e.id in f
    && match e
       case Called(i) => f[i].parent.Some? ==> f[i].parent.value in f && Due(f, log, f[i].parent.value, i)
       case Done(i) => Called(i) in log && KidsDone(f, log, i)
  }

  predicate Ordered(f: Forest, log: seq<Event>) {
    forall n | 0 <= n < |log| :: Justified(f, log[..n], log[n])
  }

  // ---------------------------------------------------------------- the tasks

  /**
   In the middle of a step some tasks are behind: those in late are due but not called yet, those in
   over have nothing left to wait for and are not done yet, those in gone are done and still wait.
   */
  datatype Behind = Behind(late: set<Id>, over: set<Id>, gone: set<Id>)

  /** A task without children that does not end by itself. */
  predicate NeedsReply(f: Forest, i: Id)
    requires i in f
  {
    f[i].kids == [] && f[i].kind != Leaf(true)
  }

  predicate CalledWhenDue(f: Forest, log: seq<Event>, i: Id, late: set<Id>)
    requires i in f
  {
    if f[i].parent.Some? then
      && f[i].parent.value in f
      && (Due(f, log, f[i].parent.value, i) <==> Called(i) in log || i in late)
      && (i in late ==> Called(i) !in log)
    else Called(i) in log <==> i !in late
  }

  predicate DoneWithKids(f: Forest, log: seq<Event>, i: Id, over: set<Id>)
    requires i in f
  {
    && (Done(i) in log ==> Called(i) in log)
    && (f[i].kids != [] ==> (KidsDone(f, log, i) <==> Done(i) in log || i in over))
    && (f[i].kind == Leaf(true) ==> (Called(i) in log <==> Done(i) in log || i in over))
    && (i in over ==> Done(i) !in log && Called(i) in log)
  }

  ghost predicate KeptRight(f: Forest, st: State, i: Id, gone: set<Id>)
    requires i in f
  {
    && (forall k :: k in Left(st, i) <==> k in f[i].kids && Done(k) !in st.log)
    && (i in gone ==> Done(i) in st.log)
    && (i in st.wait <==> Called(i) in st.log && (Done(i) !in st.log || i in gone))
  }

  ghost predicate TaskOk(f: Forest, st: State, i: Id, b: Behind)
    requires i in f
  {
    CalledWhenDue(f, st.log, i, b.late) && DoneWithKids(f, st.log, i, b.over) && KeptRight(f, st, i, b.gone)
  }

  ghost predicate Inv(f: Forest, st: State, b: Behind) {
    && Ok(f) && Ordered(f, st.log)
    && st.wait <= f.Keys && b.gone <= f.Keys
    && (forall i | i in f :: TaskOk(f, st, i, b))
  }

  // ---------------------------------------------------------------- small facts

  lemma Unordered(f: Forest, log: seq<Event>, e: Event)
    requires Ordered(f, log) && Justified(f, log, e)
    ensures Ordered(f, log + [e])
  {
    hide Justified;
    forall n | 0 <= n < |log + [e]| ensures Justified(f, (log + [e])[..n], (log + [e])[n]) {
      assert (log + [e])[..n] == log[..n];
      if n == |log| {
        assert log[..n] == log;
      }
    }
  }

  lemma KidIs(f: Forest, p: Id, i: Id)
    requires Ok(f) && p in f && i in f[p].kids
    ensures i in f && p < i && f[i].parent == Some(p)
  {
    assert NodeOk(f, p);
  }

  lemma ParentIs(f: Forest, i: Id)
    requires Ok(f) && i in f && f[i].parent.Some?
    ensures f[i].parent.value in f && f[i].parent.value < i && i in f[f[i].parent.value].kids
    ensures !f[f[i].parent.value].kind.Leaf?
  {
    assert NodeOk(f, i);
    assert NodeOk(f, f[i].parent.value);
  }

  // ---------------------------------------------------------------- trees

  /** d is in the tree under i. */
  predicate Under(f: Forest, d: Id, i: Id)
    requires Ok(f)
    decreases d
  {
    d in f && (d == i || (f[d].parent.Some? && f[d].parent.value < d && Under(f, f[d].parent.value, i)))
  }

  lemma UnderKid(f: Forest, k: Id, p: Id)
    requires Ok(f) && p in f && k in f[p].kids
    ensures k in f && p < k && Under(f, k, p)
  {
    KidIs(f, p, k);
    assert Under(f, p, p);
  }

  lemma {:induction false} UnderTrans(f: Forest, d: Id, k: Id, i: Id)
    requires Ok(f) && Under(f, d, k) && Under(f, k, i)
    ensures Under(f, d, i)
    decreases d
  {
    if d != k {
      UnderTrans(f, f[d].parent.value, k, i);
    }
  }

  /** The task completes inside its own call(): a leaf at once, a composite if it has children and they all do. */
  ghost predicate Sync(f: Forest, i: Id)
    requires Ok(f) && i in f
    decreases Top(f) - i
  {
    match f[i].kind
    case Leaf(immediate) => immediate
    case _ => f[i].kids != [] && forall k | k in f[i].kids :: SyncKid(f, i, k)
  }

  ghost predicate SyncKid(f: Forest, p: Id, k: Id)
    requires Ok(f) && p in f && k in f[p].kids
    decreases Top(f) - p, 0
  {
    KidIs(f, p, k);
    Sync(f, k)
  }

  /** A serial whose last child, called by the child_done of the one before, completes there and then. */
  ghost predicate Bad(f: Forest, p: Id)
    requires Ok(f)
  {
    p in f && f[p].kind.Serial? && |f[p].kids| >= 2 && SyncKid(f, p, f[p].kids[|f[p].kids| - 1])
  }

  ghost predicate SomeBad(f: Forest)
    requires Ok(f)
  {
    exists p :: Bad(f, p)
  }

  /** x is the last child of a bad serial. */
  ghost predicate LastOfBad(f: Forest, x: Id)
    requires Ok(f)
  {
    exists p :: Bad(f, p) && x == f[p].kids[|f[p].kids| - 1]
  }

  /** Some task has been done twice. */
  predicate Twice(log: seq<Event>) {
    exists m, n :: 0 <= m < n < |log| && log[m] == log[n] && log[m].Done?
  }

  lemma TwiceStays(log: seq<Event>, more: seq<Event>)
    requires Twice(log) && log <= more
    ensures Twice(more)
  {
    var m, n :| 0 <= m < n < |log| && log[m] == log[n] && log[m].Done?;
    assert more[m] == more[n];
  }

  lemma TwiceNow(log: seq<Event>, i: Id, more: seq<Event>)
    requires Done(i) in log && log + [Done(i)] <= more
    ensures Twice(more)
  {
    var m :| 0 <= m < |log| && log[m] == Done(i);
    assert more[m] == more[|log|];
  }

  /** What has been ordered so far has not been done twice. */
  lemma OrderedOnce(f: Forest, log: seq<Event>)
    requires Ordered(f, log)
    ensures !Twice(log)
  {
    forall m, n | 0 <= m < n < |log| ensures log[m] != log[n] {
      assert Justified(f, log[..n], log[n]);
      assert log[..n][m] == log[m];
    }
  }
}
