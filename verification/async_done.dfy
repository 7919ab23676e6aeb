/** Going up: triggerDone ends a task, and its parent takes it off its list. */
module AsyncDone {
  import opened Options
  import opened AsyncModel
  import opened AsyncInvariant
  import opened AsyncCall

  /** The task has ended and its parent has taken it off its children_. */
  function Removed(f: Forest, st: State, i: Id): State
    requires i in f
  {
    if f[i].parent.Some? then Without(Ended(st, i), f[i].parent.value, i) else Ended(st, i)
  }

  /** Whom the parent has to call next. */
  function Next(f: Forest, st: State, i: Id): set<Id>
    requires i in f && (f[i].parent.Some? ==> f[i].parent.value in f)
  {
    if f[i].parent.None? then {} else
      var p := f[i].parent.value;
      var j := First(f[p].kids, Left(Removed(f, st, i), p));
      if f[p].kind.Serial? && j < |f[p].kids| then {f[p].kids[j]} else {}
  }

  /** Whether that was all for the parent. */
  function Over(f: Forest, st: State, i: Id): set<Id>
    requires i in f
  {
    if f[i].parent.Some? && Left(Removed(f, st, i), f[i].parent.value) == {} then {f[i].parent.value} else {}
  }

  function Owed(f: Forest, st: State, i: Id, b: Behind): Behind
    requires i in f && (f[i].parent.Some? ==> f[i].parent.value in f)
  {
    Behind(b.late + Next(f, st, i), Over(f, st, i), b.gone + {i})
  }

  /** i is the one task whose triggerDone is about to begin. */
  ghost predicate Ending(f: Forest, st: State, i: Id, b: Behind) {
    && Inv(f, st, b) && i in f && Called(i) in st.log && Done(i) !in st.log
    && b.over <= {i} && (NeedsReply(f, i) || i in b.over)
  }

  lemma LogAfter(f: Forest, st: State, i: Id)
    requires i in f
    ensures var log := Removed(f, st, i).log;
            && (forall k :: Done(k) in log <==> Done(k) in st.log || k == i)
            && (forall k :: Called(k) in log <==> Called(k) in st.log)
    ensures Removed(f, st, i).wait == st.wait
    ensures forall k: Id | f[i].parent != Some(k) :: Left(Removed(f, st, i), k) == Left(st, k)
    ensures f[i].parent.Some? ==>
              Left(Removed(f, st, i), f[i].parent.value) == Left(st, f[i].parent.value) - {i}
  {
  }

  lemma NotYetParent(f: Forest, st: State, i: Id, b: Behind)
    requires Ending(f, st, i, b) && f[i].parent.Some?
    ensures f[i].parent.value in f
    ensures var p := f[i].parent.value; Called(p) in st.log && Done(p) !in st.log && p != i && p !in b.over
    ensures var p := f[i].parent.value; Due(f, st.log, p, i)
    ensures i !in b.late && i !in b.gone
  {
    hide Ok, Ordered;
    ParentIs(f, i);
    assert TaskOk(f, st, i, b) && TaskOk(f, st, f[i].parent.value, b);
  }

  /** Another family does not notice. */
  lemma OtherDue(f: Forest, st: State, i: Id, n: Id)
    requires Ok(f) && i in f && n in f && f[n].parent.Some? && f[n].parent.value in f && f[i].parent != f[n].parent
    ensures Due(f, Removed(f, st, i).log, f[n].parent.value, n) <==> Due(f, st.log, f[n].parent.value, n)
  {
    hide Ok, Removed;
    LogAfter(f, st, i);
    if i in f[f[n].parent.value].kids {
      KidIs(f, f[n].parent.value, i);
    }
  }

  lemma NextIsKid(f: Forest, st: State, i: Id, n: Id)
    requires Ok(f) && i in f && (f[i].parent.Some? ==> f[i].parent.value in f) && n in Next(f, st, i)
    ensures n in f && f[i].parent.Some? && f[n].parent == f[i].parent && n in Left(Removed(f, st, i), f[i].parent.value)
  {
    KidIs(f, f[i].parent.value, n);
  }

  /** A later sibling becomes due exactly when it is the first one left. */
  lemma SiblingDue(f: Forest, st: State, i: Id, b: Behind, n: Id)
    requires Ending(f, st, i, b) && n in f && f[n].parent == f[i].parent && f[i].parent.Some? && f[i].parent.value in f
    requires f[f[i].parent.value].kind.Serial? && n > i
    ensures Called(n) !in st.log && n !in b.late
    ensures Due(f, Removed(f, st, i).log, f[i].parent.value, n) <==> n in Next(f, st, i)
  {
    hide Ok, Ordered, Removed, DoneWithKids, CalledWhenDue, First;
    var p := f[i].parent.value;
    LogAfter(f, st, i);
    NotYetParent(f, st, i, b);
    ParentIs(f, n);
    ParentIs(f, i);
    assert TaskOk(f, st, p, b);
    LaterSibling(f, st, i, b, n);
    var kids, left := f[p].kids, Left(Removed(f, st, i), p);
    assert n in left;
    KindsAre(f, p);
    FirstIs(kids, left, n);
  }

  lemma LaterSibling(f: Forest, st: State, i: Id, b: Behind, n: Id)
    requires Ending(f, st, i, b) && n in f && f[n].parent == f[i].parent && f[i].parent.Some? && f[i].parent.value in f
    requires f[f[i].parent.value].kind.Serial? && n > i
    ensures Called(n) !in st.log && n !in b.late && Done(n) !in st.log
  {
    hide Ok, Ordered, KeptRight;
    ParentIs(f, i);
    assert TaskOk(f, st, n, b);
  }

  lemma FirstIs(kids: seq<Id>, left: set<Id>, n: Id)
    requires Increasing(kids) && n in kids && n in left
    ensures First(kids, left) < |kids|
    ensures kids[First(kids, left)] == n <==> forall k | k in kids && k < n :: k !in left
  {
    var j := First(kids, left);
    var m :| 0 <= m < |kids| && kids[m] == n;
    assert j <= m;
    if j < m {
      assert kids[j] < n;
    }
  }

  lemma SiblingCalled(f: Forest, st: State, i: Id, b: Behind, n: Id)
    requires Ending(f, st, i, b) && n in f && f[n].parent == f[i].parent && f[i].parent.Some? && f[i].parent.value in f
    ensures CalledWhenDue(f, Removed(f, st, i).log, n, Owed(f, st, i, b).late)
  {
    hide Ok, Ordered, Removed, DoneWithKids, KeptRight, Next;
    LogAfter(f, st, i);
    assert TaskOk(f, st, n, b);
    if f[f[i].parent.value].kind.Serial? && n > i {
      SiblingDue(f, st, i, b, n);
    } else {
      EarlierNext(f, st, i, b, n);
    }
  }

  lemma EarlierNext(f: Forest, st: State, i: Id, b: Behind, n: Id)
    requires Ending(f, st, i, b) && n in f && f[n].parent == f[i].parent && f[i].parent.Some? && f[i].parent.value in f
    requires f[f[i].parent.value].kind.Serial? ==> n <= i
    ensures n !in Next(f, st, i)
  {
    hide Ok, Ordered, Removed, DoneWithKids, CalledWhenDue, First;
    var p := f[i].parent.value;
    LogAfter(f, st, i);
    NotYetParent(f, st, i, b);
    assert TaskOk(f, st, p, b);
    if n in Next(f, st, i) {
      NextIsKid(f, st, i, n);
    }
  }

  lemma RemovedCalled(f: Forest, st: State, i: Id, b: Behind, n: Id)
    requires Ending(f, st, i, b) && n in f && (f[i].parent.Some? ==> f[i].parent.value in f)
    ensures CalledWhenDue(f, Removed(f, st, i).log, n, Owed(f, st, i, b).late)
  {
    hide Ok, Ordered, Removed;
    LogAfter(f, st, i);
    assert TaskOk(f, st, n, b);
    if f[n].parent.Some? {
      ParentIs(f, n);
      var p := f[n].parent.value;
      if f[i].parent == Some(p) {
        NotYetParent(f, st, i, b);
        SiblingCalled(f, st, i, b, n);
      } else {
        OtherDue(f, st, i, n);
      }
    }
    if n in Next(f, st, i) {
      NextIsKid(f, st, i, n);
    }
  }

  lemma RemovedTask(f: Forest, st: State, i: Id, b: Behind, n: Id)
    requires Ending(f, st, i, b) && n in f && (f[i].parent.Some? ==> f[i].parent.value in f)
    ensures TaskOk(f, Removed(f, st, i), n, Owed(f, st, i, b))
  {
    hide Ok, Ordered, Removed, CalledWhenDue, Next;
    RemovedCalled(f, st, i, b, n);
    LogAfter(f, st, i);
    assert TaskOk(f, st, n, b);
    if f[i].parent.Some? {
      NotYetParent(f, st, i, b);
      ParentIs(f, i);
    }
    if i in f[n].kids {
      KidIs(f, n, i);
      assert forall k :: k in Left(Removed(f, st, i), n) <==> k in f[n].kids && Done(k) !in Removed(f, st, i).log;
    }
  }

  lemma RemovedKeeps(f: Forest, st: State, i: Id, b: Behind)
    requires Ending(f, st, i, b)
    ensures f[i].parent.Some? ==> f[i].parent.value in f
    ensures Inv(f, Removed(f, st, i), Owed(f, st, i, b))
  {
    hide TaskOk, Ordered, Ok, Justified, Removed, Next, Over;
    if f[i].parent.Some? {
      ParentIs(f, i);
    }
    forall n | n in f ensures TaskOk(f, Removed(f, st, i), n, Owed(f, st, i, b)) {
      RemovedTask(f, st, i, b, n);
    }
    EndedJustified(f, st, i, b);
    Unordered(f, st.log, Done(i));
    LogAfter(f, st, i);
    RemovedLog(f, st, i);
  }

  lemma RemovedLog(f: Forest, st: State, i: Id)
    requires i in f
    ensures Removed(f, st, i).log == st.log + [Done(i)]
  {
  }

  lemma EndedJustified(f: Forest, st: State, i: Id, b: Behind)
    requires Ending(f, st, i, b)
    ensures Justified(f, st.log, Done(i))
  {
    hide Ordered;
    assert NodeOk(f, i);
    assert TaskOk(f, st, i, b);
  }

  lemma EraseKeeps(f: Forest, st: State, i: Id, b: Behind)
    requires Inv(f, st, b) && i in b.gone
    ensures Inv(f, st.(wait := st.wait - {i}), b.(gone := b.gone - {i}))
  {
    hide Ok, Ordered, CalledWhenDue, DoneWithKids;
    var after, b1 := st.(wait := st.wait - {i}), b.(gone := b.gone - {i});
    forall n | n in f ensures TaskOk(f, after, n, b1) {
      assert TaskOk(f, st, n, b);
    }
  }

  lemma NextNew(f: Forest, st: State, i: Id, b: Behind)
    requires Ending(f, st, i, b)
    ensures f[i].parent.Some? ==> f[i].parent.value in f
    ensures Next(f, st, i) !! b.late
  {
    hide Ordered, Ok, Next, Removed, KeptRight;
    if f[i].parent.Some? {
      ParentIs(f, i);
    }
    forall n | n in Next(f, st, i) ensures n !in b.late {
      NextIsKid(f, st, i, n);
      NextLater(f, st, i, b, n);
      LaterSibling(f, st, i, b, n);
    }
  }

  lemma NextLater(f: Forest, st: State, i: Id, b: Behind, n: Id)
    requires Ending(f, st, i, b)
    requires f[i].parent.Some? && f[i].parent.value in f && n in f && f[n].parent == f[i].parent && n in Next(f, st, i)
    ensures f[f[i].parent.value].kind.Serial? && n > i
  {
    hide Ordered, Ok, TaskOk, Removed, First, Next;
    if n <= i {
      EarlierNext(f, st, i, b, n);
    }
    NextSerial(f, st, i);
  }

  lemma NextSerial(f: Forest, st: State, i: Id)
    requires i in f && (f[i].parent.Some? ==> f[i].parent.value in f) && Next(f, st, i) != {}
    ensures f[i].parent.Some? && f[f[i].parent.value].kind.Serial?
  {
  }

  lemma FirstOfFamily(f: Forest, st: State, i: Id, b: Behind)
    requires Ending(f, st, i, b) && f[i].parent.Some? && f[i].parent.value in f
    requires f[f[i].parent.value].kind.Serial?
    ensures var p := f[i].parent.value;
            var j := First(f[p].kids, Left(st, p));
            j < |f[p].kids| && f[p].kids[j] == i
  {
    hide Ok, Ordered, First, CalledWhenDue, DoneWithKids;
    var p := f[i].parent.value;
    NotYetParent(f, st, i, b);
    ParentIs(f, i);
    KindsAre(f, p);
    assert TaskOk(f, st, p, b);
    FirstIs(f[p].kids, Left(st, p), i);
  }

  lemma NotGone(f: Forest, st: State, i: Id, b: Behind)
    requires Ending(f, st, i, b)
    ensures i !in b.gone
  {
    hide Ok, Ordered;
    assert TaskOk(f, st, i, b);
  }
}
