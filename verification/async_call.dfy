/** Going down: triggerCall calls a task and everything below it that is due. */
module AsyncCall {
  import opened Options
  import opened AsyncModel
  import opened AsyncInvariant

  /** The children that become due when i is called. */
  function News(f: Forest, i: Id): set<Id>
    requires i in f
  {
    if f[i].kids == [] then {} else if f[i].kind.Serial? then {f[i].kids[0]} else set k | k in f[i].kids
  }

  function Late(b: Behind, less: Id, more: set<Id>): Behind {
    b.(late := b.late - {less} + more)
  }

  /** Once i is in the log as called: its first children are due, or it is a leaf that ends right away. */
  function Started(f: Forest, b: Behind, i: Id): Behind
    requires i in f
  {
    Behind(b.late - {i} + News(f, i), b.over + if f[i].kind == Leaf(true) then {i} else {}, b.gone)
  }

  lemma NewsAre(f: Forest, i: Id)
    requires Ok(f) && i in f
    ensures forall k | k in News(f, i) :: k in f[i].kids
    ensures forall k | k in f[i].kids :: k in f && i < k && f[k].parent == Some(i)
    ensures forall k | k in f[i].kids :: f[i].kids[0] <= k
  {
    assert NodeOk(f, i);
  }

  lemma BegunTask(f: Forest, st: State, i: Id, b: Behind, n: Id)
    requires Inv(f, st, b) && i in f && i in b.late && n in f
    ensures TaskOk(f, Begun(st, i), n, Started(f, b, i))
  {
    hide Ordered, Ok;
    assert TaskOk(f, st, n, b) && TaskOk(f, st, i, b);
    KindsAre(f, i);
    BegunCalled(f, st, i, b, n);
    assert forall k :: Done(k) in Begun(st, i).log <==> Done(k) in st.log;
  }

  lemma BegunCalled(f: Forest, st: State, i: Id, b: Behind, n: Id)
    requires Inv(f, st, b) && i in f && i in b.late && n in f
    ensures CalledWhenDue(f, Begun(st, i).log, n, Started(f, b, i).late)
  {
    hide Ordered, Ok, KeptRight;
    var log := Begun(st, i).log;
    assert TaskOk(f, st, n, b) && TaskOk(f, st, i, b);
    assert forall k :: Done(k) in log <==> Done(k) in st.log;
    assert forall k :: Called(k) in log <==> Called(k) in st.log || k == i;
    NewsAre(f, i);
    if f[n].parent.Some? {
      ParentIs(f, n);
      var p := f[n].parent.value;
      if p == i {
        assert Called(n) !in st.log;
        if f[i].kind.Serial? && n != f[i].kids[0] {
          var k := f[i].kids[0];
          assert TaskOk(f, st, k, b);
          KidIs(f, i, k);
          assert Done(k) !in log;
        }
      }
    }
  }

  lemma BegunKeeps(f: Forest, st: State, i: Id, b: Behind)
    requires Inv(f, st, b) && i in f && i in b.late
    ensures Inv(f, Begun(st, i), Started(f, b, i))
  {
    hide TaskOk, Ordered, Ok, Justified;
    forall n | n in f ensures TaskOk(f, Begun(st, i), n, Started(f, b, i)) {
      BegunTask(f, st, i, b, n);
    }
    BegunJustified(f, st, i, b);
    Unordered(f, st.log, Called(i));
  }

  lemma BegunJustified(f: Forest, st: State, i: Id, b: Behind)
    requires Inv(f, st, b) && i in f && i in b.late
    ensures Justified(f, st.log, Called(i))
  {
    hide Ordered, Ok, Due;
    assert TaskOk(f, st, i, b);
  }

  lemma CountKeeps(f: Forest, st: State, b: Behind)
    requires Inv(f, st, b)
    ensures Inv(f, st.(calls := st.calls + 1), b)
  {
    hide Ok, Ordered, CalledWhenDue, DoneWithKids;
    var after := st.(calls := st.calls + 1);
    forall i | i in f ensures TaskOk(f, after, i, b) {
      assert TaskOk(f, st, i, b);
    }
  }

  lemma InvOk(f: Forest, st: State, b: Behind)
    requires Inv(f, st, b)
    ensures Ok(f)
  {
  }

  lemma NewsCallable(f: Forest, st: State, i: Id, b: Behind)
    requires Inv(f, st, b) && i in f && i in b.late
    ensures forall k | k in News(f, i) :: k in f
    ensures i !in News(f, i) && News(f, i) !! b.late
    ensures f[i].kids != [] ==> First(f[i].kids, Left(Begun(st, i), i)) == 0
    ensures f[i].kind.Serial? && f[i].kids != [] ==> News(f, i) == {f[i].kids[0]}
    ensures f[i].kind.Parallel? ==> forall k :: k in News(f, i) <==> k in f[i].kids
    ensures f[i].kids == [] ==> News(f, i) == {}
  {
    hide Ok, Ordered;
    NewsAre(f, i);
    KindsAre(f, i);
    if f[i].kids != [] {
      var k := f[i].kids[0];
      assert TaskOk(f, st, k, b) && TaskOk(f, st, i, b);
    }
  }

  lemma KindsAre(f: Forest, i: Id)
    requires Ok(f) && i in f
    ensures f[i].kind.Leaf? ==> f[i].kids == []
    ensures Increasing(f[i].kids)
  {
    assert NodeOk(f, i);
  }
}
