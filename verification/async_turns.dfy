/**
 Who is called before whom, in every run, a second done included: roots in the order of their emits,
 children of a Parallel in list order. And the counters of stat_ count what the log shows.
 */
module AsyncTurns {
  import opened Options
  import opened AsyncModel
  import opened AsyncInvariant
  import opened AsyncRun

  /** Called(i) may come next: the roots before it, or its elder siblings under a Parallel, have been called. */
  predicate Turn(f: Forest, log: seq<Event>, e: Event) {
    e.Called? ==>
      && e.id in f
      && (f[e.id].parent.None? ==> forall r | r in f && f[r].parent.None? && r < e.id :: Called(r) in log)
      && (f[e.id].parent.Some? ==>
            var p := f[e.id].parent.value;
            p in f && f[p].kind.Parallel? ==> forall k | k in f[p].kids && k < e.id :: Called(k) in log)
  }

  predicate InTurn(f: Forest, log: seq<Event>) {
    forall n | 0 <= n < |log| :: Turn(f, log[..n], log[n])
  }

  function CallsIn(log: seq<Event>): nat {
    if log == [] then 0 else CallsIn(log[..|log| - 1]) + if log[|log| - 1].Called? then 1 else 0
  }

  /** Every step of a cascade counts what it logs, but for open calls, which are counted when they return. */
  predicate Counted(st: State, after: State, open: nat) {
    && after.calls + open - CallsIn(after.log) == st.calls - CallsIn(st.log)
    && after.dones - (|after.log| - CallsIn(after.log)) == st.dones - (|st.log| - CallsIn(st.log))
  }

  /** In turn afterwards, and counted. */
  predicate Fair(f: Forest, st: State, after: State, open: nat) {
    InTurn(f, after.log) && Counted(st, after, open)
  }

  // ---------------------------------------------------------------- one cascade

  lemma InTurnThen(f: Forest, log: seq<Event>, e: Event)
    requires InTurn(f, log) && Turn(f, log, e)
    ensures InTurn(f, log + [e])
  {
    hide Turn;
    forall n | 0 <= n < |log + [e]| ensures Turn(f, (log + [e])[..n], (log + [e])[n]) {
      assert (log + [e])[..n] == log[..n];
      if n == |log| {
        assert log[..n] == log;
      }
    }
  }

  lemma CallsThen(log: seq<Event>, e: Event)
    ensures CallsIn(log + [e]) == CallsIn(log) + if e.Called? then 1 else 0
  {
    assert (log + [e])[..|log|] == log;
  }

  lemma BeginFair(f: Forest, st: State, i: Id)
    requires InTurn(f, st.log) && Turn(f, st.log, Called(i))
    ensures Fair(f, st, Begun(st, i), 1)
  {
    hide Turn, InTurn, CallsIn;
    InTurnThen(f, st.log, Called(i));
    CallsThen(st.log, Called(i));
  }

  lemma EndFair(f: Forest, st: State, i: Id)
    requires InTurn(f, st.log)
    ensures Fair(f, st, Ended(st, i), 0)
  {
    hide InTurn, CallsIn;
    InTurnThen(f, st.log, Done(i));
    CallsThen(st.log, Done(i));
  }

  lemma FairThen(f: Forest, a: State, b: State, c: State, m: nat, n: nat)
    requires Fair(f, a, b, m) && Fair(f, b, c, n)
    ensures Fair(f, a, c, m + n)
  {
    hide InTurn, CallsIn;
  }

  lemma FairSelf(f: Forest, st: State)
    requires InTurn(f, st.log)
    ensures Fair(f, st, st, 0)
  {
  }

  /** A child of a serial has no line to keep: its place is a matter of what is done. */
  lemma SerialTurn(f: Forest, log: seq<Event>, p: Id, k: Id)
    requires Ok(f) && p in f && f[p].kind.Serial? && k in f[p].kids
    ensures k in f && Turn(f, log, Called(k))
  {
    KidIs(f, p, k);
  }

  lemma Logged(log: seq<Event>, e: Event, more: seq<Event>)
    requires log + [e] <= more
    ensures e in more && forall d :: d in log ==> d in more
  {
    assert more[|log|] == e;
    assert forall n | 0 <= n < |log| :: more[n] == log[n];
  }

  /** The elder siblings that are not to be called any more have been called. */
  predicate Started(f: Forest, log: seq<Event>, p: Id, kids: seq<Id>)
    requires p in f
  {
    Increasing(kids) && forall k | k in f[p].kids && k !in kids :: Called(k) in log
  }

  lemma ParallelTurn(f: Forest, log: seq<Event>, p: Id, kids: seq<Id>)
    requires Ok(f) && p in f && kids != [] && kids[0] in f[p].kids && Started(f, log, p, kids)
    ensures kids[0] in f && Turn(f, log, Called(kids[0]))
  {
    hide Ok;
    KidIs(f, p, kids[0]);
  }

  lemma StartedRest(f: Forest, log: seq<Event>, p: Id, kids: seq<Id>, more: seq<Event>)
    requires p in f && kids != [] && Started(f, log, p, kids) && log + [Called(kids[0])] <= more
    ensures Started(f, more, p, kids[1..])
  {
    Logged(log, Called(kids[0]), more);
    assert forall k | k in kids && k != kids[0] :: k in kids[1..];
  }

  lemma {:induction false} CallFair(f: Forest, st: State, i: Id)
    requires Ok(f) && i in f && InTurn(f, st.log) && Turn(f, st.log, Called(i))
    ensures Fair(f, st, Call(f, st, i), 0) && st.log + [Called(i)] <= Call(f, st, i).log
    decreases |Pairs(st.left)|, 1, Top(f) - i, 1, 0
  {
    hide Turn, InTurn, Counted, Ok;
    var st1 := Begun(st, i);
    BeginFair(f, st, i);
    NodeIs(f, i);
    var st2 := match f[i].kind
      case Leaf(immediate) => if immediate then Finish(f, st1, i) else st1
      case Serial => CallFirst(f, st1, i)
      case Parallel => CallAll(f, st1, i, f[i].kids);
    match f[i].kind {
      case Leaf(immediate) =>
        if immediate {
          FinishFair(f, st1, i);
        } else {
          FairSelf(f, st1);
        }
      case Serial => CallFirstFair(f, st1, i);
      case Parallel => CallAllFair(f, st1, i, f[i].kids);
    }
    FairThen(f, st, st1, st2, 1, 0);
    assert Call(f, st, i) == st2.(calls := st2.calls + 1);
    CallReturns(f, st, st2);
  }

  lemma NodeIs(f: Forest, i: Id)
    requires Ok(f) && i in f
    ensures Increasing(f[i].kids) && forall k | k in f[i].kids :: k in f && i < k && f[k].parent == Some(i)
  {
    assert NodeOk(f, i);
  }

  lemma CallReturns(f: Forest, st: State, st2: State)
    requires Fair(f, st, st2, 1)
    ensures Fair(f, st, st2.(calls := st2.calls + 1), 0)
  {
    hide InTurn, CallsIn;
  }

  lemma {:induction false} CallFirstFair(f: Forest, st: State, i: Id)
    requires Ok(f) && i in f && f[i].kind.Serial? && InTurn(f, st.log)
    ensures Fair(f, st, CallFirst(f, st, i), 0)
    decreases |Pairs(st.left)|, 1, Top(f) - i, 0, 0
  {
    hide Turn, InTurn, Counted, Ok;
    NodeIs(f, i);
    var kids := f[i].kids;
    var j := First(kids, Left(st, i));
    if j == |kids| {
      FairSelf(f, st);
    } else {
      SerialTurn(f, st.log, i, kids[j]);
      CallFair(f, st, kids[j]);
    }
  }

  lemma {:induction false} CallAllFair(f: Forest, st: State, i: Id, kids: seq<Id>)
    requires Ok(f) && i in f && (forall k | k in kids :: k in f[i].kids) && InTurn(f, st.log) && Started(f, st.log, i, kids)
    ensures Fair(f, st, CallAll(f, st, i, kids), 0)
    decreases |Pairs(st.left)|, 1, Top(f) - i, 0, |kids|
  {
    hide Turn, InTurn, Counted, Ok, Started;
    NodeIs(f, i);
    if kids == [] {
      FairSelf(f, st);
    } else {
      ParallelTurn(f, st.log, i, kids);
      CallFair(f, st, kids[0]);
      var st1 := Call(f, st, kids[0]);
      StartedRest(f, st.log, i, kids, st1.log);
      CallAllFair(f, st1, i, kids[1..]);
      FairThen(f, st, st1, CallAll(f, st1, i, kids[1..]), 0, 0);
    }
  }

  lemma {:induction false} FinishFair(f: Forest, st: State, i: Id)
    requires Ok(f) && i in f && InTurn(f, st.log)
    ensures Fair(f, st, Finish(f, st, i), 0)
    decreases |Pairs(st.left)|, 0, i, 0, 0
  {
    hide Turn, InTurn, CallsIn, Ok;
    var st1 := Ended(st, i);
    EndFair(f, st, i);
    if f[i].parent.Some? {
      ParentIs(f, i);
      ChildDoneFair(f, st1, f[i].parent.value, i);
    }
  }

  lemma {:induction false} ChildDoneFair(f: Forest, st: State, p: Id, i: Id)
    requires Ok(f) && p in f && p < i && InTurn(f, st.log)
    ensures Fair(f, st, ChildDone(f, st, p, i), 0)
    decreases |Pairs(st.left)|, 0, p, 1, 0
  {
    hide Turn, InTurn, CallsIn, Ok;
    WithoutPairs(st, p, i);
    NodeIs(f, p);
    match f[p].kind {
      case Leaf(_) =>
      case Serial =>
        var kids := f[p].kids;
        var j := First(kids, Left(st, p));
        var st1 := st;
        if j < |kids| && kids[j] == i {
          CallFirstFair(f, Without(st, p, i), p);
          st1 := CallFirst(f, Without(st, p, i), p);
        }
        if Left(st1, p) == {} {
          FinishFair(f, st1, p);
        }
      case Parallel =>
        var st1 := Without(st, p, i);
        if Left(st1, p) == {} {
          FinishFair(f, st1, p);
        }
    }
  }

  // ---------------------------------------------------------------- whole runs

  /** Every root has been called or is in the ready queue, the elder ones in front. */
  predicate Queued(f: Forest, log: seq<Event>, ready: seq<Id>) {
    RootsOnly(f, ready) && forall r | r in f && f[r].parent.None? :: Called(r) in log || r in ready
  }

  predicate FairWorld(w: World) {
    && InTurn(w.f, w.st.log) && Queued(w.f, w.st.log, w.ready)
    && w.st.calls == CallsIn(w.st.log) && w.st.dones == |w.st.log| - CallsIn(w.st.log)
  }

  lemma RootTurn(f: Forest, log: seq<Event>, ready: seq<Id>)
    requires Queued(f, log, ready) && ready != []
    ensures Turn(f, log, Called(ready[0]))
  {
    forall r | r in f && f[r].parent.None? && r < ready[0] ensures Called(r) in log {
      assert r !in ready;
    }
  }

  lemma QueuedRest(f: Forest, log: seq<Event>, ready: seq<Id>, more: seq<Event>)
    requires Queued(f, log, ready) && ready != [] && log + [Called(ready[0])] <= more
    ensures Queued(f, more, ready[1..])
  {
    Logged(log, Called(ready[0]), more);
    assert forall k | k in ready && k != ready[0] :: k in ready[1..];
  }

  lemma {:induction false} CallEachFair(f: Forest, st: State, ready: seq<Id>)
    requires Ok(f) && Queued(f, st.log, ready) && InTurn(f, st.log)
    ensures Fair(f, st, CallEach(f, st, ready), 0) && Queued(f, CallEach(f, st, ready).log, [])
    decreases |ready|
  {
    hide Turn, InTurn, Counted, Ok, Call;
    if ready == [] {
      FairSelf(f, st);
    } else {
      RootTurn(f, st.log, ready);
      CallFair(f, st, ready[0]);
      var st1 := Call(f, st, ready[0]);
      QueuedRest(f, st.log, ready, st1.log);
      CallEachFair(f, st1, ready[1..]);
      FairThen(f, st, st1, CallEach(f, st1, ready[1..]), 0, 0);
    }
  }

  lemma EmitFair(w: World, s: Shape)
    requires Sound(w) && Proper(s) && FairWorld(w)
    ensures FairWorld(Emitted(w, s))
  {
    hide NodeOk, Numbered, CallsIn, TreeOk, KidsOk, RootsOnly;
    EmitSound(w, s);
    var g := Numbered(s, w.next, None);
    NumberedOk(s, w.next, None);
    EmittedTurns(w.f, g, w.next, w.st.log);
    EmittedRoots(w.f, g, w.next, w.st.log, w.ready);
  }

  lemma EmittedTurns(f: Forest, g: Forest, n: Id, log: seq<Event>)
    requires Ok(f) && Below(f, n) && (forall i | i in g :: n <= i) && InTurn(f, log)
    ensures InTurn(f + g, log)
  {
    forall m | 0 <= m < |log| ensures Turn(f + g, log[..m], log[m]) {
      assert Turn(f, log[..m], log[m]);
      if log[m].Called? && f[log[m].id].parent.Some? {
        ParentIs(f, log[m].id);
      }
    }
  }

  lemma EmittedRoots(f: Forest, g: Forest, n: Id, log: seq<Event>, ready: seq<Id>)
    requires Queued(f, log, ready) && TreeOk(g, n, None) && RootsOnly(f + g, ready + [n])
    ensures Queued(f + g, log, ready + [n])
  {
    hide RootsOnly, KidsOk, ParentOk;
    assert forall r | r in g && g[r].parent.None? :: r == n;
  }

  lemma StepFair(w: World, op: Op)
    requires Sound(w) && Legal(w, op) && FairWorld(w)
    ensures Sound(Apply(w, op)) && FairWorld(Apply(w, op))
  {
    hide Ok, Emitted, CallEach, Finish, InTurn, CallsIn, RootsOnly, Below;
    StepSound(w, op);
    match op {
      case Emit(s) => EmitFair(w, s);
      case Run => CallEachFair(w.f, w.st, w.ready);
      case Reply(id) =>
        if id in w.st.wait {
          FinishFair(w.f, w.st, id);
          QueuedLater(w.f, w.st.log, w.ready, Apply(w, op).st.log);
        }
    }
  }

  lemma QueuedLater(f: Forest, log: seq<Event>, ready: seq<Id>, more: seq<Event>)
    requires Queued(f, log, ready) && log <= more
    ensures Queued(f, more, ready)
  {
    assert forall e :: e in log ==> e in more;
  }

  lemma {:induction false} AfterFair(ops: seq<Op>)
    requires After(ops).Some?
    ensures FairWorld(After(ops).value)
  {
    hide Apply, Legal, Sound, FairWorld;
    if ops == [] {
      FreshFair();
    } else {
      var front, op := ops[..|ops| - 1], ops[|ops| - 1];
      AfterFair(front);
      StepFair(After(front).value, op);
    }
  }

  lemma FreshFair()
    ensures FairWorld(FRESH)
  {
  }

  // ---------------------------------------------------------------- what it means

  /** Tasks emitted earlier are called earlier: of two roots the one with the smaller id. */
  lemma RootsInTurn(ops: seq<Op>, n: nat, r: Id, q: Id)
    requires After(ops).Some? && n < |After(ops).value.st.log| && After(ops).value.st.log[n] == Called(r)
    requires var f := After(ops).value.f; r in f && q in f && f[r].parent.None? && f[q].parent.None? && q < r
    ensures Called(q) in After(ops).value.st.log[..n]
  {
    hide After, Queued, CallsIn;
    AfterFair(ops);
    var w := After(ops).value;
    assert Turn(w.f, w.st.log[..n], w.st.log[n]);
  }

  /** A turn of run() empties the ready queue: whatever was emitted before it has been called. */
  lemma RunCallsAll(ops: seq<Op>, r: Id)
    requires After(ops).Some? && r in After(ops).value.f && After(ops).value.f[r].parent.None?
    ensures After(ops + [Run]).Some? && After(ops + [Run]).value.ready == []
    ensures Called(r) in After(ops + [Run]).value.st.log
  {
    hide Sound, Queued, InTurn, CallsIn;
    assert (ops + [Run])[..|ops|] == ops;
    AfterFair(ops + [Run]);
    var w := After(ops + [Run]).value;
    assert w.f == After(ops).value.f;
    QueuedEmpty(w, r);
  }

  lemma QueuedEmpty(w: World, r: Id)
    requires Queued(w.f, w.st.log, w.ready) && w.ready == [] && r in w.f && w.f[r].parent.None?
    ensures Called(r) in w.st.log
  {
  }

  /** The children of a Parallel are called in list order. */
  lemma ParallelInTurn(ops: seq<Op>, n: nat, p: Id, j: nat, k: nat)
    requires After(ops).Some?
    requires var f := After(ops).value.f; p in f && f[p].kind.Parallel? && j < k < |f[p].kids|
    requires n < |After(ops).value.st.log| && After(ops).value.st.log[n] == Called(After(ops).value.f[p].kids[k])
    ensures Called(After(ops).value.f[p].kids[j]) in After(ops).value.st.log[..n]
  {
    hide After, Queued, CallsIn, Ok;
    AfterFair(ops);
    var w := After(ops).value;
    NodeIs(w.f, p);
    assert w.f[p].kids[k] in w.f[p].kids && w.f[p].kids[j] in w.f[p].kids;
    assert Turn(w.f, w.st.log[..n], w.st.log[n]);
  }

  /** stat_ in every run: as many calls as call() ran, as many dones as done() ran. */
  lemma StatCounts(ops: seq<Op>)
    requires After(ops).Some?
    ensures var st := After(ops).value.st;
            && st.calls == |set n | 0 <= n < |st.log| && st.log[n].Called?|
            && st.dones == |set n | 0 <= n < |st.log| && st.log[n].Done?|
  {
    hide After, Queued, InTurn;
    AfterFair(ops);
    CallsCounted(After(ops).value.st.log);
  }

  lemma {:induction false} CallsCounted(log: seq<Event>)
    ensures CallsIn(log) == |set n | 0 <= n < |log| && log[n].Called?|
    ensures |log| - CallsIn(log) == |set n | 0 <= n < |log| && log[n].Done?|
  {
    if log != [] {
      var m := |log| - 1;
      CallsCounted(log[..m]);
      var calls, dones := set n | 0 <= n < m && log[..m][n].Called?, set n | 0 <= n < m && log[..m][n].Done?;
      assert (set n | 0 <= n < |log| && log[n].Called?) == if log[m].Called? then calls + {m} else calls;
      assert (set n | 0 <= n < |log| && log[n].Done?) == if log[m].Done? then dones + {m} else dones;
    }
  }
}
