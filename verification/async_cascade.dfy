/**
 Going down and up in one: what a call does when leaves end inside it, and what an ending does when
 the next task called ends at once. Either everything is in its place afterwards, or some task has been
 done twice; and then the forest has a bad serial.
 */
module AsyncCascade {
  import opened Options
  import opened AsyncModel
  import opened AsyncInvariant
  import opened AsyncCall
  import opened AsyncDone

  /** A task was done twice, and there is a serial to blame. */
  ghost predicate Blamed(f: Forest, log: seq<Event>)
    requires Ok(f)
  {
    Twice(log) && SomeBad(f)
  }

  /** Only ended has been ended from outside, and only called may be a new call of the last child of a bad serial. */
  ghost predicate Along(f: Forest, log: seq<Event>, after: seq<Event>, ended: set<Id>, called: set<Id>)
    requires Ok(f)
  {
    && log <= after
    && (forall k | k in f && NeedsReply(f, k) && Done(k) in after :: Done(k) in log || k in ended)
    && (forall x | LastOfBad(f, x) && Called(x) in after :: Called(x) in log || x in called)
  }

  ghost predicate Kept(f: Forest, st: State, after: State, b: Behind, ended: set<Id>, called: set<Id>) {
    Inv(f, after, b) && Along(f, st.log, after.log, ended, called)
  }

  lemma BlamedStays(f: Forest, log: seq<Event>, more: seq<Event>)
    requires Ok(f) && Blamed(f, log) && log <= more
    ensures Blamed(f, more)
  {
    TwiceStays(log, more);
  }

  lemma AlongTrans(f: Forest, a: seq<Event>, b: seq<Event>, c: seq<Event>, ended: set<Id>, called: set<Id>, ended': set<Id>, called': set<Id>)
    requires Ok(f) && Along(f, a, b, ended, called) && Along(f, b, c, ended', called')
    ensures Along(f, a, c, ended + ended', called + called')
  {
    hide Ok, LastOfBad, NeedsReply;
  }

  /** Those that need no reply and are nobody's bad last child do not count. */
  lemma AlongLess(f: Forest, a: seq<Event>, b: seq<Event>, ended: set<Id>, called: set<Id>, ended': set<Id>, called': set<Id>)
    requires Ok(f) && Along(f, a, b, ended, called)
    requires forall k | k in ended - ended' && k in f :: !NeedsReply(f, k)
    requires forall x | x in called - called' :: !LastOfBad(f, x)
    ensures Along(f, a, b, ended', called')
  {
    hide Ok, LastOfBad, NeedsReply;
  }

  lemma AlongSelf(f: Forest, log: seq<Event>)
    requires Ok(f)
    ensures Along(f, log, log, {}, {})
  {
    hide Ok, LastOfBad, NeedsReply;
  }

  lemma BegunAlong(f: Forest, st: State, i: Id)
    requires Ok(f)
    ensures Along(f, st.log, Begun(st, i).log, {}, {i})
  {
    hide Ok, LastOfBad, NeedsReply;
  }

  lemma EndedAlong(f: Forest, st: State, i: Id)
    requires Ok(f) && i in f
    ensures Along(f, st.log, Removed(f, st, i).log, {i}, {})
  {
    hide Ok, LastOfBad, NeedsReply, Removed;
    RemovedLog(f, st, i);
  }

  // ---------------------------------------------------------------- bad serials

  lemma LastIs(f: Forest, x: Id) returns (p: Id)
    requires Ok(f) && LastOfBad(f, x)
    ensures Bad(f, p) && x == f[p].kids[|f[p].kids| - 1] && x in f && f[x].parent == Some(p) && p in f
    ensures SomeBad(f) && Sync(f, x)
  {
    hide Sync;
    p :| Bad(f, p) && x == f[p].kids[|f[p].kids| - 1];
    KidIs(f, p, x);
  }

  /** The children called together with their parent. */
  lemma NewsNotLast(f: Forest, i: Id, k: Id)
    requires Ok(f) && i in f && k in News(f, i)
    ensures !LastOfBad(f, k)
  {
    hide Ok, LastOfBad, SyncKid;
    NewsAre(f, i);
    KindsAre(f, i);
    if LastOfBad(f, k) {
      var p := LastIs(f, k);
    }
  }

  /** What is called and done between two states, with no reply from outside, completes inside its own call(). */
  lemma {:induction false} SyncBy(f: Forest, st: State, b: Behind, st1: State, b1: Behind, called: set<Id>, x: Id)
    requires Inv(f, st, b) && Inv(f, st1, b1) && Along(f, st.log, st1.log, {}, called)
    requires x in f && Called(x) !in st.log && Done(x) in st1.log
    ensures Sync(f, x)
    decreases Top(f) - x
  {
    hide Ok, Ordered, KeptRight, LastOfBad, Due;
    assert TaskOk(f, st, x, b) && TaskOk(f, st1, x, b1);
    KindsAre(f, x);
    forall k | k in f[x].kids ensures SyncKid(f, x, k) {
      KidIs(f, x, k);
      NotBefore(f, st, b, x, k);
      SyncBy(f, st, b, st1, b1, called, k);
    }
  }

  lemma NotBefore(f: Forest, st: State, b: Behind, p: Id, k: Id)
    requires Inv(f, st, b) && p in f && k in f[p].kids && Called(p) !in st.log
    ensures k in f && Called(k) !in st.log && k !in b.late
  {
    hide Ok, Ordered, KeptRight, DoneWithKids;
    KidIs(f, p, k);
    assert TaskOk(f, st, k, b);
  }

  /** The first child left of a task that has been called is due. */
  lemma FirstLeftDue(f: Forest, st: State, b: Behind, p: Id)
    requires Inv(f, st, b) && p in f && Called(p) in st.log
    requires First(f[p].kids, Left(st, p)) < |f[p].kids|
    ensures var k := f[p].kids[First(f[p].kids, Left(st, p))];
            k in f && f[k].parent == Some(p) && k in Left(st, p) && (Called(k) in st.log || k in b.late) && Done(k) !in st.log
  {
    hide Ok, Ordered, First, DoneWithKids;
    var k := f[p].kids[First(f[p].kids, Left(st, p))];
    assert TaskOk(f, st, p, b);
    KidIs(f, p, k);
    KindsAre(f, p);
    FirstIs(f[p].kids, Left(st, p), k);
    assert TaskOk(f, st, k, b);
  }

  /** What completes inside its own call() has completed, once that call is over. */
  lemma {:induction false} QuickDone(f: Forest, st: State, b: Behind, st1: State, b1: Behind, x: Id)
    requires Inv(f, st, b) && Inv(f, st1, b1) && b1.over == {} && b1.late <= b.late
    requires x in f && Called(x) !in st.log && Called(x) in st1.log && Sync(f, x)
    ensures Done(x) in st1.log
    decreases Top(f) - x
  {
    hide Ok, Ordered, KeptRight, Due, First;
    assert TaskOk(f, st1, x, b1);
    KindsAre(f, x);
    if f[x].kids != [] {
      var j := First(f[x].kids, Left(st1, x));
      if j < |f[x].kids| {
        var k := f[x].kids[j];
        FirstLeftDue(f, st1, b1, x);
        KidIs(f, x, k);
        NotBefore(f, st, b, x, k);
        assert SyncKid(f, x, k);
        QuickDone(f, st, b, st1, b1, k);
      }
      NoneLeft(f, st1, b1, x);
    }
  }

  lemma NoneLeft(f: Forest, st: State, b: Behind, x: Id)
    requires Inv(f, st, b) && x in f && First(f[x].kids, Left(st, x)) == |f[x].kids|
    ensures KidsDone(f, st.log, x) && Left(st, x) == {}
  {
    hide Ok, Ordered, First, DoneWithKids, CalledWhenDue;
    assert TaskOk(f, st, x, b);
  }

  lemma LeftDone(f: Forest, st: State, b: Behind, x: Id)
    requires Inv(f, st, b) && x in f
    ensures Left(st, x) == {} <==> KidsDone(f, st.log, x)
  {
    hide Ok, Ordered, DoneWithKids, CalledWhenDue;
    assert TaskOk(f, st, x, b);
  }

  lemma LastKid(f: Forest, p: Id, k: Id)
    requires Ok(f) && p in f && k in f[p].kids
    ensures var l := f[p].kids[|f[p].kids| - 1]; l in f[p].kids && k <= l && l in f && f[l].parent == Some(p)
  {
    KindsAre(f, p);
    KidIs(f, p, f[p].kids[|f[p].kids| - 1]);
  }

  /** Nothing is left after the next child's call: then the last child completed inside its call. */
  lemma AllQuick(f: Forest, st: State, b: Behind, st1: State, b1: Behind, p: Id, i: Id, n: Id)
    requires Inv(f, st, b) && Inv(f, st1, b1) && b1.over == {} && Along(f, st.log, st1.log, {}, {n})
    requires p in f && f[p].kind.Serial? && i in f[p].kids && n in f[p].kids && i != n
    requires n in b.late && Left(st1, p) == {}
    ensures Bad(f, p) && Done(p) in st1.log
  {
    hide Ok, Ordered, KeptRight, LastOfBad, Sync, Along;
    var l := f[p].kids[|f[p].kids| - 1];
    LastKid(f, p, n);
    LeftDone(f, st1, b1, p);
    KidIs(f, p, n);
    assert TaskOk(f, st, l, b) && TaskOk(f, st, n, b) && TaskOk(f, st1, p, b1);
    SyncBy(f, st, b, st1, b1, {n}, l);
    Distinct(f[p].kids, i, n);
  }

  lemma Distinct(kids: seq<Id>, i: Id, n: Id)
    requires i in kids && n in kids && i != n
    ensures |kids| >= 2
  {
  }

  /** Something is left after the next child's call: then that child is not the last one of a bad serial. */
  lemma NotLast(f: Forest, st: State, b: Behind, st1: State, b1: Behind, p: Id, n: Id)
    requires Inv(f, st, b) && Inv(f, st1, b1) && b1.over == {} && b1.late <= b.late && st.log <= st1.log
    requires p in f && n in f[p].kids && n in b.late && Called(n) in st1.log && Left(st1, p) != {}
    ensures !LastOfBad(f, n)
  {
    hide Ok, Ordered, KeptRight, LastOfBad, Sync, DoneWithKids;
    KidIs(f, p, n);
    if LastOfBad(f, n) {
      var q := LastIs(f, n);
      assert TaskOk(f, st, n, b);
      QuickDone(f, st, b, st1, b1, n);
      LeftDone(f, st1, b1, p);
      var k :| k in f[p].kids && Done(k) !in st1.log;
      LastKid(f, p, k);
    }
  }

  // ---------------------------------------------------------------- the parts of triggerDone

  /** child_done, after the child is off the list: a Serial goes on to the next one. */
  ghost function GoOn(f: Forest, st: State, i: Id): State
    requires Ok(f) && i in f && (f[i].parent.Some? ==> f[i].parent.value in f)
  {
    if f[i].parent.Some? && f[f[i].parent.value].kind.Serial?
    then CallFirst(f, Removed(f, st, i), f[i].parent.value) else Removed(f, st, i)
  }

  /** What is left for triggerDone once the parent has gone on. */
  ghost function Up(f: Forest, st: State, i: Id): State
    requires Ok(f) && i in f && (f[i].parent.Some? ==> f[i].parent.value in f)
  {
    if f[i].parent.Some? && Left(GoOn(f, st, i), f[i].parent.value) == {}
    then Finish(f, GoOn(f, st, i), f[i].parent.value) else GoOn(f, st, i)
  }

  lemma FinishIs(f: Forest, st: State, i: Id, b: Behind)
    requires Ending(f, st, i, b)
    ensures Ok(f) && (f[i].parent.Some? ==> f[i].parent.value in f)
    ensures Finish(f, st, i) == Up(f, st, i).(wait := Up(f, st, i).wait - {i})
    ensures Onward(f, Removed(f, st, i), GoOn(f, st, i))
  {
    hide Inv, First, CallFirst;
    InvOk(f, st, b);
    if f[i].parent.Some? {
      var p := f[i].parent.value;
      ParentIs(f, i);
      assert Left(Ended(st, i), p) == Left(st, p);
      if f[p].kind.Serial? {
        FirstOfFamily(f, st, i, b);
      }
    }
  }

  /** An ending takes a child off a list. */
  lemma FewerPairs(f: Forest, st: State, i: Id, b: Behind)
    requires Ending(f, st, i, b) && f[i].parent.Some?
    ensures |Pairs(Removed(f, st, i).left)| < |Pairs(st.left)|
  {
    hide Ordered, CalledWhenDue, DoneWithKids;
    ParentIs(f, i);
    var p := f[i].parent.value;
    assert TaskOk(f, st, p, b);
    WithoutPairs(Ended(st, i), p, i);
  }

  lemma NextIs(f: Forest, st: State, i: Id)
    requires Ok(f) && i in f && (f[i].parent.Some? ==> f[i].parent.value in f)
    ensures Next(f, st, i) == {} ==> GoOn(f, st, i) == Removed(f, st, i)
    ensures Next(f, st, i) != {} ==>
              && f[i].parent.Some? && Over(f, st, i) == {} && f[f[i].parent.value].kind.Serial?
              && (forall n | n in Next(f, st, i) ::
                    && Next(f, st, i) == {n} && n in f && n in f[f[i].parent.value].kids
                    && GoOn(f, st, i) == Call(f, Removed(f, st, i), n))
  {
    hide Ok, Call, Removed, First;
    if f[i].parent.Some? {
      forall k | k in f[f[i].parent.value].kids ensures k in f {
        KidIs(f, f[i].parent.value, k);
      }
    }
  }

  // ---------------------------------------------------------------- outcomes

  /** How a cascade from st comes out. */
  ghost predicate Outcome(f: Forest, st: State, r: State, b: Behind, ended: set<Id>, called: set<Id>) {
    Ok(f) && (Blamed(f, r.log) || Kept(f, st, r, b, ended, called))
  }

  lemma OutcomeSelf(f: Forest, st: State, b: Behind)
    requires Inv(f, st, b)
    ensures Outcome(f, st, st, b, {}, {})
  {
    hide Ok, Ordered, TaskOk, Along;
    AlongSelf(f, st.log);
  }

  lemma OutcomeThen(f: Forest, st: State, st1: State, r: State, b: Behind, ended: set<Id>, called: set<Id>, called': set<Id>)
    requires Ok(f) && Along(f, st.log, st1.log, ended, called) && Outcome(f, st1, r, b, {}, called')
    ensures Outcome(f, st, r, b, ended, called + called')
  {
    hide Ok, Inv, Along, Blamed;
    if !Blamed(f, r.log) {
      AlongTrans(f, st.log, st1.log, r.log, ended, called, {}, called');
      assert ended + {} == ended;
    }
  }

  lemma OutcomeLess(f: Forest, st: State, r: State, b: Behind, ended: set<Id>, called: set<Id>, ended': set<Id>, called': set<Id>)
    requires Outcome(f, st, r, b, ended, called)
    requires forall k | k in ended - ended' && k in f :: !NeedsReply(f, k)
    requires forall x | x in called - called' :: !LastOfBad(f, x)
    ensures Outcome(f, st, r, b, ended', called')
  {
    hide Ok, Inv, Along, Blamed, LastOfBad, NeedsReply;
    if !Blamed(f, r.log) {
      AlongLess(f, st.log, r.log, ended, called, ended', called');
    }
  }

  lemma OutcomeCount(f: Forest, st: State, r: State, b: Behind, ended: set<Id>, called: set<Id>)
    requires Outcome(f, st, r, b, ended, called)
    ensures Outcome(f, st, r.(calls := r.calls + 1), b, ended, called)
  {
    hide Ok, Inv, Along, Blamed;
    if !Blamed(f, r.log) {
      CountKeeps(f, r, b);
    }
  }

  lemma OutcomeErase(f: Forest, st: State, r: State, b: Behind, ended: set<Id>, called: set<Id>, i: Id)
    requires Outcome(f, st, r, b, ended, called) && i in b.gone
    ensures Outcome(f, st, r.(wait := r.wait - {i}), b.(gone := b.gone - {i}), ended, called)
  {
    hide Ok, Inv, Along, Blamed;
    if !Blamed(f, r.log) {
      EraseKeeps(f, r, i, b);
    }
  }

  lemma OutcomeBlamed(f: Forest, st: State, st1: State, r: State, b: Behind, ended: set<Id>, called: set<Id>)
    requires Ok(f) && Blamed(f, st1.log) && st1.log <= r.log
    ensures Outcome(f, st, r, b, ended, called)
  {
    hide Ok, Inv, Along, Blamed;
    BlamedStays(f, st1.log, r.log);
  }

  // ---------------------------------------------------------------- down and up

  /** call() of a task that is in queue_wait_. */
  ghost function Descent(f: Forest, st: State, i: Id): State
    requires Ok(f) && i in f
  {
    match f[i].kind
    case Leaf(immediate) => if immediate then Finish(f, st, i) else st
    case Serial => CallFirst(f, st, i)
    case Parallel => CallAll(f, st, i, f[i].kids)
  }

  lemma CallIs(f: Forest, st: State, i: Id)
    requires Ok(f) && i in f
    ensures var r := Descent(f, Begun(st, i), i); Call(f, st, i) == r.(calls := r.calls + 1)
    ensures |Pairs(Begun(st, i).left)| == |Pairs(st.left)|
  {
    hide Finish, CallFirst, CallAll;
  }

  lemma StartedEnding(f: Forest, st: State, i: Id, b: Behind)
    requires Inv(f, st, b) && i in f && i in b.late && b.over == {} && f[i].kind == Leaf(true)
    ensures Ending(f, Begun(st, i), i, Started(f, b, i))
    ensures Started(f, b, i).(over := {}) == Late(b, i, {})
  {
    hide Ok, Ordered;
    BegunKeeps(f, st, i, b);
    assert TaskOk(f, st, i, b);
    KindsAre(f, i);
  }

  /** triggerCall: whatever has been called and ended in it, all that is due has been called, and only that. */
  lemma {:induction false} CallKeeps(f: Forest, st: State, i: Id, b: Behind)
    requires Inv(f, st, b) && i in f && i in b.late && b.over == {}
    ensures Ok(f) && Outcome(f, st, Call(f, st, i), Late(b, i, {}), {}, {i})
    decreases |Pairs(st.left)|, 1, Top(f) - i, 2, 0
  {
    hide Inv, Ok, Call, Descent, Begun, Started, Along, Pairs, Outcome;
    InvOk(f, st, b);
    CallIs(f, st, i);
    var st1 := Begun(st, i);
    BegunAlong(f, st, i);
    DescentKeeps(f, st, i, b);
    OutcomeThen(f, st, st1, Descent(f, st1, i), Late(b, i, {}), {}, {i}, {});
    OutcomeCount(f, st, Descent(f, st1, i), Late(b, i, {}), {}, {i} + {});
    assert {i} + {} == {i};
  }

  lemma {:induction false} DescentKeeps(f: Forest, st: State, i: Id, b: Behind)
    requires Inv(f, st, b) && i in f && i in b.late && b.over == {}
    ensures Ok(f) && Outcome(f, Begun(st, i), Descent(f, Begun(st, i), i), Late(b, i, {}), {}, {})
    decreases |Pairs(st.left)|, 1, Top(f) - i, 1, 0
  {
    hide Inv, Ok, Call, Begun, Along, Pairs, Outcome, News, First, LastOfBad;
    InvOk(f, st, b);
    CallIs(f, st, i);
    KindsAre(f, i);
    BegunKeeps(f, st, i, b);
    NewsCallable(f, st, i, b);
    var st1, b1 := Begun(st, i), Started(f, b, i);
    if f[i].kind == Leaf(true) {
      StartedEnding(f, st, i, b);
      FinishKeeps(f, st1, i, b1);
      OutcomeLess(f, st1, Finish(f, st1, i), Late(b, i, {}), {i}, {}, {}, {});
    } else if f[i].kids == [] {
      OutcomeSelf(f, st1, b1);
      assert b1 == Late(b, i, {});
    } else if f[i].kind.Serial? {
      var k := f[i].kids[0];
      KidIs(f, i, k);
      CallKeeps(f, st1, k, b1);
      NewsNotLast(f, i, k);
      OutcomeLess(f, st1, Call(f, st1, k), Late(b1, k, {}), {}, {k}, {}, {});
      assert Late(b1, k, {}) == Late(b, i, {});
    } else {
      ParallelKeeps(f, st, i, b);
    }
  }

  lemma {:induction false} ParallelKeeps(f: Forest, st: State, i: Id, b: Behind)
    requires Inv(f, st, b) && i in f && i in b.late && b.over == {} && f[i].kind.Parallel? && f[i].kids != []
    ensures Ok(f) && Outcome(f, Begun(st, i), CallAll(f, Begun(st, i), i, f[i].kids), Late(b, i, {}), {}, {})
    decreases |Pairs(st.left)|, 1, Top(f) - i, 0, |f[i].kids| + 1
  {
    hide Inv, Ok, CallAll, Begun, Along, Pairs, Outcome, News, LastOfBad;
    InvOk(f, st, b);
    CallIs(f, st, i);
    KindsAre(f, i);
    BegunKeeps(f, st, i, b);
    NewsCallable(f, st, i, b);
    var st1, b1, kids := Begun(st, i), Started(f, b, i), f[i].kids;
    CallAllKeeps(f, st1, i, kids, b1);
    forall k | k in kids ensures !LastOfBad(f, k) {
      NewsNotLast(f, i, k);
    }
    OutcomeLess(f, st1, CallAll(f, st1, i, kids), b1.(late := b1.late - KidSet(kids)), {}, KidSet(kids), {}, {});
    assert b1.(late := b1.late - KidSet(kids)) == Late(b, i, {});
  }

  lemma {:induction false} CallAllKeeps(f: Forest, st: State, i: Id, kids: seq<Id>, b: Behind)
    requires Inv(f, st, b) && i in f && b.over == {}
    requires forall k | k in kids :: k in f[i].kids && k in b.late
    requires Increasing(kids)
    ensures Ok(f)
    ensures Outcome(f, st, CallAll(f, st, i, kids), b.(late := b.late - KidSet(kids)), {}, KidSet(kids))
    decreases |Pairs(st.left)|, 1, Top(f) - i, 0, |kids|
  {
    hide Inv, Ok, Call, Along, Pairs, Outcome, Blamed;
    InvOk(f, st, b);
    if kids == [] {
      OutcomeSelf(f, st, b);
      assert KidSet(kids) == {} && b.(late := b.late - KidSet(kids)) == b;
    } else {
      var rest, b1 := kids[1..], Late(b, kids[0], {});
      KidIs(f, i, kids[0]);
      CallKeeps(f, st, kids[0], b);
      var st1 := Call(f, st, kids[0]);
      OutcomeParts(f, st, st1, b1, {}, {kids[0]});
      if Blamed(f, st1.log) {
        OutcomeBlamed(f, st, st1, CallAll(f, st, i, kids), b.(late := b.late - KidSet(kids)), {}, KidSet(kids));
      } else {
        RestLate(kids, b);
        CallAllKeeps(f, st1, i, rest, b1);
        OutcomeThen(f, st, st1, CallAll(f, st1, i, rest), b1.(late := b1.late - KidSet(rest)), {}, {kids[0]}, KidSet(rest));
      }
    }
  }

  lemma RestLate(kids: seq<Id>, b: Behind)
    requires kids != [] && Increasing(kids) && forall k | k in kids :: k in b.late
    ensures var rest, b1 := kids[1..], Late(b, kids[0], {});
            && Increasing(rest) && (forall k | k in rest :: k in kids && k in b1.late)
            && b1.late - KidSet(rest) == b.late - KidSet(kids)
            && {kids[0]} + KidSet(rest) == KidSet(kids)
  {
  }

  lemma OutcomeParts(f: Forest, st: State, r: State, b: Behind, ended: set<Id>, called: set<Id>)
    requires Outcome(f, st, r, b, ended, called)
    ensures Ok(f) && (Blamed(f, r.log) || (Inv(f, r, b) && Along(f, st.log, r.log, ended, called)))
  {
    hide Ok, Inv, Along, Blamed;
  }

  /** triggerDone: afterwards no sibling is uncalled, no emptied composite undone, nothing ended left waiting. */
  lemma {:induction false} FinishKeeps(f: Forest, st: State, i: Id, b: Behind)
    requires Ending(f, st, i, b)
    ensures Ok(f) && Outcome(f, st, Finish(f, st, i), b.(over := {}), {i}, {})
    decreases |Pairs(st.left)|, 0, i, 2, 0
  {
    hide Inv, Ok, Removed, Finish, Up, Along, Pairs, Outcome, Owed;
    FinishIs(f, st, i, b);
    EndedAlong(f, st, i);
    UpKeeps(f, st, i, b);
    var b1 := Behind(b.late, {}, b.gone + {i});
    var none: set<Id> := {};
    OutcomeThen(f, st, Removed(f, st, i), Up(f, st, i), b1, {i}, none, none);
    assert none + none == none;
    OutcomeErase(f, st, Up(f, st, i), b1, {i}, none, i);
    NotGone(f, st, i, b);
    assert b1.gone - {i} == b.gone;
  }

  lemma {:induction false} UpKeeps(f: Forest, st: State, i: Id, b: Behind)
    requires Ending(f, st, i, b)
    ensures Ok(f) && (f[i].parent.Some? ==> f[i].parent.value in f)
    ensures Outcome(f, Removed(f, st, i), Up(f, st, i), Behind(b.late, {}, b.gone + {i}), {}, {})
    decreases |Pairs(st.left)|, 0, i, 1, 0
  {
    hide Inv, Ok, Removed, Finish, Along, Pairs, Outcome, Next, Over, GoOn;
    FinishIs(f, st, i, b);
    NextIs(f, st, i);
    if Next(f, st, i) == {} {
      LastKeeps(f, st, i, b);
    } else {
      NextKeeps(f, st, i, b);
    }
  }

  /** Nobody is to be called next: the parent ends if nothing is left. */
  lemma {:induction false} LastKeeps(f: Forest, st: State, i: Id, b: Behind)
    requires Ending(f, st, i, b) && Ok(f) && (f[i].parent.Some? ==> f[i].parent.value in f) && Next(f, st, i) == {}
    ensures Outcome(f, Removed(f, st, i), Up(f, st, i), Behind(b.late, {}, b.gone + {i}), {}, {})
    decreases |Pairs(st.left)|, 0, i, 0, 0
  {
    hide Inv, Ok, Removed, Finish, Along, Pairs, Outcome, Next, GoOn, NeedsReply;
    NextIs(f, st, i);
    RemovedKeeps(f, st, i, b);
    var st1, b1 := Removed(f, st, i), Owed(f, st, i, b);
    assert b1 == Behind(b.late, Over(f, st, i), b.gone + {i});
    if Over(f, st, i) != {} {
      var p := f[i].parent.value;
      ParentIs(f, i);
      FewerPairs(f, st, i, b);
      ParentEnding(f, st, i, b);
      FinishKeeps(f, st1, p, b1);
      OutcomeLess(f, st1, Finish(f, st1, p), b1.(over := {}), {p}, {}, {}, {});
    } else {
      OutcomeSelf(f, st1, b1);
    }
  }

  /** The parent, now that all its children are done, is the next to end. */
  lemma ParentEnding(f: Forest, st: State, i: Id, b: Behind)
    requires Ending(f, st, i, b) && f[i].parent.Some? && f[i].parent.value in f
    requires Over(f, st, i) == {f[i].parent.value} && Next(f, st, i) == {}
    ensures Ending(f, Removed(f, st, i), f[i].parent.value, Owed(f, st, i, b))
    ensures !NeedsReply(f, f[i].parent.value)
  {
    hide Ok, Ordered, Removed, Next, Over;
    RemovedKeeps(f, st, i, b);
    ParentIs(f, i);
    assert TaskOk(f, Removed(f, st, i), f[i].parent.value, Owed(f, st, i, b));
  }

  lemma NextFacts(f: Forest, st: State, i: Id, b: Behind, n: Id)
    requires Ending(f, st, i, b) && Ok(f) && (f[i].parent.Some? ==> f[i].parent.value in f) && n in Next(f, st, i)
    ensures f[i].parent.Some? && n in f && i != n && GoOn(f, st, i) == Call(f, Removed(f, st, i), n)
    ensures var p := f[i].parent.value; n in f[p].kids && i in f[p].kids && f[p].kind.Serial?
    ensures n in Owed(f, st, i, b).late && Owed(f, st, i, b).over == {} && Inv(f, Removed(f, st, i), Owed(f, st, i, b))
    ensures Late(Owed(f, st, i, b), n, {}) == Behind(b.late, {}, b.gone + {i})
    ensures |Pairs(Removed(f, st, i).left)| < |Pairs(st.left)|
  {
    hide Inv, Ok, Removed, Next, Over, GoOn, Call, Pairs;
    NextIs(f, st, i);
    RemovedKeeps(f, st, i, b);
    NextNew(f, st, i, b);
    FewerPairs(f, st, i, b);
    ParentIs(f, i);
    NextIsKid(f, st, i, n);
    NextLater(f, st, i, b, n);
  }

  lemma CallLogs(f: Forest, st: State, i: Id)
    requires Ok(f) && i in f
    ensures st.log <= Call(f, st, i).log && Called(i) in Call(f, st, i).log
  {
    hide Ok, Finish, CallFirst, CallAll, Pairs;
    CallIs(f, st, i);
    var st1 := Begun(st, i);
    assert st1.log[|st.log|] == Called(i);
    assert st1.log <= Descent(f, st1, i).log;
  }

  /** The parent's done has run inside the last child's call, and runs once more. */
  lemma TwiceDone(f: Forest, st: State, i: Id, b: Behind, n: Id)
    requires Ending(f, st, i, b) && Ok(f) && (f[i].parent.Some? ==> f[i].parent.value in f) && n in Next(f, st, i)
    requires n in f && Kept(f, Removed(f, st, i), Call(f, Removed(f, st, i), n), Behind(b.late, {}, b.gone + {i}), {}, {n})
    requires f[i].parent.Some? && Left(Call(f, Removed(f, st, i), n), f[i].parent.value) == {}
    ensures Blamed(f, Up(f, st, i).log)
  {
    hide Inv, Ok, Removed, Next, Over, GoOn, Call, Pairs, Along, Owed, Bad;
    NextFacts(f, st, i, b, n);
    var st0, st1, p := Removed(f, st, i), Call(f, Removed(f, st, i), n), f[i].parent.value;
    AllQuick(f, st0, Owed(f, st, i, b), st1, Behind(b.late, {}, b.gone + {i}), p, i, n);
    TwiceNow(st1.log, p, Up(f, st, i).log);
  }

  lemma NextNotLast(f: Forest, st: State, i: Id, b: Behind, n: Id)
    requires Ending(f, st, i, b) && Ok(f) && (f[i].parent.Some? ==> f[i].parent.value in f) && n in Next(f, st, i)
    requires n in f && Kept(f, Removed(f, st, i), Call(f, Removed(f, st, i), n), Behind(b.late, {}, b.gone + {i}), {}, {n})
    requires f[i].parent.Some? && Left(Call(f, Removed(f, st, i), n), f[i].parent.value) != {}
    ensures !LastOfBad(f, n)
  {
    hide Inv, Ok, Removed, Next, Over, GoOn, Call, Pairs, Along, LastOfBad;
    NextFacts(f, st, i, b, n);
    var st0, st1, p := Removed(f, st, i), Call(f, Removed(f, st, i), n), f[i].parent.value;
    CallLogs(f, st0, n);
    NotLast(f, st0, Owed(f, st, i, b), st1, Behind(b.late, {}, b.gone + {i}), p, n);
  }

  /** The next child is called. If nothing is left after that, the parent has been done in that call, and is done again. */
  lemma {:induction false} NextKeeps(f: Forest, st: State, i: Id, b: Behind)
    requires Ending(f, st, i, b) && Ok(f) && (f[i].parent.Some? ==> f[i].parent.value in f) && Next(f, st, i) != {}
    ensures Outcome(f, Removed(f, st, i), Up(f, st, i), Behind(b.late, {}, b.gone + {i}), {}, {})
    decreases |Pairs(st.left)|, 0, i, 0, 0
  {
    hide Inv, Ok, Removed, Finish, Along, Pairs, Outcome, Next, Over, GoOn, Call, Blamed, NeedsReply, LastOfBad;
    var n :| n in Next(f, st, i);
    NextFacts(f, st, i, b, n);
    var st0, b0, p := Removed(f, st, i), Owed(f, st, i, b), f[i].parent.value;
    CallKeeps(f, st0, n, b0);
    var st1, b1 := Call(f, st0, n), Behind(b.late, {}, b.gone + {i});
    OutcomeParts(f, st0, st1, b1, {}, {n});
    if Blamed(f, st1.log) {
      OutcomeBlamed(f, st0, st1, Up(f, st, i), b1, {}, {});
    } else if Left(st1, p) == {} {
      TwiceDone(f, st, i, b, n);
      OutcomeBlamed(f, st0, Up(f, st, i), Up(f, st, i), b1, {}, {});
    } else {
      NextNotLast(f, st, i, b, n);
      OutcomeLess(f, st0, st1, b1, {}, {n}, {}, {});
    }
  }
}
