/** A timeout cancels exactly what is left below the RPC, each one once, and keeps the invariant. */
module CallbackTimeout {
  import opened Options
  import opened CallbackModel
  import opened CallbackInvariant
  import opened CallbackSteps

  lemma UnderDeeper(s: State, x: Id, y: Id)
    requires Shape(s) && y in s.nodes && Under(s, x, y)
    ensures x in s.nodes && s.nodes[x].depth < s.nodes[y].depth
    decreases s.nodes[y].depth
  {
    var p := s.nodes[y].parent.value;
    if p != x {
      UnderDeeper(s, x, p);
    }
  }

  /** What Timeout needs to know about the set it cancels. */
  ghost predicate Doomed(s: State, x: Id, ys: set<Id>) {
    && x !in ys
    && (forall y | y in ys :: y in s.nodes && y !in s.past.called && y !in s.past.canceled && s.nodes[y].parent.Some?)
    && (forall p, c | (p == x || p in ys) && p in s.children && c in s.children[p] :: c in ys)
    && (forall p, c | c in ys && p in s.children && c in s.children[p] :: p == x || p in ys)
  }

  lemma BelowDoomed(s: State, x: Id)
    requires Shape(s) && Alive(s) && x in s.nodes
    ensures Doomed(s, x, Below(s, x))
  {
    var ys := Below(s, x);
    if x in ys {
      UnderDeeper(s, x, x);
    }
    forall p, c | p in s.children && c in s.children[p] ensures p == x || p in ys <==> c in ys {
      assert Kid(s.nodes, p, c);
    }
  }

  lemma TimeoutShape(s: State, x: Id)
    requires Shape(s) && x in s.nodes
    ensures Shape(Timeout(s, x))
  {
    hide Timeout, Below, Shape;
    TimeoutIs(s, x);
    ShapeStays(s, Timeout(s, x));
  }

  lemma TimeoutKept(s: State, x: Id)
    requires Shape(s) && Kept(s) && x in s.nodes && Doomed(s, x, Below(s, x))
    ensures Kept(Timeout(s, x))
  {
    hide Timeout, Below, Shape;
    TimeoutIs(s, x);
  }

  lemma AliveShrinks(s: State, t: State, ys: set<Id>)
    requires Alive(s)
    requires forall p | p in t.children :: p in s.children && t.children[p] <= s.children[p] && t.children[p] !! ys
    requires t.past.called == s.past.called && t.past.requested == s.past.requested
    requires t.past.canceled == s.past.canceled + ys
    ensures Alive(t)
  {
  }

  lemma TimeoutAlive(s: State, x: Id)
    requires Shape(s) && Alive(s) && x in s.nodes && x in s.past.requested
    requires Doomed(s, x, Below(s, x))
    ensures Alive(Timeout(s, x))
  {
    hide Timeout, Below, Shape, Alive;
    TimeoutIs(s, x);
    var t, ys := Timeout(s, x), Below(s, x);
    forall p | p in t.children ensures p in s.children && t.children[p] <= s.children[p] && t.children[p] !! ys {
      if p != x && p !in ys {
        assert s.children[p] !! ys;
      }
    }
    AliveShrinks(s, t, ys);
  }

  lemma TimeoutOneByOne(s: State, x: Id)
    requires Shape(s) && OneByOne(s) && x in s.nodes
    ensures OneByOne(Timeout(s, x))
  {
    hide Timeout, Below, Shape;
    TimeoutIs(s, x);
  }

  lemma TimeoutLeft(s: State, x: Id)
    requires Shape(s) && Left(s) && x in s.nodes
    ensures Left(Timeout(s, x))
  {
    TimeoutIs(s, x);
    var t, ys := Timeout(s, x), Below(s, x);
    hide Timeout, Below, Shape;
    forall p | p in t.children && (p in t.past.timeouted || p in t.past.canceled) ensures t.children[p] == {} {
      assert p == x || p in ys || s.children[p] == {};
    }
    forall p, c | Kid(t.nodes, p, c) && p in t.children && c !in t.children[p]
      ensures c in t.past.called || p in t.past.timeouted || p in t.past.canceled
    {
      if p != x && p !in ys {
        assert c !in s.children[p];
      }
    }
  }

  lemma TimeoutHistory(s: State, x: Id)
    requires Shape(s) && Exclusive(s.past) && History(s.nodes, s.log, s.past) && Waits(s) && x in s.nodes
    requires Doomed(s, x, Below(s, x)) && x in s.wait && x !in s.past.called
    ensures History(Timeout(s, x).nodes, Timeout(s, x).log, Timeout(s, x).past) && Exclusive(Timeout(s, x).past)
  {
    HistoryGrows(s.nodes, s.log, s.past, Event(Timeouted, x, Below(s, x)));
  }

  lemma TimeoutWaits(s: State, x: Id)
    requires Shape(s) && Waits(s) && x in s.nodes && Doomed(s, x, Below(s, x)) && x in s.wait && x !in s.past.called
    ensures Waits(Timeout(s, x))
  {
  }

  lemma TimeoutTimes(s: State, x: Id)
    requires Shape(s) && Times(s) && Waits(s) && Alive(s) && Kept(s) && x in s.wait && x !in s.past.called
    ensures Shape(Timeout(s, x)) && Times(Timeout(s, x))
  {
    hide Timeout, Below, Forest, Alive, Kept, Waits;
    TimeoutShape(s, x);
    TimeoutIs(s, x);
    ParentStarted(s, x);
    TimesShrink(s, Timeout(s, x));
  }

  lemma TimesShrink(s: State, t: State)
    requires Shape(s) && Shape(t) && Times(s) && t.nodes == s.nodes && t.index == s.index && t.wait <= s.wait
    requires t.past.requested == s.past.requested
    requires forall y | y in s.nodes :: t.timeout[y] == s.timeout[y] || (t.timeout[y] == 0 && y in s.past.requested)
    ensures Times(t)
  {
    hide Forest;
  }

  lemma TimeoutPressed(s: State, x: Id)
    requires Shape(s) && Pressed(s) && x in s.nodes
    ensures Pressed(Timeout(s, x))
  {
    hide Timeout, Below, Forest;
    TimeoutIs(s, x);
    var t := Timeout(s, x);
    forall p, c | p in t.children && p in t.timeout && c in t.children[p] && c in t.past.timeouted ensures t.timeout[p] == 0 {
      assert c in s.children[p] && Kid(s.nodes, p, c);
    }
  }

  lemma ParentStarted(s: State, x: Id)
    requires Shape(s) && Waits(s) && Alive(s) && Kept(s) && x in s.wait && x !in s.past.called
    ensures x in s.nodes && (s.nodes[x].parent.Some? ==> s.nodes[x].parent.value in s.past.requested)
  {
    if s.nodes[x].parent.Some? {
      assert Kid(s.nodes, s.nodes[x].parent.value, x);
    }
  }

  lemma TimeoutBooks(s: State, x: Id)
    requires Shape(s) && Waits(s) && Books(s, 0) && x in s.nodes && Doomed(s, x, Below(s, x)) && x in s.wait
    ensures Books(Timeout(s, x), 0)
  {
    hide Timeout, Below, Shape, Doomed;
    TimeoutIs(s, x);
    TimeoutStats(s, x);
    var ys := Below(s, x);
    assert s.past.canceled !! ys by {
      DoomedNew(s, x, ys);
    }
    UnionSize(s.past.canceled, ys);
    UnionSize(s.past.timeouted, {x});
  }

  lemma DoomedNew(s: State, x: Id, ys: set<Id>)
    requires Doomed(s, x, ys)
    ensures s.past.canceled !! ys
  {
  }

  lemma TimeoutStats(s: State, x: Id)
    requires Shape(s) && x in s.nodes
    ensures Timeout(s, x).stats
         == s.stats.(timeouted := s.stats.timeouted + 1, canceled := s.stats.canceled + |Below(s, x)|)
  {
    hide Shape, Below;
  }

  lemma UnionSize(a: set<Id>, b: set<Id>)
    requires a !! b
    ensures |a + b| == |a| + |b|
  {
  }

  /** Between calls nothing that waits was called. */
  lemma QuietWaiting(s: State, x: Id)
    requires Inv(Config(s, [])) && x in s.wait
    ensures x in s.nodes && x !in s.past.called
  {
    assert Erasing(s, []);
  }

  lemma ErasingQuiet(s: State, x: Id)
    requires Shape(s) && Erasing(s, []) && x in s.nodes
    ensures Erasing(Timeout(s, x), [])
  {
    hide Timeout, Below;
    TimeoutIs(s, x);
  }

  lemma WaitingRequested(s: State, x: Id)
    requires Waits(s) && x in s.wait
    ensures x in s.past.requested
  {
  }

  lemma TimeoutKeeps(s: State, x: Id)
    requires Inv(Config(s, [])) && x in s.wait
    ensures x in s.nodes && Inv(Config(Timeout(s, x), []))
  {
    hide Shape, Forest, Alive, Kept, OneByOne, Left, Times, Pressed, Waits, History, Timeout, Below, Exclusive, Doomed;
    QuietWaiting(s, x);
    WaitingRequested(s, x);
    BelowDoomed(s, x);
    TimeoutShape(s, x);
    TimeoutKept(s, x);
    TimeoutAlive(s, x);
    TimeoutOneByOne(s, x);
    TimeoutLeft(s, x);
    TimeoutHistory(s, x);
    TimeoutWaits(s, x);
    TimeoutTimes(s, x);
    TimeoutPressed(s, x);
    TimeoutBooks(s, x);
    ErasingQuiet(s, x);
    assert Shape(Timeout(s, x));
    assert Exclusive(Timeout(s, x).past);
    assert History(Timeout(s, x).nodes, Timeout(s, x).log, Timeout(s, x).past);
    assert Waits(Timeout(s, x));
    assert Family(Timeout(s, x));
    assert Times(Timeout(s, x));
  }

  lemma ScanAtIs(s: State, i: nat, now: int)
    requires Shape(s) && i < |s.index|
    ensures var t, y := ScanAt(s, i, now), s.index[i].1;
            && t.nodes == s.nodes && t.height == s.height && t.wait <= s.wait
            && t.index == (if y in s.wait && !Due(s, y, now) then s.index else Without(s.index, i))
            && (y in t.wait ==> !Due(s, y, now))
            && t.timeout.Keys == s.timeout.Keys
            && (forall x | x in s.timeout :: t.timeout[x] == s.timeout[x] || t.timeout[x] == 0)
  {
    var y := s.index[i].1;
    assert s.index[i] in s.index;
    if y in s.wait && Due(s, y, now) {
      TimeoutIs(s, y);
      hide Timeout, Below, Forest;
    }
  }
}
