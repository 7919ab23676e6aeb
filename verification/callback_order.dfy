/** Order, completion and cancellation sweeps, over every run. */
module CallbackOrder {
  import opened Options
  import opened CallbackModel
  import opened CallbackInvariant
  import opened CallbackCall
  import opened CallbackRun
  import opened CallbackTimeout
  import opened CallbackApi
  import opened CallbackTheorems

  // ---------------------------------------------------------------- order of the callbacks

  /** Children of a serial run one after the other, in the order of their ids. */
  lemma SerialOrder(s: State, i: nat, p: Id, c: Id, d: Id)
    requires Quiet(s) && At(s.log, i, Requested, c)
    requires Kid(s.nodes, p, c) && Kid(s.nodes, p, d) && d < c && p in s.nodes && s.nodes[p].kind.Serial?
    ensures exists j :: 0 <= j < i && At(s.log, j, Called, d)
  {
    assert InOrder(s.nodes, PastOf(s.log[..i]), s.log[i]);
    PastAt(s.log[..i], Called, d);
    var j :| At(s.log[..i], j, Called, d);
    assert At(s.log, j, Called, d);
  }

  lemma PastGrows(log: seq<Event>, i: nat)
    requires i <= |log|
    ensures PastOf(log[..i]).replied <= PastOf(log).replied
    decreases |log|
  {
    if i < |log| {
      var n := |log| - 1;
      PastGrows(log[..n], i);
      assert log[..n][..i] == log[..i];
    } else {
      assert log[..i] == log;
    }
  }

  /** A composite that nobody answered from outside is called after every one of its children was called. */
  lemma CompositeLast(s: State, i: nat, p: Id, c: Id)
    requires Quiet(s) && At(s.log, i, Called, p) && Kid(s.nodes, p, c) && p in s.nodes && p !in s.past.replied
    ensures exists j :: 0 <= j < i && At(s.log, j, Called, c)
  {
    hide Waits, Family, Times, Pressed, Stack, Books;
    var before := PastOf(s.log[..i]);
    assert Caused(s.nodes, before, s.log[i]);
    PastGrows(s.log, i);
    assert !s.nodes[p].kind.Leaf?;
    PastAt(s.log[..i], Called, c);
    var j :| At(s.log[..i], j, Called, c);
    assert At(s.log, j, Called, c);
  }

  // ---------------------------------------------------------------- cancellation reaches everything

  lemma ParentRequested(s: State, y: Id)
    requires Shape(s) && History(s.nodes, s.log, s.past) && y in s.nodes && s.nodes[y].parent.Some? && y in s.past.requested
    ensures s.nodes[y].parent.value in s.past.requested
  {
    var p := s.nodes[y].parent.value;
    PastAt(s.log, Requested, y);
    var i :| At(s.log, i, Requested, y);
    assert InOrder(s.nodes, PastOf(s.log[..i]), s.log[i]);
    PastAt(s.log[..i], Requested, p);
    var j :| At(s.log[..i], j, Requested, p);
    assert At(s.log, j, Requested, p);
    PastAt(s.log, Requested, p);
  }

  /**
   A waiting RPC is among its parent's children, and the parent waits too, unless it was called: which
   only a reply to its own id can have done.
   */
  lemma ParentWaits(s: State, c: Id)
    requires Quiet(s) && c in s.wait && c in s.nodes && s.nodes[c].parent.Some?
    ensures var p := s.nodes[c].parent.value;
            && p in s.nodes && p in s.children && c in s.children[p]
            && (p in s.wait <==> p !in s.past.called)
            && (p in s.past.called ==> p in s.past.replied)
  {
    hide Times, Books, Exclusive;
    QuietParts(s);
    var p := s.nodes[c].parent.value;
    assert Kid(s.nodes, p, c);
    ParentRequested(s, c);
    if p in s.past.called && p !in s.past.replied {
      PastAt(s.log, Called, p);
      var i :| At(s.log, i, Called, p);
      CompositeLast(s, i, p, c);
      PastAt(s.log, Called, c);
    }
  }

  /** q is strictly below x and strictly above y. */
  ghost predicate Between(nodes: map<Id, Node>, height: nat, x: Id, q: Id, y: Id)
    requires Forest(nodes, height) && y in nodes
  {
    q in nodes && q != x && q != y && Above(nodes, height, x, q) && Above(nodes, height, q, y)
  }

  /** The cancellation of x reaches a waiting RPC below it unless something on the way was called already. */
  lemma UnderIff(s: State, x: Id, y: Id)
    requires Quiet(s) && Shape(s) && y in s.wait && y in s.nodes && y != x && Above(s.nodes, s.height, x, y)
    ensures Under(s, x, y) <==> forall q | Between(s.nodes, s.height, x, q, y) :: q !in s.past.called
    decreases s.nodes[y].depth
  {
    hide Quiet;
    ParentWaits(s, y);
    var p := s.nodes[y].parent.value;
    BetweenParent(s.nodes, s.height, x, y);
    if p != x {
      if p in s.past.called {
        CalledLeft(s, p);
      } else {
        UnderIff(s, x, p);
      }
    }
  }

  lemma BetweenParent(nodes: map<Id, Node>, height: nat, x: Id, y: Id)
    requires Forest(nodes, height) && y in nodes && y != x && Above(nodes, height, x, y)
    ensures nodes[y].parent.Some? && nodes[y].parent.value in nodes && Above(nodes, height, x, nodes[y].parent.value)
    ensures var p := nodes[y].parent.value;
            forall q :: Between(nodes, height, x, q, y) <==> p != x && (q == p || Between(nodes, height, x, q, p))
  {
    var p := nodes[y].parent.value;
    forall q ensures Between(nodes, height, x, q, y) <==> p != x && (q == p || Between(nodes, height, x, q, p)) {
      if q in nodes && Above(nodes, height, q, p) {
        AboveDepth(nodes, height, q, p);
      }
      if q in nodes && Above(nodes, height, x, q) {
        AboveDepth(nodes, height, x, q);
        if q != x && p == x && Above(nodes, height, q, p) {
          AboveStrict(nodes, height, x, q);
        }
      }
      if Above(nodes, height, x, p) {
        AboveDepth(nodes, height, x, p);
      }
    }
  }

  lemma AboveStrict(nodes: map<Id, Node>, height: nat, q: Id, x: Id)
    requires Forest(nodes, height) && x in nodes && q != x && Above(nodes, height, q, x)
    ensures q in nodes && nodes[q].depth < nodes[x].depth
  {
    AboveDepth(nodes, height, q, nodes[x].parent.value);
  }

  lemma CalledLeft(s: State, p: Id)
    requires Quiet(s) && Shape(s) && p in s.nodes && p in s.past.called
    ensures forall x :: !Under(s, x, p)
  {
    hide Times, Books, History, Waits;
    QuietParts(s);
  }

  /**
   A timeout takes a waiting RPC below it out of the queue if and only if nothing on the way between
   the two was called: a composite called by its own id has left its parent's map with all that still
   waits below it.
   */
  lemma TimeoutSweeps(s: State, x: Id, y: Id)
    requires Quiet(s) && Shape(s) && x in s.wait && x in s.nodes && y in s.wait && y in s.nodes
    requires y != x && Above(s.nodes, s.height, x, y)
    ensures y !in Timeout(s, x).wait <==> forall q | Between(s.nodes, s.height, x, q, y) :: q !in s.past.called
  {
    hide Quiet;
    UnderIff(s, x, y);
    hide Under;
    TimeoutIs(s, x);
  }

  // ---------------------------------------------------------------- the timeout loop

  /** The cancellation of x reaches a waiting RPC through its waiting parent. */
  lemma ReachedThroughParent(s: State, x: Id, p: Id)
    requires Quiet(s) && Shape(s) && p in s.wait && p in s.nodes && x in s.wait && x != p
    ensures Under(s, x, p) <==>
              s.nodes[p].parent.Some? && s.nodes[p].parent.value in s.wait
              && (s.nodes[p].parent.value == x || Under(s, x, s.nodes[p].parent.value))
  {
    hide Quiet;
    if s.nodes[p].parent.Some? {
      ParentWaits(s, p);
      if s.nodes[p].parent.value in s.past.called {
        CalledLeft(s, s.nodes[p].parent.value);
      }
    }
  }

  lemma ScanAtShrinks(s: State, i: nat, now: int)
    requires Shape(s) && i < |s.index|
    ensures var t := ScanAt(s, i, now); Shape(t) && t.nodes == s.nodes && t.wait <= s.wait
    ensures var t := ScanAt(s, i, now); (if |t.index| < |s.index| then i else i + 1) <= |t.index| && |t.index| <= |s.index|
    ensures |ScanAt(s, i, now).index| - (if |ScanAt(s, i, now).index| < |s.index| then i else i + 1) < |s.index| - i
  {
    hide Under, Forest;
    ScanAtShape(s, i, now);
  }

  lemma {:induction false} ScanShrinks(s: State, i: nat, now: int)
    requires Shape(s) && i <= |s.index|
    ensures Scan(s, i, now).wait <= s.wait
    decreases |s.index| - i
  {
    hide ScanAt, Shape;
    if i < |s.index| {
      ScanAtShrinks(s, i, now);
      ScanShrinks(ScanAt(s, i, now), if |ScanAt(s, i, now).index| < |s.index| then i else i + 1, now);
    }
  }

  // ---------------------------------------------------------------- single steps

  ghost function Kids(nodes: map<Id, Node>, p: Id): set<Id> {
    set c | c in nodes && Kid(nodes, p, c)
  }

  lemma FreshKids(s: State, r: Id)
    requires Shape(s) && History(s.nodes, s.log, s.past) && Left(s) && r in s.nodes && Fresh(s, r) && Exclusive(s.past)
    ensures s.children[r] == Kids(s.nodes, r)
  {
    forall c | c in Kids(s.nodes, r) ensures c in s.children[r] {
      if c in s.past.called {
        PastAt(s.log, Requested, c);
        var i :| At(s.log, i, Requested, c);
        assert InOrder(s.nodes, PastOf(s.log[..i]), s.log[i]);
        PastAt(s.log[..i], Requested, r);
        var j :| At(s.log[..i], j, Requested, r);
        assert At(s.log, j, Requested, r);
        PastAt(s.log, Requested, r);
      }
    }
  }

  lemma StepShape(c: Config)
    requires Inv(c)
    ensures c.Config? && Shape(c.s) && Forest(c.s.nodes, c.s.height)
  {
  }

  lemma ScanSame(s: State, i: nat, now: int)
    requires Shape(s) && i <= |s.index|
    ensures Scan(s, i, now).nodes == s.nodes && Scan(s, i, now).height == s.height
    decreases |s.index| - i
  {
    if i < |s.index| {
      ScanAtShape(s, i, now);
      ScanAtIs(s, i, now);
      hide ScanAt, Shape;
      var t := ScanAt(s, i, now);
      ScanSame(t, if |t.index| < |s.index| then i else i + 1, now);
    }
  }

  lemma InvReady(c: Config)
    requires Inv(c)
    ensures c.Config? && FramesInForest(c)
  {
    InvInForest(c);
  }

  lemma OneStep(c: Config)
    requires c.Config? && Inv(c) && c.stack != [] && FramesInForest(c)
    ensures Step(c).Config? ==> Inv(Step(c)) && FramesInForest(Step(c))
    ensures RunToEnd(c) == RunToEnd(Step(c))
  {
    hide Life, Stack, Books, Shape, Step, FramesInForest;
    StepKeeps(c);
    if Step(c).Config? {
      InvReady(Step(c));
    }
  }

  lemma BrokenEnds()
    ensures RunToEnd(Broken).Broken?
  {
  }
}
