/** What the invariant means for the callers of the callback scheduler, over every run. */
module CallbackTheorems {
  import opened CallbackModel
  import opened CallbackInvariant
  import opened CallbackRun
  import opened CallbackTimeout
  import opened CallbackApi

  // ---------------------------------------------------------------- the log, event by event

  ghost predicate At(log: seq<Event>, i: int, k: EventKind, x: Id) {
    0 <= i < |log| && log[i].kind == k && log[i].id == x
  }

  ghost predicate CanceledAt(log: seq<Event>, i: int, x: Id) {
    0 <= i < |log| && x in log[i].canceled
  }

  lemma PastAt(log: seq<Event>, k: EventKind, x: Id)
    ensures x in Had(PastOf(log), k) <==> exists i :: At(log, i, k, x)
    ensures x in PastOf(log).canceled <==> exists i :: CanceledAt(log, i, x)
  {
    if log != [] {
      var n := |log| - 1;
      var init := log[..n];
      PastAt(init, k, x);
      assert log[n] == log[|log| - 1];
      if x in Had(PastOf(init), k) {
        var i :| At(init, i, k, x);
        assert At(log, i, k, x);
      }
      if At(log, n, k, x) {
        assert x in Had(PastOf(log), k);
      }
      if x in PastOf(init).canceled {
        var i :| CanceledAt(init, i, x);
        assert CanceledAt(log, i, x);
      }
      if CanceledAt(log, n, x) {
        assert x in PastOf(log).canceled;
      }
      forall i | At(log, i, k, x) ensures x in Had(PastOf(log), k) {
        if i < n {
          assert At(init, i, k, x);
        }
      }
      forall i | CanceledAt(log, i, x) ensures x in PastOf(log).canceled {
        if i < n {
          assert CanceledAt(init, i, x);
        }
      }
    }
  }

  /** Every callback of every RPC runs at most once, and called() excludes timeouted() and canceled(). */
  ghost predicate AtMostOneOutcome(log: seq<Event>) {
    && (forall i, j, k, x | k != Replied && At(log, i, k, x) && At(log, j, k, x) :: i == j)
    && (forall i, j, x | CanceledAt(log, i, x) && CanceledAt(log, j, x) :: i == j)
    && (forall i, j, x | At(log, i, Called, x) :: !At(log, j, Timeouted, x) && !CanceledAt(log, j, x))
  }

  lemma QuietOutcome(s: State)
    requires History(s.nodes, s.log, s.past) && Exclusive(s.past)
    ensures AtMostOneOutcome(s.log)
  {
    assert forall i, j | 0 <= i < j < |s.log| :: Differ(s.log[i], s.log[j]);
    forall i, j, x | At(s.log, i, Called, x) ensures !At(s.log, j, Timeouted, x) && !CanceledAt(s.log, j, x) {
      PastAt(s.log, Called, x);
      PastAt(s.log, Timeouted, x);
    }
  }

  /** After every legal run, and therefore at every moment of it, no RPC has had two outcomes. */
  lemma EveryRunOneOutcome(nodes: map<Id, Node>, height: nat, ops: seq<Op>)
    requires LegalRun(nodes, height, ops)
    ensures var c := WholeRun(nodes, height, ops); c.Config? ==> AtMostOneOutcome(c.s.log)
  {
    var c := WholeRun(nodes, height, ops);
    if c.Config? {
      QuietOutcome(c.s);
    }
  }

  /** What is known between calls, part by part. */
  lemma QuietParts(s: State)
    requires Quiet(s)
    ensures Shape(s) && Exclusive(s.past) && History(s.nodes, s.log, s.past) && Waits(s) && Family(s) && Times(s) && Books(s, 0)
    ensures s.wait !! s.past.called
  {
    hide Shape, Exclusive, History, Waits, Family, Times, Frames, Separate, Books;
    QuietApart(s);
  }

  /** A reply for an RPC that does not wait (called, timed out, canceled, not yet requested, unknown) is ignored. */
  lemma LateReplyIgnored(s: State, x: Id)
    requires Quiet(s)
    requires x in s.past.called || x in s.past.timeouted || x in s.past.canceled || x !in s.past.requested
    ensures Apply(s, Answer(x)) == Config(s, [])
  {
    hide Life, Stack, Books;
    QuietParts(s);
    NotWaiting(s, x);
    AnswerInv(s, x);
    var c := Config(s, [CallById(x)]);
    StepKeeps(c);
    assert Step(c) == Config(s, []);
    assert RunToEnd(c) == RunToEnd(Step(c));
    assert Apply(s, Answer(x)) == RunToEnd(c);
  }

  lemma NotWaiting(s: State, x: Id)
    requires Waits(s) && s.wait !! s.past.called
    requires x in s.past.called || x in s.past.timeouted || x in s.past.canceled || x !in s.past.requested
    ensures x !in s.wait
  {
  }

  // ---------------------------------------------------------------- the books

  lemma QuietCounts(s: State)
    requires Quiet(s)
    ensures s.stats.requested == |s.past.requested| && s.stats.called == |s.past.called|
    ensures s.stats.timeouted == |s.past.timeouted| && s.stats.canceled == |s.past.canceled|
  {
    hide Life, Stack, Shape;
  }

  /** Between calls a requested RPC is called, timed out, canceled or waiting, and only one of these. */
  lemma QuietPieces(s: State, gone: set<Id>)
    requires Quiet(s) && gone == s.past.canceled * s.past.requested - s.past.timeouted
    ensures s.past.requested == s.past.called + s.past.timeouted + gone + s.wait
    ensures s.past.called !! s.past.timeouted && (s.past.called + s.past.timeouted) !! gone
    ensures (s.past.called + s.past.timeouted + gone) !! s.wait
  {
    hide Life, Stack, Shape, History, Family, Times, Books;
    QuietParts(s);
    Pieces(s.past, s.wait);
  }

  lemma Pieces(past: Past, wait: set<Id>)
    requires past.called <= past.requested && past.timeouted <= past.requested && past.called !! (past.timeouted + past.canceled)
    requires wait <= past.requested - past.timeouted - past.canceled && wait !! past.called
    requires past.requested - past.timeouted - past.canceled - past.called <= wait
    ensures var gone := past.canceled * past.requested - past.timeouted;
            && past.requested == past.called + past.timeouted + gone + wait
            && past.called !! past.timeouted && (past.called + past.timeouted) !! gone
            && (past.called + past.timeouted + gone) !! wait
  {
  }

  lemma FourParts(all: set<Id>, a: set<Id>, b: set<Id>, c: set<Id>, d: set<Id>)
    requires all == a + b + c + d && a !! b && (a + b) !! c && (a + b + c) !! d
    ensures |all| == |a| + |b| + |c| + |d|
  {
  }

  /** Every requested RPC is accounted for: called, timed out, canceled while waiting, or still waiting. */
  lemma BooksBalance(s: State)
    requires Quiet(s)
    ensures s.stats.requested
            == s.stats.called + s.stats.timeouted + |(s.past.canceled * s.past.requested) - s.past.timeouted| + |s.wait|
    ensures s.stats.canceled == |s.past.canceled|
  {
    hide Life, Stack, Shape, History, Family, Times, Pressed, Waits, Exclusive, Books;
    QuietCounts(s);
    var gone := s.past.canceled * s.past.requested - s.past.timeouted;
    QuietPieces(s, gone);
    FourParts(s.past.requested, s.past.called, s.past.timeouted, gone, s.wait);
  }

  // ---------------------------------------------------------------- no timeout is lost

  ghost predicate Ahead(s: State, i: nat, x: Id) {
    exists j :: i <= j < |s.index| && s.index[j].1 == x
  }

  /** The entry of x is still ahead of the loop, unless x has left the queue. */
  lemma StillAhead(s: State, i: nat, now: int, x: Id)
    requires Shape(s) && i < |s.index| && x in s.nodes && Due(s, x, now) && Ahead(s, i, x)
    ensures var t := ScanAt(s, i, now);
            && x in t.nodes && x in t.timeout && Due(t, x, now)
            && (x in t.wait ==> Ahead(t, if |t.index| < |s.index| then i else i + 1, x))
  {
    ScanAtIs(s, i, now);
    hide ScanAt, Shape;
    var t := ScanAt(s, i, now);
    var j :| i <= j < |s.index| && s.index[j].1 == x;
    if x in t.wait && j > i {
      if |t.index| < |s.index| {
        assert t.index[j - 1] == s.index[j];
      } else {
        assert t.index[j] == s.index[j];
      }
    }
  }

  /** Whatever is due when the timeout loop starts and has an entry no longer waits when it ends. */
  lemma DueLeaves(s: State, i: nat, now: int, x: Id)
    requires Shape(s) && i <= |s.index| && x in s.nodes && Due(s, x, now)
    requires x in s.wait ==> Ahead(s, i, x)
    ensures x !in Scan(s, i, now).wait
    decreases |s.index| - i
  {
    if i < |s.index| {
      ScanAtShape(s, i, now);
      ScanAtIs(s, i, now);
      if x in s.wait {
        StillAhead(s, i, now, x);
      }
      hide ScanAt, Shape;
      var t := ScanAt(s, i, now);
      DueLeaves(t, if |t.index| < |s.index| then i else i + 1, now, x);
    }
  }

  /** The timeout loop takes every overdue RPC out of the wait queue. */
  lemma OverdueSwept(s: State, now: int, x: Id)
    requires Quiet(s) && x in s.wait && x in s.nodes && s.nodes[x].limit != INFINITE
    requires now - s.nodes[x].created >= s.nodes[x].limit
    ensures Shape(s) && x !in Scan(s, 0, now).wait
  {
    hide Stack, Books, History, Family, Waits, Forest;
    var e := (s.nodes[x].created, x);
    assert e in s.index;
    var j :| 0 <= j < |s.index| && s.index[j] == e;
    assert Ahead(s, 0, x);
    DueLeaves(s, 0, now, x);
  }
}
