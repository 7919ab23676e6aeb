/** Every small step keeps the invariant, one lemma per kind of frame. */
module CallbackSteps {
  import opened Options
  import opened CallbackModel
  import opened CallbackInvariant

  // ---------------------------------------------------------------- the log grows at its end

  lemma HistoryGrows(nodes: map<Id, Node>, log: seq<Event>, past: Past, e: Event)
    requires History(nodes, log, past)
    requires e.id in nodes && (e.id in Had(past, e.kind) ==> e.kind == Replied) && e.canceled <= nodes.Keys && e.canceled !! past.canceled
    requires InOrder(nodes, past, e) && Caused(nodes, past, e)
    ensures History(nodes, log + [e], Add(past, e))
  {
    var more := log + [e];
    assert more[..|log|] == log;
    forall k ensures Had(Add(past, e), k) <= nodes.Keys {
      assert Had(past, k) <= nodes.Keys;
    }
    forall d | d in log ensures Differ(d, e) {
      PastHas(log, d);
    }
    forall i | 0 <= i < |more|
      ensures InOrder(nodes, PastOf(more[..i]), more[i]) && Caused(nodes, PastOf(more[..i]), more[i])
    {
      if i < |log| {
        assert more[..i] == log[..i];
      }
    }
  }

  lemma PastHas(log: seq<Event>, e: Event)
    requires e in log
    ensures e.id in Had(PastOf(log), e.kind) && e.canceled <= PastOf(log).canceled
  {
    var n := |log| - 1;
    assert log == log[..n] + [log[n]];
    if e != log[n] {
      PastHas(log[..n], e);
    }
  }

  lemma InsertHas(index: seq<(int, Id)>, e: (int, Id))
    ensures forall f :: f in Insert(index, e) <==> f in index || f == e
  {
    if !(index == [] || index[|index| - 1].0 <= e.0) {
      var init, last := index[..|index| - 1], index[|index| - 1];
      InsertHas(init, e);
      assert index == init + [last];
    }
  }

  // ---------------------------------------------------------------- triggerRequest

  lemma RequestHistory(s: State, r: Id)
    requires Shape(s) && History(s.nodes, s.log, s.past) && Left(s) && Alive(s) && FrameOk(s, Request(r))
    ensures History(s.nodes, Enqueue(s, r).log, Enqueue(s, r).past)
  {
    match s.nodes[r].parent {
      case None =>
      case Some(p) =>
        forall d: Id | Kid(s.nodes, p, d) && d < r && s.nodes[p].kind.Serial? ensures d in s.past.called {
          assert d !in s.children[p];
        }
    }
    HistoryGrows(s.nodes, s.log, s.past, Event(Requested, r, {}));
  }

  lemma RequestFamily(s: State, r: Id)
    requires Shape(s) && Family(s) && FrameOk(s, Request(r))
    ensures Family(Enqueue(s, r))
  {
  }

  lemma RequestTimes(s: State, r: Id)
    requires Shape(s) && Times(s) && FrameOk(s, Request(r))
    ensures Shape(Enqueue(s, r)) && Times(Enqueue(s, r))
  {
    InsertHas(s.index, (s.nodes[r].created, r));
  }

  lemma RequestQueues(s: State, r: Id)
    requires Shape(s) && Waits(s) && Exclusive(s.past) && Pressed(s) && FrameOk(s, Request(r))
    ensures Waits(Enqueue(s, r)) && Exclusive(Enqueue(s, r).past) && Pressed(Enqueue(s, r))
  {
    hide Forest;
  }

  lemma RequestLife(s: State, r: Id)
    requires Life(s) && FrameOk(s, Request(r))
    ensures r in s.nodes && Life(Enqueue(s, r))
  {
    RequestNode(s, r);
    hide Shape, Exclusive, History, Waits, Kept, Alive, OneByOne, Left, Times, Pressed, FrameOk;
    RequestHistory(s, r);
    RequestFamily(s, r);
    RequestTimes(s, r);
    RequestQueues(s, r);
    EnqueueNodes(s, r);
  }

  lemma RequestNode(s: State, r: Id)
    requires FrameOk(s, Request(r))
    ensures r in s.nodes
  {
  }

  lemma EnqueueNodes(s: State, r: Id)
    requires Shape(s) && r in s.nodes
    ensures Enqueue(s, r).nodes == s.nodes && Enqueue(s, r).height == s.height
  {
    hide Shape, Insert;
  }

  // ---------------------------------------------------------------- the stack

  lemma SeparateConcat(nodes: map<Id, Node>, height: nat, a: seq<Frame>, b: seq<Frame>)
    requires Forest(nodes, height)
    requires Separate(nodes, height, a) && Separate(nodes, height, b)
    requires forall f, g | f in a && g in b :: Apart(nodes, height, f, g)
    ensures Separate(nodes, height, a + b)
  {
  }

  lemma SeparateRest(nodes: map<Id, Node>, height: nat, f: Frame, rest: seq<Frame>)
    requires Forest(nodes, height)
    requires Separate(nodes, height, [f] + rest)
    ensures Separate(nodes, height, rest)
    ensures forall g | g in rest :: Apart(nodes, height, f, g)
  {
    var stack := [f] + rest;
    forall i, j | 0 <= i < j < |rest| ensures Apart(nodes, height, rest[i], rest[j]) {
      assert rest[i] == stack[i + 1] && rest[j] == stack[j + 1];
    }
    forall g | g in rest ensures Apart(nodes, height, f, g) {
      var j :| 0 <= j < |rest| && rest[j] == g;
      assert stack[j + 1] == g && stack[0] == f;
    }
  }

  /** A frame below the top keeps its promise while the top frame starts r. */
  lemma RequestFrameKept(s: State, r: Id, f: Frame)
    requires Shape(s) && FrameOk(s, Request(r)) && FrameOk(s, f) && Apart(s.nodes, s.height, Request(r), f)
    ensures FrameOk(Enqueue(s, r), f)
  {
  }

  lemma KidsStartable(s: State, r: Id)
    requires Shape(s) && Waits(s) && Alive(s) && Left(s) && FrameOk(s, Request(r))
    ensures forall c | c in s.children[r] ::
              Startable(Enqueue(s, r), c) && s.nodes[c].parent == Some(r) && Fresh(s, c)
  {
    forall c | c in s.children[r]
      ensures Startable(Enqueue(s, r), c) && s.nodes[c].parent == Some(r) && Fresh(s, c)
    {
      assert Kid(s.nodes, r, c);
    }
  }

  /** The frames that request() leaves are about children of r, which no other frame can be waiting to start. */
  lemma RequestFrameNew(s: State, r: Id, f: Frame)
    requires Shape(s) && FrameOk(s, Request(r))
    requires forall c | c in s.children[r] ::
               Startable(Enqueue(s, r), c) && s.nodes[c].parent == Some(r) && Fresh(s, c)
    requires f in RequestFrames(s, r) || f == Counted(r)
    ensures FrameOk(Enqueue(s, r), f)
    ensures forall x | x in Pending(f) :: x in s.nodes && s.nodes[x].parent == Some(r) && Fresh(s, x)
    ensures Subject(f).Some? ==> Subject(f).value == r || Subject(f).value in Pending(f)
    ensures !f.Erase?
  {
  }

  lemma RequestFrameApart(s: State, r: Id, f: Frame, g: Frame)
    requires Shape(s) && Waits(s) && Alive(s) && Left(s) && Exclusive(s.past) && FrameOk(s, Request(r))
    requires f in RequestFrames(s, r) || f == Counted(r)
    requires FrameOk(s, g) && Apart(s.nodes, s.height, Request(r), g)
    ensures Apart(s.nodes, s.height, f, g)
  {
    KidsStartable(s, r);
    RequestFrameNew(s, r, f);
  }

  lemma RequestSeparate(s: State, r: Id, rest: seq<Frame>)
    requires Shape(s) && Waits(s) && Alive(s) && Left(s) && Exclusive(s.past) && FrameOk(s, Request(r))
    requires Frames(s, rest) && Separate(s.nodes, s.height, [Request(r)] + rest)
    ensures Separate(s.nodes, s.height, RequestFrames(s, r) + [Counted(r)] + rest)
  {
    SeparateRest(s.nodes, s.height, Request(r), rest);
    var top := RequestFrames(s, r) + [Counted(r)];
    forall f, g | f in top && g in rest ensures Apart(s.nodes, s.height, f, g) {
      RequestFrameApart(s, r, f, g);
    }
    SeparateConcat(s.nodes, s.height, top, rest);
  }

  lemma RequestFramesOk(s: State, r: Id, rest: seq<Frame>)
    requires Shape(s) && Waits(s) && Alive(s) && Left(s) && FrameOk(s, Request(r))
    requires Frames(s, rest) && forall g | g in rest :: Apart(s.nodes, s.height, Request(r), g)
    ensures Frames(Enqueue(s, r), RequestFrames(s, r) + [Counted(r)] + rest)
  {
    KidsStartable(s, r);
    forall f | f in RequestFrames(s, r) + [Counted(r)] + rest ensures FrameOk(Enqueue(s, r), f) {
      if f in rest {
        RequestFrameKept(s, r, f);
      } else {
        RequestFrameNew(s, r, f);
      }
    }
  }

  lemma FramesRest(s: State, f: Frame, rest: seq<Frame>)
    requires Frames(s, [f] + rest)
    ensures FrameOk(s, f) && Frames(s, rest)
  {
    assert ([f] + rest)[0] == f;
    forall g | g in rest ensures FrameOk(s, g) {
      assert g in [f] + rest;
    }
  }

  lemma ErasingRest(s: State, f: Frame, rest: seq<Frame>)
    requires Erasing(s, [f] + rest) && !f.Erase?
    ensures Erasing(s, rest)
  {
    forall x | x in s.wait && x in s.past.called ensures Erase(x) in rest {
      assert Erase(x) in [f] + rest;
    }
  }

  lemma RequestStack(s: State, r: Id, rest: seq<Frame>)
    requires Shape(s) && Waits(s) && Alive(s) && Left(s) && Exclusive(s.past)
    requires Stack(s, [Request(r)] + rest)
    ensures r in s.nodes && Stack(Enqueue(s, r), RequestFrames(s, r) + [Counted(r)] + rest)
  {
    FramesRest(s, Request(r), rest);
    ErasingRest(s, Request(r), rest);
    SeparateRest(s.nodes, s.height, Request(r), rest);
    RequestSeparate(s, r, rest);
    RequestFramesOk(s, r, rest);
  }
}
