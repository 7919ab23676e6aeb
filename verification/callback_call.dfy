/** triggerCall keeps the invariant: a hit in the wait queue is never an RPC that was called already. */
module CallbackCall {
  import opened Options
  import opened CallbackModel
  import opened CallbackInvariant
  import opened CallbackSteps

  lemma AboveDepth(nodes: map<Id, Node>, height: nat, q: Id, x: Id)
    requires Forest(nodes, height) && x in nodes
    requires Above(nodes, height, q, x)
    ensures q in nodes && nodes[q].depth <= nodes[x].depth
    decreases nodes[x].depth
  {
  }

  /** The id lookup protects against a second call: whatever is called and not erased yet is not looked up. */
  lemma NotCalledYet(s: State, x: Id, rest: seq<Frame>)
    requires Shape(s) && Stack(s, [CallById(x)] + rest) && x in s.wait
    ensures x !in s.past.called
  {
    SeparateRest(s.nodes, s.height, CallById(x), rest);
    if x in s.past.called {
      ErasingRest(s, CallById(x), rest);
      assert Apart(s.nodes, s.height, CallById(x), Erase(x));
      assert Above(s.nodes, s.height, x, x);
    }
  }

  /** The state after called() and the parent's erase, when x waits and was not called. */
  function Answered(s: State, x: Id): State
    requires x in s.nodes && (s.nodes[x].parent.Some? ==> s.nodes[x].parent.value in s.children)
  {
    match s.nodes[x].parent
    case None => Reply(s, x)
    case Some(p) => Erased(Reply(s, x), p, x)
  }

  ghost function AnsweredFrames(s: State, x: Id): seq<Frame>
    requires Shape(s) && x in s.nodes
  {
    match s.nodes[x].parent
    case None => [Erase(x)]
    case Some(p) =>
      (if s.nodes[p].kind.Serial? then FirstRequest(Answered(s, x), p) else []) + [CheckEmpty(p), Erase(x)]
  }

  /** A waiting child is where childCalled looks for it: the first of a serial, anywhere in a parallel. */
  lemma ReplyHits(s: State, x: Id, p: Id)
    requires Shape(s) && Family(s) && x in s.wait && x in s.past.requested && x !in s.past.called && Kid(s.nodes, p, x)
    ensures x in s.children[p] && p in s.past.requested
    ensures s.nodes[p].kind.Serial? ==> x == First(s.children[p])
  {
  }

  lemma CallStepIs(s: State, x: Id, rest: seq<Frame>)
    requires Shape(s) && Family(s) && Waits(s) && x in s.wait && x !in s.past.called
    requires CallStep(s, x, rest).Config?
    ensures CallStep(s, x, rest) == Config(Answered(s, x), AnsweredFrames(s, x) + rest)
  {
    match s.nodes[x].parent {
      case None =>
      case Some(p) => ReplyHits(s, x, p);
    }
  }

  lemma CallHistory(s: State, x: Id)
    requires Shape(s) && Waits(s) && Family(s) && History(s.nodes, s.log, s.past)
    requires x in s.wait && x !in s.past.called && FrameOk(s, CallById(x))
    ensures History(s.nodes, Reply(s, x).log, Reply(s, x).past)
  {
    HistoryGrows(s.nodes, s.log, s.past, Event(Called, x, {}));
  }

  lemma RemovesFamily(s: State, t: State, x: Id)
    requires Family(s) && Removes(s, t, x)
    ensures Family(t)
  {
  }

  lemma CallFamily(s: State, x: Id)
    requires Shape(s) && Waits(s) && Family(s) && x in s.wait && x !in s.past.called
    ensures Shape(Answered(s, x)) && Family(Answered(s, x))
  {
    hide Family, Waits, Shape;
    AnsweredRemoves(s, x);
    RemovesFamily(s, Answered(s, x), x);
  }

  lemma CallQueues(s: State, x: Id)
    requires Shape(s) && Waits(s) && Exclusive(s.past) && Pressed(s) && Times(s) && x in s.wait && x !in s.past.called
    ensures var t := Answered(s, x);
            t.nodes == s.nodes && Waits(t) && Exclusive(t.past) && Pressed(t) && (Shape(t) ==> Times(t))
            && t.log == Reply(s, x).log && t.past == Reply(s, x).past
  {
    hide Forest;
  }

  lemma CallLife(s: State, x: Id)
    requires Life(s) && x in s.wait && x in s.nodes && x !in s.past.called && FrameOk(s, CallById(x))
    requires s.nodes[x].parent.Some? ==> s.nodes[x].parent.value in s.children
    ensures Life(Answered(s, x))
  {
    hide Shape, Exclusive, History, Waits, Kept, Alive, OneByOne, Left, Times, Pressed, FrameOk;
    CallHistory(s, x);
    CallFamily(s, x);
    CallQueues(s, x);
  }

  // ---------------------------------------------------------------- the stack

  lemma CallFrameKept(s: State, x: Id, f: Frame)
    requires Shape(s) && x in s.wait && x in s.past.requested && FrameOk(s, f) && !f.Request? && !f.CallById?
    ensures FrameOk(Answered(s, x), f)
  {
  }

  lemma ParentNode(s: State, p: Id, x: Id)
    requires Shape(s) && Kid(s.nodes, p, x)
    ensures x in s.nodes && p in s.nodes && p in s.children && !s.nodes[p].kind.Leaf?
  {
  }

  /** The next child of a serial is fresh when its turn comes. */
  lemma NextStartable(s: State, x: Id, p: Id)
    requires Shape(s) && Waits(s) && Family(s) && x in s.wait && x !in s.past.called && Kid(s.nodes, p, x)
    requires s.nodes[p].kind.Serial? && s.children[p] != {x}
    ensures x in s.nodes && p in Answered(s, x).children && Answered(s, x).children[p] != {}
    ensures FrameOk(Answered(s, x), Request(First(Answered(s, x).children[p])))
    ensures First(Answered(s, x).children[p]) != x && Kid(s.nodes, p, First(Answered(s, x).children[p]))
    ensures Fresh(s, First(Answered(s, x).children[p]))
  {
    hide Forest, Left, Answered, First;
    ParentNode(s, p, x);
    ReplyHits(s, x, p);
    AnsweredKids(s, x, p);
    var m := First(Answered(s, x).children[p]);
    assert IsFirst(Answered(s, x).children[p], m);
    assert m in s.children[p] && m != x && Kid(s.nodes, p, m);
    OnlyFirst(s, x, p, m);
    NextFrame(s, Answered(s, x), p, m);
  }

  lemma AnsweredKids(s: State, x: Id, p: Id)
    requires Shape(s) && Kid(s.nodes, p, x) && p in s.children && x in s.children[p] && s.children[p] != {x}
    ensures x in s.nodes
    ensures var t := Answered(s, x);
            && t.children.Keys == s.children.Keys && t.children[p] == s.children[p] - {x} && t.children[p] != {}
            && t.nodes == s.nodes && t.ready == s.ready
            && t.past == s.past.(called := s.past.called + {x})
  {
    hide Forest;
    assert s.children[p] == (s.children[p] - {x}) + {x};
  }

  /** Of a serial only the first child has started. */
  lemma OnlyFirst(s: State, x: Id, p: Id, m: Id)
    requires Shape(s) && Waits(s) && Alive(s) && OneByOne(s) && p in s.nodes && s.nodes[p].kind.Serial?
    requires x in s.children[p] && x == First(s.children[p]) && m in s.children[p] && m != x
    ensures Fresh(s, m) && m !in s.ready
  {
    hide Forest;
    assert IsFirst(s.children[p], x);
    assert Kid(s.nodes, p, m);
  }

  lemma NextFrame(s: State, t: State, p: Id, m: Id)
    requires p in s.nodes && Kid(s.nodes, p, m) && p in s.past.requested && Fresh(s, m) && m !in s.ready
    requires t.nodes == s.nodes && t.ready == s.ready && p in t.children && IsFirst(t.children[p], m)
    requires t.past == s.past.(called := t.past.called)
    ensures FrameOk(t, Request(m))
  {
  }

  /** What is erased further down is not above p, nor above a fresh child of p. */
  lemma ParentApart(s: State, x: Id, p: Id, g: Frame)
    requires Shape(s) && Kid(s.nodes, p, x) && Apart(s.nodes, s.height, CallById(x), g)
    ensures Apart(s.nodes, s.height, CheckEmpty(p), g)
    ensures forall m | Kid(s.nodes, p, m) && g.Erase? && g.id != m :: !Above(s.nodes, s.height, g.id, m)
  {
  }

  lemma EraseApart(s: State, x: Id, g: Frame)
    requires Shape(s) && x !in s.past.called && FrameOk(s, g) && Apart(s.nodes, s.height, CallById(x), g)
    ensures Apart(s.nodes, s.height, Erase(x), g)
  {
    hide Forest, Above;
  }

  lemma NextApart(s: State, p: Id, m: Id, g: Frame)
    requires Shape(s) && FrameOk(s, g) && Kid(s.nodes, p, m) && p in s.nodes && s.nodes[p].kind.Serial?
    requires Fresh(s, m) && Exclusive(s.past) && !g.Request? && !g.CallById?
    requires g.Erase? && g.id != m ==> !Above(s.nodes, s.height, g.id, m)
    ensures Apart(s.nodes, s.height, Request(m), g)
  {
    hide Forest, Above;
  }

  lemma CallFrameApart(s: State, x: Id, f: Frame, g: Frame)
    requires Shape(s) && Waits(s) && Family(s) && x in s.wait && x !in s.past.called
    requires Exclusive(s.past)
    requires f in AnsweredFrames(s, x)
    requires FrameOk(s, g) && Apart(s.nodes, s.height, CallById(x), g)
    ensures Apart(s.nodes, s.height, f, g)
  {
    hide Apart, FrameOk, Alive, Left, OneByOne, Kept, Above, Waits, Exclusive;
    EraseApart(s, x, g);
    match s.nodes[x].parent {
      case None =>
      case Some(p) =>
        assert Kid(s.nodes, p, x);
        ParentApart(s, x, p, g);
        if f != CheckEmpty(p) && f != Erase(x) {
          assert f == Request(First(Answered(s, x).children[p]));
          assert s.children[p] != {x};
          NextStartable(s, x, p);
          ApartLower(s, x, g);
          NextApart(s, p, f.id, g);
        }
    }
  }

  lemma ApartLower(s: State, x: Id, g: Frame)
    requires Shape(s) && Apart(s.nodes, s.height, CallById(x), g)
    ensures !g.Request? && !g.CallById?
  {
  }

  /** x is called and is in nobody's map any more; nothing else has changed for families. */
  ghost predicate Removes(s: State, t: State, x: Id) {
    && t.nodes == s.nodes && t.wait == s.wait && t.past == s.past.(called := s.past.called + {x})
    && t.children.Keys == s.children.Keys && forall q | q in s.children :: t.children[q] == s.children[q] - {x}
  }

  lemma AnsweredRemoves(s: State, x: Id)
    requires Shape(s) && Waits(s) && Family(s) && x in s.wait && x !in s.past.called
    ensures x in s.nodes && Shape(Answered(s, x)) && Removes(s, Answered(s, x), x)
  {
    hide Forest, Family, Waits;
    forall q | q in s.children && x in s.children[q] ensures s.nodes[x].parent == Some(q) {
      assert Kid(s.nodes, q, x);
    }
    if s.nodes[x].parent.Some? {
      ParentNode(s, s.nodes[x].parent.value, x);
    }
  }

  lemma CallTop(s: State, x: Id)
    requires Shape(s) && Waits(s) && Family(s) && x in s.wait && x !in s.past.called
    requires Exclusive(s.past)
    ensures Frames(Answered(s, x), AnsweredFrames(s, x)) && Separate(s.nodes, s.height, AnsweredFrames(s, x))
  {
    hide Forest, Kept, Alive, OneByOne, Left, First, IsFirst;
    match s.nodes[x].parent {
      case None =>
        assert AnsweredFrames(s, x) == [Erase(x)];
      case Some(p) =>
        ParentNode(s, p, x);
        if s.nodes[p].kind.Serial? && s.children[p] != {x} {
          CallTopNext(s, x, p);
        } else {
          CallTopLast(s, x, p);
        }
    }
  }

  lemma CallTopLast(s: State, x: Id, p: Id)
    requires Shape(s) && Waits(s) && Family(s) && x in s.wait && x !in s.past.called && Exclusive(s.past)
    requires Kid(s.nodes, p, x) && p in s.children && (s.nodes[p].kind.Serial? ==> s.children[p] == {x})
    ensures x in s.nodes && Frames(Answered(s, x), AnsweredFrames(s, x)) && Separate(s.nodes, s.height, AnsweredFrames(s, x))
  {
    hide Waits, Family, FrameOk, Answered, Exclusive, First;
    AnsweredRemoves(s, x);
    NotAboveParent(s, x, p);
    CallFrames(s, x, p);
    assert s.nodes[p].kind.Serial? ==> FirstRequest(Answered(s, x), p) == [];
    assert AnsweredFrames(s, x) == [CheckEmpty(p), Erase(x)];
  }

  lemma CallFrames(s: State, x: Id, p: Id)
    requires Shape(s) && Kid(s.nodes, p, x) && x in s.wait
    ensures FrameOk(Answered(s, x), CheckEmpty(p)) && FrameOk(Answered(s, x), Erase(x))
  {
  }

  lemma CallTopNext(s: State, x: Id, p: Id)
    requires Shape(s) && Waits(s) && Family(s) && x in s.wait && x !in s.past.called && Exclusive(s.past)
    requires Kid(s.nodes, p, x) && p in s.children && s.nodes[p].kind.Serial? && s.children[p] != {x}
    ensures x in s.nodes && Frames(Answered(s, x), AnsweredFrames(s, x)) && Separate(s.nodes, s.height, AnsweredFrames(s, x))
  {
    hide Waits, Family, FrameOk, Answered, Exclusive, First;
    ParentNode(s, p, x);
    NotAboveParent(s, x, p);
    CallFrames(s, x, p);
    NextStartable(s, x, p);
    var m := First(Answered(s, x).children[p]);
    assert AnsweredFrames(s, x) == [Request(m), CheckEmpty(p), Erase(x)];
  }

  lemma NotAboveParent(s: State, x: Id, p: Id)
    requires Shape(s) && Kid(s.nodes, p, x)
    ensures !Above(s.nodes, s.height, x, p)
  {
    if Above(s.nodes, s.height, x, p) {
      AboveDepth(s.nodes, s.height, x, p);
    }
  }

  lemma CallStack(s: State, x: Id, rest: seq<Frame>)
    requires Shape(s) && Waits(s) && Family(s) && Exclusive(s.past) && x in s.wait
    requires Stack(s, [CallById(x)] + rest)
    ensures Stack(Answered(s, x), AnsweredFrames(s, x) + rest)
  {
    NotCalledYet(s, x, rest);
    FramesRest(s, CallById(x), rest);
    ErasingRest(s, CallById(x), rest);
    SeparateRest(s.nodes, s.height, CallById(x), rest);
    CallTop(s, x);
    var t, top := Answered(s, x), AnsweredFrames(s, x);
    forall f, g | f in top && g in rest ensures Apart(s.nodes, s.height, f, g) {
      CallFrameApart(s, x, f, g);
    }
    SeparateConcat(s.nodes, s.height, top, rest);
    forall f | f in top + rest ensures FrameOk(t, f) {
      if f in rest {
        CallFrameKept(s, x, f);
      }
    }
    assert Erase(x) in top;
  }
}
