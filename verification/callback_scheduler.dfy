/**
 AsyncRPC and AsyncRPCScheduler as objects that update their fields in place and call each other
 back. Each method is proved to take the scheduler along the small steps of CallbackModel: a method
 that starts with its frame on top of the stack ends in a configuration that has the same outcome.
 */
module CallbackScheduler {
  import opened Options
  import opened CallbackModel
  import opened CallbackInvariant
  import opened CallbackSteps
  import opened CallbackCall
  import opened CallbackRun
  import opened CallbackTimeout
  import opened CallbackCancel
  import opened CallbackApi
  import opened CallbackOrder

  class AsyncRPC {
    var id: Id
    var timeoutms: nat
    var parent: AsyncRPC?
    var children: map<Id, AsyncRPC>
    const createtime: int
    const kind: Kind

    constructor (kind: Kind, id: Id, createtime: int)
      ensures this.kind == kind && this.id == id && this.createtime == createtime
      ensures timeoutms == INFINITE && parent == null && children == map[]
    {
      this.kind, this.id, this.createtime := kind, id, createtime;
      timeoutms, parent, children := INFINITE, null, map[];
    }

    /**
     setChildren: null entries are passed over; the others become children under fresh ids, which grow
     in the order of the list. total is the counter behind generateID.
     */
    method SetChildren(rpcs: seq<AsyncRPC?>, total: Id) returns (after: Id)
      requires forall i, j | 0 <= i < j < |rpcs| && rpcs[i] != null :: rpcs[i] != rpcs[j]
      requires this !in rpcs && forall k | k in children :: k <= total
      modifies this`children, set i | 0 <= i < |rpcs| && rpcs[i] != null :: rpcs[i]
      ensures var kids := Present(rpcs);
              && after == total + |kids|
              && (forall k | 0 <= k < |kids| :: kids[k].id == total + 1 + k && kids[k].parent == this
                                                && total + 1 + k in children && children[total + 1 + k] == kids[k])
              && (forall k :: k in children <==> k in old(children) || total < k <= after)
              && (forall k | k in old(children) :: children[k] == old(children[k]))
      ensures forall r: AsyncRPC | r in rpcs :: r.children == old(r.children) && r.timeoutms == old(r.timeoutms)
    {
      hide Present;
      after := total;
      NonePresent(rpcs);
      for i := 0 to |rpcs|
        invariant after == total + |Present(rpcs[..i])|
        invariant forall k | 0 <= k < |Present(rpcs[..i])| ::
                    var c := Present(rpcs[..i])[k];
                    c.id == total + 1 + k && c.parent == this && total + 1 + k in children && children[total + 1 + k] == c
        invariant forall k :: k in children <==> k in old(children) || total < k <= after
        invariant forall k | k in old(children) :: children[k] == old(children[k])
        invariant forall r: AsyncRPC | r in rpcs :: r.children == old(r.children) && r.timeoutms == old(r.timeoutms)
      {
        PresentSnoc(rpcs, i);
        var rpc := rpcs[i];
        if rpc != null {
          PresentOther(rpcs, i);
          after := after + 1;
          rpc.id := after;
          children := children[rpc.id := rpc];
          rpc.parent := this;
        }
      }
      assert rpcs[..|rpcs|] == rpcs;
    }
  }

  /** The entries of a list that are not null. */
  function Present(rpcs: seq<AsyncRPC?>): seq<AsyncRPC> {
    if rpcs == [] then [] else
      var last := rpcs[|rpcs| - 1];
      Present(rpcs[..|rpcs| - 1]) + if last != null then [last] else []
  }

  lemma NonePresent(rpcs: seq<AsyncRPC?>)
    ensures Present(rpcs[..0]) == []
  {
  }

  lemma PresentSnoc(rpcs: seq<AsyncRPC?>, i: nat)
    requires i < |rpcs|
    ensures Present(rpcs[..i + 1]) == Present(rpcs[..i]) + if rpcs[i] != null then [rpcs[i]] else []
  {
    assert rpcs[..i + 1][..i] == rpcs[..i];
  }

  lemma PresentOther(rpcs: seq<AsyncRPC?>, i: nat)
    requires forall i, j | 0 <= i < j < |rpcs| && rpcs[i] != null :: rpcs[i] != rpcs[j]
    requires i < |rpcs|
    ensures forall k | 0 <= k < |Present(rpcs[..i])| :: Present(rpcs[..i])[k] != rpcs[i]
  {
    PresentIn(rpcs[..i]);
    var kids := Present(rpcs[..i]);
    forall k | 0 <= k < |kids| ensures kids[k] != rpcs[i] {
      assert kids[k] in kids;
      var j :| 0 <= j < i && rpcs[..i][j] == kids[k];
      assert rpcs[j] == kids[k];
    }
  }

  lemma PresentIn(rpcs: seq<AsyncRPC?>)
    ensures forall c | c in Present(rpcs) :: c in rpcs
  {
  }

  // ---------------------------------------------------------------- configurations with one outcome

  /** d is a later configuration of the run from c, which ends well. */
  ghost predicate LeadsTo(c: Config, d: Config) {
    && c.Config? && d.Config? && Inv(c) && Inv(d)
    && RunToEnd(d) == RunToEnd(c) && RunToEnd(c).Config?
    && Less(d, c)
  }

  lemma StepLeadsTo(c: Config)
    requires c.Config? && Inv(c) && c.stack != [] && RunToEnd(c).Config?
    ensures FramesInForest(c) && LeadsTo(c, Step(c))
  {
    hide Life, Stack, Books, Shape, Step, FramesInForest;
    InvReady(c);
    OneStep(c);
    if Step(c).Broken? {
      BrokenEnds();
    }
    StepDescends(c);
  }

  lemma LeadsToTrans(c: Config, d: Config, e: Config)
    requires LeadsTo(c, d) && LeadsTo(d, e)
    ensures LeadsTo(c, e)
  {
    hide Inv, RunToEnd;
  }

  method FirstKey(keys: set<Id>) returns (k: Id)
    requires keys != {}
    ensures k in keys && k == First(keys)
  {
    FirstExists(keys);
    k :| k in keys && IsFirst(keys, k);
  }

  /** The keys in the order in which a std::map is iterated. */
  method KeysInOrder(keys: set<Id>) returns (ks: seq<Id>)
    ensures ks == Sorted(keys)
  {
    hide Sorted, First, IsFirst;
    ks := [];
    var left := keys;
    SortedEmpty();
    assert [] + Sorted(keys) == Sorted(keys);
    while left != {}
      invariant ks + Sorted(left) == Sorted(keys)
      decreases |left|
    {
      var k := FirstKey(left);
      SortedNext(ks, left, k);
      ks, left := ks + [k], left - {k};
    }
    assert ks + [] == ks;
  }

  lemma SortedNext(ks: seq<Id>, left: set<Id>, k: Id)
    requires k in left && k == First(left)
    ensures (ks + [k]) + Sorted(left - {k}) == ks + Sorted(left)
  {
    hide Sorted, First, IsFirst;
    SortedFirst(left, k);
    Associates(ks, [k], Sorted(left - {k}));
  }

  lemma Associates(a: seq<Id>, b: seq<Id>, c: seq<Id>)
    ensures (a + b) + c == a + (b + c)
  {
  }

  lemma SortedEmpty()
    ensures Sorted({}) == []
  {
  }

  lemma SortedFirst(cs: set<Id>, k: Id)
    requires k in cs && k == First(cs)
    ensures Sorted(cs) == [k] + Sorted(cs - {k})
  {
  }

  /** Pointers and ids agree. */
  ghost predicate LinkedTo(rpcs: map<Id, AsyncRPC>, nodes: map<Id, Node>)
    reads rpcs.Values
  {
    && nodes.Keys == rpcs.Keys
    && (forall x | x in rpcs ::
          var r := rpcs[x];
          && r.id == x && r.kind == nodes[x].kind && r.createtime == nodes[x].created
          && (nodes[x].parent.None? ==> r.parent == null))
    && (forall p, x | Kid(nodes, p, x) && x in rpcs :: p in rpcs && rpcs[x].parent == rpcs[p])
    && (forall x, k | x in rpcs && k in rpcs[x].children :: k in rpcs && rpcs[x].children[k] == rpcs[k])
  }

  /** Trees that are ready to be submitted: nobody has left its parent's map, no timeout has been changed. */
  ghost predicate Built(rpcs: map<Id, AsyncRPC>, nodes: map<Id, Node>, height: nat)
    reads rpcs.Values
  {
    && LinkedTo(rpcs, nodes) && Forest(nodes, height)
    && (forall p, c | p in rpcs :: c in rpcs[p].children <==> Kid(nodes, p, c))
    && (forall x | x in rpcs :: x in nodes && rpcs[x].timeoutms == nodes[x].limit)
  }

  class AsyncRPCScheduler {
    var queue_ready: map<Id, AsyncRPC>
    var queue_wait: map<Id, AsyncRPC>
    var wait_by_time: seq<(int, Id)>
    var rpc_requested: nat
    var rpc_called: nat
    var rpc_timeouted: nat
    var rpc_canceled: nat

    ghost var log: seq<Event>
    ghost var past: Past
    ghost const rpcs: map<Id, AsyncRPC>
    ghost const nodes: map<Id, Node>
    ghost const height: nat

    ghost function Children(): map<Id, set<Id>>
      reads rpcs.Values
    {
      map x | x in rpcs :: rpcs[x].children.Keys
    }

    ghost function Timeouts(): map<Id, nat>
      reads rpcs.Values
    {
      map x | x in rpcs :: rpcs[x].timeoutms
    }

    /** The state of the model that the objects stand for. */
    ghost function S(): State
      reads this, rpcs.Values
    {
      State(nodes, height, Children(), Timeouts(), queue_ready.Keys, queue_wait.Keys, wait_by_time,
            Stats(rpc_requested, rpc_called, rpc_timeouted, rpc_canceled), log, past)
    }

    ghost predicate Linked()
      reads rpcs.Values
    {
      LinkedTo(rpcs, nodes)
    }

    ghost predicate Queued()
      reads this
    {
      && (forall k | k in queue_ready :: k in rpcs && queue_ready[k] == rpcs[k])
      && (forall k | k in queue_wait :: k in rpcs && queue_wait[k] == rpcs[k])
    }

    ghost predicate Tied()
      reads this, rpcs.Values
    {
      Linked() && Queued()
    }

    /** The heap is in configuration c, in the middle of a run that ends well. */
    ghost predicate Ready(c: Config)
      reads this, rpcs.Values
    {
      Tied() && c.Config? && c.s == S() && Inv(c) && RunToEnd(c).Config?
    }

    /** A scheduler for trees that have been built; nothing is submitted yet. */
    constructor (ghost rpcs: map<Id, AsyncRPC>, ghost nodes: map<Id, Node>, ghost height: nat)
      requires Built(rpcs, nodes, height)
      ensures this.rpcs == rpcs && this.nodes == nodes && this.height == height
      ensures Tied() && S() == Initial(nodes, height) && Quiet(S())
    {
      hide Forest, Initial, Quiet, Children, Timeouts, LinkedTo;
      queue_ready, queue_wait, wait_by_time := map[], map[], [];
      rpc_requested, rpc_called, rpc_timeouted, rpc_canceled := 0, 0, 0, 0;
      log, past := [], Never;
      this.rpcs, this.nodes, this.height := rpcs, nodes, height;
      new;
      InitialIs();
      InitialQuiet(nodes, height);
    }

    lemma InitialIs()
      requires Built(rpcs, nodes, height) && queue_ready == queue_wait == map[] && wait_by_time == [] && log == [] && past == Never
      requires rpc_requested == rpc_called == rpc_timeouted == rpc_canceled == 0
      ensures S() == Initial(nodes, height)
    {
      hide Forest;
      assert Children() == Initial(nodes, height).children by {
        forall p | p in rpcs ensures rpcs[p].children.Keys == set c | c in nodes && Kid(nodes, p, c) {
        }
      }
      assert Timeouts() == Initial(nodes, height).timeout;
    }

    lemma LinkedAt(x: Id)
      requires Linked() && x in rpcs
      ensures var r := rpcs[x];
              && r.id == x && x in nodes && r.kind == nodes[x].kind && r.createtime == nodes[x].created
              && (nodes[x].parent.None? <==> r.parent == null)
              && (forall p | Kid(nodes, p, x) :: p in rpcs && r.parent == rpcs[p])
              && x in Children() && Children()[x] == r.children.Keys && Timeouts()[x] == r.timeoutms
              && forall k | k in r.children :: k in rpcs && r.children[k] == rpcs[k]
    {
      if nodes[x].parent.Some? {
        assert Kid(nodes, nodes[x].parent.value, x);
      }
    }

    lemma LinkedKeys()
      requires Linked()
      ensures nodes.Keys == rpcs.Keys
    {
    }

    /** Only the map of p has changed. */
    twostate lemma ChildrenNow(p: AsyncRPC)
      requires old(Linked()) && p.id in rpcs && rpcs[p.id] == p
      requires forall x | x in rpcs :: rpcs[x].id == x && rpcs[x].timeoutms == old(rpcs[x].timeoutms)
      requires forall x | x in rpcs && x != p.id :: rpcs[x].children == old(rpcs[x].children)
      ensures Children() == old(Children())[p.id := p.children.Keys] && Timeouts() == old(Timeouts())
    {
    }

    /** Only the timeout of p has changed. */
    twostate lemma TimeoutsNow(p: AsyncRPC)
      requires old(Linked()) && p.id in rpcs && rpcs[p.id] == p
      requires forall x | x in rpcs :: rpcs[x].id == x && rpcs[x].children == old(rpcs[x].children)
      requires forall x | x in rpcs && x != p.id :: rpcs[x].timeoutms == old(rpcs[x].timeoutms)
      ensures Children() == old(Children()) && Timeouts() == old(Timeouts())[p.id := p.timeoutms]
    {
    }

    /** Children that are gone leave the pointers right. */
    twostate lemma LinkedStill(p: AsyncRPC)
      requires old(Linked()) && p.id in rpcs && rpcs[p.id] == p
      requires forall x | x in rpcs :: rpcs[x].id == x && rpcs[x].parent == old(rpcs[x].parent)
      requires forall x | x in rpcs && x != p.id :: rpcs[x].children == old(rpcs[x].children)
      requires p.children.Keys <= old(p.children.Keys) && forall k | k in p.children :: p.children[k] == old(p.children[k])
      ensures Linked()
    {
    }

    twostate lemma QueuedStill()
      requires old(Queued()) && queue_ready == old(queue_ready) && queue_wait == old(queue_wait)
      ensures Queued()
    {
    }

    lemma IdsAre()
      requires Linked()
      ensures forall x | x in rpcs :: rpcs[x].id == x
    {
    }

    /** Into queue_wait_ and, with a finite timeout, into wait_by_time_. */
    method Enter(rpc: AsyncRPC)
      requires Tied() && rpc.id in rpcs && rpcs[rpc.id] == rpc && Shape(S())
      modifies this`queue_wait, this`wait_by_time, this`log, this`past
      ensures Tied() && S() == Enqueue(old(S()), rpc.id)
    {
      hide Shape, Linked, Children, Timeouts, Insert, Add;
      LinkedAt(rpc.id);
      queue_wait := queue_wait[rpc.id := rpc];
      if rpc.timeoutms != INFINITE {
        wait_by_time := Insert(wait_by_time, (rpc.createtime, rpc.id));
      }
      log, past := log + [Event(Requested, rpc.id, {})], Add(past, Event(Requested, rpc.id, {}));
    }

    method CountRequested()
      requires Tied()
      modifies this`rpc_requested
      ensures Tied() && S() == old(S()).(stats := old(S()).stats.(requested := old(S()).stats.requested + 1))
    {
      hide Linked, Queued, Children, Timeouts;
      rpc_requested := rpc_requested + 1;
      QueuedStill();
    }

    /** triggerRequest */
    method TriggerRequest(rpc: AsyncRPC, ghost c: Config, ghost rest: seq<Frame>)
      requires Ready(c) && c.stack == [Request(rpc.id)] + rest
      requires rpc.id in rpcs && rpcs[rpc.id] == rpc
      modifies this, rpcs.Values
      ensures Ready(Config(S(), rest)) && LeadsTo(c, Config(S(), rest))
      decreases Unrequested(c), Uncalled(c), Weight(c.stack), 2
    {
      hide Inv, RunToEnd, Less, LeadsTo, Step, FramesInForest, Weight, Enqueue, RequestFrames, S, Tied;
      ghost var r := rpc.id;
      StepLeadsTo(c);
      TopRequest(c, r, rest);
      EnqueueIs(c.s, r, rest);
      Enter(rpc);
      LeadsToReady(c, Step(c));
      DoRequest(rpc, c, rest);
      ghost var d := Config(S(), [Counted(r)] + rest);
      StepLeadsTo(d);
      CountedIs(d.s, r, rest);
      CountRequested();
      LeadsToTrans(c, d, Step(d));
      LeadsToReady(c, Step(d));
    }

    /** request() of a leaf, SerialsCallBack::request or ParallelCallBack::request. */
    method DoRequest(rpc: AsyncRPC, ghost c: Config, ghost rest: seq<Frame>)
      requires c.Config? && Inv(c) && FramesInForest(c) && c.stack == [Request(rpc.id)] + rest
      requires rpc.id in rpcs && rpcs[rpc.id] == rpc && rpc.id in c.s.nodes && Shape(c.s)
      requires Ready(Step(c)) && LeadsTo(c, Step(c))
      requires Step(c) == Config(Enqueue(c.s, rpc.id), RequestFrames(c.s, rpc.id) + [Counted(rpc.id)] + rest)
      modifies this, rpcs.Values
      ensures Ready(Config(S(), [Counted(old(rpc.id))] + rest)) && LeadsTo(c, Config(S(), [Counted(old(rpc.id))] + rest))
      decreases Unrequested(c), Uncalled(c), Weight(c.stack), 1
    {
      hide Inv, RunToEnd, LeadsTo, Step, FramesInForest, Weight, Enqueue, Linked, Queued, Shape, Children, Timeouts, RequestFrames,
           Unrequested, Uncalled, Sorted;
      LinkedAt(rpc.id);
      EnqueueIs(c.s, rpc.id, rest);
      RequestFramesIs(c.s, rpc.id, rest);
      var id := rpc.id;
      ghost var d, after := Step(c), [Counted(id)] + rest;
      LeadsToReady(c, d);
      match rpc.kind {
        case Leaf(immediate) =>
          if immediate {
            TriggerCallById(id, d, after);
            LeadsToTrans(c, d, Config(S(), after));
          }
        case Serial =>
          if rpc.children != map[] {
            var first := FirstKey(rpc.children.Keys);
            LinkedAt(first);
            TriggerRequest(rpc.children[first], d, after);
            LeadsToTrans(c, d, Config(S(), after));
          }
        case Parallel =>
          var ks := KeysInOrder(rpc.children.Keys);
          RequestAll(rpc, ks, d, after);
          LeadsToTrans(c, d, Config(S(), after));
      }
    }

    /** The loop of ParallelCallBack::request. */
    method RequestAll(rpc: AsyncRPC, ks: seq<Id>, ghost c: Config, ghost rest: seq<Frame>)
      requires Ready(c) && c.stack == [Loop(Some(rpc.id), ks)] + rest
      requires rpc.id in rpcs && rpcs[rpc.id] == rpc
      modifies this, rpcs.Values
      ensures Ready(Config(S(), rest)) && LeadsTo(c, Config(S(), rest))
      decreases Unrequested(c), Uncalled(c), Weight(c.stack), 2
    {
      hide Inv, RunToEnd, LeadsTo, Step, FramesInForest, Weight, Linked, Queued, Shape, Children, Timeouts,
           Unrequested, Uncalled, Sorted;
      ghost var o := Some(rpc.id);
      ghost var cur := c;
      assert ks[0..] == ks;
      for i := 0 to |ks|
        invariant Ready(cur) && cur.stack == [Loop(o, ks[i..])] + rest
        invariant cur == c || LeadsTo(c, cur)
      {
        LoopStep(cur, o, ks[i..], rest);
        LinkedAt(o.value);
        ghost var more := [Loop(o, ks[i + 1..])] + rest;
        ghost var d := Step(cur);
        assert ks[i..][1..] == ks[i + 1..];
        LoopTrans(c, cur, d);
        LeadsToReady(c, d);
        LinkedAt(ks[i]);
        TriggerRequest(rpc.children[ks[i]], d, more);
        LeadsToTrans(c, d, Config(S(), more));
        cur := Config(S(), more);
      }
      assert ks[|ks|..] == [];
      LoopStep(cur, o, [], rest);
      LoopTrans(c, cur, Step(cur));
      LeadsToReady(c, Step(cur));
    }

    /** triggerCall(id, data): the lookup in queue_wait_. */
    method TriggerCallById(id: Id, ghost c: Config, ghost rest: seq<Frame>)
      requires Ready(c) && c.stack == [CallById(id)] + rest
      modifies this, rpcs.Values
      ensures Ready(Config(S(), rest)) && LeadsTo(c, Config(S(), rest))
      decreases Unrequested(c), Uncalled(c), Weight(c.stack), 2
    {
      hide Inv, RunToEnd, LeadsTo, Step, FramesInForest, Weight, Linked, Shape, Children, Timeouts,
           Unrequested, Uncalled, Sorted, Less;
      if id in queue_wait {
        LinkedAt(id);
        TriggerCall(queue_wait[id], c, rest);
      } else {
        MissStep(c, id, rest);
        LeadsToReady(c, Step(c));
      }
    }

    /** called(data) and its count. */
    method Called(rpc: AsyncRPC)
      requires Tied()
      modifies this`rpc_called, this`log, this`past
      ensures Tied() && S() == Reply(old(S()), rpc.id)
    {
      hide Linked, Children, Timeouts, Add;
      log, past := log + [Event(EventKind.Called, rpc.id, {})], Add(past, Event(EventKind.Called, rpc.id, {}));
      rpc_called := rpc_called + 1;
    }

    method EraseWait(id: Id)
      requires Tied()
      modifies this`queue_wait
      ensures Tied() && S() == old(S()).(wait := old(S()).wait - {id})
    {
      hide Linked, Children, Timeouts;
      queue_wait := queue_wait - {id};
    }

    /** triggerCall(rpc, data) */
    method TriggerCall(rpc: AsyncRPC, ghost c: Config, ghost rest: seq<Frame>)
      requires Ready(c) && c.stack == [CallById(rpc.id)] + rest
      requires rpc.id in queue_wait && rpc.id in rpcs && rpcs[rpc.id] == rpc
      modifies this, rpcs.Values
      ensures Ready(Config(S(), rest)) && LeadsTo(c, Config(S(), rest))
      decreases Unrequested(c), Uncalled(c), Weight(c.stack), 1
    {
      hide Inv, RunToEnd, LeadsTo, Step, FramesInForest, Weight, Linked, Shape, Children, Timeouts,
           Unrequested, Uncalled, Sorted, Less, Reply, Answered, AnsweredFrames;
      var id := rpc.id;
      HitStep(c, id, rest);
      LeadsToReady(c, Step(c));
      LinkedAt(id);
      if c.s.nodes[id].parent.Some? {
        LinkedAt(c.s.nodes[id].parent.value);
      }
      Called(rpc);
      if rpc.parent != null {
        ChildCalled(rpc.parent, id, c, rest);
      }
      ghost var d := Config(S(), [Erase(id)] + rest);
      EraseStep(d, id, rest);
      EraseWait(id);
      LeadsToTrans(c, d, Step(d));
      LeadsToReady(c, Step(d));
    }

    /** children.erase(x) of p. */
    method EraseChild(p: AsyncRPC, x: Id)
      requires Tied() && p.id in rpcs && rpcs[p.id] == p
      modifies p`children
      ensures Tied() && p.id in old(S()).children && S() == Erased(old(S()), p.id, x)
    {
      hide Linked, Queued, Children, Timeouts;
      LinkedAt(p.id);
      IdsAre();
      p.children := p.children - {x};
      ChildrenNow(p);
      LinkedStill(p);
      QueuedStill();
    }

    /** SerialsCallBack::childCalled and ParallelCallBack::childCalled. */
    method ChildCalled(p: AsyncRPC, x: Id, ghost c: Config, ghost rest: seq<Frame>)
      requires c.Config? && c.stack == [CallById(x)] + rest && Inv(c) && RunToEnd(c).Config? && Shape(c.s)
      requires x in c.s.nodes && Kid(c.s.nodes, p.id, x) && p.id in rpcs && rpcs[p.id] == p && x in c.s.wait
      requires Tied() && S() == Reply(c.s, x)
      requires FramesInForest(c) && LeadsTo(c, Step(c)) && Step(c) == Config(Answered(c.s, x), AnsweredFrames(c.s, x) + rest)
      modifies this, rpcs.Values
      ensures Ready(Config(S(), [Erase(x)] + rest)) && LeadsTo(c, Config(S(), [Erase(x)] + rest))
      decreases Unrequested(c), Uncalled(c), Weight(c.stack), 0
    {
      hide Inv, RunToEnd, LeadsTo, Step, FramesInForest, Weight, Linked, Shape, Children, Timeouts,
           Unrequested, Uncalled, Sorted, Reply, Answered, AnsweredFrames, Queued, Erased;
      ghost var after := [Erase(x)] + rest;
      var id := p.id;
      AnsweredChild(c, id, x, rest);
      LeadsToReady(c, Step(c));
      LinkedAt(id);
      if p.kind.Serial? {
        var first := FirstKey(p.children.Keys);
        if first == x {
          EraseChild(p, x);
          LinkedAt(id);
          if p.children != map[] {
            var next := FirstKey(p.children.Keys);
            LinkedAt(next);
            TriggerRequest(p.children[next], Step(c), [CheckEmpty(id)] + after);
            LeadsToTrans(c, Step(c), Config(S(), [CheckEmpty(id)] + after));
          }
        }
      } else {
        if x in p.children {
          EraseChild(p, x);
        }
      }
      ghost var d := Config(S(), [CheckEmpty(id)] + after);
      CheckStep(d, id, after);
      LeadsToTrans(c, d, Step(d));
      LeadsToReady(c, Step(d));
      LinkedAt(id);
      if p.children == map[] {
        TriggerCallById(id, Step(d), after);
        LeadsToTrans(c, Step(d), Config(S(), after));
      }
    }

    /** canceled() of x: its children are canceled and its map is cleared. */
    method Canceled(rpc: AsyncRPC)
      requires Tied() && Shape(S()) && rpc.id in rpcs && rpcs[rpc.id] == rpc && rpc.id in nodes
      modifies this, rpcs.Values
      ensures Tied() && S() == Swept(old(S()), old(rpc.id))
      decreases height + 1 - nodes[rpc.id].depth, 0
    {
      hide Linked, Children, Timeouts, Shape, Queued, Cancel, Below, Reached, Sorted;
      var id := rpc.id;
      LinkedAt(id);
      ghost var s := S();
      var ks := KeysInOrder(rpc.children.Keys);
      CancelNone(s);
      for i := 0 to |ks|
        invariant Tied() && S() == Cancel(s, Reached(s, ks[..i]))
      {
        CancelNext(s, id, ks, i);
        LinkedAt(id);
        LinkedAt(ks[i]);
        TriggerCancel(rpc.children[ks[i]]);
      }
      assert ks[..|ks|] == ks;
      ReachedAll(s, id);
      LinkedAt(id);
      ClearChildren(rpc);
    }

    method ClearChildren(p: AsyncRPC)
      requires Tied() && p.id in rpcs && rpcs[p.id] == p
      modifies p`children
      ensures Tied() && S() == old(S()).(children := old(S()).children[old(p.id) := {}])
    {
      hide Linked, Queued, Children, Timeouts;
      LinkedAt(p.id);
      IdsAre();
      p.children := map[];
      ChildrenNow(p);
      LinkedStill(p);
      QueuedStill();
      assert p.children.Keys == {};
    }

    /** triggerCancel */
    method TriggerCancel(rpc: AsyncRPC)
      requires Tied() && Shape(S()) && rpc.id in rpcs && rpcs[rpc.id] == rpc && rpc.id in nodes
      modifies this, rpcs.Values
      ensures Tied() && S() == Cancel(old(S()), Below(old(S()), old(rpc.id)) + {old(rpc.id)})
      decreases height + 1 - nodes[rpc.id].depth, 1
    {
      hide Linked, Children, Timeouts, Shape, Below;
      var id := rpc.id;
      ghost var s := S();
      Canceled(rpc);
      SweptOne(s, id);
      rpc_canceled := rpc_canceled + 1;
      queue_wait := queue_wait - {id};
    }

    /** childTimeouted: the parent will time out at the next tick. */
    method HurryParent(rpc: AsyncRPC)
      requires Tied() && rpc.id in rpcs && rpcs[rpc.id] == rpc && rpc.id in nodes
      modifies rpcs.Values
      ensures Tied() && rpc.id == old(rpc.id) && S() == Hurry(old(S()), rpc.id)
    {
      hide Linked, Queued, Children, Timeouts;
      LinkedAt(rpc.id);
      IdsAre();
      if rpc.parent != null {
        ghost var p := nodes[rpc.id].parent.value;
        assert Kid(nodes, p, rpc.id);
        LinkedAt(p);
        rpc.parent.timeoutms := 0;
        TimeoutsNow(rpcs[p]);
        LinkedStill(rpcs[p]);
        QueuedStill();
      }
    }

    /** The callback of timeouted() in the log, and its count. */
    method CountTimeouted(ghost e: Event)
      requires Tied()
      modifies this`rpc_timeouted, this`log, this`past
      ensures Tied() && S() == TimeoutCounted(old(S()), e)
    {
      hide Linked, Children, Timeouts, Add;
      log, past := log + [e], Add(past, e);
      rpc_timeouted := rpc_timeouted + 1;
    }

    /** triggerTimeout */
    method TriggerTimeout(rpc: AsyncRPC)
      requires Tied() && Shape(S()) && rpc.id in rpcs && rpcs[rpc.id] == rpc && rpc.id in nodes
      modifies this, rpcs.Values
      ensures Tied() && S() == Timeout(old(S()), old(rpc.id))
    {
      hide Linked, Queued, Children, Timeouts, Shape, Below, Cancel, Add, Swept, Timeout, TimeoutCounted, Hurry;
      var id := rpc.id;
      ghost var s := S();
      LinkedAt(id);
      if rpc.kind.Leaf? {
        LeafSwept(s, id);
      } else {
        Canceled(rpc);
      }
      CountTimeouted(Event(Timeouted, id, Below(s, id)));
      TimeoutFrom(s, id);
      LinkedAt(id);
      HurryParent(rpc);
      EraseWait(id);
    }

    /** call, callBySerials, callByParallel: the tree's root goes into the ready queue. */
    method Call(rpc: AsyncRPC)
      requires Tied() && Quiet(S()) && rpc.id in rpcs && rpcs[rpc.id] == rpc && CanSubmit(S(), rpc.id)
      modifies this`queue_ready
      ensures Tied() && Config(S(), []) == Apply(old(S()), Submit(old(rpc.id)))
    {
      hide Linked, Children, Timeouts, Inv;
      queue_ready := queue_ready[rpc.id := rpc];
    }

    /** A reply arrives. */
    method OnReply(id: Id)
      requires Tied() && Quiet(S()) && Apply(S(), Answer(id)).Config?
      modifies this, rpcs.Values
      ensures Tied() && Config(S(), []) == Apply(old(S()), Answer(id))
    {
      hide Linked, Children, Timeouts, Inv, RunToEnd, LeadsTo, Add;
      AnswerInv(S(), id);
      if id in queue_wait {
        log, past := log + [Event(Replied, id, {})], Add(past, Event(Replied, id, {}));
      }
      ghost var c := Config(S(), [CallById(id)]);
      assert c.stack == [CallById(id)] + [];
      TriggerCallById(id, c, []);
      LeadsToEnd(c, S());
    }

    /** run() */
    method Run(now: int)
      requires Tied() && Quiet(S()) && Apply(S(), Op.Run(now)).Config?
      modifies this, rpcs.Values
      ensures Tied() && Config(S(), []) == Apply(old(S()), Op.Run(now))
    {
      hide Linked, Children, Timeouts, Inv, RunToEnd, LeadsTo, Shape, Sorted, Scan, Apply;
      ghost var s := S();
      QuietShape(s);
      ApplyRun(s, now);
      CheckTimeouts(now);
      // The source clears the ready queue after the loop; the lock it holds meanwhile keeps everybody else out.
      var ready := queue_ready;
      queue_ready := map[];
      var ks := KeysInOrder(ready.Keys);
      ghost var c := Config(S(), [Loop(None, ks)]);
      assert c == Config(Scan(s, 0, now).(ready := {}), [Loop(None, Sorted(Scan(s, 0, now).ready))]);
      assert c.stack == [Loop(None, ks)] + [];
      RunReady(ready, ks, c);
      LeadsToEnd(c, S());
    }

    /** The loop over queue_ready_. */
    method RunReady(ready: map<Id, AsyncRPC>, ks: seq<Id>, ghost c: Config)
      requires Ready(c) && c.stack == [Loop(None, ks)] + []
      requires forall k | k in ready :: k in rpcs && ready[k] == rpcs[k]
      requires forall k | k in ks :: k in ready
      modifies this, rpcs.Values
      ensures Ready(Config(S(), [])) && LeadsTo(c, Config(S(), []))
    {
      hide Inv, RunToEnd, LeadsTo, Step, FramesInForest, Weight, Linked, Queued, Shape, Children, Timeouts,
           Unrequested, Uncalled, Sorted;
      ghost var cur := c;
      assert ks[0..] == ks;
      for i := 0 to |ks|
        invariant Ready(cur) && cur.stack == [Loop(None, ks[i..])] + []
        invariant cur == c || LeadsTo(c, cur)
      {
        LoopStep(cur, None, ks[i..], []);
        ghost var more := [Loop(None, ks[i + 1..])] + [];
        ghost var d := Step(cur);
        assert ks[i..][1..] == ks[i + 1..];
        LoopTrans(c, cur, d);
        LeadsToReady(c, d);
        LinkedAt(ks[i]);
        TriggerRequest(ready[ks[i]], d, more);
        LeadsToTrans(c, d, Config(S(), more));
        cur := Config(S(), more);
      }
      assert ks[|ks|..] == [];
      LoopStep(cur, None, [], []);
      LoopTrans(c, cur, Step(cur));
      LeadsToReady(c, Step(cur));
    }

    /** The timeout loop of run(). */
    method CheckTimeouts(now: int)
      requires Tied() && Quiet(S()) && Shape(S())
      modifies this, rpcs.Values
      ensures Tied() && S() == Scan(old(S()), 0, now)
    {
      hide Linked, Children, Timeouts, Inv, Shape, ScanAt;
      ghost var s := S();
      var i := 0;
      while i < |wait_by_time|
        invariant i <= |wait_by_time| && Tied() && Quiet(S()) && Shape(S()) && Scan(S(), i, now) == Scan(s, 0, now)
        decreases |wait_by_time| - i
      {
        ghost var t := S();
        ScanAtQuiet(t, i, now);
        ScanAtShape(t, i, now);
        ScanAtIs(t, i, now);
        var removed := CheckOne(i, now);
        if !removed {
          i := i + 1;
        }
      }
    }

    /** wait_by_time_.erase */
    method DropEntry(i: nat)
      requires Tied() && i < |wait_by_time|
      modifies this`wait_by_time
      ensures Tied() && S() == old(S()).(index := Without(old(wait_by_time), i))
    {
      hide Linked, Queued, Children, Timeouts;
      wait_by_time := wait_by_time[..i] + wait_by_time[i + 1..];
      QueuedStill();
    }

    /** One entry of wait_by_time_: gone, due, or kept. */
    method CheckOne(i: nat, now: int) returns (removed: bool)
      requires Tied() && Shape(S()) && i < |wait_by_time|
      modifies this, rpcs.Values
      ensures Tied() && S() == ScanAt(old(S()), i, now)
      ensures removed <==> |S().index| < |old(S()).index|
    {
      hide Linked, Children, Timeouts, Shape, Timeout;
      ghost var s := S();
      var id := wait_by_time[i].1;
      IndexNode(s, i);
      LinkedKeys();
      LinkedAt(id);
      TimeoutIs(s, id);
      removed := true;
      if id in queue_wait {
        var rpc := queue_wait[id];
        if now - rpc.createtime >= rpc.timeoutms {
          TriggerTimeout(rpc);
          DropEntry(i);
        } else {
          removed := false;
        }
      } else {
        DropEntry(i);
      }
    }
  }

  lemma IndexNode(s: State, i: nat)
    requires Shape(s) && i < |s.index|
    ensures s.index[i].1 in s.nodes && s.timeout.Keys == s.nodes.Keys
  {
    assert s.index[i] in s.index;
  }

  lemma LeadsToEnd(c: Config, s: State)
    requires LeadsTo(c, Config(s, []))
    ensures RunToEnd(c) == Config(s, [])
  {
    hide Inv;
  }

  lemma LeafSwept(s: State, x: Id)
    requires Shape(s) && x in s.nodes && s.nodes[x].kind.Leaf?
    ensures Swept(s, x) == s
  {
    assert forall c | c in s.children[x] :: Kid(s.nodes, x, c);
    assert s.children[x] == {};
    forall y | y in s.nodes ensures !Under(s, x, y) {
      LeafUnder(s, x, y);
    }
    assert Below(s, x) == {};
  }

  lemma LeafUnder(s: State, x: Id, y: Id)
    requires Shape(s) && x in s.nodes && y in s.nodes && s.children[x] == {}
    ensures !Under(s, x, y)
    decreases s.nodes[y].depth
  {
    if s.nodes[y].parent.Some? {
      assert Kid(s.nodes, s.nodes[y].parent.value, y);
      LeafUnder(s, x, s.nodes[y].parent.value);
    }
  }

  function TimeoutCounted(s: State, e: Event): State {
    Log(s, e).(stats := s.stats.(timeouted := s.stats.timeouted + 1))
  }

  /** Timeout in the order of the source: cancel, count, tell the parent, erase. */
  lemma TimeoutFrom(s: State, x: Id)
    requires Shape(s) && x in s.nodes
    ensures var t := TimeoutCounted(Swept(s, x), Event(Timeouted, x, Below(s, x)));
            t.nodes == s.nodes && Timeout(s, x) == Hurry(t, x).(wait := Hurry(t, x).wait - {x})
  {
    hide Shape, Below, Add;
  }

  lemma ApplyRun(s: State, now: int)
    requires Quiet(s) && Shape(s)
    ensures var t := Scan(s, 0, now);
            Quiet(t) && Inv(Config(t.(ready := {}), [Loop(None, Sorted(t.ready))]))
            && Apply(s, Op.Run(now)) == RunToEnd(Config(t.(ready := {}), [Loop(None, Sorted(t.ready))]))
  {
    hide Inv, Shape, RunToEnd, Scan;
    ScanQuiet(s, 0, now);
    ReadyInv(Scan(s, 0, now));
  }

  /** The state after canceled() of x. */
  ghost function Swept(s: State, x: Id): State
    requires Shape(s) && x in s.nodes
  {
    var t := Cancel(s, Below(s, x));
    t.(children := t.children[x := {}])
  }

  lemma SweptOne(s: State, x: Id)
    requires Shape(s) && x in s.nodes
    ensures var t := Swept(s, x);
            t.(stats := t.stats.(canceled := t.stats.canceled + 1), wait := t.wait - {x}) == Cancel(s, Below(s, x) + {x})
  {
    hide Below, Cancel;
    NotBelowItself(s, x);
    CancelOne(s, Below(s, x), x);
  }

  lemma NotBelowItself(s: State, x: Id)
    requires Shape(s) && x in s.nodes
    ensures x !in Below(s, x)
  {
    if Under(s, x, x) {
      UnderDeeper(s, x, x);
    }
  }

  lemma CancelOne(s: State, ys: set<Id>, x: Id)
    requires x in s.children && x !in ys
    ensures var t := Cancel(s, ys);
            t.(children := t.children[x := {}], stats := t.stats.(canceled := t.stats.canceled + 1), wait := t.wait - {x})
            == Cancel(s, ys + {x})
  {
    assert |ys + {x}| == |ys| + 1;
    assert s.wait - ys - {x} == s.wait - (ys + {x});
  }

  lemma CancelNone(s: State)
    requires Shape(s)
    ensures Cancel(s, Reached(s, [])) == s
  {
    assert Reached(s, []) == {};
  }

  /** One more child, canceled after the ones before it. */
  lemma CancelNext(s: State, x: Id, ks: seq<Id>, i: nat)
    requires Shape(s) && x in s.nodes && ks == Sorted(s.children[x]) && i < |ks|
    ensures x in s.children && ks[i] in s.children[x] && Kid(s.nodes, x, ks[i])
    ensures s.nodes[ks[i]].depth == s.nodes[x].depth + 1 && s.nodes[ks[i]].depth <= s.height
    ensures var t := Cancel(s, Reached(s, ks[..i]));
            && Shape(t) && t.children[x] == s.children[x]
            && Cancel(t, Below(t, ks[i]) + {ks[i]}) == Cancel(s, Reached(s, ks[..i + 1]))
  {
    hide Shape, Cancel, Below, Reached, Sorted;
    ReachedNext(s, x, ks, i);
    ReachedDeeper(s, x, ks, i);
    CancelIs(s, Reached(s, ks[..i]), x);
    BelowStable(s, Reached(s, ks[..i]), ks[i]);
    DepthOf(s, x, ks[i]);
    CancelTwice(s, Reached(s, ks[..i]), Below(s, ks[i]) + {ks[i]});
  }

  lemma ReachedDeeper(s: State, x: Id, ks: seq<Id>, i: nat)
    requires Shape(s) && x in s.nodes && ks == Sorted(s.children[x]) && i <= |ks|
    ensures x in s.children
    ensures forall y | y in Reached(s, ks[..i]) :: y in s.nodes && s.nodes[y].depth > s.nodes[x].depth
  {
    forall y | y in Reached(s, ks[..i]) ensures s.nodes[y].depth > s.nodes[x].depth {
      var k :| k in ks[..i] && Within(s, k, y);
      assert k in s.children[x] && Kid(s.nodes, x, k);
      hide Sorted;
      if y != k {
        UnderDeeper(s, k, y);
      }
    }
  }

  lemma CancelIs(s: State, ys: set<Id>, x: Id)
    requires Shape(s) && x in s.children && (forall y | y in ys :: y in s.nodes && s.nodes[y].depth > s.nodes[x].depth)
    ensures Cancel(s, ys).children[x] == s.children[x]
  {
  }

  lemma DepthOf(s: State, p: Id, x: Id)
    requires Shape(s) && Kid(s.nodes, p, x)
    ensures p in s.nodes && s.nodes[x].depth == s.nodes[p].depth + 1 && s.nodes[x].depth <= s.height
  {
  }

  // ---------------------------------------------------------------- the steps, one by one

  lemma LoopStep(c: Config, o: Option<Id>, xs: seq<Id>, rest: seq<Frame>)
    requires c.Config? && Inv(c) && RunToEnd(c).Config? && c.stack == [Loop(o, xs)] + rest
    ensures FramesInForest(c) && LeadsTo(c, Step(c))
    ensures Step(c) == if xs == [] then Config(c.s, rest) else Config(c.s, [Request(xs[0])] + ([Loop(o, xs[1..])] + rest))
    ensures xs != [] && o.Some? ==> o.value in c.s.children && xs[0] in c.s.children[o.value] && xs[0] in c.s.nodes
  {
    hide Life, RunToEnd, LeadsTo, FramesInForest, Books, Erasing, Separate;
    StepLeadsTo(c);
    FramesRest(c.s, Loop(o, xs), rest);
    if xs != [] {
      assert xs[0] in xs;
      assert [Request(xs[0]), Loop(o, xs[1..])] + rest == [Request(xs[0])] + ([Loop(o, xs[1..])] + rest);
    }
  }

  lemma LoopTrans(c: Config, d: Config, e: Config)
    requires (d == c || LeadsTo(c, d)) && LeadsTo(d, e)
    ensures LeadsTo(c, e)
  {
    hide LeadsTo;
    if d != c {
      LeadsToTrans(c, d, e);
    }
  }

  lemma MissStep(c: Config, x: Id, rest: seq<Frame>)
    requires c.Config? && Inv(c) && RunToEnd(c).Config? && c.stack == [CallById(x)] + rest && x !in c.s.wait
    ensures FramesInForest(c) && LeadsTo(c, Step(c)) && Step(c) == Config(c.s, rest)
  {
    hide Life, RunToEnd, LeadsTo, FramesInForest, Books, Stack;
    StepLeadsTo(c);
  }

  lemma HitStep(c: Config, x: Id, rest: seq<Frame>)
    requires c.Config? && Inv(c) && RunToEnd(c).Config? && c.stack == [CallById(x)] + rest && x in c.s.wait
    ensures FramesInForest(c) && LeadsTo(c, Step(c)) && Shape(c.s) && x in c.s.nodes
    ensures c.s.nodes[x].parent.Some? ==> Kid(c.s.nodes, c.s.nodes[x].parent.value, x) && c.s.nodes[x].parent.value in c.s.nodes
    ensures Step(c) == Config(Answered(c.s, x), AnsweredFrames(c.s, x) + rest)
    ensures c.s.nodes[x].parent.None? ==> Step(c) == Config(Reply(c.s, x), [Erase(x)] + rest)
  {
    hide Life, RunToEnd, LeadsTo, FramesInForest, Books, Stack, Shape;
    StepLeadsTo(c);
    StepShape(c);
    WaitingIsNode(c.s, x);
    ShapeKeys(c.s);
    StepCall(c.s, x, rest);
    LeadsToReady(c, Step(c));
  }

  lemma AnsweredHere(c: Config, p: Id, x: Id, rest: seq<Frame>)
    requires c.Config? && c.stack == [CallById(x)] + rest && Inv(c) && Shape(c.s) && x in c.s.nodes && x in c.s.wait
    requires Kid(c.s.nodes, p, x)
    ensures p in c.s.nodes && p in c.s.children && x in c.s.children[p] && !c.s.nodes[p].kind.Leaf?
    ensures c.s.nodes[p].kind.Serial? ==> x == First(c.s.children[p])
  {
    hide Exclusive, History, Times, Pressed, Books, Separate, Frames, Erasing, First, IsFirst;
    NotCalledYet(c.s, x, rest);
    ReplyHits(c.s, x, p);
  }

  lemma AnsweredChild(c: Config, p: Id, x: Id, rest: seq<Frame>)
    requires c.Config? && c.stack == [CallById(x)] + rest && Inv(c) && Shape(c.s) && x in c.s.nodes && x in c.s.wait
    requires Kid(c.s.nodes, p, x) && FramesInForest(c)
    ensures p in c.s.nodes && p in c.s.children && x in c.s.children[p] && !c.s.nodes[p].kind.Leaf?
    ensures Answered(c.s, x) == Erased(Reply(c.s, x), p, x)
    ensures Reply(c.s, x).children == c.s.children && Reply(c.s, x).nodes == c.s.nodes
    ensures Answered(c.s, x).children[p] == c.s.children[p] - {x}
    ensures c.s.nodes[p].kind.Serial? ==> x == First(c.s.children[p])
    ensures var left, after := Answered(c.s, x).children[p], [CheckEmpty(p)] + ([Erase(x)] + rest);
            AnsweredFrames(c.s, x) + rest
            == if c.s.nodes[p].kind.Serial? && left != {} then [Request(First(left))] + after else after
  {
    hide Inv, FramesInForest, First, IsFirst;
    AnsweredHere(c, p, x, rest);
    if c.s.nodes[p].kind.Serial? {
      assert FirstRequest(Answered(c.s, x), p) + [CheckEmpty(p), Erase(x)] + rest
          == FirstRequest(Answered(c.s, x), p) + ([CheckEmpty(p)] + ([Erase(x)] + rest));
    }
  }

  lemma CheckStep(c: Config, p: Id, rest: seq<Frame>)
    requires c.Config? && Inv(c) && RunToEnd(c).Config? && c.stack == [CheckEmpty(p)] + rest
    ensures FramesInForest(c) && p in c.s.children && p in c.s.nodes && LeadsTo(c, Step(c))
    ensures Step(c) == Config(c.s, if c.s.children[p] == {} then [CallById(p)] + rest else rest)
  {
    hide Life, RunToEnd, LeadsTo, Books, Separate, Erasing;
    StepLeadsTo(c);
    FramesRest(c.s, CheckEmpty(p), rest);
  }

  lemma EraseStep(c: Config, x: Id, rest: seq<Frame>)
    requires c.Config? && Inv(c) && RunToEnd(c).Config? && c.stack == [Erase(x)] + rest
    ensures FramesInForest(c) && LeadsTo(c, Step(c)) && Step(c) == Config(c.s.(wait := c.s.wait - {x}), rest)
  {
    hide Life, RunToEnd, LeadsTo, FramesInForest, Books, Stack;
    StepLeadsTo(c);
  }

  /** What request() leaves on the stack. */
  lemma RequestFramesIs(s: State, r: Id, rest: seq<Frame>)
    requires Shape(s) && r in s.nodes
    ensures var after, all := [Counted(r)] + rest, RequestFrames(s, r) + [Counted(r)] + rest;
            match s.nodes[r].kind
            case Leaf(immediate) => all == if immediate then [CallById(r)] + after else after
            case Serial => all == if s.children[r] == {} then after else [Request(First(s.children[r]))] + after
            case Parallel => all == [Loop(Some(r), Sorted(s.children[r]))] + after
  {
    hide Shape, Sorted;
    ShapeKeys(s);
    var after := [Counted(r)] + rest;
    match s.nodes[r].kind {
      case Leaf(immediate) =>
        assert RequestFrames(s, r) == if immediate then [CallById(r)] else [];
        assert RequestFrames(s, r) + [Counted(r)] + rest == RequestFrames(s, r) + after;
      case Serial =>
        assert RequestFrames(s, r) == FirstRequest(s, r);
        assert RequestFrames(s, r) + [Counted(r)] + rest == RequestFrames(s, r) + after;
      case Parallel =>
        assert RequestFrames(s, r) + [Counted(r)] + rest == RequestFrames(s, r) + after;
    }
  }

  lemma ShapeKeys(s: State)
    requires Shape(s)
    ensures s.children.Keys == s.nodes.Keys && s.timeout.Keys == s.nodes.Keys && s.wait <= s.nodes.Keys
  {
  }

  lemma TopRequest(c: Config, r: Id, rest: seq<Frame>)
    requires Inv(c) && c.Config? && c.stack == [Request(r)] + rest
    ensures Shape(c.s) && FrameOk(c.s, Request(r)) && r in c.s.nodes
  {
    FramesRest(c.s, Request(r), rest);
  }

  lemma LeadsToReady(c: Config, d: Config)
    requires LeadsTo(c, d)
    ensures d.Config? && Inv(d) && RunToEnd(d).Config?
    ensures Less(d, c)
  {
    hide Inv, RunToEnd, Less;
  }

  lemma EnqueueIs(s: State, r: Id, rest: seq<Frame>)
    requires FramesInForest(Config(s, [Request(r)] + rest)) && r in s.nodes
    ensures Step(Config(s, [Request(r)] + rest)) == Config(Enqueue(s, r), RequestFrames(s, r) + [Counted(r)] + rest)
    ensures Enqueue(s, r) == Log(s, Event(Requested, r, {})).(
              wait := s.wait + {r},
              index := if s.timeout[r] != INFINITE then Insert(s.index, (s.nodes[r].created, r)) else s.index)
  {
  }

  lemma CountedIs(s: State, r: Id, rest: seq<Frame>)
    requires FramesInForest(Config(s, [Counted(r)] + rest))
    ensures Step(Config(s, [Counted(r)] + rest)) == Config(s.(stats := s.stats.(requested := s.stats.requested + 1)), rest)
  {
  }
}
