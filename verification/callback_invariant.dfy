/**
 What every step of the callback scheduler keeps, in the middle of a cascade as well as
 between calls: the life cycle of each RPC (Life) and what the call stack says about it (Stack).
 */
module CallbackInvariant {
  import opened Options
  import opened CallbackModel

  /** Neither requested nor canceled yet. */
  predicate Fresh(s: State, x: Id) {
    x !in s.past.requested && x !in s.past.canceled
  }

  // ---------------------------------------------------------------- the log

  /** Called excludes timeouted and canceled, and nothing happens to an RPC before it is requested but its cancel. */
  ghost predicate Exclusive(past: Past) {
    && past.called <= past.requested
    && past.timeouted <= past.requested
    && past.replied <= past.requested
    && past.called !! (past.timeouted + past.canceled)
  }

  /** A serial child is requested only after its parent, and after every child before it was called. */
  ghost predicate InOrder(nodes: map<Id, Node>, past: Past, e: Event) {
    e.kind == Requested && e.id in nodes && nodes[e.id].parent.Some? ==>
      var p := nodes[e.id].parent.value;
      && p in past.requested
      && (p in nodes && nodes[p].kind.Serial? ==> forall d: Id | Kid(nodes, p, d) && d < e.id :: d in past.called)
  }

  /** called() runs because of a reply, or because every child was called before. */
  ghost predicate Caused(nodes: map<Id, Node>, past: Past, e: Event) {
    e.kind == Called && e.id in nodes ==>
      || e.id in past.replied
      || nodes[e.id].kind == Leaf(true)
      || (!nodes[e.id].kind.Leaf? && forall d: Id | Kid(nodes, e.id, d) :: d in past.called)
  }

  const Never := Past({}, {}, {}, {}, {})

  function PastOf(log: seq<Event>): Past {
    if log == [] then Never else
      Add(PastOf(log[..|log| - 1]), log[|log| - 1])
  }

  /** Each event was allowed by the ones before it. */
  ghost predicate Ordered(nodes: map<Id, Node>, log: seq<Event>) {
    forall i | 0 <= i < |log| :: InOrder(nodes, PastOf(log[..i]), log[i]) && Caused(nodes, PastOf(log[..i]), log[i])
  }

  /** Not the same callback of the same RPC, and no RPC canceled in both. */
  predicate Differ(d: Event, e: Event) {
    (d.kind == e.kind && d.id == e.id ==> d.kind == Replied) && d.canceled !! e.canceled
  }

  ghost predicate History(nodes: map<Id, Node>, log: seq<Event>, past: Past) {
    && (forall k :: Had(past, k) <= nodes.Keys)
    && past.canceled <= nodes.Keys
    && PastOf(log) == past
    && Ordered(nodes, log)
    && (forall i, j | 0 <= i < j < |log| :: Differ(log[i], log[j]))
  }

  // ---------------------------------------------------------------- the queues

  ghost predicate Waits(s: State) {
    && s.wait <= s.past.requested - s.past.timeouted - s.past.canceled
    && s.past.requested - s.past.timeouted - s.past.canceled - s.past.called <= s.wait
    && s.ready !! s.past.requested && s.ready !! s.past.canceled
    && (forall x | x in s.ready && x in s.nodes :: s.nodes[x].parent == None)
  }

  /** A waiting child is still in its parent's map. */
  ghost predicate Kept(s: State) {
    forall p, c | Kid(s.nodes, p, c) && c in s.wait && c !in s.past.called && p in s.children :: c in s.children[p]
  }

  /** The children map holds no child that is over, and only fresh ones before its own request. */
  ghost predicate Alive(s: State) {
    forall p, c | p in s.children && c in s.children[p] ::
      c !in s.past.called && c !in s.past.canceled && (p !in s.past.requested ==> c !in s.past.requested)
  }

  /** Of a serial only the first child has started. */
  ghost predicate OneByOne(s: State) {
    forall p, c, d | p in s.children && c in s.children[p] && d in s.children[p] && d < c
                     && p in s.nodes && s.nodes[p].kind.Serial? :: c !in s.past.requested
  }

  /** A child leaves the map by being called, or when its parent is timed out or canceled. */
  ghost predicate Left(s: State) {
    && (forall p | p in s.children && (p in s.past.timeouted || p in s.past.canceled) :: s.children[p] == {})
    && (forall p, c | Kid(s.nodes, p, c) && p in s.children && c !in s.children[p] ::
          c in s.past.called || p in s.past.timeouted || p in s.past.canceled)
  }

  ghost predicate Family(s: State) {
    Kept(s) && Alive(s) && OneByOne(s) && Left(s)
  }

  ghost predicate Times(s: State)
    requires Shape(s)
  {
    && (forall x | x in s.wait && s.nodes[x].limit != INFINITE :: (s.nodes[x].created, x) in s.index)
    && (forall e | e in s.index :: e.0 == s.nodes[e.1].created && s.nodes[e.1].limit != INFINITE && e.1 in s.past.requested)
    && (forall x | x in s.nodes :: s.timeout[x] == s.nodes[x].limit || (s.timeout[x] == 0 && x in s.past.requested))
  }

  /** While a timed-out child is in the map, timeoutms is 0. */
  ghost predicate Pressed(s: State) {
    forall p, c | p in s.children && p in s.timeout && c in s.children[p] && c in s.past.timeouted :: s.timeout[p] == 0
  }

  function CountedIn(stack: seq<Frame>): nat {
    if stack == [] then 0 else (if stack[0].Counted? then 1 else 0) + CountedIn(stack[1..])
  }

  ghost predicate Books(s: State, counted: nat) {
    && s.stats.requested + counted == |s.past.requested|
    && s.stats.called == |s.past.called|
    && s.stats.timeouted == |s.past.timeouted|
    && s.stats.canceled == |s.past.canceled|
  }

  ghost predicate Life(s: State) {
    && Shape(s) && Exclusive(s.past) && History(s.nodes, s.log, s.past) && Waits(s) && Family(s) && Times(s) && Pressed(s)
  }

  // ---------------------------------------------------------------- the stack

  ghost predicate Startable(s: State, r: Id) {
    && r in s.nodes && Fresh(s, r) && r !in s.ready
    && (s.nodes[r].parent.Some? ==>
          var p := s.nodes[r].parent.value;
          p in s.past.requested && p in s.children && r in s.children[p])
  }

  ghost predicate FrameOk(s: State, f: Frame) {
    match f
    case Request(r) =>
      Startable(s, r) &&
      (s.nodes[r].parent.Some? && s.nodes[r].parent.value in s.nodes && s.nodes[s.nodes[r].parent.value].kind.Serial? ==>
         IsFirst(s.children[s.nodes[r].parent.value], r))
    case Loop(owner, rest) =>
      && (forall i, j | 0 <= i < j < |rest| :: rest[i] != rest[j])
      && (forall x | x in rest :: Startable(s, x) && s.nodes[x].parent == owner)
      && (owner.Some? ==> owner.value in s.nodes && s.nodes[owner.value].kind.Parallel?)
    case CallById(x) =>
      x in s.wait && x in s.nodes && x in s.children ==>
        s.nodes[x].kind == Leaf(true) || x in s.past.replied || (!s.nodes[x].kind.Leaf? && s.children[x] == {})
    case CheckEmpty(p) => p in s.nodes && !s.nodes[p].kind.Leaf?
    case Erase(x) => x in s.wait && x in s.past.called
    case Counted(x) => x in s.nodes
  }

  function Pending(f: Frame): set<Id> {
    match f
    case Request(r) => {r}
    case Loop(_, rest) => SetOf(rest)
    case _ => {}
  }

  /** Nothing above the erasure of q concerns q or anything below q in the forest. */
  ghost predicate Apart(nodes: map<Id, Node>, height: nat, upper: Frame, lower: Frame)
    requires Forest(nodes, height)
  {
    && Pending(upper) !! Pending(lower)
    && (lower.Erase? && Subject(upper).Some? && Subject(upper).value in nodes ==>
          !Above(nodes, height, lower.id, Subject(upper).value))
    && (lower.Erase? && upper.Erase? ==> lower.id != upper.id)
    && !lower.Request? && !lower.CallById?
  }

  ghost predicate Frames(s: State, stack: seq<Frame>) {
    forall f | f in stack :: FrameOk(s, f)
  }

  ghost predicate Separate(nodes: map<Id, Node>, height: nat, stack: seq<Frame>)
    requires Forest(nodes, height)
  {
    forall i, j | 0 <= i < j < |stack| :: Apart(nodes, height, stack[i], stack[j])
  }

  ghost predicate Erasing(s: State, stack: seq<Frame>) {
    forall x | x in s.wait && x in s.past.called :: Erase(x) in stack
  }

  ghost predicate Stack(s: State, stack: seq<Frame>)
    requires Forest(s.nodes, s.height)
  {
    Frames(s, stack) && Separate(s.nodes, s.height, stack) && Erasing(s, stack)
  }

  /** The invariant of every configuration; with an empty stack, of every moment between calls. */
  ghost predicate Inv(c: Config) {
    c.Config? && Life(c.s) && Stack(c.s, c.stack) && Books(c.s, CountedIn(c.stack))
  }

  lemma InvInForest(c: Config)
    requires c.Config? && Shape(c.s) && Frames(c.s, c.stack)
    ensures FramesInForest(c)
  {
    forall f | f in c.stack
      ensures if f.Loop? then (forall x | x in f.rest :: x in c.s.nodes) && (f.owner.Some? ==> f.owner.value in c.s.nodes)
              else f.id in c.s.nodes || f.CallById?
    {
      assert FrameOk(c.s, f);
    }
  }
}
