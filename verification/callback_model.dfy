/**
 The request/reply/timeout/cancel machine of common/callback.cpp, as pure functions.

 A run of the scheduler is a sequence of small steps of an explicit call stack: one frame per
 pending activation of triggerRequest, triggerCall or a loop that calls them. Re-entrant calls
 (a leaf that replies inside its own request(), a child whose completion requests its sibling
 or completes its parent) are therefore ordinary pushes, and what must hold *between two
 statements* of a cascade can be stated as an invariant of the stack.
 */
module CallbackModel {
  import opened Options

  type Id = nat

  /** timeoutms of an RPC that never times out, (uint32_t)-1. */
  const INFINITE: nat := 0xFFFF_FFFF

  /** immediate: the leaf's own request() calls triggerCall(id) before it returns. */
  datatype Kind = Leaf(immediate: bool) | Serial | Parallel

  /** What is fixed once the RPC is handed to the scheduler; limit is timeoutms at that time. */
  datatype Node = Node(kind: Kind, parent: Option<Id>, depth: nat, created: int, limit: nat)

  /** Replied is the arrival of a reply from outside for a waiting RPC; the others are the callbacks. */
  datatype EventKind = Replied | Requested | Called | Timeouted

  /** canceled: the RPCs whose canceled() runs inside this callback (none unless it is timeouted). */
  datatype Event = Event(kind: EventKind, id: Id, canceled: set<Id>)

  datatype Stats = Stats(requested: nat, called: nat, timeouted: nat, canceled: nat)

  /** For each kind of event, the RPCs it has happened to: the log without its order. */
  datatype Past = Past(replied: set<Id>, requested: set<Id>, called: set<Id>, timeouted: set<Id>, canceled: set<Id>)

  function Add(past: Past, e: Event): Past {
    var p := past.(canceled := past.canceled + e.canceled);
    match e.kind
    case Replied => p.(replied := past.replied + {e.id})
    case Requested => p.(requested := past.requested + {e.id})
    case Called => p.(called := past.called + {e.id})
    case Timeouted => p.(timeouted := past.timeouted + {e.id})
  }

  function Had(past: Past, k: EventKind): set<Id> {
    match k
    case Replied => past.replied
    case Requested => past.requested
    case Called => past.called
    case Timeouted => past.timeouted
  }

  datatype State = State(
    nodes: map<Id, Node>,
    height: nat,
    children: map<Id, set<Id>>,
    timeout: map<Id, nat>,
    ready: set<Id>,
    wait: set<Id>,
    index: seq<(int, Id)>,
    stats: Stats,
    log: seq<Event>,
    past: Past)

  datatype Frame =
    | Request(id: Id)                              // triggerRequest(rpc) is about to start
    | Counted(id: Id)                              // request() is running; rpc_requested++ comes next
    | Loop(owner: Option<Id>, rest: seq<Id>)       // the loop of ParallelCallBack::request, or of run()
    | CallById(id: Id)                             // triggerCall(id, data)
    | CheckEmpty(id: Id)                           // "if (children.empty())" at the end of childCalled
    | Erase(id: Id)                                // queue_wait_.erase after childCalled returned

  /** Broken: ParallelCallBack::request iterates a map that childCalled has erased from. */
  datatype Config = Broken | Config(s: State, stack: seq<Frame>)

  // ---------------------------------------------------------------- sorted maps

  predicate IsFirst(cs: set<Id>, m: Id) {
    m in cs && forall x | x in cs :: m <= x
  }

  lemma FirstExists(cs: set<Id>)
    requires cs != {}
    ensures exists m :: IsFirst(cs, m)
  {
    var y :| y in cs;
    if cs != {y} {
      FirstExists(cs - {y});
      var m :| IsFirst(cs - {y}, m);
      var n := if m <= y then m else y;
      assert forall x | x in cs :: x == y || x in cs - {y};
      assert IsFirst(cs, n);
    } else {
      assert IsFirst(cs, y);
    }
  }

  /** std::map::begin(): the child with the smallest id. */
  ghost function First(cs: set<Id>): (m: Id)
    requires cs != {}
    ensures IsFirst(cs, m)
  {
    FirstExists(cs);
    var m :| IsFirst(cs, m);
    m
  }

  /** The iteration order of a std::map with these keys. */
  ghost function Sorted(cs: set<Id>): (xs: seq<Id>)
    ensures |xs| == |cs|
    ensures forall x :: x in xs <==> x in cs
    ensures forall i, j | 0 <= i < j < |xs| :: xs[i] < xs[j]
  {
    if cs == {} then [] else
      var m := First(cs);
      var rest := Sorted(cs - {m});
      FirstThen(cs, m, rest);
      [m] + rest
  }

  /** The first key in front of the others in order. */
  lemma FirstThen(cs: set<Id>, m: Id, rest: seq<Id>)
    requires IsFirst(cs, m) && |rest| == |cs - {m}| && (forall x :: x in rest <==> x in cs - {m})
    requires forall i, j | 0 <= i < j < |rest| :: rest[i] < rest[j]
    ensures |[m] + rest| == |cs| && (forall x :: x in [m] + rest <==> x in cs)
    ensures forall i, j | 0 <= i < j < |[m] + rest| :: ([m] + rest)[i] < ([m] + rest)[j]
  {
    assert cs == (cs - {m}) + {m};
    forall i, j | 0 <= i < j < |[m] + rest| ensures ([m] + rest)[i] < ([m] + rest)[j] {
      assert rest[j - 1] in rest;
    }
  }

  // ---------------------------------------------------------------- the forest of RPCs

  ghost predicate Forest(nodes: map<Id, Node>, height: nat) {
    forall x | x in nodes ::
      && nodes[x].depth <= height
      && (nodes[x].parent.Some? ==>
            && nodes[x].parent.value in nodes
            && nodes[x].depth == nodes[nodes[x].parent.value].depth + 1
            && !nodes[nodes[x].parent.value].kind.Leaf?)
  }

  /** p is the parent of c, from the day the tree was built. */
  predicate Kid(nodes: map<Id, Node>, p: Id, c: Id) {
    c in nodes && nodes[c].parent == Some(p)
  }

  ghost predicate Shape(s: State) {
    && Forest(s.nodes, s.height)
    && s.children.Keys == s.nodes.Keys
    && s.timeout.Keys == s.nodes.Keys
    && (forall p, c | p in s.children && c in s.children[p] :: Kid(s.nodes, p, c))
    && (forall e | e in s.index :: e.1 in s.nodes)
    && s.wait <= s.nodes.Keys
    && s.ready <= s.nodes.Keys
  }

  /** q is x or one of its ancestors. */
  ghost predicate Above(nodes: map<Id, Node>, height: nat, q: Id, x: Id)
    requires Forest(nodes, height) && x in nodes
    decreases nodes[x].depth
  {
    q == x || (nodes[x].parent.Some? && Above(nodes, height, q, nodes[x].parent.value))
  }

  /** canceled(), run on x, reaches y through the current children maps. */
  ghost predicate Under(s: State, x: Id, y: Id)
    requires Shape(s) && y in s.nodes
    decreases s.nodes[y].depth
  {
    s.nodes[y].parent.Some? &&
      var p := s.nodes[y].parent.value;
      y in s.children[p] && (p == x || Under(s, x, p))
  }

  ghost function Below(s: State, x: Id): set<Id>
    requires Shape(s)
  {
    set y | y in s.nodes && Under(s, x, y)
  }

  // ---------------------------------------------------------------- timeout and cancel

  function Log(s: State, e: Event): State {
    s.(log := s.log + [e], past := Add(s.past, e))
  }

  function SetOf(xs: seq<Id>): set<Id> {
    set x | x in xs
  }

  /** childTimeouted: the parent's timeoutms becomes 0. */
  function Hurry(s: State, x: Id): State
    requires x in s.nodes
  {
    match s.nodes[x].parent
    case None => s
    case Some(p) => s.(timeout := s.timeout[p := 0])
  }

  /** canceled() for each of ys: its children cleared, out of the wait queue, counted. */
  function Cancel(s: State, ys: set<Id>): State {
    s.(children := map p | p in s.children :: if p in ys then {} else s.children[p],
       wait := s.wait - ys,
       stats := s.stats.(canceled := s.stats.canceled + |ys|))
  }

  /** triggerTimeout(rpc): timeouted() of a composite cancels all that is left below it. */
  ghost function Timeout(s: State, x: Id): State
    requires Shape(s) && x in s.nodes
  {
    var s1 := Log(Cancel(s, Below(s, x)), Event(Timeouted, x, Below(s, x)));
    var s2 := s1.(children := s1.children[x := {}],
                  stats := s1.stats.(timeouted := s1.stats.timeouted + 1));
    var s3 := Hurry(s2, x);
    s3.(wait := s3.wait - {x})
  }

  predicate Due(s: State, x: Id, now: int)
    requires x in s.nodes && x in s.timeout
  {
    now - s.nodes[x].created >= s.timeout[x]
  }

  function Without(index: seq<(int, Id)>, i: nat): seq<(int, Id)>
    requires i < |index|
  {
    index[..i] + index[i + 1..]
  }

  /** One turn of the timeout loop of run(), looking at position i of wait_by_time_. */
  ghost function ScanAt(s: State, i: nat, now: int): State
    requires Shape(s) && i < |s.index|
  {
    var x := s.index[i].1;
    if x !in s.wait then s.(index := Without(s.index, i))
    else if Due(s, x, now) then var t := Timeout(s, x); t.(index := Without(s.index, i))
    else s
  }

  /** What leaves a well-formed state well-formed. */
  lemma ShapeStays(s: State, t: State)
    requires Shape(s) && t.nodes == s.nodes && t.height == s.height && t.index == s.index && t.ready == s.ready && t.wait <= s.wait
    requires t.children.Keys == s.children.Keys && t.timeout.Keys == s.timeout.Keys
    requires forall p | p in s.children :: t.children[p] <= s.children[p]
    ensures Shape(t)
  {
    hide Forest;
  }

  /** Timeout, field by field. */
  lemma TimeoutIs(s: State, x: Id)
    requires Shape(s) && x in s.nodes
    ensures var t, ys := Timeout(s, x), Below(s, x);
            && t.nodes == s.nodes && t.height == s.height && t.index == s.index && t.ready == s.ready
            && t.wait == s.wait - ys - {x}
            && t.past == s.past.(timeouted := s.past.timeouted + {x}, canceled := s.past.canceled + ys)
            && t.children.Keys == s.children.Keys
            && (forall p | p in s.children :: t.children[p] == if p == x || p in ys then {} else s.children[p])
            && t.timeout.Keys == s.timeout.Keys
            && t.timeout == if s.nodes[x].parent.Some? then s.timeout[s.nodes[x].parent.value := 0] else s.timeout
  {
    hide Below, Add;
    AddTimeouted(s.past, x, Below(s, x));
  }

  lemma AddTimeouted(past: Past, x: Id, ys: set<Id>)
    ensures Add(past, Event(Timeouted, x, ys)) == past.(timeouted := past.timeouted + {x}, canceled := past.canceled + ys)
  {
  }

  lemma ScanAtShape(s: State, i: nat, now: int)
    requires Shape(s) && i < |s.index|
    ensures Shape(ScanAt(s, i, now))
  {
    hide Timeout, Forest, Kid, Below;
    var x := s.index[i].1;
    assert s.index[i] in s.index;
    WithoutPart(s.index, i);
    if x in s.wait && Due(s, x, now) {
      TimeoutIs(s, x);
      ShapeStays(s, Timeout(s, x));
    }
  }

  lemma WithoutPart(index: seq<(int, Id)>, i: nat)
    requires i < |index|
    ensures forall e | e in Without(index, i) :: e in index
  {
  }

  /** The timeout loop of run() from position i on. */
  ghost function Scan(s: State, i: nat, now: int): State
    requires Shape(s) && i <= |s.index|
    decreases |s.index| - i
  {
    if i == |s.index| then s else
      ScanAtShape(s, i, now);
      var t := ScanAt(s, i, now);
      Scan(t, if |t.index| < |s.index| then i else i + 1, now)
  }

  // ---------------------------------------------------------------- request and reply

  /** multimap::insert: after the entries with the same key. */
  function Insert(index: seq<(int, Id)>, e: (int, Id)): seq<(int, Id)> {
    if index == [] || index[|index| - 1].0 <= e.0 then index + [e]
    else Insert(index[..|index| - 1], e) + [index[|index| - 1]]
  }

  ghost function FirstRequest(s: State, p: Id): seq<Frame>
    requires p in s.children
  {
    if s.children[p] == {} then [] else [Request(First(s.children[p]))]
  }

  /** triggerRequest up to the point where control leaves the scheduler: queues, then request(). */
  ghost function Enqueue(s: State, r: Id): State
    requires Shape(s) && r in s.nodes
  {
    Log(s, Event(Requested, r, {})).(
      wait := s.wait + {r},
      index := if s.timeout[r] != INFINITE then Insert(s.index, (s.nodes[r].created, r)) else s.index)
  }

  ghost function RequestFrames(s: State, r: Id): seq<Frame>
    requires Shape(s) && r in s.nodes
  {
    match s.nodes[r].kind
    case Leaf(immediate) => if immediate then [CallById(r)] else []
    case Serial => FirstRequest(s, r)
    case Parallel => [Loop(Some(r), Sorted(s.children[r]))]
  }

  predicate Iterating(stack: seq<Frame>, p: Id) {
    exists f | f in stack :: f.Loop? && f.owner == Some(p)
  }

  /** called(data), rpc_called++ */
  function Reply(s: State, x: Id): State {
    Log(s, Event(Called, x, {})).(stats := s.stats.(called := s.stats.called + 1))
  }

  function Erased(s: State, p: Id, c: Id): State
    requires p in s.children
  {
    s.(children := s.children[p := s.children[p] - {c}])
  }

  /** triggerCall(rpc, data) up to the end of childCalled's erase; the rest is left on the stack. */
  ghost function CallStep(s: State, x: Id, stack: seq<Frame>): Config
    requires Shape(s) && x in s.nodes
  {
    var s1 := Reply(s, x);
    match s.nodes[x].parent
    case None => Config(s1, [Erase(x)] + stack)
    case Some(p) =>
      var hit := x in s.children[p] && (s.nodes[p].kind.Serial? ==> x == First(s.children[p]));
      var s2 := if hit then Erased(s1, p, x) else s1;
      if s.nodes[p].kind.Parallel? && hit && Iterating(stack, p) then Broken
      else Config(s2, (if s.nodes[p].kind.Serial? && hit then FirstRequest(s2, p) else [])
                      + [CheckEmpty(p), Erase(x)] + stack)
  }

  function Subject(f: Frame): Option<Id> {
    match f
    case Loop(owner, _) => owner
    case Counted(_) => None
    case Erase(_) => None
    case _ => Some(f.id)
  }

  ghost predicate FramesInForest(c: Config)
    requires c.Config?
  {
    && Shape(c.s)
    && forall f | f in c.stack ::
         if f.Loop? then (forall x | x in f.rest :: x in c.s.nodes) && (f.owner.Some? ==> f.owner.value in c.s.nodes)
         else f.id in c.s.nodes || f.CallById?
  }

  /** One small step: what the top frame does before control leaves it again. */
  ghost function Step(c: Config): Config
    requires c.Config? && c.stack != [] && FramesInForest(c)
  {
    var s, rest := c.s, c.stack[1..];
    match c.stack[0]
    case Request(r) => Config(Enqueue(s, r), RequestFrames(s, r) + [Counted(r)] + rest)
    case Counted(_) => Config(s.(stats := s.stats.(requested := s.stats.requested + 1)), rest)
    case Loop(o, xs) => if xs == [] then Config(s, rest) else Config(s, [Request(xs[0]), Loop(o, xs[1..])] + rest)
    case CallById(x) => if x in s.wait then CallStep(s, x, rest) else Config(s, rest)
    case CheckEmpty(p) => if s.children[p] == {} then Config(s, [CallById(p)] + rest) else Config(s, rest)
    case Erase(x) => Config(s.(wait := s.wait - {x}), rest)
  }
}
