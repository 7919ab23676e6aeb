/**
 The order of wait_by_time_ and of the timeouts: entries by creation time, equal times by request. A turn
 of run() therefore times out in the order of creation, before it requests anything, and nobody early.
 */
module CallbackTimely {
  import opened Options
  import opened CallbackModel
  import opened CallbackInvariant
  import opened CallbackSteps
  import opened CallbackCall
  import opened CallbackRun
  import opened CallbackTimeout
  import opened CallbackApi
  import opened CallbackTheorems
  import opened CallbackOrder
  import opened CallbackRace
  import opened CallbackReach

  // ---------------------------------------------------------------- the order of wait_by_time_

  ghost predicate RequestedBefore(log: seq<Event>, x: Id, y: Id) {
    exists i, j :: i < j && At(log, i, Requested, x) && At(log, j, Requested, y)
  }

  /** The older one, of equal age the one requested first. */
  ghost predicate Before(log: seq<Event>, e: (int, Id), f: (int, Id)) {
    e.0 < f.0 || (e.0 == f.0 && RequestedBefore(log, e.1, f.1))
  }

  ghost predicate InTime(log: seq<Event>, index: seq<(int, Id)>) {
    forall i, j | 0 <= i < j < |index| :: Before(log, index[i], index[j])
  }

  predicate Extends(log: seq<Event>, more: seq<Event>) {
    |log| <= |more| && more[..|log|] == log
  }

  lemma BeforeGrows(log: seq<Event>, more: seq<Event>, e: (int, Id), f: (int, Id))
    requires Extends(log, more) && Before(log, e, f)
    ensures Before(more, e, f)
  {
    if e.0 == f.0 {
      var i, j :| i < j && At(log, i, Requested, e.1) && At(log, j, Requested, f.1);
      assert log[i] == more[i] && log[j] == more[j];
      assert At(more, i, Requested, e.1) && At(more, j, Requested, f.1);
    }
  }

  lemma InTimeGrows(log: seq<Event>, more: seq<Event>, index: seq<(int, Id)>)
    requires Extends(log, more) && InTime(log, index)
    ensures InTime(more, index)
  {
    hide Before, Extends;
    forall i, j | 0 <= i < j < |index| ensures Before(more, index[i], index[j]) {
      BeforeGrows(log, more, index[i], index[j]);
    }
  }

  /** Where a multimap puts a new entry: behind those that are not younger, in front of the younger ones. */
  lemma {:induction false} InsertPlace(index: seq<(int, Id)>, e: (int, Id)) returns (k: nat)
    requires forall i, j | 0 <= i < j < |index| :: index[i].0 <= index[j].0
    ensures k <= |index| && Insert(index, e) == index[..k] + [e] + index[k..]
    ensures forall i | 0 <= i < k :: index[i].0 <= e.0
    ensures forall i | k <= i < |index| :: e.0 < index[i].0
  {
    var n := |index|;
    if index == [] || index[n - 1].0 <= e.0 {
      return n;
    } else {
      k := InsertPlace(index[..n - 1], e);
      assert index[..n - 1][..k] == index[..k] && index[..n - 1][k..] + [index[n - 1]] == index[k..];
    }
  }

  lemma InsertInTime(log: seq<Event>, index: seq<(int, Id)>, created: int, r: Id)
    requires InTime(log, index)
    requires forall e | e in index :: exists i :: At(log, i, Requested, e.1)
    ensures InTime(log + [Event(Requested, r, {})], Insert(index, (created, r)))
  {
    hide RequestedBefore;
    var more := log + [Event(Requested, r, {})];
    var k := InsertPlace(index, (created, r));
    InTimeGrows(log, more, index);
    forall i | 0 <= i < k ensures Before(more, index[i], (created, r)) {
      LatestBehind(log, index[i], created, r);
    }
    hide InTime, Before;
    PlacedInTime(more, index, k, (created, r));
  }

  /** Whoever has been requested is in front of the new request, unless younger. */
  lemma LatestBehind(log: seq<Event>, e: (int, Id), created: int, r: Id)
    requires e.0 <= created && exists i :: At(log, i, Requested, e.1)
    ensures Before(log + [Event(Requested, r, {})], e, (created, r))
  {
    var more := log + [Event(Requested, r, {})];
    var i :| At(log, i, Requested, e.1);
    assert At(more, i, Requested, e.1) && At(more, |log|, Requested, r);
  }

  lemma PlacedInTime(log: seq<Event>, index: seq<(int, Id)>, k: nat, e: (int, Id))
    requires InTime(log, index) && k <= |index|
    requires forall i | 0 <= i < k :: Before(log, index[i], e)
    requires forall i | k <= i < |index| :: Before(log, e, index[i])
    ensures InTime(log, index[..k] + [e] + index[k..])
  {
    hide Before, InTime;
    var longer := index[..k] + [e] + index[k..];
    assert forall i | 0 <= i < |longer| :: longer[i] == if i < k then index[i] else if i == k then e else index[i - 1];
    forall i, j | 0 <= i < j < |longer| ensures Before(log, longer[i], longer[j]) {
      InTimeAt(log, index, if i < k then i else i - 1, if j < k then j else j - 1);
    }
    InTimeIs(log, longer);
  }

  lemma InTimeAt(log: seq<Event>, index: seq<(int, Id)>, i: int, j: int)
    requires InTime(log, index)
    ensures 0 <= i < j < |index| ==> Before(log, index[i], index[j])
  {
  }

  lemma InTimeIs(log: seq<Event>, index: seq<(int, Id)>)
    requires forall i, j | 0 <= i < j < |index| :: Before(log, index[i], index[j])
    ensures InTime(log, index)
  {
  }

  lemma WithoutInTime(log: seq<Event>, index: seq<(int, Id)>, i: nat)
    requires InTime(log, index) && i < |index|
    ensures InTime(log, Without(index, i))
  {
    hide Before;
  }

  // ---------------------------------------------------------------- the timeouts set to zero

  ghost predicate TimedOut(log: seq<Event>, c: Id) {
    exists i :: At(log, i, Timeouted, c)
  }

  /** Some child of x has been timed out. */
  ghost predicate Hurried(nodes: map<Id, Node>, log: seq<Event>, x: Id) {
    exists c :: Kid(nodes, x, c) && TimedOut(log, c)
  }

  /** timeoutms is what it was at first, or 0 because a child has been timed out. */
  ghost predicate Excused(nodes: map<Id, Node>, timeout: map<Id, nat>, log: seq<Event>) {
    forall x | x in timeout && x in nodes :: timeout[x] == nodes[x].limit || (timeout[x] == 0 && Hurried(nodes, log, x))
  }

  lemma HurriedGrows(nodes: map<Id, Node>, log: seq<Event>, more: seq<Event>, x: Id)
    requires Extends(log, more) && Hurried(nodes, log, x)
    ensures Hurried(nodes, more, x)
  {
    var c :| Kid(nodes, x, c) && TimedOut(log, c);
    var i :| At(log, i, Timeouted, c);
    assert log[i] == more[i];
    assert At(more, i, Timeouted, c);
  }

  lemma ExcusedGrows(nodes: map<Id, Node>, timeout: map<Id, nat>, log: seq<Event>, more: seq<Event>)
    requires Extends(log, more) && Excused(nodes, timeout, log)
    ensures Excused(nodes, timeout, more)
  {
    hide Hurried, Extends;
    forall x | x in timeout && x in nodes && Hurried(nodes, log, x) ensures Hurried(nodes, more, x) {
      HurriedGrows(nodes, log, more, x);
    }
  }

  ghost predicate Timely(s: State) {
    InTime(s.log, s.index) && Excused(s.nodes, s.timeout, s.log)
  }

  // ---------------------------------------------------------------- what a step adds

  /** more is log and then requests and calls. */
  predicate Working(log: seq<Event>, more: seq<Event>) {
    Extends(log, more) && forall i | |log| <= i < |more| :: more[i].kind == Requested || more[i].kind == Called
  }

  lemma CallStepIndex(s: State, x: Id, stack: seq<Frame>)
    requires Shape(s) && x in s.nodes
    ensures CallStep(s, x, stack).Config? ==>
              && CallStep(s, x, stack).s.index == s.index && CallStep(s, x, stack).s.timeout == s.timeout
              && CallStep(s, x, stack).s.nodes == s.nodes && CallStep(s, x, stack).s.log == s.log + [Event(Called, x, {})]
  {
    hide Forest;
  }

  lemma EnqueueIndex(s: State, r: Id)
    requires Shape(s) && r in s.nodes
    ensures var t := Enqueue(s, r);
            && t.log == s.log + [Event(Requested, r, {})] && t.timeout == s.timeout && t.nodes == s.nodes
            && t.index == (if s.timeout[r] != INFINITE then Insert(s.index, (s.nodes[r].created, r)) else s.index)
  {
    hide Forest, Insert;
  }

  lemma StepWorks(c: Config)
    requires c.Config? && c.stack != [] && FramesInForest(c)
    ensures Step(c).Config? ==>
              && Working(c.s.log, Step(c).s.log) && Step(c).s.timeout == c.s.timeout && Step(c).s.nodes == c.s.nodes
              && (!c.stack[0].Request? ==> Step(c).s.index == c.s.index)
  {
    hide Forest, CallStep, Enqueue, RequestFrames;
    var s, f := c.s, c.stack[0];
    match f {
      case Request(r) => EnqueueIndex(s, r);
      case CallById(x) =>
        if x in s.wait {
          CallStepIndex(s, x, c.stack[1..]);
        }
      case _ =>
    }
  }

  lemma WorkingTrans(a: seq<Event>, b: seq<Event>, c: seq<Event>)
    requires Working(a, b) && Working(b, c)
    ensures Working(a, c)
  {
  }

  /** The entries belong to requested RPCs. */
  lemma EntriesRequested(s: State)
    requires Shape(s) && Times(s) && History(s.nodes, s.log, s.past)
    ensures forall e | e in s.index :: exists i :: At(s.log, i, Requested, e.1)
  {
    hide Forest;
    forall e | e in s.index ensures exists i :: At(s.log, i, Requested, e.1) {
      PastAt(s.log, Requested, e.1);
    }
  }

  lemma LifeParts(c: Config)
    requires Inv(c)
    ensures c.Config? && Shape(c.s) && Times(c.s) && History(c.s.nodes, c.s.log, c.s.past)
  {
  }

  lemma StepTimely(c: Config)
    requires Inv(c) && c.Config? && c.stack != [] && FramesInForest(c) && Timely(c.s)
    ensures Step(c).Config? ==> Timely(Step(c).s)
  {
    hide Inv, Forest, InTime, Excused, Step, History, Times, Shape, FramesInForest;
    StepWorks(c);
    LifeParts(c);
    if Step(c).Config? {
      ExcusedGrows(c.s.nodes, c.s.timeout, c.s.log, Step(c).s.log);
      InTimeGrows(c.s.log, Step(c).s.log, c.s.index);
      if c.stack[0].Request? {
        RequestTimely(c, c.stack[0].id);
      }
    }
  }

  lemma RequestTimely(c: Config, r: Id)
    requires c.Config? && c.stack != [] && c.stack[0] == Request(r) && FramesInForest(c) && Shape(c.s) && Times(c.s)
    requires History(c.s.nodes, c.s.log, c.s.past) && InTime(c.s.log, c.s.index)
    ensures InTime(Step(c).s.log, Step(c).s.index)
  {
    hide History, Times, Forest, Enqueue, InTime, RequestFrames, Insert;
    EntriesRequested(c.s);
    EnqueueIndex(c.s, r);
    InsertInTime(c.s.log, c.s.index, c.s.nodes[r].created, r);
    InTimeGrows(c.s.log, c.s.log + [Event(Requested, r, {})], c.s.index);
  }

  lemma {:induction false} RunTimely(c: Config)
    requires Inv(c) && c.Config? && Timely(c.s)
    ensures RunToEnd(c).Config? ==> Timely(RunToEnd(c).s) && Working(c.s.log, RunToEnd(c).s.log)
    decreases Unrequested(c), Uncalled(c), Weight(c.stack)
  {
    hide Inv, Forest, Step, Timely, Shape, FramesInForest;
    if c.stack != [] {
      InvReady(c);
      StepTimely(c);
      StepWorks(c);
      OneStep(c);
      StepDescends(c);
      if Step(c).Config? {
        RunTimely(Step(c));
        if RunToEnd(c).Config? {
          WorkingTrans(c.s.log, Step(c).s.log, RunToEnd(c).s.log);
        }
      } else {
        BrokenEnds();
      }
    }
  }

  // ---------------------------------------------------------------- the timeout loop

  function EntryOf(nodes: map<Id, Node>, x: Id): (int, Id)
    requires x in nodes
  {
    (nodes[x].created, x)
  }

  /** The timeout of x at this place of the log is not early: its own time is over, or a child of it was timed out before. */
  ghost predicate NotEarly(nodes: map<Id, Node>, log: seq<Event>, a: nat, now: int)
    requires a < |log|
  {
    var x := log[a].id;
    && x in nodes && nodes[x].limit != INFINITE
    && (now - nodes[x].created >= nodes[x].limit || (now >= nodes[x].created && Hurried(nodes, log[..a], x)))
  }

  /** more is log and then timeouts, none early, all of RPCs in the queue, with entries of the index, in its order. */
  ghost predicate TimesOut(before: seq<Event>, nodes: map<Id, Node>, wait: set<Id>, index: seq<(int, Id)>, log: seq<Event>, more: seq<Event>, now: int) {
    && Extends(log, more)
    && (forall a | |log| <= a < |more| :: more[a].kind == Timeouted && more[a].id in wait && NotEarly(nodes, more, a, now)
                                          && EntryOf(nodes, more[a].id) in index)
    && (forall a, b | |log| <= a < b < |more| :: Before(before, EntryOf(nodes, more[a].id), EntryOf(nodes, more[b].id)))
  }

  /** The entry at i is timed out, then the rest of the loop. */
  lemma TimesOutFirst(before: seq<Event>, nodes: map<Id, Node>, wait: set<Id>, left: set<Id>, index: seq<(int, Id)>, i: nat,
                      log: seq<Event>, e: Event, more: seq<Event>, now: int)
    requires i < |index| && InTime(before, index) && e.kind == Timeouted && e.id in wait && left <= wait
    requires NotEarly(nodes, log + [e], |log|, now) && index[i] == EntryOf(nodes, e.id)
    requires TimesOut(before, nodes, left, index[i + 1..], log + [e], more, now)
    ensures TimesOut(before, nodes, wait, index[i..], log, more, now)
  {
    hide Before, Hurried;
    assert more[|log|] == e && more[..|log|] == log;
    assert index[i..][0] == index[i] && index[i] in index[i..];
    assert forall f | f in index[i + 1..] :: f in index[i..];
    forall b | |log| < b < |more| ensures Before(before, EntryOf(nodes, e.id), EntryOf(nodes, more[b].id)) {
      var k :| 0 <= k < |index[i + 1..]| && index[i + 1..][k] == EntryOf(nodes, more[b].id);
      assert index[i + 1 + k] == EntryOf(nodes, more[b].id);
    }
  }

  /** An entry that times nobody out. */
  lemma TimesOutNext(before: seq<Event>, nodes: map<Id, Node>, wait: set<Id>, index: seq<(int, Id)>, i: nat, log: seq<Event>, more: seq<Event>, now: int)
    requires i < |index| && TimesOut(before, nodes, wait, index[i + 1..], log, more, now)
    ensures TimesOut(before, nodes, wait, index[i..], log, more, now)
  {
    hide Before, NotEarly;
    assert forall f | f in index[i + 1..] :: f in index[i..];
  }

  lemma WithoutTail(index: seq<(int, Id)>, i: nat)
    requires i < |index|
    ensures Without(index, i)[i..] == index[i + 1..] && |Without(index, i)| == |index| - 1
  {
  }

  /** What the timeout of the entry at i does to the log and the limits. */
  lemma FiredIs(s: State, i: nat, now: int)
    requires Shape(s) && i < |s.index| && s.index[i].1 in s.wait && Due(s, s.index[i].1, now)
    ensures var t, x := ScanAt(s, i, now), s.index[i].1;
            && t.log == s.log + [Event(Timeouted, x, Below(s, x))] && t.nodes == s.nodes && t.wait <= s.wait && t.index == Without(s.index, i)
            && t.timeout == (if s.nodes[x].parent.Some? then s.timeout[s.nodes[x].parent.value := 0] else s.timeout)
  {
    hide Forest, Below;
  }

  lemma HurryExcused(nodes: map<Id, Node>, timeout: map<Id, nat>, log: seq<Event>, x: Id, ys: set<Id>)
    requires Excused(nodes, timeout, log) && x in nodes
    ensures Excused(nodes, if nodes[x].parent.Some? then timeout[nodes[x].parent.value := 0] else timeout, log + [Event(Timeouted, x, ys)])
  {
    hide Excused;
    var more := log + [Event(Timeouted, x, ys)];
    ExcusedGrows(nodes, timeout, log, more);
    if nodes[x].parent.Some? {
      var p := nodes[x].parent.value;
      assert At(more, |log|, Timeouted, x);
      assert Kid(nodes, p, x) && TimedOut(more, x);
      assert Hurried(nodes, more, p);
      ExcusedZero(nodes, timeout, more, p);
    }
  }

  lemma ExcusedZero(nodes: map<Id, Node>, timeout: map<Id, nat>, log: seq<Event>, p: Id)
    requires Excused(nodes, timeout, log) && Hurried(nodes, log, p)
    ensures Excused(nodes, timeout[p := 0], log)
  {
    hide Hurried;
  }

  /** Whoever is due and has an entry is not early. */
  lemma DueNotEarly(s: State, i: nat, now: int, ys: set<Id>)
    requires Quiet(s) && Shape(s) && i < |s.index| && s.index[i].1 in s.nodes && s.index[i].1 in s.timeout
    requires now - s.nodes[s.index[i].1].created >= s.timeout[s.index[i].1] && Excused(s.nodes, s.timeout, s.log)
    ensures NotEarly(s.nodes, s.log + [Event(Timeouted, s.index[i].1, ys)], |s.log|, now)
    ensures s.index[i] == EntryOf(s.nodes, s.index[i].1)
  {
    hide Forest, Stack, Books, History, Family, Waits, Exclusive, Pressed, Hurried;
    var x := s.index[i].1;
    assert s.index[i] in s.index;
    assert (s.log + [Event(Timeouted, x, ys)])[..|s.log|] == s.log;
  }

  lemma {:induction false} ScanTimesOut(before: seq<Event>, s: State, i: nat, now: int)
    requires Quiet(s) && Shape(s) && i <= |s.index| && InTime(before, s.index) && Excused(s.nodes, s.timeout, s.log)
    ensures var t := Scan(s, i, now);
            && TimesOut(before, s.nodes, s.wait, s.index[i..], s.log, t.log, now)
            && InTime(before, t.index) && Excused(t.nodes, t.timeout, t.log)
    decreases |s.index| - i
  {
    hide Quiet, Shape, ScanAt, InTime, Excused, TimesOut, Without, Below;
    if i == |s.index| {
      TimesOutNone(before, s.nodes, s.wait, s.index[i..], s.log, now);
    } else {
      EntryNode(s, i);
      var x, t := s.index[i].1, ScanAt(s, i, now);
      ScanAtQuiet(s, i, now);
      ScanAtShape(s, i, now);
      WithoutInTime(before, s.index, i);
      WithoutTail(s.index, i);
      if x in s.wait && Due(s, x, now) {
        FiredIs(s, i, now);
        HurryExcused(s.nodes, s.timeout, s.log, x, Below(s, x));
        ScanTimesOut(before, t, i, now);
        DueNotEarly(s, i, now, Below(s, x));
        TimesOutFirst(before, s.nodes, s.wait, t.wait, s.index, i, s.log, Event(Timeouted, x, Below(s, x)), Scan(t, i, now).log, now);
      } else {
        NotFiredIs(s, i, now);
        ScanTimesOut(before, t, if |t.index| < |s.index| then i else i + 1, now);
        TimesOutNext(before, s.nodes, s.wait, s.index, i, s.log, Scan(s, i, now).log, now);
      }
    }
  }

  lemma TimesOutNone(before: seq<Event>, nodes: map<Id, Node>, wait: set<Id>, index: seq<(int, Id)>, log: seq<Event>, now: int)
    ensures TimesOut(before, nodes, wait, index, log, log, now)
  {
  }

  lemma EntryNode(s: State, i: nat)
    requires Shape(s) && i < |s.index|
    ensures s.index[i].1 in s.nodes && s.index[i].1 in s.timeout
  {
    assert s.index[i] in s.index;
  }

  lemma NotFiredIs(s: State, i: nat, now: int)
    requires Shape(s) && i < |s.index| && s.index[i].1 in s.nodes && s.index[i].1 in s.timeout
    requires !(s.index[i].1 in s.wait && Due(s, s.index[i].1, now))
    ensures var t := ScanAt(s, i, now);
            && t.log == s.log && t.nodes == s.nodes && t.wait == s.wait && t.timeout == s.timeout
            && t.index == (if s.index[i].1 in s.wait then s.index else Without(s.index, i))
  {
  }

  // ---------------------------------------------------------------- whole runs

  lemma SubmitTimely(s: State, t: State)
    requires Timely(s) && t.nodes == s.nodes && t.timeout == s.timeout && t.index == s.index && Extends(s.log, t.log)
    ensures Timely(t)
  {
    hide InTime, Excused, Extends;
    InTimeGrows(s.log, t.log, s.index);
    ExcusedGrows(s.nodes, s.timeout, s.log, t.log);
  }

  lemma TimesOutExtends(before: seq<Event>, nodes: map<Id, Node>, wait: set<Id>, index: seq<(int, Id)>, log: seq<Event>, more: seq<Event>, now: int)
    requires TimesOut(before, nodes, wait, index, log, more, now)
    ensures Extends(log, more)
  {
  }

  /** After the timeout loop, with the ready queue taken out. */
  lemma ScanTimely(s: State, now: int)
    requires Quiet(s) && Timely(s)
    ensures Shape(s)
    ensures var t := Scan(s, 0, now); Timely(t.(ready := {})) && TimesOut(s.log, s.nodes, s.wait, s.index, s.log, t.log, now)
  {
    hide Quiet, Shape, Scan, InTime, Excused, TimesOut, Extends;
    QuietShape(s);
    ScanTimesOut(s.log, s, 0, now);
    assert s.index[0..] == s.index;
    var t := Scan(s, 0, now);
    TimesOutExtends(s.log, s.nodes, s.wait, s.index, s.log, t.log, now);
    InTimeGrows(s.log, t.log, t.index);
  }

  lemma ApplyTimely(s: State, op: Op)
    requires Quiet(s) && (op.Submit? ==> CanSubmit(s, op.root)) && Timely(s)
    ensures Apply(s, op).Config? ==> Timely(Apply(s, op).s)
  {
    hide Inv, Timely, Scan, RunToEnd, Forest, Shape, TimesOut, Working;
    match op {
      case Submit(r) => SubmitTimely(s, s.(ready := s.ready + {r}));
      case Answer(x) =>
        AnswerInv(s, x);
        var t := if x in s.wait then Log(s, Event(Replied, x, {})) else s;
        SubmitTimely(s, t);
        RunTimely(Config(t, [CallById(x)]));
      case Run(now) =>
        ScanQuiet(s, 0, now);
        ScanTimely(s, now);
        var t := Scan(s, 0, now);
        ReadyInv(t);
        RunTimely(Config(t.(ready := {}), [Loop(None, Sorted(t.ready))]));
    }
  }

  lemma {:induction false} ExecuteTimely(s: State, ops: seq<Op>)
    requires Quiet(s) && Legal(s, ops) && Timely(s)
    ensures Execute(s, ops).Config? ==> Timely(Execute(s, ops).s)
    decreases |ops|
  {
    hide Quiet, Timely, Apply;
    if ops != [] {
      ApplyTimely(s, ops[0]);
      if Apply(s, ops[0]).Config? {
        ExecuteTimely(Apply(s, ops[0]).s, ops[1..]);
      }
    }
  }

  lemma InitialTimely(nodes: map<Id, Node>, height: nat)
    ensures Timely(Initial(nodes, height))
  {
  }

  /** In every state between the calls of every legal run the time index is in order. */
  lemma IndexInOrder(nodes: map<Id, Node>, height: nat, s: State)
    requires Reachable(nodes, height, s)
    ensures Timely(s)
    ensures forall i, j | 0 <= i < j < |s.index| ::
              s.index[i].0 < s.index[j].0 || (s.index[i].0 == s.index[j].0 && RequestedBefore(s.log, s.index[i].1, s.index[j].1))
  {
    hide Quiet, Timely, Execute, Legal;
    var ops :| ReachedBy(nodes, height, ops, s);
    InitialQuiet(nodes, height);
    InitialTimely(nodes, height);
    ExecuteTimely(Initial(nodes, height), ops);
    TimelyIs(s);
  }

  lemma TimelyIs(s: State)
    requires Timely(s)
    ensures InTime(s.log, s.index)
    ensures forall i, j | 0 <= i < j < |s.index| :: Before(s.log, s.index[i], s.index[j])
  {
  }

  /**
   One turn of run() from the log up to n to the whole log: first the timeouts, of RPCs that waited, the
   oldest first and of equal age the one requested first, none of them early; then requests and calls only.
   */
  ghost predicate Turn(s: State, n: nat, log: seq<Event>, now: int) {
    && |s.log| <= n <= |log| && log[..|s.log|] == s.log
    && (forall a | |s.log| <= a < n ::
          && log[a].kind == Timeouted && log[a].id in s.wait && log[a].id in s.nodes
          && s.nodes[log[a].id].limit != INFINITE
          && (|| now - s.nodes[log[a].id].created >= s.nodes[log[a].id].limit
              || (now >= s.nodes[log[a].id].created && Hurried(s.nodes, log[..a], log[a].id))))
    && (forall a, b | |s.log| <= a < b < n && log[a].id in s.nodes && log[b].id in s.nodes ::
          || s.nodes[log[a].id].created < s.nodes[log[b].id].created
          || (s.nodes[log[a].id].created == s.nodes[log[b].id].created && RequestedBefore(s.log, log[a].id, log[b].id)))
    && (forall a | n <= a < |log| :: log[a].kind == Requested || log[a].kind == Called)
  }

  lemma TurnIs(s: State, mid: seq<Event>, log: seq<Event>, now: int)
    requires TimesOut(s.log, s.nodes, s.wait, s.index, s.log, mid, now) && Working(mid, log)
    ensures Turn(s, |mid|, log, now)
  {
    hide Hurried, RequestedBefore;
    assert forall a | 0 <= a < |mid| :: log[a] == mid[a] && log[..a] == mid[..a];
    assert log[..|s.log|] == mid[..|s.log|];
  }

  lemma TurnInOrder(nodes: map<Id, Node>, height: nat, s: State, now: int)
    requires Reachable(nodes, height, s) && Quiet(s)
    ensures Apply(s, Run(now)).Config? ==> exists n :: Turn(s, n, Apply(s, Run(now)).s.log, now)
  {
    hide Inv, Timely, Scan, RunToEnd, Forest, Shape, TimesOut, Working, Turn, Reachable;
    IndexInOrder(nodes, height, s);
    ScanQuiet(s, 0, now);
    ScanTimely(s, now);
    var t := Scan(s, 0, now);
    ReadyInv(t);
    RunTimely(Config(t.(ready := {}), [Loop(None, Sorted(t.ready))]));
    if Apply(s, Run(now)).Config? {
      TurnIs(s, t.log, Apply(s, Run(now)).s.log, now);
    }
  }
}
