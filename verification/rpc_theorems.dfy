/** What every run of the RPC protocol keeps to, whatever the network does. */
module RpcTheorems {
  import opened Options
  import opened RpcModel

  // ---------------------------------------------------------------- invariants

  predicate HasOutcome(c: Client, id: Id) {
    exists k :: 0 <= k < |c.log| && c.log[k].id == id
  }

  /** Every request is pending or has had its one callback. */
  ghost predicate Settled(w: World) {
    var c := w.client;
    && c.timed <= c.holders.Keys <= w.emitted.Keys
    && (forall id :: id in w.emitted <==> 0 < id <= c.total)
    && (forall id :: id in w.emitted <==> id in c.holders || HasOutcome(c, id))
    && (forall id | id in c.holders :: !HasOutcome(c, id))
    && (forall j, k | 0 <= j < k < |c.log| :: c.log[j].id != c.log[k].id)
  }

  /** A pending request is still what was emitted; only its timeout may have been set. */
  predicate SameRequest(h: Holder, e: Holder) {
    h.id == e.id && h.request == e.request && h.reply == e.reply && h.argument == e.argument && h.created == e.created
  }

  ghost predicate Kept(w: World) {
    && (forall id | id in w.client.holders && id in w.emitted :: SameRequest(w.client.holders[id], w.emitted[id]))
    && (forall id | id in w.emitted :: w.emitted[id].id == id)
  }

  ghost predicate RequestOk(codec: Codec, w: World, m: Request) {
    m.id == 0 || (m.id in w.emitted && m == Pack(codec, w.emitted[m.id]))
  }

  predicate CallOk(w: World, call: Call) {
    call.id == 0
    || (call.id in w.emitted && call.name == w.emitted[call.id].request && call.argument == w.emitted[call.id].argument)
  }

  /** The user's function was called for the pending request e, with e's argument, and gave v. */
  predicate Answered(w: World, e: Holder, v: Value) {
    Call(e.id, e.request, e.argument, v) in w.calls
  }

  /** What a reply to a request with an id can be. */
  ghost predicate ReplyOk(codec: Codec, w: World, r: Reply) {
    r.id == 0
    || (r.id in w.emitted
        && var e := w.emitted[r.id];
           && r.request == e.request && r.reply == e.reply && codec.pack(e.request, e.argument) != ""
           && match r.errcode
              case NoError =>
                r.body != "" && exists v :: Answered(w, e, v) && r.body == codec.pack(e.reply, v)
              case ReplyPackError => exists v :: Answered(w, e, v) && codec.pack(e.reply, v) == ""
              case RequestInvalid => r.id in w.refused
              case RequestNotMatched => e.request in w.callbacks && w.callbacks[e.request].reply != e.reply
              case _ => false)
  }

  /** What a callback says. */
  ghost predicate OutcomeOk(codec: Codec, w: World, o: Outcome) {
    && o.id in w.emitted
    && var e := w.emitted[o.id];
       (o.Timeouted? || codec.pack(e.request, e.argument) != "") && match o
       case Done(_, v) => Answered(w, e, v) && codec.pack(e.reply, v) != ""
       case Timeouted(_) => true
       case Error(_, code) => match code
         case RequestInvalid => o.id in w.refused
         case RequestNotMatched => e.request in w.callbacks && w.callbacks[e.request].reply != e.reply
         case ReplyPackError => exists v :: Answered(w, e, v) && codec.pack(e.reply, v) == ""
         case _ => false
  }

  ghost predicate Genuine(codec: Codec, w: World) {
    && (forall m | m in w.requests :: RequestOk(codec, w, m))
    && (forall call | call in w.calls :: CallOk(w, call))
    && (forall r | r in w.replies :: ReplyOk(codec, w, r))
    && (forall k | 0 <= k < |w.client.log| :: OutcomeOk(codec, w, w.client.log[k]))
    && (forall name | name in w.callbacks :: w.callbacks[name].request == name)
  }

  ghost predicate Inv(codec: Codec, w: World) {
    Settled(w) && Kept(w) && Genuine(codec, w)
  }

  // ---------------------------------------------------------------- the client's tables

  lemma OutcomeMore(c: Client, o: Outcome, id: Id)
    ensures HasOutcome(c.(log := c.log + [o]), id) <==> HasOutcome(c, id) || id == o.id
  {
    var d := c.(log := c.log + [o]);
    assert d.log[|c.log|] == o;
    if HasOutcome(c, id) {
      var k :| 0 <= k < |c.log| && c.log[k].id == id;
      assert d.log[k].id == id;
    }
  }

  /** A callback for a pending request, which is then forgotten. */
  function Closed(w: World, o: Outcome): World {
    w.(client := Removed(w.client.(log := w.client.log + [o]), o.id))
  }

  lemma ClosedSettled(w: World, o: Outcome)
    requires Settled(w) && o.id in w.client.holders
    ensures Settled(Closed(w, o))
  {
    var c, d := w.client, Closed(w, o).client;
    forall id ensures HasOutcome(d, id) <==> HasOutcome(c, id) || id == o.id {
      OutcomeMore(c, o, id);
      assert HasOutcome(d, id) <==> HasOutcome(c.(log := c.log + [o]), id);
    }
    forall j, k | 0 <= j < k < |d.log| ensures d.log[j].id != d.log[k].id {
      if k == |c.log| {
        assert c.log[j].id == d.log[j].id;
        assert HasOutcome(c, d.log[j].id);
      }
    }
  }

  lemma ClosedInv(codec: Codec, w: World, o: Outcome)
    requires Inv(codec, w) && o.id in w.client.holders && OutcomeOk(codec, w, o)
    ensures Inv(codec, Closed(w, o))
  {
    hide Settled, OutcomeOk, ReplyOk, RequestOk, CallOk;
    ClosedSettled(w, o);
    SameWorld(codec, w, Closed(w, o).client);
    var d := Closed(w, o).client;
    forall k | 0 <= k < |d.log| ensures OutcomeOk(codec, Closed(w, o), d.log[k]) {
      if k < |w.client.log| {
        assert d.log[k] == w.client.log[k];
      }
    }
  }

  /** Replies, requests and callbacks are judged by the history alone. */
  lemma SameWorld(codec: Codec, w: World, c: Client)
    ensures var v := w.(client := c);
            && (forall m :: RequestOk(codec, v, m) <==> RequestOk(codec, w, m))
            && (forall x :: CallOk(v, x) <==> CallOk(w, x))
            && (forall r :: ReplyOk(codec, v, r) <==> ReplyOk(codec, w, r))
            && (forall o :: OutcomeOk(codec, v, o) <==> OutcomeOk(codec, w, o))
  {
    var v := w.(client := c);
    assert forall e, x :: Answered(v, e, x) <==> Answered(w, e, x);
  }

  // ---------------------------------------------------------------- steps

  /** History only grows. */
  ghost predicate Later(w: World, v: World) {
    && w.calls <= v.calls && w.refused <= v.refused
    && (forall id | id in w.emitted :: id in v.emitted && v.emitted[id] == w.emitted[id])
    && (forall name | name in w.callbacks :: name in v.callbacks && v.callbacks[name] == w.callbacks[name])
  }

  lemma StaysOk(codec: Codec, w: World, v: World)
    requires Later(w, v)
    ensures forall m :: RequestOk(codec, w, m) ==> RequestOk(codec, v, m)
    ensures forall x :: CallOk(w, x) ==> CallOk(v, x)
    ensures forall r :: ReplyOk(codec, w, r) ==> ReplyOk(codec, v, r)
    ensures forall o :: OutcomeOk(codec, w, o) ==> OutcomeOk(codec, v, o)
  {
    assert forall e, x :: Answered(w, e, x) ==> Answered(v, e, x);
  }

  lemma EmitKeeps(codec: Codec, w: World, a: Action)
    requires Inv(codec, w) && a.Emit?
    ensures Inv(codec, Apply(codec, w, a))
  {
    hide OutcomeOk, ReplyOk, RequestOk, CallOk, Settled;
    var h := NewHolder(w.client, a.request, a.reply, a.argument, a.now);
    var v := Apply(codec, w, a);
    NewId(w);
    StaysOk(codec, w, v);
    EmittedSettled(codec, w, a);
    assert RequestOk(codec, v, Pack(codec, h)) by {
      PackOk(codec, v, h);
    }
  }

  lemma NewId(w: World)
    requires Settled(w)
    ensures w.client.total + 1 !in w.emitted && w.client.total + 1 !in w.client.holders
  {
  }

  lemma PackOk(codec: Codec, v: World, h: Holder)
    requires h.id in v.emitted && v.emitted[h.id] == h
    ensures RequestOk(codec, v, Pack(codec, h))
  {
  }

  lemma EmittedSettled(codec: Codec, w: World, a: Action)
    requires Settled(w) && a.Emit?
    ensures Settled(Apply(codec, w, a))
  {
    var v := Apply(codec, w, a);
    assert forall id :: HasOutcome(v.client, id) <==> HasOutcome(w.client, id);
    NewId(w);
  }

  lemma SetTimeoutKeeps(codec: Codec, w: World, id: Id, ms: int)
    requires Inv(codec, w)
    ensures Inv(codec, Apply(codec, w, SetTimeout(id, ms)))
  {
    hide OutcomeOk, ReplyOk, RequestOk, CallOk;
    var c := TimeoutSet(w.client, id, ms);
    SameWorld(codec, w, c);
    assert forall x :: HasOutcome(c, x) <==> HasOutcome(w.client, x);
    assert c.holders.Keys == w.client.holders.Keys;
  }

  lemma OnKeeps(codec: Codec, w: World, cb: Callback)
    requires Inv(codec, w)
    ensures Inv(codec, Apply(codec, w, On(cb)))
  {
    hide OutcomeOk, ReplyOk, RequestOk, CallOk;
    StaysOk(codec, w, Apply(codec, w, On(cb)));
  }

  lemma RequestKeeps(codec: Codec, w: World, m: Request, result: Value)
    requires Faithful(codec) && Inv(codec, w) && m in w.requests
    ensures Inv(codec, Apply(codec, w, RequestArrives(m, result)))
  {
    hide OutcomeOk, ReplyOk, RequestOk, CallOk, Settled, Faithful;
    var a := RequestArrives(m, result);
    var v := Apply(codec, w, a);
    StaysOk(codec, w, v);
    RequestReply(codec, w, m, result);
    assert forall x :: HasOutcome(v.client, x) <==> HasOutcome(w.client, x);
    SettledSame(w, v);
  }

  lemma SettledSame(w: World, v: World)
    requires v.client == w.client && v.emitted == w.emitted
    ensures Settled(w) ==> Settled(v)
    ensures Kept(w) ==> Kept(v)
  {
  }

  /** What the server makes of a request that was really sent. */
  lemma RequestReply(codec: Codec, w: World, m: Request, result: Value)
    requires Faithful(codec) && RequestOk(codec, w, m)
    requires forall name | name in w.callbacks :: w.callbacks[name].request == name
    requires forall id | id in w.emitted :: w.emitted[id].id == id
    ensures var v := Apply(codec, w, RequestArrives(m, result));
            ReplyOk(codec, v, Requested(codec, w.callbacks, m, result))
    ensures var x := Argument(codec, w.callbacks, m);
            x.Some? ==> CallOk(Apply(codec, w, RequestArrives(m, result)), Call(m.id, m.request, x.value, result))
  {
    var v := Apply(codec, w, RequestArrives(m, result));
    if m.id != 0 {
      var e := w.emitted[m.id];
      assert codec.parse(e.request, m.body) == Some(e.argument);
      if Argument(codec, w.callbacks, m).Some? {
        assert Answered(v, e, result);
      }
    }
  }

  lemma ReplyKeeps(codec: Codec, w: World, r: Reply)
    requires Faithful(codec) && Inv(codec, w) && r in w.replies
    ensures Inv(codec, Apply(codec, w, ReplyArrives(r)))
  {
    hide Inv, Faithful;
    if r.id in w.client.holders {
      ReplyOutcome(codec, w, r);
      ClosedInv(codec, w, OutcomeOf(codec, w.client.holders[r.id], r));
    }
  }

  /** A reply that was really sent makes the callback that its request deserves. */
  lemma ReplyOutcome(codec: Codec, w: World, r: Reply)
    requires Faithful(codec) && Inv(codec, w) && r in w.replies && r.id in w.client.holders
    ensures var o := OutcomeOf(codec, w.client.holders[r.id], r); o.id == r.id && OutcomeOk(codec, w, o)
  {
    hide Settled, RequestOk, CallOk, OutcomeOk;
    assert w.client.holders.Keys <= w.emitted.Keys && 0 !in w.emitted by {
      HoldersEmitted(w);
    }
    var e, h := w.emitted[r.id], w.client.holders[r.id];
    assert SameRequest(h, e) && ReplyOk(codec, w, r);
    if r.errcode == NoError {
      var v :| Answered(w, e, v) && r.body == codec.pack(e.reply, v);
      assert codec.parse(e.reply, r.body) == Some(v);
    }
    assert OutcomeOk(codec, w, OutcomeOf(codec, h, r)) by {
      OutcomeOkIs(codec, w, OutcomeOf(codec, h, r));
    }
  }

  lemma HoldersEmitted(w: World)
    requires Settled(w)
    ensures w.client.holders.Keys <= w.emitted.Keys && 0 !in w.emitted && w.client.timed <= w.client.holders.Keys
  {
  }

  lemma OutcomeOkIs(codec: Codec, w: World, o: Outcome)
    requires o.id in w.emitted
    requires var e := w.emitted[o.id];
             (o.Timeouted? || codec.pack(e.request, e.argument) != "") && match o
             case Done(_, v) => Answered(w, e, v) && codec.pack(e.reply, v) != ""
             case Timeouted(_) => true
             case Error(_, code) => match code
               case RequestInvalid => o.id in w.refused
               case RequestNotMatched => e.request in w.callbacks && w.callbacks[e.request].reply != e.reply
               case ReplyPackError => exists v :: Answered(w, e, v) && codec.pack(e.reply, v) == ""
               case _ => false
    ensures OutcomeOk(codec, w, o)
  {
  }

  lemma {:induction false} CheckKeeps(codec: Codec, w: World, now: int, order: seq<Id>)
    requires Inv(codec, w)
    ensures Inv(codec, w.(client := Checked(w.client, now, order)))
    decreases |order|
  {
    hide Inv;
    if order != [] {
      CheckOneKeeps(codec, w, now, order[0]);
      CheckKeeps(codec, w.(client := CheckedOne(w.client, now, order[0])), now, order[1..]);
    }
  }

  lemma CheckOneKeeps(codec: Codec, w: World, now: int, id: Id)
    requires Inv(codec, w)
    ensures Inv(codec, w.(client := CheckedOne(w.client, now, id)))
  {
    hide ReplyOk, RequestOk, CallOk, Kept;
    if id in w.client.holders && IsTimeout(w.client.holders[id], now) {
      ClosedInv(codec, w, Timeouted(id));
    }
  }

  lemma StepKeeps(codec: Codec, w: World, a: Action)
    requires Faithful(codec) && Inv(codec, w) && Possible(w, a)
    ensures Inv(codec, Apply(codec, w, a))
  {
    hide Inv, Faithful;
    match a
    case Emit(_, _, _, _) => EmitKeeps(codec, w, a);
    case SetTimeout(id, ms) => SetTimeoutKeeps(codec, w, id, ms);
    case On(cb) => OnKeeps(codec, w, cb);
    case RequestArrives(m, result) => RequestKeeps(codec, w, m, result);
    case ReplyArrives(r) => ReplyKeeps(codec, w, r);
    case CheckTimeout(now, order) => CheckKeeps(codec, w, now, order);
  }

  lemma {:induction false} AfterInv(codec: Codec, actions: seq<Action>)
    requires Faithful(codec) && After(codec, actions).Some?
    ensures Inv(codec, After(codec, actions).value)
  {
    hide Inv, Faithful, Apply;
    if actions == [] {
      FreshInv(codec);
    } else {
      AfterInv(codec, actions[..|actions| - 1]);
      StepKeeps(codec, After(codec, actions[..|actions| - 1]).value, actions[|actions| - 1]);
    }
  }

  lemma FreshInv(codec: Codec)
    ensures Inv(codec, FRESH)
  {
  }

  // ---------------------------------------------------------------- theorems

  /**
   Every request that was ever emitted is pending or has had exactly one callback: never two, and none
   is forgotten.
   */
  lemma OneOutcome(codec: Codec, actions: seq<Action>)
    requires Faithful(codec) && After(codec, actions).Some?
    ensures var c := After(codec, actions).value.client;
            && (forall j, k | 0 <= j < k < |c.log| :: c.log[j].id != c.log[k].id)
            && (forall id: Id :: 0 < id <= c.total <==> id in c.holders || HasOutcome(c, id))
            && (forall id | id in c.holders :: !HasOutcome(c, id))
            && |c.holders| + |c.log| == c.total
  {
    hide After, Kept, Genuine, Faithful;
    AfterInv(codec, actions);
    Conserved(codec, actions);
  }

  lemma {:induction false} Conserved(codec: Codec, actions: seq<Action>)
    requires Faithful(codec) && After(codec, actions).Some?
    ensures var c := After(codec, actions).value.client; |c.holders| + |c.log| == c.total
  {
    hide Inv, Faithful, Apply, Possible;
    if actions != [] {
      var front, a := actions[..|actions| - 1], actions[|actions| - 1];
      Conserved(codec, front);
      AfterInv(codec, front);
      StepCounts(codec, After(codec, front).value, a);
    }
  }

  function Total(c: Client): nat {
    |c.holders| + |c.log|
  }

  lemma StepCounts(codec: Codec, w: World, a: Action)
    requires Inv(codec, w)
    ensures var v := Apply(codec, w, a); Total(v.client) - v.client.total == Total(w.client) - w.client.total
  {
    hide Kept, Genuine, Settled;
    match a
    case Emit(request, reply, argument, now) =>
      NewId(w);
    case SetTimeout(id, ms) =>
      if id in w.client.holders {
        SetCounts(w.client.holders, id, w.client.holders[id].(timeout := Some(ms)));
      }
    case ReplyArrives(r) =>
      if r.id in w.client.holders {
        RemovedCounts(w.client, OutcomeOf(codec, w.client.holders[r.id], r), r.id);
      }
    case CheckTimeout(now, order) => CheckedCounts(w.client, now, order);
    case _ =>
  }

  lemma SetCounts(m: map<Id, Holder>, id: Id, h: Holder)
    requires id in m
    ensures |m[id := h]| == |m|
  {
    assert m[id := h].Keys == m.Keys;
    assert |m| == |m.Keys| && |m[id := h]| == |m[id := h].Keys|;
  }

  lemma RemovedCounts(c: Client, o: Outcome, id: Id)
    requires id in c.holders
    ensures Total(Removed(c.(log := c.log + [o]), id)) == Total(c)
  {
    var rest := c.holders - {id};
    assert rest.Keys == c.holders.Keys - {id};
    assert |rest| == |rest.Keys| && |c.holders| == |c.holders.Keys|;
  }

  lemma {:induction false} CheckedCounts(c: Client, now: int, order: seq<Id>)
    ensures Total(Checked(c, now, order)) == Total(c) && Checked(c, now, order).total == c.total
    decreases |order|
  {
    hide Total;
    if order != [] {
      var id := order[0];
      if id in c.holders && IsTimeout(c.holders[id], now) {
        RemovedCounts(c, Timeouted(id), id);
      }
      CheckedCounts(CheckedOne(c, now, id), now, order[1..]);
    }
  }

  /**
   A done callback gets the value that the handler returned when it was called with the argument of
   this very request.
   */
  lemma DoneIsTheResult(codec: Codec, actions: seq<Action>, k: nat)
    requires Faithful(codec) && After(codec, actions).Some?
    requires k < |After(codec, actions).value.client.log| && After(codec, actions).value.client.log[k].Done?
    ensures var w := After(codec, actions).value;
            var o := w.client.log[k];
            && o.id in w.emitted
            && var e := w.emitted[o.id];
               Call(o.id, e.request, e.argument, o.result) in w.calls && codec.pack(e.reply, o.result) != ""
  {
    hide After, Settled, Faithful;
    AfterInv(codec, actions);
    var w := After(codec, actions).value;
    assert OutcomeOk(codec, w, w.client.log[k]);
  }

  /**
   An error is never the client's own: no reply of the server is mismatched or unreadable. It says
   that the request arrived when its type had no callback, that the callback of its type answers with
   another reply type, or that the handler was called and its result packs to nothing.
   */
  lemma ErrorsAreTheServers(codec: Codec, actions: seq<Action>, k: nat)
    requires Faithful(codec) && After(codec, actions).Some?
    requires k < |After(codec, actions).value.client.log| && After(codec, actions).value.client.log[k].Error?
    ensures var w := After(codec, actions).value;
            var o := w.client.log[k];
            && o.id in w.emitted
            && var e := w.emitted[o.id];
               match o.code
               case RequestInvalid => o.id in w.refused
               case RequestNotMatched => e.request in w.callbacks && w.callbacks[e.request].reply != e.reply
               case ReplyPackError => exists v :: Call(o.id, e.request, e.argument, v) in w.calls && codec.pack(e.reply, v) == ""
               case _ => false
  {
    hide After, Settled, Faithful;
    AfterInv(codec, actions);
    var w := After(codec, actions).value;
    var o := w.client.log[k];
    assert OutcomeOk(codec, w, o);
    if o.code.ReplyPackError? {
      var v :| Answered(w, w.emitted[o.id], v) && codec.pack(w.emitted[o.id].reply, v) == "";
      assert Call(o.id, w.emitted[o.id].request, w.emitted[o.id].argument, v) in w.calls;
    }
  }

  /** A request that packs to nothing goes out blank; nothing but a timeout ever ends it. */
  lemma BlankOnlyTimesOut(codec: Codec, actions: seq<Action>, k: nat)
    requires Faithful(codec) && After(codec, actions).Some?
    requires k < |After(codec, actions).value.client.log|
    requires var w := After(codec, actions).value;
             var o := w.client.log[k];
             o.id in w.emitted && codec.pack(w.emitted[o.id].request, w.emitted[o.id].argument) == ""
    ensures After(codec, actions).value.client.log[k].Timeouted?
  {
    hide After, Settled, Faithful;
    AfterInv(codec, actions);
    var w := After(codec, actions).value;
    assert OutcomeOk(codec, w, w.client.log[k]);
  }

  /** The timeout table holds pending requests only. */
  lemma TimedArePending(codec: Codec, actions: seq<Action>)
    requires Faithful(codec) && After(codec, actions).Some?
    ensures var c := After(codec, actions).value.client; c.timed <= c.holders.Keys
  {
    hide After, Kept, Genuine, Faithful;
    AfterInv(codec, actions);
  }

  /** Once a request has had its callback, no reply to it changes anything, late or repeated. */
  lemma LateReplyIgnored(codec: Codec, actions: seq<Action>, r: Reply)
    requires Faithful(codec) && After(codec, actions).Some? && HasOutcome(After(codec, actions).value.client, r.id)
    ensures var w := After(codec, actions).value; Apply(codec, w, ReplyArrives(r)) == w
  {
    hide After, Kept, Genuine, Faithful;
    AfterInv(codec, actions);
    var w := After(codec, actions).value;
    assert r.id !in w.client.holders;
  }

  // ---------------------------------------------------------------- checkTimeout

  /** The timed requests among ids whose time is over. */
  function Expired(c: Client, now: int, ids: seq<Id>): set<Id> {
    set id | id in ids && id in c.timed && id in c.holders && IsTimeout(c.holders[id], now)
  }

  lemma CheckedStep(c: Client, now: int, id: Id, rest: seq<Id>)
    requires id in c.timed && id !in rest
    ensures var d := CheckedOne(c, now, id);
            && (id in c.holders && IsTimeout(c.holders[id], now) <==> id in Expired(c, now, [id] + rest))
            && Expired(d, now, rest) == Expired(c, now, [id] + rest) - {id}
            && Expired(d, now, rest) == Expired(c, now, rest)
  {
  }

  /**
   checkTimeout ends exactly the timed requests whose time is over, whatever order it meets them in,
   and leaves all others as they were.
   */
  lemma {:induction false} CheckedIs(c: Client, now: int, order: seq<Id>)
    requires (forall id | id in order :: id in c.timed) && Distinct(order)
    ensures var d, gone := Checked(c, now, order), Expired(c, now, order);
            d.holders == c.holders - gone && d.timed == c.timed - gone && d.total == c.total
    decreases |order|
  {
    hide CheckedOne, Expired;
    if order == [] {
      assert Expired(c, now, []) == {} by {
        NoneExpired(c, now);
      }
    } else {
      var d, id, rest := CheckedOne(c, now, order[0]), order[0], order[1..];
      assert order == [id] + rest;
      CheckedStep(c, now, id, rest);
      OneChecked(c, now, id);
      CheckedIs(d, now, rest);
    }
  }

  lemma NoneExpired(c: Client, now: int)
    ensures Expired(c, now, []) == {}
  {
  }

  lemma OneChecked(c: Client, now: int, id: Id)
    ensures var d, over := CheckedOne(c, now, id), id in c.holders && IsTimeout(c.holders[id], now);
            && d.holders == (if over then c.holders - {id} else c.holders)
            && d.timed == (if over then c.timed - {id} else c.timed)
            && d.log == (if over then c.log + [Timeouted(id)] else c.log)
            && d.total == c.total
  {
  }

  function Timeouts(log: seq<Outcome>): set<Id> {
    set k | 0 <= k < |log| && log[k].Timeouted? :: log[k].id
  }

  /** It makes the timeout callback for each of them, and counts them. */
  lemma {:induction false} CheckedTells(c: Client, now: int, order: seq<Id>)
    requires (forall id | id in order :: id in c.timed) && Distinct(order)
    ensures var d, gone := Checked(c, now, order), Expired(c, now, order);
            && c.log <= d.log && |d.log| - |c.log| == |gone|
            && (forall k | |c.log| <= k < |d.log| :: d.log[k].Timeouted?)
            && Timeouts(d.log) == Timeouts(c.log) + gone
    decreases |order|
  {
    hide CheckedOne, Expired, Timeouts;
    if order == [] {
      NoneExpired(c, now);
    } else {
      var d, id, rest := CheckedOne(c, now, order[0]), order[0], order[1..];
      assert order == [id] + rest;
      CheckedStep(c, now, id, rest);
      OneChecked(c, now, id);
      CheckedTells(d, now, rest);
      TimeoutsMore(c.log, id);
    }
  }

  lemma TimeoutsMore(log: seq<Outcome>, id: Id)
    ensures Timeouts(log + [Timeouted(id)]) == Timeouts(log) + {id}
  {
    var l := log + [Timeouted(id)];
    assert forall k | 0 <= k < |log| :: l[k] == log[k];
    assert l[|log|].id == id;
    forall x | x in Timeouts(log) ensures x in Timeouts(l) {
      var k :| 0 <= k < |log| && log[k].Timeouted? && log[k].id == x;
      assert l[k].id == x;
    }
  }
}
