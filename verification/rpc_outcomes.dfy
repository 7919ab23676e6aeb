/**
 Which callback a request gets, over every run: done exactly with the server's value, an error exactly
 with its code, a timeout only by a checkTimeout that finds the time over, and then always.
 */
module RpcOutcomes {
  import opened Options
  import opened RpcModel
  import opened RpcTheorems

  // ---------------------------------------------------------------- runs, one action longer

  ghost predicate Reached(codec: Codec, actions: seq<Action>, w: World) {
    After(codec, actions) == Some(w)
  }

  lemma OneMore(codec: Codec, actions: seq<Action>, w: World, a: Action)
    requires Reached(codec, actions, w) && Possible(w, a)
    ensures Reached(codec, actions + [a], Apply(codec, w, a))
  {
    hide Possible, Apply;
    assert (actions + [a])[..|actions|] == actions;
  }

  /** The world before action n. */
  lemma Earlier(codec: Codec, actions: seq<Action>, w: World) returns (v: World)
    requires Reached(codec, actions, w) && actions != []
    ensures var n := |actions| - 1;
            Reached(codec, actions[..n], v) && Possible(v, actions[n]) && w == Apply(codec, v, actions[n])
  {
    hide Possible, Apply;
    v := After(codec, actions[..|actions| - 1]).value;
  }

  lemma ReachedInv(codec: Codec, actions: seq<Action>, w: World)
    requires Faithful(codec) && Reached(codec, actions, w)
    ensures Inv(codec, w)
  {
    hide After, Inv, Faithful;
    AfterInv(codec, actions);
  }

  // ---------------------------------------------------------------- timeouts

  /** setTimeout(ms) is what was last done about the timeout of id. */
  ghost predicate LastSet(actions: seq<Action>, id: Id, ms: int) {
    exists m :: 0 <= m < |actions| && actions[m] == SetTimeout(id, ms)
                && forall k | m < k < |actions| :: !(actions[k].SetTimeout? && actions[k].id == id)
  }

  /** A pending request has the timeout that was set last, and is in the timeout table if that is one. */
  ghost predicate TimesSet(c: Client, actions: seq<Action>) {
    forall id | id in c.holders && c.holders[id].timeout.Some? ::
      && LastSet(actions, id, c.holders[id].timeout.value)
      && (c.holders[id].timeout.value >= 0 ==> id in c.timed)
  }

  lemma LastSetMore(actions: seq<Action>, a: Action, id: Id, ms: int)
    ensures a == SetTimeout(id, ms) ==> LastSet(actions + [a], id, ms)
    ensures LastSet(actions, id, ms) && !(a.SetTimeout? && a.id == id) ==> LastSet(actions + [a], id, ms)
  {
    var more := actions + [a];
    assert more[|actions|] == a;
    if LastSet(actions, id, ms) {
      var m :| 0 <= m < |actions| && actions[m] == SetTimeout(id, ms)
               && forall k | m < k < |actions| :: !(actions[k].SetTimeout? && actions[k].id == id);
      assert more[m] == actions[m];
    }
  }

  /** checkTimeout takes requests away and changes none. */
  lemma {:induction false} CheckedFewer(c: Client, now: int, order: seq<Id>)
    ensures var d := Checked(c, now, order);
            forall id | id in d.holders :: id in c.holders && d.holders[id] == c.holders[id] && (id in c.timed ==> id in d.timed)
    decreases |order|
  {
    hide CheckedOne;
    if order != [] {
      CheckedOneFewer(c, now, order[0]);
      CheckedFewer(CheckedOne(c, now, order[0]), now, order[1..]);
    }
  }

  lemma CheckedOneFewer(c: Client, now: int, id: Id)
    ensures var d := CheckedOne(c, now, id);
            forall i | i in d.holders :: i in c.holders && d.holders[i] == c.holders[i] && (i in c.timed ==> i in d.timed)
  {
  }

  /** What any step leaves of the pending requests. */
  lemma StepHolders(codec: Codec, w: World, a: Action)
    ensures var c, d := w.client, Apply(codec, w, a).client;
            forall id | id in d.holders && d.holders[id].timeout.Some? ::
              if a.SetTimeout? && a.id == id then d.holders[id].timeout == Some(a.ms) && (a.ms >= 0 ==> id in d.timed)
              else id in c.holders && d.holders[id] == c.holders[id] && (id in c.timed ==> id in d.timed)
  {
    hide IsTimeout, Requested, Argument, Pack, OutcomeOf, Checked;
    if a.CheckTimeout? {
      CheckedFewer(w.client, a.now, a.order);
    }
  }

  lemma StepTimesSet(codec: Codec, w: World, a: Action, actions: seq<Action>)
    requires TimesSet(w.client, actions)
    ensures TimesSet(Apply(codec, w, a).client, actions + [a])
  {
    hide Apply, LastSet;
    StepHolders(codec, w, a);
    var d := Apply(codec, w, a).client;
    forall id | id in d.holders && d.holders[id].timeout.Some?
      ensures LastSet(actions + [a], id, d.holders[id].timeout.value)
    {
      LastSetMore(actions, a, id, d.holders[id].timeout.value);
    }
  }

  lemma {:induction false} AfterTimesSet(codec: Codec, actions: seq<Action>, w: World)
    requires Reached(codec, actions, w)
    ensures TimesSet(w.client, actions)
    decreases |actions|
  {
    hide Apply, TimesSet, Possible;
    if actions == [] {
      NothingSet();
    } else {
      var n := |actions| - 1;
      var v := Earlier(codec, actions, w);
      AfterTimesSet(codec, actions[..n], v);
      StepTimesSet(codec, v, actions[n], actions[..n]);
      assert actions == actions[..n] + [actions[n]];
    }
  }

  lemma NothingSet()
    ensures TimesSet(FRESH.client, [])
  {
  }

  /** Action n is a checkTimeout in a world where id is pending and its time is over. */
  ghost predicate OverAt(codec: Codec, actions: seq<Action>, n: nat, id: Id) {
    n < |actions| && actions[n].CheckTimeout? && exists v: World, ms: int ::
      && Reached(codec, actions[..n], v) && id in v.client.holders && LastSet(actions[..n], id, ms)
      && ms >= 0 && actions[n].now - v.client.holders[id].created > ms
  }

  /** What a step adds to the log, if it adds timeouts: it is a checkTimeout that finds them over. */
  lemma {:induction false} CheckedOver(c: Client, now: int, order: seq<Id>, k: nat)
    requires |c.log| <= k < |Checked(c, now, order).log|
    ensures c.log <= Checked(c, now, order).log
    ensures var id := Checked(c, now, order).log[k].id;
            id in c.holders && c.holders[id].timeout.Some? && c.holders[id].timeout.value >= 0
            && now - c.holders[id].created > c.holders[id].timeout.value
    decreases |order|
  {
    hide CheckedOne;
    if order != [] {
      var d := CheckedOne(c, now, order[0]);
      CheckedOneOver(c, now, order[0]);
      CheckedOneFewer(c, now, order[0]);
      CheckedGrows(d, now, order[1..]);
      if k >= |d.log| {
        CheckedOver(d, now, order[1..], k);
      } else {
        assert Checked(c, now, order).log[k] == d.log[k];
      }
    }
  }

  lemma CheckedOneOver(c: Client, now: int, id: Id)
    ensures var d := CheckedOne(c, now, id);
            || d.log == c.log
            || (d.log == c.log + [Timeouted(id)] && id in c.holders && c.holders[id].timeout.Some?
                && c.holders[id].timeout.value >= 0 && now - c.holders[id].created > c.holders[id].timeout.value)
  {
  }

  lemma {:induction false} CheckedGrows(c: Client, now: int, order: seq<Id>)
    ensures c.log <= Checked(c, now, order).log
    decreases |order|
  {
    hide CheckedOne;
    if order != [] {
      CheckedOneOver(c, now, order[0]);
      CheckedGrows(CheckedOne(c, now, order[0]), now, order[1..]);
    }
  }

  /** No reply is answered with the timeout callback. */
  lemma ReplyNoTimeout(codec: Codec, c: Client, r: Reply, k: nat)
    requires |c.log| <= k < |Replied(codec, c, r).log|
    ensures !Replied(codec, c, r).log[k].Timeouted?
  {
  }

  lemma StepLog(codec: Codec, w: World, a: Action)
    ensures w.client.log <= Apply(codec, w, a).client.log
    ensures !a.ReplyArrives? && !a.CheckTimeout? ==> Apply(codec, w, a).client.log == w.client.log
  {
    hide Requested, Argument, Pack, OutcomeOf, Checked;
    if a.CheckTimeout? {
      CheckedGrows(w.client, a.now, a.order);
    }
  }

  /** Over every run: a timeout callback was made by a checkTimeout that found the time of the pending request over. */
  lemma {:induction false} TimeoutsAreOver(codec: Codec, actions: seq<Action>, w: World, k: nat)
    requires Reached(codec, actions, w) && k < |w.client.log| && w.client.log[k].Timeouted?
    ensures exists n: nat :: OverAt(codec, actions, n, w.client.log[k].id)
    decreases |actions|
  {
    hide Apply, LastSet, After, Possible;
    if actions == [] {
      FreshLog(codec, actions, w);
    } else {
      var n, id := |actions| - 1, w.client.log[k].id;
      var v := Earlier(codec, actions, w);
      StepLog(codec, v, actions[n]);
      if k < |v.client.log| {
        TimeoutsAreOver(codec, actions[..n], v, k);
        var m: nat :| OverAt(codec, actions[..n], m, id);
        OverStays(codec, actions, n, m, id);
      } else {
        NewTimeout(codec, actions, v, k);
        assert OverAt(codec, actions, n, id);
      }
    }
  }

  lemma OverStays(codec: Codec, actions: seq<Action>, n: nat, m: nat, id: Id)
    requires n <= |actions| && OverAt(codec, actions[..n], m, id)
    ensures OverAt(codec, actions, m, id)
  {
    hide LastSet, After;
    assert actions[..n][..m] == actions[..m];
  }

  lemma FreshLog(codec: Codec, actions: seq<Action>, w: World)
    requires Reached(codec, actions, w) && actions == []
    ensures w.client.log == []
  {
  }

  lemma NewTimeout(codec: Codec, actions: seq<Action>, v: World, k: nat)
    requires actions != [] && Reached(codec, actions[..|actions| - 1], v)
    requires var d := Apply(codec, v, actions[|actions| - 1]).client; |v.client.log| <= k < |d.log| && d.log[k].Timeouted?
    ensures OverAt(codec, actions, |actions| - 1, Apply(codec, v, actions[|actions| - 1]).client.log[k].id)
  {
    hide LastSet, After, OutcomeOf, Requested, Argument, Pack, Removed, Checked;
    var n := |actions| - 1;
    var a := actions[n];
    StepLog(codec, v, a);
    if a.CheckTimeout? {
      CheckedOver(v.client, a.now, a.order, k);
      AfterTimesSet(codec, actions[..n], v);
    } else if a.ReplyArrives? {
      ReplyNoTimeout(codec, v.client, a.r, k);
    }
  }

  /** And the other way round: checkTimeout ends every pending request whose time is over. */
  lemma OverTimesOut(codec: Codec, actions: seq<Action>, w: World, now: int, order: seq<Id>, id: Id)
    requires Reached(codec, actions, w) && Possible(w, CheckTimeout(now, order))
    requires id in w.client.holders && w.client.holders[id].timeout.Some? && w.client.holders[id].timeout.value >= 0
    requires now - w.client.holders[id].created > w.client.holders[id].timeout.value
    ensures var d := Apply(codec, w, CheckTimeout(now, order)).client;
            id !in d.holders && exists k :: |w.client.log| <= k < |d.log| && d.log[k] == Timeouted(id)
  {
    hide After, Checked;
    AfterTimesSet(codec, actions, w);
    var c := w.client;
    TimedOut(c, now, order, id);
  }

  lemma {:induction false} TimedOut(c: Client, now: int, order: seq<Id>, id: Id)
    requires id in order && id in c.holders && c.holders[id].timeout.Some? && c.holders[id].timeout.value >= 0
    requires now - c.holders[id].created > c.holders[id].timeout.value
    ensures var d := Checked(c, now, order);
            id !in d.holders && exists k :: |c.log| <= k < |d.log| && d.log[k] == Timeouted(id)
    decreases |order|
  {
    hide CheckedOne;
    var c1 := CheckedOne(c, now, order[0]);
    CheckedOneOver(c, now, order[0]);
    CheckedGrows(c1, now, order[1..]);
    if order[0] == id {
      FirstTimesOut(c, now, id);
      CheckedFewer(c1, now, order[1..]);
      assert Checked(c, now, order).log[|c.log|] == Timeouted(id);
    } else {
      OthersStay(c, now, order[0], id);
      TimedOut(c1, now, order[1..], id);
      var k :| |c1.log| <= k < |Checked(c, now, order).log| && Checked(c, now, order).log[k] == Timeouted(id);
    }
  }

  lemma FirstTimesOut(c: Client, now: int, id: Id)
    requires id in c.holders && c.holders[id].timeout.Some? && c.holders[id].timeout.value >= 0
    requires now - c.holders[id].created > c.holders[id].timeout.value
    ensures var d := CheckedOne(c, now, id); id !in d.holders && d.log == c.log + [Timeouted(id)]
  {
  }

  lemma OthersStay(c: Client, now: int, other: Id, id: Id)
    requires other != id && id in c.holders
    ensures var d := CheckedOne(c, now, other); id in d.holders && d.holders[id] == c.holders[id]
  {
  }

  // ---------------------------------------------------------------- replies

  /**
   A reply to a pending request ends it with one callback: the error the server sent, ReplyNotMatched if
   a type name is another, ReplyParseError if the body cannot be read, and else done with what it says.
   */
  lemma ReplyEnds(codec: Codec, w: World, r: Reply)
    requires r.id in w.client.holders
    ensures var c, d := w.client, Apply(codec, w, ReplyArrives(r)).client;
            var h := c.holders[r.id];
            && d.holders == c.holders - {r.id} && d.timed == c.timed - {r.id} && d.total == c.total
            && |d.log| == |c.log| + 1 && d.log[..|c.log|] == c.log
            && var o := d.log[|c.log|];
               && (r.errcode != NoError ==> o == Error(h.id, r.errcode))
               && (r.errcode == NoError && !(r.request == h.request && r.reply == h.reply) ==> o == Error(h.id, ReplyNotMatched))
               && (r.errcode == NoError && r.request == h.request && r.reply == h.reply ==>
                     && (codec.parse(h.reply, r.body).None? ==> o == Error(h.id, ReplyParseError))
                     && (forall v :: codec.parse(h.reply, r.body) == Some(v) ==> o == Done(h.id, v)))
  {
  }

  // ---------------------------------------------------------------- there and back

  /** What was emitted is on its way. */
  ghost predicate Sent(codec: Codec, w: World) {
    forall id | id in w.emitted :: Pack(codec, w.emitted[id]) in w.requests
  }

  lemma StepSent(codec: Codec, w: World, a: Action)
    requires Sent(codec, w)
    ensures Sent(codec, Apply(codec, w, a))
  {
    hide Requested, Argument, Pack, OutcomeOf, Checked;
  }

  lemma {:induction false} AfterSent(codec: Codec, actions: seq<Action>, w: World)
    requires Reached(codec, actions, w)
    ensures Sent(codec, w)
    decreases |actions|
  {
    hide Apply, Possible, Pack;
    if actions != [] {
      var v := Earlier(codec, actions, w);
      AfterSent(codec, actions[..|actions| - 1], v);
      StepSent(codec, v, actions[|actions| - 1]);
    }
  }

  /** What the server makes of the request e, with result from the handler. */
  function Verdict(codec: Codec, s: Callbacks, e: Holder, result: Value): ErrorCode {
    if e.request !in s then RequestInvalid
    else if s[e.request].reply != e.reply then RequestNotMatched
    else if codec.pack(e.reply, result) == "" then ReplyPackError
    else NoError
  }

  /**
   A pending request that packs to something may arrive at any time; the reply then sent, when it
   arrives, makes done with the handler's result, or the error for a type without a callback, with
   another reply type, or with a result that packs to nothing.
   */
  lemma ThereAndBack(codec: Codec, actions: seq<Action>, w: World, id: Id, result: Value)
    requires Faithful(codec) && Reached(codec, actions, w) && id in w.client.holders && id in w.emitted
    requires var e := w.emitted[id]; codec.pack(e.request, e.argument) != ""
    ensures var e := w.emitted[id];
            var m := Request(id, e.request, e.reply, codec.pack(e.request, e.argument));
            var code := if e.request !in w.callbacks then RequestInvalid
                        else if w.callbacks[e.request].reply != e.reply then RequestNotMatched
                        else if codec.pack(e.reply, result) == "" then ReplyPackError
                        else NoError;
            var r := Reply(id, e.request, e.reply, if code == NoError then codec.pack(e.reply, result) else "", code);
            var after := After(codec, actions + [RequestArrives(m, result), ReplyArrives(r)]);
            && after.Some?
            && after.value.client.log == w.client.log + [if code == NoError then Done(id, result) else Error(id, code)]
            && after.value.client.holders == w.client.holders - {id}
  {
    hide After, Faithful, Inv, Apply, Possible;
    var e := w.emitted[id];
    var m := Request(id, e.request, e.reply, codec.pack(e.request, e.argument));
    var code := Verdict(codec, w.callbacks, e, result);
    var r := Reply(id, e.request, e.reply, if code == NoError then codec.pack(e.reply, result) else "", code);
    AfterSent(codec, actions, w);
    ReachedInv(codec, actions, w);
    Pending(codec, w, id);
    var v := Apply(codec, w, RequestArrives(m, result));
    ServerReplies(codec, w, e, result);
    OneMore(codec, actions, w, RequestArrives(m, result)) by {
      Arrives(w, m, result);
    }
    OneMore(codec, actions + [RequestArrives(m, result)], v, ReplyArrives(r)) by {
      Returns(v, r);
    }
    assert actions + [RequestArrives(m, result)] + [ReplyArrives(r)] == actions + [RequestArrives(m, result), ReplyArrives(r)];
    ReplyEnds(codec, v, r);
    ReadBack(codec, w, e, result);
    var log := Apply(codec, v, ReplyArrives(r)).client.log;
    assert log == log[..|w.client.log|] + [log[|w.client.log|]];
  }

  lemma Arrives(w: World, m: Request, result: Value)
    requires m in w.requests
    ensures Possible(w, RequestArrives(m, result))
  {
  }

  lemma Returns(w: World, r: Reply)
    requires r in w.replies
    ensures Possible(w, ReplyArrives(r))
  {
  }

  lemma Pending(codec: Codec, w: World, id: Id)
    requires Inv(codec, w) && Sent(codec, w) && id in w.client.holders && id in w.emitted
    requires codec.pack(w.emitted[id].request, w.emitted[id].argument) != ""
    ensures var e, h := w.emitted[id], w.client.holders[id];
            && e.id == id && h.id == id && h.request == e.request && h.reply == e.reply
            && Request(id, e.request, e.reply, codec.pack(e.request, e.argument)) in w.requests
            && (e.request in w.callbacks ==> w.callbacks[e.request].request == e.request)
  {
    hide Settled, RequestOk, ReplyOk, OutcomeOk, CallOk;
    assert Pack(codec, w.emitted[id]) in w.requests;
  }

  /** The body of a reply without error is read back as the result. */
  lemma ReadBack(codec: Codec, w: World, e: Holder, result: Value)
    requires Faithful(codec)
    ensures Verdict(codec, w.callbacks, e, result) == NoError ==> codec.parse(e.reply, codec.pack(e.reply, result)) == Some(result)
  {
  }

  lemma ServerReplies(codec: Codec, w: World, e: Holder, result: Value)
    requires Faithful(codec) && codec.pack(e.request, e.argument) != ""
    requires e.request in w.callbacks ==> w.callbacks[e.request].request == e.request
    ensures var m := Request(e.id, e.request, e.reply, codec.pack(e.request, e.argument));
            var code := Verdict(codec, w.callbacks, e, result);
            var v := Apply(codec, w, RequestArrives(m, result));
            && Reply(e.id, e.request, e.reply, if code == NoError then codec.pack(e.reply, result) else "", code) in v.replies
            && v.client == w.client
  {
    hide Argument;
    assert codec.parse(e.request, codec.pack(e.request, e.argument)) == Some(e.argument);
  }

  // ---------------------------------------------------------------- emit and on

  /** emit makes the next id pending without a timeout and sends its message; nothing else changes. */
  lemma EmitPends(codec: Codec, w: World, request: string, reply: string, argument: Value, now: int)
    ensures var v, id := Apply(codec, w, Emit(request, reply, argument, now)), w.client.total + 1;
            && v.client == Client(id, w.client.holders[id := Holder(id, request, reply, argument, now, None)], w.client.timed, w.client.log)
            && v.requests == w.requests + {if codec.pack(request, argument) == "" then Request(0, "", "", "")
                                           else Request(id, request, reply, codec.pack(request, argument))}
  {
  }

  /** The callback bound to a type is the first that on was called with for it. */
  ghost predicate FirstOn(actions: seq<Action>, name: string, cb: Callback) {
    exists n :: 0 <= n < |actions| && actions[n] == On(cb) && cb.request == name
                && forall m | 0 <= m < n :: !(actions[m].On? && actions[m].callback.request == name)
  }

  lemma FirstOnMore(actions: seq<Action>, a: Action, name: string, cb: Callback)
    ensures FirstOn(actions + [a], name, cb) <==>
              FirstOn(actions, name, cb)
              || (a == On(cb) && cb.request == name && forall d :: !FirstOn(actions, name, d))
  {
    var more := actions + [a];
    assert more[|actions|] == a;
    if FirstOn(more, name, cb) {
      var n :| 0 <= n < |more| && more[n] == On(cb) && cb.request == name
               && forall m | 0 <= m < n :: !(more[m].On? && more[m].callback.request == name);
      if n < |actions| {
        assert actions[n] == more[n];
        forall m | 0 <= m < n ensures !(actions[m].On? && actions[m].callback.request == name) {
          assert more[m] == actions[m];
        }
      } else {
        forall m | 0 <= m < |actions| ensures !(actions[m].On? && actions[m].callback.request == name) {
          assert more[m] == actions[m];
        }
      }
    }
    if FirstOn(actions, name, cb) {
      var n :| 0 <= n < |actions| && actions[n] == On(cb) && cb.request == name
               && forall m | 0 <= m < n :: !(actions[m].On? && actions[m].callback.request == name);
      assert more[n] == actions[n];
    }
    if a == On(cb) && cb.request == name && forall d :: !FirstOn(actions, name, d) {
      NobodyOn(actions, name);
    }
  }

  lemma {:induction false} NobodyOn(actions: seq<Action>, name: string)
    requires forall d :: !FirstOn(actions, name, d)
    ensures forall m | 0 <= m < |actions| :: !(actions[m].On? && actions[m].callback.request == name)
    decreases |actions|
  {
    forall m | 0 <= m < |actions| ensures !(actions[m].On? && actions[m].callback.request == name) {
      FirstBefore(actions, name, m);
    }
  }

  lemma {:induction false} FirstBefore(actions: seq<Action>, name: string, m: nat)
    requires m < |actions| && forall d :: !FirstOn(actions, name, d)
    ensures !(actions[m].On? && actions[m].callback.request == name)
    decreases m
  {
    forall k: nat | k < m ensures !(actions[k].On? && actions[k].callback.request == name) {
      FirstBefore(actions, name, k);
    }
    if actions[m].On? && actions[m].callback.request == name {
      assert FirstOn(actions, name, actions[m].callback);
    }
  }

  lemma StepBound(codec: Codec, w: World, a: Action)
    ensures Apply(codec, w, a).callbacks ==
              if a.On? && a.callback.request !in w.callbacks then w.callbacks[a.callback.request := a.callback] else w.callbacks
  {
    hide Requested, Argument, Pack, OutcomeOf, Checked;
  }

  /** Over every run: a type has a callback if and only if on was called for it, and it is the first one. */
  lemma {:induction false} FirstCallbackStays(codec: Codec, actions: seq<Action>, w: World, name: string, cb: Callback)
    requires Reached(codec, actions, w)
    ensures name in w.callbacks && w.callbacks[name] == cb <==> FirstOn(actions, name, cb)
    decreases |actions|
  {
    hide Apply, Possible, FirstOn;
    if actions == [] {
      NobodyYet(codec, actions, w, name, cb);
    } else {
      var n := |actions| - 1;
      var v := Earlier(codec, actions, w);
      forall d ensures name in v.callbacks && v.callbacks[name] == d <==> FirstOn(actions[..n], name, d) {
        FirstCallbackStays(codec, actions[..n], v, name, d);
      }
      StepBound(codec, v, actions[n]);
      assert actions == actions[..n] + [actions[n]];
      FirstOnMore(actions[..n], actions[n], name, cb);
      assert name in v.callbacks ==> FirstOn(actions[..n], name, v.callbacks[name]);
      assert actions[n].On? ==> actions[n] == On(actions[n].callback);
    }
  }

  lemma NobodyYet(codec: Codec, actions: seq<Action>, w: World, name: string, cb: Callback)
    requires Reached(codec, actions, w) && actions == []
    ensures name !in w.callbacks && !FirstOn(actions, name, cb)
  {
  }

  // ---------------------------------------------------------------- the server's answers

  /**
   Whatever arrives, genuine or not, is answered under its own id and names: RequestInvalid for a type
   without a callback, RequestNotMatched for another reply type, RequestParseError for a body that cannot
   be read, ReplyPackError for a result that packs to nothing, and else the packed result.
   */
  lemma ServerAnswers(codec: Codec, s: Callbacks, m: Request, result: Value)
    ensures var r := Requested(codec, s, m, result);
            && r.id == m.id && r.request == m.request && r.reply == m.reply
            && (m.request !in s ==> r.errcode == RequestInvalid)
            && (m.request in s && !(s[m.request].request == m.request && s[m.request].reply == m.reply) ==> r.errcode == RequestNotMatched)
            && (m.request in s && s[m.request].request == m.request && s[m.request].reply == m.reply ==>
                  if codec.parse(m.request, m.body).None? then r.errcode == RequestParseError
                  else if codec.pack(m.reply, result) == "" then r.errcode == ReplyPackError
                  else r.errcode == NoError && r.body == codec.pack(m.reply, result))
            && (r.errcode != NoError ==> r.body == "")
  {
  }

  // ---------------------------------------------------------------- runs there are

  /** From the start: on, emit, the request arrives, its reply arrives, and the request is done with the result. */
  lemma FirstRun(codec: Codec, request: string, reply: string, argument: Value, result: Value, now: int)
    requires Faithful(codec) && codec.pack(request, argument) != "" && codec.pack(reply, result) != ""
    ensures var run := [On(Callback(request, reply)), Emit(request, reply, argument, now),
                        RequestArrives(Request(1, request, reply, codec.pack(request, argument)), result),
                        ReplyArrives(Reply(1, request, reply, codec.pack(reply, result), NoError))];
            After(codec, run).Some? && After(codec, run).value.client.log == [Done(1, result)]
  {
    hide After, Faithful, Pack;
    var a, b := On(Callback(request, reply)), Emit(request, reply, argument, now);
    var m := Request(1, request, reply, codec.pack(request, argument));
    var r := Reply(1, request, reply, codec.pack(reply, result), NoError);
    NoActions(codec);
    assert [] + [a] == [a];
    OneMore(codec, [], FRESH, a);
    var w1 := Apply(codec, FRESH, a);
    assert [a] + [b] == [a, b];
    OneMore(codec, [a], w1, b);
    var w2 := Apply(codec, w1, b);
    assert w2.client.holders == map[1 := Holder(1, request, reply, argument, now, None)];
    ThereAndBack(codec, [a, b], w2, 1, result);
    assert [a, b] + [RequestArrives(m, result), ReplyArrives(r)] == [a, b, RequestArrives(m, result), ReplyArrives(r)];
  }

  lemma NoActions(codec: Codec)
    ensures Reached(codec, [], FRESH)
  {
  }

  /** Or with a timeout of ms: checked at time t the request times out if and only if more than ms have passed. */
  lemma TimedRun(codec: Codec, request: string, reply: string, argument: Value, now: int, ms: nat, t: int)
    ensures var run := [Emit(request, reply, argument, now), SetTimeout(1, ms), CheckTimeout(t, [1])];
            After(codec, run).Some? && After(codec, run).value.client.log == if t - now > ms then [Timeouted(1)] else []
  {
    hide After, Pack;
    var a, b, c := Emit(request, reply, argument, now), SetTimeout(1, ms), CheckTimeout(t, [1]);
    NoActions(codec);
    assert [] + [a] == [a];
    OneMore(codec, [], FRESH, a);
    var w1 := Apply(codec, FRESH, a);
    assert [a] + [b] == [a, b];
    OneMore(codec, [a], w1, b);
    var w2 := Apply(codec, w1, b);
    assert w2.client.holders[1] == Holder(1, request, reply, argument, now, Some(ms)) && w2.client.timed == {1};
    OneMore(codec, [a, b], w2, c);
    assert [a, b] + [c] == [a, b, c];
    assert [1][1..] == [];
    assert Checked(w2.client, t, [1]) == CheckedOne(w2.client, t, 1);
  }
}
