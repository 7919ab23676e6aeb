/**
 RPCHolder, RPCEmitter and RPCDispatcher as objects. The two tables of the emitter point to the same
 holders; each method is proved to do what the function of RpcModel says.
 */
module RpcObjects {
  import opened Options
  import opened RpcModel
  import opened RpcTheorems

  class RPCHolder {
    const id: Id
    const request: string
    const reply: string
    const argument: Value
    const created: int
    var timeout: Option<int>

    constructor (id: Id, request: string, reply: string, argument: Value, created: int)
      ensures AsHolder() == Holder(id, request, reply, argument, created, None)
    {
      this.id, this.request, this.reply, this.argument, this.created := id, request, reply, argument, created;
      timeout := None;
    }

    function AsHolder(): Holder
      reads this
    {
      Holder(id, request, reply, argument, created, timeout)
    }
  }

  class RPCEmitter {
    var totalId: Id
    var rpcHolders: map<Id, RPCHolder>
    var rpcTimeoutHolders: map<Id, RPCHolder>
    ghost var log: seq<Outcome>

    ghost function Holders(): map<Id, Holder>
      reads `rpcHolders, rpcHolders.Values
    {
      map id | id in rpcHolders :: rpcHolders[id].AsHolder()
    }

    ghost function Abs(): Client
      reads this, rpcHolders.Values
    {
      Client(totalId, Holders(), rpcTimeoutHolders.Keys, log)
    }

    ghost predicate Valid()
      reads this
    {
      && (forall id | id in rpcHolders :: rpcHolders[id].id == id && id <= totalId)
      && (forall id | id in rpcTimeoutHolders :: id in rpcHolders && rpcHolders[id] == rpcTimeoutHolders[id])
    }

    lemma HoldersKeys()
      ensures Holders().Keys == rpcHolders.Keys
    {
    }

    lemma HolderHere(id: Id)
      requires id in rpcHolders
      ensures id in Holders() && Holders()[id] == rpcHolders[id].AsHolder()
    {
    }

    constructor ()
      ensures Valid() && Abs() == FRESH.client
    {
      totalId, rpcHolders, rpcTimeoutHolders, log := 0, map[], map[], [];
      new;
      assert Holders() == map[];
    }

    /** One holder is new, or has changed. */
    twostate lemma HolderSet(new h: RPCHolder)
      requires rpcHolders == old(rpcHolders)[h.id := h]
      requires forall id | id in old(rpcHolders) && id != h.id :: rpcHolders[id].AsHolder() == old(rpcHolders[id].AsHolder())
      ensures Holders() == old(Holders())[h.id := h.AsHolder()]
    {
    }

    /** emit, and pack of the new holder. */
    method EmitRequest(codec: Codec, request: string, reply: string, argument: Value, now: int)
      returns (holder: RPCHolder, message: Request)
      requires Valid()
      modifies this
      ensures var h := NewHolder(old(Abs()), request, reply, argument, now);
              Valid() && Abs() == Emitted(old(Abs()), h) && message == Pack(codec, h)
              && holder.AsHolder() == h && fresh(holder) && holder in rpcHolders.Values
    {
      hide Holders;
      totalId := totalId + 1;
      holder := new RPCHolder(totalId, request, reply, argument, now);
      rpcHolders := rpcHolders[holder.id := holder];
      HolderSet(holder);
      assert rpcHolders[holder.id] == holder;
      var body := codec.pack(request, argument);
      message := BLANK;
      if body != "" {
        message := Request(holder.id, request, reply, body);
      }
    }

    /** setTimeout of a pending holder. */
    method SetTimeout(holder: RPCHolder, ms: int)
      requires Valid() && holder.id in rpcHolders && rpcHolders[holder.id] == holder
      modifies holder, `rpcTimeoutHolders
      ensures Valid() && Abs() == TimeoutSet(old(Abs()), holder.id, ms)
    {
      hide Holders;
      HolderHere(holder.id);
      holder.timeout := Some(ms);
      if ms != -1 && holder.id !in rpcTimeoutHolders {
        rpcTimeoutHolders := rpcTimeoutHolders[holder.id := holder];
      }
      HolderSet(holder);
      assert ms != -1 ==> rpcTimeoutHolders.Keys == old(rpcTimeoutHolders.Keys) + {holder.id};
    }

    /** Out of both tables. */
    method Remove(id: Id)
      requires Valid()
      modifies `rpcHolders, `rpcTimeoutHolders
      ensures Valid() && Abs() == Removed(old(Abs()), id)
    {
      rpcTimeoutHolders := rpcTimeoutHolders - {id};
      rpcHolders := rpcHolders - {id};
      assert Holders() == old(Holders()) - {id};
    }

    /** replied: RPCHolder::replied makes one callback. */
    method OnReply(codec: Codec, r: Reply)
      requires Valid()
      modifies `rpcHolders, `rpcTimeoutHolders, `log
      ensures Valid() && Abs() == Replied(codec, old(Abs()), r)
    {
      hide OutcomeOf, Removed;
      if r.id in rpcHolders {
        var outcome := Answer(codec, rpcHolders[r.id], r);
        log := log + [outcome];
        Remove(r.id);
      }
    }

    /** RPCHolder::replied. */
    method Answer(codec: Codec, holder: RPCHolder, r: Reply) returns (outcome: Outcome)
      ensures outcome == OutcomeOf(codec, holder.AsHolder(), r)
    {
      if r.errcode != NoError {
        return Error(holder.id, r.errcode);
      }
      if r.request != holder.request || r.reply != holder.reply {
        return Error(holder.id, ReplyNotMatched);
      }
      var reply := codec.parse(holder.reply, r.body);
      if reply.None? {
        return Error(holder.id, ReplyParseError);
      }
      return Done(holder.id, reply.value);
    }

    /** checkTimeout; order is the order in which the hash map was met. */
    method CheckTimeouts(now: int) returns (count: nat, ghost order: seq<Id>)
      requires Valid()
      modifies `rpcHolders, `rpcTimeoutHolders, `log
      ensures Valid() && Abs() == Checked(old(Abs()), now, order)
      ensures (forall id :: id in order <==> id in old(Abs()).timed) && Distinct(order)
      ensures count == |Expired(old(Abs()), now, order)| && rpcHolders.Keys == old(rpcHolders.Keys) - Expired(old(Abs()), now, order)
    {
      hide Expired, Checked, CheckedOne, Holders;
      ghost var c0, l0 := Abs(), log;
      count, order := 0, [];
      var left := rpcTimeoutHolders.Keys;
      CheckedNone(c0, now);
      HoldersKeys();
      while left != {}
        invariant Valid() && left <= rpcTimeoutHolders.Keys
        invariant Abs() == Checked(c0, now, order)
        invariant forall id :: id in c0.timed <==> id in left || id in order
        invariant (forall id | id in order :: id !in left) && Distinct(order)
        invariant count == |log| - |l0|
        decreases left
      {
        var id :| id in left;
        left := left - {id};
        CheckedSnoc(c0, now, order, id);
        order := order + [id];
        count := CheckOne(now, id, count);
      }
      CheckedIs(c0, now, order);
      CheckedTells(c0, now, order);
      HoldersKeys();
    }

    /** The body of the loop. */
    method CheckOne(now: int, id: Id, count: nat) returns (more: nat)
      requires Valid() && id in rpcTimeoutHolders && count <= |log|
      modifies `rpcHolders, `rpcTimeoutHolders, `log
      ensures Valid() && Abs() == CheckedOne(old(Abs()), now, id) && more - count == |log| - |old(log)|
      ensures old(rpcTimeoutHolders.Keys) - {id} <= rpcTimeoutHolders.Keys
    {
      var holder := rpcTimeoutHolders[id];
      more := count;
      if holder.timeout.Some? && holder.timeout.value >= 0 && now - holder.created > holder.timeout.value {
        log := log + [Timeouted(id)];
        Remove(id);
        more := more + 1;
      }
    }
  }

  lemma CheckedNone(c: Client, now: int)
    ensures Checked(c, now, []) == c
  {
  }

  lemma {:induction false} CheckedSnoc(c: Client, now: int, order: seq<Id>, id: Id)
    ensures Checked(c, now, order + [id]) == CheckedOne(Checked(c, now, order), now, id)
    decreases |order|
  {
    hide CheckedOne;
    if order == [] {
      assert order + [id] == [id] && [id][1..] == [];
    } else {
      assert (order + [id])[1..] == order[1..] + [id];
      CheckedSnoc(CheckedOne(c, now, order[0]), now, order[1..], id);
    }
  }

  class RPCDispatcher {
    var callbacks: Callbacks

    constructor ()
      ensures callbacks == map[]
    {
      callbacks := map[];
    }

    /** on. */
    method On(cb: Callback)
      modifies this
      ensures callbacks == Bound(old(callbacks), cb)
    {
      if cb.request !in callbacks {
        callbacks := callbacks[cb.request := cb];
      }
    }

    /** requested; handler is what the user's function makes of an argument. */
    method OnRequest(codec: Codec, m: Request, handler: Value -> Value) returns (reply: Reply)
      ensures var x := Argument(codec, callbacks, m);
              forall result :: (x.Some? ==> result == handler(x.value)) ==> reply == Requested(codec, callbacks, m, result)
    {
      if m.request !in callbacks {
        return MakeReply(m, "", RequestInvalid);
      }
      var cb := callbacks[m.request];
      if m.request != cb.request || m.reply != cb.reply {
        return MakeReply(m, "", RequestNotMatched);
      }
      var request := codec.parse(cb.request, m.body);
      if request.None? {
        return MakeReply(m, "", RequestParseError);
      }
      var body := codec.pack(cb.reply, handler(request.value));
      if body == "" {
        return MakeReply(m, "", ReplyPackError);
      }
      return MakeReply(m, body, NoError);
    }
  }
}
