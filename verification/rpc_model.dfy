/**
 The RPC protocol of common/tinyrpc_client.h and common/tinyrpc_server.h as a state machine: an
 emitter with its pending requests, a dispatcher with its callbacks, and between them a network that
 loses, repeats and reorders messages.
 */
module RpcModel {
  import opened Options

  type Id = nat

  /** A message of a user's type; the type is told by its name. */
  type Value(==, !new)

  /** serialize and deserialize of the message type with the given name. */
  datatype Codec = Codec(pack: (string, Value) -> string, parse: (string, string) -> Option<Value>)

  /** What is required of a codec: a text that is not empty is parsed back to what was packed. */
  ghost predicate Faithful(codec: Codec) {
    forall name, v :: codec.pack(name, v) != "" ==> codec.parse(name, codec.pack(name, v)) == Some(v)
  }

  // ---------------------------------------------------------------- messages

  datatype ErrorCode =
    | NoError | RequestInvalid | RequestNotMatched | RequestParseError | ReplyPackError
    | ReplyNotMatched | ReplyParseError

  datatype Request = Request(id: Id, request: string, reply: string, body: string)

  datatype Reply = Reply(id: Id, request: string, reply: string, body: string, errcode: ErrorCode)

  /** A protocol buffer with nothing set. */
  const BLANK := Request(0, "", "", "")

  // ---------------------------------------------------------------- the client

  /** RPCHolder; timeout is timeout_ms_, None until setTimeout gives it a value. */
  datatype Holder = Holder(id: Id, request: string, reply: string, argument: Value, created: int, timeout: Option<int>)

  datatype Outcome = Done(id: Id, result: Value) | Error(id: Id, code: ErrorCode) | Timeouted(id: Id)

  /** total_id_, rpc_holders_, the keys of rpc_timeout_holders_, and the callbacks made so far. */
  datatype Client = Client(total: Id, holders: map<Id, Holder>, timed: set<Id>, log: seq<Outcome>)

  /** RPCHolder::pack; on false the request stays blank. */
  function Pack(codec: Codec, h: Holder): Request {
    var body := codec.pack(h.request, h.argument);
    if body == "" then BLANK else Request(h.id, h.request, h.reply, body)
  }

  function NewHolder(c: Client, request: string, reply: string, argument: Value, now: int): Holder {
    Holder(c.total + 1, request, reply, argument, now, None)
  }

  /** RPCEmitter::emit. */
  function Emitted(c: Client, h: Holder): Client {
    c.(total := c.total + 1, holders := c.holders[h.id := h])
  }

  /** setTimeout on a request that is still pending. */
  function TimeoutSet(c: Client, id: Id, ms: int): Client {
    if id !in c.holders then c else
      c.(holders := c.holders[id := c.holders[id].(timeout := Some(ms))],
         timed := if ms != -1 then c.timed + {id} else c.timed)
  }

  /** RPCHolder::replied: which callback is made. */
  function OutcomeOf(codec: Codec, h: Holder, r: Reply): Outcome {
    if r.errcode != NoError then Error(h.id, r.errcode)
    else if r.request != h.request || r.reply != h.reply then Error(h.id, ReplyNotMatched)
    else match codec.parse(h.reply, r.body)
      case None => Error(h.id, ReplyParseError)
      case Some(v) => Done(h.id, v)
  }

  function Removed(c: Client, id: Id): Client {
    c.(holders := c.holders - {id}, timed := c.timed - {id})
  }

  /** RPCEmitter::replied. */
  function Replied(codec: Codec, c: Client, r: Reply): Client {
    if r.id !in c.holders then c
    else Removed(c.(log := c.log + [OutcomeOf(codec, c.holders[r.id], r)]), r.id)
  }

  predicate IsTimeout(h: Holder, now: int) {
    h.timeout.Some? && h.timeout.value >= 0 && now - h.created > h.timeout.value
  }

  /** One turn of the loop in checkTimeout. */
  function CheckedOne(c: Client, now: int, id: Id): Client {
    if id in c.holders && IsTimeout(c.holders[id], now)
    then Removed(c.(log := c.log + [Timeouted(id)]), id) else c
  }

  /** checkTimeout, which meets the holders in the order of a hash map: in any order. */
  function Checked(c: Client, now: int, order: seq<Id>): Client
    decreases |order|
  {
    if order == [] then c else Checked(CheckedOne(c, now, order[0]), now, order[1..])
  }

  // ---------------------------------------------------------------- the server

  /** RPCCallback<Request, Reply>. */
  datatype Callback = Callback(request: string, reply: string)

  type Callbacks = map<string, Callback>

  /** RPCDispatcher::on: the first callback for a request type stays. */
  function Bound(s: Callbacks, cb: Callback): Callbacks {
    if cb.request in s then s else s[cb.request := cb]
  }

  function MakeReply(m: Request, body: string, errcode: ErrorCode): Reply {
    Reply(m.id, m.request, m.reply, body, errcode)
  }

  /** The argument that the user's function is called with, if it is called. */
  function Argument(codec: Codec, s: Callbacks, m: Request): Option<Value> {
    if m.request in s && m.request == s[m.request].request && m.reply == s[m.request].reply
    then codec.parse(s[m.request].request, m.body) else None
  }

  /** RPCDispatcher::requested, where the user's function, if it is called, returns result. */
  function Requested(codec: Codec, s: Callbacks, m: Request, result: Value): Reply {
    if m.request !in s then MakeReply(m, "", RequestInvalid)
    else
      var cb := s[m.request];
      if m.request != cb.request || m.reply != cb.reply then MakeReply(m, "", RequestNotMatched)
      else match codec.parse(cb.request, m.body)
        case None => MakeReply(m, "", RequestParseError)
        case Some(_) =>
          var body := codec.pack(cb.reply, result);
          if body == "" then MakeReply(m, "", ReplyPackError) else MakeReply(m, body, NoError)
  }

  // ---------------------------------------------------------------- the network

  /** The user's function was called for the request id: name(argument) gave result. */
  datatype Call = Call(id: Id, name: string, argument: Value, result: Value)

  /**
   requests and replies are all that was ever sent: any of it may arrive any number of times, at any
   time or never. emitted, calls and refused are history; refused are the requests that arrived when
   their type had no callback.
   */
  datatype World = World(
    client: Client, callbacks: Callbacks, requests: set<Request>, replies: set<Reply>,
    emitted: map<Id, Holder>, calls: set<Call>, refused: set<Id>)

  datatype Action =
    | Emit(request: string, reply: string, argument: Value, now: int)
    | SetTimeout(id: Id, ms: int)
    | On(callback: Callback)
    | RequestArrives(m: Request, result: Value)
    | ReplyArrives(r: Reply)
    | CheckTimeout(now: int, order: seq<Id>)

  predicate Distinct(order: seq<Id>) {
    forall j, k | 0 <= j < k < |order| :: order[j] != order[k]
  }

  /** Only what was sent can arrive; checkTimeout meets every timed holder once. */
  ghost predicate Possible(w: World, a: Action) {
    match a
    case RequestArrives(m, _) => m in w.requests
    case ReplyArrives(r) => r in w.replies
    case CheckTimeout(_, order) =>
      && (forall id :: id in order <==> id in w.client.timed)
      && Distinct(order)
    case _ => true
  }

  function Apply(codec: Codec, w: World, a: Action): World {
    match a
    case Emit(request, reply, argument, now) =>
      var h := NewHolder(w.client, request, reply, argument, now);
      w.(client := Emitted(w.client, h), requests := w.requests + {Pack(codec, h)}, emitted := w.emitted[h.id := h])
    case SetTimeout(id, ms) => w.(client := TimeoutSet(w.client, id, ms))
    case On(cb) => w.(callbacks := Bound(w.callbacks, cb))
    case RequestArrives(m, result) =>
      var argument := Argument(codec, w.callbacks, m);
      w.(replies := w.replies + {Requested(codec, w.callbacks, m, result)},
         calls := if argument.Some? then w.calls + {Call(m.id, m.request, argument.value, result)} else w.calls,
         refused := if m.request !in w.callbacks then w.refused + {m.id} else w.refused)
    case ReplyArrives(r) => w.(client := Replied(codec, w.client, r))
    case CheckTimeout(now, order) => w.(client := Checked(w.client, now, order))
  }

  const FRESH := World(Client(0, map[], {}, []), map[], {}, {}, map[], {}, {})

  /** The world after a history of actions, if each was possible when its turn came. */
  ghost function After(codec: Codec, actions: seq<Action>): Option<World> {
    if actions == [] then Some(FRESH) else
      var w, a := After(codec, actions[..|actions| - 1]), actions[|actions| - 1];
      if w.Some? && Possible(w.value, a) then Some(Apply(codec, w.value, a)) else None
  }
}
