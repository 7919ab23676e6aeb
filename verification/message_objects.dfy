/** MessageBuffer, MessageNameDispatcher and Connection as objects that change their buffers and tables. */
module MessageObjects {
  import opened Options
  import opened Message

  class MessageBuffer {
    var buf: Bytes

    constructor ()
      ensures buf == []
    {
      buf := [];
    }

    /** packMsgByName; data is what the message serializes to. */
    method WriteByName(name: Bytes, data: Bytes) returns (ok: bool)
      modifies this
      ensures ok == PackByName(old(buf), name, data).Some?
      ensures buf == if ok then PackByName(old(buf), name, data).value else old(buf)
    {
      if name == [] || data == [] {
        return false;
      }
      buf := Resized(buf, HEADER + |name| + |data|);
      buf := WithHeader(buf, |name| + |data|, true, |name|);
      buf := Overwritten(buf, HEADER, name);
      buf := Overwritten(buf, HEADER + |name|, data);
      return true;
    }

    /** packMsgByType. */
    method WriteByType(kind: nat, data: Bytes) returns (ok: bool)
      requires kind < 0x1_0000
      modifies this
      ensures ok == PackByType(old(buf), kind, data).Some?
      ensures buf == if ok then PackByType(old(buf), kind, data).value else old(buf)
    {
      if data == [] {
        return false;
      }
      buf := Resized(buf, HEADER + |data|);
      buf := WithHeader(buf, |data|, false, kind);
      buf := Overwritten(buf, HEADER, data);
      return true;
    }
  }

  class MessageNameDispatcher {
    var handlers: map<Bytes, nat>

    constructor ()
      ensures handlers == map[]
    {
      handlers := map[];
    }

    /** bindHandlerPtr. */
    method BindHandler(name: Bytes, handler: nat) returns (ok: bool)
      modifies this
      ensures handlers == Bound(old(handlers), name, handler) && ok == (name !in old(handlers))
    {
      if name in handlers {
        return false;
      }
      handlers := handlers[name := handler];
      return true;
    }

    /** dispatch. */
    method Dispatch(m: Bytes) returns (r: Dispatched<Bytes>)
      ensures r == DispatchByName(handlers, m)
    {
      if |m| < HEADER {
        return SizeInvalid;
      }
      if HEADER + SizeOf(m) != |m| {
        return SizeInvalid;
      }
      if !IsNamed(m) || TypeOf(m) == 0 {
        return HeaderError;
      }
      if TypeOf(m) > SizeOf(m) {
        return Overread;
      }
      var name, body := m[HEADER..HEADER + TypeOf(m)], m[HEADER + TypeOf(m)..];
      if name in handlers {
        return Delivered(handlers[name], name, body);
      }
      return NoHandler(name);
    }
  }

  class Connection {
    var readbuf: Bytes
    ghost var handled: seq<Bytes>

    constructor (readbuf: Bytes)
      ensures this.readbuf == readbuf && handled == []
    {
      this.readbuf, handled := readbuf, [];
    }

    /** readMessages, on a buffer where it ends (EndsIff). */
    method ReadMessages() returns (ok: bool)
      requires !EndsInside(readbuf)
      modifies this
      ensures var r := Read(old(readbuf));
              r.Returns? && ok == r.ok && handled == old(handled) + r.handled && readbuf == r.left
    {
      hide Read, SizeOf, EndsInside;
      SpinsIff(readbuf);
      ghost var r, before := Read(readbuf), handled;
      while |readbuf| >= HEADER
        invariant Read(readbuf) == r.(handled := Read(readbuf).handled)
        invariant before + r.handled == handled + Read(readbuf).handled
        decreases |readbuf|
      {
        ReadNothing(readbuf);
        if SizeOf(readbuf) > LIMIT {
          return false;
        }
        var n := HEADER + SizeOf(readbuf);
        if |readbuf| >= n {
          SizeHere(readbuf[..n], readbuf[n..]);
          assert readbuf == readbuf[..n] + readbuf[n..];
          ReadOne(readbuf[..n], readbuf[n..]);
          handled := handled + [readbuf[..n]];
          readbuf := readbuf[n..];
        }
      }
      ReadNothing(readbuf);
      return true;
    }
  }
}
